/** The reverse index of internal/cgnat/mapping.go: who owns an outside address and port. */
module ReverseIndex {
  import opened Collections
  import opened Optional
  import opened PoolModel

  /** A mapping record together with its identity: Remove compares references, so two records
      with equal contents are still two. */
  datatype Ref = Ref(id: nat, mapping: Mapping)

  datatype BlockKey = BlockKey(ip: IPv4, start: nat)

  function KeyOf(r: Ref): BlockKey {
    BlockKey(r.mapping.outside.ip, r.mapping.outside.start)
  }

  function IPOf(r: Ref): IPv4 {
    r.mapping.outside.ip
  }

  predicate Covers(r: Ref, port: nat) {
    r.mapping.outside.start <= port <= r.mapping.outside.end
  }

  datatype Index = Index(byBlock: map<BlockKey, Ref>, byIP: map<IPv4, seq<Ref>>)

  const EMPTY := Index(map[], map[])

  function ListFor(ix: Index, ip: IPv4): seq<Ref> {
    if ip in ix.byIP then ix.byIP[ip] else []
  }

  // ---------------------------------------------------------------- operations as values

  function AddRef(ix: Index, r: Ref): Index {
    Index(ix.byBlock[KeyOf(r) := r], ix.byIP[IPOf(r) := ListFor(ix, IPOf(r)) + [r]])
  }

  /** The list without the first occurrence of r. */
  function Without(list: seq<Ref>, r: Ref): seq<Ref> {
    if list == [] then []
    else if list[0] == r then list[1..]
    else [list[0]] + Without(list[1..], r)
  }

  function PutList(byIP: map<IPv4, seq<Ref>>, ip: IPv4, list: seq<Ref>): map<IPv4, seq<Ref>> {
    if list == [] then byIP - {ip} else byIP[ip := list]
  }

  function RemoveAt(ix: Index, key: BlockKey): Index {
    if key !in ix.byBlock then ix
    else Index(ix.byBlock - {key}, PutList(ix.byIP, key.ip, Without(ListFor(ix, key.ip), ix.byBlock[key])))
  }

  /** The first entry of the list that covers the port. */
  function FirstCovering(list: seq<Ref>, port: nat): (r: Option<Ref>)
    ensures r.Some? ==> r.value in list && Covers(r.value, port)
    ensures r.None? <==> forall x :: x in list ==> !Covers(x, port)
  {
    if list == [] then None
    else if Covers(list[0], port) then Some(list[0])
    else FirstCovering(list[1..], port)
  }

  function LookUp(ix: Index, ip: IPv4, port: nat): Option<Ref> {
    FirstCovering(ListFor(ix, ip), port)
  }

  // ---------------------------------------------------------------- the two maps agree

  ghost predicate CoherentList(ix: Index, ip: IPv4, list: seq<Ref>) {
    && list != [] && Distinct(list)
    && forall r :: r in list ==> IPOf(r) == ip && KeyOf(r) in ix.byBlock && ix.byBlock[KeyOf(r)] == r
  }

  /** byBlock and byIP describe the same set of mappings. */
  ghost predicate Coherent(ix: Index) {
    && (forall key :: key in ix.byBlock ==> KeyOf(ix.byBlock[key]) == key && ix.byBlock[key] in ListFor(ix, key.ip))
    && (forall ip :: ip in ix.byIP ==> CoherentList(ix, ip, ix.byIP[ip]))
  }

  predicate Indexed(ix: Index, r: Ref) {
    KeyOf(r) in ix.byBlock && ix.byBlock[KeyOf(r)] == r
  }

  lemma ListedIffIndexed(ix: Index, r: Ref)
    requires Coherent(ix)
    ensures r in ListFor(ix, IPOf(r)) <==> Indexed(ix, r)
  {
  }

  lemma AddIndexes(ix: Index, r: Ref)
    ensures forall x :: Indexed(AddRef(ix, r), x) <==> x == r || (Indexed(ix, x) && KeyOf(x) != KeyOf(r))
  {
  }

  lemma AddNew(ix: Index, r: Ref)
    requires Coherent(ix) && KeyOf(r) !in ix.byBlock
    ensures Coherent(AddRef(ix, r))
  {
    var ix' := AddRef(ix, r);
    var list := ListFor(ix, IPOf(r));
    assert r !in list by {
      ListedIffIndexed(ix, r);
    }
    forall ip | ip in ix'.byIP
      ensures CoherentList(ix', ip, ix'.byIP[ip])
    {
      assert ip in ix.byIP ==> CoherentList(ix, ip, ix.byIP[ip]);
    }
  }

  lemma AddAgain(ix: Index, r: Ref)
    requires Coherent(ix) && KeyOf(r) in ix.byBlock
    ensures !Coherent(AddRef(ix, r))
  {
    var ix' := AddRef(ix, r);
    var list := ListFor(ix, IPOf(r));
    var first := ix.byBlock[KeyOf(r)];
    assert first in list;
    var i :| 0 <= i < |list| && list[i] == first;
    assert ix'.byIP[IPOf(r)] == list + [r];
    assert (list + [r])[i] == first && (list + [r])[|list|] == r;
    assert first in list + [r];
    assert !CoherentList(ix', IPOf(r), list + [r]);
  }

  /** Adding keeps the maps in agreement exactly when the block is not there already. */
  lemma AddCoherentIff(ix: Index, r: Ref)
    requires Coherent(ix)
    ensures Coherent(AddRef(ix, r)) <==> KeyOf(r) !in ix.byBlock
  {
    if KeyOf(r) in ix.byBlock {
      AddAgain(ix, r);
    } else {
      AddNew(ix, r);
    }
  }

  lemma {:induction false} WithoutMeans(list: seq<Ref>, r: Ref)
    requires Distinct(list)
    ensures Distinct(Without(list, r))
    ensures forall x :: x in Without(list, r) <==> x in list && x != r
  {
    if list != [] {
      assert Distinct(list[1..]);
      WithoutMeans(list[1..], r);
      if list[0] != r {
        assert list[0] !in list[1..];
      }
    }
  }

  /** Removing takes out the mapping of that block and nothing else. */
  lemma OtherListKept(ix: Index, key: BlockKey, ip: IPv4)
    requires Coherent(ix) && key in ix.byBlock && ip in ix.byIP && ip != key.ip
    ensures ip in RemoveAt(ix, key).byIP && CoherentList(RemoveAt(ix, key), ip, ix.byIP[ip])
  {
    assert CoherentList(ix, ip, ix.byIP[ip]);
  }

  lemma RemoveFromList(ix: Index, key: BlockKey)
    requires Coherent(ix) && key in ix.byBlock
    ensures var list := Without(ListFor(ix, key.ip), ix.byBlock[key]);
            list != [] ==> CoherentList(RemoveAt(ix, key), key.ip, list)
    ensures forall k :: k in ix.byBlock && k != key && k.ip == key.ip ==>
              ix.byBlock[k] in Without(ListFor(ix, key.ip), ix.byBlock[key])
  {
    assert ix.byBlock[key] in ListFor(ix, key.ip);
    assert CoherentList(ix, key.ip, ListFor(ix, key.ip));
    WithoutMeans(ListFor(ix, key.ip), ix.byBlock[key]);
  }

  lemma RemoveCoherent(ix: Index, key: BlockKey)
    requires Coherent(ix)
    ensures Coherent(RemoveAt(ix, key))
    ensures forall x :: Indexed(RemoveAt(ix, key), x) <==> Indexed(ix, x) && KeyOf(x) != key
  {
    if key in ix.byBlock {
      var ix' := RemoveAt(ix, key);
      RemoveFromList(ix, key);
      forall ip | ip in ix'.byIP
        ensures CoherentList(ix', ip, ix'.byIP[ip])
      {
        if ip != key.ip {
          OtherListKept(ix, key, ip);
        }
      }
    }
  }

  // ---------------------------------------------------------------- lookup

  /** No two indexed mappings of one address cover the same port. */
  ghost predicate Disjoint(ix: Index) {
    forall x, y, port: nat ::
      Indexed(ix, x) && Indexed(ix, y) && IPOf(x) == IPOf(y) && Covers(x, port) && Covers(y, port) ==> x == y
  }

  /** Lookup finds the one mapping that covers the port, and nothing when none does. */
  lemma LookUpIsExact(ix: Index, ip: IPv4, port: nat)
    requires Coherent(ix) && Disjoint(ix)
    ensures forall r :: LookUp(ix, ip, port) == Some(r) <==> Indexed(ix, r) && IPOf(r) == ip && Covers(r, port)
  {
  }

  /** Re-adding a block that is indexed under another record, as activation does when the
      subscriber already holds it, leaves a stale entry: after the one Remove of the
      release, Lookup still answers with the first record. */
  lemma ReAddLeavesStale(ix: Index, first: Ref, second: Ref, port: nat)
    requires Coherent(ix) && Indexed(ix, first) && first != second
    requires second.mapping.outside == first.mapping.outside && Covers(first, port)
    ensures var after := RemoveAt(AddRef(ix, second), KeyOf(second));
            && KeyOf(first) !in after.byBlock
            && first in ListFor(after, IPOf(first)) && LookUp(after, IPOf(first), port).Some?
  {
    var list := ListFor(ix, IPOf(first));
    ListedIffIndexed(ix, first);
    WithoutKeeps(list + [second], second, first);
  }

  lemma {:induction false} WithoutKeeps(list: seq<Ref>, r: Ref, x: Ref)
    requires x in list && x != r
    ensures x in Without(list, r)
  {
    if list[0] != r && list[0] != x {
      WithoutKeeps(list[1..], r, x);
    }
  }

  // ---------------------------------------------------------------- the index as the program holds it

  class Reverse {
    var byBlock: map<BlockKey, Ref>
    var byIP: map<IPv4, seq<Ref>>

    function View(): Index
      reads this
    {
      Index(byBlock, byIP)
    }

    constructor ()
      ensures View() == EMPTY
    {
      byBlock, byIP := map[], map[];
    }

    method Add(r: Ref)
      modifies this
      ensures View() == AddRef(old(View()), r)
    {
      byBlock := byBlock[KeyOf(r) := r];
      var list := if IPOf(r) in byIP then byIP[IPOf(r)] else [];
      byIP := byIP[IPOf(r) := list + [r]];
    }

    method Remove(ip: IPv4, start: nat)
      modifies this
      ensures View() == RemoveAt(old(View()), BlockKey(ip, start))
    {
      var key := BlockKey(ip, start);
      if key !in byBlock {
        return;
      }
      var r := byBlock[key];
      byBlock := byBlock - {key};
      var list := if ip in byIP then byIP[ip] else [];
      var rest := list;
      for i := 0 to |list|
        invariant rest == list && r !in list[..i]
      {
        if list[i] == r {
          rest := list[..i] + list[i + 1..];
          SpliceIsWithout(list, r, i);
          break;
        }
      }
      assert list[..|list|] == list;
      AbsentIsWithout(list, r);
      if rest == [] {
        byIP := byIP - {ip};
      } else {
        byIP := byIP[ip := rest];
      }
    }

    method Lookup(ip: IPv4, port: nat) returns (r: Option<Ref>)
      ensures r == LookUp(View(), ip, port)
    {
      if ip !in byIP {
        return None;
      }
      var list := byIP[ip];
      for i := 0 to |list|
        invariant FirstCovering(list, port) == FirstCovering(list[i..], port)
      {
        if Covers(list[i], port) {
          return Some(list[i]);
        }
        assert list[i..][1..] == list[i + 1..];
      }
      return None;
    }
  }

  lemma {:induction false} SpliceIsWithout(list: seq<Ref>, r: Ref, i: nat)
    requires i < |list| && list[i] == r && r !in list[..i]
    ensures Without(list, r) == list[..i] + list[i + 1..]
  {
    if i > 0 {
      assert list[0] in list[..i];
      assert forall x :: x in list[1..][..i - 1] ==> x in list[..i];
      SpliceIsWithout(list[1..], r, i - 1);
      assert list[..i] == [list[0]] + list[1..][..i - 1];
    }
  }

  lemma {:induction false} AbsentIsWithout(list: seq<Ref>, r: Ref)
    ensures r !in list ==> Without(list, r) == list
  {
    if list != [] {
      AbsentIsWithout(list[1..], r);
      assert [list[0]] + list[1..] == list;
    }
  }
}
