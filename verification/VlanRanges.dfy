/** contiguousRanges of internal/l2gw/component.go: a list of VLANs as maximal ranges. */
module VlanRanges {

  datatype Range = Range(lo: nat, hi: nat)

  /** Wraps at 65535, as uint16 does. */
  function Inc16(v: nat): nat {
    (v + 1) % 0x1_0000
  }

  ghost predicate Covered(out: seq<Range>, v: nat) {
    exists i :: 0 <= i < |out| && out[i].lo <= v <= out[i].hi
  }

  /** Non-empty ranges in increasing order, with a gap between any two. */
  ghost predicate Canonical(out: seq<Range>) {
    && (forall i :: 0 <= i < |out| ==> out[i].lo <= out[i].hi)
    && (forall i, j :: 0 <= i < j < |out| ==> out[i].hi + 1 < out[j].lo)
  }

  predicate Sorted(s: seq<nat>) {
    forall i, j :: 0 <= i < j < |s| ==> s[i] <= s[j]
  }

  function Insert(s: seq<nat>, v: nat): (r: seq<nat>)
    ensures forall x :: x in r <==> x == v || x in s
  {
    if s == [] then [v]
    else if v <= s[0] then [v] + s
    else
      assert forall x :: x in s <==> x == s[0] || x in s[1..];
      [s[0]] + Insert(s[1..], v)
  }

  lemma {:induction false} InsertAscends(s: seq<nat>, v: nat)
    requires Sorted(s)
    ensures Sorted(Insert(s, v))
  {
    if s != [] && v > s[0] {
      InsertAscends(s[1..], v);
      var rest := Insert(s[1..], v);
      assert forall x :: x in rest ==> s[0] <= x;
      assert forall j :: 0 <= j < |rest| ==> rest[j] in rest;
      assert forall j :: 0 < j < |rest| + 1 ==> ([s[0]] + rest)[j] == rest[j - 1];
    }
  }

  /** The sorted copy. */
  method Sort(vlans: seq<nat>) returns (sorted: seq<nat>)
    ensures Sorted(sorted) && forall v :: v in sorted <==> v in vlans
  {
    sorted := [];
    for i := 0 to |vlans|
      invariant Sorted(sorted) && forall v :: v in sorted <==> v in vlans[..i]
    {
      InsertAscends(sorted, vlans[i]);
      sorted := Insert(sorted, vlans[i]);
    }
  }

  /** The ranges built so far, the open one last. */
  ghost predicate Built(sorted: seq<nat>, i: nat, out: seq<Range>, lo: nat, hi: nat)
    requires 0 < i <= |sorted|
  {
    && Canonical(out + [Range(lo, hi)])
    && hi == sorted[i - 1]
    && forall v: nat :: v in sorted[..i] <==> Covered(out + [Range(lo, hi)], v)
  }

  lemma CoveredSnoc(out: seq<Range>, r: Range)
    ensures forall v: nat :: Covered(out + [r], v) <==> Covered(out, v) || r.lo <= v <= r.hi
  {
    var more := out + [r];
    assert more[|out|] == r;
    forall v: nat
      ensures Covered(more, v) <==> Covered(out, v) || r.lo <= v <= r.hi
    {
      if Covered(out, v) {
        var k :| 0 <= k < |out| && out[k].lo <= v <= out[k].hi;
        assert more[k].lo <= v <= more[k].hi;
      }
    }
  }

  lemma CanonicalSnoc(out: seq<Range>, r: Range)
    ensures Canonical(out + [r]) <==>
              Canonical(out) && r.lo <= r.hi && forall i :: 0 <= i < |out| ==> out[i].hi + 1 < r.lo
  {
    var more := out + [r];
    assert more[|out|] == r;
    assert forall i :: 0 <= i < |out| ==> more[i] == out[i];
  }

  lemma Extend(sorted: seq<nat>, i: nat, out: seq<Range>, lo: nat, hi: nat)
    requires 0 < i < |sorted| && Built(sorted, i, out, lo, hi) && sorted[i] in {hi, hi + 1}
    ensures Built(sorted, i + 1, out, lo, sorted[i])
  {
    CanonicalSnoc(out, Range(lo, hi));
    CanonicalSnoc(out, Range(lo, sorted[i]));
    CoveredSnoc(out, Range(lo, hi));
    CoveredSnoc(out, Range(lo, sorted[i]));
    assert sorted[..i + 1] == sorted[..i] + [sorted[i]];
  }

  lemma Close(sorted: seq<nat>, i: nat, out: seq<Range>, lo: nat, hi: nat)
    requires 0 < i < |sorted| && Built(sorted, i, out, lo, hi) && sorted[i] > hi + 1
    ensures Built(sorted, i + 1, out + [Range(lo, hi)], sorted[i], sorted[i])
  {
    var closed := out + [Range(lo, hi)];
    CanonicalSnoc(out, Range(lo, hi));
    CanonicalSnoc(closed, Range(sorted[i], sorted[i]));
    CoveredSnoc(closed, Range(sorted[i], sorted[i]));
    assert sorted[..i + 1] == sorted[..i] + [sorted[i]];
  }

  lemma Open(sorted: seq<nat>)
    requires sorted != []
    ensures Built(sorted, 1, [], sorted[0], sorted[0])
  {
    CanonicalSnoc([], Range(sorted[0], sorted[0]));
    CoveredSnoc([], Range(sorted[0], sorted[0]));
    assert sorted[..1] == [sorted[0]];
  }

  /** Sorted, disjoint, non-adjacent ranges that cover exactly the given VLANs. */
  method ContiguousRanges(vlans: seq<nat>) returns (out: seq<Range>)
    requires forall i :: 0 <= i < |vlans| ==> vlans[i] < 0x1_0000
    ensures Canonical(out)
    ensures forall v :: v in vlans <==> Covered(out, v)
  {
    if |vlans| == 0 {
      return [];
    }
    var sorted := Sort(vlans);
    assert vlans[0] in sorted;
    assert sorted[0] in sorted;
    out := [];
    var lo, hi := sorted[0], sorted[0];
    Open(sorted);
    for i := 1 to |sorted|
      invariant Built(sorted, i, out, lo, hi)
    {
      var v := sorted[i];
      assert hi <= v && v in sorted;
      if v == hi || v == Inc16(hi) {
        Extend(sorted, i, out, lo, hi);
        hi := v;
      } else {
        Close(sorted, i, out, lo, hi);
        out := out + [Range(lo, hi)];
        lo, hi := v, v;
      }
    }
    out := out + [Range(lo, hi)];
    assert sorted[..|sorted|] == sorted;
  }

  // ---------------------------------------------------------------- there is only one such list

  lemma CoveredTail(a: seq<Range>, v: nat)
    requires Canonical(a) && a != []
    ensures Covered(a, v) <==> a[0].lo <= v <= a[0].hi || Covered(a[1..], v)
    ensures Covered(a[1..], v) ==> v > a[0].hi + 1
  {
  }

  /** The first range of one list is the first range of the other. */
  lemma SameHead(a: seq<Range>, b: seq<Range>)
    requires Canonical(a) && Canonical(b) && a != [] && b != []
    requires forall v :: Covered(a, v) <==> Covered(b, v)
    ensures a[0].lo >= b[0].lo && (a[0].lo == b[0].lo ==> a[0].hi >= b[0].hi)
  {
    CoveredTail(a, a[0].lo);
    CoveredTail(b, a[0].lo);
    if a[0].lo == b[0].lo && a[0].hi < b[0].hi {
      CoveredTail(b, a[0].hi + 1);
      CoveredTail(a, a[0].hi + 1);
    }
  }

  lemma SameTails(a: seq<Range>, b: seq<Range>)
    requires Canonical(a) && Canonical(b) && a != [] && b != [] && a[0] == b[0]
    requires forall v :: Covered(a, v) <==> Covered(b, v)
    ensures Canonical(a[1..]) && Canonical(b[1..])
    ensures forall v :: Covered(a[1..], v) <==> Covered(b[1..], v)
  {
    forall v
      ensures Covered(a[1..], v) <==> Covered(b[1..], v)
    {
      CoveredTail(a, v);
      CoveredTail(b, v);
    }
  }

  /** Two canonical lists that cover the same VLANs are equal: the result is determined by the set. */
  lemma {:induction false} CanonicalIsUnique(a: seq<Range>, b: seq<Range>)
    requires Canonical(a) && Canonical(b)
    requires forall v :: Covered(a, v) <==> Covered(b, v)
    ensures a == b
    decreases |a|
  {
    if a == [] {
      if b != [] {
        assert Covered(b, b[0].lo);
      }
    } else {
      assert Covered(a, a[0].lo);
      SameHead(a, b);
      SameHead(b, a);
      SameTails(a, b);
      CanonicalIsUnique(a[1..], b[1..]);
      assert a == [a[0]] + a[1..] && b == [b[0]] + b[1..];
    }
  }
}
