/** Snapshot and replay: feeding GetAllMappings back through RestoreMappingIfAbsent into a
    freshly configured pool rebuilds the pool, in any order and however often repeated. */
module Snapshot {
  import opened Collections
  import opened Bitmap
  import opened PoolModel
  import opened PoolInvariant
  import opened PoolLaws

  function Replay(p: Pool, ms: seq<Mapping>): (q: Pool)
    requires ValidConfig(p.cfg)
    ensures q.cfg == p.cfg && q.name == p.name && q.id == p.id
  {
    if ms == [] then p
    else RestoreIfAbsent(Replay(p, ms[..|ms| - 1]), ms[|ms| - 1])
  }

  /** The blocks of one subscriber, in the order they are listed. */
  function Listed(ms: seq<Mapping>, key: Key): seq<Block> {
    if ms == [] then []
    else
      var rest := Listed(ms[..|ms| - 1], key);
      var m := ms[|ms| - 1];
      if m.inside == key then rest + [m.outside] else rest
  }

  predicate Lists(ms: seq<Mapping>, key: Key, b: Block) {
    exists i :: 0 <= i < |ms| && ms[i].inside == key && ms[i].outside == b
  }

  predicate IsMappingOf(p: Pool, m: Mapping) {
    && HeldBy(p, m.inside, m.outside)
    && m == Mapping(p.name, p.id, m.inside, m.outside, p.subs[m.inside].swIfIndex)
  }

  /** Every listed mapping is one the pool holds, with its subscriber's interface. */
  ghost predicate FromPool(p: Pool, ms: seq<Mapping>) {
    forall m :: m in ms ==> IsMappingOf(p, m)
  }

  /** A list GetAllMappings can return for this pool: each subscriber's blocks, in order;
      the subscribers in any order. */
  ghost predicate IsSnapshot(p: Pool, ms: seq<Mapping>) {
    FromPool(p, ms) && forall key :: Listed(ms, key) == Blocks(p, key)
  }

  /** A list with the same mappings, in any order and any number of times. */
  ghost predicate SameMappings(p: Pool, ms: seq<Mapping>) {
    FromPool(p, ms) && forall key, b :: HeldBy(p, key, b) ==> Lists(ms, key, b)
  }

  lemma {:induction false} ListedMeans(ms: seq<Mapping>, key: Key, b: Block)
    ensures b in Listed(ms, key) <==> Lists(ms, key, b)
  {
    if ms != [] {
      var front, m := ms[..|ms| - 1], ms[|ms| - 1];
      ListedMeans(front, key, b);
      ListsAppend(front, m, key, b);
      assert front + [m] == ms;
    }
  }

  lemma ListedHeld(p: Pool, ms: seq<Mapping>)
    requires FromPool(p, ms)
    ensures forall key, b :: Lists(ms, key, b) ==> HeldBy(p, key, b)
  {
    forall key, b | Lists(ms, key, b)
      ensures HeldBy(p, key, b)
    {
      var i :| 0 <= i < |ms| && ms[i].inside == key && ms[i].outside == b;
      assert ms[i] in ms;
    }
  }

  /** A snapshot lists every mapping of the pool. */
  lemma SnapshotIsComplete(p: Pool, ms: seq<Mapping>)
    requires IsSnapshot(p, ms)
    ensures SameMappings(p, ms)
  {
    forall key, b | HeldBy(p, key, b)
      ensures Lists(ms, key, b)
    {
      assert b in Listed(ms, key);
      ListedMeans(ms, key, b);
    }
  }

  // ---------------------------------------------------------------- replay

  /** Replay of part of p's mappings into e, an empty pool of p's configuration. */
  ghost predicate Rebuilding(e: Pool, p: Pool) {
    && Inv(e) && Inv(p) && e.subs == map[]
    && e.cfg == p.cfg && e.name == p.name && e.id == p.id && SameIPs(e.addrs, p.addrs)
  }

  /** q is a sound pool with p's addresses that holds exactly the listed blocks. */
  ghost predicate Rebuilt(q: Pool, p: Pool, ms: seq<Mapping>) {
    && Inv(q) && q.cfg == p.cfg && SameIPs(q.addrs, p.addrs)
    && (forall k, b :: HeldBy(q, k, b) <==> Lists(ms, k, b))
    && (forall k :: k in q.subs ==> k in p.subs && q.subs[k].swIfIndex == p.subs[k].swIfIndex)
  }

  lemma OneMoreReplayed(q: Pool, p: Pool, ms: seq<Mapping>, m: Mapping)
    requires Inv(p) && Rebuilt(q, p, ms) && FromPool(p, ms) && IsMappingOf(p, m)
    ensures Rebuilt(RestoreIfAbsent(q, m), p, ms + [m])
  {
    ListedHeld(p, ms);
    RestoreOne(q, p, m);
    forall k, b
      ensures HeldBy(RestoreIfAbsent(q, m), k, b) <==> Lists(ms + [m], k, b)
    {
      ListsAppend(ms, m, k, b);
    }
  }

  lemma {:induction false} ReplayHolds(e: Pool, p: Pool, ms: seq<Mapping>)
    requires Rebuilding(e, p) && FromPool(p, ms)
    ensures Rebuilt(Replay(e, ms), p, ms)
  {
    if ms == [] {
      assert forall k, b :: !HeldBy(e, k, b);
    } else {
      var front, m := ms[..|ms| - 1], ms[|ms| - 1];
      assert forall x :: x in front ==> x in ms;
      ReplayHolds(e, p, front);
      assert m in ms;
      OneMoreReplayed(Replay(e, front), p, front, m);
      assert front + [m] == ms;
    }
  }

  lemma ListsAppend(ms: seq<Mapping>, m: Mapping, key: Key, b: Block)
    ensures Lists(ms + [m], key, b) <==> Lists(ms, key, b) || (m.inside == key && m.outside == b)
  {
    if Lists(ms, key, b) {
      var i :| 0 <= i < |ms| && ms[i].inside == key && ms[i].outside == b;
      assert (ms + [m])[i] == ms[i];
    }
    assert (ms + [m])[|ms|] == m;
  }

  /** Part of p, in a pool with p's addresses. */
  ghost predicate PartOf(q: Pool, p: Pool) {
    && Inv(q) && Inv(p) && q.cfg == p.cfg && SameIPs(q.addrs, p.addrs)
    && forall k, b :: HeldBy(q, k, b) ==> HeldBy(p, k, b)
  }

  /** A mapping of p can be restored into any part of p: its block is free there, or
      already its subscriber's. */
  lemma PartRestorable(q: Pool, p: Pool, m: Mapping)
    requires PartOf(q, p) && HeldBy(p, m.inside, m.outside)
    ensures Restorable(q, m) && InPool(q.cfg, q.addrs, m.outside)
    ensures Present(q, m) <==> HeldBy(q, m.inside, m.outside)
  {
    HeldInPool(p, m.inside);
    SameIPsSamePool(p.cfg, q.addrs, p.addrs);
    PresentMeansHeld(q, m);
    if Marked(q.cfg, q.addrs, m.outside) {
      assert SomeoneHolds(q.subs, m.outside);
      var k :| Holds(q.subs, k, m.outside);
      assert HeldBy(q, k, m.outside) && HeldBy(p, k, m.outside);
    }
  }

  lemma RestoreOne(q: Pool, p: Pool, m: Mapping)
    requires PartOf(q, p) && HeldBy(p, m.inside, m.outside) && m.swIfIndex == p.subs[m.inside].swIfIndex
    requires forall k :: k in q.subs ==> k in p.subs && q.subs[k].swIfIndex == p.subs[k].swIfIndex
    ensures var q' := RestoreIfAbsent(q, m);
            && Inv(q') && SameIPs(q'.addrs, p.addrs)
            && (forall k, b :: HeldBy(q', k, b) <==> HeldBy(q, k, b) || (k == m.inside && b == m.outside))
            && (forall k :: k in q'.subs ==> k in p.subs && q'.subs[k].swIfIndex == p.subs[k].swIfIndex)
  {
    PartRestorable(q, p, m);
    RestoreKeepsInv(q, m);
    TakeBlockSameIPs(q.cfg, q.addrs, m.outside);
  }

  // ---------------------------------------------------------------- equal bitmaps

  lemma SameMarksSameBitmaps(cfg: Config, a: seq<Address>, c: seq<Address>)
    requires ValidConfig(cfg) && ValidAddresses(cfg, a) && ValidAddresses(cfg, c) && SameIPs(a, c)
    requires forall b :: InPool(cfg, a, b) ==> (Marked(cfg, a, b) <==> Marked(cfg, c, b))
    ensures a == c
  {
    forall i | 0 <= i < |a|
      ensures a[i] == c[i]
    {
      forall k: nat
        ensures Taken(a[i].words, k) == Taken(c[i].words, k)
      {
        if k < a[i].total && AddrIndex(a, a[i].ip) == i {
          SameIPsSameIndex(a, c, a[i].ip);
          BlockOfSlot(cfg, a, i, k);
          BlockOfSlot(cfg, c, i, k);
          assert Marked(cfg, a, BlockAt(cfg, a[i].ip, k)) == Marked(cfg, c, BlockAt(cfg, a[i].ip, k));
        }
      }
      TakenDeterminesBitmap(a[i].words, c[i].words);
    }
  }

  lemma SameHoldersSameBitmaps(p: Pool, q: Pool)
    requires Inv(p) && Inv(q) && p.cfg == q.cfg && SameIPs(q.addrs, p.addrs)
    requires forall k, b :: HeldBy(q, k, b) <==> HeldBy(p, k, b)
    ensures q.addrs == p.addrs
  {
    SameIPsSamePool(p.cfg, q.addrs, p.addrs);
    forall b | InPool(p.cfg, q.addrs, b)
      ensures Marked(p.cfg, q.addrs, b) <==> Marked(p.cfg, p.addrs, b)
    {
      if SomeoneHolds(p.subs, b) {
        var k :| Holds(p.subs, k, b);
        assert HeldBy(p, k, b) && HeldBy(q, k, b);
      }
      if SomeoneHolds(q.subs, b) {
        var k :| Holds(q.subs, k, b);
        assert HeldBy(q, k, b) && HeldBy(p, k, b);
      }
    }
    SameMarksSameBitmaps(p.cfg, q.addrs, p.addrs);
  }

  /** Replaying the mappings in any order, with any repetition, gives the same bitmaps, the
      same subscribers, and for each the same set of blocks. */
  lemma ReplayAnyOrder(e: Pool, p: Pool, ms: seq<Mapping>)
    requires Rebuilding(e, p) && SameMappings(p, ms)
    ensures var q := Replay(e, ms);
            && q.addrs == p.addrs && q.subs.Keys == p.subs.Keys
            && (forall k, b :: HeldBy(q, k, b) <==> HeldBy(p, k, b))
            && (forall k :: k in q.subs ==> q.subs[k].swIfIndex == p.subs[k].swIfIndex)
  {
    var q := Replay(e, ms);
    ReplayHolds(e, p, ms);
    ListedHeld(p, ms);
    forall k, b
      ensures HeldBy(q, k, b) <==> HeldBy(p, k, b)
    {
    }
    SameHoldersSameBitmaps(p, q);
    forall k | k in p.subs
      ensures k in q.subs
    {
      assert HeldBy(p, k, p.subs[k].blocks[0]);
      assert HeldBy(q, k, p.subs[k].blocks[0]);
    }
  }

  // ---------------------------------------------------------------- exact round trip

  lemma ReplayIsPart(e: Pool, p: Pool, ms: seq<Mapping>)
    requires Rebuilding(e, p) && FromPool(p, ms)
    ensures PartOf(Replay(e, ms), p)
  {
    ReplayHolds(e, p, ms);
    ListedHeld(p, ms);
  }

  lemma RestoreOther(q: Pool, m: Mapping, key: Key)
    requires ValidConfig(q.cfg) && key != m.inside
    ensures Blocks(RestoreIfAbsent(q, m), key) == Blocks(q, key)
  {
  }

  lemma {:induction false} ReplayKeepsOrder(e: Pool, p: Pool, ms: seq<Mapping>, key: Key)
    requires Rebuilding(e, p) && FromPool(p, ms) && Distinct(Listed(ms, key))
    ensures Blocks(Replay(e, ms), key) == Listed(ms, key)
  {
    if ms != [] {
      var front, m := ms[..|ms| - 1], ms[|ms| - 1];
      assert forall x :: x in front ==> x in ms;
      assert m in ms;
      if m.inside == key {
        var listed := Listed(front, key);
        assert Listed(ms, key) == listed + [m.outside];
        assert (listed + [m.outside])[|listed|] == m.outside;
        assert Distinct(listed) && m.outside !in listed by {
          assert forall i :: 0 <= i < |listed| ==> (listed + [m.outside])[i] == listed[i];
        }
        ReplayKeepsOrder(e, p, front, key);
        ReplayIsPart(e, p, front);
        RestoreFresh(Replay(e, front), p, m);
      } else {
        ReplayKeepsOrder(e, p, front, key);
        RestoreOther(Replay(e, front), m, key);
      }
    }
  }

  lemma RestoreFresh(q: Pool, p: Pool, m: Mapping)
    requires PartOf(q, p) && HeldBy(p, m.inside, m.outside) && m.outside !in Blocks(q, m.inside)
    ensures Blocks(RestoreIfAbsent(q, m), m.inside) == Blocks(q, m.inside) + [m.outside]
  {
    PartRestorable(q, p, m);
  }

  /** Replaying a snapshot rebuilds the pool exactly: words, subscribers and block order. */
  lemma SnapshotRoundTrip(e: Pool, p: Pool, ms: seq<Mapping>)
    requires Rebuilding(e, p) && IsSnapshot(p, ms)
    ensures Replay(e, ms) == p
  {
    var q := Replay(e, ms);
    SnapshotIsComplete(p, ms);
    ReplayAnyOrder(e, p, ms);
    forall k | k in p.subs
      ensures q.subs[k] == p.subs[k]
    {
      ReplayKeepsOrder(e, p, ms, k);
    }
    assert q.subs == p.subs;
  }

  // ---------------------------------------------------------------- reachable pools

  lemma StepSameIPs(p: Pool, op: Op)
    requires Inv(p) && (op.OpRestore? ==> Restorable(p, op.mapping))
    ensures SameIPs(p.addrs, Step(p, op).addrs) && Step(p, op).name == p.name && Step(p, op).id == p.id
  {
    match op
    case OpAllocate(key, sw) =>
    case OpGetOrAllocate(key, sw) =>
    case OpRelease(key) =>
      if key in p.subs {
        HeldInPool(p, key);
        FreeBlocksUnmark(p.cfg, p.addrs, p.subs[key].blocks);
      }
    case OpRestore(m) =>
      TakeBlockSameIPs(p.cfg, p.addrs, m.outside);
  }

  lemma {:induction false} RunSameIPs(p: Pool, ops: seq<Op>)
    requires Inv(p) && RestoresSound(p, ops)
    ensures SameIPs(p.addrs, Run(p, ops).addrs) && Run(p, ops).name == p.name && Run(p, ops).id == p.id
  {
    if ops != [] {
      var front := ops[..|ops| - 1];
      RestoresSoundFront(p, ops);
      RunKeepsInv(p, front);
      RunSameIPs(p, front);
      StepSameIPs(Run(p, front), ops[|ops| - 1]);
    }
  }

  /** Whatever run led to the pool, its snapshot replayed into the pool as first configured
      gives it back exactly. */
  lemma ReachableRoundTrip(name: string, id: nat, cfg: Config, ips: seq<IPv4>, excluded: set<IPv4>, ops: seq<Op>,
                           ms: seq<Mapping>)
    requires ValidConfig(cfg) && ListedOnce(ips, excluded)
    requires RestoresSound(Configure(name, id, cfg, ips, excluded), ops)
    requires IsSnapshot(Run(Configure(name, id, cfg, ips, excluded), ops), ms)
    ensures Replay(Configure(name, id, cfg, ips, excluded), ms) == Run(Configure(name, id, cfg, ips, excluded), ops)
  {
    var e := Configure(name, id, cfg, ips, excluded);
    ConfigureInv(name, id, cfg, ips, excluded);
    RunKeepsInv(e, ops);
    RunSameIPs(e, ops);
    SnapshotRoundTrip(e, Run(e, ops), ms);
  }

  // ---------------------------------------------------------------- all pools together

  /** The mappings of one pool, in the order they are listed. */
  function OfPool(ms: seq<Mapping>, pool: string): seq<Mapping> {
    if ms == [] then []
    else
      var rest := OfPool(ms[..|ms| - 1], pool);
      if ms[|ms| - 1].poolName == pool then rest + [ms[|ms| - 1]] else rest
  }

  /** RestoreMappingIfAbsent, mapping by mapping, each into the pool it names. */
  function ReplayAll(pools: map<string, Pool>, ms: seq<Mapping>): (r: map<string, Pool>)
    requires forall n :: n in pools ==> ValidConfig(pools[n].cfg)
    ensures r.Keys == pools.Keys && forall n :: n in pools ==> r[n].cfg == pools[n].cfg
  {
    if ms == [] then pools
    else
      var rest := ReplayAll(pools, ms[..|ms| - 1]);
      var m := ms[|ms| - 1];
      if m.poolName in rest then rest[m.poolName := RestoreIfAbsent(rest[m.poolName], m)] else rest
  }

  lemma {:induction false} ReplayAllByPool(pools: map<string, Pool>, ms: seq<Mapping>, n: string)
    requires n in pools && forall k :: k in pools ==> ValidConfig(pools[k].cfg)
    ensures ReplayAll(pools, ms)[n] == Replay(pools[n], OfPool(ms, n))
  {
    if ms != [] {
      var front, m := ms[..|ms| - 1], ms[|ms| - 1];
      ReplayAllByPool(pools, front, n);
      if m.poolName == n {
        var mine := OfPool(front, n) + [m];
        assert mine[..|mine| - 1] == OfPool(front, n);
      }
    }
  }

  /** A list GetAllMappings can return for the whole manager. */
  ghost predicate IsFullSnapshot(pools: map<string, Pool>, ms: seq<Mapping>) {
    forall n :: n in pools ==> IsSnapshot(pools[n], OfPool(ms, n))
  }

  /** One snapshot of all pools, replayed into all pools as first configured, restores
      every one of them. */
  lemma FullRoundTrip(empty: map<string, Pool>, pools: map<string, Pool>, ms: seq<Mapping>)
    requires empty.Keys == pools.Keys
    requires forall n :: n in empty ==> ValidConfig(empty[n].cfg)
    requires forall n :: n in pools ==> Rebuilding(empty[n], pools[n])
    requires IsFullSnapshot(pools, ms)
    ensures ReplayAll(empty, ms) == pools
  {
    forall n | n in pools
      ensures ReplayAll(empty, ms)[n] == pools[n]
    {
      ReplayAllByPool(empty, ms, n);
      SnapshotRoundTrip(empty[n], pools[n], OfPool(ms, n));
    }
  }

  // ---------------------------------------------------------------- building a snapshot

  lemma {:induction false} ListedAppend(ms: seq<Mapping>, more: seq<Mapping>, key: Key)
    ensures Listed(ms + more, key) == Listed(ms, key) + Listed(more, key)
  {
    if more == [] {
      assert ms + more == ms;
    } else {
      var front, m := more[..|more| - 1], more[|more| - 1];
      ListedAppend(ms, front, key);
      assert (ms + more)[..|ms + more| - 1] == ms + front;
    }
  }

  lemma {:induction false} OfPoolAppend(ms: seq<Mapping>, more: seq<Mapping>, n: string)
    ensures OfPool(ms + more, n) == OfPool(ms, n) + OfPool(more, n)
  {
    if more == [] {
      assert ms + more == ms;
    } else {
      OfPoolAppend(ms, more[..|more| - 1], n);
      assert (ms + more)[..|ms + more| - 1] == ms + more[..|more| - 1];
    }
  }

  lemma {:induction false} OfPoolSame(ms: seq<Mapping>, pool: string, n: string)
    requires forall m :: m in ms ==> m.poolName == pool
    ensures OfPool(ms, n) == if n == pool then ms else []
  {
    if ms != [] {
      var front := ms[..|ms| - 1];
      assert forall m :: m in front ==> m in ms;
      assert ms[|ms| - 1] in ms && front + [ms[|ms| - 1]] == ms;
      OfPoolSame(front, pool, n);
    }
  }

  /** The mappings of one subscriber list its blocks and nobody else's. */
  lemma {:induction false} ListedOne(ms: seq<Mapping>, owner: Key, blocks: seq<Block>, key: Key)
    requires |ms| == |blocks| && forall i :: 0 <= i < |ms| ==> ms[i].inside == owner && ms[i].outside == blocks[i]
    ensures Listed(ms, key) == if key == owner then blocks else []
  {
    if ms != [] {
      ListedOne(ms[..|ms| - 1], owner, blocks[..|blocks| - 1], key);
      assert blocks[..|blocks| - 1] + [blocks[|blocks| - 1]] == blocks;
    }
  }

  /** The mappings of one subscriber, in order. */
  ghost predicate IsListOf(p: Pool, key: Key, more: seq<Mapping>) {
    && |more| == |Blocks(p, key)|
    && forall i :: 0 <= i < |more| ==>
         key in p.subs && more[i] == MappingOf(p, key, Blocks(p, key)[i], p.subs[key].swIfIndex)
  }

  /** The subscribers outside todo are listed, those in it are not. */
  ghost predicate IsPoolPart(p: Pool, todo: set<Key>, ms: seq<Mapping>) {
    FromPool(p, ms) && forall key :: Listed(ms, key) == if key in todo then [] else Blocks(p, key)
  }

  lemma ExtendPool(p: Pool, todo: set<Key>, ms: seq<Mapping>, key: Key, more: seq<Mapping>)
    requires IsPoolPart(p, todo, ms) && key in todo && IsListOf(p, key, more)
    ensures IsPoolPart(p, todo - {key}, ms + more)
  {
    forall k
      ensures Listed(ms + more, k) == Listed(ms, k) + (if k == key then Blocks(p, key) else [])
    {
      ListedAppend(ms, more, k);
      ListedOne(more, key, Blocks(p, key), k);
    }
    forall m | m in more
      ensures IsMappingOf(p, m)
    {
      var i :| 0 <= i < |more| && more[i] == m;
      assert Blocks(p, key)[i] in Blocks(p, key);
    }
  }

  /** ms is a snapshot of the pool, or lists nothing of it while it is in todo. */
  ghost predicate PartAt(p: Pool, n: string, todo: set<string>, ms: seq<Mapping>) {
    if n in todo then OfPool(ms, n) == [] else IsSnapshot(p, OfPool(ms, n))
  }

  ghost predicate IsPartSnapshot(pools: map<string, Pool>, todo: set<string>, ms: seq<Mapping>) {
    forall n :: n in pools ==> PartAt(pools[n], n, todo, ms)
  }

  lemma ExtendSnapshot(pools: map<string, Pool>, todo: set<string>, ms: seq<Mapping>, name: string, more: seq<Mapping>)
    requires IsPartSnapshot(pools, todo, ms) && name in todo && name in pools
    requires pools[name].name == name && IsSnapshot(pools[name], more)
    ensures IsPartSnapshot(pools, todo - {name}, ms + more)
  {
    forall n | n in pools
      ensures PartAt(pools[n], n, todo - {name}, ms + more)
    {
      assert PartAt(pools[n], n, todo, ms);
      OfPoolAppend(ms, more, n);
      OfPoolSame(more, name, n);
      assert OfPool(ms + more, n) == if n == name then more else OfPool(ms, n);
    }
  }

  lemma SnapshotStarts(pools: map<string, Pool>)
    ensures IsPartSnapshot(pools, pools.Keys, [])
  {
  }

  lemma SnapshotEnds(pools: map<string, Pool>, ms: seq<Mapping>)
    requires IsPartSnapshot(pools, {}, ms)
    ensures IsFullSnapshot(pools, ms)
  {
  }
}
