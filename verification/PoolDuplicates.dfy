/** When a configured pool can give one block to two subscribers: exactly when it lists an address
    that is not excluded twice, and an address has a block to give. */
module PoolDuplicates {
  import opened Bitmap
  import opened PoolModel
  import opened PoolInvariant
  import opened PoolLaws

  predicate Plain(ops: seq<Op>) {
    forall i :: 0 <= i < |ops| ==> !ops[i].OpRestore?
  }

  /** Two subscribers hold one block. */
  ghost predicate DoubleBooked(p: Pool) {
    exists k1, k2, b :: k1 != k2 && HeldBy(p, k1, b) && HeldBy(p, k2, b)
  }

  /** Some run of allocations and releases gives one block to two subscribers. */
  ghost predicate CanDoubleBook(p: Pool)
    requires ValidConfig(p.cfg)
  {
    exists ops :: Plain(ops) && DoubleBooked(Run(p, ops))
  }

  // ---------------------------------------------------------------- no duplicate, no double booking

  lemma SoundNeverDoubles(p: Pool)
    requires Inv(p)
    ensures !CanDoubleBook(p)
  {
    forall ops: seq<Op> | Plain(ops)
      ensures !DoubleBooked(Run(p, ops))
    {
      assert RestoresSound(p, ops) by {
        forall i | 0 <= i < |ops|
          ensures SoundAt(p, ops, i)
        {
          assert !ops[i].OpRestore?;
        }
      }
      RunKeepsInv(p, ops);
    }
  }

  /** A pool whose addresses have no blocks never changes. */
  lemma {:induction false} NoBlocksNoChange(p: Pool, ops: seq<Op>)
    requires ValidConfig(p.cfg) && p.subs == map[] && Plain(ops) && FirstUsable(p.addrs) == |p.addrs|
    ensures Run(p, ops) == p
  {
    if ops != [] {
      var front := ops[..|ops| - 1];
      NoBlocksNoChange(p, front);
      assert !ops[|ops| - 1].OpRestore?;
    }
  }

  lemma EmptyNeverDoubles(name: string, id: nat, cfg: Config, ips: seq<IPv4>, excluded: set<IPv4>)
    requires ValidConfig(cfg) && BlocksPerAddr(cfg) == 0
    ensures !CanDoubleBook(Configure(name, id, cfg, ips, excluded))
  {
    var p := Configure(name, id, cfg, ips, excluded);
    forall i | 0 <= i < |ips|
      ensures !Usable(p.addrs[i])
    {
      HasFreeIsExact(p.addrs[i].words, 0);
    }
    forall ops: seq<Op> | Plain(ops)
      ensures !DoubleBooked(Run(p, ops))
    {
      NoBlocksNoChange(p, ops);
    }
  }

  // ---------------------------------------------------------------- filling the pool in order

  /** The n-th of a series of subscribers. */
  function Nth(n: nat): Key {
    Key(0, n)
  }

  /** Every marked block of the address at t is held. */
  ghost predicate Covered(p: Pool, t: nat)
    requires t < |p.addrs|
  {
    forall k :: 0 <= k < p.addrs[t].total && Taken(p.addrs[t].words, k) ==>
      SomeoneHolds(p.subs, BlockAt(p.cfg, p.addrs[t].ip, k))
  }

  /** The first n subscribers of the series were served, and nothing else. */
  ghost predicate Served(p: Pool, n: nat) {
    && ValidConfig(p.cfg)
    && (forall key :: key in p.subs ==> exists m: nat :: m < n && key == Nth(m))
    && forall t :: 0 <= t < |p.addrs| ==>
         p.addrs[t].total == BlocksPerAddr(p.cfg) && ValidBitmap(p.addrs[t].words, p.addrs[t].total) && Covered(p, t)
  }

  function Serve(p: Pool, n: nat): Pool
    requires ValidConfig(p.cfg)
  {
    Step(p, OpAllocate(Nth(n), 0))
  }

  /** The next subscriber gets the least free block of the first usable address. */
  lemma ServeTakes(p: Pool, n: nat)
    requires Served(p, n) && FirstUsable(p.addrs) < |p.addrs|
    ensures var t := FirstUsable(p.addrs);
            var a := p.addrs[t];
            var k := LeastFree(a.words, a.total);
            && IsLeastFree(a.words, a.total, k)
            && Serve(p, n) == p.(addrs := p.addrs[t := a.(words := Take(a.words, k))],
                                 subs := AddBlock(p.subs, Nth(n), 0, BlockAt(p.cfg, a.ip, k)))
  {
    var t := FirstUsable(p.addrs);
    HasFreeIsExact(p.addrs[t].words, p.addrs[t].total);
    LeastFreeFromMeans(p.addrs[t].words, p.addrs[t].total, 0);
    assert Nth(n) !in p.subs;
  }

  lemma CoveredKept(p: Pool, q: Pool, t: nat)
    requires t < |p.addrs| == |q.addrs| && p.addrs[t] == q.addrs[t] && p.cfg == q.cfg && Covered(p, t)
    requires forall b :: SomeoneHolds(p.subs, b) ==> SomeoneHolds(q.subs, b)
    ensures Covered(q, t)
  {
  }

  lemma ServeKeeps(p: Pool, n: nat)
    requires Served(p, n) && FirstUsable(p.addrs) < |p.addrs|
    ensures Served(Serve(p, n), n + 1)
  {
    var q := Serve(p, n);
    var t := FirstUsable(p.addrs);
    var a := p.addrs[t];
    var k := LeastFree(a.words, a.total);
    ServeTakes(p, n);
    TakeIsValid(a.words, a.total, k);
    AddBlockHolds(p.subs, Nth(n), 0, BlockAt(p.cfg, a.ip, k));
    assert forall key :: key in q.subs <==> key in p.subs || key == Nth(n);
    forall u | 0 <= u < |q.addrs|
      ensures Covered(q, u)
    {
      if u != t {
        CoveredKept(p, q, u);
      }
    }
  }

  /** The free blocks of the addresses before j. */
  ghost function FreeBefore(p: Pool, j: nat): set<(int, int)>
    requires j <= |p.addrs|
  {
    set t, k | 0 <= t < j && 0 <= k < p.addrs[t].total && !Taken(p.addrs[t].words, k) :: (t, k)
  }

  lemma ServeFills(p: Pool, n: nat, j: nat)
    requires Served(p, n) && FirstUsable(p.addrs) < j <= |p.addrs|
    ensures FreeBefore(Serve(p, n), j) < FreeBefore(p, j)
  {
    var t := FirstUsable(p.addrs);
    var a := p.addrs[t];
    var k := LeastFree(a.words, a.total);
    ServeTakes(p, n);
    TakeIsValid(a.words, a.total, k);
    assert (t, k) in FreeBefore(p, j) && (t, k) !in FreeBefore(Serve(p, n), j);
  }

  // ---------------------------------------------------------------- the second grant of block 0

  /** p lists one address at i and j, and j is still untouched. */
  ghost predicate Twice(p: Pool, i: nat, j: nat) {
    && i < j < |p.addrs| && p.addrs[i].ip == p.addrs[j].ip
    && !p.addrs[i].excluded && !p.addrs[j].excluded
    && NoneTaken(p.addrs[j].words)
  }

  lemma UntouchedIsUsable(p: Pool, n: nat, i: nat, j: nat)
    requires Served(p, n) && Twice(p, i, j) && BlocksPerAddr(p.cfg) >= 1
    ensures Usable(p.addrs[j]) && LeastFree(p.addrs[j].words, p.addrs[j].total) == 0
    ensures FirstUsable(p.addrs) <= j
  {
    HasFreeIsExact(p.addrs[j].words, p.addrs[j].total);
    LeastFreeFromMeans(p.addrs[j].words, p.addrs[j].total, 0);
  }

  /** When j is next, the address is full at i, so its block 0 is held. */
  lemma GrantsTwice(p: Pool, n: nat, i: nat, j: nat)
    requires Served(p, n) && Twice(p, i, j) && BlocksPerAddr(p.cfg) >= 1 && FirstUsable(p.addrs) == j
    ensures DoubleBooked(Serve(p, n))
  {
    UntouchedIsUsable(p, n, i, j);
    HasFreeIsExact(p.addrs[i].words, p.addrs[i].total);
    assert Taken(p.addrs[i].words, 0);
    var b := BlockAt(p.cfg, p.addrs[i].ip, 0);
    assert SomeoneHolds(p.subs, b);
    var key :| Holds(p.subs, key, b);
    ServeTakes(p, n);
    AddBlockHolds(p.subs, Nth(n), 0, b);
    assert key != Nth(n);
    assert HeldBy(Serve(p, n), key, b) && HeldBy(Serve(p, n), Nth(n), b);
  }

  lemma ServeSpares(p: Pool, n: nat, i: nat, j: nat)
    requires Served(p, n) && Twice(p, i, j) && FirstUsable(p.addrs) < j
    ensures Twice(Serve(p, n), i, j)
  {
    ServeTakes(p, n);
  }

  /** Serving new subscribers reaches j in the end. */
  lemma {:induction false} FillUntil(e: Pool, ops: seq<Op>, n: nat, i: nat, j: nat)
    requires ValidConfig(e.cfg) && Plain(ops)
    requires Served(Run(e, ops), n) && Twice(Run(e, ops), i, j) && BlocksPerAddr(e.cfg) >= 1
    ensures CanDoubleBook(e)
    decreases FreeBefore(Run(e, ops), j)
  {
    var p := Run(e, ops);
    var more := ops + [OpAllocate(Nth(n), 0)];
    assert more[..|more| - 1] == ops;
    assert Run(e, more) == Serve(p, n);
    UntouchedIsUsable(p, n, i, j);
    if FirstUsable(p.addrs) == j {
      GrantsTwice(p, n, i, j);
    } else {
      ServeKeeps(p, n);
      ServeFills(p, n, j);
      ServeSpares(p, n, i, j);
      FillUntil(e, more, n + 1, i, j);
    }
  }

  /** Whatever the list, an address that is not excluded and listed twice is double booked. */
  lemma DuplicateAddressDoubleBooks(name: string, id: nat, cfg: Config, ips: seq<IPv4>, excluded: set<IPv4>,
                                    i: nat, j: nat)
    requires ValidConfig(cfg) && BlocksPerAddr(cfg) >= 1
    requires i < j < |ips| && ips[i] == ips[j] && ips[i] !in excluded
    ensures CanDoubleBook(Configure(name, id, cfg, ips, excluded))
  {
    var p := Configure(name, id, cfg, ips, excluded);
    assert Run(p, []) == p;
    FillUntil(p, [], 0, i, j);
  }

  lemma DoubleBooksIff(name: string, id: nat, cfg: Config, ips: seq<IPv4>, excluded: set<IPv4>)
    requires ValidConfig(cfg)
    ensures CanDoubleBook(Configure(name, id, cfg, ips, excluded)) <==>
            BlocksPerAddr(cfg) >= 1 && !ListedOnce(ips, excluded)
  {
    if BlocksPerAddr(cfg) == 0 {
      EmptyNeverDoubles(name, id, cfg, ips, excluded);
    } else if ListedOnce(ips, excluded) {
      ConfigureInv(name, id, cfg, ips, excluded);
      SoundNeverDoubles(Configure(name, id, cfg, ips, excluded));
    } else {
      var i, j :| 0 <= i < j < |ips| && ips[i] == ips[j] && ips[i] !in excluded;
      DuplicateAddressDoubleBooks(name, id, cfg, ips, excluded, i, j);
    }
  }
}
