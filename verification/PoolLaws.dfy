/** Laws of the pool: when allocation fails, what release undoes, paired pooling, and
    the configured starting state. */
module PoolLaws {
  import opened Optional
  import opened Bitmap
  import opened PoolModel
  import opened PoolInvariant

  // ---------------------------------------------------------------- exact failure

  /** Every block of every address that may be used is taken. */
  predicate Exhausted(addrs: seq<Address>) {
    forall i :: 0 <= i < |addrs| && !addrs[i].excluded ==> Full(addrs[i].words, addrs[i].total)
  }

  lemma UsableIffExhausted(cfg: Config, addrs: seq<Address>)
    requires ValidConfig(cfg) && ValidAddresses(cfg, addrs)
    ensures FirstUsable(addrs) == |addrs| <==> Exhausted(addrs)
  {
    forall i | 0 <= i < |addrs|
      ensures Usable(addrs[i]) <==> !addrs[i].excluded && !Full(addrs[i].words, addrs[i].total)
    {
      HasFreeIsExact(addrs[i].words, addrs[i].total);
    }
  }

  /** b is a block of ports of the configured size inside the range, a whole number of blocks from
      its start. */
  ghost predicate PortBlock(cfg: Config, b: Block) {
    && (exists k: nat :: b.start == cfg.portStart + k * cfg.blockSize)
    && b.end == b.start + cfg.blockSize - 1 <= cfg.portEnd
  }

  /** The blocks of the pool are all the blocks of ports that fit, on its addresses. */
  lemma InPoolIff(cfg: Config, addrs: seq<Address>, b: Block)
    requires ValidConfig(cfg)
    ensures InPool(cfg, addrs, b) <==> PortBlock(cfg, b) && exists i :: 0 <= i < |addrs| && addrs[i].ip == b.ip
  {
    if InPool(cfg, addrs, b) {
      BlockArithmetic(cfg, b.ip, IndexOf(cfg, b));
    }
    if PortBlock(cfg, b) && AddrIndex(addrs, b.ip) < |addrs| {
      var k: nat :| b.start == cfg.portStart + k * cfg.blockSize;
      BlockFitsIff(cfg, k);
      BlockArithmetic(cfg, b.ip, k);
    }
  }

  /** b fits on address i, which may be used. */
  ghost predicate FitsAt(p: Pool, i: int, b: Block) {
    0 <= i < |p.addrs| && !p.addrs[i].excluded && b.ip == p.addrs[i].ip && PortBlock(p.cfg, b)
  }

  /** A full pool has given out every block of ports that fits on an address it may use, so fewer
      ports than one block are left over on it. */
  lemma ExhaustedIff(p: Pool)
    requires Inv(p)
    ensures Exhausted(p.addrs) <==> forall i, b :: FitsAt(p, i, b) ==> SomeoneHolds(p.subs, b)
  {
    if Exhausted(p.addrs) {
      forall i, b | FitsAt(p, i, b)
        ensures SomeoneHolds(p.subs, b)
      {
        FullIsHeldAt(p, i, b);
      }
    } else {
      var i :| 0 <= i < |p.addrs| && !p.addrs[i].excluded && !Full(p.addrs[i].words, p.addrs[i].total);
      NotFullIsFreeAt(p, i);
    }
  }

  lemma FullIsHeldAt(p: Pool, i: nat, b: Block)
    requires Inv(p) && FitsAt(p, i, b) && Full(p.addrs[i].words, p.addrs[i].total)
    ensures SomeoneHolds(p.subs, b)
  {
    InPoolIff(p.cfg, p.addrs, b);
    BitIffOneOwner(p, i, IndexOf(p.cfg, b));
  }

  lemma NotFullIsFreeAt(p: Pool, i: nat)
    requires Inv(p) && i < |p.addrs| && !p.addrs[i].excluded && !Full(p.addrs[i].words, p.addrs[i].total)
    ensures exists b :: FitsAt(p, i, b) && !SomeoneHolds(p.subs, b)
  {
    var k :| 0 <= k < p.addrs[i].total && !Taken(p.addrs[i].words, k);
    var b := BlockAt(p.cfg, p.addrs[i].ip, k);
    UsedIsFirst(p.cfg, p.addrs, i);
    BlockOfSlot(p.cfg, p.addrs, i, k);
    BitIffOneOwner(p, i, k);
    InPoolIff(p.cfg, p.addrs, b);
  }

  /** The address paired pooling pins the subscriber to. */
  function Pinned(p: Pool, key: Key): Option<Address> {
    var held := Blocks(p, key);
    if held == [] || !p.cfg.paired then None
    else
      var i := PairedIndex(p.addrs, held[0].ip);
      if i == |p.addrs| then None else Some(p.addrs[i])
  }

  /** Allocation fails in three ways, and in no others: the subscriber is at its limit; the
      address it is paired with is full, whatever is free elsewhere; or it is paired with
      none and every usable address is full. */
  lemma AllocateErrors(p: Pool, key: Key, swIfIndex: nat)
    requires Inv(p)
    ensures var r := Allocate(p, key, swIfIndex).1;
            var atLimit := |Blocks(p, key)| >= p.cfg.maxBlocks;
            var pin := Pinned(p, key);
            && (r == Err(MaxBlocksReached) <==> atLimit)
            && (r == Err(AllocationFailed) <==> !atLimit && pin.Some? && Full(pin.value.words, pin.value.total))
            && (r == Err(NoFreeBlocks) <==> !atLimit && pin.None? && Exhausted(p.addrs))
            && (r.Ok? <==>
                  !atLimit && if pin.Some? then !Full(pin.value.words, pin.value.total) else !Exhausted(p.addrs))
  {
    UsableIffExhausted(p.cfg, p.addrs);
    var t := TargetIndex(p, key);
    if t < |p.addrs| {
      HasFreeIsExact(p.addrs[t].words, p.addrs[t].total);
    }
  }

  /** m is the record of the first block the subscriber holds. */
  predicate Reports(p: Pool, key: Key, m: Mapping) {
    && key in p.subs && p.subs[key].blocks != []
    && m == Mapping(p.name, p.id, key, p.subs[key].blocks[0], p.subs[key].swIfIndex)
  }

  /** GetOrAllocate fails exactly when the subscriber holds nothing and every address that
      is not excluded is full; otherwise it returns a block the subscriber then holds. */
  lemma GetOrAllocateFailsIff(p: Pool, key: Key, swIfIndex: nat)
    requires Inv(p)
    ensures var (q, r) := GetOrAllocate(p, key, swIfIndex);
            && (r.Err? <==> key !in p.subs && Exhausted(p.addrs))
            && (r.Err? ==> q == p)
            && (r.Ok? ==> Reports(q, key, r.value.mapping) && (r.value.isNew <==> key !in p.subs))
            && (r.Ok? && r.value.isNew ==> q.subs[key].swIfIndex == swIfIndex)
            && (r.Ok? && !r.value.isNew ==> q == p)
  {
    AllocateErrors(p, key, swIfIndex);
    AllocateGrants(p, key, swIfIndex);
    if key in p.subs {
      assert p.subs[key].blocks != [];
    }
  }

  // ---------------------------------------------------------------- release undoes allocate

  lemma FreeTake(words: seq<nat>, k: nat)
    requires WordsInRange(words) && k / 64 < |words| && !Taken(words, k)
    ensures Free(Take(words, k), k) == words
  {
    TakeFreeInRange(words, k);
    TakeFreeInRange(Take(words, k), k);
    forall j: nat
      ensures Taken(Free(Take(words, k), k), j) == Taken(words, j)
    {
      TakenAfterTake(words, k, j);
      TakenAfterFree(Take(words, k), k, j);
    }
    TakenDeterminesBitmap(Free(Take(words, k), k), words);
  }

  lemma FreeTakeBlock(cfg: Config, addrs: seq<Address>, b: Block)
    requires ValidConfig(cfg) && ValidAddresses(cfg, addrs) && InPool(cfg, addrs, b) && !Marked(cfg, addrs, b)
    ensures FreeBlock(cfg, TakeBlock(cfg, addrs, b), b) == addrs
  {
    var i, k := AddrIndex(addrs, b.ip), IndexOf(cfg, b);
    FreeTake(addrs[i].words, k);
    TakeBlockMarks(cfg, addrs, b);
    SameIPsSameIndex(addrs, TakeBlock(cfg, addrs, b), b.ip);
  }

  /** Allocating for a new subscriber and releasing it again restores the pool exactly,
      bitmap words included. */
  lemma AllocateThenRelease(p: Pool, key: Key, swIfIndex: nat)
    requires Inv(p) && key !in p.subs
    ensures Release(Allocate(p, key, swIfIndex).0, key) == p
  {
    AllocateGrants(p, key, swIfIndex);
    var (q, r) := Allocate(p, key, swIfIndex);
    assert p.subs - {key} == p.subs;
    if r.Ok? {
      var b := r.value.outside;
      FreeTakeBlock(p.cfg, p.addrs, b);
      assert q.subs[key].blocks == [b] && [b][1..] == [];
      assert FreeBlocks(q.cfg, q.addrs, [b]) == FreeBlocks(q.cfg, FreeBlock(q.cfg, q.addrs, b), []);
      assert q.subs - {key} == p.subs;
    }
  }

  // ---------------------------------------------------------------- paired pooling

  /** b lies on an address of the pool that is not excluded. */
  predicate OnUsedAddress(addrs: seq<Address>, b: Block) {
    exists i :: 0 <= i < |addrs| && addrs[i].ip == b.ip && !addrs[i].excluded
  }

  predicate PairedBlocks(p: Pool, blocks: seq<Block>) {
    && |blocks| <= p.cfg.maxBlocks
    && (forall j :: 0 <= j < |blocks| ==> OnUsedAddress(p.addrs, blocks[j]))
    && (p.cfg.paired ==> forall j :: 0 <= j < |blocks| ==> blocks[j].ip == blocks[0].ip)
  }

  ghost predicate PairedInv(p: Pool) {
    forall key :: key in p.subs ==> PairedBlocks(p, p.subs[key].blocks)
  }

  lemma SameIPsPaired(p: Pool, q: Pool, blocks: seq<Block>)
    requires q.cfg == p.cfg && SameIPs(p.addrs, q.addrs) && PairedBlocks(p, blocks)
    ensures PairedBlocks(q, blocks)
  {
  }

  /** A granted block is on a used address, and on the one the subscriber is paired with. */
  lemma GrantedIsPaired(p: Pool, key: Key, swIfIndex: nat)
    requires ValidConfig(p.cfg) && PairedBlocks(p, Blocks(p, key)) && Allocate(p, key, swIfIndex).1.Ok?
    ensures PairedBlocks(p, Blocks(p, key) + [Allocate(p, key, swIfIndex).1.value.outside])
  {
    var b, held := Allocate(p, key, swIfIndex).1.value.outside, Blocks(p, key);
    var t := TargetIndex(p, key);
    assert p.addrs[t].ip == b.ip && !p.addrs[t].excluded;
    if held != [] && p.cfg.paired {
      assert OnUsedAddress(p.addrs, held[0]);
      assert b.ip == held[0].ip;
    }
  }

  lemma GrantPaired(p: Pool, key: Key, swIfIndex: nat, b: Block)
    requires ValidConfig(p.cfg) && PairedInv(p) && PairedBlocks(p, Blocks(p, key) + [b])
    ensures PairedInv(Grant(p, key, swIfIndex, b))
  {
    var q := Grant(p, key, swIfIndex, b);
    TakeBlockSameIPs(p.cfg, p.addrs, b);
    forall k | k in q.subs
      ensures PairedBlocks(q, q.subs[k].blocks)
    {
      if k == key {
        assert q.subs[k].blocks == Blocks(p, key) + [b];
        SameIPsPaired(p, q, Blocks(p, key) + [b]);
      } else {
        SameIPsPaired(p, q, p.subs[k].blocks);
      }
    }
  }

  lemma AllocatePaired(p: Pool, key: Key, swIfIndex: nat)
    requires Inv(p) && PairedInv(p)
    ensures PairedInv(Allocate(p, key, swIfIndex).0)
  {
    AllocateGrants(p, key, swIfIndex);
    if Allocate(p, key, swIfIndex).1.Ok? {
      GrantedIsPaired(p, key, swIfIndex);
      GrantPaired(p, key, swIfIndex, Allocate(p, key, swIfIndex).1.value.outside);
    }
  }

  lemma ReleasePaired(p: Pool, key: Key)
    requires Inv(p) && PairedInv(p)
    ensures PairedInv(Release(p, key))
  {
    if key in p.subs {
      var q := Release(p, key);
      HeldInPool(p, key);
      FreeBlocksUnmark(p.cfg, p.addrs, p.subs[key].blocks);
      forall k | k in q.subs
        ensures PairedBlocks(q, q.subs[k].blocks)
      {
        SameIPsPaired(p, q, p.subs[k].blocks);
      }
    }
  }

  /** In every run of allocations and releases the blocks a subscriber holds at once are on
      one outside address, not excluded, and no more than the configured maximum. */
  lemma {:induction false} RunKeepsPaired(p: Pool, ops: seq<Op>)
    requires Inv(p) && PairedInv(p)
    requires forall i :: 0 <= i < |ops| ==> !ops[i].OpRestore?
    ensures Inv(Run(p, ops)) && PairedInv(Run(p, ops))
  {
    if ops != [] {
      var front := ops[..|ops| - 1];
      RunKeepsPaired(p, front);
      var q := Run(p, front);
      var op := ops[|ops| - 1];
      StepKeepsInv(q, op);
      match op
      case OpAllocate(key, sw) => AllocatePaired(q, key, sw);
      case OpGetOrAllocate(key, sw) => AllocatePaired(q, key, sw);
      case OpRelease(key) => ReleasePaired(q, key);
    }
  }

  // ---------------------------------------------------------------- configuration

  function FreshAddress(cfg: Config, ip: IPv4, excluded: bool): Address
    requires ValidConfig(cfg)
  {
    var n := BlocksPerAddr(cfg);
    Address(ip, n, seq((n + 63) / 64, i => 0), excluded)
  }

  /** ConfigurePool: every address with an empty bitmap, and no subscribers. */
  function Configure(name: string, id: nat, cfg: Config, ips: seq<IPv4>, excluded: set<IPv4>): Pool
    requires ValidConfig(cfg)
  {
    Pool(name, id, cfg, seq(|ips|, i requires 0 <= i < |ips| => FreshAddress(cfg, ips[i], ips[i] in excluded)), map[])
  }

  /** No address is listed twice, but for excluded ones. */
  predicate ListedOnce(ips: seq<IPv4>, excluded: set<IPv4>) {
    forall i, j :: 0 <= i < j < |ips| && ips[i] == ips[j] ==> ips[i] in excluded
  }

  /** An address as configured: its own IP and exclusion, as many blocks as fill the range, all free. */
  ghost predicate FreshFor(cfg: Config, ip: IPv4, excluded: set<IPv4>, a: Address) {
    a.ip == ip && (a.excluded <==> ip in excluded) && Fills(cfg, a.total) && NoneTaken(a.words)
  }

  lemma FreshBits(n: nat)
    ensures NoneTaken(seq(n, i => 0))
  {
  }

  lemma ConfigureInv(name: string, id: nat, cfg: Config, ips: seq<IPv4>, excluded: set<IPv4>)
    requires ValidConfig(cfg) && ListedOnce(ips, excluded)
    ensures Inv(Configure(name, id, cfg, ips, excluded))
    ensures PairedInv(Configure(name, id, cfg, ips, excluded))
  {
  }
}
