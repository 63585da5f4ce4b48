/** What every pool operation keeps: the bitmap and the subscriber table agree. */
module PoolInvariant {
  import opened Bitmap
  import opened PoolModel

  // ---------------------------------------------------------------- blocks and their bits

  lemma BlockOfSlot(cfg: Config, addrs: seq<Address>, i: nat, k: nat)
    requires ValidConfig(cfg) && ValidAddresses(cfg, addrs)
    requires i < |addrs| && k < addrs[i].total && AddrIndex(addrs, addrs[i].ip) == i
    ensures var b := BlockAt(cfg, addrs[i].ip, k);
            InPool(cfg, addrs, b) && AddrIndex(addrs, b.ip) == i && IndexOf(cfg, b) == k
  {
    BlockArithmetic(cfg, addrs[i].ip, k);
  }

  /** addrs' differs from addrs in bitmaps only. */
  predicate SameIPs(addrs: seq<Address>, addrs': seq<Address>) {
    && |addrs| == |addrs'|
    && forall i :: 0 <= i < |addrs| ==> addrs[i].ip == addrs'[i].ip && addrs[i].excluded == addrs'[i].excluded
  }

  lemma SameIPsSameIndex(addrs: seq<Address>, addrs': seq<Address>, ip: IPv4)
    requires SameIPs(addrs, addrs')
    ensures AddrIndex(addrs, ip) == AddrIndex(addrs', ip)
  {
  }

  lemma SameIPsSamePool(cfg: Config, addrs: seq<Address>, addrs': seq<Address>)
    requires ValidConfig(cfg) && SameIPs(addrs, addrs')
    ensures forall b :: InPool(cfg, addrs, b) <==> InPool(cfg, addrs', b)
  {
  }

  lemma TakeBlockMarks(cfg: Config, addrs: seq<Address>, b: Block)
    requires ValidConfig(cfg) && ValidAddresses(cfg, addrs) && InPool(cfg, addrs, b)
    ensures var addrs' := TakeBlock(cfg, addrs, b);
            && ValidAddresses(cfg, addrs') && SameIPs(addrs, addrs')
            && forall c :: InPool(cfg, addrs, c) ==> (Marked(cfg, addrs', c) <==> c == b || Marked(cfg, addrs, c))
  {
    var addrs' := TakeBlock(cfg, addrs, b);
    var i, k := AddrIndex(addrs, b.ip), IndexOf(cfg, b);
    TakeIsValid(addrs[i].words, addrs[i].total, k);
    forall c | InPool(cfg, addrs, c)
      ensures Marked(cfg, addrs', c) <==> c == b || Marked(cfg, addrs, c)
    {
      SameIPsSameIndex(addrs, addrs', c.ip);
    }
  }

  lemma FreeBlockUnmarks(cfg: Config, addrs: seq<Address>, b: Block)
    requires ValidConfig(cfg) && ValidAddresses(cfg, addrs) && InPool(cfg, addrs, b)
    ensures var addrs' := FreeBlock(cfg, addrs, b);
            && ValidAddresses(cfg, addrs') && SameIPs(addrs, addrs')
            && forall c :: InPool(cfg, addrs, c) ==> (Marked(cfg, addrs', c) <==> c != b && Marked(cfg, addrs, c))
  {
    var addrs' := FreeBlock(cfg, addrs, b);
    var i, k := AddrIndex(addrs, b.ip), IndexOf(cfg, b);
    FreeIsValid(addrs[i].words, addrs[i].total, k);
    forall c | InPool(cfg, addrs, c)
      ensures Marked(cfg, addrs', c) <==> c != b && Marked(cfg, addrs, c)
    {
      SameIPsSameIndex(addrs, addrs', c.ip);
    }
  }

  lemma {:induction false} FreeBlocksUnmark(cfg: Config, addrs: seq<Address>, blocks: seq<Block>)
    requires ValidConfig(cfg) && ValidAddresses(cfg, addrs)
    requires forall b :: b in blocks ==> InPool(cfg, addrs, b)
    ensures var addrs' := FreeBlocks(cfg, addrs, blocks);
            && ValidAddresses(cfg, addrs') && SameIPs(addrs, addrs')
            && forall c :: InPool(cfg, addrs, c) ==> (Marked(cfg, addrs', c) <==> c !in blocks && Marked(cfg, addrs, c))
    decreases |blocks|
  {
    if blocks != [] {
      var mid := FreeBlock(cfg, addrs, blocks[0]);
      FreeBlockUnmarks(cfg, addrs, blocks[0]);
      SameIPsSamePool(cfg, addrs, mid);
      FreeBlocksUnmark(cfg, mid, blocks[1..]);
    }
  }

  // ---------------------------------------------------------------- the operations keep Inv

  lemma AddBlockHolds(subs: map<Key, Subscriber>, key: Key, swIfIndex: nat, b: Block)
    ensures forall k, c :: Holds(AddBlock(subs, key, swIfIndex, b), k, c) <==> Holds(subs, k, c) || (k == key && c == b)
    ensures forall c :: SomeoneHolds(AddBlock(subs, key, swIfIndex, b), c) <==> SomeoneHolds(subs, c) || c == b
  {
    var subs' := AddBlock(subs, key, swIfIndex, b);
    assert forall k, c :: Holds(subs', k, c) <==> Holds(subs, k, c) || (k == key && c == b);
    assert Holds(subs', key, b);
    forall c
      ensures SomeoneHolds(subs', c) <==> SomeoneHolds(subs, c) || c == b
    {
      if SomeoneHolds(subs, c) {
        var k :| Holds(subs, k, c);
        assert Holds(subs', k, c);
      }
    }
  }

  lemma AddBlockValid(subs: map<Key, Subscriber>, key: Key, swIfIndex: nat, b: Block)
    requires ValidTable(subs) && !SomeoneHolds(subs, b)
    ensures ValidTable(AddBlock(subs, key, swIfIndex, b))
  {
    var subs' := AddBlock(subs, key, swIfIndex, b);
    AddBlockHolds(subs, key, swIfIndex, b);
    assert !Holds(subs, key, b);
    forall k1, k2, c | Holds(subs', k1, c) && Holds(subs', k2, c)
      ensures k1 == k2
    {
      if c == b {
        assert !Holds(subs, k1, b) && !Holds(subs, k2, b);
      }
    }
  }

  lemma GrantKeepsInv(p: Pool, key: Key, swIfIndex: nat, b: Block)
    requires Inv(p) && InPool(p.cfg, p.addrs, b) && !Marked(p.cfg, p.addrs, b)
    ensures Inv(Grant(p, key, swIfIndex, b))
    ensures forall k, c :: HeldBy(Grant(p, key, swIfIndex, b), k, c) <==> HeldBy(p, k, c) || (k == key && c == b)
    ensures var subs := Grant(p, key, swIfIndex, b).subs;
      && key in subs && subs[key].blocks == Blocks(p, key) + [b]
      && subs[key].swIfIndex == (if key in p.subs then p.subs[key].swIfIndex else swIfIndex)
      && subs - {key} == p.subs - {key}
  {
    TakeBlockMarks(p.cfg, p.addrs, b);
    SameIPsSamePool(p.cfg, p.addrs, TakeBlock(p.cfg, p.addrs, b));
    AddBlockHolds(p.subs, key, swIfIndex, b);
    AddBlockValid(p.subs, key, swIfIndex, b);
  }

  lemma RemoveHolds(subs: map<Key, Subscriber>, key: Key)
    requires ValidTable(subs) && key in subs
    ensures ValidTable(subs - {key})
    ensures forall k, c :: Holds(subs - {key}, k, c) <==> k != key && Holds(subs, k, c)
    ensures forall c :: SomeoneHolds(subs - {key}, c) <==> SomeoneHolds(subs, c) && c !in subs[key].blocks
  {
    var subs' := subs - {key};
    assert forall k, c :: Holds(subs', k, c) <==> k != key && Holds(subs, k, c);
    forall c
      ensures SomeoneHolds(subs', c) <==> SomeoneHolds(subs, c) && c !in subs[key].blocks
    {
      if SomeoneHolds(subs, c) && c !in subs[key].blocks {
        var k :| Holds(subs, k, c);
        assert Holds(subs', k, c);
      }
      if SomeoneHolds(subs', c) {
        var k :| Holds(subs', k, c);
        assert Holds(subs, k, c);
        assert c in subs[key].blocks ==> Holds(subs, key, c);
      }
    }
  }

  /** Releasing frees exactly the subscriber's blocks and forgets the subscriber. */
  lemma ReleaseKeepsInv(p: Pool, key: Key)
    requires Inv(p)
    ensures Inv(Release(p, key))
    ensures forall k, c :: HeldBy(Release(p, key), k, c) <==> k != key && HeldBy(p, k, c)
    ensures Release(p, key).subs == p.subs - {key}
  {
    if key in p.subs {
      HeldInPool(p, key);
      FreeBlocksUnmark(p.cfg, p.addrs, p.subs[key].blocks);
      SameIPsSamePool(p.cfg, p.addrs, FreeBlocks(p.cfg, p.addrs, p.subs[key].blocks));
      RemoveHolds(p.subs, key);
    } else {
      assert p.subs - {key} == p.subs;
    }
  }

  lemma HeldInPool(p: Pool, key: Key)
    requires Inv(p) && key in p.subs
    ensures forall b :: b in p.subs[key].blocks ==> InPool(p.cfg, p.addrs, b)
  {
    forall b | b in p.subs[key].blocks
      ensures InPool(p.cfg, p.addrs, b)
    {
      assert Holds(p.subs, key, b);
      assert SomeoneHolds(p.subs, b);
    }
  }

  lemma UsedIsFirst(cfg: Config, addrs: seq<Address>, t: nat)
    requires ValidConfig(cfg) && ValidAddresses(cfg, addrs) && t < |addrs|
    requires !addrs[t].excluded || !NoneTaken(addrs[t].words)
    ensures AddrIndex(addrs, addrs[t].ip) == t
  {
  }

  /** A successful allocation hands out one block of the pool that nobody held. */
  lemma AllocateGrants(p: Pool, key: Key, swIfIndex: nat)
    requires Inv(p)
    ensures var (q, r) := Allocate(p, key, swIfIndex);
            if r.Ok? then
              && r.value == Mapping(p.name, p.id, key, r.value.outside, swIfIndex)
              && InPool(p.cfg, p.addrs, r.value.outside) && !Marked(p.cfg, p.addrs, r.value.outside)
              && q == Grant(p, key, swIfIndex, r.value.outside)
            else q == p
  {
    var (q, r) := Allocate(p, key, swIfIndex);
    if r.Ok? {
      var t := TargetIndex(p, key);
      var a := p.addrs[t];
      var k := LeastFree(a.words, a.total);
      LeastFreeFromMeans(a.words, a.total, 0);
      UsedIsFirst(p.cfg, p.addrs, t);
      BlockOfSlot(p.cfg, p.addrs, t, k);
    }
  }

  /** m may be restored: the subscriber has it already, or it names a free block of the pool. */
  predicate Restorable(p: Pool, m: Mapping)
    requires ValidConfig(p.cfg)
  {
    Present(p, m) || (InPool(p.cfg, p.addrs, m.outside) && !Marked(p.cfg, p.addrs, m.outside))
  }

  lemma SameStart(cfg: Config, addrs: seq<Address>, b: Block, c: Block)
    requires ValidConfig(cfg) && InPool(cfg, addrs, b) && InPool(cfg, addrs, c)
    requires b.ip == c.ip && b.start == c.start
    ensures b == c
  {
  }

  lemma PresentIsMember(cfg: Config, addrs: seq<Address>, blocks: seq<Block>, b: Block)
    requires ValidConfig(cfg) && InPool(cfg, addrs, b) && forall c :: c in blocks ==> InPool(cfg, addrs, c)
    ensures PresentIn(blocks, b) <==> b in blocks
  {
    if PresentIn(blocks, b) {
      var j :| 0 <= j < |blocks| && blocks[j].start == b.start && blocks[j].ip == b.ip;
      SameStart(cfg, addrs, blocks[j], b);
    }
  }

  /** The presence test of restoreLocked, which compares address and first port only. */
  lemma PresentMeansHeld(p: Pool, m: Mapping)
    requires Inv(p) && InPool(p.cfg, p.addrs, m.outside)
    ensures Present(p, m) <==> HeldBy(p, m.inside, m.outside)
  {
    if m.inside in p.subs {
      HeldInPool(p, m.inside);
      PresentIsMember(p.cfg, p.addrs, p.subs[m.inside].blocks, m.outside);
    }
  }

  lemma RestoreKeepsInv(p: Pool, m: Mapping)
    requires Inv(p) && Restorable(p, m)
    ensures Inv(RestoreIfAbsent(p, m))
    ensures if Present(p, m) then RestoreIfAbsent(p, m) == p
            else forall k, c :: HeldBy(RestoreIfAbsent(p, m), k, c) <==>
                                HeldBy(p, k, c) || (k == m.inside && c == m.outside)
  {
    if !Present(p, m) {
      GrantKeepsInv(p, m.inside, m.swIfIndex, m.outside);
    }
  }

  lemma TakeBlockSameIPs(cfg: Config, addrs: seq<Address>, b: Block)
    requires ValidConfig(cfg)
    ensures SameIPs(addrs, TakeBlock(cfg, addrs, b))
  {
  }

  /** Any other restore, which restoreLocked accepts as well, breaks the agreement: the block is not
      of the pool, or another subscriber holds it. */
  lemma RestoreBreaksInv(p: Pool, m: Mapping)
    requires Inv(p) && !Restorable(p, m)
    ensures !Inv(RestoreIfAbsent(p, m))
  {
    var q := RestoreIfAbsent(p, m);
    var b := m.outside;
    AddBlockHolds(p.subs, m.inside, m.swIfIndex, b);
    assert Holds(q.subs, m.inside, b) && SomeoneHolds(q.subs, b);
    if !InPool(p.cfg, p.addrs, b) {
      TakeBlockSameIPs(p.cfg, p.addrs, b);
      SameIPsSamePool(p.cfg, p.addrs, q.addrs);
    } else {
      PresentMeansHeld(p, m);
      var k :| Holds(p.subs, k, b);
      assert Holds(q.subs, k, b) && k != m.inside;
    }
  }

  // ---------------------------------------------------------------- every run

  datatype Op =
    | OpAllocate(key: Key, swIfIndex: nat)
    | OpGetOrAllocate(key: Key, swIfIndex: nat)
    | OpRelease(key: Key)
    | OpRestore(mapping: Mapping)

  function Step(p: Pool, op: Op): Pool
    requires ValidConfig(p.cfg)
  {
    match op
    case OpAllocate(key, sw) => Allocate(p, key, sw).0
    case OpGetOrAllocate(key, sw) => GetOrAllocate(p, key, sw).0
    case OpRelease(key) => Release(p, key)
    case OpRestore(m) => RestoreIfAbsent(p, m)
  }

  function Run(p: Pool, ops: seq<Op>): (q: Pool)
    requires ValidConfig(p.cfg)
    ensures q.cfg == p.cfg
  {
    if ops == [] then p
    else
      var q := Run(p, ops[..|ops| - 1]);
      Step(q, ops[|ops| - 1])
  }

  predicate SoundAt(p: Pool, ops: seq<Op>, i: nat)
    requires ValidConfig(p.cfg) && i < |ops|
  {
    ops[i].OpRestore? ==> Restorable(Run(p, ops[..i]), ops[i].mapping)
  }

  /** Every restore in the run is of a free block or of the subscriber's own. */
  predicate RestoresSound(p: Pool, ops: seq<Op>)
    requires ValidConfig(p.cfg)
  {
    forall i :: 0 <= i < |ops| ==> SoundAt(p, ops, i)
  }

  lemma SoundAtFront(p: Pool, ops: seq<Op>, i: nat)
    requires ValidConfig(p.cfg) && i + 1 < |ops|
    ensures SoundAt(p, ops[..|ops| - 1], i) == SoundAt(p, ops, i)
  {
    assert ops[..|ops| - 1][..i] == ops[..i];
  }

  /** Soundness, one operation at a time. */
  lemma RestoresSoundFront(p: Pool, ops: seq<Op>)
    requires ValidConfig(p.cfg) && ops != []
    ensures var front := ops[..|ops| - 1];
            RestoresSound(p, ops) <==> RestoresSound(p, front) && SoundAt(p, ops, |front|)
  {
    var front := ops[..|ops| - 1];
    forall i | 0 <= i < |front|
      ensures SoundAt(p, front, i) == SoundAt(p, ops, i)
    {
      SoundAtFront(p, ops, i);
    }
  }

  lemma StepKeepsInv(p: Pool, op: Op)
    requires Inv(p)
    requires op.OpRestore? ==> Restorable(p, op.mapping)
    ensures Inv(Step(p, op))
  {
    match op
    case OpAllocate(key, sw) =>
      AllocateGrants(p, key, sw);
      if Allocate(p, key, sw).1.Ok? {
        GrantKeepsInv(p, key, sw, Allocate(p, key, sw).1.value.outside);
      }
    case OpGetOrAllocate(key, sw) =>
      AllocateGrants(p, key, sw);
      if Allocate(p, key, sw).1.Ok? {
        GrantKeepsInv(p, key, sw, Allocate(p, key, sw).1.value.outside);
      }
    case OpRelease(key) =>
      ReleaseKeepsInv(p, key);
    case OpRestore(m) =>
      RestoreKeepsInv(p, m);
  }

  /** In every run, a bit is set exactly when one subscriber holds that block. */
  lemma {:induction false} RunKeepsInv(p: Pool, ops: seq<Op>)
    requires Inv(p) && RestoresSound(p, ops)
    ensures Inv(Run(p, ops))
  {
    if ops != [] {
      var front := ops[..|ops| - 1];
      RestoresSoundFront(p, ops);
      RunKeepsInv(p, front);
      StepKeepsInv(Run(p, front), ops[|ops| - 1]);
    }
  }

  /** The agreement holds after the run and after every front of it. */
  ghost predicate AlwaysInv(p: Pool, ops: seq<Op>)
    requires ValidConfig(p.cfg)
  {
    Inv(Run(p, ops)) && (ops == [] || AlwaysInv(p, ops[..|ops| - 1]))
  }

  /** The agreement holds all through a run exactly when its restores are sound. */
  lemma {:induction false} RunKeepsInvIff(p: Pool, ops: seq<Op>)
    requires Inv(p)
    ensures RestoresSound(p, ops) <==> AlwaysInv(p, ops)
  {
    if ops != [] {
      var front := ops[..|ops| - 1];
      RunKeepsInvIff(p, front);
      RestoresSoundFront(p, ops);
      if RestoresSound(p, front) {
        LastStepIff(p, ops);
      }
    }
  }

  lemma LastStepIff(p: Pool, ops: seq<Op>)
    requires ValidConfig(p.cfg) && ops != [] && Inv(Run(p, ops[..|ops| - 1]))
    ensures Inv(Run(p, ops)) <==> SoundAt(p, ops, |ops| - 1)
  {
    StepKeepsInvIff(Run(p, ops[..|ops| - 1]), ops[|ops| - 1]);
  }

  lemma StepKeepsInvIff(p: Pool, op: Op)
    requires Inv(p)
    ensures Inv(Step(p, op)) <==> (op.OpRestore? ==> Restorable(p, op.mapping))
  {
    if op.OpRestore? && !Restorable(p, op.mapping) {
      RestoreBreaksInv(p, op.mapping);
    } else {
      StepKeepsInv(p, op);
    }
  }

  /** The bit of every block, read off the table: set iff held, and then by one subscriber. */
  lemma BitIffOneOwner(p: Pool, i: nat, k: nat)
    requires Inv(p) && i < |p.addrs| && k < p.addrs[i].total
    ensures var b := BlockAt(p.cfg, p.addrs[i].ip, k);
            && (Taken(p.addrs[i].words, k) <==> SomeoneHolds(p.subs, b) && AddrIndex(p.addrs, b.ip) == i)
            && (forall k1, k2 :: HeldBy(p, k1, b) && HeldBy(p, k2, b) ==> k1 == k2)
            && (forall key :: HeldBy(p, key, b) ==> exists j :: IsOnlyAt(p.subs[key].blocks, b, j))
  {
    var b := BlockAt(p.cfg, p.addrs[i].ip, k);
    if Taken(p.addrs[i].words, k) {
      UsedIsFirst(p.cfg, p.addrs, i);
    }
    if AddrIndex(p.addrs, p.addrs[i].ip) == i {
      BlockOfSlot(p.cfg, p.addrs, i, k);
    }
    forall key | HeldBy(p, key, b)
      ensures exists j :: IsOnlyAt(p.subs[key].blocks, b, j)
    {
      var j :| 0 <= j < |p.subs[key].blocks| && p.subs[key].blocks[j] == b;
      assert IsOnlyAt(p.subs[key].blocks, b, j);
    }
  }

  predicate IsOnlyAt(s: seq<Block>, b: Block, j: int) {
    && 0 <= j < |s| && s[j] == b
    && forall l :: 0 <= l < |s| && s[l] == b ==> l == j
  }

  predicate Overlap(b: Block, c: Block) {
    b.ip == c.ip && b.start <= c.end && c.start <= b.end
  }

  lemma BlocksApart(cfg: Config, ip: IPv4, j: nat, k: nat)
    requires ValidConfig(cfg) && j < k < BlocksPerAddr(cfg)
    ensures BlockAt(cfg, ip, j).end < BlockAt(cfg, ip, k).start
  {
    BlockArithmetic(cfg, ip, j);
    BlockArithmetic(cfg, ip, k);
    MultiplesApart(j, k, cfg.blockSize);
  }

  lemma MultiplesApart(j: nat, k: nat, size: nat)
    requires j < k
    ensures j * size + size <= k * size
  {
    MulMono(j + 1, k, size);
  }

  /** No two subscribers' port ranges on one outside address overlap, and no subscriber's
      own ranges do. */
  lemma NoPortShared(p: Pool, k1: Key, b1: Block, k2: Key, b2: Block)
    requires Inv(p) && HeldBy(p, k1, b1) && HeldBy(p, k2, b2) && Overlap(b1, b2)
    ensures b1 == b2 && k1 == k2
  {
    HeldInPool(p, k1);
    HeldInPool(p, k2);
    var j, k := IndexOf(p.cfg, b1), IndexOf(p.cfg, b2);
    if j < k {
      BlocksApart(p.cfg, b1.ip, j, k);
    } else if k < j {
      BlocksApart(p.cfg, b1.ip, k, j);
    }
  }
}
