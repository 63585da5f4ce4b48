/** The port-block pool of internal/cgnat/pool.go as a value: configuration, outside
    addresses with their bitmaps, and the subscriber table. The operations below are
    the specification that the classes in PoolManager.dfy are proved against. */
module PoolModel {
  import opened Collections
  import opened Bitmap

  // ---------------------------------------------------------------- data

  type IPv4 = nat

  datatype Config = Config(blockSize: nat, portStart: nat, portEnd: nat, maxBlocks: nat, paired: bool)

  predicate ValidConfig(cfg: Config) {
    && 1 <= cfg.blockSize < 0x1_0000
    && cfg.portStart <= cfg.portEnd < 0x1_0000
    && 1 <= cfg.maxBlocks
  }

  datatype Address = Address(ip: IPv4, total: nat, words: seq<nat>, excluded: bool)

  datatype Key = Key(vrf: nat, ip: IPv4)

  /** One block of ports, both ends included. */
  datatype Block = Block(ip: IPv4, start: nat, end: nat)

  datatype Subscriber = Subscriber(swIfIndex: nat, blocks: seq<Block>)

  datatype Pool = Pool(name: string, id: nat, cfg: Config, addrs: seq<Address>, subs: map<Key, Subscriber>)

  datatype Mapping = Mapping(poolName: string, poolID: nat, inside: Key, outside: Block, swIfIndex: nat)

  datatype Error = PoolNotFound | MaxBlocksReached | NoFreeBlocks | AllocationFailed

  datatype Result<+T> = Ok(value: T) | Err(error: Error)

  // ---------------------------------------------------------------- port arithmetic

  function U16(x: int): nat {
    x % 0x1_0000
  }

  function BlocksPerAddr(cfg: Config): nat
    requires ValidConfig(cfg)
  {
    (cfg.portEnd - cfg.portStart + 1) / cfg.blockSize
  }

  /** The block with index k, in the uint16 arithmetic of the allocator. */
  function BlockAt(cfg: Config, ip: IPv4, k: nat): Block {
    var start := U16(cfg.portStart + U16(U16(k) * cfg.blockSize));
    Block(ip, start, U16(U16(start + cfg.blockSize) - 1))
  }

  /** The index that release and restore compute from a block. */
  function IndexOf(cfg: Config, b: Block): nat
    requires ValidConfig(cfg)
  {
    U16(b.start - cfg.portStart) / cfg.blockSize
  }

  lemma MulMono(a: nat, b: nat, c: nat)
    requires a <= b
    ensures a * c <= b * c
  {
  }

  lemma DivExact(k: nat, m: nat)
    requires m >= 1
    ensures (k * m) / m == k
  {
    var q := (k * m) / m;
    assert q * m <= k * m < (q + 1) * m;
    if q < k {
      MulMono(q + 1, k, m);
    } else if k < q {
      MulMono(k + 1, q, m);
    }
  }

  lemma BlockFits(cfg: Config, k: nat)
    requires ValidConfig(cfg) && k < BlocksPerAddr(cfg)
    ensures k <= k * cfg.blockSize <= cfg.portEnd - cfg.portStart + 1 - cfg.blockSize
  {
    var n := BlocksPerAddr(cfg);
    MulMono(k + 1, n, cfg.blockSize);
    assert n * cfg.blockSize <= cfg.portEnd - cfg.portStart + 1;
    assert (k + 1) * cfg.blockSize == k * cfg.blockSize + cfg.blockSize;
    MulMono(1, cfg.blockSize, k);
  }

  lemma NoWrap(start: nat, end: nat, size: nat, k: nat, offset: nat)
    requires 1 <= size && end < 0x1_0000 && k <= offset <= end - start + 1 - size
    ensures U16(k) == k && U16(offset) == offset && U16(start + offset) == start + offset
    ensures U16(U16(start + offset + size) - 1) == start + offset + size - 1 <= end
    ensures U16(start + offset - start) == offset
  {
  }

  /** Nothing wraps: block k starts k blocks into the range, ends inside it even when the
      range ends at 65535, and its index is recovered exactly. */
  lemma BlockArithmetic(cfg: Config, ip: IPv4, k: nat)
    requires ValidConfig(cfg) && k < BlocksPerAddr(cfg)
    ensures var b := BlockAt(cfg, ip, k);
            && b.start == cfg.portStart + k * cfg.blockSize
            && b.end == b.start + cfg.blockSize - 1
            && cfg.portStart <= b.start <= b.end <= cfg.portEnd
            && IndexOf(cfg, b) == k
  {
    BlockFits(cfg, k);
    NoWrap(cfg.portStart, cfg.portEnd, cfg.blockSize, k, k * cfg.blockSize);
    DivExact(k, cfg.blockSize);
  }

  /** n blocks of the configured size fill the port range: they fit, and one more would not. */
  predicate Fills(cfg: Config, n: nat) {
    cfg.portStart + n * cfg.blockSize <= cfg.portEnd + 1 < cfg.portStart + n * cfg.blockSize + cfg.blockSize
  }

  lemma BlocksFill(cfg: Config)
    requires ValidConfig(cfg)
    ensures Fills(cfg, BlocksPerAddr(cfg))
  {
    var width := cfg.portEnd - cfg.portStart + 1;
    assert width == width / cfg.blockSize * cfg.blockSize + width % cfg.blockSize;
  }

  /** Block k is one of them exactly when its last port is in the range. */
  lemma BlockFitsIff(cfg: Config, k: nat)
    requires ValidConfig(cfg)
    ensures k < BlocksPerAddr(cfg) <==> cfg.portStart + k * cfg.blockSize + cfg.blockSize - 1 <= cfg.portEnd
  {
    BlocksFill(cfg);
    var n := BlocksPerAddr(cfg);
    if k < n {
      BlockFits(cfg, k);
    } else {
      MulMono(n, k, cfg.blockSize);
    }
  }

  // ---------------------------------------------------------------- addresses

  /** The first address with this IP, or |addrs|. */
  function AddrIndex(addrs: seq<Address>, ip: IPv4): (i: nat)
    ensures i <= |addrs|
    ensures i < |addrs| ==> addrs[i].ip == ip
    ensures forall j :: 0 <= j < i ==> addrs[j].ip != ip
  {
    if addrs == [] then 0
    else if addrs[0].ip == ip then 0
    else 1 + AddrIndex(addrs[1..], ip)
  }

  /** Set the bit of block b, as restoreLocked does. */
  function TakeBlock(cfg: Config, addrs: seq<Address>, b: Block): seq<Address>
    requires ValidConfig(cfg)
  {
    var i := AddrIndex(addrs, b.ip);
    if i == |addrs| then addrs
    else addrs[i := addrs[i].(words := Take(addrs[i].words, IndexOf(cfg, b)))]
  }

  /** Clear the bit of block b, as ReleaseBlocks does. */
  function FreeBlock(cfg: Config, addrs: seq<Address>, b: Block): seq<Address>
    requires ValidConfig(cfg)
  {
    var i := AddrIndex(addrs, b.ip);
    if i == |addrs| then addrs
    else addrs[i := addrs[i].(words := Free(addrs[i].words, IndexOf(cfg, b)))]
  }

  function FreeBlocks(cfg: Config, addrs: seq<Address>, blocks: seq<Block>): seq<Address>
    requires ValidConfig(cfg)
    decreases |blocks|
  {
    if blocks == [] then addrs
    else FreeBlocks(cfg, FreeBlock(cfg, addrs, blocks[0]), blocks[1..])
  }

  predicate Usable(a: Address) {
    !a.excluded && HasFree(a.words, a.total)
  }

  /** The first address that is not excluded and has a free block, or |addrs|. */
  function FirstUsable(addrs: seq<Address>): (i: nat)
    ensures i <= |addrs|
    ensures i < |addrs| ==> Usable(addrs[i])
    ensures forall j :: 0 <= j < i ==> !Usable(addrs[j])
  {
    if addrs == [] then 0
    else if Usable(addrs[0]) then 0
    else 1 + FirstUsable(addrs[1..])
  }

  /** The first address with this IP that is not excluded, or |addrs|. */
  function PairedIndex(addrs: seq<Address>, ip: IPv4): (i: nat)
    ensures i <= |addrs|
    ensures i < |addrs| ==> addrs[i].ip == ip && !addrs[i].excluded
    ensures forall j :: 0 <= j < i ==> addrs[j].ip != ip || addrs[j].excluded
  {
    if addrs == [] then 0
    else if addrs[0].ip == ip && !addrs[0].excluded then 0
    else 1 + PairedIndex(addrs[1..], ip)
  }

  // The searches above return the index a left-to-right scan stops at.

  lemma AddrIndexIs(addrs: seq<Address>, ip: IPv4, t: nat)
    requires t < |addrs| && addrs[t].ip == ip && forall j :: 0 <= j < t ==> addrs[j].ip != ip
    ensures AddrIndex(addrs, ip) == t
  {
  }

  lemma FirstUsableIs(addrs: seq<Address>, t: nat)
    requires t < |addrs| && Usable(addrs[t]) && forall j :: 0 <= j < t ==> !Usable(addrs[j])
    ensures FirstUsable(addrs) == t
  {
  }

  lemma PairedIndexIs(addrs: seq<Address>, ip: IPv4, t: nat)
    requires t < |addrs| && addrs[t].ip == ip && !addrs[t].excluded
    requires forall j :: 0 <= j < t ==> addrs[j].ip != ip || addrs[j].excluded
    ensures PairedIndex(addrs, ip) == t
  {
  }

  // ---------------------------------------------------------------- operations

  function Blocks(p: Pool, key: Key): seq<Block> {
    if key in p.subs then p.subs[key].blocks else []
  }

  function AddBlock(subs: map<Key, Subscriber>, key: Key, swIfIndex: nat, b: Block): map<Key, Subscriber> {
    if key in subs then subs[key := subs[key].(blocks := subs[key].blocks + [b])]
    else subs[key := Subscriber(swIfIndex, [b])]
  }

  /** Hand block b to the subscriber. */
  function Grant(p: Pool, key: Key, swIfIndex: nat, b: Block): Pool
    requires ValidConfig(p.cfg)
  {
    p.(addrs := TakeBlock(p.cfg, p.addrs, b), subs := AddBlock(p.subs, key, swIfIndex, b))
  }

  function TargetIndex(p: Pool, key: Key): (t: nat)
    ensures t <= |p.addrs|
  {
    var held := Blocks(p, key);
    var paired := if held != [] && p.cfg.paired then PairedIndex(p.addrs, held[0].ip) else |p.addrs|;
    if paired < |p.addrs| then paired else FirstUsable(p.addrs)
  }

  function MappingOf(p: Pool, key: Key, b: Block, swIfIndex: nat): Mapping {
    Mapping(p.name, p.id, key, b, swIfIndex)
  }

  /** GetMappings: what one subscriber holds, in the order it got it. */
  function SubMappings(p: Pool, key: Key): seq<Mapping> {
    if key in p.subs then seq(|p.subs[key].blocks|, i requires 0 <= i < |p.subs[key].blocks| =>
                                MappingOf(p, key, p.subs[key].blocks[i], p.subs[key].swIfIndex))
    else []
  }

  /** allocateLocked, and AllocateBlock once the pool is found. */
  function Allocate(p: Pool, key: Key, swIfIndex: nat): (Pool, Result<Mapping>)
    requires ValidConfig(p.cfg)
  {
    if |Blocks(p, key)| >= p.cfg.maxBlocks then (p, Err(MaxBlocksReached))
    else
      var t := TargetIndex(p, key);
      if t == |p.addrs| then (p, Err(NoFreeBlocks))
      else
        var a := p.addrs[t];
        var k := LeastFree(a.words, a.total);
        if k >= a.total then (p, Err(AllocationFailed))
        else
          var b := BlockAt(p.cfg, a.ip, k);
          (p.(addrs := p.addrs[t := a.(words := Take(a.words, k))], subs := AddBlock(p.subs, key, swIfIndex, b)),
           Ok(MappingOf(p, key, b, swIfIndex)))
  }

  datatype Got = Got(mapping: Mapping, isNew: bool)

  /** GetOrAllocate once the pool is found. */
  function GetOrAllocate(p: Pool, key: Key, swIfIndex: nat): (Pool, Result<Got>)
    requires ValidConfig(p.cfg)
  {
    if key in p.subs && p.subs[key].blocks != [] then
      (p, Ok(Got(MappingOf(p, key, p.subs[key].blocks[0], p.subs[key].swIfIndex), false)))
    else
      var (q, r) := Allocate(p, key, swIfIndex);
      (q, if r.Ok? then Ok(Got(r.value, true)) else Err(r.error))
  }

  /** ReleaseBlocks once the pool is found. */
  function Release(p: Pool, key: Key): Pool
    requires ValidConfig(p.cfg)
  {
    if key !in p.subs then p
    else p.(addrs := FreeBlocks(p.cfg, p.addrs, p.subs[key].blocks), subs := p.subs - {key})
  }

  /** Some block has b's address and first port. */
  predicate PresentIn(blocks: seq<Block>, b: Block) {
    exists j :: 0 <= j < |blocks| && blocks[j].start == b.start && blocks[j].ip == b.ip
  }

  predicate Present(p: Pool, m: Mapping) {
    PresentIn(Blocks(p, m.inside), m.outside)
  }

  /** restoreLocked with ifAbsent set, once the pool is found. */
  function RestoreIfAbsent(p: Pool, m: Mapping): Pool
    requires ValidConfig(p.cfg)
  {
    if Present(p, m) then p else Grant(p, m.inside, m.swIfIndex, m.outside)
  }

  // ---------------------------------------------------------------- invariant

  ghost predicate NoneTaken(words: seq<nat>) {
    forall k: nat :: !Taken(words, k)
  }

  /** An address listed again is excluded and unused there: every search by address finds the
      first of the two. */
  ghost predicate UsedOnce(addrs: seq<Address>) {
    forall i, j :: 0 <= i < j < |addrs| && addrs[i].ip == addrs[j].ip ==> addrs[j].excluded && NoneTaken(addrs[j].words)
  }

  ghost predicate ValidAddresses(cfg: Config, addrs: seq<Address>)
    requires ValidConfig(cfg)
  {
    && UsedOnce(addrs)
    && forall i :: 0 <= i < |addrs| ==>
         addrs[i].total == BlocksPerAddr(cfg) && ValidBitmap(addrs[i].words, addrs[i].total)
  }

  /** b is one of the blocks the configuration divides this pool's addresses into. */
  predicate InPool(cfg: Config, addrs: seq<Address>, b: Block)
    requires ValidConfig(cfg)
  {
    && AddrIndex(addrs, b.ip) < |addrs|
    && IndexOf(cfg, b) < BlocksPerAddr(cfg)
    && b == BlockAt(cfg, b.ip, IndexOf(cfg, b))
  }

  /** The bitmap marks block b. */
  predicate Marked(cfg: Config, addrs: seq<Address>, b: Block)
    requires ValidConfig(cfg)
  {
    var i := AddrIndex(addrs, b.ip);
    i < |addrs| && Taken(addrs[i].words, IndexOf(cfg, b))
  }

  predicate Holds(subs: map<Key, Subscriber>, key: Key, b: Block) {
    key in subs && b in subs[key].blocks
  }

  predicate HeldBy(p: Pool, key: Key, b: Block) {
    Holds(p.subs, key, b)
  }

  /** No subscriber is without blocks, and no block is held twice. */
  ghost predicate ValidTable(subs: map<Key, Subscriber>) {
    && (forall key :: key in subs ==> subs[key].blocks != [] && Distinct(subs[key].blocks))
    && (forall k1, k2, b :: Holds(subs, k1, b) && Holds(subs, k2, b) ==> k1 == k2)
  }

  ghost predicate SomeoneHolds(subs: map<Key, Subscriber>, b: Block) {
    exists key :: Holds(subs, key, b)
  }

  /** A bit is set exactly when a subscriber holds the block, and all blocks held are of the pool. */
  ghost predicate Agree(cfg: Config, addrs: seq<Address>, subs: map<Key, Subscriber>)
    requires ValidConfig(cfg)
  {
    && (forall b :: SomeoneHolds(subs, b) ==> InPool(cfg, addrs, b))
    && (forall b :: InPool(cfg, addrs, b) ==> (Marked(cfg, addrs, b) <==> SomeoneHolds(subs, b)))
  }

  ghost predicate Inv(p: Pool) {
    && ValidConfig(p.cfg)
    && ValidAddresses(p.cfg, p.addrs)
    && ValidTable(p.subs)
    && Agree(p.cfg, p.addrs, p.subs)
  }
}
