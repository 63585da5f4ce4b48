/** The mutable pool of internal/cgnat/pool.go: bitmaps updated in place, subscriber
    tables, and the manager's map of pools. Every method is proved against the value
    operations of module PoolModel. */
module PoolManager {
  import opened Words
  import opened Bitmap
  import opened PoolModel
  import opened PoolLaws
  import opened Snapshot

  /** popcount: the four in-place updates of x. */
  method Popcount(word: nat) returns (r: nat)
    requires word < TWO_TO_64
    ensures r == Ones(word, WORD_BITS)
  {
    PopCountIsOnes(word);
    var x := word;
    x := (x - And(x / 2, PAIR_MASK)) % TWO_TO_64;
    x := (And(x, NIBBLE_MASK) + And(x / 4, NIBBLE_MASK)) % TWO_TO_64;
    x := And((x + x / 16) % TWO_TO_64, BYTE_MASK);
    r := (x * 0x0101010101010101) % TWO_TO_64 / 0x100_0000_0000_0000;
  }

  /** outsideAddressState */
  class OutsideAddress {
    const ip: IPv4
    const total: nat
    const excluded: bool
    const bits: array<nat>

    ghost predicate Valid()
      reads bits
    {
      bits.Length == (total + 63) / 64 && total <= 0x1_0000 && WordsInRange(bits[..])
    }

    function Model(): Address
      reads bits
    {
      Address(ip, total, bits[..], excluded)
    }

    constructor (ip: IPv4, total: nat, excluded: bool)
      requires total <= 0x1_0000
      ensures Valid() && fresh(bits)
      ensures Model() == Address(ip, total, seq((total + 63) / 64, i => 0), excluded)
    {
      this.ip, this.total, this.excluded := ip, total, excluded;
      bits := new nat[(total + 63) / 64](i => 0);
    }

    /** hasFreeBlock, with its uint32 counter. */
    method HasFreeBlock() returns (r: bool)
      requires Valid()
      ensures r == HasFree(bits[..], total)
    {
      var count := 0;
      for i := 0 to bits.Length
        invariant count == OnesSum(bits[..], i) <= 64 * i
      {
        OnesSumBound(bits[..], i + 1);
        var ones := Popcount(bits[i]);
        count := (count + ones) % 0x1_0000_0000;
      }
      r := count < total;
    }

    /** allocateBlock: takes the least free block, or returns -1. */
    method AllocateBlock() returns (k: int)
      requires Valid()
      modifies bits
      ensures Valid()
      ensures TookLeast(old(bits[..]), total, k, bits[..])
    {
      ghost var words := bits[..];
      LeastFreeFromMeans(words, total, 0);
      for i := 0 to bits.Length
        invariant bits[..] == words
        invariant forall j :: 0 <= j < 64 * i ==> Taken(words, j)
      {
        var word := bits[i];
        if word == ALL_ONES {
          WordFull(words, i);
          continue;
        }
        for bit := 0 to 64
          invariant bits[..] == words
          invariant forall j :: 0 <= j < 64 * i + bit ==> Taken(words, j)
        {
          var idx := i * 64 + bit;
          if idx >= total {
            return -1;
          }
          if !BitAt(word, bit) {
            assert idx / 64 == i && idx % 64 == bit && !Taken(words, idx);
            TakeFreeInRange(words, idx);
            bits[i] := SetBit(word, bit);
            assert bits[..] == Take(words, idx);
            return idx;
          }
          assert (64 * i + bit) / 64 == i && (64 * i + bit) % 64 == bit;
        }
      }
      return -1;
    }

    /** freeBlock */
    method FreeBlock(k: nat)
      requires Valid()
      modifies bits
      ensures Valid()
      ensures bits[..] == Free(old(bits[..]), k)
    {
      ghost var words := bits[..];
      TakeFreeInRange(words, k);
      if k / 64 < bits.Length {
        bits[k / 64] := ClearBit(bits[k / 64], k % 64);
      }
      assert bits[..] == Free(words, k);
    }

    /** The bit set of restoreLocked. */
    method MarkBlock(k: nat)
      requires Valid()
      modifies bits
      ensures Valid()
      ensures bits[..] == Take(old(bits[..]), k)
    {
      ghost var words := bits[..];
      TakeFreeInRange(words, k);
      if k / 64 < bits.Length {
        bits[k / 64] := SetBit(bits[k / 64], k % 64);
      }
      assert bits[..] == Take(words, k);
    }
  }

  ghost function BitsOf(addrs: seq<OutsideAddress>): set<object> {
    set a | a in addrs :: a.bits
  }

  ghost function Models(addrs: seq<OutsideAddress>): (s: seq<Address>)
    reads BitsOf(addrs)
    ensures |s| == |addrs| && forall i :: 0 <= i < |addrs| ==> s[i] == addrs[i].Model()
  {
    if addrs == [] then [] else Models(addrs[..|addrs| - 1]) + [addrs[|addrs| - 1].Model()]
  }

  /** Valid addresses with separate bitmaps. */
  ghost predicate Separate(addrs: seq<OutsideAddress>)
    reads BitsOf(addrs)
  {
    && (forall i :: 0 <= i < |addrs| ==> addrs[i].Valid())
    && (forall i, j :: 0 <= i < j < |addrs| ==> addrs[i].bits != addrs[j].bits)
  }

  // One address of several: the others keep their bitmaps.

  method AllocateOn(addrs: seq<OutsideAddress>, t: nat) returns (k: int)
    requires Separate(addrs) && t < |addrs|
    modifies addrs[t].bits
    ensures Separate(addrs)
    ensures var all := old(Models(addrs)); var a := all[t]; var least := LeastFree(a.words, a.total);
            if least < a.total then k == least && Models(addrs) == all[t := a.(words := Take(a.words, least))]
            else k == -1 && Models(addrs) == all
  {
    k := addrs[t].AllocateBlock();
  }

  method FreeOn(addrs: seq<OutsideAddress>, t: nat, k: nat)
    requires Separate(addrs) && t < |addrs|
    modifies addrs[t].bits
    ensures Separate(addrs)
    ensures var all := old(Models(addrs)); Models(addrs) == all[t := all[t].(words := Free(all[t].words, k))]
  {
    addrs[t].FreeBlock(k);
  }

  method MarkOn(addrs: seq<OutsideAddress>, t: nat, k: nat)
    requires Separate(addrs) && t < |addrs|
    modifies addrs[t].bits
    ensures Separate(addrs)
    ensures var all := old(Models(addrs)); Models(addrs) == all[t := all[t].(words := Take(all[t].words, k))]
  {
    addrs[t].MarkBlock(k);
  }

  /** poolState, with the operations that run once the manager has found the pool. */
  class PoolState {
    const name: string
    const id: nat
    const cfg: Config
    const addrs: seq<OutsideAddress>
    var subs: map<Key, Subscriber>

    /** The objects this pool may change. */
    ghost function Repr(): set<object> {
      {this} + BitsOf(addrs)
    }

    ghost predicate Valid()
      reads Repr()
    {
      ValidConfig(cfg) && Separate(addrs)
    }

    ghost function Model(): Pool
      reads Repr()
    {
      Pool(name, id, cfg, Models(addrs), subs)
    }

    constructor (name: string, id: nat, cfg: Config, addrs: seq<OutsideAddress>)
      requires ValidConfig(cfg) && Separate(addrs)
      ensures Valid() && this.addrs == addrs
      ensures Model() == Pool(name, id, cfg, Models(addrs), map[])
    {
      this.name, this.id, this.cfg, this.addrs := name, id, cfg, addrs;
      subs := map[];
    }

    twostate lemma Kept()
      requires unchanged(Repr()) && old(Valid())
      ensures Valid() && Model() == old(Model())
    {
    }

    /** The scan for the address the subscriber is paired with. */
    method FindPaired(ip: IPv4) returns (t: nat)
      requires Valid()
      ensures t == PairedIndex(Models(addrs), ip)
    {
      ghost var all := Models(addrs);
      for i := 0 to |addrs|
        invariant forall j :: 0 <= j < i ==> all[j].ip != ip || all[j].excluded
      {
        if addrs[i].ip == ip && !addrs[i].excluded {
          PairedIndexIs(all, ip, i);
          return i;
        }
      }
      return |addrs|;
    }

    /** The scan for an address with a free block. */
    method FindUsable() returns (t: nat)
      requires Valid()
      ensures t == FirstUsable(Models(addrs))
    {
      ghost var all := Models(addrs);
      for i := 0 to |addrs|
        invariant forall j :: 0 <= j < i ==> !Usable(all[j])
      {
        if addrs[i].excluded {
          continue;
        }
        var free := addrs[i].HasFreeBlock();
        if free {
          FirstUsableIs(all, i);
          return i;
        }
      }
      return |addrs|;
    }

    /** The scan for the address a block lies on. */
    method FindAddress(ip: IPv4) returns (t: nat)
      requires Valid()
      ensures t == AddrIndex(Models(addrs), ip)
    {
      ghost var all := Models(addrs);
      for i := 0 to |addrs|
        invariant forall j :: 0 <= j < i ==> all[j].ip != ip
      {
        if addrs[i].ip == ip {
          AddrIndexIs(all, ip, i);
          return i;
        }
      }
      return |addrs|;
    }

    method FindTarget(key: Key) returns (t: nat)
      requires Valid()
      ensures t == TargetIndex(Model(), key)
    {
      ghost var held := Blocks(Model(), key);
      t := |addrs|;
      if key in subs && |subs[key].blocks| > 0 && cfg.paired {
        assert held == subs[key].blocks;
        t := FindPaired(subs[key].blocks[0].ip);
      }
      if t == |addrs| {
        t := FindUsable();
      }
    }

    method AppendBlock(key: Key, swIfIndex: nat, b: Block)
      modifies this`subs
      ensures subs == AddBlock(old(subs), key, swIfIndex, b)
    {
      var sub := if key in subs then subs[key] else Subscriber(swIfIndex, []);
      assert [] + [b] == [b];
      subs := subs[key := sub.(blocks := sub.blocks + [b])];
    }

    /** allocateLocked */
    method AllocateLocked(key: Key, swIfIndex: nat) returns (r: Result<Mapping>)
      requires Valid()
      modifies Repr()
      ensures Valid()
      ensures (Model(), r) == Allocate(old(Model()), key, swIfIndex)
    {
      ghost var all := Models(addrs);
      if key in subs && |subs[key].blocks| >= cfg.maxBlocks {
        return Err(MaxBlocksReached);
      }
      var t := FindTarget(key);
      if t == |addrs| {
        return Err(NoFreeBlocks);
      }
      var k := AllocateOn(addrs, t);
      if k < 0 {
        return Err(AllocationFailed);
      }
      assert Models(addrs) == all[t := all[t].(words := Take(all[t].words, k))];
      var block := BlockAt(cfg, addrs[t].ip, k);
      AppendBlock(key, swIfIndex, block);
      return Ok(Mapping(name, id, key, block, swIfIndex));
    }

    /** GetOrAllocate */
    method GetOrAllocateLocked(key: Key, swIfIndex: nat) returns (r: Result<Got>)
      requires Valid()
      modifies Repr()
      ensures Valid()
      ensures (Model(), r) == GetOrAllocate(old(Model()), key, swIfIndex)
    {
      if key in subs && |subs[key].blocks| > 0 {
        return Ok(Got(Mapping(name, id, key, subs[key].blocks[0], subs[key].swIfIndex), false));
      }
      var a := AllocateLocked(key, swIfIndex);
      match a
      case Ok(m) => return Ok(Got(m, true));
      case Err(e) => return Err(e);
    }

    /** The inner loop of ReleaseBlocks. */
    method FreeOne(b: Block)
      requires Valid()
      modifies BitsOf(addrs)
      ensures Valid() && Models(addrs) == FreeBlock(cfg, old(Models(addrs)), b)
    {
      var t := FindAddress(b.ip);
      if t < |addrs| {
        FreeOn(addrs, t, IndexOf(cfg, b));
      }
    }

    /** The loop of ReleaseBlocks. */
    method FreeAll(blocks: seq<Block>)
      requires Valid()
      modifies BitsOf(addrs)
      ensures Valid() && Models(addrs) == FreeBlocks(cfg, old(Models(addrs)), blocks)
    {
      for i := 0 to |blocks|
        invariant Valid()
        invariant FreeBlocks(cfg, Models(addrs), blocks[i..]) == FreeBlocks(cfg, old(Models(addrs)), blocks)
      {
        FreeOne(blocks[i]);
        assert blocks[i..][0] == blocks[i] && blocks[i..][1..] == blocks[i + 1..];
      }
      assert blocks[|blocks|..] == [];
    }

    /** ReleaseBlocks */
    method ReleaseLocked(key: Key)
      requires Valid()
      modifies Repr()
      ensures Valid()
      ensures Model() == Release(old(Model()), key)
    {
      if key !in subs {
        return;
      }
      FreeAll(subs[key].blocks);
      subs := subs - {key};
    }

    /** The presence scan of restoreLocked. */
    method HasBlock(key: Key, b: Block) returns (found: bool)
      requires Valid()
      ensures found == PresentIn(Blocks(Model(), key), b)
    {
      if key in subs {
        var blocks := subs[key].blocks;
        for i := 0 to |blocks|
          invariant forall j :: 0 <= j < i ==> !(blocks[j].start == b.start && blocks[j].ip == b.ip)
        {
          if blocks[i].start == b.start && blocks[i].ip == b.ip {
            return true;
          }
        }
      }
      return false;
    }

    method MarkOne(b: Block)
      requires Valid()
      modifies BitsOf(addrs)
      ensures Valid() && Models(addrs) == TakeBlock(cfg, old(Models(addrs)), b)
    {
      var t := FindAddress(b.ip);
      if t < |addrs| {
        MarkOn(addrs, t, IndexOf(cfg, b));
      }
    }

    /** restoreLocked with ifAbsent set */
    method RestoreLocked(m: Mapping)
      requires Valid()
      modifies Repr()
      ensures Valid()
      ensures Model() == RestoreIfAbsent(old(Model()), m)
    {
      var found := HasBlock(m.inside, m.outside);
      if found {
        return;
      }
      MarkOne(m.outside);
      AppendBlock(m.inside, m.swIfIndex, m.outside);
    }

    /** GetMappings */
    method Mappings(key: Key) returns (ms: seq<Mapping>)
      requires Valid()
      ensures IsListOf(Model(), key, ms) && ms == SubMappings(Model(), key)
    {
      ms := [];
      if key in subs {
        var sub := subs[key];
        for i := 0 to |sub.blocks|
          invariant |ms| == i
          invariant forall j :: 0 <= j < i ==> ms[j] == MappingOf(Model(), key, sub.blocks[j], sub.swIfIndex)
        {
          ms := ms + [Mapping(name, id, key, sub.blocks[i], sub.swIfIndex)];
        }
      }
    }
  }

  /** The inner loops of GetAllMappings: subscribers in whatever order the map yields them. */
  method PoolMappings(ps: PoolState) returns (ms: seq<Mapping>)
    requires ps.Valid()
    ensures IsSnapshot(ps.Model(), ms)
  {
    ms := [];
    var todo := ps.subs.Keys;
    assert IsPoolPart(ps.Model(), todo, ms);
    while todo != {}
      invariant IsPoolPart(ps.Model(), todo, ms)
      decreases todo
    {
      var key :| key in todo;
      var more := ps.Mappings(key);
      ExtendPool(ps.Model(), todo, ms, key, more);
      ms := ms + more;
      todo := todo - {key};
    }
  }

  /** The pools of the manager, as values. */
  type Pools = map<string, Pool>

  ghost predicate Apart(p: PoolState, q: PoolState) {
    p.Repr() !! q.Repr()
  }

  class Manager {
    var pools: map<string, PoolState>

    ghost predicate ValidPool(n: string, ps: PoolState)
      reads ps.Repr()
    {
      this !in ps.Repr() && ps.Valid() && ps.name == n
    }

    /** The objects of the pools. */
    ghost function Objects(): set<object>
      reads this
    {
      set n, o | n in pools && o in pools[n].Repr() :: o
    }

    ghost predicate Valid()
      reads this, Objects()
    {
      && (forall n :: n in pools ==> ValidPool(n, pools[n]))
      && (forall m, n :: m in pools && n in pools && m != n ==> Apart(pools[m], pools[n]))
    }

    ghost function View(): Pools
      reads this, Objects()
    {
      map n | n in pools :: pools[n].Model()
    }

    constructor ()
      ensures Valid() && View() == map[]
    {
      pools := map[];
    }

    /** A call that changed none of its objects left the manager as it was. */
    twostate lemma Untouched()
      requires unchanged(this) && unchanged(Objects())
      ensures View() == old(View()) && Valid() == old(Valid()) && Objects() == old(Objects())
    {
    }

    /** A call that changed only the objects of one pool changed only that pool's value. */
    twostate lemma OthersKept(name: string)
      requires old(Valid()) && pools == old(pools)
      requires forall n :: n in pools && n != name ==> unchanged(pools[n].Repr())
      ensures forall n :: n in pools && n != name ==> pools[n].Valid() && pools[n].Model() == old(pools[n].Model())
    {
      forall n | n in pools && n != name
        ensures pools[n].Valid() && pools[n].Model() == old(pools[n].Model())
      {
        pools[n].Kept();
      }
    }

    twostate lemma OneViewChanged(name: string)
      requires name in pools && pools == old(pools)[name := pools[name]]
      requires forall n :: n in pools && n != name ==> pools[n].Model() == old(pools[n].Model())
      ensures View() == old(View())[name := pools[name].Model()]
    {
    }

    /** Both, for a call on the pool called name. */
    twostate lemma PoolChanged(name: string)
      requires old(Valid()) && pools == old(pools) && name in pools && pools[name].Valid() && pools[name].name == name
      requires forall n :: n in pools && n != name ==> unchanged(pools[n].Repr())
      ensures Valid() && View() == old(View())[name := pools[name].Model()]
    {
      OthersKept(name);
      OneViewChanged(name);
      forall n | n in pools
        ensures ValidPool(n, pools[n])
      {
        assert old(ValidPool(n, pools[n]));
      }
    }

    /** The last step of ConfigurePool: the pool built by NewPool replaces any of that name. */
    method AddPool(name: string, ps: PoolState)
      requires Valid() && ValidPool(name, ps)
      requires forall n :: n in pools ==> Apart(pools[n], ps)
      modifies this
      ensures Valid()
      ensures View() == old(View())[name := old(ps.Model())]
    {
      pools := pools[name := ps];
      ps.Kept();
      forall n | n in pools && n != name
        ensures ValidPool(n, pools[n]) && pools[n].Model() == old(pools[n].Model())
      {
        pools[n].Kept();
      }
      OneViewChanged(name);
    }

    /** GetOrAllocate */
    method GetOrAllocateBlock(pool: string, key: Key, swIfIndex: nat) returns (r: Result<Got>)
      requires Valid()
      modifies if pool in pools then pools[pool].Repr() else {}
      ensures Valid() && pools == old(pools)
      ensures pool !in old(View()) ==> r == Err(PoolNotFound) && View() == old(View())
      ensures pool in old(View()) ==> r == GetOrAllocate(old(View())[pool], key, swIfIndex).1
      ensures pool in old(View()) ==> View() == old(View())[pool := GetOrAllocate(old(View())[pool], key, swIfIndex).0]
    {
      if pool !in pools {
        return Err(PoolNotFound);
      }
      r := pools[pool].GetOrAllocateLocked(key, swIfIndex);
      PoolChanged(pool);
    }

    /** ReleaseBlocks; false when the pool is not configured. */
    method ReleaseBlocks(pool: string, key: Key) returns (ok: bool)
      requires Valid()
      modifies if pool in pools then pools[pool].Repr() else {}
      ensures Valid() && pools == old(pools)
      ensures ok <==> pool in old(View())
      ensures View() == if ok then old(View())[pool := Release(old(View())[pool], key)] else old(View())
    {
      if pool !in pools {
        return false;
      }
      pools[pool].ReleaseLocked(key);
      PoolChanged(pool);
      return true;
    }

    /** GetMappings; none when the pool is not configured. */
    method GetMappings(pool: string, key: Key) returns (ms: seq<Mapping>)
      requires Valid()
      ensures ms == if pool in View() then SubMappings(View()[pool], key) else []
    {
      if pool !in pools {
        return [];
      }
      assert ValidPool(pool, pools[pool]);
      ms := pools[pool].Mappings(key);
    }

    /** RestoreMappingIfAbsent; false when the pool is not configured. */
    method RestoreMappingIfAbsent(m: Mapping) returns (ok: bool)
      requires Valid()
      modifies if m.poolName in pools then pools[m.poolName].Repr() else {}
      ensures Valid() && pools == old(pools)
      ensures ok <==> m.poolName in old(View())
      ensures View() == if ok then old(View())[m.poolName := RestoreIfAbsent(old(View())[m.poolName], m)]
                        else old(View())
    {
      if m.poolName !in pools {
        return false;
      }
      pools[m.poolName].RestoreLocked(m);
      PoolChanged(m.poolName);
      return true;
    }
  }

  /** The outer loop of GetAllMappings: pools, too, in whatever order the map yields them. */
  method MappingsOf(pools: map<string, PoolState>, ghost view: Pools) returns (ms: seq<Mapping>)
    requires pools.Keys == view.Keys
    requires forall n :: n in pools ==> pools[n].Valid() && pools[n].Model() == view[n] && view[n].name == n
    ensures IsFullSnapshot(view, ms)
  {
    ms := [];
    var todo := pools.Keys;
    SnapshotStarts(view);
    while todo != {}
      invariant todo <= pools.Keys && IsPartSnapshot(view, todo, ms)
      decreases todo
    {
      var name :| name in todo;
      var more := PoolMappings(pools[name]);
      ExtendSnapshot(view, todo, ms, name, more);
      ms := ms + more;
      todo := todo - {name};
    }
    SnapshotEnds(view, ms);
  }

  method GetAllMappings(pm: Manager) returns (ms: seq<Mapping>)
    requires pm.Valid()
    ensures IsFullSnapshot(pm.View(), ms)
  {
    assert forall n :: n in pm.pools ==> pm.ValidPool(n, pm.pools[n]);
    ms := MappingsOf(pm.pools, pm.View());
  }

  method NewAddresses(cfg: Config, ips: seq<IPv4>, excluded: set<IPv4>) returns (addrs: seq<OutsideAddress>)
    requires ValidConfig(cfg)
    ensures |addrs| == |ips| && Separate(addrs)
    ensures forall j :: 0 <= j < |ips| ==> fresh(addrs[j].bits)
    ensures forall j :: 0 <= j < |ips| ==> addrs[j].Model() == FreshAddress(cfg, ips[j], ips[j] in excluded)
  {
    addrs := [];
    for i := 0 to |ips|
      invariant |addrs| == i && Separate(addrs)
      invariant forall j :: 0 <= j < i ==> fresh(addrs[j].bits)
      invariant forall j :: 0 <= j < i ==> addrs[j].Model() == FreshAddress(cfg, ips[j], ips[j] in excluded)
    {
      var a := new OutsideAddress(ips[i], BlocksPerAddr(cfg), ips[i] in excluded);
      addrs := addrs + [a];
    }
  }

  /** ConfigurePool up to the map update, on addresses already expanded from the prefixes. */
  method NewPool(name: string, id: nat, cfg: Config, ips: seq<IPv4>, excluded: set<IPv4>) returns (ps: PoolState)
    requires ValidConfig(cfg)
    ensures fresh(ps.Repr()) && ps.Valid() && ps.Model() == Configure(name, id, cfg, ips, excluded)
    ensures ps.name == name && ps.id == id && ps.cfg == cfg && ps.subs == map[]
    ensures |ps.addrs| == |ips| && forall i :: 0 <= i < |ips| ==> FreshFor(cfg, ips[i], excluded, ps.addrs[i].Model())
  {
    var addrs := NewAddresses(cfg, ips, excluded);
    ps := new PoolState(name, id, cfg, addrs);
    assert Models(addrs) == Configure(name, id, cfg, ips, excluded).addrs;
    BlocksFill(cfg);
    FreshBits((BlocksPerAddr(cfg) + 63) / 64);
  }

  lemma WordFull(words: seq<nat>, i: nat)
    requires i < |words| && words[i] == ALL_ONES
    ensures forall j :: 64 * i <= j < 64 * (i + 1) ==> Taken(words, j)
  {
    WordWidth();
    AllOnes(words[i], WORD_BITS);
    forall j | 64 * i <= j < 64 * (i + 1)
      ensures Taken(words, j)
    {
      assert j / 64 == i && 0 <= j % 64 < WORD_BITS;
    }
  }
}
