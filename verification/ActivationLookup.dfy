/** The reverse index follows the tables: Lookup names the session whose block covers the port, or
    nobody, over every run whose index steps are sound, and only over those. */
module ActivationLookup {
  import opened PoolModel
  import opened PoolInvariant
  import opened ReverseIndex
  import opened Activation
  import opened ActivationSafety

  // ---------------------------------------------------------------- invariant

  /** The release has not taken the session's mapping out of the index yet. */
  predicate BeforeRemove(pc: RelPc) {
    pc.Started? || (pc.Removing? && pc.ms != [])
  }

  /** No release of the session has taken its mapping out of the index. */
  ghost predicate NotRemoved(s: State, sid: string) {
    forall tid :: Releasing(s, sid, tid) ==> BeforeRemove(s.rel[tid].pc)
  }

  /** The session's mapping is in the index: it is committed, the Add of its activation is
      done, and no Remove of a release is. */
  ghost predicate InIndex(s: State, sid: string) {
    sid in s.sessionPool && !(sid in s.act && s.act[sid].Indexing?) && NotRemoved(s, sid)
  }

  function MappingKey(m: Mapping): BlockKey {
    BlockKey(m.outside.ip, m.outside.start)
  }

  predicate Has(ix: Index, m: Mapping) {
    MappingKey(m) in ix.byBlock && ix.byBlock[MappingKey(m)].mapping == m
  }

  /** The session's table entry is exactly m. */
  predicate Entry(c: Sessions, pools: map<string, Pool>, sid: string, m: Mapping) {
    sid in c && OneBlock(pools, c[sid]) && TableMapping(pools, c[sid]) == m
  }

  /** The mapping is one of the session's slot. */
  predicate OfSlot(c: Sessions, sid: string, m: Mapping) {
    sid in c && m.inside == c[sid].key && m.poolName == c[sid].pool
  }

  ghost predicate IndexMatches(c: Sessions, s: State) {
    && Coherent(s.rev)
    && (forall sid :: sid in c && InIndex(s, sid) ==>
          OneBlock(s.pools, c[sid]) && Has(s.rev, TableMapping(s.pools, c[sid])))
    && (forall x :: Indexed(s.rev, x) ==> exists sid :: InIndex(s, sid) && Entry(c, s.pools, sid, x.mapping))
  }

  /** m is what a handler of the session read: of its slot, and its entry while it is owed one. */
  ghost predicate Carries(c: Sessions, s: State, sid: string, m: Mapping) {
    OfSlot(c, sid, m) && (Owed(s, sid) ==> Entry(c, s.pools, sid, m))
  }

  /** What the two handlers of a session carry along agrees with the table. */
  ghost predicate OwnCarried(c: Sessions, s: State, sid: string) {
    && (sid in s.act && s.act[sid].Indexing? ==> Carries(c, s, sid, s.act[sid].m))
    && (forall tid :: Releasing(s, sid, tid) && s.rel[tid].pc.Removing? && s.rel[tid].pc.ms != [] ==>
          |s.rel[tid].pc.ms| == 1 && Carries(c, s, sid, s.rel[tid].pc.ms[0]))
  }

  ghost predicate CarriedOk(c: Sessions, s: State) {
    forall sid :: OwnCarried(c, s, sid)
  }

  /** No outside address is in two pools. */
  ghost predicate PoolsApart(pools: map<string, Pool>) {
    forall m, n, i, j ::
      m in pools && n in pools && m != n && 0 <= i < |pools[m].addrs| && 0 <= j < |pools[n].addrs| ==>
      pools[m].addrs[i].ip != pools[n].addrs[j].ip
  }

  ghost predicate FullState(c: Sessions, s: State) {
    SafeState(c, s) && PoolsApart(s.pools) && CarriedOk(c, s) && IndexMatches(c, s)
  }

  // ---------------------------------------------------------------- blocks identify sessions

  lemma EntryInPool(pools: map<string, Pool>, info: Session)
    requires PoolsInv(pools) && OneBlock(pools, info)
    ensures var p := pools[info.pool]; var b := TableMapping(pools, info).outside;
            HeldBy(p, info.key, b) && InPool(p.cfg, p.addrs, b)
  {
    HeldInPool(pools[info.pool], info.key);
  }

  /** The blocks of two slots have no port in common. */
  lemma EntriesApart(c: Sessions, pools: map<string, Pool>, x: string, y: string)
    requires PoolsInv(pools) && PoolsApart(pools) && x in c && y in c && !SameSlot(c, x, y)
    requires OneBlock(pools, c[x]) && OneBlock(pools, c[y])
    ensures !Overlap(TableMapping(pools, c[x]).outside, TableMapping(pools, c[y]).outside)
  {
    var b1, b2 := TableMapping(pools, c[x]).outside, TableMapping(pools, c[y]).outside;
    EntryInPool(pools, c[x]);
    EntryInPool(pools, c[y]);
    if c[x].pool == c[y].pool {
      if Overlap(b1, b2) {
        NoPortShared(pools[c[x].pool], c[x].key, b1, c[y].key, b2);
      }
    }
  }

  lemma BlockNotEmpty(pools: map<string, Pool>, info: Session)
    requires PoolsInv(pools) && OneBlock(pools, info)
    ensures var b := TableMapping(pools, info).outside; b.start <= b.end
  {
    var p := pools[info.pool];
    var b := TableMapping(pools, info).outside;
    EntryInPool(pools, info);
    BlockArithmetic(p.cfg, b.ip, IndexOf(p.cfg, b));
  }

  /** The sessions' entries, when both have one, are different blocks. */
  ghost predicate DifferentBlocks(c: Sessions, pools: map<string, Pool>, x: string, y: string) {
    x in c && y in c && OneBlock(pools, c[x]) && OneBlock(pools, c[y]) ==>
      && MappingKey(TableMapping(pools, c[x])) != MappingKey(TableMapping(pools, c[y]))
      && !Overlap(TableMapping(pools, c[x]).outside, TableMapping(pools, c[y]).outside)
  }

  lemma SlotsDiffer(c: Sessions, pools: map<string, Pool>, x: string, y: string)
    requires PoolsInv(pools) && PoolsApart(pools) && !SameSlot(c, x, y)
    ensures DifferentBlocks(c, pools, x, y)
  {
    if x in c && y in c && OneBlock(pools, c[x]) && OneBlock(pools, c[y]) {
      EntriesApart(c, pools, x, y);
      BlockNotEmpty(pools, c[x]);
      BlockNotEmpty(pools, c[y]);
    }
  }

  ghost predicate Separated(c: Sessions, s: State) {
    forall x, y :: Claims(s, x) && Claims(s, y) && x != y ==> DifferentBlocks(c, s.pools, x, y)
  }

  lemma EntriesSeparated(c: Sessions, s: State)
    requires SafeState(c, s) && PoolsApart(s.pools)
    ensures Separated(c, s)
  {
    forall x, y | Claims(s, x) && Claims(s, y) && x != y
      ensures DifferentBlocks(c, s.pools, x, y)
    {
      assert x in c ==> SessionOk(c, s, x);
      SlotsDiffer(c, s.pools, x, y);
    }
  }

  // ---------------------------------------------------------------- lookup is right

  lemma SessionOf(c: Sessions, s: State, x: Ref) returns (sid: string)
    requires IndexMatches(c, s) && Indexed(s.rev, x)
    ensures InIndex(s, sid) && Entry(c, s.pools, sid, x.mapping)
  {
    sid :| InIndex(s, sid) && Entry(c, s.pools, sid, x.mapping);
  }

  lemma OverlapMeansSame(c: Sessions, s: State, i: string, j: string, m1: Mapping, m2: Mapping)
    requires Separated(c, s) && InIndex(s, i) && InIndex(s, j)
    requires Entry(c, s.pools, i, m1) && Entry(c, s.pools, j, m2) && Overlap(m1.outside, m2.outside)
    ensures m1 == m2
  {
    assert i != j ==> DifferentBlocks(c, s.pools, i, j);
  }

  lemma IndexDisjoint(c: Sessions, s: State)
    requires Separated(c, s) && IndexMatches(c, s)
    ensures Disjoint(s.rev)
  {
    forall x, y, port: nat |
      Indexed(s.rev, x) && Indexed(s.rev, y) && IPOf(x) == IPOf(y) && Covers(x, port) && Covers(y, port)
      ensures x == y
    {
      var i := SessionOf(c, s, x);
      var j := SessionOf(c, s, y);
      OverlapMeansSame(c, s, i, j, x.mapping, y.mapping);
    }
  }

  /** The session holds the port: its one block is on that address and covers it. */
  predicate HoldsPort(c: Sessions, s: State, sid: string, ip: IPv4, port: nat) {
    && sid in c && OneBlock(s.pools, c[sid])
    && var b := TableMapping(s.pools, c[sid]).outside; b.ip == ip && b.start <= port <= b.end
  }

  lemma HolderIsFound(c: Sessions, s: State, sid: string, ip: IPv4, port: nat)
    requires Disjoint(s.rev) && IndexMatches(c, s) && InIndex(s, sid) && HoldsPort(c, s, sid, ip, port)
    ensures LookUp(s.rev, ip, port).Some? && LookUp(s.rev, ip, port).value.mapping == TableMapping(s.pools, c[sid])
  {
    var m := TableMapping(s.pools, c[sid]);
    assert Has(s.rev, m);
    var x := s.rev.byBlock[MappingKey(m)];
    LookUpIsExact(s.rev, ip, port);
    assert Indexed(s.rev, x) && IPOf(x) == ip && Covers(x, port);
  }

  lemma FoundIsHolder(c: Sessions, s: State, ip: IPv4, port: nat)
    requires Disjoint(s.rev) && IndexMatches(c, s) && LookUp(s.rev, ip, port).Some?
    ensures exists sid :: InIndex(s, sid) && HoldsPort(c, s, sid, ip, port)
  {
    var x := LookUp(s.rev, ip, port).value;
    LookUpIsExact(s.rev, ip, port);
    assert Indexed(s.rev, x);
    var sid := SessionOf(c, s, x);
    assert HoldsPort(c, s, sid, ip, port);
  }

  /** Lookup answers with the mapping of the indexed session that holds the port, and with
      nothing exactly when there is none. */
  ghost predicate LookUpRight(c: Sessions, s: State, ip: IPv4, port: nat) {
    && (forall sid :: InIndex(s, sid) && HoldsPort(c, s, sid, ip, port) ==>
          LookUp(s.rev, ip, port).Some? && LookUp(s.rev, ip, port).value.mapping == TableMapping(s.pools, c[sid]))
    && (LookUp(s.rev, ip, port).Some? ==> exists sid :: InIndex(s, sid) && HoldsPort(c, s, sid, ip, port))
  }

  lemma LookUpNamesHolder(c: Sessions, s: State, ip: IPv4, port: nat)
    requires SafeState(c, s) && PoolsApart(s.pools) && IndexMatches(c, s)
    ensures LookUpRight(c, s, ip, port)
  {
    EntriesSeparated(c, s);
    IndexDisjoint(c, s);
    forall sid | InIndex(s, sid) && HoldsPort(c, s, sid, ip, port)
      ensures LookUp(s.rev, ip, port).Some? && LookUp(s.rev, ip, port).value.mapping == TableMapping(s.pools, c[sid])
    {
      HolderIsFound(c, s, sid, ip, port);
    }
    if LookUp(s.rev, ip, port).Some? {
      FoundIsHolder(c, s, ip, port);
    }
  }

  // ---------------------------------------------------------------- one session at a time

  /** The step touches the tables only where no other session claims. */
  ghost predicate Framed(c: Sessions, s: State, s': State, sid: string) {
    OneSessionChanged(c, s, s', sid) && (s'.pools == s.pools || Alone(c, s, sid))
  }

  lemma OtherKept(c: Sessions, s: State, s': State, sid: string, x: string)
    requires Framed(c, s, s', sid) && x != sid
    ensures InIndex(s', x) <==> InIndex(s, x)
    ensures Claims(s, x) ==> forall m :: Entry(c, s'.pools, x, m) <==> Entry(c, s.pools, x, m)
    ensures OwnCarried(c, s, x) ==> OwnCarried(c, s', x)
  {
    OtherPhasesKept(c, s, s', sid, x);
    OwedClaims(s, x);
    assert forall tid :: Releasing(s, x, tid) || Releasing(s', x, tid) ==> s'.rel[tid] == s.rel[tid];
    if Claims(s, x) && x in c && !SameSlot(c, sid, x) {
      OtherSlotKept(c, s.pools, s'.pools, sid, x);
    }
  }

  lemma CarriedKept(c: Sessions, s: State, s': State, sid: string)
    requires CarriedOk(c, s) && Framed(c, s, s', sid) && OwnCarried(c, s', sid)
    ensures CarriedOk(c, s')
  {
    forall x
      ensures OwnCarried(c, s', x)
    {
      if x != sid {
        OtherKept(c, s, s', sid, x);
      }
    }
  }

  lemma EntryOf(c: Sessions, s: State, sid: string) returns (m: Mapping)
    requires IndexMatches(c, s) && sid in c && InIndex(s, sid)
    ensures Entry(c, s.pools, sid, m) && Has(s.rev, m)
  {
    m := TableMapping(s.pools, c[sid]);
  }

  /** A restatement of IndexMatches by entries. */
  lemma IndexMatchesByEntry(c: Sessions, s: State)
    requires Coherent(s.rev)
    requires forall sid :: sid in c && InIndex(s, sid) ==> exists m :: Entry(c, s.pools, sid, m) && Has(s.rev, m)
    requires forall x :: Indexed(s.rev, x) ==> exists sid :: InIndex(s, sid) && Entry(c, s.pools, sid, x.mapping)
    ensures IndexMatches(c, s)
  {
  }

  lemma IndexKept(c: Sessions, s: State, s': State, sid: string)
    requires IndexMatches(c, s) && Framed(c, s, s', sid) && s'.rev == s.rev
    requires InIndex(s', sid) <==> InIndex(s, sid)
    requires InIndex(s, sid) ==> s'.pools == s.pools
    ensures IndexMatches(c, s')
  {
    forall x | x in c && InIndex(s', x)
      ensures exists m :: Entry(c, s'.pools, x, m) && Has(s'.rev, m)
    {
      if x != sid {
        OtherKept(c, s, s', sid, x);
      }
      var m := EntryOf(c, s, x);
      assert Entry(c, s'.pools, x, m);
    }
    forall r | Indexed(s'.rev, r)
      ensures exists x :: InIndex(s', x) && Entry(c, s'.pools, x, r.mapping)
    {
      var x := SessionOf(c, s, r);
      if x != sid {
        OtherKept(c, s, s', sid, x);
      }
      assert InIndex(s', x) && Entry(c, s'.pools, x, r.mapping);
    }
    IndexMatchesByEntry(c, s');
  }

  /** A step that leaves the index and what the session carries right. */
  lemma BothKept(c: Sessions, s: State, s': State, sid: string)
    requires CarriedOk(c, s) && IndexMatches(c, s) && Framed(c, s, s', sid) && OwnCarried(c, s', sid) && s'.rev == s.rev
    requires InIndex(s', sid) <==> InIndex(s, sid)
    requires InIndex(s, sid) ==> s'.pools == s.pools
    ensures CarriedOk(c, s') && IndexMatches(c, s')
  {
    IndexKept(c, s, s', sid);
    CarriedKept(c, s, s', sid);
  }

  lemma NewKey(c: Sessions, s: State, sid: string, m: Mapping)
    requires Separated(c, s) && IndexMatches(c, s) && Claims(s, sid) && Entry(c, s.pools, sid, m) && !InIndex(s, sid)
    ensures MappingKey(m) !in s.rev.byBlock
  {
    if MappingKey(m) in s.rev.byBlock {
      var x := SessionOf(c, s, s.rev.byBlock[MappingKey(m)]);
      assert Claims(s, x);
    }
  }

  lemma IndexAdded(c: Sessions, s: State, s': State, sid: string, m: Mapping)
    requires Separated(c, s) && IndexMatches(c, s) && Framed(c, s, s', sid) && Claims(s, sid)
    requires Entry(c, s.pools, sid, m) && s'.pools == s.pools && s'.rev == AddRef(s.rev, Ref(s.nextId, m))
    requires !InIndex(s, sid) && InIndex(s', sid)
    ensures IndexMatches(c, s')
  {
    var r := Ref(s.nextId, m);
    NewKey(c, s, sid, m);
    AddNew(s.rev, r);
    AddIndexes(s.rev, r);
    forall x | x in c && InIndex(s', x)
      ensures exists n :: Entry(c, s'.pools, x, n) && Has(s'.rev, n)
    {
      if x == sid {
        assert Entry(c, s'.pools, x, m) && Has(s'.rev, m);
      } else {
        OtherKept(c, s, s', sid, x);
        var n := EntryOf(c, s, x);
        assert Entry(c, s'.pools, x, n) && Has(s'.rev, n);
      }
    }
    forall y | Indexed(s'.rev, y)
      ensures exists x :: InIndex(s', x) && Entry(c, s'.pools, x, y.mapping)
    {
      if y == r {
        assert Entry(c, s'.pools, sid, y.mapping);
      } else {
        var x := SessionOf(c, s, y);
        assert x != sid;
        OtherKept(c, s, s', sid, x);
        assert InIndex(s', x) && Entry(c, s'.pools, x, y.mapping);
      }
    }
    IndexMatchesByEntry(c, s');
  }

  lemma IndexRemoved(c: Sessions, s: State, s': State, sid: string, m: Mapping)
    requires Separated(c, s) && IndexMatches(c, s) && Framed(c, s, s', sid)
    requires Entry(c, s.pools, sid, m) && s'.pools == s.pools && s'.rev == RemoveAt(s.rev, MappingKey(m))
    requires InIndex(s, sid) && !InIndex(s', sid)
    ensures IndexMatches(c, s')
  {
    RemoveCoherent(s.rev, MappingKey(m));
    forall x | x in c && InIndex(s', x)
      ensures exists n :: Entry(c, s'.pools, x, n) && Has(s'.rev, n)
    {
      OtherKept(c, s, s', sid, x);
      var n := EntryOf(c, s, x);
      assert DifferentBlocks(c, s.pools, x, sid);
      assert Entry(c, s'.pools, x, n) && Has(s'.rev, n);
    }
    forall y | Indexed(s'.rev, y)
      ensures exists x :: InIndex(s', x) && Entry(c, s'.pools, x, y.mapping)
    {
      var x := SessionOf(c, s, y);
      assert x != sid;
      OtherKept(c, s, s', sid, x);
      assert InIndex(s', x) && Entry(c, s'.pools, x, y.mapping);
    }
    IndexMatchesByEntry(c, s');
  }

  // ---------------------------------------------------------------- the activation's steps

  lemma EntryOfSlot(c: Sessions, pools: map<string, Pool>, sid: string, m: Mapping)
    requires PoolsInv(pools) && Entry(c, pools, sid, m)
    ensures OfSlot(c, sid, m)
  {
  }

  /** Activate, GetBlock, Callback, RollBack: the session is neither committed nor released. */
  lemma QuietStep(c: Sessions, s: State, s': State, sid: string)
    requires CarriedOk(c, s) && IndexMatches(c, s) && Framed(c, s, s', sid) && s'.rev == s.rev && s'.rel == s.rel
    requires sid !in s.sessionPool && sid !in s'.sessionPool && NotReleasing(s, sid)
    requires !(sid in s'.act && s'.act[sid].Indexing?)
    ensures CarriedOk(c, s') && IndexMatches(c, s')
  {
    SameReleases(s, s', sid);
    BothKept(c, s, s', sid);
  }

  lemma CommitIndex(c: Sessions, s: State, s': State, sid: string)
    requires CarriedOk(c, s) && IndexMatches(c, s) && sid in s.act && s.act[sid].Committing?
    requires Entry(c, s.pools, sid, s.act[sid].m) && OfSlot(c, sid, s.act[sid].m) && NotReleasing(s, sid)
    requires sid !in s.sessionPool
    requires s' == s.(sessionPool := s.sessionPool[sid := c[sid].pool], act := s.act[sid := Indexing(s.act[sid].m)])
    ensures CarriedOk(c, s') && IndexMatches(c, s')
  {
    CommitShape(c, s, s', sid, Indexing(s.act[sid].m));
    SameReleases(s, s', sid);
    BothKept(c, s, s', sid);
  }

  lemma AddReverseIndex(c: Sessions, s: State, s': State, sid: string)
    requires CarriedOk(c, s) && IndexMatches(c, s) && Separated(c, s) && sid in c && sid in s.act
    requires s.act[sid].Indexing?
    requires sid in s.sessionPool && NotRemoved(s, sid)
    requires s' == s.(rev := AddRef(s.rev, Ref(s.nextId, s.act[sid].m)), nextId := s.nextId + 1,
                      act := s.act[sid := Finishing])
    ensures CarriedOk(c, s') && IndexMatches(c, s')
  {
    ActShape(c, s, s', sid, Finishing);
    SameReleases(s, s', sid);
    assert OwnCarried(c, s, sid) && Owed(s, sid) && Claims(s, sid);
    IndexAdded(c, s, s', sid, s.act[sid].m);
    CarriedKept(c, s, s', sid);
  }

  lemma DoneIndex(c: Sessions, s: State, s': State, sid: string)
    requires CarriedOk(c, s) && IndexMatches(c, s) && sid in c && sid in s.act && s.act[sid].Finishing?
    requires s' == s.(activations := s.activations - {sid}, act := s.act - {sid})
    ensures CarriedOk(c, s') && IndexMatches(c, s')
  {
    DoneShape(c, s, s', sid);
    SameReleases(s, s', sid);
    assert OwnCarried(c, s, sid);
    BothKept(c, s, s', sid);
  }

  // ---------------------------------------------------------------- the release's steps

  lemma ReleaseIndex(c: Sessions, s: State, s': State, sid: string, tid: nat)
    requires CarriedOk(c, s) && IndexMatches(c, s) && sid in c && sid in s.sessionPool && tid !in s.rel
    requires s' == s.(rel := s.rel[tid := Rel(sid, s.sessionPool[sid], Started)])
    ensures CarriedOk(c, s') && IndexMatches(c, s')
  {
    RelShape(c, s, s', tid, Rel(sid, s.sessionPool[sid], Started));
    ReleaseOwed(s, s', sid, tid, s.sessionPool[sid]);
    assert OwnCarried(c, s, sid);
    assert forall t :: Releasing(s, sid, t) ==> Releasing(s', sid, t) && s'.rel[t] == s.rel[t];
    BothKept(c, s, s', sid);
  }

  /** GetMappings, FreeBlocks, and the end of the removals: the index keeps what it had. */
  lemma ReleaseMoveIndex(c: Sessions, s: State, s': State, tid: nat)
    requires CarriedOk(c, s) && IndexMatches(c, s) && tid in s.rel && tid in s'.rel && !s.rel[tid].pc.Forgetting?
    requires Framed(c, s, s', s.rel[tid].sid)
    requires s' == s.(pools := s'.pools, rel := s.rel[tid := s.rel[tid].(pc := s'.rel[tid].pc)])
    requires BeforeRemove(s.rel[tid].pc) ==> s'.pools == s.pools
    requires BeforeRemove(s'.rel[tid].pc) ==> BeforeRemove(s.rel[tid].pc)
    requires InIndex(s, s.rel[tid].sid) ==> BeforeRemove(s'.rel[tid].pc)
    requires Owed(s', s.rel[tid].sid) ==> Owed(s, s.rel[tid].sid) && s'.pools == s.pools
    requires s'.rel[tid].pc.Removing? && s'.rel[tid].pc.ms != [] ==>
               |s'.rel[tid].pc.ms| == 1 && Carries(c, s', s.rel[tid].sid, s'.rel[tid].pc.ms[0])
    ensures CarriedOk(c, s') && IndexMatches(c, s')
  {
    ReleaseMoveOwn(c, s, s', tid);
    BothKept(c, s, s', s.rel[tid].sid);
  }

  lemma ReleaseMoveOwn(c: Sessions, s: State, s': State, tid: nat)
    requires CarriedOk(c, s) && tid in s.rel && tid in s'.rel && !s.rel[tid].pc.Forgetting?
    requires s' == s.(pools := s'.pools, rev := s'.rev, rel := s.rel[tid := s.rel[tid].(pc := s'.rel[tid].pc)])
    requires BeforeRemove(s'.rel[tid].pc) ==> BeforeRemove(s.rel[tid].pc)
    requires Owed(s', s.rel[tid].sid) ==> Owed(s, s.rel[tid].sid) && s'.pools == s.pools
    requires s'.rel[tid].pc.Removing? && s'.rel[tid].pc.ms != [] ==>
               |s'.rel[tid].pc.ms| == 1 && Carries(c, s', s.rel[tid].sid, s'.rel[tid].pc.ms[0])
    ensures OwnCarried(c, s', s.rel[tid].sid)
    ensures InIndex(s', s.rel[tid].sid) <==> InIndex(s, s.rel[tid].sid) && BeforeRemove(s'.rel[tid].pc)
    ensures InIndex(s, s.rel[tid].sid) ==> BeforeRemove(s.rel[tid].pc)
  {
    var sid := s.rel[tid].sid;
    MoveOwed(s, s', tid);
    assert OwnCarried(c, s, sid);
    assert Releasing(s, sid, tid) && Releasing(s', sid, tid);
    assert forall t :: t in s.rel && t != tid ==> s'.rel[t] == s.rel[t];
  }

  /** The release takes its own mapping out, or finds it gone. */
  lemma RemoveReverseIndex(c: Sessions, s: State, s': State, tid: nat, m: Mapping)
    requires CarriedOk(c, s) && IndexMatches(c, s) && Separated(c, s)
    requires tid in s.rel && s.rel[tid].sid in c && s.rel[tid].pc == Removing([m])
    requires MappingKey(m) in s.rev.byBlock ==> InIndex(s, s.rel[tid].sid)
    requires s' == s.(rev := RemoveAt(s.rev, MappingKey(m)), rel := s.rel[tid := s.rel[tid].(pc := Removing([]))])
    ensures CarriedOk(c, s') && IndexMatches(c, s')
  {
    var sid := s.rel[tid].sid;
    RelShape(c, s, s', tid, s'.rel[tid]);
    assert OwnCarried(c, s, sid) && Releasing(s, sid, tid);
    MoveOwed(s, s', tid);
    ReleaseMoveOwn(c, s, s', tid);
    CarriedKept(c, s, s', sid);
    if MappingKey(m) in s.rev.byBlock {
      IndexedIsOwed(s, sid);
      IndexRemoved(c, s, s', sid, m);
    } else {
      GoneNotIndexed(c, s, sid, m);
      IndexKept(c, s, s', sid);
    }
  }

  lemma IndexedIsOwed(s: State, sid: string)
    requires InIndex(s, sid)
    ensures Owed(s, sid)
  {
  }

  lemma GoneNotIndexed(c: Sessions, s: State, sid: string, m: Mapping)
    requires IndexMatches(c, s) && Carries(c, s, sid, m) && MappingKey(m) !in s.rev.byBlock
    ensures !InIndex(s, sid)
  {
    if InIndex(s, sid) {
      IndexedIsOwed(s, sid);
    }
  }

  lemma ForgetIndex(c: Sessions, s: State, s': State, tid: nat)
    requires CarriedOk(c, s) && IndexMatches(c, s) && tid in s.rel && s.rel[tid].sid in c && s.rel[tid].pc.Forgetting?
    requires !InFlight(s, s.rel[tid].sid)
    requires s' == s.(sessionPool := s.sessionPool - {s.rel[tid].sid}, rel := s.rel - {tid})
    ensures CarriedOk(c, s') && IndexMatches(c, s')
  {
    var sid := s.rel[tid].sid;
    ForgetShape(c, s, s', tid);
    ForgetOwn(s, s', tid);
    assert OwnCarried(c, s, sid) && Releasing(s, sid, tid);
    assert !InIndex(s, sid) && !Owed(s', sid);
    BothKept(c, s, s', sid);
  }

  // ---------------------------------------------------------------- the guard of the two index steps

  /** An Add finds the session committed and no Remove of its releases done; a Remove finds the
      releasing session's own entry, or none. */
  ghost predicate SoundIndexStep(c: Sessions, s: State, e: Event) {
    && (e.AddReverse? && e.sid in s.act && s.act[e.sid].Indexing? ==> e.sid in s.sessionPool && NotRemoved(s, e.sid))
    && (e.RemoveReverse? && e.tid in s.rel && s.rel[e.tid].pc.Removing? && s.rel[e.tid].pc.ms != [] ==>
          OwnOrGone(c, s.rev, s.rel[e.tid].sid, s.rel[e.tid].pc.ms[0]))
  }

  predicate OwnOrGone(c: Sessions, rev: Index, sid: string, m: Mapping) {
    MappingKey(m) in rev.byBlock ==> OfSlot(c, sid, rev.byBlock[MappingKey(m)].mapping)
  }

  /** The entry at the key is the session's own exactly when the session is in the index. */
  lemma OwnMeansIndexed(c: Sessions, s: State, sid: string, m: Mapping)
    requires PoolsInv(s.pools) && IndexMatches(c, s) && sid in c && Alone(c, s, sid)
    requires MappingKey(m) in s.rev.byBlock && OfSlot(c, sid, s.rev.byBlock[MappingKey(m)].mapping)
    ensures InIndex(s, sid)
  {
    var r := s.rev.byBlock[MappingKey(m)];
    var z := SessionOf(c, s, r);
    EntryOfSlot(c, s.pools, z, r.mapping);
    assert SameSlot(c, sid, z) && Claims(s, z);
  }
}
