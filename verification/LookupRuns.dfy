/** The reverse index over whole runs: exactly which index steps keep it right, and what Lookup
    answers. */
module LookupRuns {
  import opened PoolModel
  import opened ReverseIndex
  import opened Activation
  import opened ActivationSafety
  import opened ActivationRuns
  import opened ActivationLookup
  import opened ActivationLeads

  // ---------------------------------------------------------------- every step

  lemma PoolStepIndex(c: Sessions, s: State, sid: string, e: Event)
    requires SafeState(c, s) && CarriedOk(c, s) && IndexMatches(c, s)
    requires || (e == GetBlock(sid) && sid in s.act && s.act[sid].Begun?)
             || (e == RollBack(sid) && sid in s.act && s.act[sid].Failed?)
    ensures CarriedOk(c, Next(c, s, e)) && IndexMatches(c, Next(c, s, e))
  {
    assert SessionOk(c, s, sid) && Claims(s, sid);
    if e.GetBlock? {
      GetBlockEffect(c, s, sid);
    } else {
      RollBackEffect(c, s, sid);
    }
    MoveShape(c, s, Next(c, s, e), sid);
    QuietStep(c, s, Next(c, s, e), sid);
  }

  /** The activation's steps other than the Add. */
  lemma ActIndex(c: Sessions, s: State, e: Event)
    requires SafeState(c, s) && CarriedOk(c, s) && IndexMatches(c, s) && SoundActivate(c, s, e)
    requires e.Activate? || e.GetBlock? || e.Callback? || e.RollBack? || e.Commit? || e.Done?
    ensures CarriedOk(c, Next(c, s, e)) && IndexMatches(c, Next(c, s, e))
  {
    var s', sid := Next(c, s, e), e.sid;
    if s' != s {
      assert SessionOk(c, s, sid);
      match e
      case Activate(_) =>
        ActivateShape(c, s, s', sid);
        QuietStep(c, s, s', sid);
      case Callback(_, ok) =>
        ActShape(c, s, s', sid, s'.act[sid]);
        QuietStep(c, s, s', sid);
      case Commit(_) =>
        EntryOfSlot(c, s.pools, sid, s.act[sid].m);
        CommitIndex(c, s, s', sid);
      case Done(_) =>
        DoneIndex(c, s, s', sid);
      case _ =>
        PoolStepIndex(c, s, sid, e);
    }
  }

  lemma GetMappingsIndex(c: Sessions, s: State, tid: nat)
    requires SafeState(c, s) && CarriedOk(c, s) && IndexMatches(c, s) && tid in s.rel && s.rel[tid].pc.Started?
    ensures CarriedOk(c, Next(c, s, GetMappings(tid))) && IndexMatches(c, Next(c, s, GetMappings(tid)))
  {
    var s', sid := Next(c, s, GetMappings(tid)), s.rel[tid].sid;
    assert RelOk(c, s, tid) && SessionOk(c, s, sid) && Releasing(s, sid, tid);
    assert Claims(s, sid);
    SlotIs(c, s, sid);
    GetMappingsIs(c, s, tid);
    RelShape(c, s, s', tid, s'.rel[tid]);
    MoveOwed(s, s', tid);
    if OneBlock(s.pools, c[sid]) {
      EntryOfSlot(c, s.pools, sid, TableMapping(s.pools, c[sid]));
    } else if InIndex(s, sid) {
      IndexedIsOwed(s, sid);
    }
    ReleaseMoveIndex(c, s, s', tid);
  }

  lemma FreeBlocksIndex(c: Sessions, s: State, tid: nat)
    requires SafeState(c, s) && CarriedOk(c, s) && IndexMatches(c, s) && tid in s.rel && s.rel[tid].pc.Freeing?
    ensures CarriedOk(c, Next(c, s, Event.FreeBlocks(tid))) && IndexMatches(c, Next(c, s, Event.FreeBlocks(tid)))
  {
    var s', sid := Next(c, s, Event.FreeBlocks(tid)), s.rel[tid].sid;
    assert RelOk(c, s, tid) && SessionOk(c, s, sid) && Releasing(s, sid, tid);
    assert Claims(s, sid);
    FreeBlocksEffect(c, s, tid);
    FreeShape(c, s, s', tid);
    MoveOwed(s, s', tid);
    NotYetIndexed(s, sid, tid);
    ReleaseMoveIndex(c, s, s', tid);
  }

  lemma NotYetIndexed(s: State, sid: string, tid: nat)
    requires Releasing(s, sid, tid) && !BeforeRemove(s.rel[tid].pc)
    ensures !InIndex(s, sid)
  {
  }

  /** The release's steps other than the Remove of a mapping. */
  lemma RelIndex(c: Sessions, s: State, e: Event)
    requires SafeState(c, s) && CarriedOk(c, s) && IndexMatches(c, s)
    requires e.Release? || e.GetMappings? || e.FreeBlocks? || e.Forget?
    ensures CarriedOk(c, Next(c, s, e)) && IndexMatches(c, Next(c, s, e))
  {
    var s' := Next(c, s, e);
    if s' != s {
      match e
      case Release(sid, tid) =>
        ReleaseIndex(c, s, s', sid, tid);
      case GetMappings(tid) =>
        GetMappingsIndex(c, s, tid);
      case FreeBlocks(tid) =>
        FreeBlocksIndex(c, s, tid);
      case Forget(tid) =>
        assert RelOk(c, s, tid) && SessionOk(c, s, s.rel[tid].sid) && Releasing(s, s.rel[tid].sid, tid);
        ForgetIndex(c, s, s', tid);
    }
  }

  lemma AddNext(c: Sessions, s: State, sid: string)
    requires ValidPools(s.pools) && sid in s.act && s.act[sid].Indexing?
    ensures Next(c, s, AddReverse(sid))
         == s.(rev := AddRef(s.rev, Ref(s.nextId, s.act[sid].m)), nextId := s.nextId + 1,
               act := s.act[sid := Finishing])
  {
  }

  lemma RemoveNext(c: Sessions, s: State, tid: nat)
    requires ValidPools(s.pools) && tid in s.rel && s.rel[tid].pc.Removing?
    ensures var s' := Next(c, s, RemoveReverse(tid)); var ms := s.rel[tid].pc.ms;
            if ms == [] then s' == s.(rel := s.rel[tid := s.rel[tid].(pc := Freeing)])
            else s' == s.(rev := RemoveAt(s.rev, MappingKey(ms[0])),
                          rel := s.rel[tid := s.rel[tid].(pc := Removing(ms[1..]))])
  {
  }

  lemma AddIndex(c: Sessions, s: State, sid: string)
    requires FullState(c, s) && sid in s.act && s.act[sid].Indexing? && SoundIndexStep(c, s, AddReverse(sid))
    ensures CarriedOk(c, Next(c, s, AddReverse(sid))) && IndexMatches(c, Next(c, s, AddReverse(sid)))
  {
    EntriesSeparated(c, s);
    AddNext(c, s, sid);
    AddReverseIndex(c, s, Next(c, s, AddReverse(sid)), sid);
  }

  lemma RemovalsDone(c: Sessions, s: State, tid: nat)
    requires FullState(c, s) && tid in s.rel && s.rel[tid].pc == Removing([])
    ensures CarriedOk(c, Next(c, s, RemoveReverse(tid))) && IndexMatches(c, Next(c, s, RemoveReverse(tid)))
  {
    var s', sid := Next(c, s, RemoveReverse(tid)), s.rel[tid].sid;
    assert RelOk(c, s, tid) && Releasing(s, sid, tid);
    RemoveNext(c, s, tid);
    RelShape(c, s, s', tid, s'.rel[tid]);
    MoveOwed(s, s', tid);
    NotYetIndexed(s, sid, tid);
    ReleaseMoveIndex(c, s, s', tid);
  }

  lemma RemoveIndex(c: Sessions, s: State, tid: nat)
    requires FullState(c, s) && tid in s.rel && s.rel[tid].pc.Removing? && s.rel[tid].pc.ms != []
    requires SoundIndexStep(c, s, RemoveReverse(tid))
    ensures CarriedOk(c, Next(c, s, RemoveReverse(tid))) && IndexMatches(c, Next(c, s, RemoveReverse(tid)))
  {
    var sid, ms := s.rel[tid].sid, s.rel[tid].pc.ms;
    assert RelOk(c, s, tid) && SessionOk(c, s, sid) && Releasing(s, sid, tid) && OwnCarried(c, s, sid);
    assert Claims(s, sid);
    if MappingKey(ms[0]) in s.rev.byBlock {
      OwnMeansIndexed(c, s, sid, ms[0]);
    }
    EntriesSeparated(c, s);
    RemoveNext(c, s, tid);
    assert ms == [ms[0]] && ms[1..] == [];
    RemoveReverseIndex(c, s, Next(c, s, RemoveReverse(tid)), tid, ms[0]);
  }

  /** Every sound step keeps the index right. */
  lemma NextIndex(c: Sessions, s: State, e: Event)
    requires FullState(c, s) && SoundActivate(c, s, e) && SoundIndexStep(c, s, e)
    ensures CarriedOk(c, Next(c, s, e)) && IndexMatches(c, Next(c, s, e))
  {
    if e.AddReverse? {
      if e.sid in s.act && s.act[e.sid].Indexing? {
        AddIndex(c, s, e.sid);
      }
    } else if e.RemoveReverse? {
      if e.tid in s.rel && s.rel[e.tid].pc.Removing? {
        if s.rel[e.tid].pc.ms == [] {
          RemovalsDone(c, s, e.tid);
        } else {
          RemoveIndex(c, s, e.tid);
        }
      }
    } else if e.Release? || e.GetMappings? || e.FreeBlocks? || e.Forget? {
      RelIndex(c, s, e);
    } else {
      ActIndex(c, s, e);
    }
  }

  // ---------------------------------------------------------------- and only a sound one

  /** An Add after the session's mapping was taken out leaves the index wrong. */
  lemma LateAddBreaks(c: Sessions, s: State, sid: string)
    requires ValidPools(s.pools) && IndexMatches(c, s)
    requires sid in s.act && s.act[sid].Indexing? && !(sid in s.sessionPool && NotRemoved(s, sid))
    ensures !IndexMatches(c, Next(c, s, AddReverse(sid)))
  {
    var s', r := Next(c, s, AddReverse(sid)), Ref(s.nextId, s.act[sid].m);
    AddNext(c, s, sid);
    if IndexMatches(c, s') {
      AddIndexes(s.rev, r);
      var z := SessionOf(c, s', r);
      SameReleases(s, s', z);
      assert z != sid;
      assert InIndex(s, z) && Has(s.rev, TableMapping(s.pools, c[z]));
      AddCoherentIff(s.rev, r);
    }
  }

  /** A Remove that meets another slot's entry takes it out of the index. */
  lemma StrayRemoveBreaks(c: Sessions, s: State, tid: nat)
    requires FullState(c, s) && tid in s.rel && s.rel[tid].pc.Removing? && s.rel[tid].pc.ms != []
    requires !OwnOrGone(c, s.rev, s.rel[tid].sid, s.rel[tid].pc.ms[0])
    ensures !IndexMatches(c, Next(c, s, RemoveReverse(tid)))
  {
    var s', m, sid := Next(c, s, RemoveReverse(tid)), s.rel[tid].pc.ms[0], s.rel[tid].sid;
    var r := s.rev.byBlock[MappingKey(m)];
    assert RelOk(c, s, tid);
    RemoveNext(c, s, tid);
    var z := SessionOf(c, s, r);
    EntryOfSlot(c, s.pools, z, r.mapping);
    RelShape(c, s, s', tid, s'.rel[tid]);
    OtherKept(c, s, s', sid, z);
    assert InIndex(s', z) && TableMapping(s'.pools, c[z]) == r.mapping;
    assert KeyOf(r) == MappingKey(m);
  }

  /** After an Add or a Remove the index is right exactly when the step was sound. */
  lemma IndexStepIff(c: Sessions, s: State, e: Event)
    requires FullState(c, s) && SoundActivate(c, s, e)
    ensures IndexMatches(c, Next(c, s, e)) <==> SoundIndexStep(c, s, e)
  {
    if SoundIndexStep(c, s, e) {
      NextIndex(c, s, e);
    } else if e.AddReverse? {
      LateAddBreaks(c, s, e.sid);
    } else {
      StrayRemoveBreaks(c, s, e.tid);
    }
  }

  /** From every state in which a session's Add is due and its block still held: a release that runs
      before the Add leaves Lookup answering for ports nobody holds. */
  lemma ReleaseBeforeAddLeavesStale(c: Sessions, s: State, sid: string, tid: nat, port: nat)
    requires FullState(c, s) && sid in s.act && s.act[sid].Indexing? && Owed(s, sid) && tid !in s.rel
    requires s.act[sid].m.outside.start <= port <= s.act[sid].m.outside.end
    ensures var s' := Next(c, ReleaseAlone(c, s, sid, tid), AddReverse(sid)); var ip := s.act[sid].m.outside.ip;
      LookUp(s'.rev, ip, port).Some? && forall x :: !HoldsPort(c, s', x, ip, port)
  {
    assert SessionOk(c, s, sid) && OwnCarried(c, s, sid);
    StaleSteps(c, s, sid, tid, port);
    ReleaseChanges(s.pools, c[sid]);
    NobodyHolds(c, s, Next(c, ReleaseAlone(c, s, sid, tid), AddReverse(sid)), sid, port);
  }

  lemma NobodyHolds(c: Sessions, s: State, t: State, sid: string, port: nat)
    requires PoolsInv(s.pools) && PoolsApart(s.pools) && sid in c && OneBlock(s.pools, c[sid])
    requires OneKeyChanged(s.pools, t.pools, c[sid]) && !InTable(t.pools, c[sid])
    requires var b := TableMapping(s.pools, c[sid]).outside; b.start <= port <= b.end
    ensures forall x :: !HoldsPort(c, t, x, TableMapping(s.pools, c[sid]).outside.ip, port)
  {
    forall x
      ensures !HoldsPort(c, t, x, TableMapping(s.pools, c[sid]).outside.ip, port)
    {
      NobodyElse(c, s, t, sid, x, port);
    }
  }

  lemma StaleSteps(c: Sessions, s: State, sid: string, tid: nat, port: nat)
    requires ValidPools(s.pools) && sid in c && sid in s.act && s.act[sid].Indexing? && tid !in s.rel
    requires sid in s.sessionPool && s.sessionPool[sid] == c[sid].pool && OneBlock(s.pools, c[sid])
    requires s.act[sid].m.outside.start <= port <= s.act[sid].m.outside.end
    ensures var s' := Next(c, ReleaseAlone(c, s, sid, tid), AddReverse(sid));
      && s'.pools == s.pools[c[sid].pool := PoolModel.Release(s.pools[c[sid].pool], c[sid].key)]
      && LookUp(s'.rev, s.act[sid].m.outside.ip, port).Some?
  {
    ReleaseAloneSteps(c, s, sid, tid);
    var t := ReleaseAlone(c, s, sid, tid);
    AddNext(c, t, sid);
    AddedIsFound(t.rev, Ref(t.nextId, s.act[sid].m), port);
  }

  lemma AddedIsFound(ix: Index, r: Ref, port: nat)
    requires Covers(r, port)
    ensures LookUp(AddRef(ix, r), IPOf(r), port).Some?
  {
  }

  /** The port of a freed block is nobody's. */
  lemma NobodyElse(c: Sessions, s: State, t: State, sid: string, x: string, port: nat)
    requires PoolsInv(s.pools) && PoolsApart(s.pools) && sid in c && OneBlock(s.pools, c[sid])
    requires OneKeyChanged(s.pools, t.pools, c[sid]) && !InTable(t.pools, c[sid])
    requires var b := TableMapping(s.pools, c[sid]).outside; b.start <= port <= b.end
    ensures !HoldsPort(c, t, x, TableMapping(s.pools, c[sid]).outside.ip, port)
  {
    if x in c && OneBlock(t.pools, c[x]) {
      OtherSlotKept(c, s.pools, t.pools, sid, x);
      EntriesApart(c, s.pools, sid, x);
    }
  }

  // ---------------------------------------------------------------- every run

  lemma ApartKept(pools: map<string, Pool>, pools': map<string, Pool>)
    requires PoolsApart(pools) && SameAddresses(pools, pools')
    ensures PoolsApart(pools')
  {
  }

  lemma NextFull(c: Sessions, s: State, e: Event)
    requires FullState(c, s) && SoundActivate(c, s, e) && SoundIndexStep(c, s, e)
    ensures FullState(c, Next(c, s, e))
  {
    NextSafe(c, s, e);
    NextAddresses(c, s, e);
    ApartKept(s.pools, Next(c, s, e).pools);
    NextIndex(c, s, e);
  }

  ghost predicate SoundIndexAt(c: Sessions, s: State, es: seq<Event>, i: nat)
    requires ValidPools(s.pools) && i < |es|
  {
    SoundIndexStep(c, Activation.Run(c, s, es[..i]), es[i])
  }

  /** Every Add and every Remove of the run is sound. */
  ghost predicate SoundIndexRun(c: Sessions, s: State, es: seq<Event>)
    requires ValidPools(s.pools)
  {
    forall i :: 0 <= i < |es| ==> SoundIndexAt(c, s, es, i)
  }

  lemma SoundIndexFront(c: Sessions, s: State, es: seq<Event>)
    requires ValidPools(s.pools) && es != []
    ensures SoundIndexRun(c, s, es) <==>
      SoundIndexRun(c, s, es[..|es| - 1]) && SoundIndexStep(c, Activation.Run(c, s, es[..|es| - 1]), es[|es| - 1])
  {
    var front := es[..|es| - 1];
    forall i | 0 <= i < |front|
      ensures SoundIndexAt(c, s, front, i) <==> SoundIndexAt(c, s, es, i)
    {
      assert front[..i] == es[..i];
    }
    assert SoundIndexAt(c, s, es, |front|) <==> SoundIndexStep(c, Activation.Run(c, s, front), es[|front|]);
  }

  /** Over every such run the index and the tables agree. */
  lemma {:induction false} RunFull(c: Sessions, s: State, es: seq<Event>)
    requires FullState(c, s) && SoundRun(c, s, es) && SoundIndexRun(c, s, es)
    ensures FullState(c, Activation.Run(c, s, es))
  {
    if es != [] {
      SoundFront(c, s, es);
      SoundIndexFront(c, s, es);
      RunFull(c, s, es[..|es| - 1]);
      NextFull(c, Activation.Run(c, s, es[..|es| - 1]), es[|es| - 1]);
    }
  }

  /** The index agrees with the tables after every event of the run. */
  ghost predicate AlwaysMatches(c: Sessions, s: State, es: seq<Event>)
    requires ValidPools(s.pools)
  {
    forall i :: 0 <= i <= |es| ==> IndexMatches(c, Activation.Run(c, s, es[..i]))
  }

  /** The index is right all along a run exactly when the run's index steps are sound. */
  lemma {:induction false} AlwaysMatchesIff(c: Sessions, s: State, es: seq<Event>)
    requires FullState(c, s) && SoundRun(c, s, es)
    ensures AlwaysMatches(c, s, es) <==> SoundIndexRun(c, s, es)
  {
    if es == [] {
      assert es[..0] == [];
    } else {
      var front := es[..|es| - 1];
      SoundFront(c, s, es);
      SoundIndexFront(c, s, es);
      MatchesFront(c, s, es);
      AlwaysMatchesIff(c, s, front);
      if SoundIndexRun(c, s, front) {
        RunFull(c, s, front);
        IndexStepIff(c, Activation.Run(c, s, front), es[|es| - 1]);
      }
    }
  }

  lemma MatchesFront(c: Sessions, s: State, es: seq<Event>)
    requires ValidPools(s.pools) && es != []
    ensures AlwaysMatches(c, s, es) <==>
              AlwaysMatches(c, s, es[..|es| - 1]) && IndexMatches(c, Activation.Run(c, s, es))
  {
    var front := es[..|es| - 1];
    assert es[..|es|] == es;
    forall i | 0 <= i <= |front|
      ensures front[..i] == es[..i]
    {
    }
    if AlwaysMatches(c, s, front) && IndexMatches(c, Activation.Run(c, s, es)) {
      forall i | 0 <= i <= |es|
        ensures IndexMatches(c, Activation.Run(c, s, es[..i]))
      {
        if i < |es| {
          assert IndexMatches(c, Activation.Run(c, s, front[..i]));
        }
      }
    }
    if AlwaysMatches(c, s, es) {
      assert IndexMatches(c, Activation.Run(c, s, es[..|es|]));
      forall i | 0 <= i <= |front|
        ensures IndexMatches(c, Activation.Run(c, s, front[..i]))
      {
        assert IndexMatches(c, Activation.Run(c, s, es[..i]));
      }
    }
  }

  lemma InitialFull(c: Sessions, s: State)
    requires Initial(s) && PoolsApart(s.pools)
    ensures FullState(c, s)
  {
    InitialSafe(c, s);
    assert forall sid :: !InIndex(s, sid) && OwnCarried(c, s, sid);
  }

  /** From the start, over every such run, Lookup names the holder of the port or nobody. */
  lemma LookUpOverRuns(c: Sessions, s: State, es: seq<Event>, ip: IPv4, port: nat)
    requires Initial(s) && PoolsApart(s.pools) && SoundRun(c, s, es) && SoundIndexRun(c, s, es)
    ensures LookUpRight(c, Activation.Run(c, s, es), ip, port)
  {
    InitialFull(c, s);
    RunFull(c, s, es);
    LookUpNamesHolder(c, Activation.Run(c, s, es), ip, port);
  }

  /** With no handler running, Lookup is exact about the committed sessions. */
  lemma LookUpAtRest(c: Sessions, s: State, es: seq<Event>, ip: IPv4, port: nat)
    requires Initial(s) && PoolsApart(s.pools) && SoundRun(c, s, es) && SoundIndexRun(c, s, es)
    requires Activation.Run(c, s, es).act == map[] && Activation.Run(c, s, es).rel == map[]
    ensures var t := Activation.Run(c, s, es);
      && (forall sid :: sid in t.sessionPool && HoldsPort(c, t, sid, ip, port) ==>
            LookUp(t.rev, ip, port).Some? && LookUp(t.rev, ip, port).value.mapping == TableMapping(t.pools, c[sid]))
      && (LookUp(t.rev, ip, port).Some? ==> exists sid :: sid in t.sessionPool && HoldsPort(c, t, sid, ip, port))
  {
    var t := Activation.Run(c, s, es);
    LookUpOverRuns(c, s, es, ip, port);
    assert forall sid :: InIndex(t, sid) <==> sid in t.sessionPool;
  }

  // ---------------------------------------------------------------- a condition on releases alone

  /** A release that takes effect finds no other release of the session, and its Add done. */
  ghost predicate QuietRelease(s: State, e: Event) {
    e.Release? && e.sid in s.sessionPool ==> NotReleasing(s, e.sid) && !(e.sid in s.act && s.act[e.sid].Indexing?)
  }

  ghost predicate QuietRun(c: Sessions, s: State, es: seq<Event>)
    requires ValidPools(s.pools)
  {
    forall i :: 0 <= i < |es| ==> QuietRelease(Activation.Run(c, s, es[..i]), es[i])
  }

  /** One release of a session at a time, and none while its Add is due. */
  ghost predicate QuietFor(s: State, sid: string) {
    && (sid in s.act && s.act[sid].Indexing? ==> sid in s.sessionPool && NotReleasing(s, sid))
    && (forall tid :: Releasing(s, sid, tid) ==> sid in s.sessionPool && forall t :: Releasing(s, sid, t) ==> t == tid)
  }

  lemma QuietIsSound(c: Sessions, s: State, e: Event)
    requires FullState(c, s) && forall sid :: QuietFor(s, sid)
    ensures SoundIndexStep(c, s, e)
  {
    if e.AddReverse? {
      assert QuietFor(s, e.sid);
    } else if e.RemoveReverse? && e.tid in s.rel && s.rel[e.tid].pc.Removing? && s.rel[e.tid].pc.ms != [] {
      var sid, m := s.rel[e.tid].sid, s.rel[e.tid].pc.ms[0];
      assert RelOk(c, s, e.tid) && Releasing(s, sid, e.tid) && QuietFor(s, sid) && OwnCarried(c, s, sid);
      assert InIndex(s, sid);
      IndexedIsOwed(s, sid);
    }
  }

  /** The steps that neither start nor end a release nor commit leave these facts alone. */
  lemma QuietUntouched(c: Sessions, s: State, e: Event, sid: string)
    requires ValidPools(s.pools) && !e.Release? && !e.Forget? && !e.Commit?
    ensures var s' := Next(c, s, e);
      && s'.sessionPool == s.sessionPool && s'.rel.Keys == s.rel.Keys
      && (forall t :: t in s.rel ==> s'.rel[t].sid == s.rel[t].sid)
      && (sid in s'.act && s'.act[sid].Indexing? ==> sid in s.act && s.act[sid].Indexing?)
  {
    if e.GetMappings? || e.RemoveReverse? || e.FreeBlocks? {
      ReleaseUntouched(c, s, e);
    } else {
      ActivationUntouched(c, s, e);
      assert Next(c, s, e).rel == s.rel;
    }
  }

  lemma ReleaseUntouched(c: Sessions, s: State, e: Event)
    requires ValidPools(s.pools) && (e.GetMappings? || e.RemoveReverse? || e.FreeBlocks?)
    ensures var s' := Next(c, s, e);
      && s'.act == s.act && s'.sessionPool == s.sessionPool && s'.rel.Keys == s.rel.Keys
      && forall t :: t in s.rel ==> s'.rel[t].sid == s.rel[t].sid
  {
  }

  lemma ActivationUntouched(c: Sessions, s: State, e: Event)
    requires ValidPools(s.pools)
    requires e.Activate? || e.GetBlock? || e.Callback? || e.RollBack? || e.AddReverse? || e.Done?
    ensures var s' := Next(c, s, e);
      && s'.sessionPool == s.sessionPool && s'.rel == s.rel
      && forall x :: x in s'.act && s'.act[x].Indexing? ==> x in s.act && s.act[x].Indexing?
  {
    match e
    case Activate(_) =>
    case GetBlock(_) =>
    case Callback(_, _) =>
    case RollBack(_) =>
    case AddReverse(_) =>
    case Done(_) =>
  }

  lemma QuietStays(c: Sessions, s: State, e: Event, sid: string)
    requires FullState(c, s) && QuietFor(s, sid) && QuietRelease(s, e)
    ensures QuietFor(Next(c, s, e), sid)
  {
    if e.Release? {
      QuietStart(c, s, e.sid, e.tid, sid);
    } else if e.Forget? {
      QuietForget(c, s, e.tid, sid);
    } else if e.Commit? {
      assert sid in c ==> SessionOk(c, s, sid);
      QuietCommit(c, s, e.sid, sid);
    } else {
      QuietUntouched(c, s, e, sid);
      SameReleasing(s, Next(c, s, e), sid);
    }
  }

  lemma SameReleasing(s: State, s': State, sid: string)
    requires QuietFor(s, sid) && s'.sessionPool == s.sessionPool && s'.rel.Keys == s.rel.Keys
    requires forall t :: t in s.rel ==> s'.rel[t].sid == s.rel[t].sid
    requires sid in s'.act && s'.act[sid].Indexing? ==> sid in s.act && s.act[sid].Indexing?
    ensures QuietFor(s', sid)
  {
    assert forall t :: Releasing(s', sid, t) <==> Releasing(s, sid, t);
  }

  lemma QuietStart(c: Sessions, s: State, x: string, tid: nat, sid: string)
    requires ValidPools(s.pools) && QuietFor(s, sid) && QuietRelease(s, Event.Release(x, tid))
    ensures QuietFor(Next(c, s, Event.Release(x, tid)), sid)
  {
    var s' := Next(c, s, Event.Release(x, tid));
    assert forall t :: Releasing(s', sid, t) <==> Releasing(s, sid, t) || (s' != s && t == tid && sid == x);
  }

  lemma QuietForget(c: Sessions, s: State, tid: nat, sid: string)
    requires ValidPools(s.pools) && QuietFor(s, sid)
    ensures QuietFor(Next(c, s, Forget(tid)), sid)
  {
    var s' := Next(c, s, Forget(tid));
    if s' != s {
      assert forall t :: Releasing(s', sid, t) <==> Releasing(s, sid, t) && t != tid;
      assert s.rel[tid].sid == sid ==> Releasing(s, sid, tid);
    }
  }

  lemma QuietCommit(c: Sessions, s: State, x: string, sid: string)
    requires ValidPools(s.pools) && QuietFor(s, sid) && (sid in c ==> ActOk(c, s, sid))
    ensures QuietFor(Next(c, s, Commit(x)), sid)
  {
    SameReleases(s, Next(c, s, Commit(x)), sid);
  }

  lemma {:induction false} QuietRunIsSound(c: Sessions, s: State, es: seq<Event>)
    requires FullState(c, s) && (forall sid :: QuietFor(s, sid)) && SoundRun(c, s, es) && QuietRun(c, s, es)
    ensures SoundIndexRun(c, s, es) && forall sid :: QuietFor(Activation.Run(c, s, es), sid)
  {
    if es != [] {
      var front := es[..|es| - 1];
      var t := Activation.Run(c, s, front);
      SoundFront(c, s, es);
      SoundIndexFront(c, s, es);
      QuietFront(c, s, es);
      QuietRunIsSound(c, s, front);
      RunFull(c, s, front);
      QuietIsSound(c, t, es[|es| - 1]);
      forall sid
        ensures QuietFor(Activation.Run(c, s, es), sid)
      {
        QuietStays(c, t, es[|es| - 1], sid);
      }
    }
  }

  lemma QuietFront(c: Sessions, s: State, es: seq<Event>)
    requires ValidPools(s.pools) && es != [] && QuietRun(c, s, es)
    ensures QuietRun(c, s, es[..|es| - 1]) && QuietRelease(Activation.Run(c, s, es[..|es| - 1]), es[|es| - 1])
  {
    var front := es[..|es| - 1];
    forall i | 0 <= i < |front|
      ensures QuietRelease(Activation.Run(c, s, front[..i]), front[i])
    {
      assert front[..i] == es[..i];
    }
  }

  /** So a run of quiet releases, with or without dataplane calls out, keeps Lookup right. */
  lemma QuietLookUp(c: Sessions, s: State, es: seq<Event>, ip: IPv4, port: nat)
    requires Initial(s) && PoolsApart(s.pools) && SoundRun(c, s, es) && QuietRun(c, s, es)
    ensures LookUpRight(c, Activation.Run(c, s, es), ip, port)
  {
    InitialFull(c, s);
    QuietRunIsSound(c, s, es);
    LookUpOverRuns(c, s, es, ip, port);
  }
}
