/** The activation protocol over whole runs: what holds under every schedule, exactly when an
    activation is safe, and what releases do. */
module ActivationRuns {
  import opened PoolModel
  import opened PoolInvariant
  import opened ReverseIndex
  import opened Activation
  import opened ActivationSafety

  // ---------------------------------------------------------------- every run

  /** Every activation of the run that takes effect is sound. */
  ghost predicate SoundRun(c: Sessions, s: State, es: seq<Event>)
    requires ValidPools(s.pools)
  {
    forall i :: 0 <= i < |es| ==> SoundActivate(c, Activation.Run(c, s, es[..i]), es[i])
  }

  lemma SoundFront(c: Sessions, s: State, es: seq<Event>)
    requires ValidPools(s.pools) && es != [] && SoundRun(c, s, es)
    ensures SoundRun(c, s, es[..|es| - 1])
    ensures SoundActivate(c, Activation.Run(c, s, es[..|es| - 1]), es[|es| - 1])
  {
    var front := es[..|es| - 1];
    forall i | 0 <= i < |front|
      ensures SoundActivate(c, Activation.Run(c, s, front[..i]), front[i])
    {
      assert front[..i] == es[..i];
    }
  }

  /** Every interleaving of activations, callbacks and releases keeps tables and sessions in step. */
  lemma {:induction false} RunSafe(c: Sessions, s: State, es: seq<Event>)
    requires SafeState(c, s) && SoundRun(c, s, es)
    ensures SafeState(c, Activation.Run(c, s, es))
  {
    if es != [] {
      SoundFront(c, s, es);
      RunSafe(c, s, es[..|es| - 1]);
      NextSafe(c, Activation.Run(c, s, es[..|es| - 1]), es[|es| - 1]);
    }
  }

  /** The component before any event: configured pools without subscribers. */
  ghost predicate Initial(s: State) {
    && PoolsInv(s.pools) && (forall n :: n in s.pools ==> s.pools[n].subs == map[])
    && s.rev == EMPTY && s.sessionPool == map[] && s.activations == {} && s.act == map[] && s.rel == map[]
  }

  lemma InitialSafe(c: Sessions, s: State)
    requires Initial(s)
    ensures SafeState(c, s)
  {
    forall sid | sid in c
      ensures SessionOk(c, s, sid)
    {
      assert !Claims(s, sid);
    }
  }

  // ---------------------------------------------------------------- blocks and sessions

  /** The allocated blocks are in bijection with the sessions that should hold one. */
  ghost predicate Bijection(c: Sessions, s: State) {
    && (forall sid :: sid in c && Owed(s, sid) ==> OneBlock(s.pools, c[sid]))
    && OnlyOwed(c, s)
    && (forall x, y :: SameSlot(c, x, y) && Owed(s, x) && Owed(s, y) ==> x == y)
  }

  /** The session is committed, or its activation has allocated and not yet rolled back. */
  predicate Holding(s: State, sid: string) {
    sid in s.sessionPool || InFlight(s, sid)
  }

  /** No leak and no second block, in every safe state; with no release running the sessions that
      should hold a block are the committed and the in-flight ones. */
  lemma BlocksMatchSessions(c: Sessions, s: State)
    requires SafeState(c, s)
    ensures Bijection(c, s)
    ensures s.rel == map[] ==> forall sid :: Owed(s, sid) <==> Holding(s, sid)
  {
    forall x, y | SameSlot(c, x, y) && Owed(s, x) && Owed(s, y)
      ensures x == y
    {
      assert SessionOk(c, s, x);
      OwedClaims(s, x);
      OwedClaims(s, y);
    }
    assert forall sid :: sid in c ==> SessionOk(c, s, sid);
  }

  /** From the start, over every run, blocks and sessions are in bijection. */
  lemma BijectionOverRuns(c: Sessions, s: State, es: seq<Event>)
    requires Initial(s) && SoundRun(c, s, es)
    ensures Bijection(c, Activation.Run(c, s, es))
  {
    InitialSafe(c, s);
    RunSafe(c, s, es);
    BlocksMatchSessions(c, Activation.Run(c, s, es));
  }

  /** A repeated activation event changes nothing. */
  lemma DuplicateActivation(c: Sessions, s: State, sid: string)
    requires SafeState(c, s) && sid in c && (Holding(s, sid) || sid in s.activations)
    ensures Next(c, s, Activate(sid)) == s
  {
    assert SessionOk(c, s, sid);
  }

  /** A failed callback frees exactly the block it was called for. */
  lemma RollBackIsExact(c: Sessions, s: State, sid: string)
    requires SafeState(c, s) && sid in s.act && s.act[sid].Calling?
    ensures var m := s.act[sid].m;
            var s' := Next(c, Next(c, s, Callback(sid, false)), RollBack(sid));
            var p := s.pools[c[sid].pool];
            && s'.pools == s.pools[c[sid].pool := PoolModel.Release(p, c[sid].key)]
            && HeldBy(p, c[sid].key, m.outside)
            && (forall k, b :: HeldBy(PoolModel.Release(p, c[sid].key), k, b) <==>
                               HeldBy(p, k, b) && !(k == c[sid].key && b == m.outside))
  {
    assert SessionOk(c, s, sid);
    RollBackSteps(c, s, sid);
    ReleaseOneBlock(s.pools[c[sid].pool], c[sid].key, s.act[sid].m.outside);
  }

  lemma RollBackSteps(c: Sessions, s: State, sid: string)
    requires ValidPools(s.pools) && sid in c && sid in s.act && s.act[sid].Calling?
    ensures Next(c, Next(c, s, Callback(sid, false)), RollBack(sid)).pools == DoRelease(s, c[sid].pool, c[sid].key)
  {
  }

  lemma ReleaseOneBlock(p: Pool, key: Key, b: Block)
    requires Inv(p) && key in p.subs && p.subs[key].blocks == [b]
    ensures forall k, x :: HeldBy(PoolModel.Release(p, key), k, x) <==> HeldBy(p, k, x) && !(k == key && x == b)
  {
    ReleaseKeepsInv(p, key);
  }

  // ---------------------------------------------------------------- an undisturbed release

  function RemoveAll(c: Sessions, s: State, tid: nat): (s': State)
    requires ValidPools(s.pools)
    ensures ValidPools(s'.pools)
    decreases if tid in s.rel && s.rel[tid].pc.Removing? then 1 + |s.rel[tid].pc.ms| else 0
  {
    if tid in s.rel && s.rel[tid].pc.Removing? then RemoveAll(c, Next(c, s, RemoveReverse(tid)), tid) else s
  }

  /** How many Removes the release has left, the last one finding none. */
  function ToRemove(s: State, tid: nat): nat {
    if tid in s.rel && s.rel[tid].pc.Removing? then 1 + |s.rel[tid].pc.ms| else 0
  }

  lemma RemoveShrinks(c: Sessions, s: State, tid: nat)
    requires ValidPools(s.pools) && ToRemove(s, tid) > 0
    ensures ToRemove(Next(c, s, RemoveReverse(tid)), tid) == ToRemove(s, tid) - 1
    ensures RemoveAll(c, s, tid) == RemoveAll(c, Next(c, s, RemoveReverse(tid)), tid)
  {
  }

  /** The removals end with the release ready to free, of the same session. */
  lemma {:induction false} RemoveAllEnds(c: Sessions, s: State, tid: nat, n: nat)
    requires ValidPools(s.pools) && tid in s.rel && n == ToRemove(s, tid)
    ensures tid in RemoveAll(c, s, tid).rel
    ensures RemoveAll(c, s, tid).rel[tid].sid == s.rel[tid].sid
    ensures RemoveAll(c, s, tid).act == s.act && RemoveAll(c, s, tid).sessionPool == s.sessionPool
    ensures RemoveAll(c, s, tid).rel - {tid} == s.rel - {tid}
    ensures RemoveAll(c, s, tid).rel[tid].pc == if s.rel[tid].pc.Removing? then Freeing else s.rel[tid].pc
    decreases n
  {
    if n > 0 {
      RemoveShrinks(c, s, tid);
      RemoveAllEnds(c, Next(c, s, RemoveReverse(tid)), tid, n - 1);
    }
  }

  /** handleSessionRelease from start to end with no other step in between. */
  function ReleaseAlone(c: Sessions, s: State, sid: string, tid: nat): (s': State)
    requires ValidPools(s.pools)
    ensures ValidPools(s'.pools)
  {
    var s1 := Next(c, s, Event.Release(sid, tid));
    var s2 := RemoveAll(c, Next(c, s1, GetMappings(tid)), tid);
    Next(c, Next(c, s2, Event.FreeBlocks(tid)), Forget(tid))
  }

  lemma NothingToRelease(c: Sessions, s: State, sid: string, tid: nat)
    requires ValidPools(s.pools) && sid !in s.sessionPool && tid !in s.rel
    ensures ReleaseAlone(c, s, sid, tid) == s
  {
  }

  lemma ReleaseReads(c: Sessions, s: State, sid: string, tid: nat)
    requires ValidPools(s.pools) && sid in c && sid in s.sessionPool && s.sessionPool[sid] == c[sid].pool
    requires tid !in s.rel
    requires OneBlock(s.pools, c[sid])
    ensures var ms := SubMappings(s.pools[c[sid].pool], c[sid].key);
            && |ms| == 1
            && Next(c, Next(c, s, Event.Release(sid, tid)), GetMappings(tid))
               == s.(rel := s.rel[tid := Rel(sid, c[sid].pool, Removing(ms))])
  {
    var ms := SubMappings(s.pools[c[sid].pool], c[sid].key);
    assert s.rel[tid := Rel(sid, c[sid].pool, Started)][tid := Rel(sid, c[sid].pool, Removing(ms))]
        == s.rel[tid := Rel(sid, c[sid].pool, Removing(ms))];
  }

  lemma ReleaseUnindexes(c: Sessions, s: State, sid: string, tid: nat)
    requires ValidPools(s.pools) && sid in c && sid in s.sessionPool && s.sessionPool[sid] == c[sid].pool
    requires tid !in s.rel
    requires OneBlock(s.pools, c[sid])
    ensures var b := s.pools[c[sid].pool].subs[c[sid].key].blocks[0];
            RemoveAll(c, Next(c, Next(c, s, Event.Release(sid, tid)), GetMappings(tid)), tid)
            == s.(rev := RemoveAt(s.rev, BlockKey(b.ip, b.start)), rel := s.rel[tid := Rel(sid, c[sid].pool, Freeing)])
  {
    ReleaseReads(c, s, sid, tid);
    var s2 := Next(c, Next(c, s, Event.Release(sid, tid)), GetMappings(tid));
    RemoveOne(c, s2, tid);
    assert s2.rel[tid := Rel(sid, c[sid].pool, Freeing)] == s.rel[tid := Rel(sid, c[sid].pool, Freeing)];
  }

  lemma ReleaseFinishes(c: Sessions, s: State, s3: State, sid: string, tid: nat)
    requires ValidPools(s.pools) && sid in c && tid !in s.rel && c[sid].pool in s.pools
    requires s3 == s.(rev := s3.rev, rel := s.rel[tid := Rel(sid, c[sid].pool, Freeing)])
    ensures Next(c, Next(c, s3, Event.FreeBlocks(tid)), Forget(tid)) == s.(
              pools := s.pools[c[sid].pool := PoolModel.Release(s.pools[c[sid].pool], c[sid].key)],
              rev := s3.rev,
              sessionPool := s.sessionPool - {sid})
  {
    var s4 := Next(c, s3, Event.FreeBlocks(tid));
    assert s4.rel == s.rel[tid := Rel(sid, c[sid].pool, Forgetting)];
    assert s4.rel - {tid} == s.rel;
  }

  lemma ReleaseAloneSteps(c: Sessions, s: State, sid: string, tid: nat)
    requires ValidPools(s.pools) && sid in c && sid in s.sessionPool && s.sessionPool[sid] == c[sid].pool
    requires tid !in s.rel
    requires OneBlock(s.pools, c[sid])
    ensures var b := s.pools[c[sid].pool].subs[c[sid].key].blocks[0];
            ReleaseAlone(c, s, sid, tid) == s.(
              pools := s.pools[c[sid].pool := PoolModel.Release(s.pools[c[sid].pool], c[sid].key)],
              rev := RemoveAt(s.rev, BlockKey(b.ip, b.start)),
              sessionPool := s.sessionPool - {sid})
  {
    var s3 := RemoveAll(c, Next(c, Next(c, s, Event.Release(sid, tid)), GetMappings(tid)), tid);
    ReleaseUnindexes(c, s, sid, tid);
    ReleaseFinishes(c, s, s3, sid, tid);
  }

  /** An undisturbed release of a committed session frees its block and forgets it. */
  lemma ReleaseAloneFrees(c: Sessions, s: State, sid: string, tid: nat)
    requires SafeState(c, s) && sid in s.sessionPool && !Freed(s, sid) && tid !in s.rel
    ensures var s' := ReleaseAlone(c, s, sid, tid);
            && s'.pools == s.pools[c[sid].pool := PoolModel.Release(s.pools[c[sid].pool], c[sid].key)]
            && s'.sessionPool == s.sessionPool - {sid} && s'.act == s.act && s'.rel == s.rel
            && !InTable(s'.pools, c[sid])
  {
    assert SessionOk(c, s, sid);
    ReleaseAloneSteps(c, s, sid, tid);
    ReleaseChanges(s.pools, c[sid]);
  }

  lemma RemoveOne(c: Sessions, s: State, tid: nat)
    requires ValidPools(s.pools) && tid in s.rel && s.rel[tid].pc.Removing? && |s.rel[tid].pc.ms| == 1
    ensures var b := s.rel[tid].pc.ms[0].outside;
            RemoveAll(c, s, tid) == s.(rev := RemoveAt(s.rev, BlockKey(b.ip, b.start)),
                                       rel := s.rel[tid := s.rel[tid].(pc := Freeing)])
  {
    var s1 := Next(c, s, RemoveReverse(tid));
    assert s1.rel[tid].pc == Removing([]) ;
    var s2 := Next(c, s1, RemoveReverse(tid));
    assert s2.rel == s.rel[tid := s.rel[tid].(pc := Freeing)];
    assert RemoveAll(c, s2, tid) == s2;
    assert RemoveAll(c, s1, tid) == RemoveAll(c, s2, tid);
  }

  /** Right after a release the session's slot holds a block exactly when an activation of it was
      between its allocation and its commit or rollback. */
  lemma ReleaseLeavesBlockIff(c: Sessions, s: State, sid: string, tid: nat)
    requires SafeState(c, s) && sid in c && Alone(c, s, sid) && NotReleasing(s, sid) && tid !in s.rel
    ensures InTable(ReleaseAlone(c, s, sid, tid).pools, c[sid]) <==> InFlight(s, sid)
  {
    assert SessionOk(c, s, sid);
    SlotIs(c, s, sid);
    if sid in s.sessionPool {
      ReleaseAloneFrees(c, s, sid, tid);
    } else {
      NothingToRelease(c, s, sid, tid);
    }
  }

  /** Whatever the state, a release run to its end leaves its session uncommitted and the
      activations where they were. */
  lemma ReleaseForgets(c: Sessions, s: State, sid: string, tid: nat)
    requires ValidPools(s.pools) && sid in c && tid !in s.rel
    ensures ReleaseAlone(c, s, sid, tid).sessionPool == s.sessionPool - {sid}
    ensures ReleaseAlone(c, s, sid, tid).act == s.act && ReleaseAlone(c, s, sid, tid).rel == s.rel
  {
    if sid in s.sessionPool {
      var s2 := Next(c, Next(c, s, Event.Release(sid, tid)), GetMappings(tid));
      RemoveAllEnds(c, s2, tid, ToRemove(s2, tid));
      ReleaseEnds(c, RemoveAll(c, s2, tid), tid);
      assert s2.rel - {tid} == s.rel;
    } else {
      NothingToRelease(c, s, sid, tid);
      assert s.sessionPool - {sid} == s.sessionPool;
    }
  }

  lemma ReleaseEnds(c: Sessions, s: State, tid: nat)
    requires ValidPools(s.pools) && tid in s.rel && s.rel[tid].sid in c
    requires s.rel[tid].pc.Freeing? || s.rel[tid].pc.Forgetting?
    ensures var s' := Next(c, Next(c, s, Event.FreeBlocks(tid)), Forget(tid));
            s'.sessionPool == s.sessionPool - {s.rel[tid].sid} && s'.act == s.act && s'.rel == s.rel - {tid}
  {
  }
}
