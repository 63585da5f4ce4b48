/** Every activation ends: whatever its phase and whatever the dataplane answers, its own steps bring
    it to a commit or back to where a new activation can begin. */
module ActivationEnds {
  import opened PoolModel
  import opened PoolInvariant
  import opened PoolLaws
  import opened Activation
  import opened ActivationSafety
  import opened ActivationRuns
  import opened ActivationLeads
  import opened ActivationRoom
  import opened ActivationExact

  /** The steps of the session's activation in their order; those that do not fit change nothing. */
  function OwnSteps(sid: string, ok: bool): seq<Event> {
    [GetBlock(sid), Callback(sid, ok), RollBack(sid), Commit(sid), AddReverse(sid), Done(sid)]
  }

  predicate OwnStep(e: Event, sid: string) {
    (e.GetBlock? || e.Callback? || e.RollBack? || e.Commit? || e.AddReverse? || e.Done?) && e.sid == sid
  }

  /** The activation commits if the dataplane answers ok. */
  ghost predicate Commits(c: Sessions, s: State, sid: string, ok: bool)
    requires sid in c && sid in s.act
  {
    match s.act[sid]
    case Begun => ok && Room(c, s, sid)
    case Calling(_) => ok
    case Committing(_) => true
    case _ => false
  }

  // ---------------------------------------------------------------- one step

  lemma OwnStepChanges(c: Sessions, s: State, e: Event, sid: string)
    requires PoolsInv(s.pools) && sid in c && OwnStep(e, sid)
    ensures OneSessionChanged(c, s, Next(c, s, e), sid) && Next(c, s, e).rel == s.rel
  {
    var t := Next(c, s, e);
    SamePools(s.pools, c[sid]);
    if t != s {
      match e
      case GetBlock(_) => GetBlockEffect(c, s, sid); MoveShape(c, s, t, sid);
      case Callback(_, _) => MoveShape(c, s, t, sid);
      case RollBack(_) => RollBackEffect(c, s, sid); MoveShape(c, s, t, sid);
      case Commit(_) => CommitShape(c, s, t, sid, t.act[sid]);
      case AddReverse(_) => MoveShape(c, s, t, sid);
      case Done(_) => DoneShape(c, s, t, sid);
    }
  }

  /** m is a mapping of the session: its pool, its inside address, its interface. */
  predicate MappingFor(c: Sessions, sid: string, m: Mapping)
    requires sid in c
  {
    m.poolName == c[sid].pool && m.inside == c[sid].key && m.swIfIndex == c[sid].swIfIndex
  }

  lemma NewBlockIsIts(c: Sessions, s: State, sid: string)
    requires PoolsInv(s.pools) && sid in c && sid in s.act && s.act[sid].Begun? && Room(c, s, sid)
    requires !InTable(s.pools, c[sid])
    ensures var t := Next(c, s, GetBlock(sid));
      sid in t.act && t.act[sid].Calling? && MappingFor(c, sid, t.act[sid].m) && InTable(t.pools, c[sid])
      && t.pools[c[sid].pool].subs[c[sid].key].swIfIndex == c[sid].swIfIndex
  {
    GetOrAllocateFailsIff(s.pools[c[sid].pool], c[sid].key, c[sid].swIfIndex);
    AllocateGrants(s.pools[c[sid].pool], c[sid].key, c[sid].swIfIndex);
  }

  /** Where GetBlock leaves a begun activation. */
  lemma GetBlockEnds(c: Sessions, s: State, sid: string)
    requires SafeState(c, s) && sid in s.act && s.act[sid].Begun?
    ensures var t := Next(c, s, GetBlock(sid));
      && sid in t.act && t.sessionPool == s.sessionPool
      && (if Room(c, s, sid) then t.act[sid].Calling? && MappingFor(c, sid, t.act[sid].m)
          else t.act[sid].Finishing? && !InTable(t.pools, c[sid]))
  {
    assert SessionOk(c, s, sid);
    SameReleases(s, s, sid);
    SlotIs(c, s, sid);
    if Room(c, s, sid) {
      NewBlockIsIts(c, s, sid);
    } else {
      NoBlockNoCall(c, s, sid);
    }
  }

  lemma NoBlockNoCall(c: Sessions, s: State, sid: string)
    requires PoolsInv(s.pools) && sid in c && sid in s.act && s.act[sid].Begun? && !Room(c, s, sid)
    ensures var t := Next(c, s, GetBlock(sid));
      sid in t.act && t.act[sid].Finishing? && t.sessionPool == s.sessionPool && !InTable(t.pools, c[sid])
  {
    if c[sid].pool in s.pools {
      GetOrAllocateFailsIff(s.pools[c[sid].pool], c[sid].key, c[sid].swIfIndex);
    }
  }

  lemma OneMore(c: Sessions, s: State, es: seq<Event>, e: Event)
    requires ValidPools(s.pools)
    ensures Activation.Run(c, s, es + [e]) == Next(c, Activation.Run(c, s, es), e)
  {
    assert (es + [e])[..|es|] == es;
  }

  lemma TwoMore(c: Sessions, s: State, es: seq<Event>, a: Event, b: Event)
    requires ValidPools(s.pools)
    ensures Activation.Run(c, s, es + [a, b]) == Next(c, Next(c, Activation.Run(c, s, es), a), b)
  {
    OneMore(c, s, es, a);
    OneMore(c, s, es + [a], b);
    assert es + [a] + [b] == es + [a, b];
  }

  /** The run of the own steps, unfolded. */
  lemma OwnRun(c: Sessions, s: State, sid: string, ok: bool)
    requires ValidPools(s.pools)
    ensures var s3 := Next(c, Next(c, Next(c, s, GetBlock(sid)), Callback(sid, ok)), RollBack(sid));
            Activation.Run(c, s, OwnSteps(sid, ok))
            == Next(c, Next(c, Next(c, s3, Commit(sid)), AddReverse(sid)), Done(sid))
  {
    var a, b := [GetBlock(sid), Callback(sid, ok)], [RollBack(sid), Commit(sid)];
    TwoMore(c, s, [], GetBlock(sid), Callback(sid, ok));
    assert [] + a == a && Activation.Run(c, s, []) == s;
    TwoMore(c, s, a, RollBack(sid), Commit(sid));
    TwoMore(c, s, a + b, AddReverse(sid), Done(sid));
    assert a + b + [AddReverse(sid), Done(sid)] == OwnSteps(sid, ok);
  }

  // ---------------------------------------------------------------- from each phase to the end

  predicate Over(s: State, sid: string) {
    sid !in s.act && sid !in s.activations
  }

  /** From a phase past the callback: Commit, AddReverse and Done finish it. */
  lemma LastSteps(c: Sessions, s: State, sid: string)
    requires ValidPools(s.pools) && sid in c && sid in s.act
    requires s.act[sid].Committing? || s.act[sid].Indexing? || s.act[sid].Finishing?
    ensures var t := Next(c, Next(c, Next(c, s, Commit(sid)), AddReverse(sid)), Done(sid));
      && Over(t, sid) && t.pools == s.pools
      && t.sessionPool == if s.act[sid].Committing? then s.sessionPool[sid := c[sid].pool] else s.sessionPool
  {
  }

  /** From the callback on. */
  lemma AfterCall(c: Sessions, s: State, sid: string, ok: bool)
    requires PoolsInv(s.pools) && sid in c && sid in s.act && !s.act[sid].Begun?
    ensures var t := Next(c, Next(c, s, Callback(sid, ok)), RollBack(sid));
      && sid in t.act && t.sessionPool == s.sessionPool
      && (t.act[sid].Committing? || t.act[sid].Indexing? || t.act[sid].Finishing?)
      && (t.act[sid].Committing? <==> s.act[sid].Committing? || (s.act[sid].Calling? && ok))
      && (s.act[sid].Failed? || (s.act[sid].Calling? && !ok) ==> !InTable(t.pools, c[sid]))
      && (s.act[sid].Finishing? || s.act[sid].Indexing? ==> t == s)
  {
    var s1 := Next(c, s, Callback(sid, ok));
    if sid in s1.act && s1.act[sid].Failed? {
      RollBackEffect(c, s1, sid);
    }
  }

  predicate AllOwn(es: seq<Event>, sid: string) {
    forall i :: 0 <= i < |es| ==> OwnStep(es[i], sid)
  }

  /** t is s but for the session's activation, its commit and its block. */
  ghost predicate OnlyActivation(c: Sessions, s: State, t: State, sid: string) {
    PoolsInv(t.pools) && OneSessionChanged(c, s, t, sid) && t.rel == s.rel
  }

  lemma NotYet(c: Sessions, s: State, sid: string)
    requires PoolsInv(s.pools) && sid in c
    ensures OnlyActivation(c, s, s, sid)
  {
    SamePools(s.pools, c[sid]);
  }

  lemma OneMoreStep(c: Sessions, s: State, t: State, e: Event, sid: string)
    requires ValidPools(t.pools) && OnlyActivation(c, s, t, sid) && OwnStep(e, sid)
    ensures OnlyActivation(c, s, Next(c, t, e), sid)
  {
    NextPools(c, t, e);
    OwnStepChanges(c, t, e, sid);
    ChangesAdd(c, s, t, Next(c, t, e), sid);
  }

  lemma {:induction false} OwnRunChanges(c: Sessions, s: State, es: seq<Event>, sid: string)
    requires ValidPools(s.pools) && OnlyActivation(c, s, s, sid) && AllOwn(es, sid)
    ensures OnlyActivation(c, s, Activation.Run(c, s, es), sid)
  {
    if es != [] {
      OwnRunChanges(c, s, es[..|es| - 1], sid);
      OneMoreStep(c, s, Activation.Run(c, s, es[..|es| - 1]), es[|es| - 1], sid);
    }
  }

  lemma OwnStepsEnd(c: Sessions, s: State, sid: string, ok: bool)
    requires SafeState(c, s) && sid in s.act
    ensures var s1 := Next(c, s, GetBlock(sid));
            var s3 := Next(c, Next(c, s1, Callback(sid, ok)), RollBack(sid));
            var t := Next(c, Next(c, Next(c, s3, Commit(sid)), AddReverse(sid)), Done(sid));
            Over(t, sid) && (sid in t.sessionPool <==> sid in s.sessionPool || Commits(c, s, sid, ok))
  {
    var s1 := Next(c, s, GetBlock(sid));
    if s.act[sid].Begun? {
      GetBlockEnds(c, s, sid);
    }
    NextPools(c, s, GetBlock(sid));
    AfterCall(c, s1, sid, ok);
    LastSteps(c, Next(c, Next(c, s1, Callback(sid, ok)), RollBack(sid)), sid);
  }

  lemma OwnStepsChange(c: Sessions, s: State, sid: string, ok: bool)
    requires PoolsInv(s.pools) && sid in c
    ensures OnlyActivation(c, s, Activation.Run(c, s, OwnSteps(sid, ok)), sid)
  {
    NotYet(c, s, sid);
    OwnRunChanges(c, s, OwnSteps(sid, ok), sid);
  }

  /** From every safe state an activation under way ends in its own steps: its reservation is gone,
      the session is committed exactly when it should be, and nothing else has changed. */
  lemma ActivationAlwaysEnds(c: Sessions, s: State, sid: string, ok: bool)
    requires SafeState(c, s) && sid in s.act
    ensures var t := Activation.Run(c, s, OwnSteps(sid, ok));
      && Over(t, sid) && OnlyActivation(c, s, t, sid)
      && (sid in t.sessionPool <==> sid in s.sessionPool || Commits(c, s, sid, ok))
  {
    OwnStepsEnd(c, s, sid, ok);
    OwnRun(c, s, sid, ok);
    OwnStepsChange(c, s, sid, ok);
  }

  lemma OwnStepsSafe(c: Sessions, s: State, sid: string, ok: bool)
    requires SafeState(c, s)
    ensures SafeState(c, Activation.Run(c, s, OwnSteps(sid, ok)))
  {
    assert SoundRun(c, s, OwnSteps(sid, ok));
    RunSafe(c, s, OwnSteps(sid, ok));
  }

  /** One that fails leaves no block behind, and the session can be activated again. */
  lemma FailureCanRetry(c: Sessions, s: State, sid: string, ok: bool)
    requires SafeState(c, s) && sid in s.act && (s.act[sid].Begun? || InFlight(s, sid)) && !Commits(c, s, sid, ok)
    ensures var t := Activation.Run(c, s, OwnSteps(sid, ok));
      && SafeState(c, t) && Effective(c, t, sid) && SoundActivate(c, t, Activate(sid)) && !InTable(t.pools, c[sid])
      && (Room(c, t, sid) ==> CallsAgain(c, t, sid))
  {
    ActivationAlwaysEnds(c, s, sid, ok);
    OwnStepsSafe(c, s, sid, ok);
    assert SessionOk(c, s, sid);
    AfterFailure(c, s, Activation.Run(c, s, OwnSteps(sid, ok)), sid);
  }

  lemma AfterFailure(c: Sessions, s: State, t: State, sid: string)
    requires sid in c && Alone(c, s, sid) && NotReleasing(s, sid) && OnlyActivation(c, s, t, sid)
    requires SafeState(c, t) && Over(t, sid) && sid !in t.sessionPool
    ensures Effective(c, t, sid) && SoundActivate(c, t, Activate(sid)) && !InTable(t.pools, c[sid])
    ensures Room(c, t, sid) ==> CallsAgain(c, t, sid)
  {
    OwnStaysAlone(c, s, t, sid);
    SameReleases(s, t, sid);
    SlotIs(c, t, sid);
    if Room(c, t, sid) {
      ActivationCalls(c, t, sid);
    }
  }

  /** An activation would go on to the dataplane with a new block. */
  predicate CallsAgain(c: Sessions, s: State, sid: string)
    requires ValidPools(s.pools)
  {
    var t := Next(c, Next(c, s, Activate(sid)), GetBlock(sid));
    sid in t.act && t.act[sid].Calling?
  }

  lemma ActivationCalls(c: Sessions, s: State, sid: string)
    requires SafeState(c, s) && Effective(c, s, sid) && SoundActivate(c, s, Activate(sid)) && Room(c, s, sid)
    ensures CallsAgain(c, s, sid)
  {
    ActivateIs(c, s, sid);
    NextSafe(c, s, Activate(sid));
    GetBlockEnds(c, Next(c, s, Activate(sid)), sid);
  }
}
