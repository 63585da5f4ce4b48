/** Exactly when an activation is safe: the condition under which the run theorems hold is the
    weakest one, because an activation that breaks it can be continued to a mismatch. */
module ActivationExact {
  import opened PoolLaws
  import opened Activation
  import opened ActivationSafety
  import opened ActivationRuns
  import opened ActivationLeads
  import opened ActivationRoom

  /** Every continuation whose activations are sound keeps the bijection. */
  ghost predicate StaysRight(c: Sessions, s: State)
    requires ValidPools(s.pools)
  {
    forall es :: SoundRun(c, s, es) ==> Bijection(c, Activation.Run(c, s, es))
  }

  lemma LeadsAstray(c: Sessions, s: State, t: State)
    requires ValidPools(s.pools) && Leads(c, s, t) && !Bijection(c, t)
    ensures !StaysRight(c, s)
  {
    var es :| NoActivation(es) && Activation.Run(c, s, es) == t;
    assert SoundRun(c, s, es);
  }

  // ---------------------------------------------------------------- the activation takes a block

  lemma TakesBlock(c: Sessions, s: State, sid: string) returns (t: State)
    requires SafeState(c, s) && Effective(c, s, sid) && Room(c, s, sid)
    ensures Leads(c, Next(c, s, Activate(sid)), t) && PoolsInv(t.pools) && OneBlock(t.pools, c[sid])
    ensures t.sessionPool == s.sessionPool && t.rel == s.rel && sid in t.act && t.act == s.act[sid := t.act[sid]]
    ensures if InTable(s.pools, c[sid]) then t.act[sid].Committing? && t.pools == s.pools else t.act[sid].Calling?
  {
    ActivateIs(c, s, sid);
    if InTable(s.pools, c[sid]) {
      EntryIsOneBlock(c, s, sid);
    }
    t := TakesBlockNext(c, s, Next(c, s, Activate(sid)), sid);
  }

  lemma TakesBlockNext(c: Sessions, s: State, s1: State, sid: string) returns (t: State)
    requires PoolsInv(s.pools) && sid in c && Room(c, s, sid)
    requires InTable(s.pools, c[sid]) ==> OneBlock(s.pools, c[sid])
    requires s1 == s.(activations := s1.activations, act := s.act[sid := Begun])
    ensures Leads(c, s1, t) && PoolsInv(t.pools) && OneBlock(t.pools, c[sid])
    ensures t.sessionPool == s.sessionPool && t.rel == s.rel && sid in t.act && t.act == s.act[sid := t.act[sid]]
    ensures if InTable(s.pools, c[sid]) then t.act[sid].Committing? && t.pools == s.pools else t.act[sid].Calling?
  {
    LeadsNowhere(c, s1);
    LeadsOn(c, s1, s1, GetBlock(sid));
    t := Next(c, s1, GetBlock(sid));
    TakesEither(c, s, s1, sid);
  }

  lemma TakesEither(c: Sessions, s: State, s1: State, sid: string)
    requires PoolsInv(s.pools) && sid in c && Room(c, s, sid)
    requires InTable(s.pools, c[sid]) ==> OneBlock(s.pools, c[sid])
    requires s1 == s.(activations := s1.activations, act := s.act[sid := Begun])
    ensures var t := Next(c, s1, GetBlock(sid));
      && PoolsInv(t.pools) && OneBlock(t.pools, c[sid])
      && t.sessionPool == s.sessionPool && t.rel == s.rel && sid in t.act && t.act == s.act[sid := t.act[sid]]
      && if InTable(s.pools, c[sid]) then t.act[sid].Committing? && t.pools == s.pools else t.act[sid].Calling?
  {
    Overwrite(s.act, sid, Begun, Next(c, s1, GetBlock(sid)).act);
    if InTable(s.pools, c[sid]) {
      TakesHeld(c, s1, sid);
    } else {
      TakesNew(c, s1, sid);
    }
  }

  lemma Overwrite(act: map<string, Act>, sid: string, a: Act, after: map<string, Act>)
    ensures sid in after && after == act[sid := a][sid := after[sid]] ==> after == act[sid := after[sid]]
  {
  }

  lemma TakesNew(c: Sessions, s: State, sid: string)
    requires PoolsInv(s.pools) && sid in c && sid in s.act && s.act[sid].Begun? && Room(c, s, sid)
    requires !InTable(s.pools, c[sid])
    ensures var t := Next(c, s, GetBlock(sid));
      && PoolsInv(t.pools) && OneBlock(t.pools, c[sid]) && sid in t.act && t.act[sid].Calling?
      && t == s.(pools := t.pools, act := s.act[sid := t.act[sid]])
  {
    GetBlockEffect(c, s, sid);
    GetOrAllocateFailsIff(s.pools[c[sid].pool], c[sid].key, c[sid].swIfIndex);
  }

  lemma TakesHeld(c: Sessions, s: State, sid: string)
    requires ValidPools(s.pools) && sid in c && sid in s.act && s.act[sid].Begun? && OneBlock(s.pools, c[sid])
    ensures Next(c, s, GetBlock(sid)) == s.(act := s.act[sid := Committing(TableMapping(s.pools, c[sid]))])
  {
    assert s.pools[c[sid].pool := s.pools[c[sid].pool]] == s.pools;
  }

  lemma NoBlockIsBroken(c: Sessions, t: State, sid: string)
    requires sid in c && InFlight(t, sid) && !InTable(t.pools, c[sid])
    ensures !Bijection(c, t)
  {
    assert Owed(t, sid);
  }

  // ---------------------------------------------------------------- the ways to break it

  /** A release of the slot is still on its way to free. */
  lemma ReleaseRunning(c: Sessions, s: State, sid: string, tid: nat)
    requires SafeState(c, s) && Effective(c, s, sid) && Room(c, s, sid)
    requires tid in s.rel && SameSlot(c, sid, s.rel[tid].sid) && !s.rel[tid].pc.Forgetting?
    ensures !StaysRight(c, Next(c, s, Activate(sid)))
  {
    assert RelOk(c, s, tid);
    var t := TakesBlock(c, s, sid);
    var u := RunsOn(c, t, tid);
    LeadsThenWorks(c, Next(c, s, Activate(sid)), t, u, s.rel[tid].sid);
    NoBlockIsBroken(c, u, sid);
    LeadsAstray(c, Next(c, s, Activate(sid)), u);
  }

  /** A release of x starts at t, where sid is in flight on the same slot. */
  lemma ThenReleased(c: Sessions, s: State, t: State, sid: string, x: string)
    requires ValidPools(s.pools) && PoolsInv(t.pools) && Leads(c, s, t)
    requires SameSlot(c, sid, x) && InFlight(t, sid) && OneBlock(t.pools, c[sid])
    requires x in t.sessionPool && t.sessionPool[x] == c[x].pool
    ensures !StaysRight(c, s)
  {
    var tid := UnusedTid(t.rel.Keys);
    var u := Next(c, t, Event.Release(x, tid));
    ReleaseIs(c, t, x, tid);
    LeadsOn(c, s, t, Event.Release(x, tid));
    var v := RunsOn(c, u, tid);
    LeadsThenWorks(c, s, u, v, x);
    u := v;
    NoBlockIsBroken(c, u, sid);
    LeadsAstray(c, s, u);
  }

  /** Another session of the slot is committed. */
  lemma OtherCommitted(c: Sessions, s: State, sid: string, x: string)
    requires SafeState(c, s) && Effective(c, s, sid) && Room(c, s, sid)
    requires SameSlot(c, sid, x) && x in s.sessionPool
    ensures !StaysRight(c, Next(c, s, Activate(sid)))
  {
    assert SessionOk(c, s, x);
    var t := TakesBlock(c, s, sid);
    ThenReleased(c, Next(c, s, Activate(sid)), t, sid, x);
  }

  /** Rolling one session of the slot back takes the block from under the other. */
  lemma ThenRolledBack(c: Sessions, s: State, t: State, x: string, y: string)
    requires ValidPools(s.pools) && PoolsInv(t.pools) && Leads(c, s, t)
    requires SameSlot(c, x, y) && x != y && InFlight(t, y) && x in t.act && t.act[x].Failed?
    ensures !StaysRight(c, s)
  {
    RollBackEffect(c, t, x);
    LeadsOn(c, s, t, RollBack(x));
    var u := Next(c, t, RollBack(x));
    NoBlockIsBroken(c, u, y);
    LeadsAstray(c, s, u);
  }

  /** Another session of the slot is in flight. */
  lemma OtherInFlight(c: Sessions, s: State, sid: string, x: string)
    requires SafeState(c, s) && Effective(c, s, sid) && Room(c, s, sid)
    requires SameSlot(c, sid, x) && x != sid && InFlight(s, x)
    ensures !StaysRight(c, Next(c, s, Activate(sid)))
  {
    assert SessionOk(c, s, x) && Owed(s, x);
    var t := TakesBlock(c, s, sid);
    InFlightGoesOn(c, Next(c, s, Activate(sid)), t, sid, x);
  }

  lemma InFlightGoesOn(c: Sessions, s: State, t: State, sid: string, x: string)
    requires ValidPools(s.pools) && PoolsInv(t.pools) && Leads(c, s, t)
    requires SameSlot(c, sid, x) && x != sid && InFlight(t, sid) && InFlight(t, x) && OneBlock(t.pools, c[sid])
    ensures !StaysRight(c, s)
  {
    if t.act[x].Calling? {
      CallbackIs(c, t, x, false);
      LeadsOn(c, s, t, Callback(x, false));
      ThenRolledBack(c, s, Next(c, t, Callback(x, false)), x, sid);
    } else if t.act[x].Failed? {
      ThenRolledBack(c, s, t, x, sid);
    } else {
      CommitIs(c, t, x);
      LeadsOn(c, s, t, Commit(x));
      ThenReleased(c, s, Next(c, t, Commit(x)), sid, x);
    }
  }

  /** Another session of the slot is about to allocate. */
  lemma OtherBegun(c: Sessions, s: State, sid: string, x: string)
    requires SafeState(c, s) && Effective(c, s, sid) && Room(c, s, sid)
    requires SameSlot(c, sid, x) && x != sid && x in s.act && s.act[x].Begun?
    ensures !StaysRight(c, Next(c, s, Activate(sid)))
  {
    assert SessionOk(c, s, x);
    SlotIs(c, s, x);
    var t := TakesBlock(c, s, sid);
    BegunGoesOn(c, Next(c, s, Activate(sid)), t, sid, x);
  }

  lemma BegunGoesOn(c: Sessions, s: State, t: State, sid: string, x: string)
    requires ValidPools(s.pools) && PoolsInv(t.pools) && Leads(c, s, t) && SameSlot(c, sid, x) && x != sid
    requires sid in t.act && t.act[sid].Calling? && x in t.act && t.act[x].Begun? && OneBlock(t.pools, c[sid])
    ensures !StaysRight(c, s)
  {
    CallbackIs(c, t, sid, false);
    LeadsOn(c, s, t, Callback(sid, false));
    var u := Next(c, t, Callback(sid, false));
    TakesHeld(c, u, x);
    LeadsOn(c, s, u, GetBlock(x));
    ThenRolledBack(c, s, Next(c, u, GetBlock(x)), sid, x);
  }

  /** A release of the session itself has freed and will still forget it: the block is orphaned. */
  lemma ForgetPending(c: Sessions, s: State, sid: string, tid: nat)
    requires SafeState(c, s) && Effective(c, s, sid) && Room(c, s, sid) && Alone(c, s, sid)
    requires Releasing(s, sid, tid) && s.rel[tid].pc.Forgetting?
    ensures !StaysRight(c, Next(c, s, Activate(sid)))
  {
    assert SessionOk(c, s, sid);
    SlotIs(c, s, sid);
    var t := TakesBlock(c, s, sid);
    ForgetGoesOn(c, s, Next(c, s, Activate(sid)), t, sid, tid);
  }

  lemma ForgetGoesOn(c: Sessions, s: State, s1: State, t: State, sid: string, tid: nat)
    requires sid in c && Alone(c, s, sid) && ValidPools(s1.pools) && ValidPools(t.pools) && Leads(c, s1, t)
    requires t.sessionPool == s.sessionPool && sid in t.act && t.act[sid].Calling? && t.act == s.act[sid := t.act[sid]]
    requires InTable(t.pools, c[sid]) && Releasing(t, sid, tid) && t.rel[tid].pc.Forgetting?
    ensures !StaysRight(c, s1)
  {
    var u := CommitsAndForgets(c, s1, t, sid, tid);
    assert u.act == s.act[sid := u.act[sid]];
    OrphanIsBroken(c, s, u, sid);
    LeadsAstray(c, s1, u);
  }

  lemma CommitsAndForgets(c: Sessions, s: State, t: State, sid: string, tid: nat) returns (u: State)
    requires ValidPools(s.pools) && ValidPools(t.pools) && Leads(c, s, t) && sid in c
    requires sid in t.act && t.act[sid].Calling? && Releasing(t, sid, tid) && t.rel[tid].pc.Forgetting?
    ensures Leads(c, s, u) && u.pools == t.pools && u.sessionPool == t.sessionPool - {sid}
    ensures sid in u.act && u.act[sid].Indexing? && u.act == t.act[sid := u.act[sid]]
  {
    CallbackIs(c, t, sid, true);
    LeadsOn(c, s, t, Callback(sid, true));
    u := Next(c, t, Callback(sid, true));
    CommitIs(c, u, sid);
    LeadsOn(c, s, u, Commit(sid));
    u := Next(c, u, Commit(sid));
    ForgetIs(c, u, tid);
    LeadsOn(c, s, u, Forget(tid));
    u := Next(c, u, Forget(tid));
  }

  lemma OrphanIsBroken(c: Sessions, s: State, u: State, sid: string)
    requires sid in c && Alone(c, s, sid) && InTable(u.pools, c[sid]) && sid in u.act && u.act[sid].Indexing?
    requires u.sessionPool == s.sessionPool - {sid} && u.act == s.act[sid := u.act[sid]]
    ensures !Bijection(c, u)
  {
    if OnlyOwed(c, u) {
      var x :| x in c && c[x].pool == c[sid].pool && c[x].key == c[sid].key && Owed(u, x);
      assert SameSlot(c, sid, x) && Claims(s, x);
    }
  }

  // ---------------------------------------------------------------- exactly

  /** The same while there is a block to take already. */
  lemma ActivateWithRoomIff(c: Sessions, s: State, sid: string)
    requires SafeState(c, s) && Effective(c, s, sid) && Room(c, s, sid)
    ensures StaysRight(c, Next(c, s, Activate(sid))) <==> Alone(c, s, sid) && NotReleasing(s, sid)
  {
    if !Alone(c, s, sid) {
      var x :| x != sid && SameSlot(c, sid, x) && Claims(s, x);
      ClaimedElsewhere(c, s, sid, x);
    } else if !NotReleasing(s, sid) {
      var tid :| Releasing(s, sid, tid);
      if s.rel[tid].pc.Forgetting? {
        ForgetPending(c, s, sid, tid);
      } else {
        ReleaseRunning(c, s, sid, tid);
      }
    } else {
      SoundStaysRight(c, s, sid);
    }
  }

  lemma SoundAfterQuiet(c: Sessions, s: State, a: seq<Event>, b: seq<Event>)
    requires ValidPools(s.pools) && NoActivation(a) && SoundRun(c, Activation.Run(c, s, a), b)
    ensures SoundRun(c, s, a + b) && Activation.Run(c, s, a + b) == Activation.Run(c, Activation.Run(c, s, a), b)
  {
    forall i | 0 <= i < |a + b|
      ensures SoundActivate(c, Activation.Run(c, s, (a + b)[..i]), (a + b)[i])
    {
      if i >= |a| {
        assert (a + b)[..i] == a + b[..i - |a|] && (a + b)[i] == b[i - |a|];
        RunThen(c, s, a, b[..i - |a|]);
      }
    }
    RunThen(c, s, a, b);
  }

  lemma LeadsToTrouble(c: Sessions, s: State, t: State)
    requires ValidPools(s.pools) && ValidPools(t.pools) && Leads(c, s, t) && !StaysRight(c, t)
    ensures !StaysRight(c, s)
  {
    var a :| NoActivation(a) && Activation.Run(c, s, a) == t;
    var b :| SoundRun(c, t, b) && !Bijection(c, Activation.Run(c, t, b));
    SoundAfterQuiet(c, s, a, b);
  }

  /** An activation that takes effect, of a session some block may serve, is safe for good exactly
      when no other session claims its slot and no release of the session is running. */
  lemma ActivateSafeIff(c: Sessions, s: State, sid: string)
    requires SafeState(c, s) && Effective(c, s, sid) && Servable(c, s, sid)
    ensures StaysRight(c, Next(c, s, Activate(sid))) <==> Alone(c, s, sid) && NotReleasing(s, sid)
  {
    if Alone(c, s, sid) && NotReleasing(s, sid) {
      SoundStaysRight(c, s, sid);
    } else {
      var t := MakesRoom(c, s, sid);
      ActivateWithRoomIff(c, t, sid);
      MovesAsideBegun(c, s, t, sid);
      ActivateIs(c, s, sid);
      ActivateIs(c, t, sid);
      LeadsToTrouble(c, Next(c, s, Activate(sid)), Next(c, t, Activate(sid)));
    }
  }

  lemma ClaimedElsewhere(c: Sessions, s: State, sid: string, x: string)
    requires SafeState(c, s) && Effective(c, s, sid) && Room(c, s, sid)
    requires x != sid && SameSlot(c, sid, x) && Claims(s, x)
    ensures !StaysRight(c, Next(c, s, Activate(sid)))
  {
    if x in s.sessionPool {
      OtherCommitted(c, s, sid, x);
    } else if InFlight(s, x) {
      OtherInFlight(c, s, sid, x);
    } else if x in s.act && s.act[x].Begun? {
      OtherBegun(c, s, sid, x);
    } else {
      var tid :| Releasing(s, x, tid) && !s.rel[tid].pc.Forgetting?;
      ReleaseRunning(c, s, sid, tid);
    }
  }

  lemma SoundStaysRight(c: Sessions, s: State, sid: string)
    requires SafeState(c, s) && Effective(c, s, sid) && Alone(c, s, sid) && NotReleasing(s, sid)
    ensures StaysRight(c, Next(c, s, Activate(sid)))
  {
    var s1 := Next(c, s, Activate(sid));
    NextSafe(c, s, Activate(sid));
    forall es | SoundRun(c, s1, es)
      ensures Bijection(c, Activation.Run(c, s1, es))
    {
      RunSafe(c, s1, es);
      BlocksMatchSessions(c, Activation.Run(c, s1, es));
    }
  }
}
