/** When a release is lost: it finds the session not committed yet, frees nothing, and the activation
    under way commits the session afterwards. */
module ReleaseLost {
  import opened PoolModel
  import opened PoolInvariant
  import opened PoolLaws
  import opened Activation
  import opened ActivationSafety
  import opened ActivationRuns
  import opened ActivationLeads
  import opened ActivationRoom
  import opened ActivationExact

  /** An activation of the session is under way that has not failed and can still commit. */
  predicate StillComing(c: Sessions, s: State, sid: string)
    requires sid in c
  {
    sid in s.act &&
    (s.act[sid].Calling? || s.act[sid].Committing? || (s.act[sid].Begun? && Servable(c, s, sid)))
  }

  // ---------------------------------------------------------------- the activation goes on

  lemma CommitsNow(c: Sessions, s: State, t: State, sid: string) returns (u: State)
    requires ValidPools(s.pools) && ValidPools(t.pools) && Leads(c, s, t) && sid in c && OneBlock(t.pools, c[sid])
    requires sid in t.act && (t.act[sid].Calling? || t.act[sid].Committing?)
    ensures Leads(c, s, u) && sid in u.sessionPool && OneBlock(u.pools, c[sid])
  {
    u := t;
    if u.act[sid].Calling? {
      CallbackIs(c, u, sid, true);
      LeadsOn(c, s, u, Callback(sid, true));
      u := Next(c, u, Callback(sid, true));
    }
    CommitIs(c, u, sid);
    LeadsOn(c, s, u, Commit(sid));
    u := Next(c, u, Commit(sid));
  }

  lemma MovesAsideLeads(c: Sessions, s: State, t: State, sid: string)
    requires ValidPools(s.pools) && MovesAside(c, s, t, sid)
    ensures Leads(c, s, t)
  {
    var x, es :| x != sid && AllWorkOf(es, x) && Activation.Run(c, s, es) == t;
    assert NoActivation(es);
  }

  lemma BegunTakes(c: Sessions, s: State, t: State, sid: string) returns (u: State)
    requires ValidPools(s.pools) && SafeState(c, t) && Leads(c, s, t) && sid in c && Room(c, t, sid)
    requires sid in t.act && t.act[sid].Begun?
    ensures ValidPools(u.pools) && Leads(c, s, u) && OneBlock(u.pools, c[sid]) && sid in u.act && u.act[sid].Calling?
  {
    assert SessionOk(c, t, sid);
    SlotIs(c, t, sid);
    SameReleases(t, t, sid);
    TakesNew(c, t, sid);
    LeadsOn(c, s, t, GetBlock(sid));
    u := Next(c, t, GetBlock(sid));
  }

  /** The released session ends up committed, with its block. */
  lemma LostReleaseCommits(c: Sessions, s: State, sid: string, tid: nat) returns (t: State)
    requires SafeState(c, s) && sid in c && tid !in s.rel && StillComing(c, s, sid)
    ensures Leads(c, ReleaseAlone(c, s, sid, tid), t) && sid in t.sessionPool && OneBlock(t.pools, c[sid])
  {
    assert SessionOk(c, s, sid);
    NothingToRelease(c, s, sid, tid);
    if s.act[sid].Begun? {
      var u := MakesRoom(c, s, sid);
      MovesAsideLeads(c, s, u, sid);
      var v := BegunTakes(c, s, u, sid);
      t := CommitsNow(c, s, v, sid);
    } else {
      LeadsNowhere(c, s);
      t := CommitsNow(c, s, s, sid);
    }
  }

  // ---------------------------------------------------------------- or it does not

  predicate PastCommit(s: State, sid: string) {
    sid !in s.sessionPool && !(sid in s.act && (s.act[sid].Begun? || s.act[sid].Calling? || s.act[sid].Committing?))
  }

  lemma {:induction false} PastCommitStays(c: Sessions, s: State, es: seq<Event>, sid: string)
    requires ValidPools(s.pools) && PastCommit(s, sid) && NoActivation(es)
    ensures PastCommit(Activation.Run(c, s, es), sid)
  {
    if es != [] {
      PastCommitStays(c, s, es[..|es| - 1], sid);
      PastCommitStep(c, Activation.Run(c, s, es[..|es| - 1]), es[|es| - 1], sid);
    }
  }

  lemma PastCommitStep(c: Sessions, s: State, e: Event, sid: string)
    requires ValidPools(s.pools) && PastCommit(s, sid) && !e.Activate?
    ensures PastCommit(Next(c, s, e), sid)
  {
    match e
    case GetBlock(_) =>
    case Callback(_, _) =>
    case RollBack(_) =>
    case Commit(_) =>
    case AddReverse(_) =>
    case Done(_) =>
    case Release(_, _) =>
    case GetMappings(_) =>
    case RemoveReverse(_) =>
    case FreeBlocks(_) =>
    case Forget(_) =>
  }

  /** A begun activation of a session no block can ever serve. */
  ghost predicate Hopeless(c: Sessions, s: State, sid: string)
    requires sid in c
  {
    SafeState(c, s) && sid in s.act && s.act[sid].Begun? && !Servable(c, s, sid)
  }

  /** A pool that cannot serve is full as it is. */
  lemma HopelessGetsNothing(c: Sessions, s: State, sid: string)
    requires sid in c && Hopeless(c, s, sid)
    ensures PastCommit(Next(c, s, GetBlock(sid)), sid)
  {
    assert SessionOk(c, s, sid);
    if c[sid].pool in s.pools {
      var p := s.pools[c[sid].pool];
      forall i | 0 <= i < |p.addrs| && !p.addrs[i].excluded
        ensures p.addrs[i].total == 0
      {
      }
      assert Exhausted(p.addrs);
      GetOrAllocateFailsIff(p, c[sid].key, c[sid].swIfIndex);
    }
  }

  lemma OthersStep(c: Sessions, s: State, e: Event, sid: string)
    requires ValidPools(s.pools) && sid in s.act && s.act[sid].Begun? && e != GetBlock(sid) && !e.Activate?
    ensures sid in Next(c, s, e).act && Next(c, s, e).act[sid].Begun?
  {
    match e
    case GetBlock(_) =>
    case Callback(_, _) =>
    case RollBack(_) =>
    case Commit(_) =>
    case AddReverse(_) =>
    case Done(_) =>
    case Release(_, _) =>
    case GetMappings(_) =>
    case RemoveReverse(_) =>
    case FreeBlocks(_) =>
    case Forget(_) =>
  }

  lemma CannotServeStill(p: Pool, q: Pool)
    requires Inv(p) && Inv(q) && SameIPs(p.addrs, q.addrs) && q.cfg == p.cfg && !CanServe(p)
    ensures !CanServe(q)
  {
    forall i | 0 <= i < |q.addrs| && !q.addrs[i].excluded
      ensures q.addrs[i].total == 0
    {
      assert !p.addrs[i].excluded;
    }
  }

  lemma HopelessStays(c: Sessions, s: State, e: Event, sid: string)
    requires sid in c && Hopeless(c, s, sid) && e != GetBlock(sid) && !e.Activate?
    ensures Hopeless(c, Next(c, s, e), sid)
  {
    var t := Next(c, s, e);
    NextSafe(c, s, e);
    OthersStep(c, s, e, sid);
    assert SessionOk(c, t, sid);
    SameReleases(t, t, sid);
    SlotIs(c, t, sid);
    NextAddresses(c, s, e);
    if c[sid].pool in s.pools {
      CannotServeStill(s.pools[c[sid].pool], t.pools[c[sid].pool]);
    }
  }

  lemma {:induction false} HopelessNeverCommits(c: Sessions, s: State, es: seq<Event>, sid: string)
    requires sid in c && Hopeless(c, s, sid) && NoActivation(es)
    ensures Hopeless(c, Activation.Run(c, s, es), sid) || PastCommit(Activation.Run(c, s, es), sid)
  {
    if es != [] {
      var front, e := es[..|es| - 1], es[|es| - 1];
      var t := Activation.Run(c, s, front);
      HopelessNeverCommits(c, s, front, sid);
      if PastCommit(t, sid) {
        PastCommitStep(c, t, e, sid);
      } else if e == GetBlock(sid) {
        HopelessGetsNothing(c, t, sid);
      } else {
        HopelessStays(c, t, e, sid);
      }
    }
  }

  lemma NeverCommits(c: Sessions, s: State, sid: string, tid: nat, t: State)
    requires SafeState(c, s) && sid in c && tid !in s.rel && !StillComing(c, s, sid)
    requires Leads(c, ReleaseAlone(c, s, sid, tid), t)
    ensures sid !in t.sessionPool
  {
    var r := ReleaseAlone(c, s, sid, tid);
    var es :| NoActivation(es) && Activation.Run(c, r, es) == t;
    assert SessionOk(c, s, sid);
    if sid in s.act && s.act[sid].Begun? {
      NothingToRelease(c, s, sid, tid);
      HopelessNeverCommits(c, s, es, sid);
      if Hopeless(c, t, sid) {
        assert SessionOk(c, t, sid);
      }
    } else {
      ReleaseForgets(c, s, sid, tid);
      PastCommitStays(c, r, es, sid);
    }
  }

  /** A release run to its end is lost, so that its session is committed afterwards without any
      further activation, exactly when an activation is begun that a block may serve, out at the
      dataplane, or about to commit. */
  lemma ReleaseLostIff(c: Sessions, s: State, sid: string, tid: nat)
    requires SafeState(c, s) && sid in c && tid !in s.rel
    ensures (exists t :: Leads(c, ReleaseAlone(c, s, sid, tid), t) && sid in t.sessionPool) <==> StillComing(c, s, sid)
  {
    if StillComing(c, s, sid) {
      var t := LostReleaseCommits(c, s, sid, tid);
    } else {
      forall t | Leads(c, ReleaseAlone(c, s, sid, tid), t)
        ensures sid !in t.sessionPool
      {
        NeverCommits(c, s, sid, tid, t);
      }
    }
  }
}
