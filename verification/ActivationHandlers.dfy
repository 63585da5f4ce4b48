/** The handlers of internal/cgnat/component.go on the objects they change: the pool manager with
    its bitmaps, the reverse index and the component's own maps. Each handler run to its end is a
    composition of the machine's steps, so it keeps what they keep. */
module ActivationHandlers {
  import opened PoolModel
  import opened PoolManager
  import opened ReverseIndex
  import opened Activation
  import opened ActivationSafety
  import opened ActivationRuns
  import opened ActivationLeads
  import opened ActivationRoom
  import opened ActivationEnds

  // ---------------------------------------------------------------- handlers as steps

  /** commitMapping, then done(). */
  function Committed(c: Sessions, s: State, sid: string): (s': State)
    requires ValidPools(s.pools)
    ensures ValidPools(s'.pools)
  {
    Next(c, Next(c, Next(c, s, Commit(sid)), AddReverse(sid)), Done(sid))
  }

  /** handleSessionActivate up to its return; a dataplane call may be left in flight. */
  function Activated(c: Sessions, s: State, sid: string): (s': State)
    requires ValidPools(s.pools)
    ensures ValidPools(s'.pools)
  {
    var s1 := Next(c, Next(c, s, Activate(sid)), GetBlock(sid));
    if sid in s.sessionPool || sid in s.activations then s
    else if sid !in s1.act || s1.act[sid].Calling? then s1
    else if s1.act[sid].Committing? then Committed(c, s1, sid)
    else Next(c, s1, Done(sid))
  }

  /** The callback of the dataplane call. */
  function CalledBack(c: Sessions, s: State, sid: string, ok: bool): (s': State)
    requires ValidPools(s.pools)
    ensures ValidPools(s'.pools)
  {
    var s1 := Next(c, s, Callback(sid, ok));
    if ok then Committed(c, s1, sid) else Next(c, Next(c, s1, RollBack(sid)), Done(sid))
  }

  lemma CommittedSafe(c: Sessions, s: State, sid: string)
    requires SafeState(c, s)
    ensures SafeState(c, Committed(c, s, sid))
  {
    NextSafe(c, s, Commit(sid));
    NextSafe(c, Next(c, s, Commit(sid)), AddReverse(sid));
    NextSafe(c, Next(c, Next(c, s, Commit(sid)), AddReverse(sid)), Done(sid));
  }

  lemma ActivatedSafe(c: Sessions, s: State, sid: string)
    requires SafeState(c, s) && SoundActivate(c, s, Activate(sid))
    ensures SafeState(c, Activated(c, s, sid))
  {
    NextSafe(c, s, Activate(sid));
    var s0 := Next(c, s, Activate(sid));
    NextSafe(c, s0, GetBlock(sid));
    AllocatedSafe(c, Next(c, s0, GetBlock(sid)), sid);
  }

  lemma AllocatedSafe(c: Sessions, s1: State, sid: string)
    requires SafeState(c, s1)
    ensures SafeState(c, Committed(c, s1, sid)) && SafeState(c, Next(c, s1, Done(sid)))
  {
    CommittedSafe(c, s1, sid);
    NextSafe(c, s1, Done(sid));
  }

  lemma CalledBackSafe(c: Sessions, s: State, sid: string, ok: bool)
    requires SafeState(c, s)
    ensures SafeState(c, CalledBack(c, s, sid, ok))
  {
    var s1 := Next(c, s, Callback(sid, ok));
    NextSafe(c, s, Callback(sid, ok));
    CommittedSafe(c, s1, sid);
    NextSafe(c, s1, RollBack(sid));
    NextSafe(c, Next(c, s1, RollBack(sid)), Done(sid));
  }

  /** The callback always gives the reservation back, and commits exactly on success. */
  lemma CalledBackEnds(c: Sessions, s: State, sid: string, ok: bool)
    requires ValidPools(s.pools) && sid in c && sid in s.act && s.act[sid].Calling?
    ensures var t := CalledBack(c, s, sid, ok);
      && Over(t, sid)
      && t.sessionPool == if ok then s.sessionPool[sid := c[sid].pool] else s.sessionPool
  {
    CallbackIs(c, s, sid, ok);
    var s1 := Next(c, s, Callback(sid, ok));
    if ok {
      LastSteps(c, s1, sid);
    } else {
      RolledBack(c, s1, sid);
    }
  }

  lemma RolledBack(c: Sessions, s: State, sid: string)
    requires ValidPools(s.pools) && sid in c && sid in s.act && s.act[sid].Failed?
    ensures var t := Next(c, Next(c, s, RollBack(sid)), Done(sid)); Over(t, sid) && t.sessionPool == s.sessionPool
  {
  }

  /** An activation that took effect has a call out, or has given its reservation back. */
  lemma ActivatedEnds(c: Sessions, s: State, sid: string)
    requires ValidPools(s.pools) && Effective(c, s, sid)
    ensures var t := Activated(c, s, sid);
      if sid in t.act then t.act[sid].Calling? && t.sessionPool == s.sessionPool else Over(t, sid)
  {
    ActivateIs(c, s, sid);
    var s1 := Next(c, Next(c, s, Activate(sid)), GetBlock(sid));
    BegunGoesOn(c, Next(c, s, Activate(sid)), sid);
    ActivatedIs(c, s, s1, sid);
    if !s1.act[sid].Calling? {
      LastSteps(c, s1, sid);
    }
  }

  lemma BegunGoesOn(c: Sessions, s: State, sid: string)
    requires ValidPools(s.pools) && sid in c && sid in s.act && s.act[sid].Begun?
    ensures var t := Next(c, s, GetBlock(sid));
      && sid in t.act && t.sessionPool == s.sessionPool
      && (t.act[sid].Finishing? || t.act[sid].Calling? || t.act[sid].Committing?)
  {
  }

  /** After a failed callback the next activation reaches the dataplane again. */
  lemma FailedThenCalls(c: Sessions, s: State, sid: string)
    requires SafeState(c, s) && sid in s.act && s.act[sid].Calling?
    ensures var t := CalledBack(c, s, sid, false);
      && Effective(c, t, sid) && SoundActivate(c, t, Activate(sid)) && !InTable(t.pools, c[sid])
      && (Room(c, t, sid) ==> sid in Activated(c, t, sid).act && Activated(c, t, sid).act[sid].Calling?)
  {
    var t := CalledBack(c, s, sid, false);
    FailedIsOwnSteps(c, s, sid);
    FailureCanRetry(c, s, sid, false);
    if Room(c, t, sid) {
      ActivatedCalls(c, t, sid);
    }
  }

  /** The activation is sound, takes effect, and finds a block. */
  ghost predicate WillCall(c: Sessions, s: State, sid: string) {
    SafeState(c, s) && Effective(c, s, sid) && SoundActivate(c, s, Activate(sid)) && Room(c, s, sid)
  }

  /** Where there is room, an activation that is sound and takes effect reaches the dataplane. */
  lemma ActivatedCalls(c: Sessions, s: State, sid: string)
    requires WillCall(c, s, sid)
    ensures sid in Activated(c, s, sid).act && Activated(c, s, sid).act[sid].Calling?
  {
    ActivationCalls(c, s, sid);
    ActivatedIs(c, s, Next(c, Next(c, s, Activate(sid)), GetBlock(sid)), sid);
  }

  lemma FailedIsOwnSteps(c: Sessions, s: State, sid: string)
    requires ValidPools(s.pools) && sid in c && sid in s.act && s.act[sid].Calling?
    ensures Activation.Run(c, s, OwnSteps(sid, false)) == CalledBack(c, s, sid, false)
  {
    OwnRun(c, s, sid, false);
    CallbackIs(c, s, sid, false);
  }

  lemma {:induction false} RemoveAllSafe(c: Sessions, s: State, tid: nat, n: nat)
    requires SafeState(c, s) && n == ToRemove(s, tid)
    ensures SafeState(c, RemoveAll(c, s, tid))
    decreases n
  {
    if n > 0 {
      RemoveShrinks(c, s, tid);
      NextSafe(c, s, RemoveReverse(tid));
      RemoveAllSafe(c, Next(c, s, RemoveReverse(tid)), tid, n - 1);
    } else {
      assert RemoveAll(c, s, tid) == s;
    }
  }

  lemma ReleaseAloneSafe(c: Sessions, s: State, sid: string, tid: nat)
    requires SafeState(c, s)
    ensures SafeState(c, ReleaseAlone(c, s, sid, tid))
  {
    var s1 := Next(c, s, Event.Release(sid, tid));
    NextSafe(c, s, Event.Release(sid, tid));
    NextSafe(c, s1, Event.GetMappings(tid));
    var s2 := RemoveAll(c, Next(c, s1, Event.GetMappings(tid)), tid);
    RemoveAllSafe(c, Next(c, s1, Event.GetMappings(tid)), tid, ToRemove(Next(c, s1, Event.GetMappings(tid)), tid));
    NextSafe(c, s2, Event.FreeBlocks(tid));
    NextSafe(c, Next(c, s2, Event.FreeBlocks(tid)), Forget(tid));
  }

  // ---------------------------------------------------------------- the component

  function MappingsFor(s: State, pool: string, key: Key): seq<Mapping> {
    if pool in s.pools then SubMappings(s.pools[pool], key) else []
  }

  ghost predicate TookBlock(s: State, s': State, info: Session, r: Result<Got>)
    requires ValidPools(s.pools) && info.pool in s.pools
  {
    var (p, got) := GetOrAllocate(s.pools[info.pool], info.key, info.swIfIndex);
    s' == s.(pools := s.pools[info.pool := p]) && r == got
  }

  class Component {
    const sessions: Sessions
    const pm: Manager
    const reverse: Reverse
    var sessionPool: map<string, string>
    var activations: set<string>
    var act: map<string, Act>
    var rel: map<nat, Rel>
    var nextId: nat

    ghost predicate Valid()
      reads this, pm, pm.Objects(), reverse
    {
      && pm.Valid()
      && this !in pm.Objects() && reverse !in pm.Objects()
      && ValidPools(pm.View())
    }

    /** The state of the protocol: the bitmaps and lists read as values. */
    ghost function View(): State
      reads this, pm, pm.Objects(), reverse
    {
      State(pm.View(), reverse.View(), sessionPool, activations, act, rel, nextId)
    }

    constructor (c: Sessions, pm: Manager)
      requires pm.Valid() && ValidPools(pm.View())
      ensures Valid() && sessions == c && this.pm == pm && fresh(reverse)
      ensures View() == State(old(pm.View()), EMPTY, map[], {}, map[], map[], 0)
    {
      sessions, this.pm, sessionPool, activations, act, rel, nextId := c, pm, map[], {}, map[], map[], 0;
      reverse := new Reverse();
      new;
      pm.Untouched();
    }

    // The calls on the shared objects and the moves of a handler, each on its own.

    method AskPool(info: Session) returns (r: Result<Got>)
      requires Valid()
      modifies pm.Objects()
      ensures Valid()
      ensures if info.pool in old(View()).pools then TookBlock(old(View()), View(), info, r)
              else r.Err? && View() == old(View())
    {
      r := pm.GetOrAllocateBlock(info.pool, info.key, info.swIfIndex);
    }

    method AskMappings(pool: string, key: Key) returns (ms: seq<Mapping>)
      requires Valid()
      ensures ms == MappingsFor(View(), pool, key)
    {
      ms := pm.GetMappings(pool, key);
    }

    method FreePool(pool: string, key: Key)
      requires Valid()
      modifies pm.Objects()
      ensures Valid() && View() == old(View()).(pools := DoRelease(old(View()), pool, key))
    {
      var _ := pm.ReleaseBlocks(pool, key);
    }

    method MoveActivation(sid: string, a: Act)
      requires Valid()
      modifies `act
      ensures Valid() && View() == old(View()).(act := old(act)[sid := a])
    {
      act := act[sid := a];
    }

    method MoveRelease(tid: nat, r: Rel)
      requires Valid()
      modifies `rel
      ensures Valid() && View() == old(View()).(rel := old(rel)[tid := r])
    {
      rel := rel[tid := r];
    }

    method AddReference(m: Mapping)
      requires Valid()
      modifies `nextId, reverse
      ensures Valid()
      ensures View() == old(View()).(rev := AddRef(old(View()).rev, Ref(old(nextId), m)), nextId := old(nextId) + 1)
    {
      reverse.Add(Ref(nextId, m));
      nextId := nextId + 1;
      pm.Untouched();
    }

    method RemoveReference(b: Block)
      requires Valid()
      modifies reverse
      ensures Valid() && View() == old(View()).(rev := RemoveAt(old(View()).rev, BlockKey(b.ip, b.start)))
    {
      reverse.Remove(b.ip, b.start);
      pm.Untouched();
    }

    /** Reserves the activation slot of a session that is neither committed nor activating. */
    method BeginActivation(sid: string) returns (proceed: bool)
      requires Valid() && sid in sessions
      modifies `activations, `act
      ensures Valid() && View() == Next(sessions, old(View()), Activate(sid))
      ensures proceed <==> sid !in old(sessionPool) && sid !in old(activations)
    {
      if sid in sessionPool {
        return false;
      }
      if sid in activations {
        return false;
      }
      activations, act := activations + {sid}, act[sid := Begun];
      pm.Untouched();
      proceed := true;
    }

    method AllocateBlock(sid: string)
      requires Valid() && sid in sessions && sid in act && act[sid].Begun?
      modifies `act, pm.Objects()
      ensures Valid() && View() == Next(sessions, old(View()), GetBlock(sid))
      ensures sid in act && (act[sid].Finishing? || act[sid].Calling? || act[sid].Committing?)
    {
      var info := sessions[sid];
      var r := AskPool(info);
      GetBlockStep(sessions, old(View()), View(), sid, r);
      if r.Err? {
        MoveActivation(sid, Finishing);
      } else if r.value.isNew {
        MoveActivation(sid, Calling(r.value.mapping));
      } else {
        MoveActivation(sid, Committing(r.value.mapping));
      }
    }

    method Finish(sid: string)
      requires Valid() && sid in act && act[sid].Finishing?
      modifies `activations, `act
      ensures Valid() && View() == Next(sessions, old(View()), Done(sid))
    {
      activations, act := activations - {sid}, act - {sid};
      pm.Untouched();
    }

    method RecordSession(sid: string)
      requires Valid() && sid in sessions && sid in act && act[sid].Committing?
      modifies `sessionPool, `act
      ensures Valid() && View() == Next(sessions, old(View()), Commit(sid))
      ensures sid in act && act[sid].Indexing?
    {
      sessionPool, act := sessionPool[sid := sessions[sid].pool], act[sid := Indexing(act[sid].m)];
      pm.Untouched();
    }

    method IndexMapping(sid: string)
      requires Valid() && sid in act && act[sid].Indexing?
      modifies `nextId, `act, reverse
      ensures Valid() && View() == Next(sessions, old(View()), AddReverse(sid))
      ensures sid in act && act[sid].Finishing?
    {
      AddReference(act[sid].m);
      MoveActivation(sid, Finishing);
    }

    /** The session map under its lock, then the reverse index, then done(). */
    method CommitMapping(sid: string)
      requires Valid() && sid in sessions && sid in act && act[sid].Committing?
      modifies this, reverse
      ensures Valid() && View() == Committed(sessions, old(View()), sid)
    {
      RecordSession(sid);
      IndexMapping(sid);
      Finish(sid);
    }

    method HandleActivate(sid: string)
      requires Valid() && sid in sessions
      modifies this, reverse, pm.Objects()
      ensures Valid() && View() == Activated(sessions, old(View()), sid)
      ensures sid in old(sessionPool) || sid in old(activations) ==> View() == old(View())
      ensures sid !in old(sessionPool) && sid !in old(activations) ==>
                (sid in act && act[sid].Calling?) || (sid !in act && sid !in activations)
      ensures old(SafeState(sessions, View()) && SoundActivate(sessions, View(), Activate(sid))) ==>
                SafeState(sessions, View())
      ensures old(WillCall(sessions, View(), sid)) ==> sid in act && act[sid].Calling?
    {
      if sid !in sessionPool && sid !in activations {
        ActivatedEnds(sessions, View(), sid);
      }
      if SafeState(sessions, View()) && SoundActivate(sessions, View(), Activate(sid)) {
        ActivatedSafe(sessions, View(), sid);
        if WillCall(sessions, View(), sid) {
          ActivatedCalls(sessions, View(), sid);
        }
      }
      ActivateSteps(sid);
    }

    method ActivateSteps(sid: string)
      requires Valid() && sid in sessions
      modifies this, reverse, pm.Objects()
      ensures Valid() && View() == Activated(sessions, old(View()), sid)
      ensures sid in old(sessionPool) || sid in old(activations) ==> View() == old(View())
    {
      ActivateOrNot(sessions, View(), sid);
      var proceed := BeginActivation(sid);
      if !proceed {
        return;
      }
      AllocateBlock(sid);
      ActivatedIs(sessions, old(View()), View(), sid);
      if act[sid].Finishing? {
        Finish(sid);
      } else if act[sid].Committing? {
        CommitMapping(sid);
      }
    }

    method RollBackBlock(sid: string)
      requires Valid() && sid in sessions && sid in act && act[sid].Failed?
      modifies `act, pm.Objects()
      ensures Valid() && View() == Next(sessions, old(View()), RollBack(sid))
      ensures sid in act && act[sid].Finishing?
    {
      FreePool(sessions[sid].pool, sessions[sid].key);
      MoveActivation(sid, Finishing);
    }

    method CallbackSteps(sid: string, ok: bool)
      requires Valid() && sid in sessions && sid in act && act[sid].Calling?
      modifies this, reverse, pm.Objects()
      ensures Valid() && View() == CalledBack(sessions, old(View()), sid, ok)
    {
      act := act[sid := if ok then Committing(act[sid].m) else Failed];
      assert View() == Next(sessions, old(View()), Callback(sid, ok));
      if ok {
        CommitMapping(sid);
      } else {
        RollBackBlock(sid);
        Finish(sid);
      }
    }

    /** What the completion of the dataplane call does. */
    method HandleCallback(sid: string, ok: bool)
      requires Valid() && sid in sessions && sid in act && act[sid].Calling?
      modifies this, reverse, pm.Objects()
      ensures Valid() && View() == CalledBack(sessions, old(View()), sid, ok)
      ensures sid !in activations && sid !in act
      ensures sessionPool == if ok then old(sessionPool)[sid := sessions[sid].pool] else old(sessionPool)
      ensures old(SafeState(sessions, View())) ==> SafeState(sessions, View())
      ensures old(SafeState(sessions, View())) && !ok ==>
                !InTable(View().pools, sessions[sid]) && SoundActivate(sessions, View(), Activate(sid))
    {
      CalledBackEnds(sessions, View(), sid, ok);
      if SafeState(sessions, View()) {
        FailedThenCalls(sessions, View(), sid);
      }
      if SafeState(sessions, View()) {
        CalledBackSafe(sessions, View(), sid, ok);
      }
      CallbackSteps(sid, ok);
    }

    /** The removal loop over the session's mappings. */
    method RemoveMappings(tid: nat)
      requires Valid()
      modifies `rel, reverse
      ensures Valid() && View() == RemoveAll(sessions, old(View()), tid)
    {
      while tid in rel && rel[tid].pc.Removing?
        invariant Valid()
        invariant RemoveAll(sessions, View(), tid) == RemoveAll(sessions, old(View()), tid)
        decreases ToRemove(View(), tid)
      {
        RemoveShrinks(sessions, View(), tid);
        RemoveMapping(tid);
      }
    }

    method RemoveMapping(tid: nat)
      requires Valid() && tid in rel && rel[tid].pc.Removing?
      modifies `rel, reverse
      ensures Valid() && View() == Next(sessions, old(View()), RemoveReverse(tid))
    {
      var r := rel[tid];
      if r.pc.ms == [] {
        MoveRelease(tid, r.(pc := Freeing));
      } else {
        RemoveReference(r.pc.ms[0].outside);
        MoveRelease(tid, r.(pc := Removing(r.pc.ms[1..])));
      }
    }

    /** Looks the session up under its lock. */
    method BeginRelease(sid: string, tid: nat) returns (found: bool)
      requires Valid() && sid in sessions && tid !in rel
      modifies `rel
      ensures Valid() && View() == Next(sessions, old(View()), Event.Release(sid, tid))
      ensures found <==> sid in old(sessionPool)
      ensures found ==> tid in rel && rel[tid].sid == sid && rel[tid].pc.Started?
    {
      if sid !in sessionPool {
        return false;
      }
      MoveRelease(tid, Rel(sid, sessionPool[sid], Started));
      found := true;
    }

    method ReadMappings(tid: nat)
      requires Valid() && tid in rel && rel[tid].sid in sessions && rel[tid].pc.Started?
      modifies `rel
      ensures Valid() && View() == Next(sessions, old(View()), Event.GetMappings(tid))
      ensures tid in rel && rel[tid].sid == old(rel[tid].sid)
      ensures rel[tid].pc.Removing? || rel[tid].pc.Forgetting?
    {
      var r := rel[tid];
      ghost var s := View();
      var ms := AskMappings(r.pool, sessions[r.sid].key);
      pm.Untouched();
      ReadStep(sessions, s, tid, ms);
      MoveRelease(tid, r.(pc := if ms == [] then Forgetting else Removing(ms)));
    }

    method FreeHeld(tid: nat)
      requires Valid() && tid in rel && rel[tid].sid in sessions
      requires rel[tid].pc.Freeing? || rel[tid].pc.Forgetting?
      modifies `rel, pm.Objects()
      ensures Valid() && View() == Next(sessions, old(View()), Event.FreeBlocks(tid))
      ensures tid in rel && rel[tid].pc.Forgetting?
    {
      var r := rel[tid];
      if r.pc.Freeing? {
        FreePool(r.pool, sessions[r.sid].key);
        MoveRelease(tid, r.(pc := Forgetting));
      }
    }

    method ForgetSession(tid: nat)
      requires Valid() && tid in rel && rel[tid].pc.Forgetting?
      modifies `sessionPool, `rel
      ensures Valid() && View() == Next(sessions, old(View()), Forget(tid))
    {
      sessionPool, rel := sessionPool - {rel[tid].sid}, rel - {tid};
      pm.Untouched();
    }

    method HandleRelease(sid: string, tid: nat)
      requires Valid() && sid in sessions && tid !in rel
      modifies this, reverse, pm.Objects()
      ensures Valid() && View() == ReleaseAlone(sessions, old(View()), sid, tid)
      ensures sessionPool == old(sessionPool) - {sid} && rel == old(rel) && act == old(act)
      ensures old(SafeState(sessions, View())) ==> SafeState(sessions, View())
    {
      ReleaseForgets(sessions, View(), sid, tid);
      if SafeState(sessions, View()) {
        ReleaseAloneSafe(sessions, View(), sid, tid);
      }
      ReleaseSteps(sid, tid);
    }

    method ReleaseSteps(sid: string, tid: nat)
      requires Valid() && sid in sessions && tid !in rel
      modifies this, reverse, pm.Objects()
      ensures Valid() && View() == ReleaseAlone(sessions, old(View()), sid, tid)
    {
      var found := BeginRelease(sid, tid);
      if !found {
        NothingToRelease(sessions, View(), sid, tid);
        return;
      }
      ReadMappings(tid);
      RemoveAllEnds(sessions, View(), tid, ToRemove(View(), tid));
      RemoveMappings(tid);
      FreeHeld(tid);
      ForgetSession(tid);
    }
  }

  lemma ReadStep(c: Sessions, s: State, tid: nat, ms: seq<Mapping>)
    requires ValidPools(s.pools) && tid in s.rel && s.rel[tid].pc.Started? && s.rel[tid].sid in c
    requires ms == MappingsFor(s, s.rel[tid].pool, c[s.rel[tid].sid].key)
    ensures Next(c, s, Event.GetMappings(tid))
         == s.(rel := s.rel[tid := s.rel[tid].(pc := if ms == [] then Forgetting else Removing(ms))])
  {
  }

  lemma GetBlockStep(c: Sessions, s: State, mid: State, sid: string, r: Result<Got>)
    requires ValidPools(s.pools) && sid in c && sid in s.act && s.act[sid].Begun?
    requires if c[sid].pool in s.pools then TookBlock(s, mid, c[sid], r) else r.Err? && mid == s
    ensures var act := if r.Err? then Finishing
                       else if r.value.isNew then Calling(r.value.mapping) else Committing(r.value.mapping);
            Next(c, s, GetBlock(sid)) == mid.(act := s.act[sid := act])
  {
  }

  /** What handleSessionActivate goes on to do with its slot won and its block asked for. */
  lemma ActivatedIs(c: Sessions, s: State, s1: State, sid: string)
    requires ValidPools(s.pools) && sid in c && sid !in s.sessionPool && sid !in s.activations
    requires s1 == Next(c, Next(c, s, Activate(sid)), GetBlock(sid)) && sid in s1.act
    ensures s1.act[sid].Calling? ==> Activated(c, s, sid) == s1
    ensures s1.act[sid].Committing? ==> Activated(c, s, sid) == Committed(c, s1, sid)
    ensures s1.act[sid].Finishing? ==> Activated(c, s, sid) == Next(c, s1, Done(sid))
  {
  }

  lemma ActivateOrNot(c: Sessions, s: State, sid: string)
    requires ValidPools(s.pools) && sid in c
    ensures sid in s.sessionPool || sid in s.activations ==> Activated(c, s, sid) == s
    ensures sid !in s.sessionPool && sid !in s.activations ==>
              Next(c, s, Activate(sid)) == s.(activations := s.activations + {sid}, act := s.act[sid := Begun])
  {
  }
}
