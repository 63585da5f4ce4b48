/** A full pool gets room again when the handlers of a session that holds one of its blocks run on. */
module ActivationRoom {
  import opened Bitmap
  import opened PoolModel
  import opened PoolInvariant
  import opened PoolLaws
  import opened Activation
  import opened ActivationSafety
  import opened ActivationRuns
  import opened ActivationLeads

  /** There is a block for the session to take. */
  ghost predicate Room(c: Sessions, s: State, sid: string)
    requires sid in c
  {
    c[sid].pool in s.pools && (InTable(s.pools, c[sid]) || !Exhausted(s.pools[c[sid].pool].addrs))
  }

  /** The pool has a block to give at all. */
  predicate CanServe(p: Pool) {
    exists i :: 0 <= i < |p.addrs| && !p.addrs[i].excluded && p.addrs[i].total > 0
  }

  /** Some time or other there is a block for the session. */
  predicate Servable(c: Sessions, s: State, sid: string)
    requires sid in c
  {
    c[sid].pool in s.pools && (InTable(s.pools, c[sid]) || CanServe(s.pools[c[sid].pool]))
  }

  lemma EntryIsOneBlock(c: Sessions, s: State, sid: string)
    requires PhasesOk(c, s) && sid in c && InTable(s.pools, c[sid])
    ensures OneBlock(s.pools, c[sid])
  {
    var x :| x in c && c[x].pool == c[sid].pool && c[x].key == c[sid].key && Owed(s, x);
    assert SessionOk(c, s, x);
  }

  // ---------------------------------------------------------------- the pool

  /** In a full pool somebody holds block 0 of a usable address. */
  lemma FullIsHeld(p: Pool, i: nat) returns (key: Key)
    requires Inv(p) && i < |p.addrs| && !p.addrs[i].excluded && p.addrs[i].total > 0 && Exhausted(p.addrs)
    ensures HeldBy(p, key, BlockAt(p.cfg, p.addrs[i].ip, 0)) && AddrIndex(p.addrs, p.addrs[i].ip) == i
  {
    BitIffOneOwner(p, i, 0);
    assert Taken(p.addrs[i].words, 0);
    key :| Holds(p.subs, key, BlockAt(p.cfg, p.addrs[i].ip, 0));
  }

  /** Once that subscriber is gone the pool is not full. */
  lemma FreedIsFree(p: Pool, q: Pool, i: nat, key: Key)
    requires Inv(p) && Inv(q) && q.cfg == p.cfg && SameIPs(p.addrs, q.addrs) && OneEntryChanged(p, q, key)
    requires i < |p.addrs| && !p.addrs[i].excluded && p.addrs[i].total > 0
    requires HeldBy(p, key, BlockAt(p.cfg, p.addrs[i].ip, 0)) && key !in q.subs
    ensures !Exhausted(q.addrs)
  {
    var b := BlockAt(p.cfg, p.addrs[i].ip, 0);
    forall k
      ensures !Holds(q.subs, k, b)
    {
      assert Holds(q.subs, k, b) ==> HeldBy(p, k, b);
    }
    assert !SomeoneHolds(q.subs, b);
    assert q.addrs[i].total == p.addrs[i].total;
    BitIffOneOwner(q, i, 0);
    assert !Full(q.addrs[i].words, q.addrs[i].total);
  }

  // ---------------------------------------------------------------- a session gives up its block

  lemma ReleasesCommitted(c: Sessions, s: State, x: string) returns (t: State)
    requires PoolsInv(s.pools) && x in c && x in s.sessionPool && s.sessionPool[x] == c[x].pool
    requires OneBlock(s.pools, c[x])
    ensures Works(c, s, t, x) && !InTable(t.pools, c[x])
  {
    var tid := UnusedTid(s.rel.Keys);
    var u := Next(c, s, Event.Release(x, tid));
    ReleaseIs(c, s, x, tid);
    RelShape(c, s, u, tid, u.rel[tid]);
    WorksNot(c, s, x);
    WorksOn(c, s, s, x, Event.Release(x, tid));
    t := RunsOn(c, u, tid);
    WorksJoin(c, s, u, t, x);
  }

  lemma WorksJoin(c: Sessions, s: State, t: State, u: State, x: string)
    requires ValidPools(s.pools) && ValidPools(t.pools) && Works(c, s, t, x) && Works(c, t, u, x)
    ensures Works(c, s, u, x)
  {
    ChangesAdd(c, s, t, u, x);
    var a :| AllWorkOf(a, x) && Activation.Run(c, s, a) == t;
    var b :| AllWorkOf(b, x) && Activation.Run(c, t, b) == u;
    RunThen(c, s, a, b);
    assert AllWorkOf(a + b, x);
  }

  lemma RollsBack(c: Sessions, s: State, x: string) returns (t: State)
    requires PoolsInv(s.pools) && x in c && x in s.act && s.act[x].Failed?
    ensures Works(c, s, t, x) && !InTable(t.pools, c[x])
  {
    t := Next(c, s, RollBack(x));
    RollBackEffect(c, s, x);
    MoveShape(c, s, t, x);
    WorksNot(c, s, x);
    WorksOn(c, s, s, x, RollBack(x));
  }

  lemma FailsAndRollsBack(c: Sessions, s: State, x: string) returns (t: State)
    requires PoolsInv(s.pools) && x in c && x in s.act && s.act[x].Calling?
    ensures Works(c, s, t, x) && !InTable(t.pools, c[x])
  {
    var u := Next(c, s, Callback(x, false));
    CallbackIs(c, s, x, false);
    ActShape(c, s, u, x, Failed);
    WorksNot(c, s, x);
    WorksOn(c, s, s, x, Callback(x, false));
    t := RollsBack(c, u, x);
    WorksJoin(c, s, u, t, x);
  }

  lemma CommitsAndReleases(c: Sessions, s: State, x: string) returns (t: State)
    requires PoolsInv(s.pools) && x in c && x in s.act && s.act[x].Committing? && OneBlock(s.pools, c[x])
    ensures Works(c, s, t, x) && !InTable(t.pools, c[x])
  {
    var u := Next(c, s, Commit(x));
    CommitIs(c, s, x);
    CommitShape(c, s, u, x, u.act[x]);
    WorksNot(c, s, x);
    WorksOn(c, s, s, x, Commit(x));
    t := ReleasesCommitted(c, u, x);
    WorksJoin(c, s, u, t, x);
  }

  /** Whatever its phase, a session that is owed a block can give it up. */
  lemma GivesUp(c: Sessions, s: State, x: string) returns (t: State)
    requires SafeState(c, s) && x in c && Owed(s, x)
    ensures Works(c, s, t, x) && !InTable(t.pools, c[x])
  {
    assert SessionOk(c, s, x);
    if x in s.sessionPool {
      t := ReleasesCommitted(c, s, x);
    } else if s.act[x].Calling? {
      t := FailsAndRollsBack(c, s, x);
    } else if s.act[x].Failed? {
      t := RollsBack(c, s, x);
    } else {
      t := CommitsAndReleases(c, s, x);
    }
  }

  // ---------------------------------------------------------------- room for a session

  /** What the protocol knows about sid and about its slot is the same in t. */
  ghost predicate SlotKept(c: Sessions, s: State, t: State, sid: string) {
    && (sid in t.act <==> sid in s.act) && (sid in s.act ==> t.act[sid] == s.act[sid])
    && (Effective(c, t, sid) <==> Effective(c, s, sid))
    && (NotReleasing(t, sid) <==> NotReleasing(s, sid))
    && (Alone(c, t, sid) <==> Alone(c, s, sid))
  }

  lemma OtherSlotWorks(c: Sessions, s: State, t: State, sid: string, x: string)
    requires sid in c && OneSessionChanged(c, s, t, x) && !SameSlot(c, sid, x)
    ensures SlotKept(c, s, t, sid)
  {
    OtherPhasesKept(c, s, t, x, sid);
    forall y | y != sid && SameSlot(c, sid, y)
      ensures Claims(t, y) <==> Claims(s, y)
    {
      OtherPhasesKept(c, s, t, x, y);
    }
  }

  /** Another session's handlers lead to a safe state t that knows the same about sid. */
  ghost predicate MovesAside(c: Sessions, s: State, t: State, sid: string)
    requires ValidPools(s.pools)
  {
    && SafeState(c, t) && SlotKept(c, s, t, sid)
    && exists x, es :: x != sid && AllWorkOf(es, x) && Activation.Run(c, s, es) == t
  }

  lemma WorksIsSafe(c: Sessions, s: State, t: State, x: string)
    requires SafeState(c, s) && Works(c, s, t, x)
    ensures SafeState(c, t) && SameAddresses(s.pools, t.pools)
  {
    var es :| AllWorkOf(es, x) && Activation.Run(c, s, es) == t;
    assert SoundRun(c, s, es);
    RunSafe(c, s, es);
    KeepsAtFirst(s.pools);
    RunKeepsPools(c, s, es);
  }

  /** Whoever holds block 0 of a usable address can make room. */
  lemma HolderGivesUp(c: Sessions, s: State, sid: string) returns (t: State)
    requires SafeState(c, s) && sid in c && Servable(c, s, sid) && !Room(c, s, sid)
    ensures Room(c, t, sid) && MovesAside(c, s, t, sid)
  {
    var n := c[sid].pool;
    var p := s.pools[n];
    var i :| 0 <= i < |p.addrs| && !p.addrs[i].excluded && p.addrs[i].total > 0;
    var key := FullIsHeld(p, i);
    var x :| x in c && c[x].pool == n && c[x].key == key && Owed(s, x);
    t := GivesUp(c, s, x);
    OtherSlotWorks(c, s, t, sid, x);
    WorksIsSafe(c, s, t, x);
    FreedIsFree(p, t.pools[n], i, key);
  }

  lemma MakesRoom(c: Sessions, s: State, sid: string) returns (t: State)
    requires SafeState(c, s) && sid in c && Servable(c, s, sid)
    ensures Room(c, t, sid) && MovesAside(c, s, t, sid)
  {
    if Room(c, s, sid) {
      t := s;
      assert AllWorkOf([], sid + "x") && Activation.Run(c, s, []) == s;
      assert |sid + "x"| != |sid|;
    } else {
      t := HolderGivesUp(c, s, sid);
    }
  }

  // ---------------------------------------------------------------- and an activation begun meanwhile

  function Begin(s: State, sid: string): State {
    s.(activations := s.activations + {sid}, act := s.act[sid := Begun])
  }

  lemma SwapActs(act: map<string, Act>, sid: string, a: Act, x: string, b: Act)
    requires x != sid
    ensures act[sid := a][x := b] == act[x := b][sid := a]
  {
  }

  /** Moving x and perhaps more, but not sid. */
  lemma MoveCommutes(s: State, t: State, sid: string, x: string, a: Act)
    requires x != sid && t.act == s.act[x := a] && t.activations == s.activations
    ensures Begin(t, sid) == t.(activations := s.activations + {sid}, act := s.act[sid := Begun][x := a])
  {
    SwapActs(s.act, sid, Begun, x, a);
  }

  lemma CallbackCommutes(c: Sessions, s: State, ok: bool, sid: string, x: string)
    requires ValidPools(s.pools) && x != sid
    ensures Next(c, Begin(s, sid), Callback(x, ok)) == Begin(Next(c, s, Callback(x, ok)), sid)
  {
    if x in s.act && s.act[x].Calling? {
      CallbackIs(c, s, x, ok);
      CallbackIs(c, Begin(s, sid), x, ok);
      MoveCommutes(s, Next(c, s, Callback(x, ok)), sid, x, if ok then Committing(s.act[x].m) else Failed);
    }
  }

  lemma RollBackCommutes(c: Sessions, s: State, sid: string, x: string)
    requires ValidPools(s.pools) && x != sid
    ensures Next(c, Begin(s, sid), RollBack(x)) == Begin(Next(c, s, RollBack(x)), sid)
  {
    if x in s.act && x in c && s.act[x].Failed? {
      MoveCommutes(s, Next(c, s, RollBack(x)), sid, x, Finishing);
    }
  }

  lemma CommitCommutes(c: Sessions, s: State, sid: string, x: string)
    requires ValidPools(s.pools) && x != sid
    ensures Next(c, Begin(s, sid), Commit(x)) == Begin(Next(c, s, Commit(x)), sid)
  {
    if x in s.act && x in c && s.act[x].Committing? {
      CommitIs(c, s, x);
      CommitIs(c, Begin(s, sid), x);
      MoveCommutes(s, Next(c, s, Commit(x)), sid, x, Indexing(s.act[x].m));
    }
  }

  lemma ReleaseCommutes(c: Sessions, s: State, e: Event, sid: string)
    requires ValidPools(s.pools) && e.Release?
    ensures Next(c, Begin(s, sid), e) == Begin(Next(c, s, e), sid)
  {
  }

  lemma ReadCommutes(c: Sessions, s: State, e: Event, sid: string)
    requires ValidPools(s.pools) && e.GetMappings?
    ensures Next(c, Begin(s, sid), e) == Begin(Next(c, s, e), sid)
  {
  }

  lemma FreeCommutes(c: Sessions, s: State, e: Event, sid: string)
    requires ValidPools(s.pools) && e.FreeBlocks?
    ensures Next(c, Begin(s, sid), e) == Begin(Next(c, s, e), sid)
  {
  }

  lemma RemoveCommutes(c: Sessions, s: State, e: Event, sid: string)
    requires ValidPools(s.pools) && e.RemoveReverse?
    ensures Next(c, Begin(s, sid), e) == Begin(Next(c, s, e), sid)
  {
  }

  lemma WorkCommutes(c: Sessions, s: State, e: Event, sid: string, x: string)
    requires ValidPools(s.pools) && x != sid && WorkOf(e, x)
    ensures Next(c, Begin(s, sid), e) == Begin(Next(c, s, e), sid)
  {
    match e
    case Callback(_, ok) => CallbackCommutes(c, s, ok, sid, x);
    case RollBack(_) => RollBackCommutes(c, s, sid, x);
    case Commit(_) => CommitCommutes(c, s, sid, x);
    case Release(_, _) => ReleaseCommutes(c, s, e, sid);
    case GetMappings(_) => ReadCommutes(c, s, e, sid);
    case RemoveReverse(_) => RemoveCommutes(c, s, e, sid);
    case FreeBlocks(_) => FreeCommutes(c, s, e, sid);
  }

  lemma {:induction false} WorkRunCommutes(c: Sessions, s: State, es: seq<Event>, sid: string, x: string)
    requires ValidPools(s.pools) && x != sid && AllWorkOf(es, x)
    ensures Activation.Run(c, Begin(s, sid), es) == Begin(Activation.Run(c, s, es), sid)
  {
    if es != [] {
      var front := es[..|es| - 1];
      WorkRunCommutes(c, s, front, sid, x);
      WorkCommutes(c, Activation.Run(c, s, front), es[|front|], sid, x);
    }
  }

  lemma MovesAsideBegun(c: Sessions, s: State, t: State, sid: string)
    requires ValidPools(s.pools) && MovesAside(c, s, t, sid)
    ensures Leads(c, Begin(s, sid), Begin(t, sid))
  {
    var x, es :| x != sid && AllWorkOf(es, x) && Activation.Run(c, s, es) == t;
    WorkRunCommutes(c, s, es, sid, x);
    assert NoActivation(es);
  }
}
