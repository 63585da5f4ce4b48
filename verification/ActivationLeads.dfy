/** Continuations of the activation protocol: runs without further activations, and the work of
    one session's handlers. */
module ActivationLeads {
  import opened PoolModel
  import opened PoolInvariant
  import Snapshot
  import opened Activation
  import opened ActivationSafety

  // ---------------------------------------------------------------- continuations

  /** A run without further activations leads from s to t. */
  ghost predicate Leads(c: Sessions, s: State, t: State)
    requires ValidPools(s.pools)
  {
    exists es :: NoActivation(es) && Activation.Run(c, s, es) == t
  }

  predicate NoActivation(es: seq<Event>) {
    forall i :: 0 <= i < |es| ==> !es[i].Activate?
  }

  lemma LeadsNowhere(c: Sessions, s: State)
    requires ValidPools(s.pools)
    ensures Leads(c, s, s)
  {
    assert NoActivation([]) && Activation.Run(c, s, []) == s;
  }

  lemma LeadsOn(c: Sessions, s: State, t: State, e: Event)
    requires ValidPools(s.pools) && ValidPools(t.pools) && Leads(c, s, t) && !e.Activate?
    ensures Leads(c, s, Next(c, t, e))
  {
    var es :| NoActivation(es) && Activation.Run(c, s, es) == t;
    assert (es + [e])[..|es|] == es;
    assert NoActivation(es + [e]) && Activation.Run(c, s, es + [e]) == Next(c, t, e);
  }

  predicate Effective(c: Sessions, s: State, sid: string) {
    sid in c && sid !in s.sessionPool && sid !in s.activations
  }

  // What single steps do, without any invariant.

  lemma ActivateIs(c: Sessions, s: State, sid: string)
    requires ValidPools(s.pools) && Effective(c, s, sid)
    ensures Next(c, s, Activate(sid)) == s.(activations := s.activations + {sid}, act := s.act[sid := Begun])
  {
  }

  lemma CallbackIs(c: Sessions, s: State, sid: string, ok: bool)
    requires ValidPools(s.pools) && sid in s.act && s.act[sid].Calling?
    ensures Next(c, s, Callback(sid, ok)) == s.(act := s.act[sid := if ok then Committing(s.act[sid].m) else Failed])
  {
  }

  lemma CommitIs(c: Sessions, s: State, sid: string)
    requires ValidPools(s.pools) && sid in c && sid in s.act && s.act[sid].Committing?
    ensures Next(c, s, Commit(sid))
         == s.(sessionPool := s.sessionPool[sid := c[sid].pool], act := s.act[sid := Indexing(s.act[sid].m)])
  {
  }

  lemma ReleaseIs(c: Sessions, s: State, sid: string, tid: nat)
    requires ValidPools(s.pools) && sid in c && sid in s.sessionPool && tid !in s.rel
    ensures Next(c, s, Event.Release(sid, tid)) == s.(rel := s.rel[tid := Rel(sid, s.sessionPool[sid], Started)])
  {
  }

  lemma ForgetIs(c: Sessions, s: State, tid: nat)
    requires ValidPools(s.pools) && tid in s.rel && s.rel[tid].pc.Forgetting?
    ensures Next(c, s, Forget(tid)) == s.(sessionPool := s.sessionPool - {s.rel[tid].sid}, rel := s.rel - {tid})
  {
  }

  // ---------------------------------------------------------------- the pools' addresses

  /** The pools differ in their bitmaps and tables only. */
  ghost predicate SameAddresses(pools: map<string, Pool>, pools': map<string, Pool>) {
    && pools'.Keys == pools.Keys
    && forall n :: n in pools ==> SameIPs(pools[n].addrs, pools'[n].addrs) && pools'[n].cfg == pools[n].cfg
  }

  lemma OnePoolAddresses(pools: map<string, Pool>, n: string, op: Op)
    requires PoolsInv(pools) && n in pools && !op.OpRestore?
    ensures SameAddresses(pools, pools[n := Step(pools[n], op)])
  {
    Snapshot.StepSameIPs(pools[n], op);
  }

  lemma NextAddresses(c: Sessions, s: State, e: Event)
    requires PoolsInv(s.pools)
    ensures SameAddresses(s.pools, Next(c, s, e).pools)
  {
    var n, op := NextPoolStep(c, s, e);
    if n in s.pools {
      OnePoolAddresses(s.pools, n, op);
    }
  }

  lemma AddressesAdd(a: map<string, Pool>, b: map<string, Pool>, d: map<string, Pool>)
    requires SameAddresses(a, b) && SameAddresses(b, d)
    ensures SameAddresses(a, d)
  {
  }

  ghost predicate KeepsPools(pools: map<string, Pool>, pools': map<string, Pool>) {
    PoolsInv(pools') && SameAddresses(pools, pools')
  }

  lemma KeepsAtFirst(pools: map<string, Pool>)
    requires PoolsInv(pools)
    ensures KeepsPools(pools, pools)
  {
  }

  lemma StepKeeps(c: Sessions, pools: map<string, Pool>, t: State, e: Event)
    requires ValidPools(t.pools) && KeepsPools(pools, t.pools)
    ensures KeepsPools(pools, Next(c, t, e).pools)
  {
    NextPools(c, t, e);
    NextAddresses(c, t, e);
    AddressesAdd(pools, t.pools, Next(c, t, e).pools);
  }

  /** Every run keeps the pools valid and their addresses the same. */
  lemma {:induction false} RunKeepsPools(c: Sessions, s: State, es: seq<Event>)
    requires ValidPools(s.pools) && KeepsPools(s.pools, s.pools)
    ensures KeepsPools(s.pools, Activation.Run(c, s, es).pools)
  {
    if es != [] {
      RunKeepsPools(c, s, es[..|es| - 1]);
      StepKeeps(c, s.pools, Activation.Run(c, s, es[..|es| - 1]), es[|es| - 1]);
    }
  }

  // ---------------------------------------------------------------- the work of one session

  /** Steps of x's activation, and of releases. */
  predicate WorkOf(e: Event, x: string) {
    match e
    case Callback(sid, _) => sid == x
    case RollBack(sid) => sid == x
    case Commit(sid) => sid == x
    case Release(sid, _) => sid == x
    case GetMappings(_) => true
    case RemoveReverse(_) => true
    case FreeBlocks(_) => true
    case _ => false
  }

  predicate AllWorkOf(es: seq<Event>, x: string) {
    forall i :: 0 <= i < |es| ==> WorkOf(es[i], x)
  }

  /** Handlers of x lead from s to t, and nothing changes but x and its table entry. */
  ghost predicate Works(c: Sessions, s: State, t: State, x: string)
    requires ValidPools(s.pools)
  {
    OneSessionChanged(c, s, t, x) && exists es :: AllWorkOf(es, x) && Activation.Run(c, s, es) == t
  }

  lemma WorksNot(c: Sessions, s: State, x: string)
    requires ValidPools(s.pools) && x in c
    ensures Works(c, s, s, x)
  {
    SamePools(s.pools, c[x]);
    assert AllWorkOf([], x) && Activation.Run(c, s, []) == s;
  }

  lemma ChangesAdd(c: Sessions, s: State, t: State, u: State, x: string)
    requires OneSessionChanged(c, s, t, x) && OneSessionChanged(c, t, u, x)
    ensures OneSessionChanged(c, s, u, x)
  {
    assert forall tid, y :: y != x ==> (Releasing(u, y, tid) <==> Releasing(t, y, tid));
    assert forall tid :: tid in s.rel && s.rel[tid].sid != x ==> tid in t.rel && t.rel[tid] == s.rel[tid];
  }

  lemma WorksOn(c: Sessions, s: State, t: State, x: string, e: Event)
    requires ValidPools(s.pools) && ValidPools(t.pools) && Works(c, s, t, x) && WorkOf(e, x)
    requires OneSessionChanged(c, t, Next(c, t, e), x)
    ensures Works(c, s, Next(c, t, e), x)
  {
    ChangesAdd(c, s, t, Next(c, t, e), x);
    var es :| AllWorkOf(es, x) && Activation.Run(c, s, es) == t;
    assert (es + [e])[..|es|] == es;
    assert AllWorkOf(es + [e], x) && Activation.Run(c, s, es + [e]) == Next(c, t, e);
  }

  lemma {:induction false} RunThen(c: Sessions, s: State, a: seq<Event>, b: seq<Event>)
    requires ValidPools(s.pools)
    ensures Activation.Run(c, s, a + b) == Activation.Run(c, Activation.Run(c, s, a), b)
    decreases |b|
  {
    if b == [] {
      assert a + b == a;
    } else {
      var front := b[..|b| - 1];
      assert (a + b)[..|a + b| - 1] == a + front;
      RunThen(c, s, a, front);
    }
  }

  lemma LeadsThenWorks(c: Sessions, s: State, t: State, u: State, x: string)
    requires ValidPools(s.pools) && ValidPools(t.pools) && Leads(c, s, t) && Works(c, t, u, x)
    ensures Leads(c, s, u)
  {
    var a :| NoActivation(a) && Activation.Run(c, s, a) == t;
    var b :| AllWorkOf(b, x) && Activation.Run(c, t, b) == u;
    RunThen(c, s, a, b);
    assert NoActivation(a + b);
  }

  // ---------------------------------------------------------------- a release runs on

  lemma {:induction false} DrainRemovals(c: Sessions, s: State, t: State, tid: nat) returns (u: State)
    requires ValidPools(s.pools) && ValidPools(t.pools)
    requires tid in t.rel && t.rel[tid].pc.Removing? && Works(c, s, t, t.rel[tid].sid)
    ensures Works(c, s, u, t.rel[tid].sid) && u.pools == t.pools && u.act == t.act && u.sessionPool == t.sessionPool
    ensures tid in u.rel && u.rel[tid] == t.rel[tid].(pc := Freeing)
    decreases |t.rel[tid].pc.ms|
  {
    var next := Next(c, t, RemoveReverse(tid));
    RelShape(c, t, next, tid, next.rel[tid]);
    WorksOn(c, s, t, t.rel[tid].sid, RemoveReverse(tid));
    if t.rel[tid].pc.ms == [] {
      u := next;
    } else {
      u := DrainRemovals(c, s, next, tid);
    }
  }

  /** Whatever is in its slot, a release that has not freed yet goes on to empty it. */
  lemma RunsOn(c: Sessions, t: State, tid: nat) returns (u: State)
    requires PoolsInv(t.pools) && tid in t.rel && RelOk(c, t, tid)
    requires !t.rel[tid].pc.Forgetting? && OneBlock(t.pools, c[t.rel[tid].sid])
    ensures Works(c, t, u, t.rel[tid].sid)
    ensures u.act == t.act && u.sessionPool == t.sessionPool && !InTable(u.pools, c[t.rel[tid].sid])
  {
    u := t;
    WorksNot(c, t, t.rel[tid].sid);
    if u.rel[tid].pc.Started? {
      GetMappingsIs(c, u, tid);
      RelShape(c, u, Next(c, u, GetMappings(tid)), tid, Next(c, u, GetMappings(tid)).rel[tid]);
      WorksOn(c, t, u, t.rel[tid].sid, GetMappings(tid));
      u := Next(c, u, GetMappings(tid));
    }
    if u.rel[tid].pc.Removing? {
      u := DrainRemovals(c, t, u, tid);
    }
    FreeBlocksEffect(c, u, tid);
    FreeShape(c, u, Next(c, u, Event.FreeBlocks(tid)), tid);
    WorksOn(c, t, u, t.rel[tid].sid, Event.FreeBlocks(tid));
    u := Next(c, u, Event.FreeBlocks(tid));
  }

  lemma {:induction false} UnusedTid(used: set<nat>) returns (tid: nat)
    ensures forall t :: t in used ==> t < tid
  {
    if used == {} {
      tid := 0;
    } else {
      var t :| t in used;
      var rest := UnusedTid(used - {t});
      tid := if t < rest then rest else t + 1;
      assert forall x :: x in used ==> x == t || x in used - {t};
    }
  }
}
