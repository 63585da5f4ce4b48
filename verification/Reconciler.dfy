/** reconcileWith as it runs: against a dataplane whose every call may fail, over plans and
    children in whatever order the maps give them. */
module Reconciler {
  import opened Optional
  import opened Reconcile

  /** The dataplane: its state, the mutations it carried out, and which calls fail. */
  class Dataplane {
    var state: Dp
    var log: seq<Mutation>
    var calls: nat
    const fails: nat -> bool

    constructor (initial: Dp, failing: nat -> bool)
      ensures state == initial && log == [] && calls == 0 && fails == failing
    {
      state, log, calls, fails := initial, [], 0, failing;
    }

    ghost predicate Reliable() {
      forall n :: !fails(n)
    }

    method Call() returns (ok: bool)
      modifies `calls
      ensures Reliable() ==> ok
    {
      ok := !fails(calls);
      calls := calls + 1;
    }

    method AddPool(id: PoolID, hard: Hard, soft: Soft) returns (ok: bool)
      modifies this
      ensures Reliable() ==> ok
      ensures ok ==> state == AddedPool(old(state), id, hard, soft) && log == old(log) + [PoolAdd(id, hard)]
      ensures !ok ==> state == old(state) && log == old(log)
    {
      ok := Call();
      if ok {
        state, log := AddedPool(state, id, hard, soft), log + [PoolAdd(id, hard)];
      }
    }

    method DelPool(id: PoolID) returns (ok: bool)
      modifies this
      ensures Reliable() ==> ok
      ensures ok ==> state == DeletedPool(old(state), id) && log == old(log) + [PoolDel(id)]
      ensures !ok ==> state == old(state) && log == old(log)
    {
      ok := Call();
      if ok {
        state, log := DeletedPool(state, id), log + [PoolDel(id)];
      }
    }

    method AddChild(k: Child) returns (ok: bool)
      modifies this
      ensures Reliable() ==> ok
      ensures ok ==> state == old(state).(children := old(state).children + {k}) && log == old(log) + [ChildAdd(k)]
      ensures !ok ==> state == old(state) && log == old(log)
    {
      ok := Call();
      if ok {
        state, log := state.(children := state.children + {k}), log + [ChildAdd(k)];
      }
    }

    /** Deleting an absent child answers "no such entry" and changes nothing. */
    method DelChild(k: Child) returns (ok: bool, noSuchEntry: bool)
      modifies this
      ensures Reliable() ==> ok || noSuchEntry
      ensures ok ==> k in old(state).children && state == old(state).(children := old(state).children - {k})
      ensures ok ==> log == old(log) + [ChildDel(k)]
      ensures !ok ==> state == old(state) && log == old(log)
      ensures noSuchEntry ==> !ok && k !in state.children
    {
      ok := Call();
      noSuchEntry := ok && k !in state.children;
      if noSuchEntry {
        ok := false;
      } else if ok {
        state, log := state.(children := state.children - {k}), log + [ChildDel(k)];
      }
    }
  }

  // ---------------------------------------------------------------- planning

  lemma OnePlanMore(plans: seq<Plan>, want: map<PoolID, PoolCfg>, pools: map<PoolID, DpPool>, ids: set<PoolID>,
                    id: PoolID)
    requires PlansFor(plans, want, pools, ids) && id !in ids && (id in want || id in pools)
    ensures PlansFor(plans + [PlanFor(want, pools, id)], want, pools, ids + {id})
  {
    var more := plans + [PlanFor(want, pools, id)];
    forall x | x in ids + {id}
      ensures exists i :: 0 <= i < |more| && more[i].id == x
    {
      if x == id {
        assert more[|plans|].id == x;
      } else {
        var i :| 0 <= i < |plans| && plans[i].id == x;
        assert more[i].id == x;
      }
    }
  }

  lemma OneNameMore(plans: seq<Plan>, want: map<PoolID, PoolCfg>, pools: map<PoolID, DpPool>, id: PoolID, cfg: PoolCfg)
    requires PlansFor(plans, want, pools, want.Keys) && id !in want
    ensures PlansFor(plans, want[id := cfg], pools, want.Keys)
  {
  }

  /** seen and want record exactly the configured names outside todo. */
  ghost predicate Recorded(d: Desired, poolID: string -> PoolID, todo: set<string>, seen: map<PoolID, string>,
                           want: map<PoolID, PoolCfg>) {
    && (forall n :: n in Names(d) && n !in todo ==> poolID(n) in seen && seen[poolID(n)] == n)
    && (forall id :: id in seen ==> seen[id] in Names(d) && seen[id] !in todo && poolID(seen[id]) == id)
    && want.Keys == seen.Keys
    && (forall id :: id in seen ==> want[id] == d[seen[id]].value)
  }

  /** The plans for the configured pools; seen is None when two names hash to one ID. */
  method PlanWanted(d: Desired, poolID: string -> PoolID, pools: map<PoolID, DpPool>)
    returns (seen: Option<map<PoolID, string>>, plans: seq<Plan>)
    ensures seen.None? <==> !NoCollision(d, poolID)
    ensures seen.Some? ==> seen.value.Keys == Wanted(d, poolID).Keys
    ensures seen.Some? ==> PlansFor(plans, Wanted(d, poolID), pools, Wanted(d, poolID).Keys)
  {
    plans := [];
    var names: map<PoolID, string> := map[];
    ghost var want: map<PoolID, PoolCfg> := map[];
    var todo := d.Keys;
    while todo != {}
      invariant Recorded(d, poolID, todo, names, want)
      invariant PlansFor(plans, want, pools, want.Keys)
    {
      var name :| name in todo;
      todo := todo - {name};
      if name in d && d[name].Some? {
        var id, p := poolID(name), d[name].value;
        if id in names {
          assert names[id] in Names(d) && name in Names(d) && poolID(names[id]) == poolID(name);
          return None, [];
        }
        var action, active := Add, 0;
        if id in pools {
          active := pools[id].active;
          action :=
            if |DriftFields(pools[id].hard, p)| > 0 then Replace
            else if pools[id].soft != p.soft then SoftUpdate
            else Noop;
        }
        OneNameMore(plans, want, pools, id, p);
        OnePlanMore(plans, want[id := p], pools, want.Keys, id);
        assert want[id := p].Keys == want.Keys + {id};
        names, want := names[id := name], want[id := p];
        plans := plans + [Plan(id, action, active, Some(p))];
      }
    }
    WantedIs(d, poolID, names, want);
    seen := Some(names);
  }

  /** A drop plan for every present pool that is not wanted. */
  method PlanOrphans(wanted: seq<Plan>, seen: set<PoolID>, ghost want: map<PoolID, PoolCfg>, pools: map<PoolID, DpPool>)
    returns (plans: seq<Plan>)
    requires seen == want.Keys && PlansFor(wanted, want, pools, want.Keys)
    ensures PlansFor(plans, want, pools, want.Keys + pools.Keys)
  {
    plans := wanted;
    var ids := pools.Keys;
    ghost var done := want.Keys;
    while ids != {}
      invariant ids <= pools.Keys && done == want.Keys + (pools.Keys - ids)
      invariant PlansFor(plans, want, pools, done)
    {
      var id :| id in ids;
      ids := ids - {id};
      if id !in seen {
        OnePlanMore(plans, want, pools, done, id);
        plans, done := plans + [Plan(id, Drop, pools[id].active, None)], done + {id};
      }
    }
  }

  /** One plan per wanted or present pool; None when two names hash to one ID. */
  method BuildPlans(d: Desired, poolID: string -> PoolID, pools: map<PoolID, DpPool>) returns (r: Option<seq<Plan>>)
    ensures r.None? <==> !NoCollision(d, poolID)
    ensures r.Some? ==> PlansFor(r.value, Wanted(d, poolID), pools, Wanted(d, poolID).Keys + pools.Keys)
  {
    var seen, plans := PlanWanted(d, poolID, pools);
    if seen.None? {
      return None;
    }
    plans := PlanOrphans(plans, seen.value.Keys, Wanted(d, poolID), pools);
    r := Some(plans);
  }

  lemma WantedIs(d: Desired, poolID: string -> PoolID, seen: map<PoolID, string>, want: map<PoolID, PoolCfg>)
    requires Recorded(d, poolID, {}, seen, want)
    ensures NoCollision(d, poolID) && want == Wanted(d, poolID)
  {
    assert NoCollision(d, poolID);
    var w := Wanted(d, poolID);
    forall id
      ensures (id in w <==> id in want) && (id in w ==> w[id] == want[id])
    {
      if id in want {
        assert poolID(seen[id]) in w;
      }
      if id in w {
        var n :| n in Names(d) && poolID(n) == id;
      }
    }
  }

  // ---------------------------------------------------------------- preflight

  predicate PlanDisrupts(p: Plan, drop: bool) {
    p.active > 0 && (p.action == Replace || (p.action == Drop && drop))
  }

  /** hasActiveMappingsUnder. */
  method HasActive(plans: seq<Plan>, id: PoolID) returns (r: bool)
    ensures r <==> exists i :: 0 <= i < |plans| && plans[i].id == id && plans[i].active > 0
  {
    for i := 0 to |plans|
      invariant forall j :: 0 <= j < i ==> !(plans[j].id == id && plans[j].active > 0)
    {
      if plans[i].id == id && plans[i].active > 0 {
        return true;
      }
    }
    r := false;
  }

  lemma ActivePlan(plans: seq<Plan>, want: map<PoolID, PoolCfg>, pools: map<PoolID, DpPool>, id: PoolID)
    requires PlansFor(plans, want, pools, want.Keys + pools.Keys)
    ensures (exists i :: 0 <= i < |plans| && plans[i].id == id && plans[i].active > 0) <==> Active(pools, id)
  {
  }

  /** The pool would lose its mappings. */
  predicate LosesMappings(want: map<PoolID, PoolCfg>, pools: map<PoolID, DpPool>, drop: bool, id: PoolID) {
    Active(pools, id) && (Resets(want, pools, id) || (drop && id !in want))
  }

  lemma PlanDisruptsIff(want: map<PoolID, PoolCfg>, pools: map<PoolID, DpPool>, drop: bool, id: PoolID)
    requires id in want || id in pools
    ensures PlanDisrupts(PlanFor(want, pools, id), drop) <==> LosesMappings(want, pools, drop, id)
  {
  }

  /** Some plan disrupts exactly when a pool would lose its mappings. */
  lemma DisruptivePlan(plans: seq<Plan>, want: map<PoolID, PoolCfg>, pools: map<PoolID, DpPool>, drop: bool)
    requires PlansFor(plans, want, pools, want.Keys + pools.Keys)
    ensures (exists i :: 0 <= i < |plans| && PlanDisrupts(plans[i], drop)) <==>
              exists id :: LosesMappings(want, pools, drop, id)
  {
    if i :| 0 <= i < |plans| && PlanDisrupts(plans[i], drop) {
      PlanDisruptsIff(want, pools, drop, plans[i].id);
    }
    if id :| LosesMappings(want, pools, drop, id) {
      var i :| 0 <= i < |plans| && plans[i].id == id;
      PlanDisruptsIff(want, pools, drop, id);
    }
  }

  lemma WouldDisruptMeans(g: Goal, dp: Dp, drop: bool)
    ensures WouldDisrupt(g, dp, drop)
      <==> || (exists id :: LosesMappings(g.pools, dp.pools, drop, id))
           || (drop && exists k :: k in dp.children && k !in g.children && Active(dp.pools, k.pool))
  {
    if id :| LosesMappings(g.pools, dp.pools, drop, id) {
      assert Active(dp.pools, id) && (Resets(g.pools, dp.pools, id) || (drop && id !in g.pools));
    }
    if id :| Active(dp.pools, id) && (Resets(g.pools, dp.pools, id) || (drop && id !in g.pools)) {
      assert LosesMappings(g.pools, dp.pools, drop, id);
    }
  }

  method PlansDisrupt(plans: seq<Plan>, drop: bool) returns (r: bool)
    ensures r <==> exists i :: 0 <= i < |plans| && PlanDisrupts(plans[i], drop)
  {
    r := false;
    for i := 0 to |plans|
      invariant r <==> exists j :: 0 <= j < i && PlanDisrupts(plans[j], drop)
    {
      if PlanDisrupts(plans[i], drop) {
        r := true;
      }
    }
  }

  /** Some unwanted child belongs to a pool with mappings. */
  method ChildrenDisrupt(plans: seq<Plan>, wanted: set<Child>, actual: set<Child>, ghost want: map<PoolID, PoolCfg>,
                         ghost pools: map<PoolID, DpPool>)
    returns (r: bool)
    requires PlansFor(plans, want, pools, want.Keys + pools.Keys)
    ensures r <==> exists k :: k in actual && k !in wanted && Active(pools, k.pool)
  {
    r := false;
    var todo := actual;
    while todo != {}
      invariant todo <= actual
      invariant r <==> exists k :: k in actual - todo && k !in wanted && Active(pools, k.pool)
    {
      var k :| k in todo;
      if k !in wanted {
        var active := HasActive(plans, k.pool);
        ActivePlan(plans, want, pools, k.pool);
        r := r || active;
      }
      ghost var before := actual - todo;
      todo := todo - {k};
      assert actual - todo == before + {k};
    }
  }

  /** Refuses exactly when disruption is not allowed and the run would need some. */
  method Preflight(plans: seq<Plan>, g: Goal, dp: Dp, policy: Policy) returns (refused: bool)
    requires PlansFor(plans, g.pools, dp.pools, g.pools.Keys + dp.pools.Keys)
    ensures refused <==> !policy.allowDisruption && WouldDisrupt(g, dp, policy.dropOrphans)
  {
    if policy.allowDisruption {
      return false;
    }
    refused := PlansDisrupt(plans, policy.dropOrphans);
    DisruptivePlan(plans, g.pools, dp.pools, policy.dropOrphans);
    WouldDisruptMeans(g, dp, policy.dropOrphans);
    var children := ChildrenDisrupt(plans, g.children, dp.children, g.pools, dp.pools);
    refused := refused || (policy.dropOrphans && children);
  }

  // ---------------------------------------------------------------- apply

  function DoneIDs(plans: seq<Plan>): set<PoolID> {
    set i | 0 <= i < |plans| :: plans[i].id
  }

  /** One plan; a failed call leaves the dataplane where it was. */
  method ApplyPlan(dp: Dataplane, plan: Plan, drop: bool, ghost g: Goal, ghost dp0: Dp) returns (ok: bool)
    requires plan.id in g.pools || plan.id in dp0.pools
    requires plan == PlanFor(g.pools, dp0.pools, plan.id)
    modifies dp
    ensures dp.Reliable() ==> ok
    ensures ok ==> dp.state == Apply(g, dp0, drop, plan.id, old(dp.state))
    ensures !ok ==> dp.state == old(dp.state)
    ensures Extends(dp.log, old(dp.log), g, dp0, drop)
  {
    ok := true;
    match plan.action
    case Noop =>
    case Drop =>
      if drop {
        ok := dp.DelPool(plan.id);
      }
    case _ =>
      var p := plan.cfg.value;
      ok := dp.AddPool(plan.id, HardOf(p), p.soft);
  }

  lemma ExtendsFurther(c: seq<Mutation>, b: seq<Mutation>, a: seq<Mutation>, g: Goal, dp: Dp, drop: bool)
    requires Extends(c, b, g, dp, drop) && Extends(b, a, g, dp, drop)
    ensures Extends(c, a, g, dp, drop)
  {
  }

  /** The dataplane after the plans done so far, the log extended by planned mutations. */
  ghost predicate Midway(dp: Dataplane, log: seq<Mutation>, done: set<PoolID>, drop: bool, g: Goal, dp0: Dp)
    reads dp
  {
    dp.state == After(g, dp0, drop, done) && Extends(dp.log, log, g, dp0, drop)
  }

  method ApplyNext(dp: Dataplane, plans: seq<Plan>, i: nat, drop: bool, ghost g: Goal, ghost dp0: Dp,
                   ghost log: seq<Mutation>) returns (ok: bool)
    requires PlansFor(plans, g.pools, dp0.pools, g.pools.Keys + dp0.pools.Keys) && i < |plans|
    requires Midway(dp, log, DoneIDs(plans[..i]), drop, g, dp0)
    modifies dp
    ensures dp.Reliable() ==> ok
    ensures ok ==> Midway(dp, log, DoneIDs(plans[..i + 1]), drop, g, dp0)
    ensures Extends(dp.log, log, g, dp0, drop)
  {
    PlanAdvances(plans, i, g, dp0, drop);
    ok := ApplyPlan(dp, plans[i], drop, g, dp0);
    ExtendsFurther(dp.log, old(dp.log), log, g, dp0, drop);
  }

  /** Every plan in turn. */
  method ApplyPlans(dp: Dataplane, plans: seq<Plan>, drop: bool, ghost g: Goal, ghost dp0: Dp) returns (ok: bool)
    requires PlansFor(plans, g.pools, dp0.pools, g.pools.Keys + dp0.pools.Keys)
    requires dp.state == dp0
    modifies dp
    ensures dp.Reliable() ==> ok
    ensures ok ==> dp.state == Dp(TargetPools(g.pools, dp0.pools, drop),
                                  ChildrenAfter(g, dp0, drop, g.pools.Keys + dp0.pools.Keys))
    ensures Extends(dp.log, old(dp.log), g, dp0, drop)
  {
    NothingDone(g, dp0, drop);
    for i := 0 to |plans|
      invariant Midway(dp, old(dp.log), DoneIDs(plans[..i]), drop, g, dp0)
    {
      ok := ApplyNext(dp, plans, i, drop, g, dp0, old(dp.log));
      if !ok {
        return;
      }
    }
    ok := true;
    AllDone(plans, g, dp0);
    AllPlans(g, dp0, drop, g.pools.Keys + dp0.pools.Keys);
  }

  lemma NothingDone(g: Goal, dp: Dp, drop: bool)
    ensures After(g, dp, drop, {}) == dp
  {
  }

  lemma PlanAdvances(plans: seq<Plan>, i: nat, g: Goal, dp0: Dp, drop: bool)
    requires PlansFor(plans, g.pools, dp0.pools, g.pools.Keys + dp0.pools.Keys) && i < |plans|
    ensures plans[i].id in g.pools || plans[i].id in dp0.pools
    ensures plans[i] == PlanFor(g.pools, dp0.pools, plans[i].id)
    ensures Apply(g, dp0, drop, plans[i].id, After(g, dp0, drop, DoneIDs(plans[..i])))
            == After(g, dp0, drop, DoneIDs(plans[..i + 1]))
  {
    DoneGrows(plans, i);
    OneMorePlan(g, dp0, drop, DoneIDs(plans[..i]), plans[i].id);
  }

  lemma AllDone(plans: seq<Plan>, g: Goal, dp0: Dp)
    requires PlansFor(plans, g.pools, dp0.pools, g.pools.Keys + dp0.pools.Keys)
    ensures DoneIDs(plans[..|plans|]) == g.pools.Keys + dp0.pools.Keys
  {
  }

  lemma DoneGrows(plans: seq<Plan>, i: nat)
    requires i < |plans| && forall a, b :: 0 <= a < b < |plans| ==> plans[a].id != plans[b].id
    ensures plans[i].id !in DoneIDs(plans[..i])
    ensures DoneIDs(plans[..i + 1]) == DoneIDs(plans[..i]) + {plans[i].id}
  {
  }

  // ---------------------------------------------------------------- children

  /** The pools whose children the pool calls took away. */
  method ClearedPools(plans: seq<Plan>, drop: bool, ghost g: Goal, ghost dp0: Dp)
    returns (reset: set<PoolID>, dropped: set<PoolID>)
    requires PlansFor(plans, g.pools, dp0.pools, g.pools.Keys + dp0.pools.Keys)
    ensures forall id :: id in reset <==> Resets(g.pools, dp0.pools, id)
    ensures forall id :: id in dropped <==> Dropped(g, dp0, drop, id)
  {
    reset, dropped := {}, {};
    for i := 0 to |plans|
      invariant forall id :: id in reset <==> id in DoneIDs(plans[..i]) && Resets(g.pools, dp0.pools, id)
      invariant forall id :: id in dropped <==> id in DoneIDs(plans[..i]) && Dropped(g, dp0, drop, id)
    {
      DoneGrows(plans, i);
      ActionClears(plans, i, g, dp0);
      if plans[i].action in {Add, Replace} {
        reset := reset + {plans[i].id};
      } else if plans[i].action == Drop && drop {
        dropped := dropped + {plans[i].id};
      }
    }
    AllDone(plans, g, dp0);
  }

  lemma ActionClears(plans: seq<Plan>, i: nat, g: Goal, dp0: Dp)
    requires PlansFor(plans, g.pools, dp0.pools, g.pools.Keys + dp0.pools.Keys) && i < |plans|
    ensures plans[i].action in {Add, Replace} <==> Resets(g.pools, dp0.pools, plans[i].id)
    ensures plans[i].action == Drop <==> Dropped(g, dp0, true, plans[i].id)
  {
    assert plans[i] == PlanFor(g.pools, dp0.pools, plans[i].id);
    DriftMatters(g, dp0, plans[i].id);
  }

  /** Adds the wanted children that the dataplane lacks. */
  method AddChildren(dp: Dataplane, wanted: set<Child>, actual: set<Child>, reset: set<PoolID>, ghost g: Goal,
                     ghost dp0: Dp, ghost drop: bool)
    returns (ok: bool)
    requires wanted <= g.children
    requires forall k :: k in wanted ==> (k in actual <==> k in dp0.children)
    requires forall id :: id in reset <==> Resets(g.pools, dp0.pools, id)
    requires forall k :: k in wanted && k in actual && k.pool !in reset ==> k in dp.state.children
    modifies dp
    ensures dp.Reliable() ==> ok
    ensures ok ==> dp.state == old(dp.state).(children := old(dp.state).children + wanted)
    ensures Extends(dp.log, old(dp.log), g, dp0, drop)
  {
    var todo := wanted;
    while todo != {}
      invariant todo <= wanted
      invariant dp.state == old(dp.state).(children := old(dp.state).children + (wanted - todo))
      invariant Extends(dp.log, old(dp.log), g, dp0, drop)
    {
      var k :| k in todo;
      if k.pool in reset || k !in actual {
        ok := dp.AddChild(k);
        if !ok {
          return;
        }
      }
      todo := todo - {k};
    }
    ok := true;
  }

  predicate Leftover(k: Child, wanted: set<Child>, reset: set<PoolID>, dropped: set<PoolID>) {
    k !in wanted && k.pool !in reset && k.pool !in dropped
  }

  /** Deletes the unwanted children of the pools that kept theirs. */
  method DropChildren(dp: Dataplane, wanted: set<Child>, actual: set<Child>, reset: set<PoolID>, dropped: set<PoolID>,
                      ghost g: Goal, ghost dp0: Dp)
    returns (ok: bool)
    requires actual <= dp0.children
    requires forall k :: k in actual ==> (k in wanted <==> k in g.children)
    modifies dp
    ensures dp.Reliable() ==> ok
    ensures ok ==>
              dp.state == old(dp.state).(
                children := old(dp.state).children - set k | k in actual && Leftover(k, wanted, reset, dropped))
    ensures Extends(dp.log, old(dp.log), g, dp0, true)
  {
    var todo := actual;
    while todo != {}
      invariant todo <= actual
      invariant dp.state == old(dp.state).(
        children := old(dp.state).children - set k | k in actual - todo && Leftover(k, wanted, reset, dropped))
      invariant Extends(dp.log, old(dp.log), g, dp0, true)
    {
      var k :| k in todo;
      if Leftover(k, wanted, reset, dropped) {
        var noSuchEntry;
        ok, noSuchEntry := dp.DelChild(k);
        if !ok && !noSuchEntry {
          return;
        }
      }
      todo := todo - {k};
    }
    ok := true;
  }

  /** One kind of child: inside prefixes, then outside addresses. */
  function OfKind(children: set<Child>, inside: bool): set<Child> {
    set k | k in children && k.Inside? == inside
  }

  method ReconcileKind(dp: Dataplane, inside: bool, wanted: set<Child>, actual: set<Child>, reset: set<PoolID>,
                       dropped: set<PoolID>, drop: bool, ghost g: Goal, ghost dp0: Dp)
    returns (ok: bool)
    requires wanted == OfKind(g.children, inside) && actual == OfKind(dp0.children, inside)
    requires forall id :: id in reset <==> Resets(g.pools, dp0.pools, id)
    requires forall k :: k in wanted && k in actual && k.pool !in reset ==> k in dp.state.children
    modifies dp
    ensures dp.Reliable() ==> ok
    ensures ok ==> dp.state.pools == old(dp.state).pools
    ensures ok ==> dp.state.children == KindDone(old(dp.state).children, wanted, actual, reset, dropped, drop)
    ensures Extends(dp.log, old(dp.log), g, dp0, drop)
  {
    ok := AddChildren(dp, wanted, actual, reset, g, dp0, drop);
    if !ok || !drop {
      return;
    }
    ghost var log := dp.log;
    ok := DropChildren(dp, wanted, actual, reset, dropped, g, dp0);
    ExtendsFurther(dp.log, log, old(dp.log), g, dp0, drop);
  }

  function KindDone(children: set<Child>, wanted: set<Child>, actual: set<Child>, reset: set<PoolID>,
                    dropped: set<PoolID>, drop: bool): set<Child> {
    if drop then children + wanted - set k | k in actual && Leftover(k, wanted, reset, dropped)
    else children + wanted
  }

  /** Both kinds done, the children are the target's. */
  lemma KindsReachTarget(g: Goal, dp: Dp, drop: bool, reset: set<PoolID>, dropped: set<PoolID>, base: set<Child>,
                         mid: set<Child>, end: set<Child>)
    requires ValidGoal(g)
    requires forall id :: id in reset <==> Resets(g.pools, dp.pools, id)
    requires forall id :: id in dropped <==> Dropped(g, dp, drop, id)
    requires base == ChildrenAfter(g, dp, drop, g.pools.Keys + dp.pools.Keys)
    requires mid == KindDone(base, OfKind(g.children, true), OfKind(dp.children, true), reset, dropped, drop)
    requires end == KindDone(mid, OfKind(g.children, false), OfKind(dp.children, false), reset, dropped, drop)
    ensures end == TargetChildren(g, dp, drop)
  {
  }

  lemma KeptChild(g: Goal, dp: Dp, drop: bool, k: Child)
    requires ValidGoal(g) && k in g.children && k in dp.children && !Resets(g.pools, dp.pools, k.pool)
    ensures k in ChildrenAfter(g, dp, drop, g.pools.Keys + dp.pools.Keys)
  {
  }

  method ReconcileChildren(dp: Dataplane, plans: seq<Plan>, g: Goal, dp0: Dp, drop: bool) returns (ok: bool)
    requires ValidGoal(g) && PlansFor(plans, g.pools, dp0.pools, g.pools.Keys + dp0.pools.Keys)
    requires dp.state.children == ChildrenAfter(g, dp0, drop, g.pools.Keys + dp0.pools.Keys)
    modifies dp
    ensures dp.Reliable() ==> ok
    ensures ok ==> dp.state == Dp(old(dp.state).pools, TargetChildren(g, dp0, drop))
    ensures Extends(dp.log, old(dp.log), g, dp0, drop)
  {
    var reset, dropped := ClearedPools(plans, drop, g, dp0);
    forall k | k in g.children && k in dp0.children && k.pool !in reset
      ensures k in dp.state.children
    {
      KeptChild(g, dp0, drop, k);
    }
    ghost var base := dp.state.children;
    ok := ReconcileKind(dp, true, OfKind(g.children, true), OfKind(dp0.children, true), reset, dropped, drop, g, dp0);
    if !ok {
      return;
    }
    ghost var mid, log := dp.state.children, dp.log;
    ok := ReconcileKind(dp, false, OfKind(g.children, false), OfKind(dp0.children, false),
                        reset, dropped, drop, g, dp0);
    ExtendsFurther(dp.log, log, old(dp.log), g, dp0, drop);
    if ok {
      KindsReachTarget(g, dp0, drop, reset, dropped, base, mid, dp.state.children);
    }
  }

  // ---------------------------------------------------------------- verify and the whole run

  /** Every wanted pool is there without hard drift. */
  method Verify(got: map<PoolID, DpPool>, want: map<PoolID, PoolCfg>) returns (ok: bool)
    ensures ok <==> forall id :: id in want ==> id in got && Encodes(got[id].hard, want[id])
  {
    var todo := want.Keys;
    while todo != {}
      invariant todo <= want.Keys
      invariant forall id :: id in want && id !in todo ==> id in got && Encodes(got[id].hard, want[id])
    {
      var id :| id in todo;
      if id !in got || |DriftFields(got[id].hard, want[id])| > 0 {
        return false;
      }
      DriftIsDifference(got[id].hard, want[id]);
      todo := todo - {id};
    }
    ok := true;
  }

  /** The pools of the dataplane are exactly the wanted ones, field by field. */
  ghost predicate PoolsMatch(want: map<PoolID, PoolCfg>, pools: map<PoolID, DpPool>) {
    && pools.Keys == want.Keys
    && forall id :: id in want ==> Encodes(pools[id].hard, want[id]) && pools[id].soft == want[id].soft
  }

  method AllNoop(plans: seq<Plan>, ghost want: map<PoolID, PoolCfg>, ghost pools: map<PoolID, DpPool>) returns (r: bool)
    requires PlansFor(plans, want, pools, want.Keys + pools.Keys)
    ensures r <==> PoolsMatch(want, pools)
  {
    for i := 0 to |plans|
      invariant forall j :: 0 <= j < i ==> plans[j].action == Noop
    {
      if plans[i].action != Noop {
        SomethingToDo(plans, i, want, pools);
        return false;
      }
    }
    r := true;
    NothingToDo(plans, want, pools);
  }

  lemma SomethingToDo(plans: seq<Plan>, i: nat, want: map<PoolID, PoolCfg>, pools: map<PoolID, DpPool>)
    requires PlansFor(plans, want, pools, want.Keys + pools.Keys) && i < |plans| && plans[i].action != Noop
    ensures !PoolsMatch(want, pools)
  {
  }

  lemma NothingToDo(plans: seq<Plan>, want: map<PoolID, PoolCfg>, pools: map<PoolID, DpPool>)
    requires PlansFor(plans, want, pools, want.Keys + pools.Keys)
    requires forall j :: 0 <= j < |plans| ==> plans[j].action == Noop
    ensures PoolsMatch(want, pools)
  {
    forall id | id in want.Keys + pools.Keys
      ensures id in want && id in pools && Encodes(pools[id].hard, want[id]) && pools[id].soft == want[id].soft
    {
      var i :| 0 <= i < |plans| && plans[i].id == id;
      assert plans[i] == PlanFor(want, pools, id);
      assert id in want && id in pools;
      DriftIsDifference(pools[id].hard, want[id]);
    }
  }

  datatype Outcome = Converged | Diverged | DumpFailed | Collision | Refused | ApplyFailed | VerifyFailed

  /** The contract of a run that got past the dumps and found no collision. */
  twostate predicate RunContract(r: Outcome, dp: Dataplane, g: Goal, policy: Policy)
    reads dp
  {
    var dp0, drop := old(dp.state), policy.dropOrphans;
    && (r.Refused? <==> !policy.allowDisruption && WouldDisrupt(g, dp0, drop))
    && (r.Converged? || r.Diverged? ==> dp.state == Target(g, dp0, drop))
    && (r.Converged? ==> !policy.failOnDivergence || PoolsMatch(g.pools, dp0.pools))
    && (r.Diverged? ==> policy.failOnDivergence && !PoolsMatch(g.pools, dp0.pools))
    && Extends(dp.log, old(dp.log), g, dp0, drop)
  }

  /** The pools, then their children. */
  method Converge(dp: Dataplane, plans: seq<Plan>, g: Goal, dp0: Dp, drop: bool) returns (ok: bool)
    requires ValidGoal(g) && PlansFor(plans, g.pools, dp0.pools, g.pools.Keys + dp0.pools.Keys)
    requires dp.state == dp0
    modifies dp
    ensures dp.Reliable() ==> ok
    ensures ok ==> dp.state == Target(g, dp0, drop)
    ensures Extends(dp.log, old(dp.log), g, dp0, drop)
  {
    ok := ApplyPlans(dp, plans, drop, g, dp0);
    if ok {
      ghost var log := dp.log;
      ok := ReconcileChildren(dp, plans, g, dp0, drop);
      ExtendsFurther(dp.log, log, old(dp.log), g, dp0, drop);
    }
  }

  lemma TargetVerifies(g: Goal, dp: Dp, drop: bool)
    ensures forall id :: id in g.pools ==>
              id in Target(g, dp, drop).pools && Encodes(Target(g, dp, drop).pools[id].hard, g.pools[id])
  {
    TargetIsSettled(g, dp, drop);
  }

  method Execute(dp: Dataplane, plans: seq<Plan>, g: Goal, policy: Policy) returns (r: Outcome)
    requires ValidGoal(g) && PlansFor(plans, g.pools, dp.state.pools, g.pools.Keys + dp.state.pools.Keys)
    modifies dp
    ensures RunContract(r, dp, g, policy)
    ensures r in {Converged, Diverged, Refused, ApplyFailed}
    ensures r.Refused? ==> dp.state == old(dp.state) && dp.log == old(dp.log)
    ensures dp.Reliable() ==> !r.ApplyFailed?
  {
    var dp0 := dp.state;
    var refused := Preflight(plans, g, dp0, policy);
    if refused {
      return Refused;
    }
    var ok := Converge(dp, plans, g, dp0, policy.dropOrphans);
    if !ok {
      return ApplyFailed;
    }
    ok := dp.Call();
    if !ok {
      return ApplyFailed;
    }
    TargetVerifies(g, dp0, policy.dropOrphans);
    var verified := Verify(dp.state.pools, g.pools);
    if !verified {
      return VerifyFailed;
    }
    var noop := AllNoop(plans, g.pools, dp0.pools);
    r := if policy.failOnDivergence && !noop then Diverged else Converged;
  }

  /** A settled dataplane gets no mutation, and one without a disrupting plan none that disrupts. */
  lemma WhatTheLogHolds(log: seq<Mutation>, before: seq<Mutation>, g: Goal, dp: Dp, drop: bool)
    requires ValidGoal(g) && Extends(log, before, g, dp, drop)
    ensures Settled(g, dp, drop) ==> log == before
    ensures !WouldDisrupt(g, dp, drop) ==> forall i :: |before| <= i < |log| ==> !Disrupts(log[i], dp)
  {
    if Settled(g, dp, drop) && |log| > |before| {
      SettledPlansNothing(log[|before|], g, dp, drop);
    }
    if !WouldDisrupt(g, dp, drop) {
      forall i | |before| <= i < |log|
        ensures !Disrupts(log[i], dp)
      {
        PlannedIsSafe(log[i], g, dp, drop);
      }
    }
  }

  predicate GotThrough(r: Outcome) {
    r.Converged? || r.Diverged?
  }

  lemma TargetHolds(d: Desired, poolID: string -> PoolID, dp: Dp, drop: bool)
    requires NoCollision(d, poolID)
    ensures IncludesConfig(d, poolID, Target(GoalOf(d, poolID), dp, drop))
    ensures drop ==> HoldsConfig(d, poolID, Target(GoalOf(d, poolID), dp, drop))
  {
    TargetIsSettled(GoalOf(d, poolID), dp, drop);
    SettledIncludesConfig(d, poolID, Target(GoalOf(d, poolID), dp, drop), drop);
    if drop {
      ConvergesToConfig(GoalOf(d, poolID), dp);
      MatchesHoldsConfig(d, poolID, Target(GoalOf(d, poolID), dp, drop));
    }
  }

  /** A whole run. Up to the first mutation it may stop with the dataplane untouched; if it gets
      through, the dataplane is in the target state whatever the order of the maps. */
  method ReconcileWith(dp: Dataplane, d: Desired, poolID: string -> PoolID, policy: Policy) returns (r: Outcome)
    modifies dp
    ensures r in {DumpFailed, Collision, Refused} ==> dp.state == old(dp.state) && dp.log == old(dp.log)
    ensures r.Collision? ==> !NoCollision(d, poolID)
    ensures !NoCollision(d, poolID) ==> r in {DumpFailed, Collision}
    ensures NoCollision(d, poolID) && !r.DumpFailed? ==> RunContract(r, dp, GoalOf(d, poolID), policy)
    ensures GotThrough(r) ==> IncludesConfig(d, poolID, dp.state)
    ensures GotThrough(r) && policy.dropOrphans ==> HoldsConfig(d, poolID, dp.state)
    ensures NoCollision(d, poolID) && Settled(GoalOf(d, poolID), old(dp.state), policy.dropOrphans) ==>
              dp.log == old(dp.log)
    ensures !policy.allowDisruption ==> |old(dp.log)| <= |dp.log|
    ensures !policy.allowDisruption ==>
              forall i :: |old(dp.log)| <= i < |dp.log| ==> !Disrupts(dp.log[i], old(dp.state))
    ensures !r.VerifyFailed?
    ensures dp.Reliable() ==> r !in {DumpFailed, ApplyFailed}
  {
    var ok := dp.Call();
    if !ok {
      return DumpFailed;
    }
    ok := dp.Call();
    if !ok {
      return DumpFailed;
    }
    ok := dp.Call();
    if !ok {
      return DumpFailed;
    }
    var plans := BuildPlans(d, poolID, dp.state.pools);
    if plans.None? {
      return Collision;
    }
    GoalIsValid(d, poolID);
    var g := GoalOf(d, poolID);
    r := Execute(dp, plans.value, g, policy);
    WhatTheLogHolds(dp.log, old(dp.log), g, old(dp.state), policy.dropOrphans);
    TargetHolds(d, poolID, old(dp.state), policy.dropOrphans);
  }

  /** What a second run finds after one that got through. */
  lemma AfterARun(g: Goal, dp: Dp, policy: Policy)
    requires ValidGoal(g)
    ensures var end := Target(g, dp, policy.dropOrphans);
            && Settled(g, end, policy.dropOrphans) && !WouldDisrupt(g, end, policy.dropOrphans)
            && Target(g, end, policy.dropOrphans) == end
            && (policy.dropOrphans ==> Matches(g, end) && PoolsMatch(g.pools, end.pools))
            && (!WouldDisrupt(g, dp, policy.dropOrphans) ==> KeepsActive(dp, end))
  {
    var end := Target(g, dp, policy.dropOrphans);
    TargetIsSettled(g, dp, policy.dropOrphans);
    SettledDisruptsNothing(g, end, policy.dropOrphans);
    SettledIsTarget(g, end, policy.dropOrphans);
    ConvergesToConfig(g, dp);
    if !WouldDisrupt(g, dp, policy.dropOrphans) {
      TargetKeepsActive(g, dp, policy.dropOrphans);
    }
  }

  /** Two runs in a row: once one got through, the next issues no mutation, is not refused, and with
      drop_orphans leaves the configuration and no divergence. */
  method ReconcileTwice(dp: Dataplane, d: Desired, poolID: string -> PoolID, policy: Policy)
    returns (first: Outcome, second: Outcome, ghost issued: seq<Mutation>)
    modifies dp
    ensures GotThrough(first) ==> NoCollision(d, poolID)
    ensures GotThrough(first) ==> dp.log == issued && !second.Refused? && !second.Collision?
    ensures GotThrough(first) && GotThrough(second) ==>
              dp.state == Target(GoalOf(d, poolID), old(dp.state), policy.dropOrphans)
    ensures GotThrough(first) && GotThrough(second) && policy.dropOrphans ==>
              second.Converged? && Matches(GoalOf(d, poolID), dp.state)
    ensures GotThrough(first) && GotThrough(second) && !policy.allowDisruption ==> KeepsActive(old(dp.state), dp.state)
    ensures GotThrough(first) && dp.Reliable() ==> GotThrough(second)
  {
    first := ReconcileWith(dp, d, poolID, policy);
    issued := dp.log;
    if GotThrough(first) {
      GoalIsValid(d, poolID);
      AfterARun(GoalOf(d, poolID), old(dp.state), policy);
    }
    second := ReconcileWith(dp, d, poolID, policy);
  }
}
