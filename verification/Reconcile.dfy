/** The plan/apply reconciler of internal/cgnat/reconcile.go: desired pools against the
    pools, inside prefixes and outside addresses the dataplane reports. */
module Reconcile {
  import opened Optional

  type PoolID = nat

  // ---------------------------------------------------------------- configuration

  /** An inside prefix: None when it does not parse; the VRF already resolved (0 otherwise). */
  datatype InsideEntry = InsideEntry(prefix: Option<string>, vrf: nat)

  datatype PoolCfg = PoolCfg(
    mode: string, addressPooling: string, filtering: string,
    blockSize: nat, portStart: nat, portEnd: nat,
    soft: Soft,
    inside: set<InsideEntry>, outside: set<Option<string>>)

  /** The fields whose change needs a replacement, as the dataplane encodes them. */
  datatype Hard = Hard(mode: nat, addressPooling: nat, filtering: nat, blockSize: nat, portStart: nat, portEnd: nat)

  /** The fields an update can change in place. */
  datatype Soft = Soft(maxBlocks: nat, maxSessions: nat, portReuse: nat, alg: nat, timeouts: seq<nat>)

  function HardOf(p: PoolCfg): Hard {
    Hard(if p.mode == "deterministic" then 1 else 0,
         if p.addressPooling == "arbitrary" then 1 else 0,
         if p.filtering == "endpoint-dependent" then 1 else 0,
         p.blockSize, p.portStart, p.portEnd)
  }

  /** h is what the configuration says, with the three modes read from their strings. */
  predicate Encodes(h: Hard, p: PoolCfg) {
    && h.mode <= 1 && (h.mode == 1 <==> p.mode == "deterministic")
    && h.addressPooling <= 1 && (h.addressPooling == 1 <==> p.addressPooling == "arbitrary")
    && h.filtering <= 1 && (h.filtering == 1 <==> p.filtering == "endpoint-dependent")
    && h.blockSize == p.blockSize && h.portStart == p.portStart && h.portEnd == p.portEnd
  }

  lemma HardOfEncodes(h: Hard, p: PoolCfg)
    ensures h == HardOf(p) <==> Encodes(h, p)
  {
  }

  /** The configured pools; a name may be present with no pool. */
  type Desired = map<string, Option<PoolCfg>>

  datatype Policy = Policy(dropOrphans: bool, allowDisruption: bool, failOnDivergence: bool)

  // ---------------------------------------------------------------- dataplane state

  datatype DpPool = DpPool(hard: Hard, soft: Soft, active: nat)

  /** An inside prefix or an outside address of a pool. */
  datatype Child =
    | Inside(pool: PoolID, prefix: string, vrf: nat)
    | Outside(pool: PoolID, prefix: string)

  datatype Dp = Dp(pools: map<PoolID, DpPool>, children: set<Child>)

  datatype Mutation =
    | PoolAdd(id: PoolID, hard: Hard)
    | PoolDel(id: PoolID)
    | ChildAdd(child: Child)
    | ChildDel(child: Child)

  // ---------------------------------------------------------------- what is wanted

  function Names(d: Desired): set<string> {
    set n | n in d && d[n].Some?
  }

  /** No two configured names hash to one pool ID. */
  predicate NoCollision(d: Desired, poolID: string -> PoolID) {
    forall m, n :: m in Names(d) && n in Names(d) && poolID(m) == poolID(n) ==> m == n
  }

  function Wanted(d: Desired, poolID: string -> PoolID): map<PoolID, PoolCfg>
    requires NoCollision(d, poolID)
  {
    map n | n in Names(d) :: poolID(n) := d[n].value
  }

  function WantedInside(d: Desired, poolID: string -> PoolID): set<Child> {
    set n, e | n in Names(d) && e in d[n].value.inside && e.prefix.Some? :: Inside(poolID(n), e.prefix.value, e.vrf)
  }

  function WantedOutside(d: Desired, poolID: string -> PoolID): set<Child> {
    set n, e | n in Names(d) && e in d[n].value.outside && e.Some? :: Outside(poolID(n), e.value)
  }

  /** What the configuration asks the dataplane to hold. */
  datatype Goal = Goal(pools: map<PoolID, PoolCfg>, children: set<Child>)

  function GoalOf(d: Desired, poolID: string -> PoolID): Goal
    requires NoCollision(d, poolID)
  {
    Goal(Wanted(d, poolID), WantedInside(d, poolID) + WantedOutside(d, poolID))
  }

  /** Wanted children belong to wanted pools. */
  ghost predicate ValidGoal(g: Goal) {
    forall k :: k in g.children ==> k.pool in g.pools
  }

  lemma GoalIsValid(d: Desired, poolID: string -> PoolID)
    requires NoCollision(d, poolID)
    ensures ValidGoal(GoalOf(d, poolID))
  {
  }

  // ---------------------------------------------------------------- drift and plans

  /** poolHardDrift: the drifted fields by name. */
  function DriftFields(cur: Hard, p: PoolCfg): seq<string> {
    var want := HardOf(p);
    (if cur.mode != want.mode then ["mode"] else [])
    + (if cur.addressPooling != want.addressPooling then ["address_pooling"] else [])
    + (if cur.filtering != want.filtering then ["filtering"] else [])
    + (if cur.blockSize != want.blockSize then ["block_size"] else [])
    + (if cur.portStart != want.portStart || cur.portEnd != want.portEnd then ["port_range"] else [])
  }

  /** Whether the dataplane's value of the named field is not the configured one. */
  predicate Differs(cur: Hard, p: PoolCfg, name: string) {
    || (name == "mode" && cur.mode != if p.mode == "deterministic" then 1 else 0)
    || (name == "address_pooling" && cur.addressPooling != if p.addressPooling == "arbitrary" then 1 else 0)
    || (name == "filtering" && cur.filtering != if p.filtering == "endpoint-dependent" then 1 else 0)
    || (name == "block_size" && cur.blockSize != p.blockSize)
    || (name == "port_range" && (cur.portStart != p.portStart || cur.portEnd != p.portEnd))
  }

  lemma NothingDrifts(cur: Hard, p: PoolCfg)
    ensures |DriftFields(cur, p)| == 0 <==> cur == HardOf(p)
  {
  }

  /** Each name is reported exactly when that field of the configuration differs, and nothing is
      reported exactly when the dataplane holds what the configuration says. */
  lemma DriftIsDifference(cur: Hard, p: PoolCfg)
    ensures forall name :: name in DriftFields(cur, p) <==> Differs(cur, p, name)
    ensures |DriftFields(cur, p)| > 0 <==> !Encodes(cur, p)
    ensures Encodes(cur, p) <==> cur == HardOf(p)
  {
    HardOfEncodes(cur, p);
    NothingDrifts(cur, p);
    forall name
      ensures name in DriftFields(cur, p) <==> Differs(cur, p, name)
    {
      DriftNames(cur, p, name);
    }
  }

  lemma DriftNames(cur: Hard, p: PoolCfg, name: string)
    ensures name in DriftFields(cur, p) <==> Differs(cur, p, name)
  {
  }

  datatype Action = Noop | Add | SoftUpdate | Replace | Drop

  datatype Plan = Plan(id: PoolID, action: Action, active: nat, cfg: Option<PoolCfg>)

  function ActionFor(want: map<PoolID, PoolCfg>, pools: map<PoolID, DpPool>, id: PoolID): Action
    requires id in want || id in pools
  {
    if id !in want then Drop
    else if id !in pools then Add
    else if |DriftFields(pools[id].hard, want[id])| > 0 then Replace
    else if pools[id].soft != want[id].soft then SoftUpdate
    else Noop
  }

  function PlanFor(want: map<PoolID, PoolCfg>, pools: map<PoolID, DpPool>, id: PoolID): Plan
    requires id in want || id in pools
  {
    Plan(id, ActionFor(want, pools, id), if id in pools then pools[id].active else 0,
         if id in want then Some(want[id]) else None)
  }

  /** One plan for each of the pools ids, in some order. */
  ghost predicate PlansFor(plans: seq<Plan>, want: map<PoolID, PoolCfg>, pools: map<PoolID, DpPool>, ids: set<PoolID>) {
    && ids <= want.Keys + pools.Keys
    && (forall i :: 0 <= i < |plans| ==> plans[i].id in ids && plans[i] == PlanFor(want, pools, plans[i].id))
    && (forall i, j :: 0 <= i < j < |plans| ==> plans[i].id != plans[j].id)
    && (forall id :: id in ids ==> exists i :: 0 <= i < |plans| && plans[i].id == id)
  }

  // ---------------------------------------------------------------- the state reconcile reaches

  /** Adding the pool empties it: it is new, or its hard fields change. */
  predicate Resets(want: map<PoolID, PoolCfg>, pools: map<PoolID, DpPool>, id: PoolID) {
    id in want && (id !in pools || pools[id].hard != HardOf(want[id]))
  }

  function TargetPool(want: map<PoolID, PoolCfg>, pools: map<PoolID, DpPool>, id: PoolID): DpPool
    requires id in want || id in pools
  {
    if id !in want then pools[id]
    else DpPool(HardOf(want[id]), want[id].soft, if Resets(want, pools, id) then 0 else pools[id].active)
  }

  function TargetPools(want: map<PoolID, PoolCfg>, pools: map<PoolID, DpPool>, drop: bool): map<PoolID, DpPool> {
    map id | id in want.Keys + (if drop then {} else pools.Keys) :: TargetPool(want, pools, id)
  }

  function TargetChildren(g: Goal, dp: Dp, drop: bool): set<Child> {
    g.children + if drop then {} else set k | k in dp.children && !Resets(g.pools, dp.pools, k.pool)
  }

  function Target(g: Goal, dp: Dp, drop: bool): Dp {
    Dp(TargetPools(g.pools, dp.pools, drop), TargetChildren(g, dp, drop))
  }

  /** The dataplane holds the configured pools and their children, and nothing else. */
  ghost predicate Matches(g: Goal, dp: Dp) {
    && dp.pools.Keys == g.pools.Keys
    && (forall id :: id in g.pools ==>
          Encodes(dp.pools[id].hard, g.pools[id]) && dp.pools[id].soft == g.pools[id].soft)
    && dp.children == g.children
  }

  /** With drop_orphans the reached state is the configured one, whatever was there before. */
  lemma ConvergesToConfig(g: Goal, dp: Dp)
    ensures Matches(g, Target(g, dp, true))
  {
    forall id | id in g.pools
      ensures Encodes(Target(g, dp, true).pools[id].hard, g.pools[id])
    {
      HardOfEncodes(Target(g, dp, true).pools[id].hard, g.pools[id]);
    }
  }

  /** The dataplane holds the configuration, read off the configured names: each pool under its ID
      with its fields, each parseable prefix and address under its pool, and nothing else. */
  ghost predicate HoldsConfig(d: Desired, poolID: string -> PoolID, dp: Dp) {
    && IncludesConfig(d, poolID, dp)
    && (forall id :: id in dp.pools ==> exists n :: IsPool(d, n) && poolID(n) == id)
    && (forall k :: k in dp.children ==> ConfiguredChild(d, poolID, k))
  }

  /** The same with possibly more. */
  ghost predicate IncludesConfig(d: Desired, poolID: string -> PoolID, dp: Dp) {
    && (forall n :: IsPool(d, n) ==> poolID(n) in dp.pools && HoldsPool(dp.pools[poolID(n)], d[n].value))
    && (forall k :: ConfiguredChild(d, poolID, k) ==> k in dp.children)
  }

  predicate HoldsPool(dp: DpPool, p: PoolCfg) {
    Encodes(dp.hard, p) && dp.soft == p.soft
  }

  predicate IsPool(d: Desired, n: string) {
    n in d && d[n].Some?
  }

  /** Some configured pool of that ID lists the prefix with that VRF, or the address. */
  ghost predicate ConfiguredChild(d: Desired, poolID: string -> PoolID, k: Child) {
    match k
    case Inside(id, prefix, vrf) =>
      exists n :: IsPool(d, n) && poolID(n) == id && InsideEntry(Some(prefix), vrf) in d[n].value.inside
    case Outside(id, prefix) =>
      exists n :: IsPool(d, n) && poolID(n) == id && Some(prefix) in d[n].value.outside
  }

  lemma WantedChildrenIff(d: Desired, poolID: string -> PoolID, k: Child)
    requires NoCollision(d, poolID)
    ensures k in GoalOf(d, poolID).children <==> ConfiguredChild(d, poolID, k)
  {
    if k in WantedInside(d, poolID) {
      var n, e :|
        n in Names(d) && e in d[n].value.inside && e.prefix.Some? && k == Inside(poolID(n), e.prefix.value, e.vrf);
      assert IsPool(d, n) && e == InsideEntry(Some(k.prefix), k.vrf);
    }
    if k in WantedOutside(d, poolID) {
      var n, e :| n in Names(d) && e in d[n].value.outside && e.Some? && k == Outside(poolID(n), e.value);
      assert IsPool(d, n) && e == Some(k.prefix);
    }
    if ConfiguredChild(d, poolID, k) {
      if k.Inside? {
        var n :| IsPool(d, n) && poolID(n) == k.pool && InsideEntry(Some(k.prefix), k.vrf) in d[n].value.inside;
        assert n in Names(d) && k == Inside(poolID(n), k.prefix, k.vrf);
      } else {
        var n :| IsPool(d, n) && poolID(n) == k.pool && Some(k.prefix) in d[n].value.outside;
        assert n in Names(d) && k == Outside(poolID(n), k.prefix);
      }
    }
  }

  /** A dataplane that matches the goal holds the configuration. */
  lemma MatchesHoldsConfig(d: Desired, poolID: string -> PoolID, dp: Dp)
    requires NoCollision(d, poolID) && Matches(GoalOf(d, poolID), dp)
    ensures HoldsConfig(d, poolID, dp)
  {
    SettledIncludesConfig(d, poolID, dp, true);
    forall id | id in dp.pools
      ensures exists n :: IsPool(d, n) && poolID(n) == id
    {
      var n :| n in Names(d) && poolID(n) == id;
      assert IsPool(d, n);
    }
    forall k
      ensures k in dp.children <==> ConfiguredChild(d, poolID, k)
    {
      WantedChildrenIff(d, poolID, k);
    }
  }

  /** Nothing is left to do. */
  ghost predicate Settled(g: Goal, dp: Dp, drop: bool) {
    && (forall id :: id in g.pools ==>
          id in dp.pools && Encodes(dp.pools[id].hard, g.pools[id]) && dp.pools[id].soft == g.pools[id].soft)
    && g.children <= dp.children
    && (drop ==> dp.pools.Keys <= g.pools.Keys && dp.children <= g.children)
  }

  lemma TargetIsSettled(g: Goal, dp: Dp, drop: bool)
    ensures Settled(g, Target(g, dp, drop), drop)
  {
  }

  /** Reconciling a settled dataplane asks for the state it is in. */
  lemma SettledIsTarget(g: Goal, dp: Dp, drop: bool)
    requires Settled(g, dp, drop)
    ensures Target(g, dp, drop) == dp
  {
  }

  /** A settled dataplane includes the configuration. */
  lemma SettledIncludesConfig(d: Desired, poolID: string -> PoolID, dp: Dp, drop: bool)
    requires NoCollision(d, poolID) && Settled(GoalOf(d, poolID), dp, drop)
    ensures IncludesConfig(d, poolID, dp)
  {
    var g := GoalOf(d, poolID);
    forall n | IsPool(d, n)
      ensures poolID(n) in g.pools && g.pools[poolID(n)] == d[n].value
    {
      assert n in Names(d);
    }
    forall k | ConfiguredChild(d, poolID, k)
      ensures k in dp.children
    {
      WantedChildrenIff(d, poolID, k);
    }
  }

  // ---------------------------------------------------------------- disruption

  predicate Active(pools: map<PoolID, DpPool>, id: PoolID) {
    id in pools && pools[id].active > 0
  }

  /** The mutation takes mappings away from a pool that had some when it was dumped. */
  predicate Disrupts(m: Mutation, dp: Dp) {
    match m
    case PoolAdd(id, hard) => Active(dp.pools, id) && dp.pools[id].hard != hard
    case PoolDel(id) => Active(dp.pools, id)
    case ChildDel(k) => Active(dp.pools, k.pool)
    case ChildAdd(_) => false
  }

  /** Reaching the target would need a disrupting mutation. */
  ghost predicate WouldDisrupt(g: Goal, dp: Dp, drop: bool) {
    || (exists id :: Active(dp.pools, id) && Resets(g.pools, dp.pools, id))
    || (drop && exists id :: Active(dp.pools, id) && id !in g.pools)
    || (drop && exists k :: k in dp.children && k !in g.children && Active(dp.pools, k.pool))
  }

  /** A run that does not disrupt leaves every pool with mappings as it was: same hard fields,
      same mappings, every child still there. */
  lemma ActivePoolsUndisturbed(g: Goal, dp: Dp, drop: bool, id: PoolID)
    requires !WouldDisrupt(g, dp, drop) && Active(dp.pools, id)
    ensures id in Target(g, dp, drop).pools
    ensures Target(g, dp, drop).pools[id].hard == dp.pools[id].hard
    ensures Target(g, dp, drop).pools[id].active == dp.pools[id].active
    ensures forall k :: k in dp.children && k.pool == id ==> k in Target(g, dp, drop).children
  {
  }

  /** after has every pool with mappings that before has, with its hard fields, mappings and
      children. */
  ghost predicate KeepsActive(before: Dp, after: Dp) {
    forall id :: Active(before.pools, id) ==>
      && id in after.pools
      && after.pools[id].hard == before.pools[id].hard && after.pools[id].active == before.pools[id].active
      && forall k :: k in before.children && k.pool == id ==> k in after.children
  }

  lemma TargetKeepsActive(g: Goal, dp: Dp, drop: bool)
    requires !WouldDisrupt(g, dp, drop)
    ensures KeepsActive(dp, Target(g, dp, drop))
  {
    forall id | Active(dp.pools, id)
      ensures id in Target(g, dp, drop).pools
    {
      ActivePoolsUndisturbed(g, dp, drop, id);
    }
  }

  lemma SettledDisruptsNothing(g: Goal, dp: Dp, drop: bool)
    requires ValidGoal(g) && Settled(g, dp, drop)
    ensures !WouldDisrupt(g, dp, drop)
  {
  }

  // ---------------------------------------------------------------- the mutations a run issues

  predicate Dropped(g: Goal, dp: Dp, drop: bool, id: PoolID) {
    drop && id in dp.pools && id !in g.pools
  }

  /** The pool call of the run takes the pool's children away. */
  predicate Cleared(g: Goal, dp: Dp, drop: bool, id: PoolID) {
    Resets(g.pools, dp.pools, id) || Dropped(g, dp, drop, id)
  }

  /** A run that starts at dp may issue m. */
  ghost predicate Planned(m: Mutation, g: Goal, dp: Dp, drop: bool) {
    match m
    case PoolAdd(id, hard) => id in g.pools && Encodes(hard, g.pools[id]) && ActionFor(g.pools, dp.pools, id) != Noop
    case PoolDel(id) => Dropped(g, dp, drop, id)
    case ChildAdd(k) => k in g.children && (Resets(g.pools, dp.pools, k.pool) || k !in dp.children)
    case ChildDel(k) => drop && k in dp.children && k !in g.children
  }

  /** log extends before by planned mutations. */
  ghost predicate Extends(log: seq<Mutation>, before: seq<Mutation>, g: Goal, dp: Dp, drop: bool) {
    before <= log && forall i :: |before| <= i < |log| ==> Planned(log[i], g, dp, drop)
  }

  lemma PlannedIsSafe(m: Mutation, g: Goal, dp: Dp, drop: bool)
    requires Planned(m, g, dp, drop) && !WouldDisrupt(g, dp, drop)
    ensures !Disrupts(m, dp)
  {
  }

  lemma SettledPlansNothing(m: Mutation, g: Goal, dp: Dp, drop: bool)
    requires ValidGoal(g) && Settled(g, dp, drop)
    ensures !Planned(m, g, dp, drop)
  {
  }

  // ---------------------------------------------------------------- the dataplane after a mutation

  /** Adding over equal hard fields updates the soft ones; otherwise the pool is new and empty. */
  function AddedPool(dp: Dp, id: PoolID, hard: Hard, soft: Soft): Dp {
    if id in dp.pools && dp.pools[id].hard == hard
    then dp.(pools := dp.pools[id := dp.pools[id].(soft := soft)])
    else Dp(dp.pools[id := DpPool(hard, soft, 0)], Without(dp.children, id))
  }

  function DeletedPool(dp: Dp, id: PoolID): Dp {
    Dp(dp.pools - {id}, Without(dp.children, id))
  }

  function Without(children: set<Child>, id: PoolID): set<Child> {
    set k | k in children && k.pool != id
  }

  /** What the mutation does to the dataplane. */
  function Mutated(dp: Dp, m: Mutation, soft: Soft): Dp {
    match m
    case PoolAdd(id, hard) => AddedPool(dp, id, hard, soft)
    case PoolDel(id) => DeletedPool(dp, id)
    case ChildAdd(k) => dp.(children := dp.children + {k})
    case ChildDel(k) => dp.(children := dp.children - {k})
  }

  /** A mutation disrupts exactly when a pool with mappings loses them, a hard field or a child; to
      delete a child that is not there disrupts nothing. */
  lemma DisruptsIff(dp: Dp, m: Mutation, soft: Soft)
    requires m.ChildDel? ==> m.child in dp.children
    ensures Disrupts(m, dp) <==> !KeepsActive(dp, Mutated(dp, m, soft))
  {
    if Disrupts(m, dp) {
      match m
      case PoolAdd(id, _) => assert Active(dp.pools, id);
      case PoolDel(id) => assert Active(dp.pools, id);
      case ChildDel(k) => assert Active(dp.pools, k.pool);
    }
  }

  // ---------------------------------------------------------------- and after some of the plans

  function PoolsAfter(g: Goal, dp: Dp, drop: bool, done: set<PoolID>): map<PoolID, DpPool> {
    map id | id in dp.pools.Keys + g.pools.Keys * done && !(id in done && Dropped(g, dp, drop, id)) ::
      if id in done then TargetPool(g.pools, dp.pools, id) else dp.pools[id]
  }

  function ChildrenAfter(g: Goal, dp: Dp, drop: bool, done: set<PoolID>): set<Child> {
    set k | k in dp.children && !(k.pool in done && Cleared(g, dp, drop, k.pool))
  }

  function After(g: Goal, dp: Dp, drop: bool, done: set<PoolID>): Dp {
    Dp(PoolsAfter(g, dp, drop, done), ChildrenAfter(g, dp, drop, done))
  }

  function Apply(g: Goal, dp: Dp, drop: bool, id: PoolID, now: Dp): Dp
    requires id in g.pools || id in dp.pools
  {
    match ActionFor(g.pools, dp.pools, id)
    case Noop => now
    case Drop => if drop then DeletedPool(now, id) else now
    case _ => AddedPool(now, id, HardOf(g.pools[id]), g.pools[id].soft)
  }

  lemma OneMorePools(g: Goal, dp: Dp, drop: bool, done: set<PoolID>, id: PoolID)
    requires id !in done && (id in g.pools || id in dp.pools)
    ensures Apply(g, dp, drop, id, After(g, dp, drop, done)).pools == PoolsAfter(g, dp, drop, done + {id})
  {
    DriftMatters(g, dp, id);
  }

  lemma OneMoreChildren(g: Goal, dp: Dp, drop: bool, done: set<PoolID>, id: PoolID)
    requires id !in done && (id in g.pools || id in dp.pools)
    ensures Apply(g, dp, drop, id, After(g, dp, drop, done)).children == ChildrenAfter(g, dp, drop, done + {id})
  {
  }

  /** Executing one more plan moves the dataplane to the state after one more plan. */
  lemma OneMorePlan(g: Goal, dp: Dp, drop: bool, done: set<PoolID>, id: PoolID)
    requires id !in done && (id in g.pools || id in dp.pools)
    ensures Apply(g, dp, drop, id, After(g, dp, drop, done)) == After(g, dp, drop, done + {id})
  {
    OneMorePools(g, dp, drop, done, id);
    OneMoreChildren(g, dp, drop, done, id);
  }

  lemma DriftMatters(g: Goal, dp: Dp, id: PoolID)
    ensures id in g.pools && id in dp.pools ==>
              (|DriftFields(dp.pools[id].hard, g.pools[id])| > 0 <==> Resets(g.pools, dp.pools, id))
  {
  }

  /** After every plan the pools are the wanted ones, and the children those not cleared. */
  lemma AllPlans(g: Goal, dp: Dp, drop: bool, done: set<PoolID>)
    requires g.pools.Keys + dp.pools.Keys <= done
    ensures PoolsAfter(g, dp, drop, done) == TargetPools(g.pools, dp.pools, drop)
  {
  }
}
