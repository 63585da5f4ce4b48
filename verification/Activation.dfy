/** The per-session activation protocol of internal/cgnat/component.go as a state machine.

    The event bus starts every handler in its own goroutine, so a step here is one stretch
    under one lock: beginActivation, GetOrAllocate, each part of the asynchronous dataplane
    callback, and each part of a release. Steps of different handlers interleave freely.
    No HA-synced record exists, so every activation goes through GetOrAllocate. */
module Activation {
  import opened PoolModel
  import opened ReverseIndex

  /** What classifySession resolves a port-block session to; VRF is always 0. */
  datatype Session = Session(key: Key, pool: string, swIfIndex: nat)

  type Sessions = map<string, Session>

  /** Where an activation that won its slot stands. */
  datatype Act =
    | Begun
    | Calling(m: Mapping)
    | Failed
    | Committing(m: Mapping)
    | Indexing(m: Mapping)
    | Finishing

  /** Where a release that found its session committed stands. */
  datatype RelPc =
    | Started
    | Removing(ms: seq<Mapping>)
    | Freeing
    | Forgetting

  datatype Rel = Rel(sid: string, pool: string, pc: RelPc)

  datatype State = State(
    pools: map<string, Pool>,
    rev: Index,
    sessionPool: map<string, string>,
    activations: set<string>,
    act: map<string, Act>,
    rel: map<nat, Rel>,
    nextId: nat)

  datatype Event =
    | Activate(sid: string)
    | GetBlock(sid: string)
    | Callback(sid: string, ok: bool)
    | RollBack(sid: string)
    | Commit(sid: string)
    | AddReverse(sid: string)
    | Done(sid: string)
    | Release(sid: string, tid: nat)
    | GetMappings(tid: nat)
    | RemoveReverse(tid: nat)
    | FreeBlocks(tid: nat)
    | Forget(tid: nat)

  predicate ValidPools(pools: map<string, Pool>) {
    forall n :: n in pools ==> ValidConfig(pools[n].cfg)
  }

  // ---------------------------------------------------------------- the steps

  function DoGetBlock(s: State, sid: string, info: Session): State
    requires ValidPools(s.pools)
  {
    if info.pool !in s.pools then s.(act := s.act[sid := Finishing])
    else
      var (p, r) := GetOrAllocate(s.pools[info.pool], info.key, info.swIfIndex);
      var act :=
        if r.Err? then Finishing
        else if r.value.isNew then Calling(r.value.mapping)
        else Committing(r.value.mapping);
      s.(pools := s.pools[info.pool := p], act := s.act[sid := act])
  }

  function DoRelease(s: State, pool: string, key: Key): map<string, Pool>
    requires ValidPools(s.pools)
  {
    if pool in s.pools then s.pools[pool := PoolModel.Release(s.pools[pool], key)] else s.pools
  }

  /** One step; an event that does not fit the state changes nothing. */
  function Next(c: Sessions, s: State, e: Event): (s': State)
    requires ValidPools(s.pools)
    ensures ValidPools(s'.pools)
  {
    match e
    case Activate(sid) =>
      if sid !in c || sid in s.sessionPool || sid in s.activations then s
      else s.(activations := s.activations + {sid}, act := s.act[sid := Begun])
    case GetBlock(sid) =>
      if sid in s.act && sid in c && s.act[sid].Begun? then DoGetBlock(s, sid, c[sid]) else s
    case Callback(sid, ok) =>
      if sid in s.act && s.act[sid].Calling? then
        s.(act := s.act[sid := if ok then Committing(s.act[sid].m) else Failed])
      else s
    case RollBack(sid) =>
      if sid in s.act && sid in c && s.act[sid].Failed? then
        s.(pools := DoRelease(s, c[sid].pool, c[sid].key), act := s.act[sid := Finishing])
      else s
    case Commit(sid) =>
      if sid in s.act && sid in c && s.act[sid].Committing? then
        s.(sessionPool := s.sessionPool[sid := c[sid].pool], act := s.act[sid := Indexing(s.act[sid].m)])
      else s
    case AddReverse(sid) =>
      if sid in s.act && s.act[sid].Indexing? then
        s.(rev := AddRef(s.rev, Ref(s.nextId, s.act[sid].m)), nextId := s.nextId + 1, act := s.act[sid := Finishing])
      else s
    case Done(sid) =>
      if sid in s.act && s.act[sid].Finishing? then
        s.(activations := s.activations - {sid}, act := s.act - {sid})
      else s
    case Release(sid, tid) =>
      if sid in c && sid in s.sessionPool && tid !in s.rel then
        s.(rel := s.rel[tid := Rel(sid, s.sessionPool[sid], Started)])
      else s
    case GetMappings(tid) =>
      if tid in s.rel && s.rel[tid].pc.Started? && s.rel[tid].sid in c then
        var r := s.rel[tid];
        var ms := if r.pool in s.pools then SubMappings(s.pools[r.pool], c[r.sid].key) else [];
        s.(rel := s.rel[tid := r.(pc := if ms == [] then Forgetting else Removing(ms))])
      else s
    case RemoveReverse(tid) =>
      if tid in s.rel && s.rel[tid].pc.Removing? then
        var r := s.rel[tid];
        if r.pc.ms == [] then s.(rel := s.rel[tid := r.(pc := Freeing)])
        else
          var b := r.pc.ms[0].outside;
          s.(rev := RemoveAt(s.rev, BlockKey(b.ip, b.start)), rel := s.rel[tid := r.(pc := Removing(r.pc.ms[1..]))])
      else s
    case FreeBlocks(tid) =>
      if tid in s.rel && s.rel[tid].pc.Freeing? && s.rel[tid].sid in c then
        var r := s.rel[tid];
        s.(pools := DoRelease(s, r.pool, c[r.sid].key), rel := s.rel[tid := r.(pc := Forgetting)])
      else s
    case Forget(tid) =>
      if tid in s.rel && s.rel[tid].pc.Forgetting? then
        s.(sessionPool := s.sessionPool - {s.rel[tid].sid}, rel := s.rel - {tid})
      else s
  }

  function Run(c: Sessions, s: State, es: seq<Event>): (s': State)
    requires ValidPools(s.pools)
    ensures ValidPools(s'.pools)
  {
    if es == [] then s else Next(c, Run(c, s, es[..|es| - 1]), es[|es| - 1])
  }

  // ---------------------------------------------------------------- invariant

  /** The two sessions use one inside address of one pool. */
  predicate SameSlot(c: Sessions, x: string, y: string) {
    x in c && y in c && c[x].pool == c[y].pool && c[x].key == c[y].key
  }

  predicate Releasing(s: State, sid: string, tid: nat) {
    tid in s.rel && s.rel[tid].sid == sid
  }

  /** No release of the session is running. */
  ghost predicate NotReleasing(s: State, sid: string) {
    forall tid :: !Releasing(s, sid, tid)
  }

  /** A release of the session has freed its block and only has to forget the session. */
  ghost predicate Freed(s: State, sid: string) {
    exists tid :: Releasing(s, sid, tid) && s.rel[tid].pc.Forgetting?
  }

  predicate InFlight(s: State, sid: string) {
    sid in s.act && (s.act[sid].Calling? || s.act[sid].Failed? || s.act[sid].Committing?)
  }

  /** The session should hold a block: its activation is between allocation and commit, or
      it is committed and no release has freed it yet. */
  ghost predicate Owed(s: State, sid: string) {
    InFlight(s, sid) || (sid in s.sessionPool && !Freed(s, sid))
  }

  /** The session may still take or give up the block of its slot. */
  ghost predicate Claims(s: State, sid: string) {
    || sid in s.sessionPool
    || (sid in s.act && (s.act[sid].Begun? || InFlight(s, sid)))
    || exists tid :: Releasing(s, sid, tid) && !s.rel[tid].pc.Forgetting?
  }

  /** No other session claims this session's slot. */
  ghost predicate Alone(c: Sessions, s: State, sid: string) {
    forall x :: x != sid && SameSlot(c, sid, x) ==> !Claims(s, x)
  }

  predicate InTable(pools: map<string, Pool>, info: Session) {
    info.pool in pools && info.key in pools[info.pool].subs
  }

  /** What the table says about the session's mapping. */
  function TableMapping(pools: map<string, Pool>, info: Session): Mapping
    requires InTable(pools, info) && pools[info.pool].subs[info.key].blocks != []
  {
    var p := pools[info.pool];
    MappingOf(p, info.key, p.subs[info.key].blocks[0], p.subs[info.key].swIfIndex)
  }

  predicate OneBlock(pools: map<string, Pool>, info: Session) {
    InTable(pools, info) && |pools[info.pool].subs[info.key].blocks| == 1
  }

  ghost predicate PoolsInv(pools: map<string, Pool>) {
    forall n :: n in pools ==> Inv(pools[n]) && pools[n].name == n
  }

  /** Every entry of the tables has a session that should hold it. */
  ghost predicate OnlyOwed(c: Sessions, s: State) {
    forall n, k :: n in s.pools && k in s.pools[n].subs ==>
      exists sid :: sid in c && c[sid].pool == n && c[sid].key == k && Owed(s, sid)
  }

  ghost predicate ActOk(c: Sessions, s: State, sid: string)
    requires sid in c
  {
    && (sid in s.act <==> sid in s.activations)
    && (InFlight(s, sid) || (sid in s.act && s.act[sid].Begun?) ==> sid !in s.sessionPool && NotReleasing(s, sid))
    && (sid in s.sessionPool ==> s.sessionPool[sid] == c[sid].pool)
    && (sid in s.act && (s.act[sid].Calling? || s.act[sid].Committing?) ==>
          OneBlock(s.pools, c[sid]) && s.act[sid].m == TableMapping(s.pools, c[sid]))
  }

  /** The session holds exactly one block when it should hold one, and its slot is empty otherwise. */
  ghost predicate BlockOk(c: Sessions, s: State, sid: string)
    requires sid in c
  {
    if Owed(s, sid) then OneBlock(s.pools, c[sid]) else !InTable(s.pools, c[sid])
  }

  ghost predicate SessionOk(c: Sessions, s: State, sid: string)
    requires sid in c
  {
    && ActOk(c, s, sid)
    && (Owed(s, sid) ==> OneBlock(s.pools, c[sid]))
    && (Claims(s, sid) ==> Alone(c, s, sid))
  }

  predicate RelOk(c: Sessions, s: State, tid: nat)
    requires tid in s.rel
  {
    s.rel[tid].sid in c && s.rel[tid].pool == c[s.rel[tid].sid].pool
  }

  /** The handlers know only configured sessions. */
  predicate KnownSessions(c: Sessions, s: State) {
    s.act.Keys <= c.Keys && s.activations <= c.Keys && s.sessionPool.Keys <= c.Keys
  }

  /** Every session's phase agrees with the tables, and one session at a time claims a slot. */
  ghost predicate PhasesOk(c: Sessions, s: State) {
    && KnownSessions(c, s)
    && (forall sid :: sid in c ==> SessionOk(c, s, sid))
    && (forall tid :: tid in s.rel ==> RelOk(c, s, tid))
    && OnlyOwed(c, s)
  }

  ghost predicate SafeState(c: Sessions, s: State) {
    PoolsInv(s.pools) && PhasesOk(c, s)
  }

  /** An activation takes effect only when no other session claims the slot and no release of the
      session is still running. */
  ghost predicate SoundActivate(c: Sessions, s: State, e: Event) {
    e.Activate? && e.sid in c && e.sid !in s.sessionPool && e.sid !in s.activations ==>
      Alone(c, s, e.sid) && NotReleasing(s, e.sid)
  }
}
