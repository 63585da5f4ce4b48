/** The timing wheel that re-sends Router Advertisements (internal/pppoe/ra.go, with
    RefreshInterval of internal/ra/ra.go). Time is counted in one-second ticks. */
module RaWheel {
  import opened Collections
  import opened Optional
  import opened IdList

  const MAX_LIFETIME: nat := 9000
  const MIN_BUCKETS: nat := 10
  const MAX_BUCKETS: nat := 600
  const INITIAL_ADVERTS: nat := 3
  const INITIAL_INTERVAL: nat := 16
  const INITIAL_PER_TICK: nat := 2048
  const KICK_BUFFER: nat := 8192

  // ---------------------------------------------------------------- intervals

  /** The Router Lifetime field of the advertisement. */
  function Advertised(routerLifetime: nat): nat {
    if routerLifetime > MAX_LIFETIME then MAX_LIFETIME else routerLifetime
  }

  function MinOf(minInterval: nat): nat {
    if minInterval == 0 then 3 else minInterval
  }

  function RefreshInterval(routerLifetime: nat, maxInterval: nat, minInterval: nat): nat {
    if routerLifetime == 0 then 0 else
      var third := Advertised(routerLifetime) / 3;
      var most := if maxInterval == 0 then 600 else maxInterval;
      var refresh := if third < most then third else most;
      var spaced := if refresh < MinOf(minInterval) then MinOf(minInterval) else refresh;
      if spaced < 1 then 1 else spaced
  }

  function Max(a: nat, b: nat): nat {
    if a < b then b else a
  }

  /** The refresh of a default router keeps within a third of the advertised lifetime and within the
      maximum interval, 600 when not set, unless the minimum, 3 when not set, forces it up; it is the
      longest interval that does. Zero exactly for no default router. */
  lemma RefreshIsLongest(routerLifetime: nat, maxInterval: nat, minInterval: nat)
    ensures var r := RefreshInterval(routerLifetime, maxInterval, minInterval);
      && (r == 0 <==> routerLifetime == 0)
      && (routerLifetime > 0 ==>
            var most := if maxInterval == 0 then 600 else maxInterval;
            var least := if minInterval == 0 then 3 else minInterval;
            var third := (if routerLifetime > 9000 then 9000 else routerLifetime) / 3;
            && least <= r && (r == least || (r <= third && r <= most))
            && (third <= r || most <= r))
  {
  }

  /** computeRABucketCount over the refresh intervals of the advertising groups. */
  method BucketCount(refreshes: seq<nat>) returns (n: nat)
    ensures 10 <= n <= 600
    ensures forall i :: 0 <= i < |refreshes| && refreshes[i] > 0 ==> n <= Max(10, refreshes[i])
    ensures || n == 600
            || exists i :: 0 <= i < |refreshes| && refreshes[i] > 0 && n == Max(10, refreshes[i])
  {
    n := MAX_BUCKETS;
    for i := 0 to |refreshes|
      invariant 0 < n <= MAX_BUCKETS
      invariant forall j :: 0 <= j < i && refreshes[j] > 0 ==> n <= refreshes[j]
      invariant n == MAX_BUCKETS || exists j :: 0 <= j < i && refreshes[j] > 0 && n == refreshes[j]
    {
      if refreshes[i] > 0 && refreshes[i] < n {
        n := refreshes[i];
      }
    }
    if n < MIN_BUCKETS {
      n := MIN_BUCKETS;
    }
  }

  // ---------------------------------------------------------------- state

  /** refresh(id) is the interval of the session's group, n the bucket count. */
  datatype Wheel = Wheel(n: nat, hash: string -> nat, refresh: string -> nat)

  ghost predicate ValidWheel(w: Wheel) {
    w.n > 0 && forall id :: w.refresh(id) > 0
  }

  function BucketOf(w: Wheel, id: string): (b: nat)
    requires w.n > 0
    ensures b < w.n
  {
    w.hash(id) % w.n
  }

  /** due is nextRADue, None for the zero time. since and last are history: when the session came
      up and when it was last advertised to. */
  datatype Session = Session(up: bool, left: nat, due: Option<nat>, since: nat, last: Option<nat>)

  /** now is the time of the next tick, which walks bucket cursor. kicks is the channel raKicks. inEmit
      is the session the emitter has just sent to and whose next due time it has not stored yet. */
  datatype State = State(
    now: nat, cursor: nat, buckets: seq<seq<string>>, initial: set<string>, sessions: map<string, Session>,
    kicks: seq<string>, inEmit: Option<string>)

  function Start(w: Wheel): State {
    State(0, 0, seq(w.n, _ => []), {}, map[], [], None)
  }

  // ---------------------------------------------------------------- steps

  function Place(w: Wheel, buckets: seq<seq<string>>, id: string): (r: seq<seq<string>>)
    requires w.n > 0 && |buckets| == w.n
    ensures |r| == w.n
  {
    var b := BucketOf(w, id);
    if id == "" || id in buckets[b] then buckets else buckets[b := buckets[b] + [id]]
  }

  function Remove(w: Wheel, buckets: seq<seq<string>>, id: string): (r: seq<seq<string>>)
    requires w.n > 0 && |buckets| == w.n
    ensures |r| == w.n
  {
    var b := BucketOf(w, id);
    if id == "" then buckets else buckets[b := RemoveFirst(buckets[b], id)]
  }

  predicate Due(s: Session, now: nat) {
    s.up && (s.due.None? || s.due.value <= now)
  }

  /** The second critical section of emitPeriodicRA, whatever became of the session meanwhile. */
  function Stored(s: Session, now: nat, refresh: nat): Session {
    var left := if s.left > 0 then s.left - 1 else 0;
    s.(left := left, due := Some(now + if left > 0 then INITIAL_INTERVAL else refresh))
  }

  /** emitPeriodicRA when nothing comes between: sends when due, then sets the next due time. */
  function Offer(s: Session, now: nat, refresh: nat): Session {
    if Due(s, now) then Stored(s.(last := Some(now)), now, refresh) else s
  }

  /** Send and Store are the two critical sections of one emit of the tick at hand, for an emit that
      something comes between; a tick does the other emits as a whole. Kick takes the channel's first. */
  datatype Event =
    | Up(id: string)
    | Restore(id: string)
    | Down(id: string)
    | Kick
    | Tick(visited: set<string>)
    | Send(id: string)
    | Store

  predicate Bursting(s: Session) {
    s.up && s.left > 0
  }

  function AfterBucket(w: Wheel, st: State): map<string, Session>
    requires st.cursor < |st.buckets|
  {
    map id | id in st.sessions ::
      if id in st.buckets[st.cursor] then Offer(st.sessions[id], st.now, w.refresh(id)) else st.sessions[id]
  }

  function AfterWalk(w: Wheel, sessions: map<string, Session>, walked: set<string>, now: nat): map<string, Session> {
    map id | id in sessions ::
      if id in walked && Bursting(sessions[id]) then Offer(sessions[id], now, w.refresh(id)) else sessions[id]
  }

  /** The walked sessions that are still in their burst, with the ones not walked. */
  function StillInitial(initial: set<string>, walked: set<string>, sessions: map<string, Session>): set<string> {
    set id | id in initial && (id in walked ==> id in sessions && Bursting(sessions[id]))
  }

  /** The tick at hand visits the session, and it is due. */
  predicate Sends(st: State, id: string)
    requires st.cursor < |st.buckets|
  {
    && st.inEmit.None? && id in st.sessions && Due(st.sessions[id], st.now)
    && (id in st.buckets[st.cursor] || (id in st.initial && Bursting(st.sessions[id])))
  }

  function Next(w: Wheel, st: State, e: Event): State
    requires w.n > 0 && |st.buckets| == w.n && st.cursor < w.n
  {
    match e
    case Up(id) =>
      var s := if id in st.sessions then st.sessions[id] else Session(false, 0, None, st.now, None);
      var since := if s.up then s.since else st.now;
      st.(sessions := st.sessions[id := s.(up := true, left := INITIAL_ADVERTS, since := since)],
          buckets := Place(w, st.buckets, id),
          kicks := if |st.kicks| < KICK_BUFFER then st.kicks + [id] else st.kicks)
    case Restore(id) =>
      if id in st.sessions then st
      else st.(sessions := st.sessions[id := Session(true, 0, None, st.now, None)], buckets := Place(w, st.buckets, id))
    case Down(id) =>
      if id !in st.sessions then st
      else st.(sessions := st.sessions[id := Session(false, 0, None, st.now, None)],
               buckets := Remove(w, st.buckets, id))
    case Kick =>
      if st.kicks == [] then st
      else st.(initial := st.initial + {st.kicks[0]}, kicks := st.kicks[1..])
    case Send(id) =>
      if !Sends(st, id) then st
      else st.(sessions := st.sessions[id := st.sessions[id].(last := Some(st.now))], inEmit := Some(id))
    case Store =>
      if st.inEmit.None? || st.inEmit.value !in st.sessions then st.(inEmit := None)
      else
        var id := st.inEmit.value;
        st.(sessions := st.sessions[id := Stored(st.sessions[id], st.now, w.refresh(id))], inEmit := None)
    case Tick(visited) =>
      if st.inEmit.Some? then st else
      var walked, sessions := visited * st.initial, AfterBucket(w, st);
      st.(now := st.now + 1, cursor := if st.cursor + 1 == w.n then 0 else st.cursor + 1,
          sessions := AfterWalk(w, sessions, walked, st.now), initial := StillInitial(st.initial, walked, sessions))
  }

  function Run(w: Wheel, st: State, events: seq<Event>): State
    requires w.n > 0 && |st.buckets| == w.n && st.cursor < w.n
    decreases |events|
  {
    if events == [] then st else Run(w, Next(w, st, events[0]), events[1..])
  }

  // ---------------------------------------------------------------- each session in one slot

  /** Every slot holds a session in its own hash bucket, and no session twice. */
  ghost predicate OneSlot(w: Wheel, buckets: seq<seq<string>>)
    requires w.n > 0
  {
    && |buckets| == w.n
    && (forall b, id :: 0 <= b < w.n && id in buckets[b] ==> BucketOf(w, id) == b)
    && (forall b :: 0 <= b < w.n ==> Distinct(buckets[b]))
  }

  predicate IsUp(st: State, id: string) {
    id in st.sessions && st.sessions[id].up
  }

  /** Exactly the sessions that are up are enrolled. */
  ghost predicate UpIsEnrolled(w: Wheel, st: State)
    requires w.n > 0 && |st.buckets| == w.n
  {
    forall id :: id in st.buckets[BucketOf(w, id)] <==> IsUp(st, id) && id != ""
  }

  lemma PlaceKeeps(w: Wheel, buckets: seq<seq<string>>, id: string)
    requires w.n > 0 && OneSlot(w, buckets)
    ensures OneSlot(w, Place(w, buckets, id))
    ensures forall x :: x in Place(w, buckets, id)[BucketOf(w, x)] <==>
              x in buckets[BucketOf(w, x)] || (x == id && id != "")
  {
  }

  lemma RemoveKeeps(w: Wheel, buckets: seq<seq<string>>, id: string)
    requires w.n > 0 && OneSlot(w, buckets)
    requires "" !in buckets[BucketOf(w, "")]
    ensures OneSlot(w, Remove(w, buckets, id))
    ensures forall x :: x in Remove(w, buckets, id)[BucketOf(w, x)] <==> x in buckets[BucketOf(w, x)] && x != id
  {
    var b := BucketOf(w, id);
    RemoveFirstIs(buckets[b], id);
  }

  // ---------------------------------------------------------------- the deadline

  /** Ticks until the wheel reaches bucket b. */
  function Distance(n: nat, cursor: nat, b: nat): nat
    requires cursor < n && b < n
  {
    if b >= cursor then b - cursor else b + n - cursor
  }

  function Gap(w: Wheel, id: string): nat {
    Max(w.refresh(id), INITIAL_INTERVAL)
  }

  /** An advertisement that has been due since d is sent at the next visit, at most n - 1 ticks later. */
  predicate VisitedSoon(w: Wheel, st: State, id: string, d: nat)
    requires w.n > 0 && st.cursor < w.n
  {
    st.now > d ==> st.now + Distance(w.n, st.cursor, BucketOf(w, id)) <= d + w.n - 1
  }

  /** While down a session may keep a due time that an emit stored late; after it comes up that delays
      its first advertisement. Between the halves of an emit no time passes. */
  predicate OnTime(w: Wheel, st: State, id: string)
    requires w.n > 0 && st.cursor < w.n && id in st.sessions
  {
    var s := st.sessions[id];
    && (s.since <= st.now)
    && (if !s.up then s.last.None? && (s.due.Some? ==> s.due.value <= st.now + Gap(w, id))
        else if st.inEmit == Some(id) then (s.last.None? && s.since == st.now) || s.last == Some(st.now)
        else Awaits(w, st, id, s))
    && (st.inEmit == Some(id) && s.due.Some? ==> s.due.value <= st.now + Gap(w, id))
  }

  predicate Awaits(w: Wheel, st: State, id: string, s: Session)
    requires w.n > 0 && st.cursor < w.n
  {
    if s.last.None? then
      if s.due.None? then VisitedSoon(w, st, id, s.since)
      else s.due.value <= s.since + Gap(w, id) && VisitedSoon(w, st, id, Max(s.since, s.due.value))
    else
      && s.due.Some? && s.last.value <= st.now && s.due.value <= s.last.value + Gap(w, id)
      && VisitedSoon(w, st, id, s.due.value)
  }

  ghost predicate Inv(w: Wheel, st: State) {
    && w.n > 0 && st.cursor < w.n
    && OneSlot(w, st.buckets) && UpIsEnrolled(w, st)
    && forall id :: id in st.sessions && id != "" ==> OnTime(w, st, id)
  }

  lemma StartInv(w: Wheel)
    requires ValidWheel(w)
    ensures Inv(w, Start(w))
  {
  }

  lemma NextInv(w: Wheel, st: State, e: Event)
    requires ValidWheel(w) && Inv(w, st)
    ensures Inv(w, Next(w, st, e))
  {
    match e
    case Up(id) => UpInv(w, st, id);
    case Restore(id) => RestoreInv(w, st, id);
    case Down(id) => DownInv(w, st, id);
    case Kick => KickInv(w, st);
    case Send(id) => SendInv(w, st, id);
    case Store => StoreInv(w, st);
    case Tick(visited) => TickInv(w, st, visited);
  }

  lemma UpInv(w: Wheel, st: State, id: string)
    requires ValidWheel(w) && Inv(w, st)
    ensures Inv(w, Next(w, st, Up(id)))
  {
    var st' := Next(w, st, Up(id));
    PlaceKeeps(w, st.buckets, id);
    forall x | x in st'.sessions && x != ""
      ensures OnTime(w, st', x)
    {
      UpOnTime(w, st, id, x);
    }
  }

  lemma UpOnTime(w: Wheel, st: State, id: string, x: string)
    requires w.n > 0 && st.cursor < w.n && |st.buckets| == w.n && (x in st.sessions ==> OnTime(w, st, x))
    ensures x in Next(w, st, Up(id)).sessions ==> OnTime(w, Next(w, st, Up(id)), x)
  {
  }

  lemma RestoreInv(w: Wheel, st: State, id: string)
    requires ValidWheel(w) && Inv(w, st)
    ensures Inv(w, Next(w, st, Restore(id)))
  {
    PlaceKeeps(w, st.buckets, id);
    assert forall x :: x in st.sessions && x != "" ==> OnTime(w, st, x);
  }

  lemma DownInv(w: Wheel, st: State, id: string)
    requires ValidWheel(w) && Inv(w, st)
    ensures Inv(w, Next(w, st, Down(id)))
  {
    RemoveKeeps(w, st.buckets, id);
    assert forall x :: x in st.sessions && x != "" ==> OnTime(w, st, x);
  }

  lemma KickInv(w: Wheel, st: State)
    requires ValidWheel(w) && Inv(w, st)
    ensures Inv(w, Next(w, st, Kick))
  {
    assert forall x :: x in st.sessions && x != "" ==> OnTime(w, st, x);
  }

  lemma SendInv(w: Wheel, st: State, id: string)
    requires ValidWheel(w) && Inv(w, st)
    ensures Inv(w, Next(w, st, Send(id)))
  {
    var st' := Next(w, st, Send(id));
    forall x | x in st'.sessions && x != ""
      ensures OnTime(w, st', x)
    {
      assert OnTime(w, st, x);
    }
  }

  lemma StoreInv(w: Wheel, st: State)
    requires ValidWheel(w) && Inv(w, st)
    ensures Inv(w, Next(w, st, Store))
  {
    var st' := Next(w, st, Store);
    forall x | x in st'.sessions && x != ""
      ensures OnTime(w, st', x)
    {
      assert OnTime(w, st, x);
    }
  }

  lemma TickInv(w: Wheel, st: State, visited: set<string>)
    requires ValidWheel(w) && Inv(w, st)
    ensures Inv(w, Next(w, st, Tick(visited)))
  {
    var st' := Next(w, st, Tick(visited));
    if st.inEmit.None? {
      forall id | id in st.sessions && id != ""
        ensures OnTime(w, st', id)
      {
        assert OnTime(w, st, id);
        assert id in st.buckets[BucketOf(w, id)] <==> IsUp(st, id);
        TickOnTime(w, st, visited, id);
      }
    }
  }

  /** One tick for one session: offered when its bucket or the burst walk comes round. */
  lemma TickOnTime(w: Wheel, st: State, visited: set<string>, id: string)
    requires ValidWheel(w) && st.cursor < w.n && |st.buckets| == w.n
    requires st.inEmit.None? && id in st.sessions && OnTime(w, st, id)
    requires st.sessions[id].up && st.cursor == BucketOf(w, id) ==> id in st.buckets[st.cursor]
    ensures OnTime(w, Next(w, st, Tick(visited)), id)
    ensures Next(w, st, Tick(visited)).sessions[id].up == st.sessions[id].up
  {
  }

  lemma {:induction false} RunInv(w: Wheel, st: State, events: seq<Event>)
    requires ValidWheel(w) && Inv(w, st)
    ensures Inv(w, Run(w, st, events))
    decreases |events|
  {
    if events != [] {
      NextInv(w, st, events[0]);
      RunInv(w, Next(w, st, events[0]), events[1..]);
    }
  }

  /** Over every run a session that is up is never more than max(refresh, 16) + n - 1 ticks
      without an advertisement. Its first one comes within n ticks, unless it came up with a due time
      from an emit that a Down interrupted; then the longer bound holds for it too. */
  lemma Deadline(w: Wheel, events: seq<Event>, id: string)
    requires ValidWheel(w) && id != ""
    requires IsUp(Run(w, Start(w), events), id)
    ensures var st := Run(w, Start(w), events); var s := st.sessions[id];
      && (s.last.Some? ==> st.now - s.last.value <= Gap(w, id) + w.n - 1)
      && (s.last.None? ==> st.now - s.since <= Gap(w, id) + w.n - 1)
      && (s.last.None? && s.due.None? ==> st.now - s.since <= w.n - 1)
  {
    StartInv(w);
    RunInv(w, Start(w), events);
    assert OnTime(w, Run(w, Start(w), events), id);
  }

  // ---------------------------------------------------------------- the burst

  /** The session has no burst to send. */
  predicate NoBurst(st: State, id: string) {
    id in st.sessions ==> st.sessions[id].left == 0
  }

  lemma NoBurstStep(w: Wheel, st: State, e: Event, id: string)
    requires w.n > 0 && |st.buckets| == w.n && st.cursor < w.n && NoBurst(st, id) && e != Up(id)
    ensures NoBurst(Next(w, st, e), id)
  {
    match e
    case Up(_) =>
    case Restore(_) =>
    case Down(_) =>
    case Kick =>
    case Send(_) =>
    case Store =>
    case Tick(_) =>
  }

  /** Only coming up starts a burst: a session that is merely restored never gets one. */
  lemma {:induction false} OnlyUpBursts(w: Wheel, st: State, events: seq<Event>, id: string)
    requires w.n > 0 && |st.buckets| == w.n && st.cursor < w.n && NoBurst(st, id) && Up(id) !in events
    ensures NoBurst(Run(w, st, events), id)
    decreases |events|
  {
    if events != [] {
      NoBurstStep(w, st, events[0], id);
      OnlyUpBursts(w, Next(w, st, events[0]), events[1..], id);
    }
  }

  // ---------------------------------------------------------------- the first advertisement

  /** No Down of the session comes between the halves of an emit to it. */
  predicate NotTorn(st: State, e: Event, id: string) {
    e == Down(id) ==> st.inEmit != Some(id)
  }

  predicate NeverTorn(w: Wheel, st: State, events: seq<Event>, id: string)
    requires w.n > 0 && |st.buckets| == w.n && st.cursor < w.n
    decreases |events|
  {
    events == [] || (NotTorn(st, events[0], id) && NeverTorn(w, Next(w, st, events[0]), events[1..], id))
  }

  /** A due time only ever follows an advertisement. */
  predicate DueFollows(st: State, id: string) {
    id in st.sessions ==>
      (st.sessions[id].last.None? ==> st.sessions[id].due.None? && st.inEmit != Some(id))
  }

  lemma DueFollowsStep(w: Wheel, st: State, e: Event, id: string)
    requires w.n > 0 && |st.buckets| == w.n && st.cursor < w.n
    requires DueFollows(st, id) && NotTorn(st, e, id) && (id !in st.sessions ==> st.inEmit != Some(id))
    ensures DueFollows(Next(w, st, e), id)
    ensures id !in Next(w, st, e).sessions ==> Next(w, st, e).inEmit != Some(id)
  {
    match e
    case Up(_) =>
    case Restore(_) =>
    case Down(_) =>
    case Kick =>
    case Send(_) =>
    case Store =>
    case Tick(_) =>
  }

  lemma {:induction false} DueFollowsRun(w: Wheel, st: State, events: seq<Event>, id: string)
    requires w.n > 0 && |st.buckets| == w.n && st.cursor < w.n
    requires DueFollows(st, id) && (id !in st.sessions ==> st.inEmit != Some(id)) && NeverTorn(w, st, events, id)
    ensures DueFollows(Run(w, st, events), id)
    decreases |events|
  {
    if events != [] {
      DueFollowsStep(w, st, events[0], id);
      DueFollowsRun(w, Next(w, st, events[0]), events[1..], id);
    }
  }

  /** In a run that never tears an emit to it, the first advertisement of a session comes within a
      turn of the wheel. */
  lemma FirstWithinATurn(w: Wheel, events: seq<Event>, id: string)
    requires ValidWheel(w) && id != "" && NeverTorn(w, Start(w), events, id)
    requires IsUp(Run(w, Start(w), events), id) && Run(w, Start(w), events).sessions[id].last.None?
    ensures Run(w, Start(w), events).now - Run(w, Start(w), events).sessions[id].since <= w.n - 1
  {
    DueFollowsRun(w, Start(w), events, id);
    Deadline(w, events, id);
  }
}
