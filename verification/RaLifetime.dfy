/** When the wheel keeps a default route alive: the deadline against the advertised Router
    Lifetime, and a run that reaches the deadline. */
module RaLifetime {
  import opened Collections
  import opened Optional
  import opened IdList
  import opened RaWheel

  // ---------------------------------------------------------------- enough

  /** A refresh of at least ten seconds that honours a third of the lifetime leaves a margin. */
  lemma LifetimeCovered(routerLifetime: nat, maxInterval: nat, minInterval: nat, n: nat)
    requires routerLifetime > 0
    requires RefreshInterval(routerLifetime, maxInterval, minInterval) >= MIN_BUCKETS
    requires MinOf(minInterval) <= Advertised(routerLifetime) / 3
    requires n <= Max(MIN_BUCKETS, RefreshInterval(routerLifetime, maxInterval, minInterval))
    ensures Max(RefreshInterval(routerLifetime, maxInterval, minInterval), INITIAL_INTERVAL) + n - 1
            < Advertised(routerLifetime)
  {
  }

  /** The route of an up session is alive: its last advertisement is younger than the lifetime. */
  predicate Alive(st: State, id: string, lifetime: nat) {
    IsUp(st, id) && st.sessions[id].last.Some? ==> st.now - st.sessions[id].last.value < lifetime
  }

  /** Sections 6.2.1 and 6.2.4 of RFC 4861: the default route never expires. */
  lemma RouteNeverExpires(w: Wheel, events: seq<Event>, id: string,
                          routerLifetime: nat, maxInterval: nat, minInterval: nat)
    requires ValidWheel(w) && id != "" && routerLifetime > 0
    requires w.refresh(id) == RefreshInterval(routerLifetime, maxInterval, minInterval) >= MIN_BUCKETS
    requires w.n <= Max(MIN_BUCKETS, w.refresh(id))
    requires MinOf(minInterval) <= Advertised(routerLifetime) / 3
    ensures Alive(Run(w, Start(w), events), id, Advertised(routerLifetime))
  {
    LifetimeCovered(routerLifetime, maxInterval, minInterval, w.n);
    if IsUp(Run(w, Start(w), events), id) {
      Deadline(w, events, id);
    }
  }

  // ---------------------------------------------------------------- runs the emitter can have

  /** A tick walks the whole burst set, or stops at the per-tick bound. */
  predicate FullWalk(st: State, e: Event) {
    e.Tick? ==>
      && e.visited <= st.initial && |e.visited| <= INITIAL_PER_TICK
      && (e.visited == st.initial || |e.visited| == INITIAL_PER_TICK)
  }

  predicate ValidRun(w: Wheel, st: State, events: seq<Event>)
    requires w.n > 0 && |st.buckets| == w.n && st.cursor < w.n
    decreases |events|
  {
    events == [] || (FullWalk(st, events[0]) && ValidRun(w, Next(w, st, events[0]), events[1..]))
  }

  predicate Shaped(w: Wheel, st: State) {
    w.n > 0 && |st.buckets| == w.n && st.cursor < w.n
  }

  lemma {:induction false} RunThen(w: Wheel, st: State, a: seq<Event>, b: seq<Event>)
    requires Shaped(w, st)
    ensures Shaped(w, Run(w, st, a))
    ensures Run(w, st, a + b) == Run(w, Run(w, st, a), b)
    ensures ValidRun(w, st, a + b) <==> ValidRun(w, st, a) && ValidRun(w, Run(w, st, a), b)
    decreases |a|
  {
    if a == [] {
      assert a + b == b;
    } else {
      assert (a + b)[1..] == a[1..] + b;
      RunThen(w, Next(w, st, a[0]), a[1..], b);
    }
  }

  function TickAll(w: Wheel, st: State): (st': State)
    requires Shaped(w, st) && st.inEmit.None?
    ensures Shaped(w, st') && st'.inEmit.None?
  {
    Next(w, st, Tick(st.initial))
  }

  function Ticks(w: Wheel, st: State, k: nat): (st': State)
    requires Shaped(w, st) && st.inEmit.None?
    ensures Shaped(w, st') && st'.now == st.now + k && st'.inEmit.None?
    decreases k
  {
    if k == 0 then st else Ticks(w, TickAll(w, st), k - 1)
  }

  /** Ticks is the run of k ticks that each walk the whole burst set. */
  lemma {:induction false} TicksAreARun(w: Wheel, st: State, k: nat) returns (events: seq<Event>)
    requires Shaped(w, st) && st.inEmit.None? && |st.initial| <= 1
    ensures Run(w, st, events) == Ticks(w, st, k) && ValidRun(w, st, events)
    decreases k
  {
    if k == 0 {
      events := [];
    } else {
      var st' := TickAll(w, st);
      SubsetSize(st'.initial, st.initial);
      var rest := TicksAreARun(w, st', k - 1);
      events := [Tick(st.initial)] + rest;
      assert events[1..] == rest;
    }
  }

  /** Some run the emitter can have leads from a to b. */
  ghost predicate Reaches(w: Wheel, a: State, b: State)
    requires Shaped(w, a)
  {
    exists events :: ValidRun(w, a, events) && Run(w, a, events) == b
  }

  lemma TicksReach(w: Wheel, st: State, id: string, k: nat)
    requires Shaped(w, st) && st.inEmit.None? && st.initial <= {id}
    ensures Reaches(w, st, Ticks(w, st, k))
  {
    SubsetSize(st.initial, {id});
    var events := TicksAreARun(w, st, k);
  }

  lemma ReachesOn(w: Wheel, a: State, b: State, c: State)
    requires Shaped(w, a) && Shaped(w, b) && Reaches(w, a, b) && Reaches(w, b, c)
    ensures Reaches(w, a, c)
  {
    var p :| ValidRun(w, a, p) && Run(w, a, p) == b;
    var q :| ValidRun(w, b, q) && Run(w, b, q) == c;
    RunThen(w, a, p, q);
  }

  lemma StepReaches(w: Wheel, st: State, e: Event, st': State)
    requires Shaped(w, st) && FullWalk(st, e) && st' == Next(w, st, e)
    ensures Reaches(w, st, st')
  {
    assert Run(w, st', []) == st' && ValidRun(w, st', []);
    assert Run(w, st, [e]) == st' && ValidRun(w, st, [e]);
  }

  // ---------------------------------------------------------------- the cursor

  function Succ(n: nat, c: nat): (d: nat)
    requires c < n
    ensures d < n
  {
    if c + 1 == n then 0 else c + 1
  }

  function Spin(n: nat, c: nat, k: nat): (d: nat)
    requires c < n
    ensures d < n
    decreases k
  {
    if k == 0 then c else Spin(n, Succ(n, c), k - 1)
  }

  lemma {:induction false} FindStart(n: nat, target: nat, k: nat) returns (u: nat)
    requires target < n
    ensures u < n && Spin(n, u, k) == target
    decreases k
  {
    if k == 0 {
      u := target;
    } else {
      var v := FindStart(n, target, k - 1);
      u := if v == 0 then n - 1 else v - 1;
    }
  }

  lemma {:induction false} SpinUp(n: nat, c: nat, k: nat)
    requires c + k < n
    ensures Spin(n, c, k) == c + k
    decreases k
  {
    if k > 0 {
      SpinUp(n, c + 1, k - 1);
    }
  }

  lemma {:induction false} SpinAdd(n: nat, c: nat, j: nat, k: nat)
    requires c < n
    ensures Spin(n, c, j + k) == Spin(n, Spin(n, c, j), k)
    decreases j
  {
    if j > 0 {
      SpinAdd(n, Succ(n, c), j - 1, k);
    }
  }

  // ---------------------------------------------------------------- a session left alone

  /** No session but id is up, and no kick or emit is under way. */
  predicate Quiet(w: Wheel, st: State, id: string, s: Session) {
    && Shaped(w, st) && st.inEmit.None? && st.kicks == []
    && id in st.sessions && st.sessions[id] == s && (forall x :: x in st.sessions && x != id ==> !st.sessions[x].up)
    && (forall b :: 0 <= b < w.n ==> (id in st.buckets[b] <==> b == BucketOf(w, id)))
  }

  /** And none but id is in the burst set. */
  predicate Solo(w: Wheel, st: State, id: string, s: Session) {
    Quiet(w, st, id, s) && st.initial <= {id} && (Bursting(s) ==> st.initial == {id})
  }

  /** Before the due time nothing is sent. */
  lemma {:induction false} WaitUntilDue(w: Wheel, st: State, id: string, s: Session, k: nat)
    requires Solo(w, st, id, s) && s.due.Some? && st.now + k <= s.due.value
    ensures Solo(w, Ticks(w, st, k), id, s)
    ensures Ticks(w, st, k).cursor == Spin(w.n, st.cursor, k)
    decreases k
  {
    if k > 0 {
      WaitUntilDue(w, TickAll(w, st), id, s, k - 1);
    }
  }

  /** After the burst nothing is sent until the wheel comes round. */
  lemma {:induction false} WaitForVisit(w: Wheel, st: State, id: string, s: Session, k: nat)
    requires Solo(w, st, id, s) && !Bursting(s)
    requires k <= Distance(w.n, st.cursor, BucketOf(w, id))
    ensures Solo(w, Ticks(w, st, k), id, s)
    decreases k
  {
    if k > 0 {
      WaitForVisit(w, TickAll(w, st), id, s, k - 1);
    }
  }

  /** A tick at the due time sends, by the wheel or by the burst walk. */
  lemma SendInBurst(w: Wheel, st: State, id: string, s: Session)
    requires ValidWheel(w) && Solo(w, st, id, s) && Bursting(s) && (s.due.Some? ==> s.due.value <= st.now)
    ensures Solo(w, TickAll(w, st), id, Offer(s, st.now, w.refresh(id)))
  {
  }

  // ---------------------------------------------------------------- the deadline is reached

  /** The empty wheel turned u times. */
  lemma {:induction false} TurnEmpty(w: Wheel, st: State, u: nat)
    requires Shaped(w, st) && st.inEmit.None? && st.sessions == map[] && st.initial == {}
    ensures Ticks(w, st, u) == st.(now := st.now + u, cursor := Spin(w.n, st.cursor, u))
    decreases u
  {
    if u > 0 {
      assert TickAll(w, st).sessions == map[];
      assert TickAll(w, st) == st.(now := st.now + 1, cursor := Succ(w.n, st.cursor));
      TurnEmpty(w, TickAll(w, st), u - 1);
    }
  }

  /** A session comes up just before tick u and is kicked into the burst set. */
  lemma ComesUp(w: Wheel, id: string, u: nat) returns (st: State)
    requires ValidWheel(w) && id != "" && u < w.n
    ensures Reaches(w, Start(w), st)
    ensures Solo(w, st, id, Session(true, INITIAL_ADVERTS, None, u, None)) && st.now == u && st.cursor == u
  {
    TicksReach(w, Start(w), id, u);
    TurnEmpty(w, Start(w), u);
    SpinUp(w.n, 0, u);
    var turned := Ticks(w, Start(w), u);
    var up := Next(w, turned, Up(id));
    st := Next(w, up, Kick);
    StepReaches(w, turned, Up(id), up);
    StepReaches(w, up, Kick, st);
    ReachesOn(w, turned, up, st);
    ReachesOn(w, Start(w), turned, st);
  }

  /** From a send in the burst to the moment the next one is due, k ticks later. */
  lemma Round(w: Wheel, st: State, id: string, s: Session, k: nat) returns (st': State)
    requires ValidWheel(w) && Solo(w, st, id, s) && Bursting(s) && (s.due.Some? ==> s.due.value <= st.now)
    requires k == if s.left > 1 then INITIAL_INTERVAL else w.refresh(id)
    ensures Shaped(w, st') && Reaches(w, st, st')
    ensures Solo(w, st', id, Offer(s, st.now, w.refresh(id)))
    ensures st'.now == st.now + k && st'.cursor == Spin(w.n, st.cursor, k)
  {
    SendInBurst(w, st, id, s);
    WaitUntilDue(w, TickAll(w, st), id, Offer(s, st.now, w.refresh(id)), k - 1);
    FirstTick(w, st, k);
    TicksReach(w, st, id, k);
    st' := Ticks(w, st, k);
  }

  lemma FirstTick(w: Wheel, st: State, k: nat)
    requires Shaped(w, st) && st.inEmit.None? && k > 0
    ensures Ticks(w, st, k) == Ticks(w, TickAll(w, st), k - 1)
    ensures Spin(w.n, st.cursor, k) == Spin(w.n, TickAll(w, st).cursor, k - 1)
  {
  }

  /** Due just after the wheel passed, the advertisement waits a full turn. */
  lemma FullTurn(w: Wheel, st: State, id: string, s: Session) returns (st': State)
    requires Solo(w, st, id, s) && !Bursting(s) && st.cursor == Succ(w.n, BucketOf(w, id))
    ensures Reaches(w, st, st') && Solo(w, st', id, s) && st'.now == st.now + (w.n - 1)
  {
    WaitForVisit(w, st, id, s, w.n - 1);
    TicksReach(w, st, id, w.n - 1);
    st' := Ticks(w, st, w.n - 1);
  }

  /** The first two advertisements of the burst. */
  lemma TwoRounds(w: Wheel, st: State, id: string, i: nat) returns (end: State)
    requires ValidWheel(w) && Solo(w, st, id, Session(true, INITIAL_ADVERTS, None, st.now, None))
    requires i == INITIAL_INTERVAL
    ensures Shaped(w, end) && Reaches(w, st, end) && end.now == st.now + (i + i)
    ensures Solo(w, end, id, Session(true, 1, Some(end.now), st.now, Some(st.now + i)))
    ensures end.cursor == Spin(w.n, st.cursor, i + i)
  {
    var st1 := Round(w, st, id, Session(true, INITIAL_ADVERTS, None, st.now, None), i);
    end := Round(w, st1, id, Session(true, 2, Some(st1.now), st.now, Some(st.now)), i);
    ReachesOn(w, st, st1, end);
    SpinAdd(w.n, st.cursor, i, i);
  }

  /** The third one, and the refresh interval after it. */
  lemma Burst(w: Wheel, st: State, id: string, i: nat, r: nat) returns (end: State)
    requires ValidWheel(w) && Solo(w, st, id, Session(true, INITIAL_ADVERTS, None, st.now, None))
    requires i == INITIAL_INTERVAL && r == w.refresh(id)
    ensures Shaped(w, end) && Reaches(w, st, end) && end.now == st.now + (i + i) + r
    ensures Solo(w, end, id, Session(true, 0, Some(end.now), st.now, Some(st.now + (i + i))))
    ensures end.cursor == Spin(w.n, st.cursor, i + i + r)
  {
    var st2 := TwoRounds(w, st, id, i);
    end := Round(w, st2, id, Session(true, 1, Some(st2.now), st.now, Some(st.now + i)), r);
    ReachesOn(w, st, st2, end);
    SpinAdd(w.n, st.cursor, i + i, r);
  }

  /** The emitter can leave a session waiting exactly refresh + n - 1 ticks. */
  lemma WorstRun(w: Wheel, id: string, i: nat) returns (events: seq<Event>)
    requires ValidWheel(w) && id != "" && i == INITIAL_INTERVAL
    ensures ValidRun(w, Start(w), events)
    ensures var st := Run(w, Start(w), events);
      IsUp(st, id) && st.sessions[id].last.Some? && st.now - st.sessions[id].last.value == w.refresh(id) + w.n - 1
  {
    var r := w.refresh(id);
    var u := FindStart(w.n, Succ(w.n, BucketOf(w, id)), i + i + r);
    var up := ComesUp(w, id, u);
    var due := Burst(w, up, id, i, r);
    var end := FullTurn(w, due, id, due.sessions[id]);
    ReachesOn(w, up, due, end);
    ReachesOn(w, Start(w), up, end);
    events :| ValidRun(w, Start(w), events) && Run(w, Start(w), events) == end;
  }

  // ---------------------------------------------------------------- a crowded burst set

  function Padded(id: string, k: nat): (r: string)
    ensures |r| == |id| + k
  {
    if k == 0 then id else Padded(id, k - 1) + "x"
  }

  /** n other session IDs. */
  function Crowd(id: string, n: nat): (c: set<string>)
    ensures |c| == n && forall x :: x in c ==> |id| < |x| <= |id| + n
  {
    if n == 0 then {} else Crowd(id, n - 1) + {Padded(id, n)}
  }

  /** x comes up, is taken off the channel into the burst set, and goes down again. */
  lemma ComesAndGoes(w: Wheel, st: State, id: string, s: Session, x: string) returns (st': State)
    requires Quiet(w, st, id, s) && x != id && x != ""
    ensures Reaches(w, st, st') && Quiet(w, st', id, s)
    ensures st'.now == st.now && st'.cursor == st.cursor && st'.initial == st.initial + {x}
  {
    var up := Next(w, st, Up(x));
    var kicked := Next(w, up, Kick);
    st' := Next(w, kicked, Down(x));
    StepReaches(w, st, Up(x), up);
    StepReaches(w, up, Kick, kicked);
    StepReaches(w, kicked, Down(x), st');
    ReachesOn(w, st, up, kicked);
    ReachesOn(w, st, kicked, st');
    assert up.kicks == [x] && kicked.kicks == [];
    BucketsKeep(w, st.buckets, id, x);
  }

  lemma BucketsKeep(w: Wheel, buckets: seq<seq<string>>, id: string, x: string)
    requires w.n > 0 && |buckets| == w.n && x != id
    ensures forall b :: 0 <= b < w.n ==> (id in Remove(w, Place(w, buckets, x), x)[b] <==> id in buckets[b])
  {
    RemoveFirstKeeps(Place(w, buckets, x)[BucketOf(w, x)], x, id);
  }

  lemma {:induction false} KickCrowd(w: Wheel, st: State, id: string, s: Session, n: nat) returns (st': State)
    requires Quiet(w, st, id, s)
    ensures Reaches(w, st, st') && Quiet(w, st', id, s)
    ensures st'.now == st.now && st'.cursor == st.cursor && st'.initial == st.initial + Crowd(id, n)
    decreases n
  {
    if n == 0 {
      st' := st;
      assert st.initial + Crowd(id, 0) == st.initial;
      assert ValidRun(w, st, []) && Run(w, st, []) == st;
    } else {
      var before := KickCrowd(w, st, id, s, n - 1);
      st' := ComesAndGoes(w, before, id, s, Padded(id, n));
      ReachesOn(w, st, before, st');
    }
  }

  lemma CrowdWalked(w: Wheel, st: State, id: string, s: Session, crowd: set<string>)
    requires Quiet(w, st, id, s) && st.initial == {id} + crowd && st.cursor != BucketOf(w, id) && id !in crowd
    ensures Next(w, st, Tick(crowd)) == st.(now := st.now + 1, cursor := Succ(w.n, st.cursor), initial := {id})
  {
    assert crowd * st.initial == crowd;
    assert AfterBucket(w, st) == st.sessions;
    assert AfterWalk(w, st.sessions, crowd, st.now) == st.sessions;
    assert StillInitial(st.initial, crowd, st.sessions) == {id};
  }

  /** A tick whose burst walk is filled by others, who have all gone down by then. */
  lemma CrowdedTick(w: Wheel, st: State, id: string, s: Session, n: nat) returns (st': State)
    requires Solo(w, st, id, s) && st.initial == {id} && st.cursor != BucketOf(w, id) && n == INITIAL_PER_TICK
    ensures Reaches(w, st, st') && Solo(w, st', id, s) && st'.initial == {id}
    ensures st'.now == st.now + 1 && st'.cursor == Succ(w.n, st.cursor)
  {
    var crowd := Crowd(id, n);
    var full := KickCrowd(w, st, id, s, n);
    CrowdWalked(w, full, id, s, crowd);
    st' := Next(w, full, Tick(crowd));
    StepReaches(w, full, Tick(crowd), st');
    ReachesOn(w, st, full, st');
  }

  lemma {:induction false} CrowdedTurn(w: Wheel, st: State, id: string, s: Session, k: nat) returns (st': State)
    requires Solo(w, st, id, s) && st.initial == {id} && k <= Distance(w.n, st.cursor, BucketOf(w, id))
    ensures Reaches(w, st, st') && Solo(w, st', id, s) && st'.now == st.now + k
    decreases k
  {
    if k == 0 {
      assert Run(w, st, []) == st;
      st' := st;
    } else {
      var st1 := CrowdedTick(w, st, id, s, INITIAL_PER_TICK);
      st' := CrowdedTurn(w, st1, id, s, k - 1);
      ReachesOn(w, st, st1, st');
    }
  }

  /** In the burst, too, an advertisement that is due can wait a full turn. */
  lemma WorstBurst(w: Wheel, id: string, i: nat) returns (events: seq<Event>)
    requires ValidWheel(w) && id != "" && i == INITIAL_INTERVAL
    ensures ValidRun(w, Start(w), events)
    ensures var st := Run(w, Start(w), events);
      IsUp(st, id) && st.sessions[id].last.Some? && st.now - st.sessions[id].last.value == i + w.n - 1
  {
    var u := FindStart(w.n, Succ(w.n, BucketOf(w, id)), i);
    var up := ComesUp(w, id, u);
    var due := Round(w, up, id, Session(true, INITIAL_ADVERTS, None, u, None), i);
    var end := CrowdedTurn(w, due, id, Session(true, 2, Some(u + i), u, Some(u)), w.n - 1);
    ReachesOn(w, up, due, end);
    ReachesOn(w, Start(w), up, end);
    events :| ValidRun(w, Start(w), events) && Run(w, Start(w), events) == end;
  }

  // ---------------------------------------------------------------- a torn emit

  /** A Down between the halves of an emit leaves a due time a refresh ahead. */
  lemma TearsEmit(w: Wheel, st: State, id: string, s: Session) returns (st': State)
    requires Solo(w, st, id, s) && Bursting(s) && Due(s, st.now)
    ensures Reaches(w, st, st')
    ensures st' == st.(sessions := st.sessions[id := Session(false, 0, Some(st.now + w.refresh(id)), st.now, None)],
                       buckets := Remove(w, st.buckets, id))
  {
    var a := Next(w, st, Send(id));
    var b := Next(w, a, Down(id));
    SendIs(w, st, id);
    DownIs(w, st, a, id);
    st' := Next(w, b, Store);
    StepReaches(w, st, Send(id), a);
    StepReaches(w, a, Down(id), b);
    StepReaches(w, b, Store, st');
    ReachesOn(w, st, a, b);
    ReachesOn(w, st, b, st');
    StoreIs(w, st, b, id);
  }

  lemma SendIs(w: Wheel, st: State, id: string)
    requires Shaped(w, st) && Sends(st, id)
    ensures Next(w, st, Send(id))
         == st.(sessions := st.sessions[id := st.sessions[id].(last := Some(st.now))], inEmit := Some(id))
  {
  }

  lemma DownIs(w: Wheel, st: State, a: State, id: string)
    requires Shaped(w, st) && id in a.sessions
    requires a == st.(sessions := st.sessions[id := a.sessions[id]], inEmit := a.inEmit)
    ensures Next(w, a, Down(id))
         == st.(sessions := st.sessions[id := Session(false, 0, None, st.now, None)], inEmit := a.inEmit,
                buckets := Remove(w, st.buckets, id))
  {
  }

  lemma StoreIs(w: Wheel, st: State, b: State, id: string)
    requires Shaped(w, st) && st.inEmit.None? && Shaped(w, b)
    requires b == st.(sessions := st.sessions[id := Session(false, 0, None, st.now, None)], inEmit := Some(id),
                      buckets := b.buckets)
    ensures Next(w, b, Store)
         == st.(sessions := st.sessions[id := Session(false, 0, Some(st.now + w.refresh(id)), st.now, None)],
                buckets := b.buckets)
  {
  }

  /** The session then comes up with it. */
  lemma ComesUpAgain(w: Wheel, st: State, id: string, s: Session) returns (st': State)
    requires id != "" && Shaped(w, st) && st.inEmit.None? && st.kicks == [] && st.initial == {id}
    requires id in st.sessions && st.sessions[id] == s && !s.up
    requires forall x :: x in st.sessions && x != id ==> !st.sessions[x].up
    requires forall b :: 0 <= b < w.n && b != BucketOf(w, id) ==> id !in st.buckets[b]
    ensures Reaches(w, st, st') && st'.now == st.now
    ensures Solo(w, st', id, s.(up := true, left := INITIAL_ADVERTS, since := st.now))
  {
    var up := Next(w, st, Up(id));
    st' := Next(w, up, Kick);
    assert up.kicks == [id] && st'.kicks == [];
    StepReaches(w, st, Up(id), up);
    StepReaches(w, up, Kick, st');
    ReachesOn(w, st, up, st');
  }

  /** So without the condition on torn emits the first advertisement can take a whole refresh. */
  lemma TornEmitDelays(w: Wheel, id: string) returns (events: seq<Event>)
    requires ValidWheel(w) && id != ""
    ensures ValidRun(w, Start(w), events)
    ensures var st := Run(w, Start(w), events);
      IsUp(st, id) && st.sessions[id].last.None? && st.now - st.sessions[id].since == w.refresh(id)
  {
    var up := ComesUp(w, id, 0);
    var down := TearsEmit(w, up, id, up.sessions[id]);
    var torn := ComesUpAgain(w, down, id, down.sessions[id]);
    WaitUntilDue(w, torn, id, torn.sessions[id], w.refresh(id));
    TicksReach(w, torn, id, w.refresh(id));
    var end := Ticks(w, torn, w.refresh(id));
    ReachesOn(w, Start(w), up, down);
    ReachesOn(w, Start(w), down, torn);
    ReachesOn(w, Start(w), torn, end);
    events :| ValidRun(w, Start(w), events) && Run(w, Start(w), events) == end;
  }

  // ---------------------------------------------------------------- the exact condition

  /** Every run keeps the route of id alive. */
  ghost predicate AlwaysAlive(w: Wheel, id: string, lifetime: nat)
    requires w.n > 0
  {
    forall events :: ValidRun(w, Start(w), events) ==> Alive(Run(w, Start(w), events), id, lifetime)
  }

  /** The route never expires exactly when the deadline is below the lifetime. */
  lemma AlwaysAliveIff(w: Wheel, id: string, lifetime: nat)
    requires ValidWheel(w) && id != ""
    ensures AlwaysAlive(w, id, lifetime) <==> Max(w.refresh(id), 16) + w.n - 1 < lifetime
  {
    var worst := WorstRun(w, id, INITIAL_INTERVAL);
    assert ValidRun(w, Start(w), worst);
    var burst := WorstBurst(w, id, INITIAL_INTERVAL);
    assert ValidRun(w, Start(w), burst);
    if Gap(w, id) + w.n - 1 < lifetime {
      forall events | ValidRun(w, Start(w), events)
        ensures Alive(Run(w, Start(w), events), id, lifetime)
      {
        if IsUp(Run(w, Start(w), events), id) {
          Deadline(w, events, id);
        }
      }
    }
  }

  /** A lifetime of at most twenty-five seconds expires in some run, because the wheel never has
      fewer than ten buckets and the burst spaces its advertisements by sixteen seconds. */
  lemma ShortLifetimeExpires(w: Wheel, id: string, routerLifetime: nat)
    requires ValidWheel(w) && id != "" && routerLifetime <= 25 && w.n >= 10
    ensures !AlwaysAlive(w, id, routerLifetime)
  {
    AlwaysAliveIff(w, id, routerLifetime);
  }
}
