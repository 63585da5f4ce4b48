/** The event queue of the restore window (maybeEnqueue and drainQueue of
    internal/cgnat/component.go). Events are numbered in order of arrival, which is the order of
    maybeEnqueue's critical sections; an event it hands back is dispatched after the unlock, by its
    own goroutine. */
module RestoreQueue {
  import opened Collections

  const EVENT_QUEUE_BOUND: nat := 4096

  datatype Queue = Queue(
    arrived: nat,           // events so far; the next one gets this number
    pending: seq<nat>,      // pendingEvents
    draining: seq<nat>,     // taken by drainQueue, not dispatched yet
    inHand: set<nat>,       // handed back by maybeEnqueue, not dispatched yet
    drained: bool,          // queueDrained
    dropped: set<nat>,      // queueDropped counts these
    degraded: bool,         // restoreDegraded
    dispatched: seq<nat>)

  datatype Step =
    | Arrive
    | BeginDrain
    | DispatchNext
    | DispatchDirect(id: nat)
    | RestoreFailed         // markRestoreDegraded on a mapping
    | Recover               // RecoverDataplane resets the flag

  const INITIAL := Queue(0, [], [], {}, false, {}, false, [])

  function Next(q: Queue, e: Step): Queue {
    match e
    case Arrive =>
      var id := q.arrived;
      if q.drained then q.(arrived := id + 1, inHand := q.inHand + {id})
      else if |q.pending| >= EVENT_QUEUE_BOUND then q.(arrived := id + 1, dropped := q.dropped + {id}, degraded := true)
      else q.(arrived := id + 1, pending := q.pending + [id])
    case BeginDrain => q.(draining := q.draining + q.pending, pending := [], drained := true)
    case DispatchNext =>
      if q.draining == [] then q else q.(draining := q.draining[1..], dispatched := q.dispatched + [q.draining[0]])
    case DispatchDirect(id) =>
      if id !in q.inHand then q else q.(inHand := q.inHand - {id}, dispatched := q.dispatched + [id])
    case RestoreFailed => q.(degraded := true)
    case Recover => q.(degraded := false)
  }

  function RunFrom(q: Queue, es: seq<Step>): Queue {
    if es == [] then q else Next(RunFrom(q, es[..|es| - 1]), es[|es| - 1])
  }

  function Run(es: seq<Step>): Queue {
    RunFrom(INITIAL, es)
  }

  // ---------------------------------------------------------------- where every event is

  predicate Ascending(s: seq<nat>) {
    forall i, j :: 0 <= i < j < |s| ==> s[i] < s[j]
  }

  /** In how many places event id is: dispatched, waiting, or dropped. */
  function Places(q: Queue, id: nat): nat {
    (if id in q.dispatched then 1 else 0) + (if id in q.pending then 1 else 0)
    + (if id in q.draining then 1 else 0) + (if id in q.inHand then 1 else 0) + (if id in q.dropped then 1 else 0)
  }

  ghost predicate ValidQueue(q: Queue) {
    && (forall id: nat :: Places(q, id) == if id < q.arrived then 1 else 0)
    && Distinct(q.dispatched) && Ascending(q.draining) && Ascending(q.pending)
    && |q.pending| <= EVENT_QUEUE_BOUND
    && (q.drained ==> q.pending == [])
    && (!q.drained ==> q.draining == [] && q.inHand == {} && q.dispatched == [])
  }

  lemma ArriveValid(q: Queue)
    requires ValidQueue(q)
    ensures ValidQueue(Next(q, Arrive))
  {
    var q' := Next(q, Arrive);
    assert Places(q, q.arrived) == 0;
    forall id: nat
      ensures Places(q', id) == if id < q'.arrived then 1 else 0
    {
      assert Places(q, id) == if id < q.arrived then 1 else 0;
    }
    forall i | 0 <= i < |q.pending|
      ensures q.pending[i] < q.arrived
    {
      assert Places(q, q.pending[i]) > 0;
    }
    forall i | 0 <= i < |q.dispatched|
      ensures q.dispatched[i] != q.arrived
    {
      assert Places(q, q.dispatched[i]) > 0;
    }
  }

  lemma BeginDrainValid(q: Queue)
    requires ValidQueue(q)
    ensures ValidQueue(Next(q, BeginDrain))
  {
    var q' := Next(q, BeginDrain);
    assert q.draining == [] ==> q'.draining == q.pending;
    assert q.pending == [] ==> q'.draining == q.draining;
    forall id: nat
      ensures Places(q', id) == if id < q'.arrived then 1 else 0
    {
      assert Places(q, id) == if id < q.arrived then 1 else 0;
    }
  }

  lemma DispatchValid(q: Queue)
    requires ValidQueue(q) && q.draining != []
    ensures ValidQueue(Next(q, DispatchNext))
  {
    var q' := Next(q, DispatchNext);
    var head := q.draining[0];
    assert q.draining == [head] + q.draining[1..];
    assert Places(q, head) == 1;
    assert forall i :: 0 <= i < |q.draining[1..]| ==> q.draining[1..][i] == q.draining[i + 1];
    assert head !in q.draining[1..];
    forall id: nat
      ensures Places(q', id) == if id < q'.arrived then 1 else 0
    {
      assert Places(q, id) == if id < q.arrived then 1 else 0;
    }
  }

  lemma DirectValid(q: Queue, x: nat)
    requires ValidQueue(q) && x in q.inHand
    ensures ValidQueue(Next(q, DispatchDirect(x)))
  {
    var q' := Next(q, DispatchDirect(x));
    assert Places(q, x) == 1;
    forall id: nat
      ensures Places(q', id) == if id < q'.arrived then 1 else 0
    {
      assert Places(q, id) == if id < q.arrived then 1 else 0;
    }
  }

  lemma NextValid(q: Queue, e: Step)
    requires ValidQueue(q)
    ensures ValidQueue(Next(q, e))
  {
    match e
    case Arrive => ArriveValid(q);
    case BeginDrain => BeginDrainValid(q);
    case DispatchNext =>
      if q.draining != [] {
        DispatchValid(q);
      }
    case DispatchDirect(id) =>
      if id in q.inHand {
        DirectValid(q, id);
      }
    case RestoreFailed => SamePlaces(q, Next(q, e));
    case Recover => SamePlaces(q, Next(q, e));
  }

  lemma SamePlaces(q: Queue, q': Queue)
    requires ValidQueue(q) && q' == q.(degraded := q'.degraded)
    ensures ValidQueue(q')
  {
    forall id: nat
      ensures Places(q', id) == if id < q'.arrived then 1 else 0
    {
      assert Places(q, id) == if id < q.arrived then 1 else 0;
    }
  }

  /** In every run, every event that arrived is in exactly one place: dispatched once,
      waiting, or counted as dropped; and what waits is bounded and in order of arrival. */
  lemma {:induction false} RunValid(q: Queue, es: seq<Step>)
    requires ValidQueue(q)
    ensures ValidQueue(RunFrom(q, es))
    ensures q.arrived <= RunFrom(q, es).arrived
  {
    if es != [] {
      RunValid(q, es[..|es| - 1]);
      NextValid(RunFrom(q, es[..|es| - 1]), es[|es| - 1]);
    }
  }

  lemma InitialValid()
    ensures ValidQueue(INITIAL)
  {
  }

  // ---------------------------------------------------------------- order and alarm

  predicate Before(s: seq<nat>, x: nat, y: nat) {
    exists i, j :: 0 <= i < j < |s| && s[i] == x && s[j] == y
  }

  /** Two events that waited together are dispatched in order of arrival, whatever is
      dispatched directly in between. */
  ghost predicate InOrder(q: Queue, x: nat, y: nat) {
    && y !in q.inHand
    && (y in q.dispatched ==> Before(q.dispatched, x, y))
    && (y in q.draining ==> x in q.dispatched || Before(q.draining, x, y))
  }

  lemma BeforeGrows(s: seq<nat>, z: nat, x: nat, y: nat)
    requires Before(s, x, y)
    ensures Before(s + [z], x, y)
  {
    var i, j :| 0 <= i < j < |s| && s[i] == x && s[j] == y;
    assert (s + [z])[i] == x && (s + [z])[j] == y;
  }

  lemma BeforeLast(s: seq<nat>, x: nat, y: nat)
    requires x in s
    ensures Before(s + [y], x, y)
  {
    var i :| 0 <= i < |s| && s[i] == x;
    assert (s + [y])[i] == x && (s + [y])[|s|] == y;
  }

  lemma BeforeTail(s: seq<nat>, x: nat, y: nat)
    requires Before(s, x, y)
    ensures s[0] == x || Before(s[1..], x, y)
  {
  }

  lemma DispatchInOrder(q: Queue, e: Step, x: nat, y: nat)
    requires ValidQueue(q) && q.drained && x < y < q.arrived && InOrder(q, x, y)
    ensures InOrder(Next(q, e), x, y) && Next(q, e).drained
  {
    assert q.draining + q.pending == q.draining;
    if e.DispatchDirect? && e.id in q.inHand {
      assert Places(q, e.id) == 1;
      if y in q.dispatched {
        BeforeGrows(q.dispatched, e.id, x, y);
      }
    } else if e.DispatchNext? && q.draining != [] {
      var head := q.draining[0];
      if y in q.dispatched {
        BeforeGrows(q.dispatched, head, x, y);
        assert Places(q, y) == 1;
      } else if y in q.draining {
        if x in q.dispatched {
          BeforeLast(q.dispatched, x, head);
        } else {
          BeforeTail(q.draining, x, y);
          assert head != y;
        }
      }
    }
  }

  lemma {:induction false} RunInOrder(q: Queue, es: seq<Step>, x: nat, y: nat)
    requires ValidQueue(q) && q.drained && x < y < q.arrived && InOrder(q, x, y)
    ensures InOrder(RunFrom(q, es), x, y) && RunFrom(q, es).drained
  {
    if es != [] {
      RunInOrder(q, es[..|es| - 1], x, y);
      RunValid(q, es[..|es| - 1]);
      DispatchInOrder(RunFrom(q, es[..|es| - 1]), es[|es| - 1], x, y);
    }
  }

  lemma WaitingInOrder(q: Queue, i: nat, j: nat)
    requires ValidQueue(q) && i < j < |q.pending|
    ensures q.pending[i] < q.pending[j] < q.arrived && Before(q.pending, q.pending[i], q.pending[j])
  {
    assert Places(q, q.pending[j]) == 1;
  }

  lemma DrainBegins(q: Queue, x: nat, y: nat)
    requires ValidQueue(q) && !q.drained && Before(q.pending, x, y)
    ensures var q' := Next(q, BeginDrain); q'.drained && q'.arrived == q.arrived && InOrder(q', x, y)
  {
    assert Next(q, BeginDrain).draining == q.pending;
  }

  /** The drain dispatches in order of arrival: of two events waiting when it begins, the
      later is never dispatched without the earlier before it. */
  lemma DrainKeepsOrder(q: Queue, i: nat, j: nat, es: seq<Step>)
    requires ValidQueue(q) && !q.drained && i < j < |q.pending|
    ensures var end := RunFrom(Next(q, BeginDrain), es);
            q.pending[j] in end.dispatched ==> Before(end.dispatched, q.pending[i], q.pending[j])
  {
    WaitingInOrder(q, i, j);
    DrainBegins(q, q.pending[i], q.pending[j]);
    BeginDrainValid(q);
    RunInOrder(Next(q, BeginDrain), es, q.pending[i], q.pending[j]);
  }

  /** An event that arrives during the drain can go first, past those still waiting. */
  lemma DirectOvertakes(q: Queue)
    requires ValidQueue(q) && q.draining != []
    ensures q.draining[0] < q.arrived
    ensures var end := Next(Next(Next(q, Arrive), DispatchDirect(q.arrived)), DispatchNext);
            Before(end.dispatched, q.arrived, q.draining[0])
  {
    assert Places(q, q.draining[0]) == 1;
    BeforeLast(q.dispatched + [q.arrived], q.arrived, q.draining[0]);
  }

  /** And so can one that arrives while an earlier one is in hand. */
  lemma DirectsSwap(q: Queue, x: nat)
    requires ValidQueue(q) && x in q.inHand
    ensures x < q.arrived && q.drained
    ensures var end := Next(Next(Next(q, Arrive), DispatchDirect(q.arrived)), DispatchDirect(x));
            Before(end.dispatched, q.arrived, x)
  {
    assert Places(q, x) == 1;
    assert Next(q, Arrive).inHand == q.inHand + {q.arrived};
    BeforeLast(q.dispatched + [q.arrived], q.arrived, x);
  }

  // ---------------------------------------------------------------- exactly when order is kept

  /** Nothing that a new event could overtake: the queue is still open, or all that left it has
      been dispatched. */
  predicate Clear(q: Queue) {
    !q.drained || (q.draining == [] && q.inHand == {})
  }

  predicate NoArrival(es: seq<Step>) {
    forall i :: 0 <= i < |es| ==> !es[i].Arrive?
  }

  /** However the goroutines under way go on, dispatch is in order of arrival. */
  ghost predicate StaysInOrder(q: Queue) {
    forall es :: NoArrival(es) ==> Ascending(RunFrom(q, es).dispatched)
  }

  function Line(q: Queue): seq<nat> {
    q.dispatched + q.draining + q.pending
  }

  /** The events stand in line, with at most one in hand, which comes last. */
  ghost predicate Tidy(q: Queue) {
    && ValidQueue(q) && Ascending(Line(q))
    && forall x :: x in q.inHand ==>
         q.inHand == {x} && q.draining == [] && q.pending == [] && forall i :: 0 <= i < |Line(q)| ==> Line(q)[i] < x
  }

  lemma LineBelow(q: Queue)
    requires ValidQueue(q)
    ensures forall i :: 0 <= i < |Line(q)| ==> Line(q)[i] < q.arrived
  {
    forall i | 0 <= i < |Line(q)|
      ensures Line(q)[i] < q.arrived
    {
      assert Line(q)[i] in q.dispatched || Line(q)[i] in q.draining || Line(q)[i] in q.pending;
      assert Places(q, Line(q)[i]) > 0;
    }
  }

  lemma TidyArrive(q: Queue)
    requires Tidy(q) && Clear(q)
    ensures Tidy(Next(q, Arrive))
  {
    ArriveValid(q);
    LineBelow(q);
    var q' := Next(q, Arrive);
    assert q.inHand == {};
    assert Line(q') == Line(q) || Line(q') == Line(q) + [q.arrived];
  }

  lemma TidyDispatch(q: Queue, e: Step)
    requires Tidy(q) && (e.DispatchNext? || e.DispatchDirect?)
    ensures Tidy(Next(q, e))
  {
    NextValid(q, e);
    var q' := Next(q, e);
    if e.DispatchNext? && q.draining != [] {
      assert q.draining == [q.draining[0]] + q.draining[1..];
      assert Line(q') == Line(q);
    } else if e.DispatchDirect? && e.id in q.inHand {
      assert q'.inHand == {};
      assert Line(q') == Line(q) + [e.id];
    }
  }

  lemma TidyStep(q: Queue, e: Step)
    requires Tidy(q) && (e.Arrive? ==> Clear(q))
    ensures Tidy(Next(q, e))
  {
    if e.Arrive? {
      TidyArrive(q);
    } else if e.DispatchNext? || e.DispatchDirect? {
      TidyDispatch(q, e);
    } else {
      NextValid(q, e);
      assert Line(Next(q, e)) == Line(q);
    }
  }

  lemma {:induction false} TidyRun(q: Queue, es: seq<Step>)
    requires Tidy(q) && NoArrival(es)
    ensures Tidy(RunFrom(q, es))
  {
    if es != [] {
      TidyRun(q, es[..|es| - 1]);
      TidyStep(RunFrom(q, es[..|es| - 1]), es[|es| - 1]);
    }
  }

  lemma TidyStaysInOrder(q: Queue)
    requires Tidy(q)
    ensures StaysInOrder(q)
  {
    forall es | NoArrival(es)
      ensures Ascending(RunFrom(q, es).dispatched)
    {
      TidyRun(q, es);
      var q' := RunFrom(q, es);
      assert forall i :: 0 <= i < |q'.dispatched| ==> Line(q')[i] == q'.dispatched[i];
    }
  }

  lemma RunMore(q: Queue, es: seq<Step>, e: Step)
    ensures RunFrom(q, es + [e]) == Next(RunFrom(q, es), e)
  {
    assert (es + [e])[..|es|] == es;
  }

  lemma RunTwo(q: Queue, a: Step, b: Step)
    ensures RunFrom(q, [a, b]) == Next(Next(q, a), b)
  {
    RunMore(q, [a], b);
    RunMore(q, [], a);
    assert [a] + [b] == [a, b] && [] + [a] == [a];
    assert RunFrom(q, []) == q;
  }

  /** An arrival that is not clear can be dispatched before an event that came earlier. */
  lemma UnclearBreaks(q: Queue)
    requires ValidQueue(q) && !Clear(q)
    ensures !StaysInOrder(Next(q, Arrive))
  {
    var direct := DispatchDirect(q.arrived);
    var next := DispatchNext;
    var x := q.arrived;
    if q.draining != [] {
      x := q.draining[0];
      DirectOvertakes(q);
    } else {
      x :| x in q.inHand;
      next := DispatchDirect(x);
      DirectsSwap(q, x);
    }
    RunTwo(Next(q, Arrive), direct, next);
    var end := RunFrom(Next(q, Arrive), [direct, next]);
    assert NoArrival([direct, next]) && Before(end.dispatched, q.arrived, x) && x < q.arrived;
  }

  /** From every state with the dispatches so far in order: an arrival leaves them in order,
      whatever the goroutines do, exactly when the state is clear. */
  lemma ArriveInOrderIff(q: Queue)
    requires ValidQueue(q) && Ascending(q.dispatched)
    ensures StaysInOrder(Next(q, Arrive)) <==> Clear(q)
  {
    if Clear(q) {
      assert Line(q) == q.dispatched || Line(q) == q.pending;
      TidyArrive(q);
      TidyStaysInOrder(Next(q, Arrive));
    } else {
      UnclearBreaks(q);
    }
  }

  /** Step i of the run is not an arrival, or finds the queue clear. */
  predicate ClearAt(es: seq<Step>, i: nat) {
    i < |es| && es[i].Arrive? ==> Clear(Run(es[..i]))
  }

  ghost predicate ClearRun(es: seq<Step>) {
    forall i: nat :: ClearAt(es, i)
  }

  /** After every front of the run, dispatch stays in order. */
  ghost predicate AlwaysInOrder(es: seq<Step>) {
    forall n: nat :: n <= |es| ==> StaysInOrder(Run(es[..n]))
  }

  lemma {:induction false} ClearRunIsTidy(es: seq<Step>)
    requires ClearRun(es)
    ensures Tidy(Run(es))
  {
    if es == [] {
      InitialValid();
    } else {
      var front := es[..|es| - 1];
      forall i: nat
        ensures ClearAt(front, i)
      {
        assert ClearAt(es, i);
        assert i < |front| ==> front[..i] == es[..i];
      }
      ClearRunIsTidy(front);
      assert ClearAt(es, |front|);
      TidyStep(Run(front), es[|front|]);
    }
  }

  lemma ClearFront(es: seq<Step>, n: nat)
    requires ClearRun(es) && n <= |es|
    ensures ClearRun(es[..n])
  {
    forall i: nat
      ensures ClearAt(es[..n], i)
    {
      assert ClearAt(es, i);
      assert i < n ==> es[..n][..i] == es[..i];
    }
  }

  /** Whatever the goroutines do, a run's events go out in order of arrival, at every point of it,
      exactly when each arrival finds the queue open or everything that left it dispatched. */
  lemma ArrivalOrderIff(es: seq<Step>)
    ensures AlwaysInOrder(es) <==> ClearRun(es)
  {
    if ClearRun(es) {
      forall n: nat | n <= |es|
        ensures StaysInOrder(Run(es[..n]))
      {
        ClearFront(es, n);
        ClearRunIsTidy(es[..n]);
        TidyStaysInOrder(Run(es[..n]));
      }
    } else {
      var i: nat :| !ClearAt(es, i);
      InitialValid();
      RunValid(INITIAL, es[..i]);
      UnclearBreaks(Run(es[..i]));
      assert es[..i + 1][..i] == es[..i];
      assert Run(es[..i + 1]) == Next(Run(es[..i]), Arrive);
    }
  }

  /** Nor need an event arrive during the drain: two that come after it can swap. */
  lemma SwapAfterDrain(q: Queue)
    requires ValidQueue(q) && q.drained && q.draining == [] && q.inHand == {}
    ensures var both := Next(Next(q, Arrive), Arrive);
            var end := Next(Next(both, DispatchDirect(q.arrived + 1)), DispatchDirect(q.arrived));
            end.dispatched == q.dispatched + [q.arrived + 1, q.arrived] && Clear(end)
  {
  }

  // ---------------------------------------------------------------- exactly which events are dropped

  /** How many events arrive before the drain begins. */
  function EarlyArrivals(es: seq<Step>): (n: nat)
    ensures n <= |es|
  {
    if es == [] then 0
    else
      var n := EarlyArrivals(es[..|es| - 1]);
      if es[|es| - 1].Arrive? && BeginDrain !in es[..|es| - 1] then n + 1 else n
  }

  /** The first 4096 of the given number of events wait, and the rest are dropped. */
  ghost predicate HoldsFirst(q: Queue, n: nat) {
    && q.arrived == n && q.pending == seq(if n < 4096 then n else 4096, i => i)
    && DropsFrom(q, n)
  }

  ghost predicate DropsFrom(q: Queue, n: nat) {
    forall id :: id in q.dropped <==> 4096 <= id < n
  }

  lemma EarlyArrive(q: Queue, n: nat)
    requires !q.drained && HoldsFirst(q, n)
    ensures HoldsFirst(Next(q, Arrive), n + 1)
  {
    if n < 4096 {
      assert Next(q, Arrive).pending == seq(n + 1, i => i);
    }
  }

  /** Before the drain the queue is the first 4096 events; after it the dropped ones stay the same. */
  lemma {:induction false} DroppedSoFar(es: seq<Step>)
    ensures Run(es).drained <==> BeginDrain in es
    ensures BeginDrain !in es ==> HoldsFirst(Run(es), EarlyArrivals(es))
    ensures DropsFrom(Run(es), EarlyArrivals(es))
  {
    if es != [] {
      var front, e := es[..|es| - 1], es[|es| - 1];
      DroppedSoFar(front);
      assert es == front + [e];
      if BeginDrain !in front && e.Arrive? {
        EarlyArrive(Run(front), EarlyArrivals(front));
      }
    }
  }

  /** Over every run the dropped events are exactly those from the 4097th on that arrive before the
      drain begins. */
  lemma DroppedIff(es: seq<Step>, id: nat)
    ensures id in Run(es).dropped <==> 4096 <= id < EarlyArrivals(es)
  {
    DroppedSoFar(es);
  }

  /** An event dropped since the last recovery leaves the component marked degraded. */
  ghost predicate Alarm(es: seq<Step>, i: nat)
    requires i < |es|
  {
    es[i].Arrive? && Run(es[..i + 1]).dropped != Run(es[..i]).dropped
  }

  lemma {:induction false} DropsRaiseAlarm(es: seq<Step>, i: nat)
    requires i < |es| && Alarm(es, i) && forall k :: i < k < |es| ==> !es[k].Recover?
    ensures Run(es).degraded
  {
    if i + 1 == |es| {
      assert es[..i + 1] == es;
    } else {
      var front := es[..|es| - 1];
      assert front[..i + 1] == es[..i + 1] && front[..i] == es[..i];
      DropsRaiseAlarm(front, i);
    }
  }

  /** Step i is a failed restore, or an event past the first 4096 before the drain. */
  predicate RaisesAt(es: seq<Step>, i: nat)
    requires i < |es|
  {
    es[i].RestoreFailed? || (es[i].Arrive? && BeginDrain !in es[..i] && EarlyArrivals(es[..i]) >= 4096)
  }

  /** And no recovery follows it. */
  predicate RaisedSince(es: seq<Step>, i: nat)
    requires i < |es|
  {
    RaisesAt(es, i) && forall k :: i < k < |es| ==> !es[k].Recover?
  }

  lemma RaisedSinceFront(es: seq<Step>, i: nat)
    requires i + 1 < |es|
    ensures RaisedSince(es, i) <==> RaisedSince(es[..|es| - 1], i) && !es[|es| - 1].Recover?
  {
    assert es[..|es| - 1][..i] == es[..i];
  }

  lemma LastRaises(es: seq<Step>)
    requires es != []
    ensures var front := es[..|es| - 1];
            Run(es).degraded <==> RaisesAt(es, |front|) || (Run(front).degraded && !es[|front|].Recover?)
  {
    DroppedSoFar(es[..|es| - 1]);
  }

  /** Over every run the component is marked degraded exactly when a restore failed or an event was
      dropped since the last recovery. */
  lemma {:induction false} DegradedIff(es: seq<Step>)
    ensures Run(es).degraded <==> exists i :: 0 <= i < |es| && RaisedSince(es, i)
  {
    if es != [] {
      var front := es[..|es| - 1];
      DegradedIff(front);
      LastRaises(es);
      forall i | 0 <= i < |front|
        ensures RaisedSince(es, i) <==> RaisedSince(front, i) && !es[|front|].Recover?
      {
        RaisedSinceFront(es, i);
      }
      assert RaisedSince(es, |front|) <==> RaisesAt(es, |front|);
    }
  }

  // ---------------------------------------------------------------- the queue as the program holds it

  /** The listed events are those with the given numbers. */
  ghost predicate Numbered<E>(events: seq<E>, ids: seq<nat>, list: seq<E>) {
    |ids| == |list| && forall i :: 0 <= i < |ids| ==> ids[i] < |events| && events[ids[i]] == list[i]
  }

  /** n events of the drain dispatched in a row. */
  function Dispatches(q: Queue, n: nat): Queue {
    if n == 0 then q else Next(Dispatches(q, n - 1), DispatchNext)
  }

  /** handled lists what the handlers got; events is the history of arrivals, and queue the state
      of the machine, which numbers them. */
  class EventQueue<E> {
    var pendingEvents: seq<E>
    var queueDrained: bool
    var queueDropped: nat
    var restoreDegraded: bool
    var handled: seq<E>
    ghost var events: seq<E>
    ghost var queue: Queue

    ghost predicate Valid()
      reads this
    {
      && ValidQueue(queue) && queue.arrived == |events|
      && Numbered(events, queue.pending, pendingEvents) && Numbered(events, queue.dispatched, handled)
      && queue.drained == queueDrained && |queue.dropped| == queueDropped && queue.degraded == restoreDegraded
    }

    constructor ()
      ensures Valid() && queue == INITIAL && events == []
    {
      pendingEvents, queueDrained, queueDropped, restoreDegraded, handled := [], false, 0, false, [];
      events, queue := [], INITIAL;
    }

    /** False when the caller must dispatch the event itself: it is in hand from here on. */
    method MaybeEnqueue(ev: E) returns (queued: bool)
      requires Valid()
      modifies this
      ensures Valid() && queue == Next(old(queue), Arrive) && events == old(events) + [ev]
      ensures queued <==> !old(queueDrained)
      ensures queued <==> old(queue).arrived !in queue.inHand
      ensures queueDropped == old(queueDropped) + if queued && |old(pendingEvents)| == 4096 then 1 else 0
      ensures restoreDegraded <==> old(restoreDegraded) || queueDropped > old(queueDropped)
      ensures pendingEvents == if queued && |old(pendingEvents)| != 4096 then old(pendingEvents) + [ev]
                               else old(pendingEvents)
      ensures handled == old(handled)
    {
      ArriveValid(queue);
      NotDropped(queue);
      events, queue := events + [ev], Next(queue, Arrive);
      if queueDrained {
        return false;
      }
      if |pendingEvents| >= EVENT_QUEUE_BOUND {
        queueDropped := queueDropped + 1;
        restoreDegraded := true;
        return true;
      }
      pendingEvents := pendingEvents + [ev];
      return true;
    }

    /** The dispatch of an event in hand, after the unlock. */
    method DispatchInHand(ev: E, ghost id: nat)
      requires Valid() && id in queue.inHand && id < |events| && events[id] == ev
      modifies this
      ensures Valid() && queue == Next(old(queue), DispatchDirect(id)) && events == old(events)
      ensures handled == old(handled) + [ev]
    {
      DirectValid(queue, id);
      queue := Next(queue, DispatchDirect(id));
      handled := handled + [ev];
    }

    /** A subscriber callback that nothing interrupts: the arrival, and the dispatch of an event
        handed back. */
    method Receive(ev: E)
      requires Valid()
      modifies this
      ensures Valid() && events == old(events) + [ev]
      ensures queue == if old(queueDrained) then Next(Next(old(queue), Arrive), DispatchDirect(|old(events)|))
                       else Next(old(queue), Arrive)
      ensures handled == if old(queueDrained) then old(handled) + [ev] else old(handled)
    {
      var queued := MaybeEnqueue(ev);
      if !queued {
        DispatchInHand(ev, |old(events)|);
      }
    }

    /** The locked part of drainQueue: what it goes on to dispatch, in order. */
    method BeginDrain() returns (queued: seq<E>)
      requires Valid()
      modifies this
      ensures Valid() && queue == Next(old(queue), Step.BeginDrain) && events == old(events)
      ensures queued == old(pendingEvents) && handled == old(handled)
      ensures Numbered(events, old(queue).pending, queued)
    {
      BeginDrainValid(queue);
      queued := pendingEvents;
      pendingEvents := [];
      queueDrained := true;
      queue := Next(queue, Step.BeginDrain);
    }

    /** One round of the loop over what was taken. */
    method DispatchQueued(ev: E)
      requires Valid() && queue.draining != [] && queue.draining[0] < |events| && events[queue.draining[0]] == ev
      modifies this
      ensures Valid() && queue == Next(old(queue), DispatchNext) && events == old(events)
      ensures handled == old(handled) + [ev]
    {
      DispatchValid(queue);
      queue := Next(queue, DispatchNext);
      handled := handled + [ev];
    }

    /** drainQueue when nothing arrives meanwhile: all that waited goes out, in order. */
    method DrainQueue()
      requires Valid()
      modifies this
      ensures Valid() && events == old(events)
      ensures queue == Dispatches(Next(old(queue), Step.BeginDrain), |old(pendingEvents)|)
      ensures handled == old(handled) + old(pendingEvents)
    {
      if queue.pending != [] {
        TakenIsDraining(queue);
      }
      var queued := BeginDrain();
      DispatchTaken(queued);
    }

    /** The loop over what was taken. */
    method DispatchTaken(queued: seq<E>)
      requires Valid() && (queued != [] ==> Numbered(events, queue.draining, queued))
      modifies this
      ensures Valid() && events == old(events) && queue == Dispatches(old(queue), |queued|)
      ensures handled == old(handled) + queued
    {
      ghost var taken := queue.draining;
      assert taken[0..] == taken;
      for i := 0 to |queued|
        invariant Valid() && events == old(events) && queue == Dispatches(old(queue), i)
        invariant queue.draining == taken[i..] && handled == old(handled) + queued[..i]
      {
        assert queue.draining[0] == taken[i];
        OneMore(old(handled), queued, taken, i);
        DispatchQueued(queued[i]);
      }
      assert queued[..|queued|] == queued;
    }
  }

  lemma OneMore<E>(before: seq<E>, queued: seq<E>, taken: seq<nat>, i: nat)
    requires i < |queued| && i < |taken|
    ensures before + queued[..i] + [queued[i]] == before + queued[..i + 1]
    ensures taken[i..][1..] == taken[i + 1..]
  {
  }

  lemma TakenIsDraining(q: Queue)
    requires ValidQueue(q) && q.pending != []
    ensures Next(q, BeginDrain).draining == q.pending
  {
  }

  lemma NotDropped(q: Queue)
    requires ValidQueue(q)
    ensures q.arrived !in q.dropped && q.arrived !in q.inHand
  {
    assert Places(q, q.arrived) == 0;
  }
}
