/** RADIUS accounting sessions (internal/aaa/component.go, internal/aaa/accounting.go): buckets,
    cache and checkpoints over every order of handler steps. A handler takes the bucket lock and
    the cache lock one after the other, so it is two steps; the message to the server follows in a
    goroutine of its own, so it is a third. */
module Accounting {
  import opened Collections
  import opened IdList

  const NUM_BUCKETS: nat := 12
  const PRUNE_AFTER: nat := 300

  /** pending: loaded from a checkpoint and not yet confirmed by a restored session. */
  datatype Entry = Entry(pending: bool, deadline: nat)

  /** What the accounting server sees, with restores and process restarts marked. */
  datatype Mark = Start(id: string) | Stop(id: string) | Restored(id: string) | Restarted

  type Buckets = map<nat, seq<string>>

  /** starting, restoring and releasing hold a session once for each of its handlers between the two
      locked steps, toStart and toStop once for each of its messages not sent yet. */
  datatype State = State(
    buckets: Buckets, cache: map<string, Entry>, db: set<string>, log: seq<Mark>,
    starting: multiset<string>, restoring: multiset<string>, releasing: multiset<string>,
    toStart: multiset<string>, toStop: multiset<string>)

  const EMPTY: State := NewProcess(map[], {}, [])

  /** A process with nothing under way. */
  function NewProcess(cache: map<string, Entry>, db: set<string>, log: seq<Mark>): State {
    State(map[], cache, db, log, multiset{}, multiset{}, multiset{}, multiset{}, multiset{})
  }

  type Hash = string -> nat

  function BucketOf(hash: Hash, id: string): nat {
    hash(id) % NUM_BUCKETS
  }

  function Slot(buckets: Buckets, b: nat): seq<string> {
    if b in buckets then buckets[b] else []
  }

  predicate Slotted(hash: Hash, buckets: Buckets, id: string) {
    id in Slot(buckets, BucketOf(hash, id))
  }

  // ---------------------------------------------------------------- steps

  /** Sweeps the session out of the buckets other than target. */
  function Sweep(buckets: Buckets, id: string, target: nat): Buckets {
    map b | b in buckets :: if b == target then buckets[b] else RemoveFirst(buckets[b], id)
  }

  function Placed(hash: Hash, buckets: Buckets, id: string): Buckets {
    var t := BucketOf(hash, id);
    var swept := Sweep(buckets, id, t);
    if id in Slot(buckets, t) then swept else swept[t := Slot(buckets, t) + [id]]
  }

  function Purged(buckets: Buckets, id: string): Buckets {
    map b | b in buckets :: RemoveFirst(buckets[b], id)
  }

  predicate Expired(e: Entry, now: nat) {
    e.pending && now >= e.deadline
  }

  /** Checkpoints are written and deleted in the background, so the set saved that a restart finds may
      be any. */
  datatype Event =
    | ActivePlace(id: string)
    | ActiveCommit(id: string)
    | SendStart(id: string)
    | RestoredPlace(id: string)
    | RestoredCommit(id: string)
    | ReleaseCache(id: string)
    | ReleaseSlots(id: string)
    | SendStop(id: string)
    | Prune(now: nat)
    | Restart(now: nat, saved: set<string>)

  function Next(hash: Hash, st: State, e: Event): State {
    match e
    case ActivePlace(id) =>
      st.(buckets := Placed(hash, st.buckets, id),
          starting := if Slotted(hash, st.buckets, id) then st.starting else st.starting + multiset{id})
    case ActiveCommit(id) =>
      if id !in st.starting then st
      else
        st.(cache := st.cache[id := Entry(false, 0)], db := st.db + {id},
            starting := st.starting - multiset{id}, toStart := st.toStart + multiset{id})
    case SendStart(id) =>
      if id !in st.toStart then st
      else st.(log := st.log + [Start(id)], toStart := st.toStart - multiset{id})
    case RestoredPlace(id) =>
      st.(buckets := Placed(hash, st.buckets, id), restoring := st.restoring + multiset{id},
          log := st.log + [Restored(id)])
    case RestoredCommit(id) =>
      if id !in st.restoring then st
      else st.(cache := st.cache[id := if id in st.cache then st.cache[id].(pending := false) else Entry(false, 0)],
               restoring := st.restoring - multiset{id})
    case ReleaseCache(id) =>
      st.(cache := st.cache - {id}, db := st.db - {id}, releasing := st.releasing + multiset{id})
    case ReleaseSlots(id) =>
      if id !in st.releasing then st
      else
        st.(buckets := Purged(st.buckets, id), releasing := st.releasing - multiset{id},
            toStop := st.toStop + multiset{id})
    case SendStop(id) =>
      if id !in st.toStop then st
      else st.(log := st.log + [Stop(id)], toStop := st.toStop - multiset{id})
    case Prune(now) =>
      var dead := set id | id in st.cache && Expired(st.cache[id], now);
      st.(cache := st.cache - dead, db := st.db - dead)
    case Restart(now, saved) =>
      NewProcess(map id | id in saved :: Entry(true, now + PRUNE_AFTER), saved, st.log + [Restarted])
  }

  function Run(hash: Hash, st: State, events: seq<Event>): State
    decreases |events|
  {
    if events == [] then st else Run(hash, Next(hash, st, events[0]), events[1..])
  }

  /** No handler of the session is between its locked steps. */
  predicate Idle(st: State, id: string) {
    id !in st.starting && id !in st.restoring && id !in st.releasing
  }

  /** And none of its messages is on its way. */
  predicate Settled(st: State, id: string) {
    Idle(st, id) && id !in st.toStart && id !in st.toStop
  }

  /** The overlaps the handlers stand: a repeated activation, restore or release may begin at any
      time. A restore waits for activations and releases under way, a release for activations and
      restores, and an activation of an unlisted session for releases, where a handler is under way
      until its message is sent. */
  predicate Orderly(hash: Hash, st: State, e: Event) {
    match e
    case ActivePlace(id) => Slotted(hash, st.buckets, id) || (id !in st.releasing && id !in st.toStop)
    case RestoredPlace(id) => id !in st.starting && id !in st.toStart && id !in st.releasing && id !in st.toStop
    case ReleaseCache(id) => id !in st.starting && id !in st.toStart && id !in st.restoring
    case _ => true
  }

  predicate OrderlyRun(hash: Hash, st: State, events: seq<Event>)
    decreases |events|
  {
    events == [] || (Orderly(hash, st, events[0]) && OrderlyRun(hash, Next(hash, st, events[0]), events[1..]))
  }

  // ---------------------------------------------------------------- the history

  predicate Opens(m: Mark, id: string) {
    m == Start(id) || m == Restored(id)
  }

  predicate Closes(m: Mark, id: string) {
    m == Stop(id) || m == Restarted
  }

  /** This process started or restored the session and has not stopped it since. */
  predicate Tracked(log: seq<Mark>, id: string)
    decreases |log|
  {
    log != [] && (Opens(log[|log| - 1], id) || (!Closes(log[|log| - 1], id) && Tracked(log[..|log| - 1], id)))
  }

  /** After a Start or a restore the next Start of the session comes only after its Stop, or after
      a restart of the process. */
  ghost predicate OneStart(log: seq<Mark>) {
    forall i, j :: 0 <= i < j < |log| && log[j].Start? && Opens(log[i], log[j].id) ==>
      exists k :: i < k < j && Closes(log[k], log[j].id)
  }

  lemma TrackedAppend(log: seq<Mark>, m: Mark, id: string)
    ensures Tracked(log + [m], id) <==> Opens(m, id) || (!Closes(m, id) && Tracked(log, id))
  {
  }

  lemma {:induction false} UntrackedIsClosed(log: seq<Mark>, id: string, i: nat)
    requires !Tracked(log, id) && i < |log| && Opens(log[i], id)
    ensures exists k :: i < k < |log| && Closes(log[k], id)
    decreases |log|
  {
    var last := |log| - 1;
    if !Closes(log[last], id) {
      UntrackedIsClosed(log[..last], id, i);
      var k :| i < k < last && Closes(log[..last][k], id);
      assert Closes(log[k], id);
    }
  }

  lemma OneStartAppend(log: seq<Mark>, m: Mark)
    requires OneStart(log) && (m.Start? ==> !Tracked(log, m.id))
    ensures OneStart(log + [m])
  {
    var more := log + [m];
    forall i, j | 0 <= i < j < |more| && more[j].Start? && Opens(more[i], more[j].id)
      ensures exists k :: i < k < j && Closes(more[k], more[j].id)
    {
      if j == |log| {
        UntrackedIsClosed(log, m.id, i);
        var k :| i < k < |log| && Closes(log[k], m.id);
        assert Closes(more[k], more[j].id);
      } else {
        var k :| i < k < j && Closes(log[k], log[j].id);
        assert Closes(more[k], more[j].id);
      }
    }
  }

  // ---------------------------------------------------------------- the invariant

  /** Every listed session is in its hash bucket and once. */
  ghost predicate OneSlot(hash: Hash, buckets: Buckets) {
    forall b :: b in buckets ==> Distinct(buckets[b]) && forall id :: id in buckets[b] ==> hash(id) % 12 == b
  }

  predicate Confirmed(cache: map<string, Entry>, id: string) {
    id in cache && !cache[id].pending
  }

  predicate Agrees(hash: Hash, st: State, id: string) {
    && (Slotted(hash, st.buckets, id) <==>
          (Tracked(st.log, id) && id !in st.toStop) || id in st.starting || id in st.toStart)
    && (Idle(st, id) ==> (Slotted(hash, st.buckets, id) <==> Confirmed(st.cache, id)))
    && (id in st.starting || id in st.toStart ==>
          && st.starting[id] + st.toStart[id] == 1 && !Tracked(st.log, id)
          && id !in st.restoring && id !in st.releasing && id !in st.toStop)
    && (id in st.restoring ==> Tracked(st.log, id) && id !in st.releasing && id !in st.toStop)
    && (id in st.releasing ==> id !in st.cache)
  }

  ghost predicate Inv(hash: Hash, st: State) {
    OneSlot(hash, st.buckets) && OneStart(st.log) && forall id :: Agrees(hash, st, id)
  }

  lemma PlacedKeeps(hash: Hash, buckets: Buckets, id: string)
    requires OneSlot(hash, buckets)
    ensures OneSlot(hash, Placed(hash, buckets, id))
    ensures forall x :: Slotted(hash, Placed(hash, buckets, id), x) <==> Slotted(hash, buckets, x) || x == id
  {
    var t := BucketOf(hash, id);
    forall b | b in buckets && b != t
      ensures RemoveFirst(buckets[b], id) == buckets[b]
    {
      RemoveFirstAbsent(buckets[b], id);
    }
    assert Sweep(buckets, id, t) == buckets;
  }

  /** Whatever copies lie about, one at most to a bucket, placing leaves one, in the hash bucket. */
  lemma PlacedSweeps(hash: Hash, buckets: Buckets, id: string, b: nat)
    requires forall k :: k in buckets ==> Distinct(buckets[k])
    ensures id in Slot(Placed(hash, buckets, id), b) <==> b == hash(id) % 12
    ensures Distinct(Slot(Placed(hash, buckets, id), b))
  {
    if b in buckets {
      RemoveFirstIs(buckets[b], id);
    }
  }

  lemma PurgedKeeps(hash: Hash, buckets: Buckets, id: string)
    requires OneSlot(hash, buckets)
    ensures OneSlot(hash, Purged(buckets, id))
    ensures forall x :: Slotted(hash, Purged(buckets, id), x) <==> Slotted(hash, buckets, x) && x != id
  {
    forall b | b in buckets
      ensures Distinct(RemoveFirst(buckets[b], id))
      ensures forall x :: x in RemoveFirst(buckets[b], id) <==> x in buckets[b] && x != id
    {
      RemoveFirstIs(buckets[b], id);
    }
  }

  /** And a purge leaves none anywhere. */
  lemma PurgedClears(buckets: Buckets, id: string, b: nat)
    requires forall k :: k in buckets ==> Distinct(buckets[k])
    ensures id !in Slot(Purged(buckets, id), b)
    ensures forall x :: x != id ==> (x in Slot(Purged(buckets, id), b) <==> x in Slot(buckets, b))
  {
    if b in buckets {
      RemoveFirstIs(buckets[b], id);
    }
  }

  /** One mark more: the history of the other sessions is as it was. */
  lemma LogMore(log: seq<Mark>, m: Mark)
    requires OneStart(log) && (m.Start? ==> !Tracked(log, m.id))
    ensures OneStart(log + [m])
    ensures forall x :: Tracked(log + [m], x) <==> Opens(m, x) || (!Closes(m, x) && Tracked(log, x))
  {
    OneStartAppend(log, m);
    forall x
      ensures Tracked(log + [m], x) <==> Opens(m, x) || (!Closes(m, x) && Tracked(log, x))
    {
      TrackedAppend(log, m, x);
    }
  }

  lemma PlaceInv(hash: Hash, st: State, e: Event)
    requires Inv(hash, st) && Orderly(hash, st, e) && (e.ActivePlace? || e.RestoredPlace?)
    ensures Inv(hash, Next(hash, st, e))
  {
    var st' := Next(hash, st, e);
    PlacedKeeps(hash, st.buckets, e.id);
    if e.RestoredPlace? {
      LogMore(st.log, Restored(e.id));
    }
    forall x
      ensures Agrees(hash, st', x)
    {
      assert Agrees(hash, st, x);
    }
  }

  lemma CommitInv(hash: Hash, st: State, e: Event)
    requires Inv(hash, st) && (e.ActiveCommit? || e.RestoredCommit?)
    ensures Inv(hash, Next(hash, st, e))
  {
    var st' := Next(hash, st, e);
    forall x
      ensures Agrees(hash, st', x)
    {
      assert Agrees(hash, st, x);
    }
  }

  lemma ReleaseInv(hash: Hash, st: State, e: Event)
    requires Inv(hash, st) && Orderly(hash, st, e) && (e.ReleaseCache? || e.ReleaseSlots?)
    ensures Inv(hash, Next(hash, st, e))
  {
    var st' := Next(hash, st, e);
    PurgedKeeps(hash, st.buckets, e.id);
    forall x
      ensures Agrees(hash, st', x)
    {
      assert Agrees(hash, st, x);
    }
  }

  lemma StartInv(hash: Hash, st: State, id: string)
    requires Inv(hash, st) && id in st.toStart
    ensures Inv(hash, Next(hash, st, SendStart(id)))
  {
    var st' := Next(hash, st, SendStart(id));
    assert Agrees(hash, st, id);
    LogMore(st.log, Start(id));
    forall x
      ensures Agrees(hash, st', x)
    {
      assert Agrees(hash, st, x);
    }
  }

  lemma StopInv(hash: Hash, st: State, id: string)
    requires Inv(hash, st) && id in st.toStop
    ensures Inv(hash, Next(hash, st, SendStop(id)))
  {
    var st' := Next(hash, st, SendStop(id));
    LogMore(st.log, Stop(id));
    forall x
      ensures Agrees(hash, st', x)
    {
      assert Agrees(hash, st, x);
    }
  }

  lemma BackgroundInv(hash: Hash, st: State, e: Event)
    requires Inv(hash, st) && (e.Prune? || e.Restart?)
    ensures Inv(hash, Next(hash, st, e))
  {
    var st' := Next(hash, st, e);
    LogMore(st.log, Restarted);
    forall x
      ensures Agrees(hash, st', x)
    {
      assert Agrees(hash, st, x);
    }
  }

  /** Every step of every handler keeps buckets, cache and history in agreement. */
  lemma NextInv(hash: Hash, st: State, e: Event)
    requires Inv(hash, st) && Orderly(hash, st, e)
    ensures Inv(hash, Next(hash, st, e))
  {
    match e
    case ActivePlace(_) => PlaceInv(hash, st, e);
    case RestoredPlace(_) => PlaceInv(hash, st, e);
    case ActiveCommit(_) => CommitInv(hash, st, e);
    case RestoredCommit(_) => CommitInv(hash, st, e);
    case SendStart(id) =>
      if id in st.toStart {
        StartInv(hash, st, id);
      }
    case SendStop(id) =>
      if id in st.toStop {
        StopInv(hash, st, id);
      }
    case ReleaseCache(_) => ReleaseInv(hash, st, e);
    case ReleaseSlots(_) => ReleaseInv(hash, st, e);
    case Prune(_) => BackgroundInv(hash, st, e);
    case Restart(_, _) => BackgroundInv(hash, st, e);
  }

  lemma {:induction false} RunInv(hash: Hash, st: State, events: seq<Event>)
    requires Inv(hash, st) && OrderlyRun(hash, st, events)
    ensures Inv(hash, Run(hash, st, events))
    decreases |events|
  {
    if events != [] {
      NextInv(hash, st, events[0]);
      RunInv(hash, Next(hash, st, events[0]), events[1..]);
    }
  }

  // ---------------------------------------------------------------- what it gives

  /** Section 5.1 of RFC 2866, and one interim slot: two Starts of a session have a Stop or a restart
      between them, none follows a restore before the next release; the listed sessions are the
      confirmed cache entries, each once, in its hash bucket; and once its messages are out a session
      is listed exactly when the server has it open. */
  ghost predicate Good(hash: Hash, st: State) {
    && OneStart(st.log)
    && OneSlot(hash, st.buckets)
    && (forall id :: Idle(st, id) ==> (Slotted(hash, st.buckets, id) <==> Confirmed(st.cache, id)))
    && (forall id :: Settled(st, id) ==> (Slotted(hash, st.buckets, id) <==> Tracked(st.log, id)))
  }

  lemma InvIsGood(hash: Hash, st: State)
    requires Inv(hash, st)
    ensures Good(hash, st)
  {
    forall id | Idle(st, id)
      ensures Slotted(hash, st.buckets, id) <==> Confirmed(st.cache, id)
      ensures Settled(st, id) ==> (Slotted(hash, st.buckets, id) <==> Tracked(st.log, id))
    {
      assert Agrees(hash, st, id);
    }
  }

  /** Over every orderly run of the process and its restarts. */
  lemma AccountingOverRuns(hash: Hash, events: seq<Event>)
    requires OrderlyRun(hash, EMPTY, events)
    ensures Good(hash, Run(hash, EMPTY, events))
  {
    RunInv(hash, EMPTY, events);
    InvIsGood(hash, Run(hash, EMPTY, events));
  }

  /** Without a restart in the run there is always a Stop. */
  lemma StopBetweenStarts(log: seq<Mark>, i: nat, j: nat)
    requires OneStart(log) && i < j < |log| && log[j].Start? && Opens(log[i], log[j].id) && Restarted !in log
    ensures exists k :: i < k < j && log[k] == Stop(log[j].id)
  {
  }

  /** An activation from start to end, its message included. */
  function Activate(hash: Hash, st: State, id: string): State {
    Next(hash, Next(hash, Next(hash, st, ActivePlace(id)), ActiveCommit(id)), SendStart(id))
  }

  function Restore(hash: Hash, st: State, id: string): State {
    Next(hash, Next(hash, st, RestoredPlace(id)), RestoredCommit(id))
  }

  /** With nothing of the session under way, an activation sends a Start exactly when this process
      does not track the session. */
  lemma ActivationStartsIff(hash: Hash, st: State, id: string)
    requires Inv(hash, st) && Settled(st, id)
    ensures Activate(hash, st, id).log == if Tracked(st.log, id) then st.log else st.log + [Start(id)]
  {
    assert Agrees(hash, st, id);
    if Tracked(st.log, id) {
      ActivateListed(hash, st, id);
    } else {
      ActivateUnlisted(hash, st, id);
    }
  }

  lemma ActivateListed(hash: Hash, st: State, id: string)
    requires Slotted(hash, st.buckets, id) && id !in st.starting && id !in st.toStart
    ensures Activate(hash, st, id).log == st.log
  {
  }

  lemma ActivateUnlisted(hash: Hash, st: State, id: string)
    requires !Slotted(hash, st.buckets, id)
    ensures Activate(hash, st, id).log == st.log + [Start(id)]
  {
    assert id in Next(hash, st, ActivePlace(id)).starting;
    assert id in Next(hash, Next(hash, st, ActivePlace(id)), ActiveCommit(id)).toStart;
  }

  lemma RestoreLists(hash: Hash, st: State, id: string)
    requires id !in st.starting && id !in st.toStart
    ensures var st' := Restore(hash, st, id);
      && st'.log == st.log + [Restored(id)] && id !in st'.starting && id !in st'.toStart
      && Slotted(hash, st'.buckets, id)
  {
  }

  /** After a restart the first event decides: an activation that overtakes the restore sends a
      Start even for a session the server already has open; after the restore it sends none. */
  lemma RestartThenActivate(hash: Hash, st: State, id: string, now: nat, saved: set<string>)
    ensures var st' := Next(hash, st, Restart(now, saved));
      && Activate(hash, st', id).log == st'.log + [Start(id)]
      && Activate(hash, Restore(hash, st', id), id).log == st'.log + [Restored(id)]
  {
    var st' := Next(hash, st, Restart(now, saved));
    assert !Slotted(hash, st'.buckets, id) && id !in st'.starting && id !in st'.toStart;
    ActivateUnlisted(hash, st', id);
    RestoreLists(hash, st', id);
    ActivateListed(hash, Restore(hash, st', id), id);
  }

  // ---------------------------------------------------------------- loaded entries and the prune

  /** The event writes the session's cache row itself. */
  predicate Writes(e: Event, id: string) {
    e == ActiveCommit(id) || e == RestoredCommit(id) || e == ReleaseCache(id) || e.Restart?
  }

  ghost predicate LeftAlone(events: seq<Event>, id: string) {
    forall i :: 0 <= i < |events| ==> !Writes(events[i], id)
  }

  /** Some prune of the run comes at that time or later. */
  ghost predicate PrunesFrom(events: seq<Event>, time: nat) {
    exists i :: 0 <= i < |events| && events[i].Prune? && events[i].now >= time
  }

  lemma LeftAloneStep(hash: Hash, st: State, e: Event, id: string)
    requires !Writes(e, id) && id in st.cache
    ensures var st' := Next(hash, st, e); var row := st.cache[id];
      if e.Prune? && row.pending && e.now >= row.deadline then id !in st'.cache && id !in st'.db
      else id in st'.cache && st'.cache[id] == row && (id in st'.db <==> id in st.db)
  {
  }

  lemma GoneStaysGone(hash: Hash, st: State, e: Event, id: string)
    requires !Writes(e, id) && id !in st.cache && id !in st.db
    ensures id !in Next(hash, st, e).cache && id !in Next(hash, st, e).db
  {
  }

  lemma {:induction false} GoneForGood(hash: Hash, st: State, events: seq<Event>, id: string)
    requires LeftAlone(events, id) && id !in st.cache && id !in st.db
    ensures id !in Run(hash, st, events).cache && id !in Run(hash, st, events).db
    decreases |events|
  {
    if events != [] {
      GoneStaysGone(hash, st, events[0], id);
      GoneForGood(hash, Next(hash, st, events[0]), events[1..], id);
    }
  }

  lemma PrunesFromTail(events: seq<Event>, time: nat)
    requires events != []
    ensures PrunesFrom(events, time) <==>
            (events[0].Prune? && events[0].now >= time) || PrunesFrom(events[1..], time)
  {
    if PrunesFrom(events[1..], time) {
      var i :| 0 <= i < |events[1..]| && events[1..][i].Prune? && events[1..][i].now >= time;
      assert events[i + 1] == events[1..][i];
    }
    if i :| 0 < i < |events| && events[i].Prune? && events[i].now >= time {
      assert events[1..][i - 1] == events[i];
    }
  }

  /** Left alone, an unconfirmed row goes with the first prune at its deadline or later, its
      checkpoint with it, and a confirmed one never. */
  lemma {:induction false} RowSurvivesIff(hash: Hash, st: State, events: seq<Event>, id: string)
    requires LeftAlone(events, id) && id in st.cache && id in st.db
    ensures var st' := Run(hash, st, events); var row := st.cache[id];
      && (id in st'.cache <==> !(row.pending && PrunesFrom(events, row.deadline)))
      && (id in st'.cache ==> st'.cache[id] == row) && (id in st'.db <==> id in st'.cache)
    decreases |events|
  {
    if events != [] {
      var st1 := Next(hash, st, events[0]);
      LeftAloneStep(hash, st, events[0], id);
      PrunesFromTail(events, st.cache[id].deadline);
      if id in st1.cache {
        RowSurvivesIff(hash, st1, events[1..], id);
      } else {
        GoneForGood(hash, st1, events[1..], id);
      }
    }
  }

  /** So a row loaded at a restart survives every prune before its 300 seconds are over, and none
      from then on, unless the session is confirmed, started or released in between. */
  lemma LoadedSurvivesIff(hash: Hash, st: State, now: nat, saved: set<string>, events: seq<Event>, id: string)
    requires id in saved && LeftAlone(events, id)
    ensures id in Run(hash, Next(hash, st, Restart(now, saved)), events).cache <==> !PrunesFrom(events, now + 300)
  {
    RowSurvivesIff(hash, Next(hash, st, Restart(now, saved)), events, id);
  }
}
