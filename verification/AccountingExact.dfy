/** Which overlaps of accounting handlers break what Accounting promises: from every state in
    agreement, exactly the ones that are not orderly. */
module AccountingExact {
  import opened Accounting

  /** Every orderly continuation is right. */
  ghost predicate StaysGood(hash: Hash, st: State) {
    forall events :: OrderlyRun(hash, st, events) ==> Good(hash, Run(hash, st, events))
  }

  predicate Finishing(e: Event) {
    e.ActiveCommit? || e.SendStart? || e.RestoredCommit? || e.ReleaseSlots? || e.SendStop?
  }

  predicate OnlyFinishing(events: seq<Event>) {
    forall i :: 0 <= i < |events| ==> Finishing(events[i])
  }

  /** However the handlers already under way finish, with no new one, nothing goes wrong. */
  ghost predicate FinishesGood(hash: Hash, st: State) {
    forall events :: OnlyFinishing(events) ==> Good(hash, Run(hash, st, events))
  }

  lemma {:induction false} FinishingIsOrderly(hash: Hash, st: State, events: seq<Event>)
    requires OnlyFinishing(events)
    ensures OrderlyRun(hash, st, events)
    decreases |events|
  {
    if events != [] {
      assert Finishing(events[0]);
      FinishingIsOrderly(hash, Next(hash, st, events[0]), events[1..]);
    }
  }

  lemma StaysMeansFinishes(hash: Hash, st: State)
    requires StaysGood(hash, st)
    ensures FinishesGood(hash, st)
  {
    forall events | OnlyFinishing(events)
      ensures Good(hash, Run(hash, st, events))
    {
      FinishingIsOrderly(hash, st, events);
    }
  }

  lemma OrderlyStaysGood(hash: Hash, st: State, e: Event)
    requires Inv(hash, st) && Orderly(hash, st, e)
    ensures StaysGood(hash, Next(hash, st, e))
  {
    var st' := Next(hash, st, e);
    NextInv(hash, st, e);
    forall events | OrderlyRun(hash, st', events)
      ensures Good(hash, Run(hash, st', events))
    {
      RunInv(hash, st', events);
      InvIsGood(hash, Run(hash, st', events));
    }
  }

  // ---------------------------------------------------------------- ways to end badly

  /** The session is idle and confirmed in the cache but in no bucket: it gets no interim updates. */
  predicate Lost(hash: Hash, st: State, id: string) {
    Idle(st, id) && Confirmed(st.cache, id) && !Slotted(hash, st.buckets, id)
  }

  /** Nothing of the session is under way, and it is listed but not open at the server, or open but
      not listed. */
  predicate Unmatched(hash: Hash, st: State, id: string) {
    Settled(st, id) && Slotted(hash, st.buckets, id) != Tracked(st.log, id)
  }

  lemma EndsBadly(hash: Hash, st: State, id: string)
    requires Lost(hash, st, id) || Unmatched(hash, st, id)
    ensures !FinishesGood(hash, st)
  {
    assert !Good(hash, Run(hash, st, []));
  }

  lemma OneMoreStep(hash: Hash, st: State, e: Event)
    requires Finishing(e) && !FinishesGood(hash, Next(hash, st, e))
    ensures !FinishesGood(hash, st)
  {
    var events :| OnlyFinishing(events) && !Good(hash, Run(hash, Next(hash, st, e), events));
    var longer := [e] + events;
    assert longer[1..] == events;
    assert OnlyFinishing(longer);
    assert !Good(hash, Run(hash, st, longer));
  }

  /** The remaining restores of a released session run to their ends. */
  lemma {:induction false} RestoresFinish(hash: Hash, st: State, id: string, n: nat)
    requires n == st.restoring[id] && id !in st.starting && id !in st.releasing && !Slotted(hash, st.buckets, id)
    requires n > 0 || Confirmed(st.cache, id)
    ensures !FinishesGood(hash, st)
    decreases n
  {
    if n == 0 {
      EndsBadly(hash, st, id);
    } else {
      RestoresFinish(hash, Next(hash, st, RestoredCommit(id)), id, n - 1);
      OneMoreStep(hash, st, RestoredCommit(id));
    }
  }

  /** The remaining releases of a session that came back run to their ends. */
  lemma {:induction false} ReleasesFinish(hash: Hash, st: State, id: string, n: nat)
    requires OneSlot(hash, st.buckets) && n == st.releasing[id] && id !in st.starting && id !in st.restoring
    requires Confirmed(st.cache, id) && (n > 0 || !Slotted(hash, st.buckets, id))
    ensures !FinishesGood(hash, st)
    decreases n
  {
    if n == 0 {
      EndsBadly(hash, st, id);
    } else {
      PurgedKeeps(hash, st.buckets, id);
      ReleasesFinish(hash, Next(hash, st, ReleaseSlots(id)), id, n - 1);
      OneMoreStep(hash, st, ReleaseSlots(id));
    }
  }

  /** The Stops still on their way close a session that came back. */
  lemma {:induction false} StopsFinish(hash: Hash, st: State, id: string, n: nat)
    requires n == st.toStop[id] && Idle(st, id) && id !in st.toStart && Slotted(hash, st.buckets, id)
    requires n > 0 || !Tracked(st.log, id)
    ensures !FinishesGood(hash, st)
    decreases n
  {
    if n == 0 {
      EndsBadly(hash, st, id);
    } else {
      TrackedAppend(st.log, Stop(id), id);
      StopsFinish(hash, Next(hash, st, SendStop(id)), id, n - 1);
      OneMoreStep(hash, st, SendStop(id));
    }
  }

  /** A Start on its way after a restore follows it with nothing between. */
  lemma StartAfterRestore(hash: Hash, st: State, log: seq<Mark>, id: string)
    requires id in st.toStart && st.log == log + [Restored(id)]
    ensures !FinishesGood(hash, st)
  {
    var st' := Next(hash, st, SendStart(id));
    var i, j := |log|, |log| + 1;
    assert Opens(st'.log[i], id) && st'.log[j] == Start(id);
    assert !Good(hash, Run(hash, st', []));
    OneMoreStep(hash, st, SendStart(id));
  }

  // ---------------------------------------------------------------- the overlaps

  lemma RestoreDuringActivation(hash: Hash, st: State, id: string)
    requires Inv(hash, st) && (id in st.starting || id in st.toStart)
    ensures !FinishesGood(hash, Next(hash, st, RestoredPlace(id)))
  {
    var st1 := Next(hash, st, RestoredPlace(id));
    if id in st.toStart {
      StartAfterRestore(hash, st1, st.log, id);
    } else {
      var st2 := Next(hash, st1, ActiveCommit(id));
      StartAfterRestore(hash, st2, st.log, id);
      OneMoreStep(hash, st1, ActiveCommit(id));
    }
  }

  lemma ReleaseBeforeCommit(hash: Hash, st: State, id: string)
    requires Inv(hash, st) && id in st.starting
    ensures !FinishesGood(hash, Next(hash, st, ReleaseCache(id)))
  {
    assert Agrees(hash, st, id);
    PurgedKeeps(hash, st.buckets, id);
    var st1 := Next(hash, st, ReleaseCache(id));
    var st2 := Next(hash, st1, ReleaseSlots(id));
    CommitUnlisted(hash, st2, id);
    OneMoreStep(hash, st1, ReleaseSlots(id));
  }

  lemma CommitUnlisted(hash: Hash, st: State, id: string)
    requires st.starting[id] == 1 && id !in st.restoring && id !in st.releasing && !Slotted(hash, st.buckets, id)
    ensures !FinishesGood(hash, st)
  {
    EndsBadly(hash, Next(hash, st, ActiveCommit(id)), id);
    OneMoreStep(hash, st, ActiveCommit(id));
  }

  /** The Stop overtakes the Start: the server keeps open a session that is gone. */
  lemma ReleaseBeforeStart(hash: Hash, st: State, id: string)
    requires Inv(hash, st) && id in st.toStart
    ensures !FinishesGood(hash, Next(hash, st, ReleaseCache(id)))
  {
    assert Agrees(hash, st, id);
    PurgedKeeps(hash, st.buckets, id);
    var st1 := Next(hash, st, ReleaseCache(id));
    var st2 := Next(hash, st1, ReleaseSlots(id));
    StopThenStart(hash, st2, id);
    OneMoreStep(hash, st1, ReleaseSlots(id));
  }

  lemma StopThenStart(hash: Hash, st: State, id: string)
    requires Idle(st, id) && st.toStart[id] == 1 && st.toStop[id] == 1 && !Slotted(hash, st.buckets, id)
    ensures !FinishesGood(hash, st)
  {
    var st1 := Next(hash, st, SendStop(id));
    var st2 := Next(hash, st1, SendStart(id));
    TrackedAppend(st1.log, Start(id), id);
    EndsBadly(hash, st2, id);
    OneMoreStep(hash, st1, SendStart(id));
    OneMoreStep(hash, st, SendStop(id));
  }

  lemma ReleaseDuringActivation(hash: Hash, st: State, id: string)
    requires Inv(hash, st) && (id in st.starting || id in st.toStart)
    ensures !FinishesGood(hash, Next(hash, st, ReleaseCache(id)))
  {
    if id in st.starting {
      ReleaseBeforeCommit(hash, st, id);
    } else {
      ReleaseBeforeStart(hash, st, id);
    }
  }

  lemma ReleaseDuringRestore(hash: Hash, st: State, id: string)
    requires Inv(hash, st) && id in st.restoring
    ensures !FinishesGood(hash, Next(hash, st, ReleaseCache(id)))
  {
    assert Agrees(hash, st, id);
    PurgedKeeps(hash, st.buckets, id);
    var st1 := Next(hash, st, ReleaseCache(id));
    var st2 := Next(hash, st1, ReleaseSlots(id));
    RestoresFinish(hash, st2, id, st2.restoring[id]);
    OneMoreStep(hash, st1, ReleaseSlots(id));
  }

  lemma RestoreDuringRelease(hash: Hash, st: State, id: string)
    requires Inv(hash, st) && (id in st.releasing || id in st.toStop)
    ensures !FinishesGood(hash, Next(hash, st, RestoredPlace(id)))
  {
    assert Agrees(hash, st, id);
    PlacedKeeps(hash, st.buckets, id);
    var st1 := Next(hash, st, RestoredPlace(id));
    var st2 := Next(hash, st1, RestoredCommit(id));
    if id in st.releasing {
      ReleasesFinish(hash, st2, id, st2.releasing[id]);
    } else {
      StopsFinish(hash, st2, id, st2.toStop[id]);
    }
    OneMoreStep(hash, st1, RestoredCommit(id));
  }

  lemma ActivationDuringRelease(hash: Hash, st: State, id: string)
    requires Inv(hash, st) && !Slotted(hash, st.buckets, id) && (id in st.releasing || id in st.toStop)
    ensures !FinishesGood(hash, Next(hash, st, ActivePlace(id)))
  {
    assert Agrees(hash, st, id);
    PlacedKeeps(hash, st.buckets, id);
    var st1 := Next(hash, st, ActivePlace(id));
    var st2 := Next(hash, st1, ActiveCommit(id));
    if id in st.releasing {
      ReleasesFinish(hash, st2, id, st2.releasing[id]);
    } else {
      StopsFinish(hash, Next(hash, st2, SendStart(id)), id, st2.toStop[id]);
      OneMoreStep(hash, st2, SendStart(id));
    }
    OneMoreStep(hash, st1, ActiveCommit(id));
  }

  lemma DisorderBreaks(hash: Hash, st: State, e: Event)
    requires Inv(hash, st) && !Orderly(hash, st, e)
    ensures !FinishesGood(hash, Next(hash, st, e))
  {
    match e
    case ActivePlace(id) => ActivationDuringRelease(hash, st, id);
    case RestoredPlace(id) =>
      if id in st.starting || id in st.toStart {
        RestoreDuringActivation(hash, st, id);
      } else {
        RestoreDuringRelease(hash, st, id);
      }
    case ReleaseCache(id) =>
      if id in st.starting || id in st.toStart {
        ReleaseDuringActivation(hash, st, id);
      } else {
        ReleaseDuringRestore(hash, st, id);
      }
  }

  /** From every state in agreement: after an orderly step every orderly continuation is right, and
      after any other step the handlers and messages under way can finish wrong by themselves. */
  lemma OrderlyIff(hash: Hash, st: State, e: Event)
    requires Inv(hash, st)
    ensures StaysGood(hash, Next(hash, st, e)) <==> Orderly(hash, st, e)
    ensures FinishesGood(hash, Next(hash, st, e)) <==> Orderly(hash, st, e)
  {
    if Orderly(hash, st, e) {
      OrderlyStaysGood(hash, st, e);
    } else {
      DisorderBreaks(hash, st, e);
    }
    if StaysGood(hash, Next(hash, st, e)) {
      StaysMeansFinishes(hash, Next(hash, st, e));
    }
  }

  /** At every point of the run the handlers and messages under way can only finish right. */
  ghost predicate AlwaysFinishesGood(hash: Hash, st: State, events: seq<Event>)
    decreases |events|
  {
    && FinishesGood(hash, st)
    && (events == [] || AlwaysFinishesGood(hash, Next(hash, st, events[0]), events[1..]))
  }

  lemma InvFinishesGood(hash: Hash, st: State)
    requires Inv(hash, st)
    ensures FinishesGood(hash, st)
  {
    forall events | OnlyFinishing(events)
      ensures Good(hash, Run(hash, st, events))
    {
      FinishingIsOrderly(hash, st, events);
      RunInv(hash, st, events);
      InvIsGood(hash, Run(hash, st, events));
    }
  }

  /** The same over whole runs. */
  lemma {:induction false} OrderlyRunIff(hash: Hash, st: State, events: seq<Event>)
    requires Inv(hash, st)
    ensures AlwaysFinishesGood(hash, st, events) <==> OrderlyRun(hash, st, events)
    decreases |events|
  {
    InvFinishesGood(hash, st);
    if events != [] {
      var st' := Next(hash, st, events[0]);
      OrderlyIff(hash, st, events[0]);
      if Orderly(hash, st, events[0]) {
        NextInv(hash, st, events[0]);
        OrderlyRunIff(hash, st', events[1..]);
      } else {
        assert !AlwaysFinishesGood(hash, st', events[1..]);
      }
    }
  }

  // ---------------------------------------------------------------- two Starts in a row

  /** A release up to its last locked step, its Stop not sent yet. */
  function Released(hash: Hash, st: State, id: string): State {
    Next(hash, Next(hash, st, ReleaseCache(id)), ReleaseSlots(id))
  }

  lemma ReleasedIs(hash: Hash, st: State, id: string)
    requires OneSlot(hash, st.buckets)
    ensures Released(hash, st, id).log == st.log && !Slotted(hash, Released(hash, st, id).buckets, id)
  {
    PurgedKeeps(hash, st.buckets, id);
    assert id in Next(hash, st, ReleaseCache(id)).releasing;
  }

  /** An activation in the window between that step and the Stop sends its Start first. */
  lemma WindowSendsTwoStarts(hash: Hash, st: State, id: string)
    requires Inv(hash, st) && Tracked(st.log, id)
    ensures var log := Activate(hash, Released(hash, st, id), id).log;
            log == st.log + [Start(id)] && !OneStart(log)
  {
    ReleasedIs(hash, st, id);
    ActivateUnlisted(hash, Released(hash, st, id), id);
    TrackedIsOpen(st.log, id);
  }

  lemma TrackedIsOpen(log: seq<Mark>, id: string)
    requires Tracked(log, id)
    ensures !OneStart(log + [Start(id)])
  {
    var i := LastOpening(log, id);
    var more := log + [Start(id)];
    assert Opens(more[i], more[|log|].id);
    assert forall k :: i < k < |log| ==> !Closes(more[k], id);
  }

  lemma {:induction false} LastOpening(log: seq<Mark>, id: string) returns (i: nat)
    requires Tracked(log, id)
    ensures i < |log| && Opens(log[i], id) && forall k :: i < k < |log| ==> !Closes(log[k], id)
    decreases |log|
  {
    var last := |log| - 1;
    if Opens(log[last], id) {
      i := last;
    } else {
      i := LastOpening(log[..last], id);
      assert forall k :: i < k < last ==> log[..last][k] == log[k];
    }
  }

  /** An activation with a release between its two locked steps, and the messages sent as they come. */
  function Overtaken(hash: Hash, st: State, id: string): State {
    var st2 := Next(hash, Next(hash, st, ActivePlace(id)), ReleaseCache(id));
    var st4 := Next(hash, Next(hash, st2, ReleaseSlots(id)), SendStop(id));
    Next(hash, Next(hash, st4, ActiveCommit(id)), SendStart(id))
  }

  lemma StopsThenStarts(hash: Hash, st: State, id: string)
    requires OneSlot(hash, st.buckets) && id in st.starting && id in st.releasing
    ensures var st2 := Next(hash, Next(hash, st, ReleaseSlots(id)), SendStop(id));
            var st4 := Next(hash, Next(hash, st2, ActiveCommit(id)), SendStart(id));
            st4.log == st.log + [Stop(id), Start(id)] && !Slotted(hash, st4.buckets, id)
  {
    PurgeStops(hash, st, id);
    CommitSends(hash, Next(hash, Next(hash, st, ReleaseSlots(id)), SendStop(id)), id);
  }

  lemma PurgeStops(hash: Hash, st: State, id: string)
    requires OneSlot(hash, st.buckets) && id in st.starting && id in st.releasing
    ensures var st' := Next(hash, Next(hash, st, ReleaseSlots(id)), SendStop(id));
            st'.log == st.log + [Stop(id)] && id in st'.starting && !Slotted(hash, st'.buckets, id)
  {
    PurgedKeeps(hash, st.buckets, id);
    assert id in Next(hash, st, ReleaseSlots(id)).toStop;
  }

  lemma CommitSends(hash: Hash, st: State, id: string)
    requires id in st.starting
    ensures var st' := Next(hash, Next(hash, st, ActiveCommit(id)), SendStart(id));
            st'.log == st.log + [Start(id)] && st'.buckets == st.buckets
  {
    assert id in Next(hash, st, ActiveCommit(id)).toStart;
  }

  /** The next activation sends a second Start with no Stop between. */
  lemma OverlapSendsTwoStarts(hash: Hash, st: State, id: string)
    requires Inv(hash, st) && Settled(st, id) && !Tracked(st.log, id)
    ensures Activate(hash, Overtaken(hash, st, id), id).log == st.log + [Stop(id), Start(id), Start(id)]
  {
    assert Agrees(hash, st, id);
    PlacedKeeps(hash, st.buckets, id);
    var st2 := Next(hash, Next(hash, st, ActivePlace(id)), ReleaseCache(id));
    assert id in st2.starting && st2.log == st.log;
    StopsThenStarts(hash, st2, id);
    ActivateUnlisted(hash, Overtaken(hash, st, id), id);
  }
}
