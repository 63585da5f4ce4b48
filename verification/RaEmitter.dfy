/** The emitter goroutine and the session callbacks that feed it, as they update their fields. */
module RaEmitter {
  import opened Collections
  import opened Optional
  import opened IdList
  import opened RaWheel
  import opened RaLifetime

  lemma NextCursor(n: nat, c: nat)
    requires c < n
    ensures (c + 1) % n == if c + 1 == n then 0 else c + 1
  {
  }

  /** Walking one more session of the burst set. */
  lemma WalkOneMore(w: Wheel, sessions: map<string, Session>, initial: set<string>, visited: set<string>,
                    id: string, now: nat)
    requires id !in visited && id in initial
    ensures id in AfterWalk(w, sessions, visited, now) <==> id in sessions
    ensures id in sessions ==> AfterWalk(w, sessions, visited, now)[id] == sessions[id]
    ensures AfterWalk(w, sessions, visited + {id}, now)
         == if id in sessions && Bursting(sessions[id])
            then AfterWalk(w, sessions, visited, now)[id := Offer(sessions[id], now, w.refresh(id))]
            else AfterWalk(w, sessions, visited, now)
    ensures StillInitial(initial, visited + {id}, sessions)
         == if id in sessions && Bursting(sessions[id])
            then StillInitial(initial, visited, sessions)
            else StillInitial(initial, visited, sessions) - {id}
  {
  }

  class Emitter {
    const w: Wheel
    var now: nat
    var bucket: nat
    var buckets: seq<seq<string>>
    var initial: set<string>
    var sessions: map<string, Session>
    var kicks: seq<string>
    var inEmit: Option<string>

    function View(): State
      reads this
    {
      State(now, bucket, buckets, initial, sessions, kicks, inEmit)
    }

    ghost predicate Valid()
      reads this
    {
      ValidWheel(w) && Inv(w, View())
    }

    constructor (wheel: Wheel)
      requires ValidWheel(wheel)
      ensures w == wheel && View() == Start(wheel) && Valid()
    {
      w, now, bucket, buckets, initial, sessions := wheel, 0, 0, seq(wheel.n, _ => []), {}, map[];
      kicks, inEmit := [], None;
      new;
      StartInv(w);
    }

    method PlaceSession(id: string)
      requires w.n > 0 && |buckets| == w.n
      modifies `buckets
      ensures buckets == Place(w, old(buckets), id)
    {
      if id == "" {
        return;
      }
      var b := BucketOf(w, id);
      var found := Contains(buckets[b], id);
      if !found {
        buckets := buckets[b := buckets[b] + [id]];
      }
    }

    method RemoveSession(id: string)
      requires w.n > 0 && |buckets| == w.n
      modifies `buckets
      ensures buckets == Remove(w, old(buckets), id)
    {
      if id == "" {
        return;
      }
      var b := BucketOf(w, id);
      var ids := RemoveOne(buckets[b], id);
      buckets := buckets[b := ids];
    }

    /** IPv6CP up. A full channel loses the kick. */
    method OnUp(id: string)
      requires Valid()
      modifies this
      ensures Valid() && View() == Next(w, old(View()), Up(id))
      ensures id in sessions && sessions[id].up && sessions[id].left == 3
      ensures kicks == if |old(kicks)| < 8192 then old(kicks) + [id] else old(kicks)
    {
      NextInv(w, View(), Up(id));
      var s := if id in sessions then sessions[id] else Session(false, 0, None, now, None);
      sessions := sessions[id := s.(up := true, left := INITIAL_ADVERTS, since := if s.up then s.since else now)];
      PlaceSession(id);
      if |kicks| < KICK_BUFFER {
        kicks := kicks + [id];
      }
    }

    /** A session restored with IPv6CP open is enrolled without a burst. */
    method OnRestore(id: string)
      requires Valid() && id !in sessions
      modifies this
      ensures Valid() && View() == Next(w, old(View()), Restore(id))
      ensures id in sessions && sessions[id].up && sessions[id].left == 0 && kicks == old(kicks)
    {
      NextInv(w, View(), Restore(id));
      sessions := sessions[id := Session(true, 0, None, now, None)];
      PlaceSession(id);
    }

    /** The emitter takes a kick off its channel. */
    method OnKick()
      requires Valid() && kicks != []
      modifies `initial, `kicks
      ensures Valid() && View() == Next(w, old(View()), Kick)
    {
      NextInv(w, View(), Kick);
      initial, kicks := initial + {kicks[0]}, kicks[1..];
    }

    method OnDown(id: string)
      requires Valid() && id in sessions
      modifies this
      ensures Valid() && View() == Next(w, old(View()), Down(id))
    {
      NextInv(w, View(), Down(id));
      RemoveSession(id);
      sessions := sessions[id := Session(false, 0, None, now, None)];
    }

    /** emitPeriodicRA up to the send: true when the session is due. */
    method SendIfDue(id: string) returns (sent: bool)
      requires Shaped(w, View()) && id in sessions && inEmit.None?
      modifies `sessions, `inEmit
      ensures sent == Due(old(sessions)[id], now)
      ensures sessions == if sent then old(sessions)[id := old(sessions)[id].(last := Some(now))] else old(sessions)
      ensures inEmit == if sent then Some(id) else None
      ensures Sends(old(View()), id) ==> View() == Next(w, old(View()), Send(id))
      ensures old(Valid() && Sends(View(), id)) ==> Valid()
    {
      if Valid() {
        NextInv(w, View(), Send(id));
      }
      var s := sessions[id];
      if !s.up {
        return false;
      }
      if s.due.Some? && now < s.due.value {
        return false;
      }
      sessions, inEmit := sessions[id := s.(last := Some(now))], Some(id);
      return true;
    }

    /** Its second critical section: the burst count and the next due time. */
    method StoreDue()
      requires Shaped(w, View()) && inEmit.Some? && inEmit.value in sessions
      modifies `sessions, `inEmit
      ensures var id := old(inEmit).value;
        sessions == old(sessions)[id := Stored(old(sessions)[id], now, w.refresh(id))] && inEmit.None?
      ensures View() == Next(w, old(View()), Store)
      ensures old(Valid()) ==> Valid()
    {
      if Valid() {
        NextInv(w, View(), Store);
      }
      var id := inEmit.value;
      var s := sessions[id];
      var left := if s.left > 0 then s.left - 1 else 0;
      if left > 0 {
        sessions := sessions[id := s.(left := left, due := Some(now + INITIAL_INTERVAL))];
      } else {
        sessions := sessions[id := s.(left := left, due := Some(now + w.refresh(id)))];
      }
      inEmit := None;
    }

    /** An emit with nothing between its halves. */
    method EmitPeriodic(id: string)
      requires Shaped(w, View()) && id in sessions && inEmit.None?
      modifies `sessions, `inEmit
      ensures sessions == old(sessions)[id := Offer(old(sessions)[id], now, w.refresh(id))] && inEmit.None?
    {
      var sent := SendIfDue(id);
      if sent {
        StoreDue();
      }
    }

    /** One offer per listed session. */
    method EmitBucket(b: nat)
      requires Valid() && b == bucket && inEmit.None?
      modifies `sessions, `inEmit
      ensures sessions == AfterBucket(w, old(View())) && inEmit.None?
    {
      var ids := buckets[b];
      assert Distinct(ids);
      ghost var was := sessions;
      for i := 0 to |ids|
        invariant sessions.Keys == was.Keys && inEmit.None?
        invariant forall id :: id in was ==>
                    sessions[id] == if id in ids[..i] then Offer(was[id], now, w.refresh(id)) else was[id]
      {
        if ids[i] in sessions {
          EmitPeriodic(ids[i]);
        }
        assert ids[..i + 1] == ids[..i] + [ids[i]];
      }
      assert ids[..|ids|] == ids;
      assert sessions == AfterBucket(w, old(View()));
    }

    method VisitOne(id: string, ghost visited: set<string>, ghost sessions0: map<string, Session>,
                    ghost initial0: set<string>)
      requires Shaped(w, View()) && id in initial0 && id !in visited && inEmit.None?
      requires sessions == AfterWalk(w, sessions0, visited, now)
      requires initial == StillInitial(initial0, visited, sessions0)
      modifies `sessions, `initial, `inEmit
      ensures inEmit.None? && sessions == AfterWalk(w, sessions0, visited + {id}, now)
      ensures initial == StillInitial(initial0, visited + {id}, sessions0)
    {
      WalkOneMore(w, sessions0, initial0, visited, id, now);
      if id !in sessions || !Bursting(sessions[id]) {
        initial := initial - {id};
      } else {
        EmitPeriodic(id);
      }
    }

    /** Offers an emit to bursting sessions, at most 2048, and drops the others it meets. */
    method WalkInitial() returns (visited: set<string>)
      requires Shaped(w, View()) && inEmit.None?
      modifies `sessions, `initial, `inEmit
      ensures inEmit.None?
      ensures visited <= old(initial) && |visited| <= 2048
      ensures visited == old(initial) || |visited| == 2048
      ensures sessions == AfterWalk(w, old(sessions), visited, now)
      ensures initial == StillInitial(old(initial), visited, old(sessions))
    {
      visited := {};
      var todo := initial;
      assert sessions == AfterWalk(w, sessions, {}, now);
      while todo != {} && |visited| < INITIAL_PER_TICK
        invariant inEmit.None? && todo !! visited && todo + visited == old(initial) && |visited| <= INITIAL_PER_TICK
        invariant sessions == AfterWalk(w, old(sessions), visited, now)
        invariant initial == StillInitial(old(initial), visited, old(sessions))
      {
        var id :| id in todo;
        VisitOne(id, visited, old(sessions), old(initial));
        todo, visited := todo - {id}, visited + {id};
      }
    }

    method OnTick() returns (visited: set<string>)
      requires Valid() && inEmit.None?
      modifies this
      ensures Valid() && View() == Next(w, old(View()), Tick(visited))
      ensures FullWalk(old(View()), Tick(visited))
    {
      ghost var st := View();
      EmitBucket(bucket);
      visited := WalkInitial();
      NextCursor(w.n, bucket);
      bucket, now := (bucket + 1) % w.n, now + 1;
      assert visited * st.initial == visited;
      assert View() == Next(w, st, Tick(visited));
      NextInv(w, st, Tick(visited));
    }
  }
}
