/** The accounting handlers as they update the component's fields, one method per critical
    section. */
module AccountingHandlers {
  import opened IdList
  import opened Accounting

  class Component {
    const hash: Hash
    var buckets: Buckets
    var cache: map<string, Entry>
    var db: set<string>
    var log: seq<Mark>
    var starting: multiset<string>
    var restoring: multiset<string>
    var releasing: multiset<string>
    var toStart: multiset<string>
    var toStop: multiset<string>

    function View(): State
      reads this
    {
      State(buckets, cache, db, log, starting, restoring, releasing, toStart, toStop)
    }

    ghost predicate Valid()
      reads this
    {
      Inv(hash, View())
    }

    constructor (h: Hash)
      ensures hash == h && View() == EMPTY && Valid()
    {
      hash, buckets, cache, db, log := h, map[], map[], {}, [];
      starting, restoring, releasing, toStart, toStop := multiset{}, multiset{}, multiset{}, multiset{}, multiset{};
    }

    /** A new process over the checkpoints of the one before: loadAcctSessions. */
    constructor Reload(h: Hash, before: State, now: nat, saved: set<string>)
      ensures hash == h && View() == Next(h, before, Restart(now, saved))
      ensures Inv(h, before) ==> Valid()
    {
      hash, buckets, cache, db, log := h, map[], map[], saved, before.log + [Restarted];
      starting, restoring, releasing, toStart, toStop := multiset{}, multiset{}, multiset{}, multiset{}, multiset{};
      new;
      var todo := db;
      while todo != {}
        invariant todo <= db == saved && cache == map id | id in db - todo :: Entry(true, now + PRUNE_AFTER)
        invariant buckets == map[] && log == before.log + [Restarted]
        invariant starting == restoring == releasing == toStart == toStop == multiset{}
      {
        var id :| id in todo;
        cache := cache[id := Entry(true, now + PRUNE_AFTER)];
        todo := todo - {id};
      }
      if Inv(h, before) {
        NextInv(hash, before, Restart(now, saved));
      }
    }

    /** placeSessionInBucket: the sweep of the other buckets, then the scan of the target. */
    method Place(id: string) returns (alreadyPresent: bool)
      modifies `buckets
      ensures buckets == Placed(hash, old(buckets), id)
      ensures alreadyPresent <==> Slotted(hash, old(buckets), id)
    {
      var target := BucketOf(hash, id);
      SweepAll(id, target);
      SweepSparesTarget(old(buckets), id, target);
      var listed := Slot(buckets, target);
      alreadyPresent := Contains(listed, id);
      if !alreadyPresent {
        buckets := buckets[target := listed + [id]];
      }
    }

    method SweepAll(id: string, target: nat)
      modifies `buckets
      ensures buckets == Sweep(old(buckets), id, target)
    {
      var todo := buckets.Keys;
      while todo != {}
        invariant todo <= buckets.Keys == old(buckets).Keys
        invariant forall b :: b in buckets ==>
                    buckets[b] == if b in todo then old(buckets)[b] else Sweep(old(buckets), id, target)[b]
      {
        var b :| b in todo;
        if b != target {
          var rest := RemoveOne(buckets[b], id);
          buckets := buckets[b := rest];
        }
        todo := todo - {b};
      }
    }

    method PurgeAll(id: string)
      modifies `buckets
      ensures buckets == Purged(old(buckets), id)
    {
      var todo := buckets.Keys;
      while todo != {}
        invariant todo <= buckets.Keys == old(buckets).Keys
        invariant forall b :: b in buckets ==>
                    buckets[b] == if b in todo then old(buckets)[b] else RemoveFirst(old(buckets)[b], id)
      {
        var b :| b in todo;
        var rest := RemoveOne(buckets[b], id);
        buckets := buckets[b := rest];
        todo := todo - {b};
      }
    }

    /** The lifecycle handler up to the bucket lock's release. */
    method BeginActive(id: string)
      modifies this
      ensures View() == Next(hash, old(View()), ActivePlace(id))
      ensures old(Valid() && Orderly(hash, View(), ActivePlace(id))) ==> Valid()
    {
      StepKeeps(hash, View(), ActivePlace(id));
      var alreadyPresent := Place(id);
      if !alreadyPresent {
        starting := starting + multiset{id};
      }
    }

    /** The rest of it: the cache row and the checkpoint, with the Accounting-Start on its way. */
    method FinishActive(id: string)
      requires id in starting
      modifies this
      ensures View() == Next(hash, old(View()), ActiveCommit(id))
      ensures id in cache && !cache[id].pending && db == old(db) + {id}
      ensures old(Valid()) ==> Valid()
    {
      StepKeeps(hash, View(), ActiveCommit(id));
      CommitIs(hash, View(), id);
      cache, db := cache[id := Entry(false, 0)], db + {id};
      starting, toStart := starting - multiset{id}, toStart + multiset{id};
    }

    /** The goroutine that sends the Accounting-Start. */
    method StartAccounting(id: string)
      requires id in toStart
      modifies this
      ensures View() == Next(hash, old(View()), SendStart(id))
      ensures old(Valid()) ==> Valid()
    {
      StepKeeps(hash, View(), SendStart(id));
      log, toStart := log + [Start(id)], toStart - multiset{id};
    }

    method BeginRestored(id: string)
      modifies this
      ensures View() == Next(hash, old(View()), RestoredPlace(id))
      ensures old(Valid() && Orderly(hash, View(), RestoredPlace(id))) ==> Valid()
    {
      StepKeeps(hash, View(), RestoredPlace(id));
      var _ := Place(id);
      restoring, log := restoring + multiset{id}, log + [Restored(id)];
    }

    /** Confirms the loaded row, or seeds a fresh one. No Accounting-Start. */
    method FinishRestored(id: string)
      requires id in restoring
      modifies this
      ensures View() == Next(hash, old(View()), RestoredCommit(id)) && log == old(log)
      ensures id in cache && !cache[id].pending && db == old(db)
      ensures old(Valid()) ==> Valid()
    {
      StepKeeps(hash, View(), RestoredCommit(id));
      if id in cache {
        cache := cache[id := cache[id].(pending := false)];
      } else {
        cache := cache[id := Entry(false, 0)];
      }
      restoring := restoring - multiset{id};
    }

    method BeginRelease(id: string)
      modifies this
      ensures View() == Next(hash, old(View()), ReleaseCache(id))
      ensures cache == old(cache) - {id} && db == old(db) - {id}
      ensures old(Valid() && Orderly(hash, View(), ReleaseCache(id))) ==> Valid()
    {
      StepKeeps(hash, View(), ReleaseCache(id));
      cache, db, releasing := cache - {id}, db - {id}, releasing + multiset{id};
    }

    method FinishRelease(id: string)
      requires id in releasing
      modifies this
      ensures View() == Next(hash, old(View()), ReleaseSlots(id))
      ensures old(Valid()) ==> Valid()
    {
      StepKeeps(hash, View(), ReleaseSlots(id));
      PurgeIs(hash, View(), id);
      PurgeAll(id);
      releasing, toStop := releasing - multiset{id}, toStop + multiset{id};
    }

    /** The goroutine that sends the Accounting-Stop. */
    method StopAccounting(id: string)
      requires id in toStop
      modifies this
      ensures View() == Next(hash, old(View()), SendStop(id))
      ensures old(Valid()) ==> Valid()
    {
      StepKeeps(hash, View(), SendStop(id));
      log, toStop := log + [Stop(id)], toStop - multiset{id};
    }

    method DropIfExpired(id: string, now: nat) returns (dropped: bool)
      requires id in cache
      modifies `cache, `db
      ensures dropped == Expired(old(cache)[id], now)
      ensures cache == if dropped then old(cache) - {id} else old(cache)
      ensures db == if dropped then old(db) - {id} else old(db)
    {
      dropped := cache[id].pending && now >= cache[id].deadline;
      if dropped {
        cache, db := cache - {id}, db - {id};
      }
    }

    method DropExpired(now: nat) returns (pruned: nat, ghost dead: set<string>)
      modifies `cache, `db
      ensures dead == set id | id in old(cache) && Expired(old(cache)[id], now)
      ensures cache == old(cache) - dead && db == old(db) - dead && pruned == |dead|
    {
      ghost var rows, saved := cache, db;
      dead := {};
      pruned := 0;
      var todo := cache.Keys;
      while todo != {}
        invariant PrunedSoFar(rows, todo, now, dead) && pruned == |dead|
        invariant cache == rows - dead && db == saved - dead
      {
        var id :| id in todo;
        PruneOneMore(rows, saved, todo, now, dead, id);
        var dropped := DropIfExpired(id, now);
        if dropped {
          pruned, dead := pruned + 1, dead + {id};
        }
        todo := todo - {id};
      }
    }

    /** Drops the rows that stayed unconfirmed past their deadline, and their checkpoints. */
    method PruneOrphans(now: nat) returns (pruned: nat)
      modifies `cache, `db
      ensures View() == Next(hash, old(View()), Prune(now))
      ensures old(Valid()) ==> Valid()
      ensures pruned == |old(cache)| - |cache|
    {
      ghost var st, dead := View(), {};
      pruned, dead := DropExpired(now);
      assert View() == Next(hash, st, Prune(now));
      if old(Valid()) {
        NextInv(hash, st, Prune(now));
      }
      SizeWithout(st.cache, dead);
    }
  }

  lemma StepKeeps(hash: Hash, st: State, e: Event)
    ensures Inv(hash, st) && Orderly(hash, st, e) ==> Inv(hash, Next(hash, st, e))
  {
    if Inv(hash, st) && Orderly(hash, st, e) {
      NextInv(hash, st, e);
    }
  }

  lemma CommitIs(hash: Hash, st: State, id: string)
    requires id in st.starting
    ensures Next(hash, st, ActiveCommit(id))
         == st.(cache := st.cache[id := Entry(false, 0)], db := st.db + {id},
                starting := st.starting - multiset{id}, toStart := st.toStart + multiset{id})
  {
  }

  lemma PurgeIs(hash: Hash, st: State, id: string)
    requires id in st.releasing
    ensures Next(hash, st, ReleaseSlots(id))
         == st.(buckets := Purged(st.buckets, id), releasing := st.releasing - multiset{id},
                toStop := st.toStop + multiset{id})
  {
  }

  lemma SweepSparesTarget(buckets: Buckets, id: string, target: nat)
    ensures Slot(Sweep(buckets, id, target), target) == Slot(buckets, target)
  {
  }

  /** dead holds the expired rows outside todo. */
  ghost predicate PrunedSoFar(rows: map<string, Entry>, todo: set<string>, now: nat, dead: set<string>) {
    todo <= rows.Keys && dead == set id | id in rows && id !in todo && Expired(rows[id], now)
  }

  lemma PruneOneMore(rows: map<string, Entry>, saved: set<string>, todo: set<string>, now: nat, dead: set<string>,
                     id: string)
    requires PrunedSoFar(rows, todo, now, dead) && id in todo
    ensures id in rows - dead && (rows - dead)[id] == rows[id] && id !in dead
    ensures PrunedSoFar(rows, todo - {id}, now, if Expired(rows[id], now) then dead + {id} else dead)
    ensures rows - dead - {id} == rows - (dead + {id}) && saved - dead - {id} == saved - (dead + {id})
  {
  }

  lemma SizeWithout(m: map<string, Entry>, dead: set<string>)
    requires dead <= m.Keys
    ensures |m - dead| == |m| - |dead|
  {
  }
}
