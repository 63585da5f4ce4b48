/** Over every interleaving, allocated blocks and sessions stay in step. */
module ActivationSafety {
  import opened PoolModel
  import opened PoolInvariant
  import opened Activation

  // ---------------------------------------------------------------- one pool operation

  /** pools' is pools after an operation on one subscriber of one pool. */
  ghost predicate OneKeyChanged(pools: map<string, Pool>, pools': map<string, Pool>, info: Session) {
    && pools'.Keys == pools.Keys
    && (forall n :: n in pools && n != info.pool ==> pools'[n] == pools[n])
    && (info.pool in pools ==> OneEntryChanged(pools[info.pool], pools'[info.pool], info.key))
  }

  ghost predicate OneEntryChanged(p: Pool, q: Pool, key: Key) {
    && q.name == p.name && q.id == p.id
    && (forall k :: k != key ==> (k in q.subs <==> k in p.subs))
    && (forall k :: k != key && k in p.subs ==> q.subs[k] == p.subs[k])
  }

  lemma ReleaseChanges(pools: map<string, Pool>, info: Session)
    requires PoolsInv(pools) && info.pool in pools
    ensures var pools' := pools[info.pool := PoolModel.Release(pools[info.pool], info.key)];
            PoolsInv(pools') && OneKeyChanged(pools, pools', info) && !InTable(pools', info)
  {
    ReleaseKeepsInv(pools[info.pool], info.key);
  }

  lemma GetOrAllocateChanges(pools: map<string, Pool>, info: Session)
    requires PoolsInv(pools) && info.pool in pools
    ensures var (q, r) := GetOrAllocate(pools[info.pool], info.key, info.swIfIndex);
            var pools' := pools[info.pool := q];
            && PoolsInv(pools') && OneKeyChanged(pools, pools', info)
            && (r.Err? ==> pools' == pools)
            && (r.Ok? && !InTable(pools, info) ==>
                  r.value.isNew && OneBlock(pools', info) && r.value.mapping == TableMapping(pools', info))
  {
    var p := pools[info.pool];
    AllocateGrants(p, info.key, info.swIfIndex);
    StepKeepsInv(p, OpGetOrAllocate(info.key, info.swIfIndex));
    assert pools[info.pool := p] == pools;
  }

  lemma SamePools(pools: map<string, Pool>, info: Session)
    ensures OneKeyChanged(pools, pools, info)
  {
  }

  /** The entry of a session with another slot is untouched. */
  lemma OtherSlotKept(c: Sessions, pools: map<string, Pool>, pools': map<string, Pool>, sid: string, x: string)
    requires sid in c && x in c && !SameSlot(c, sid, x) && OneKeyChanged(pools, pools', c[sid])
    ensures InTable(pools', c[x]) <==> InTable(pools, c[x])
    ensures OneBlock(pools', c[x]) <==> OneBlock(pools, c[x])
    ensures OneBlock(pools, c[x]) ==> TableMapping(pools', c[x]) == TableMapping(pools, c[x])
  {
  }

  // ---------------------------------------------------------------- one step

  /** s' differs from s in the phase of one session, and perhaps in its table entry. */
  ghost predicate OneSessionChanged(c: Sessions, s: State, s': State, sid: string) {
    && sid in c
    && OneKeyChanged(s.pools, s'.pools, c[sid])
    && (forall x :: x != sid ==>
          && (x in s'.act <==> x in s.act) && (x in s.act ==> s'.act[x] == s.act[x])
          && (x in s'.activations <==> x in s.activations)
          && (x in s'.sessionPool <==> x in s.sessionPool)
          && (x in s.sessionPool ==> s'.sessionPool[x] == s.sessionPool[x]))
    && (forall tid, x :: x != sid ==> (Releasing(s', x, tid) <==> Releasing(s, x, tid)))
    && (forall tid :: tid in s.rel && s.rel[tid].sid != sid ==> tid in s'.rel && s'.rel[tid] == s.rel[tid])
  }

  /** The other sessions' claims and dues are what they were. */
  lemma OtherPhasesKept(c: Sessions, s: State, s': State, sid: string, x: string)
    requires OneSessionChanged(c, s, s', sid) && x != sid
    ensures Freed(s', x) <==> Freed(s, x)
    ensures Owed(s', x) <==> Owed(s, x)
    ensures Claims(s', x) <==> Claims(s, x)
    ensures NotReleasing(s', x) <==> NotReleasing(s, x)
  {
    assert forall tid :: Releasing(s, x, tid) || Releasing(s', x, tid) ==> s'.rel[tid] == s.rel[tid];
  }

  lemma OwedClaims(s: State, sid: string)
    ensures Owed(s, sid) ==> Claims(s, sid)
  {
  }

  /** A slot nobody claims is empty, and a claimed one holds what its session is owed. */
  lemma SlotIs(c: Sessions, s: State, sid: string)
    requires PhasesOk(c, s) && sid in c && Alone(c, s, sid)
    ensures BlockOk(c, s, sid)
  {
    assert SessionOk(c, s, sid);
    if InTable(s.pools, c[sid]) {
      var x :| x in c && c[x].pool == c[sid].pool && c[x].key == c[sid].key && Owed(s, x);
      OwedClaims(s, x);
      assert SameSlot(c, sid, x);
    }
  }

  lemma OtherStaysSafe(c: Sessions, s: State, s': State, sid: string, x: string)
    requires x in c && SessionOk(c, s, x) && OneSessionChanged(c, s, s', sid) && x != sid
    requires Claims(s, x) && SameSlot(c, sid, x) ==> s'.pools == s.pools
    requires Claims(s', sid) ==> Alone(c, s, sid)
    ensures SessionOk(c, s', x)
  {
    OtherPhasesKept(c, s, s', sid, x);
    OwedClaims(s, x);
    if !SameSlot(c, sid, x) {
      OtherSlotKept(c, s.pools, s'.pools, sid, x);
    }
    if Claims(s', x) {
      forall y | y != x && SameSlot(c, x, y)
        ensures !Claims(s', y)
      {
        if y != sid {
          OtherPhasesKept(c, s, s', sid, y);
        } else {
          assert SameSlot(c, sid, x);
        }
      }
    }
  }

  /** The entries after a step still have sessions that should hold them. */
  lemma StillOnlyOwed(c: Sessions, s: State, s': State, sid: string)
    requires OnlyOwed(c, s) && OneSessionChanged(c, s, s', sid)
    requires (s'.pools == s.pools && (Owed(s, sid) ==> Owed(s', sid))) || BlockOk(c, s', sid)
    ensures OnlyOwed(c, s')
  {
    forall n, k | n in s'.pools && k in s'.pools[n].subs
      ensures exists x :: x in c && c[x].pool == n && c[x].key == k && Owed(s', x)
    {
      if n == c[sid].pool && k == c[sid].key && s'.pools != s.pools {
        assert InTable(s'.pools, c[sid]) && Owed(s', sid);
      } else {
        assert n in s.pools && k in s.pools[n].subs;
        var x :| x in c && c[x].pool == n && c[x].key == k && Owed(s, x);
        if x != sid {
          OtherPhasesKept(c, s, s', sid, x);
        } else {
          assert InTable(s'.pools, c[sid]);
        }
        assert Owed(s', x);
      }
    }
  }

  /** To show a step safe it is enough to look at its own session. */
  lemma SafeByOwnSession(c: Sessions, s: State, s': State, sid: string)
    requires PhasesOk(c, s) && OneSessionChanged(c, s, s', sid) && KnownSessions(c, s') && ActOk(c, s', sid)
    requires Claims(s, sid) || Claims(s', sid) ==> Alone(c, s, sid) && BlockOk(c, s', sid)
    requires !Claims(s, sid) && !Claims(s', sid) ==> s'.pools == s.pools
    requires forall tid :: Releasing(s', sid, tid) ==> RelOk(c, s', tid)
    ensures PhasesOk(c, s')
  {
    OwedClaims(s, sid);
    OwedClaims(s', sid);
    StillOnlyOwed(c, s, s', sid);
    forall x | x in c
      ensures SessionOk(c, s', x)
    {
      if x != sid {
        assert SessionOk(c, s, x);
        OtherStaysSafe(c, s, s', sid, x);
      } else {
        OwnStaysAlone(c, s, s', sid);
      }
    }
    forall tid | tid in s'.rel
      ensures RelOk(c, s', tid)
    {
      var x := s'.rel[tid].sid;
      assert Releasing(s', x, tid);
      assert x != sid ==> Releasing(s, x, tid) && RelOk(c, s, tid);
    }
  }

  lemma OwnStaysAlone(c: Sessions, s: State, s': State, sid: string)
    requires OneSessionChanged(c, s, s', sid)
    ensures Alone(c, s', sid) <==> Alone(c, s, sid)
  {
    forall x | x != sid
      ensures Claims(s', x) <==> Claims(s, x)
    {
      OtherPhasesKept(c, s, s', sid, x);
    }
  }

  // Which session an event touches: the shapes of the steps, without any invariant.

  lemma MoveShape(c: Sessions, s: State, s': State, sid: string)
    requires sid in c && sid in s'.act
    requires s' == s.(pools := s'.pools, rev := s'.rev, nextId := s'.nextId, act := s.act[sid := s'.act[sid]])
    requires OneKeyChanged(s.pools, s'.pools, c[sid])
    ensures OneSessionChanged(c, s, s', sid)
  {
  }

  lemma ActShape(c: Sessions, s: State, s': State, sid: string, act: Act)
    requires sid in c && s' == s.(rev := s'.rev, nextId := s'.nextId, act := s.act[sid := act])
    ensures OneSessionChanged(c, s, s', sid)
  {
    SamePools(s.pools, c[sid]);
    MoveShape(c, s, s', sid);
  }

  lemma ActivateShape(c: Sessions, s: State, s': State, sid: string)
    requires sid in c && s' == s.(activations := s.activations + {sid}, act := s.act[sid := Begun])
    ensures OneSessionChanged(c, s, s', sid)
  {
  }

  lemma CommitShape(c: Sessions, s: State, s': State, sid: string, act: Act)
    requires sid in c && s' == s.(sessionPool := s.sessionPool[sid := c[sid].pool], act := s.act[sid := act])
    ensures OneSessionChanged(c, s, s', sid)
  {
  }

  lemma DoneShape(c: Sessions, s: State, s': State, sid: string)
    requires sid in c && s' == s.(activations := s.activations - {sid}, act := s.act - {sid})
    ensures OneSessionChanged(c, s, s', sid)
  {
  }

  lemma RelShape(c: Sessions, s: State, s': State, tid: nat, r: Rel)
    requires r.sid in c && (tid in s.rel ==> s.rel[tid].sid == r.sid)
    requires s' == s.(rev := s'.rev, rel := s.rel[tid := r])
    ensures OneSessionChanged(c, s, s', r.sid)
  {
  }

  lemma ForgetShape(c: Sessions, s: State, s': State, tid: nat)
    requires tid in s.rel && s.rel[tid].sid in c
    requires s' == s.(sessionPool := s.sessionPool - {s.rel[tid].sid}, rel := s.rel - {tid})
    ensures OneSessionChanged(c, s, s', s.rel[tid].sid)
  {
  }

  lemma FreeShape(c: Sessions, s: State, s': State, tid: nat)
    requires tid in s.rel && s.rel[tid].sid in c && OneKeyChanged(s.pools, s'.pools, c[s.rel[tid].sid])
    requires s' == s.(pools := s'.pools, rel := s.rel[tid := s.rel[tid].(pc := Forgetting)])
    ensures OneSessionChanged(c, s, s', s.rel[tid].sid)
  {
  }

  // ---------------------------------------------------------------- the activation's steps

  lemma SameReleases(s: State, s': State, sid: string)
    requires s'.rel == s.rel
    ensures forall tid :: Releasing(s', sid, tid) <==> Releasing(s, sid, tid)
    ensures NotReleasing(s', sid) <==> NotReleasing(s, sid)
    ensures Freed(s', sid) <==> Freed(s, sid)
    ensures NotReleasing(s, sid) ==> !Freed(s, sid)
  {
    assert forall tid :: Releasing(s', sid, tid) <==> Releasing(s, sid, tid);
  }

  lemma ActivateOk(c: Sessions, s: State, s': State, sid: string)
    requires PhasesOk(c, s) && sid in c && sid !in s.sessionPool && sid !in s.activations
    requires Alone(c, s, sid) && NotReleasing(s, sid)
    requires s' == s.(activations := s.activations + {sid}, act := s.act[sid := Begun])
    ensures PhasesOk(c, s')
  {
    assert SessionOk(c, s, sid);
    SlotIs(c, s, sid);
    ActivateShape(c, s, s', sid);
    SameReleases(s, s', sid);
    SafeByOwnSession(c, s, s', sid);
  }

  /** GetBlock, Callback and RollBack: the phase moves on, and the entry in the table appears or
      disappears with it. */
  lemma MoveOk(c: Sessions, s: State, s': State, sid: string)
    requires PhasesOk(c, s) && sid in c && sid in s.act && (s.act[sid].Begun? || InFlight(s, sid))
    requires sid in s'.act && (InFlight(s', sid) || s'.act[sid].Finishing?)
    requires s' == s.(pools := s'.pools, act := s.act[sid := s'.act[sid]]) && OneKeyChanged(s.pools, s'.pools, c[sid])
    requires if InFlight(s', sid) then OneBlock(s'.pools, c[sid]) else !InTable(s'.pools, c[sid])
    requires s'.act[sid].Calling? || s'.act[sid].Committing? ==> s'.act[sid].m == TableMapping(s'.pools, c[sid])
    ensures PhasesOk(c, s')
  {
    assert SessionOk(c, s, sid);
    MoveShape(c, s, s', sid);
    SameReleases(s, s', sid);
    SafeByOwnSession(c, s, s', sid);
  }

  lemma CommitOk(c: Sessions, s: State, s': State, sid: string)
    requires PhasesOk(c, s) && sid in c && sid in s.act && s.act[sid].Committing?
    requires s' == s.(sessionPool := s.sessionPool[sid := c[sid].pool], act := s.act[sid := Indexing(s.act[sid].m)])
    ensures PhasesOk(c, s')
  {
    assert SessionOk(c, s, sid);
    CommitShape(c, s, s', sid, Indexing(s.act[sid].m));
    SameReleases(s, s', sid);
    SafeByOwnSession(c, s, s', sid);
  }

  /** AddReverse and Done: neither what the session claims nor what it is owed changes. */
  lemma IdleMoveOk(c: Sessions, s: State, s': State, sid: string)
    requires PhasesOk(c, s) && sid in s.act && (s.act[sid].Indexing? || s.act[sid].Finishing?)
    requires OneSessionChanged(c, s, s', sid) && s'.pools == s.pools && s'.sessionPool == s.sessionPool
    requires s'.rel == s.rel
    requires sid in s'.act <==> sid in s'.activations
    requires sid in s'.act ==> s'.act[sid].Finishing?
    ensures PhasesOk(c, s')
  {
    assert SessionOk(c, s, sid);
    SameReleases(s, s', sid);
    assert Claims(s', sid) <==> Claims(s, sid);
    if Claims(s, sid) {
      SlotIs(c, s, sid);
    }
    RelOkKept(c, s, s', sid);
    SafeByOwnSession(c, s, s', sid);
  }

  lemma RelOkKept(c: Sessions, s: State, s': State, sid: string)
    requires PhasesOk(c, s) && s'.rel == s.rel
    ensures forall tid :: Releasing(s', sid, tid) ==> RelOk(c, s', tid)
  {
    assert forall tid :: tid in s.rel ==> RelOk(c, s, tid);
  }

  // ---------------------------------------------------------------- the release's steps

  lemma ReleaseOk(c: Sessions, s: State, s': State, sid: string, tid: nat)
    requires PhasesOk(c, s) && sid in s.sessionPool && tid !in s.rel
    requires s' == s.(rel := s.rel[tid := Rel(sid, s.sessionPool[sid], Started)])
    ensures PhasesOk(c, s')
  {
    assert SessionOk(c, s, sid);
    SlotIs(c, s, sid);
    RelShape(c, s, s', tid, Rel(sid, s.sessionPool[sid], Started));
    ReleaseOwed(s, s', sid, tid, s.sessionPool[sid]);
    SafeByOwnSession(c, s, s', sid);
  }

  lemma ReleaseOwed(s: State, s': State, sid: string, tid: nat, pool: string)
    requires tid !in s.rel && s' == s.(rel := s.rel[tid := Rel(sid, pool, Started)])
    ensures Freed(s', sid) <==> Freed(s, sid)
    ensures Owed(s', sid) <==> Owed(s, sid)
    ensures forall t :: Releasing(s', sid, t) && t != tid ==> Releasing(s, sid, t) && s'.rel[t] == s.rel[t]
  {
    assert forall t :: Releasing(s, sid, t) ==> Releasing(s', sid, t) && s'.rel[t] == s.rel[t];
    assert forall t :: Releasing(s', sid, t) && t != tid ==> Releasing(s, sid, t);
  }

  /** A release moves on without freeing. */
  lemma ReleaseMoveOk(c: Sessions, s: State, s': State, tid: nat)
    requires PhasesOk(c, s) && tid in s.rel && tid in s'.rel && !s.rel[tid].pc.Forgetting?
    requires !s'.rel[tid].pc.Forgetting?
    requires s' == s.(rev := s'.rev, rel := s.rel[tid := s.rel[tid].(pc := s'.rel[tid].pc)])
    ensures PhasesOk(c, s')
  {
    var sid := s.rel[tid].sid;
    assert RelOk(c, s, tid) && SessionOk(c, s, sid) && Releasing(s, sid, tid);
    assert Claims(s, sid);
    SlotIs(c, s, sid);
    RelShape(c, s, s', tid, s'.rel[tid]);
    MoveOwed(s, s', tid);
    SafeByOwnSession(c, s, s', sid);
  }

  lemma MoveOwed(s: State, s': State, tid: nat)
    requires tid in s.rel && tid in s'.rel && !s.rel[tid].pc.Forgetting?
    requires s' == s.(pools := s'.pools, rev := s'.rev, rel := s.rel[tid := s.rel[tid].(pc := s'.rel[tid].pc)])
    ensures var sid := s.rel[tid].sid;
      && (forall t :: Releasing(s', sid, t) <==> Releasing(s, sid, t))
      && (Freed(s', sid) <==> Freed(s, sid) || s'.rel[tid].pc.Forgetting?)
      && (NotReleasing(s', sid) <==> NotReleasing(s, sid))
  {
    var sid := s.rel[tid].sid;
    assert forall t :: Releasing(s', sid, t) <==> Releasing(s, sid, t);
    assert Releasing(s', sid, tid);
    assert forall t :: t in s.rel && t != tid ==> s'.rel[t] == s.rel[t];
  }

  /** A release has freed the block, or found none. */
  lemma FreedOk(c: Sessions, s: State, s': State, tid: nat)
    requires PhasesOk(c, s) && tid in s.rel && !s.rel[tid].pc.Forgetting?
    requires s' == s.(pools := s'.pools, rel := s.rel[tid := s.rel[tid].(pc := Forgetting)])
    requires s.rel[tid].sid in c && OneKeyChanged(s.pools, s'.pools, c[s.rel[tid].sid])
    requires !InTable(s'.pools, c[s.rel[tid].sid])
    ensures PhasesOk(c, s')
  {
    var sid := s.rel[tid].sid;
    assert RelOk(c, s, tid) && SessionOk(c, s, sid) && Releasing(s, sid, tid);
    assert Claims(s, sid);
    FreeShape(c, s, s', tid);
    MoveOwed(s, s', tid);
    SafeByOwnSession(c, s, s', sid);
  }

  lemma ForgetOk(c: Sessions, s: State, s': State, tid: nat)
    requires PhasesOk(c, s) && tid in s.rel && s.rel[tid].pc.Forgetting?
    requires s' == s.(sessionPool := s.sessionPool - {s.rel[tid].sid}, rel := s.rel - {tid})
    ensures PhasesOk(c, s')
  {
    var sid := s.rel[tid].sid;
    assert RelOk(c, s, tid) && SessionOk(c, s, sid) && Releasing(s, sid, tid);
    assert Freed(s, sid);
    ForgetShape(c, s, s', tid);
    ForgetOwn(s, s', tid);
    if Claims(s, sid) {
      SlotIs(c, s, sid);
    }
    assert forall t :: Releasing(s', sid, t) ==> t in s.rel && RelOk(c, s, t);
    SafeByOwnSession(c, s, s', sid);
  }

  lemma ForgetOwn(s: State, s': State, tid: nat)
    requires tid in s.rel && s' == s.(sessionPool := s.sessionPool - {s.rel[tid].sid}, rel := s.rel - {tid})
    ensures forall t :: Releasing(s', s.rel[tid].sid, t) <==> Releasing(s, s.rel[tid].sid, t) && t != tid
    ensures Claims(s', s.rel[tid].sid) ==> Claims(s, s.rel[tid].sid)
  {
    var sid := s.rel[tid].sid;
    assert forall t :: Releasing(s', sid, t) <==> Releasing(s, sid, t) && t != tid;
  }

  // ---------------------------------------------------------------- what a step does to the pools

  /** The step's effect on the tables, without the pools' own invariant. */
  ghost predicate Effect(c: Sessions, s: State, s': State, sid: string) {
    && sid in c && OneKeyChanged(s.pools, s'.pools, c[sid])
    && sid in s'.act && s' == s.(pools := s'.pools, act := s.act[sid := s'.act[sid]])
  }

  lemma GetBlockEffect(c: Sessions, s: State, sid: string)
    requires PoolsInv(s.pools) && sid in c && sid in s.act && s.act[sid].Begun?
    ensures var s' := Next(c, s, GetBlock(sid));
            && PoolsInv(s'.pools) && Effect(c, s, s', sid)
            && (s'.act[sid].Finishing? || s'.act[sid].Calling? || s'.act[sid].Committing?)
            && (InTable(s.pools, c[sid]) || s'.act[sid].Finishing? || s'.act[sid].Calling?)
            && (s'.act[sid].Finishing? ==> s'.pools == s.pools)
            && (s'.act[sid].Calling? ==> OneBlock(s'.pools, c[sid]) && s'.act[sid].m == TableMapping(s'.pools, c[sid]))
  {
    SamePools(s.pools, c[sid]);
    if c[sid].pool in s.pools {
      GetOrAllocateChanges(s.pools, c[sid]);
    }
  }

  lemma RollBackEffect(c: Sessions, s: State, sid: string)
    requires PoolsInv(s.pools) && sid in c && sid in s.act && s.act[sid].Failed?
    ensures var s' := Next(c, s, RollBack(sid));
            PoolsInv(s'.pools) && Effect(c, s, s', sid) && s'.act[sid].Finishing? && !InTable(s'.pools, c[sid])
  {
    SamePools(s.pools, c[sid]);
    if c[sid].pool in s.pools {
      ReleaseChanges(s.pools, c[sid]);
    }
  }

  lemma FreeBlocksEffect(c: Sessions, s: State, tid: nat)
    requires PoolsInv(s.pools) && tid in s.rel && s.rel[tid].pc.Freeing? && s.rel[tid].sid in c
    ensures var s' := Next(c, s, Event.FreeBlocks(tid));
            var info := c[s.rel[tid].sid].(pool := s.rel[tid].pool);
            && PoolsInv(s'.pools) && OneKeyChanged(s.pools, s'.pools, info) && !InTable(s'.pools, info)
            && s' == s.(pools := s'.pools, rel := s.rel[tid := s.rel[tid].(pc := Forgetting)])
  {
    var info := c[s.rel[tid].sid].(pool := s.rel[tid].pool);
    SamePools(s.pools, info);
    if info.pool in s.pools {
      ReleaseChanges(s.pools, info);
    }
  }

  // ---------------------------------------------------------------- every step

  lemma GetBlockOk(c: Sessions, s: State, sid: string)
    requires PoolsInv(s.pools) && PhasesOk(c, s) && sid in s.act && s.act[sid].Begun?
    ensures PhasesOk(c, Next(c, s, GetBlock(sid)))
  {
    assert SessionOk(c, s, sid);
    SlotIs(c, s, sid);
    GetBlockEffect(c, s, sid);
    MoveOk(c, s, Next(c, s, GetBlock(sid)), sid);
  }

  lemma CallbackOk(c: Sessions, s: State, s': State, sid: string)
    requires PhasesOk(c, s) && sid in c && sid in s.act && s.act[sid].Calling?
    requires s' == s.(act := s.act[sid := Committing(s.act[sid].m)]) || s' == s.(act := s.act[sid := Failed])
    ensures PhasesOk(c, s')
  {
    assert SessionOk(c, s, sid);
    SamePools(s.pools, c[sid]);
    MoveOk(c, s, s', sid);
  }

  lemma RollBackOk(c: Sessions, s: State, sid: string)
    requires PoolsInv(s.pools) && PhasesOk(c, s) && sid in s.act && s.act[sid].Failed?
    ensures PhasesOk(c, Next(c, s, RollBack(sid)))
  {
    RollBackEffect(c, s, sid);
    MoveOk(c, s, Next(c, s, RollBack(sid)), sid);
  }

  lemma AddReverseOk(c: Sessions, s: State, s': State, sid: string)
    requires PhasesOk(c, s) && sid in c && sid in s.act && s.act[sid].Indexing?
    requires s' == s.(rev := s'.rev, nextId := s'.nextId, act := s.act[sid := Finishing])
    ensures PhasesOk(c, s')
  {
    ActShape(c, s, s', sid, Finishing);
    assert SessionOk(c, s, sid);
    IdleMoveOk(c, s, s', sid);
  }

  lemma DoneOk(c: Sessions, s: State, s': State, sid: string)
    requires PhasesOk(c, s) && sid in s.act && s.act[sid].Finishing?
    requires s' == s.(activations := s.activations - {sid}, act := s.act - {sid})
    ensures PhasesOk(c, s')
  {
    DoneShape(c, s, s', sid);
    IdleMoveOk(c, s, s', sid);
  }

  lemma GetMappingsOk(c: Sessions, s: State, tid: nat)
    requires ValidPools(s.pools) && PhasesOk(c, s) && tid in s.rel && s.rel[tid].pc.Started?
    ensures PhasesOk(c, Next(c, s, GetMappings(tid)))
  {
    var s', r := Next(c, s, GetMappings(tid)), s.rel[tid];
    assert RelOk(c, s, tid) && SessionOk(c, s, r.sid) && Releasing(s, r.sid, tid);
    assert Claims(s, r.sid);
    SlotIs(c, s, r.sid);
    GetMappingsIs(c, s, tid);
    if OneBlock(s.pools, c[r.sid]) {
      ReleaseMoveOk(c, s, s', tid);
    } else {
      SamePools(s.pools, c[r.sid]);
      FreedOk(c, s, s', tid);
    }
  }

  lemma GetMappingsIs(c: Sessions, s: State, tid: nat)
    requires ValidPools(s.pools) && tid in s.rel && s.rel[tid].pc.Started? && RelOk(c, s, tid)
    requires OneBlock(s.pools, c[s.rel[tid].sid]) || !InTable(s.pools, c[s.rel[tid].sid])
    ensures var info := c[s.rel[tid].sid];
            var pc := if OneBlock(s.pools, info) then Removing([TableMapping(s.pools, info)]) else Forgetting;
            Next(c, s, GetMappings(tid)) == s.(rel := s.rel[tid := s.rel[tid].(pc := pc)])
  {
    var info := c[s.rel[tid].sid];
    if OneBlock(s.pools, info) {
      assert SubMappings(s.pools[info.pool], info.key) == [TableMapping(s.pools, info)];
    }
  }

  lemma FreeBlocksOk(c: Sessions, s: State, tid: nat)
    requires PoolsInv(s.pools) && PhasesOk(c, s) && tid in s.rel && s.rel[tid].pc.Freeing?
    ensures PhasesOk(c, Next(c, s, Event.FreeBlocks(tid)))
  {
    assert RelOk(c, s, tid);
    FreeBlocksEffect(c, s, tid);
    FreedOk(c, s, Next(c, s, Event.FreeBlocks(tid)), tid);
  }

  /** The steps that touch the pools. */
  lemma PoolPhases(c: Sessions, s: State, e: Event)
    requires PoolsInv(s.pools) && PhasesOk(c, s) && (e.GetBlock? || e.RollBack? || e.FreeBlocks?)
    ensures PhasesOk(c, Next(c, s, e))
  {
    match e
    case GetBlock(sid) =>
      if sid in s.act && s.act[sid].Begun? {
        GetBlockOk(c, s, sid);
      }
    case RollBack(sid) =>
      if sid in s.act && s.act[sid].Failed? {
        RollBackOk(c, s, sid);
      }
    case FreeBlocks(tid) =>
      if tid in s.rel && s.rel[tid].pc.Freeing? {
        FreeBlocksOk(c, s, tid);
      }
  }

  /** The activation's steps that do not touch the pools. */
  lemma ActPhases(c: Sessions, s: State, e: Event)
    requires ValidPools(s.pools) && PhasesOk(c, s) && SoundActivate(c, s, e)
    requires e.Activate? || e.Callback? || e.Commit? || e.AddReverse? || e.Done?
    ensures PhasesOk(c, Next(c, s, e))
  {
    var s' := Next(c, s, e);
    if s' == s {
    } else if e.AddReverse? || e.Done? {
      EndPhases(c, s, e);
    } else if e.Activate? {
      ActivateOk(c, s, s', e.sid);
    } else {
      MiddlePhases(c, s, e);
    }
  }

  lemma MiddlePhases(c: Sessions, s: State, e: Event)
    requires ValidPools(s.pools) && PhasesOk(c, s) && Next(c, s, e) != s && (e.Callback? || e.Commit?)
    ensures PhasesOk(c, Next(c, s, e))
  {
    if e.Callback? {
      CallbackOk(c, s, Next(c, s, e), e.sid);
    } else {
      CommitOk(c, s, Next(c, s, e), e.sid);
    }
  }

  lemma EndPhases(c: Sessions, s: State, e: Event)
    requires ValidPools(s.pools) && PhasesOk(c, s) && Next(c, s, e) != s && (e.AddReverse? || e.Done?)
    ensures PhasesOk(c, Next(c, s, e))
  {
    if e.AddReverse? {
      AddReverseOk(c, s, Next(c, s, e), e.sid);
    } else {
      DoneOk(c, s, Next(c, s, e), e.sid);
    }
  }

  /** The release's steps that do not touch the pools. */
  lemma RelPhases(c: Sessions, s: State, e: Event)
    requires ValidPools(s.pools) && PhasesOk(c, s)
    requires e.Release? || e.GetMappings? || e.RemoveReverse? || e.Forget?
    ensures PhasesOk(c, Next(c, s, e))
  {
    var s' := Next(c, s, e);
    if s' == s {
    } else if e.RemoveReverse? || e.Forget? {
      LatePhases(c, s, e);
    } else if e.Release? {
      ReleaseOk(c, s, s', e.sid, e.tid);
    } else {
      GetMappingsOk(c, s, e.tid);
    }
  }

  lemma LatePhases(c: Sessions, s: State, e: Event)
    requires ValidPools(s.pools) && PhasesOk(c, s) && Next(c, s, e) != s && (e.RemoveReverse? || e.Forget?)
    ensures PhasesOk(c, Next(c, s, e))
  {
    if e.RemoveReverse? {
      ReleaseMoveOk(c, s, Next(c, s, e), e.tid);
    } else {
      ForgetOk(c, s, Next(c, s, e), e.tid);
    }
  }

  /** The pools stay valid, whatever the schedule. */
  lemma NextPools(c: Sessions, s: State, e: Event)
    requires PoolsInv(s.pools)
    ensures PoolsInv(Next(c, s, e).pools)
  {
    var n, op := NextPoolStep(c, s, e);
    if n in s.pools {
      StepKeepsInv(s.pools[n], op);
      StepName(s.pools[n], op);
    }
  }

  lemma StepName(p: Pool, op: Op)
    requires ValidConfig(p.cfg)
    ensures Step(p, op).name == p.name
  {
  }

  /** Every step keeps blocks and sessions in step, any number of releases running. */
  lemma NextSafe(c: Sessions, s: State, e: Event)
    requires SafeState(c, s) && SoundActivate(c, s, e)
    ensures SafeState(c, Next(c, s, e))
  {
    NextPools(c, s, e);
    if e.GetBlock? || e.RollBack? || e.FreeBlocks? {
      PoolPhases(c, s, e);
    } else if e.Release? || e.GetMappings? || e.RemoveReverse? || e.Forget? {
      RelPhases(c, s, e);
    } else {
      ActPhases(c, s, e);
    }
  }

  /** A step changes the pools by one pool operation, or not at all. */
  lemma NextPoolStep(c: Sessions, s: State, e: Event) returns (n: string, op: Op)
    requires ValidPools(s.pools)
    ensures !op.OpRestore?
    ensures || Next(c, s, e).pools == s.pools
            || (n in s.pools && Next(c, s, e).pools == s.pools[n := Step(s.pools[n], op)])
  {
    n, op := "", OpRelease(Key(0, 0));
    if !e.GetBlock? && !e.RollBack? && !e.FreeBlocks? {
      SamePoolsStep(c, s, e);
    } else if e.GetBlock? && e.sid in c {
      n, op := c[e.sid].pool, OpGetOrAllocate(c[e.sid].key, c[e.sid].swIfIndex);
      GetBlockPools(s, e.sid, c[e.sid]);
    } else if e.RollBack? && e.sid in c {
      n, op := c[e.sid].pool, OpRelease(c[e.sid].key);
    } else if e.FreeBlocks? && e.tid in s.rel && s.rel[e.tid].sid in c {
      n, op := s.rel[e.tid].pool, OpRelease(c[s.rel[e.tid].sid].key);
    }
  }

  lemma SamePoolsStep(c: Sessions, s: State, e: Event)
    requires ValidPools(s.pools) && !e.GetBlock? && !e.RollBack? && !e.FreeBlocks?
    ensures Next(c, s, e).pools == s.pools
  {
  }

  lemma GetBlockPools(s: State, sid: string, info: Session)
    requires ValidPools(s.pools)
    ensures DoGetBlock(s, sid, info).pools
         == if info.pool !in s.pools then s.pools
            else s.pools[info.pool := Step(s.pools[info.pool], OpGetOrAllocate(info.key, info.swIfIndex))]
  {
  }
}
