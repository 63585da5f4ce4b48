/** The 16-bit identifier allocator of internal/l2tp/id_allocator.go: a counter that skips zero
    when it wraps, and a scan for a free identifier after its first wrap. */
module IdAllocator {
  import opened Collections
  import opened Optional

  const MAX_ID: nat := 0xffff

  // ---------------------------------------------------------------- the cycle 1, 2, ..., 65535

  /** A uint16 increment that steps over zero. */
  function After(id: nat): nat {
    if (id + 1) % 0x1_0000 == 0 then 1 else (id + 1) % 0x1_0000
  }

  /** The k-th identifier from id on. */
  function Nth(id: nat, k: nat): nat
    requires 1 <= id <= MAX_ID && k <= MAX_ID
  {
    if id + k <= MAX_ID then id + k else id + k - MAX_ID
  }

  ghost predicate ValidIds(inUse: set<nat>) {
    forall id :: id in inUse ==> 1 <= id <= MAX_ID
  }

  ghost predicate AllHeld(inUse: set<nat>) {
    forall id :: 1 <= id <= MAX_ID ==> id in inUse
  }

  /** A full scan meets every identifier. */
  lemma ScanIsComplete(next: nat, inUse: set<nat>)
    requires 1 <= next <= MAX_ID
    requires forall k :: 0 <= k < MAX_ID ==> Nth(next, k) in inUse
    ensures AllHeld(inUse)
  {
    forall id | 1 <= id <= MAX_ID
      ensures id in inUse
    {
      var k := if id >= next then id - next else id + MAX_ID - next;
      assert Nth(next, k) == id;
    }
  }

  // ---------------------------------------------------------------- operations on values

  datatype State = State(next: nat, inUse: set<nat>, wrapped: bool)

  const FRESH: State := State(1, {}, false)

  /** Until the first wrap every identifier in use is below the counter. */
  ghost predicate Valid(s: State) {
    1 <= s.next <= MAX_ID && ValidIds(s.inUse) && (!s.wrapped ==> forall id :: id in s.inUse ==> id < s.next)
  }

  /** id is the first free identifier from the counter on. */
  ghost predicate FirstFree(s: State, id: nat)
    requires 1 <= s.next <= MAX_ID
  {
    exists k ::
      && 0 <= k < MAX_ID && id == Nth(s.next, k) && id !in s.inUse
      && forall j :: 0 <= j < k ==> Nth(s.next, j) in s.inUse
  }

  /** What one allocation may do. */
  ghost predicate Allocated(s: State, s': State, r: Option<nat>)
    requires 1 <= s.next <= MAX_ID
  {
    match r
    case Some(id) =>
      FirstFree(s, id) && s' == State(After(id), s.inUse + {id}, s.wrapped || id == MAX_ID)
    case None =>
      AllHeld(s.inUse) && s'.inUse == s.inUse && s'.next == s.next && s'.wrapped && s.wrapped
  }

  lemma AllocatedKeeps(s: State, s': State, r: Option<nat>)
    requires Valid(s) && Allocated(s, s', r)
    ensures Valid(s')
    ensures r.Some? ==> r.value != 0 && r.value !in s.inUse
    ensures r.Some? && !s.wrapped ==> r.value == s.next
  {
    if r.Some? && !s.wrapped {
      assert Nth(s.next, 0) == s.next;
      assert s.next !in s.inUse;
    }
  }

  function Reserved(s: State, id: nat): State {
    if id == 0 || id in s.inUse then s
    else if !s.wrapped && id >= s.next then State(After(id), s.inUse + {id}, id == MAX_ID)
    else s.(inUse := s.inUse + {id})
  }

  // ---------------------------------------------------------------- every run

  datatype Op = Allocate(result: Option<nat>) | Reserve(id: nat) | Release(id: nat)

  ghost predicate Step(s: State, op: Op, s': State) {
    match op
    case Allocate(r) => 1 <= s.next <= MAX_ID && Allocated(s, s', r)
    case Reserve(id) => id <= MAX_ID && s' == Reserved(s, id)
    case Release(id) => s' == if id == 0 then s else s.(inUse := s.inUse - {id})
  }

  /** states[i + 1] follows states[i] by ops[i]. */
  ghost predicate Run(states: seq<State>, ops: seq<Op>) {
    |states| == |ops| + 1 && states[0] == FRESH && forall i :: 0 <= i < |ops| ==> Step(states[i], ops[i], states[i + 1])
  }

  /** ops[i] handed identifier id to a caller. */
  predicate Hands(s: State, op: Op, id: nat) {
    op == Allocate(Some(id)) || (op == Reserve(id) && id != 0 && id !in s.inUse)
  }

  lemma StepKeeps(s: State, op: Op, s': State)
    requires Valid(s) && Step(s, op, s')
    ensures Valid(s')
  {
    if op.Allocate? {
      AllocatedKeeps(s, s', op.result);
    }
  }

  /** Every state of a run of the fresh allocator is valid. */
  lemma {:induction false} RunValid(states: seq<State>, ops: seq<Op>, i: nat)
    requires Run(states, ops) && i <= |ops|
    ensures Valid(states[i])
  {
    if i > 0 {
      RunValid(states, ops, i - 1);
      assert Step(states[i - 1], ops[i - 1], states[i]);
      StepKeeps(states[i - 1], ops[i - 1], states[i]);
    }
  }

  lemma {:induction false} HandedBelow(states: seq<State>, ops: seq<Op>, i: nat, j: nat, id: nat)
    requires Run(states, ops) && i < j <= |ops| && Hands(states[i], ops[i], id) && !states[j].wrapped
    ensures id < states[j].next
    decreases j
  {
    assert Step(states[j - 1], ops[j - 1], states[j]);
    RunValid(states, ops, j - 1);
    if i + 1 < j {
      HandedBelow(states, ops, i, j - 1, id);
      if ops[j - 1].Allocate? {
        AllocatedKeeps(states[j - 1], states[j], ops[j - 1].result);
      }
    }
  }

  /** Over every run an allocation yields no zero and nothing in use; before the first wrap it
      yields more than every identifier handed out or reserved before. */
  lemma AllocatesAbove(states: seq<State>, ops: seq<Op>, j: nat, r: nat)
    requires Run(states, ops) && j < |ops| && ops[j] == Allocate(Some(r))
    ensures r != 0 && r !in states[j].inUse
    ensures !states[j].wrapped ==> forall i, id: nat :: 0 <= i < j && Hands(states[i], ops[i], id) ==> id < r
  {
    assert Step(states[j], ops[j], states[j + 1]);
    RunValid(states, ops, j);
    AllocatedKeeps(states[j], states[j + 1], Some(r));
    if !states[j].wrapped {
      forall i, id: nat | 0 <= i < j && Hands(states[i], ops[i], id)
        ensures id < r
      {
        HandedBelow(states, ops, i, j, id);
      }
    }
  }

  // ---------------------------------------------------------------- exhaustion

  function UpTo(n: nat): (ids: set<nat>)
    ensures forall id :: id in ids <==> 1 <= id <= n
  {
    if n == 0 then {} else UpTo(n - 1) + {n}
  }

  lemma {:induction false} SizeUpTo(n: nat)
    ensures |UpTo(n)| == n
  {
    if n > 0 {
      SizeUpTo(n - 1);
    }
  }

  /** All identifiers are held exactly when Count is 65535. */
  lemma AllHeldIffCount(inUse: set<nat>, n: nat)
    requires ValidIds(inUse) && n == MAX_ID
    ensures AllHeld(inUse) <==> |inUse| == n
  {
    SizeUpTo(n);
    assert inUse <= UpTo(n);
    if AllHeld(inUse) {
      assert inUse == UpTo(n);
    } else if |inUse| == n {
      var id :| 1 <= id <= MAX_ID && id !in inUse;
      assert inUse <= UpTo(n) - {id};
      SubsetSize(inUse, UpTo(n) - {id});
    }
  }

  // ---------------------------------------------------------------- the allocator

  class IDAllocator {
    var next: nat
    var inUse: set<nat>
    var wrapped: bool

    function View(): State
      reads this
    {
      State(next, inUse, wrapped)
    }

    constructor ()
      ensures View() == FRESH && Valid(View())
    {
      next, inUse, wrapped := 1, {}, false;
    }

    method Allocate() returns (r: Option<nat>)
      requires Valid(View())
      modifies this
      ensures Allocated(old(View()), View(), r) && Valid(View())
      ensures r.None? <==> AllHeld(old(inUse))
    {
      ghost var s := View();
      if !wrapped {
        var id := next;
        next := (next + 1) % 0x1_0000;
        if next == 0 {
          next, wrapped := 1, true;
        }
        assert Nth(s.next, 0) == id && id !in s.inUse;
        if id !in inUse {
          inUse := inUse + {id};
          AllocatedKeeps(s, View(), Some(id));
          return Some(id);
        }
      }
      r := Scan();
    }

    /** One turn of the cycle. */
    method Scan() returns (r: Option<nat>)
      requires Valid(View()) && wrapped
      modifies this
      ensures Allocated(old(View()), View(), r) && Valid(View())
      ensures r.None? <==> AllHeld(old(inUse))
    {
      ghost var s := View();
      var i := 0;
      while i < MAX_ID
        invariant i <= MAX_ID && next == Nth(s.next, i) && inUse == s.inUse && wrapped
        invariant forall j :: 0 <= j < i ==> Nth(s.next, j) in inUse
      {
        var id := next;
        next := (next + 1) % 0x1_0000;
        if next == 0 {
          next := 1;
        }
        if id !in inUse {
          inUse := inUse + {id};
          assert FirstFree(s, id);
          AllocatedKeeps(s, View(), Some(id));
          return Some(id);
        }
        i := i + 1;
      }
      ScanIsComplete(s.next, inUse);
      return None;
    }

    method Release(id: nat)
      requires Valid(View())
      modifies this
      ensures Step(old(View()), Op.Release(id), View()) && Valid(View())
      ensures inUse == old(inUse) - {id} && next == old(next) && wrapped == old(wrapped)
    {
      if id == 0 {
        return;
      }
      inUse := inUse - {id};
    }

    method Reserve(id: nat) returns (ok: bool)
      requires Valid(View()) && id <= MAX_ID
      modifies this
      ensures View() == Reserved(old(View()), id) && Valid(View())
      ensures ok <==> id != 0 && id !in old(inUse)
      ensures inUse == if ok then old(inUse) + {id} else old(inUse)
    {
      if id == 0 || id in inUse {
        return false;
      }
      inUse := inUse + {id};
      if !wrapped && id >= next {
        next := (id + 1) % 0x1_0000;
        if next == 0 {
          next, wrapped := 1, true;
        }
      }
      ok := true;
    }

    method Count() returns (n: nat)
      requires Valid(View())
      ensures n == |inUse| && (n == MAX_ID <==> AllHeld(inUse))
    {
      n := |inUse|;
      AllHeldIffCount(inUse, MAX_ID);
    }
  }
}
