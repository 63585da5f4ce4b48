/** The allocation bitmap of one outside address: which port blocks are taken. */
module Bitmap {
  import opened Words

  /** Block k is taken. */
  predicate Taken(words: seq<nat>, k: nat) {
    k / 64 < |words| && BitAt(words[k / 64], k % 64)
  }

  predicate WordsInRange(words: seq<nat>) {
    forall i :: 0 <= i < |words| ==> words[i] < TWO_TO_64
  }

  /** Bits past the last block of the address are never set. */
  ghost predicate NoSlack(words: seq<nat>, total: nat) {
    forall k: nat :: total <= k ==> !Taken(words, k)
  }

  ghost predicate ValidBitmap(words: seq<nat>, total: nat) {
    && |words| == (total + 63) / 64
    && WordsInRange(words)
    && NoSlack(words, total)
  }

  function Take(words: seq<nat>, k: nat): seq<nat> {
    if k / 64 < |words| then words[k / 64 := SetBit(words[k / 64], k % 64)] else words
  }

  function Free(words: seq<nat>, k: nat): seq<nat> {
    if k / 64 < |words| then words[k / 64 := ClearBit(words[k / 64], k % 64)] else words
  }

  lemma TakenAfterTake(words: seq<nat>, k: nat, j: nat)
    requires k / 64 < |words|
    ensures Taken(Take(words, k), j) <==> j == k || Taken(words, j)
  {
    SetClearBitAt(words[k / 64], k % 64, j % 64);
  }

  lemma TakenAfterFree(words: seq<nat>, k: nat, j: nat)
    ensures Taken(Free(words, k), j) <==> j != k && Taken(words, j)
  {
    if k / 64 < |words| {
      SetClearBitAt(words[k / 64], k % 64, j % 64);
    }
  }

  lemma TakeFreeInRange(words: seq<nat>, k: nat)
    requires WordsInRange(words)
    ensures WordsInRange(Take(words, k)) && WordsInRange(Free(words, k))
    ensures |Take(words, k)| == |Free(words, k)| == |words|
  {
    if k / 64 < |words| {
      WordWidth();
      SetClearInRange(words[k / 64], k % 64, WORD_BITS);
    }
  }

  lemma TakeIsValid(words: seq<nat>, total: nat, k: nat)
    requires ValidBitmap(words, total) && k < total
    ensures ValidBitmap(Take(words, k), total)
    ensures forall j: nat :: Taken(Take(words, k), j) <==> j == k || Taken(words, j)
  {
    TakeFreeInRange(words, k);
    forall j: nat
      ensures Taken(Take(words, k), j) <==> j == k || Taken(words, j)
    {
      TakenAfterTake(words, k, j);
    }
  }

  lemma FreeIsValid(words: seq<nat>, total: nat, k: nat)
    requires ValidBitmap(words, total)
    ensures ValidBitmap(Free(words, k), total)
    ensures forall j: nat :: Taken(Free(words, k), j) <==> j != k && Taken(words, j)
  {
    TakeFreeInRange(words, k);
    forall j: nat
      ensures Taken(Free(words, k), j) <==> j != k && Taken(words, j)
    {
      TakenAfterFree(words, k, j);
    }
  }

  /** A bitmap is determined by the blocks it marks. */
  lemma TakenDeterminesBitmap(u: seq<nat>, v: seq<nat>)
    requires |u| == |v| && WordsInRange(u) && WordsInRange(v)
    requires forall k: nat :: Taken(u, k) == Taken(v, k)
    ensures u == v
  {
    WordWidth();
    forall i | 0 <= i < |u|
      ensures u[i] == v[i]
    {
      forall b | 0 <= b < WORD_BITS
        ensures BitAt(u[i], b) == BitAt(v[i], b)
      {
        assert (64 * i + b) / 64 == i && (64 * i + b) % 64 == b;
        assert Taken(u, 64 * i + b) == Taken(v, 64 * i + b);
      }
      BitsDetermineWord(u[i], v[i], WORD_BITS);
    }
  }

  // ---------------------------------------------------------------- counting

  /** Taken blocks below n, counted one by one. */
  function CountTaken(words: seq<nat>, n: nat): nat {
    if n == 0 then 0 else CountTaken(words, n - 1) + (if Taken(words, n - 1) then 1 else 0)
  }

  /** The set bits of the first n words, added up word by word. */
  function OnesSum(words: seq<nat>, n: nat): nat
    requires n <= |words|
  {
    if n == 0 then 0 else OnesSum(words, n - 1) + Ones(words[n - 1], WORD_BITS)
  }

  lemma {:induction false} OnesTop(w: nat, n: nat)
    ensures Ones(w, n + 1) == Ones(w, n) + (if BitAt(w, n) then 1 else 0)
  {
    BitStep(w, n);
    if n > 0 {
      OnesTop(w / 2, n - 1);
    }
  }

  lemma {:induction false} CountInWord(words: seq<nat>, i: nat, b: nat)
    requires i < |words| && b <= 64
    ensures CountTaken(words, 64 * i + b) == CountTaken(words, 64 * i) + Ones(words[i], b)
  {
    if b > 0 {
      CountInWord(words, i, b - 1);
      OnesTop(words[i], b - 1);
      assert (64 * i + b - 1) / 64 == i && (64 * i + b - 1) % 64 == b - 1;
    }
  }

  /** Adding up the words counts the taken blocks. */
  lemma {:induction false} OnesSumCounts(words: seq<nat>, n: nat)
    requires n <= |words|
    ensures OnesSum(words, n) == CountTaken(words, 64 * n)
  {
    if n > 0 {
      OnesSumCounts(words, n - 1);
      CountInWord(words, n - 1, WORD_BITS);
    }
  }

  lemma {:induction false} CountBounds(words: seq<nat>, n: nat)
    ensures CountTaken(words, n) <= n
    ensures CountTaken(words, n) == n <==> forall k :: 0 <= k < n ==> Taken(words, k)
  {
    if n > 0 {
      CountBounds(words, n - 1);
    }
  }

  lemma OnesSumBound(words: seq<nat>, n: nat)
    requires n <= |words|
    ensures OnesSum(words, n) <= 64 * n
  {
    OnesSumCounts(words, n);
    CountBounds(words, 64 * n);
  }

  lemma {:induction false} CountGrows(words: seq<nat>, m: nat, n: nat)
    requires m <= n
    ensures CountTaken(words, m) <= CountTaken(words, n)
    ensures CountTaken(words, m) == CountTaken(words, n) <==> forall k :: m <= k < n ==> !Taken(words, k)
  {
    if m < n {
      CountGrows(words, m, n - 1);
    }
  }

  // ---------------------------------------------------------------- hasFreeBlock, allocateBlock

  /** The test of hasFreeBlock. */
  predicate HasFree(words: seq<nat>, total: nat) {
    OnesSum(words, |words|) < total
  }

  predicate IsLeastFree(words: seq<nat>, total: nat, k: nat) {
    && k < total && !Taken(words, k)
    && forall j :: 0 <= j < k ==> Taken(words, j)
  }

  predicate Full(words: seq<nat>, total: nat) {
    forall k :: 0 <= k < total ==> Taken(words, k)
  }

  /** The least free block at or above `from`, or total when there is none. */
  function LeastFreeFrom(words: seq<nat>, total: nat, from: nat): nat
    decreases total - from
  {
    if from >= total then total
    else if !Taken(words, from) then from
    else LeastFreeFrom(words, total, from + 1)
  }

  function LeastFree(words: seq<nat>, total: nat): (k: nat) {
    LeastFreeFrom(words, total, 0)
  }

  /** k is the least free index and is now taken, or -1 with every index taken and no change. */
  predicate TookLeast(words: seq<nat>, total: nat, k: int, after: seq<nat>) {
    var least := LeastFree(words, total);
    if least < total then k == least && after == Take(words, least) else k == -1 && after == words
  }

  lemma {:induction false} LeastFreeFromMeans(words: seq<nat>, total: nat, from: nat)
    requires forall j :: 0 <= j < from ==> Taken(words, j)
    requires from <= total
    ensures var k := LeastFreeFrom(words, total, from);
            if k < total then IsLeastFree(words, total, k) else k == total && Full(words, total)
    decreases total - from
  {
    if from < total && Taken(words, from) {
      LeastFreeFromMeans(words, total, from + 1);
    }
  }

  /** On a valid bitmap the population-count test is true exactly when a block is free. */
  lemma HasFreeIsExact(words: seq<nat>, total: nat)
    requires ValidBitmap(words, total)
    ensures HasFree(words, total) <==> !Full(words, total)
    ensures HasFree(words, total) <==> LeastFree(words, total) < total
  {
    OnesSumCounts(words, |words|);
    CountGrows(words, total, 64 * |words|);
    CountBounds(words, total);
    LeastFreeFromMeans(words, total, 0);
  }

  /** Without the slack condition the test still never promises a block that is not
      there, but it misses a free one exactly when the bits past the last block make up
      for the free blocks. */
  lemma HasFreeWithSlack(words: seq<nat>, total: nat)
    requires |words| == (total + 63) / 64
    ensures HasFree(words, total) ==> !Full(words, total)
    ensures !HasFree(words, total) && !Full(words, total)
       <==> 0 < total - CountTaken(words, total) <= CountTaken(words, 64 * |words|) - CountTaken(words, total)
  {
    OnesSumCounts(words, |words|);
    CountGrows(words, total, 64 * |words|);
    CountBounds(words, total);
  }
}
