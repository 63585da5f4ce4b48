/** Bitwise operators on unsigned words held as natural numbers, and the population
    count of pool.go. A uint64 of the program is a natural below TWO_TO_64; every
    operation that could leave that range is shown not to, or reduces explicitly. */
module Words {

  const TWO_TO_64: nat := 0x1_0000_0000_0000_0000
  const WORD_BITS: nat := 64
  const ALL_ONES: nat := 0xffff_ffff_ffff_ffff
  const PAIR_MASK: nat := 0x5555555555555555
  const NIBBLE_MASK: nat := 0x3333333333333333
  const BYTE_MASK: nat := 0x0f0f0f0f0f0f0f0f

  function And(x: nat, y: nat): nat {
    if x == 0 then 0 else 2 * And(x / 2, y / 2) + (if x % 2 == 1 && y % 2 == 1 then 1 else 0)
  }

  function Or(x: nat, y: nat): nat
    decreases x + y
  {
    if x == 0 then y else if y == 0 then x
    else 2 * Or(x / 2, y / 2) + (if x % 2 == 0 && y % 2 == 0 then 0 else 1)
  }

  /** Go's &^: the bits of x that are not in y. */
  function AndNot(x: nat, y: nat): nat {
    if x == 0 then 0 else 2 * AndNot(x / 2, y / 2) + (if x % 2 == 1 && y % 2 == 0 then 1 else 0)
  }

  /** 1 << b */
  function Shl1(b: nat): nat {
    if b == 0 then 1 else 2 * Shl1(b - 1)
  }

  predicate BitAt(w: nat, b: nat) {
    And(w, Shl1(b)) != 0
  }

  function SetBit(w: nat, b: nat): nat {
    Or(w, Shl1(b))
  }

  function ClearBit(w: nat, b: nat): nat {
    AndNot(w, Shl1(b))
  }

  // ---------------------------------------------------------------- single bits

  /** Every bit is the low bit of some right shift. */
  lemma BitStep(w: nat, b: nat)
    ensures b == 0 ==> (BitAt(w, b) <==> w % 2 == 1)
    ensures b > 0 ==> (BitAt(w, b) <==> BitAt(w / 2, b - 1))
  {
    AndZero(w / 2);
  }

  lemma {:induction false} AndZero(x: nat)
    ensures And(x, 0) == 0
  {
    if x > 0 {
      AndZero(x / 2);
    }
  }

  lemma {:induction false} AndNotZero(x: nat)
    ensures AndNot(x, 0) == x
  {
    if x > 0 {
      AndNotZero(x / 2);
    }
  }

  lemma OrStep(x: nat, y: nat)
    ensures Or(x, y) / 2 == Or(x / 2, y / 2)
    ensures Or(x, y) % 2 == if x % 2 == 0 && y % 2 == 0 then 0 else 1
  {
  }

  lemma {:induction false} SetStep(w: nat, b: nat)
    ensures SetBit(w, b) % 2 == (if b == 0 then 1 else w % 2)
    ensures SetBit(w, b) / 2 == (if b == 0 then w / 2 else SetBit(w / 2, b - 1))
  {
    OrStep(w, Shl1(b));
  }

  lemma {:induction false} ClearStep(w: nat, b: nat)
    ensures ClearBit(w, b) % 2 == (if b == 0 then 0 else w % 2)
    ensures ClearBit(w, b) / 2 == (if b == 0 then w / 2 else ClearBit(w / 2, b - 1))
  {
    AndNotZero(w / 2);
    if b > 0 && w > 0 {
      assert Shl1(b) / 2 == Shl1(b - 1) && Shl1(b) % 2 == 0;
    }
  }

  /** Setting or clearing bit b changes bit b and no other. */
  lemma {:induction false} SetClearBitAt(w: nat, b: nat, c: nat)
    ensures BitAt(SetBit(w, b), c) <==> b == c || BitAt(w, c)
    ensures BitAt(ClearBit(w, b), c) <==> b != c && BitAt(w, c)
    decreases c
  {
    SetStep(w, b);
    ClearStep(w, b);
    BitStep(w, c);
    BitStep(SetBit(w, b), c);
    BitStep(ClearBit(w, b), c);
    if b > 0 && c > 0 {
      SetClearBitAt(w / 2, b - 1, c - 1);
    }
  }

  lemma {:induction false} SetClearInRange(w: nat, b: nat, n: nat)
    requires w < Shl1(n) && b < n
    ensures SetBit(w, b) < Shl1(n) && ClearBit(w, b) < Shl1(n)
  {
    SetStep(w, b);
    ClearStep(w, b);
    if b > 0 {
      SetClearInRange(w / 2, b - 1, n - 1);
    }
  }

  /** A word is determined by its bits. */
  lemma {:induction false} BitsDetermineWord(u: nat, v: nat, n: nat)
    requires u < Shl1(n) && v < Shl1(n)
    requires forall b :: 0 <= b < n ==> BitAt(u, b) == BitAt(v, b)
    ensures u == v
  {
    if n > 0 {
      BitStep(u, 0);
      BitStep(v, 0);
      assert BitAt(u, 0) == BitAt(v, 0);
      forall b | 0 <= b < n - 1
        ensures BitAt(u / 2, b) == BitAt(v / 2, b)
      {
        BitStep(u, b + 1);
        BitStep(v, b + 1);
        assert BitAt(u, b + 1) == BitAt(v, b + 1);
      }
      BitsDetermineWord(u / 2, v / 2, n - 1);
    }
  }

  /** The skip test of allocateBlock, word == ^uint64(0), means every bit is set. */
  lemma {:induction false} AllOnes(w: nat, n: nat)
    requires w < Shl1(n)
    ensures w == Shl1(n) - 1 <==> forall b :: 0 <= b < n ==> BitAt(w, b)
  {
    if n > 0 {
      BitStep(w, 0);
      AllOnes(w / 2, n - 1);
      forall b | 0 <= b < n - 1
        ensures BitAt(w / 2, b) == BitAt(w, b + 1)
      {
        BitStep(w, b + 1);
      }
      if forall b :: 0 <= b < n ==> BitAt(w, b) {
        assert BitAt(w, 0);
        assert forall b :: 0 <= b < n - 1 ==> BitAt(w / 2, b);
      }
      if w == Shl1(n) - 1 {
        forall b | 0 <= b < n
          ensures BitAt(w, b)
        {
          if b > 0 {
            assert BitAt(w / 2, b - 1);
          }
        }
      }
    }
  }

  lemma ShlByte(n: nat)
    ensures Shl1(n + 8) == 256 * Shl1(n)
  {
    assert Shl1(n + 2) == 4 * Shl1(n);
    assert Shl1(n + 4) == 4 * Shl1(n + 2);
    assert Shl1(n + 6) == 4 * Shl1(n + 4);
    assert Shl1(n + 8) == 4 * Shl1(n + 6);
  }

  lemma WordWidth()
    ensures Shl1(WORD_BITS) == TWO_TO_64
  {
    ShlByte(0);
    ShlByte(8);
    ShlByte(16);
    ShlByte(24);
    ShlByte(32);
    ShlByte(40);
    ShlByte(48);
    ShlByte(56);
  }

  // ---------------------------------------------------------------- population count

  /** The number of set bits among the low n, counted one by one. */
  function Ones(w: nat, n: nat): nat {
    if n == 0 then 0 else w % 2 + Ones(w / 2, n - 1)
  }

  // The digit masks of n pairs, nibbles and bytes: 0x55.., 0x33.., 0x0f..

  function Fives(n: nat): nat {
    if n == 0 then 0 else 4 * Fives(n - 1) + 1
  }

  function Threes(n: nat): nat {
    if n == 0 then 0 else 16 * Threes(n - 1) + 3
  }

  function LowNibbles(n: nat): nat {
    if n == 0 then 0 else 256 * LowNibbles(n - 1) + 15
  }

  // Sums of the low n digits in base 4, 16 and 256, and bounds on every digit.

  function Sum4(x: nat, n: nat): nat {
    if n == 0 then 0 else x % 4 + Sum4(x / 4, n - 1)
  }

  function Sum16(x: nat, n: nat): nat {
    if n == 0 then 0 else x % 16 + Sum16(x / 16, n - 1)
  }

  function Sum256(x: nat, n: nat): nat {
    if n == 0 then 0 else x % 256 + Sum256(x / 256, n - 1)
  }

  predicate AtMost2(x: nat, n: nat) {
    if n == 0 then x == 0 else x % 4 <= 2 && AtMost2(x / 4, n - 1)
  }

  predicate AtMost4(x: nat, n: nat) {
    if n == 0 then x == 0 else x % 16 <= 4 && AtMost4(x / 16, n - 1)
  }

  predicate AtMost8(x: nat, n: nat) {
    if n == 0 then x == 0 else x % 256 <= 8 && AtMost8(x / 256, n - 1)
  }

  // The three masking stages, over n pairs, nibbles or bytes.

  function PairStage(x: nat, n: nat): int {
    x - And(x / 2, Fives(n))
  }

  function NibbleStage(x: nat, n: nat): nat {
    And(x, Threes(n)) + And(x / 4, Threes(n))
  }

  function ByteStage(x: nat, n: nat): nat {
    And(x + x / 16, LowNibbles(n))
  }

  // In the And lemmas the shifts of x are parameters, so that no proof divides twice.

  lemma AndGapPair(x: nat, y: nat, z: nat, m: nat)
    requires y == x / 2 && z == y / 2
    ensures And(x, 4 * m) == 4 * And(z, m)
  {
  }

  lemma AndLowPair(x: nat, y: nat, z: nat, m: nat)
    requires y == x / 2 && z == y / 2
    ensures And(x, 4 * m + 1) == 4 * And(z, m) + x % 2
  {
  }

  lemma AndFullPair(x: nat, y: nat, z: nat, m: nat)
    requires y == x / 2 && z == y / 2
    ensures And(x, 4 * m + 3) == 4 * And(z, m) + 2 * (y % 2) + x % 2
  {
  }

  lemma Shifts(x: nat)
    ensures (x / 2) / 2 == x / 4 && (x / 4) / 4 == x / 16 && (x / 16) / 16 == x / 256
    ensures (x / 2) / 4 == (x / 4) / 2 && (x / 4) / 16 == (x / 16) / 4
    ensures x % 4 == 2 * ((x / 2) % 2) + x % 2 && x % 16 == 4 * ((x / 4) % 4) + x % 4
  {
  }

  lemma AndPairs(x: nat, z: nat, m: nat)
    requires z == x / 4
    ensures And(x, 4 * m) == 4 * And(z, m)
    ensures And(x, 4 * m + 1) == 4 * And(z, m) + x % 2
    ensures And(x, 4 * m + 3) == 4 * And(z, m) + x % 4
  {
    Shifts(x);
    AndGapPair(x, x / 2, z, m);
    AndLowPair(x, x / 2, z, m);
    AndFullPair(x, x / 2, z, m);
  }

  lemma AndGapNibble(x: nat, y: nat, z: nat, m: nat)
    requires y == x / 4 && z == y / 4
    ensures And(x, 16 * m) == 16 * And(z, m)
  {
    AndPairs(x, y, 4 * m);
    AndPairs(y, z, m);
  }

  lemma AndLowNibble(x: nat, y: nat, z: nat, m: nat)
    requires y == x / 4 && z == y / 4
    ensures And(x, 16 * m + 3) == 16 * And(z, m) + x % 4
  {
    AndPairs(x, y, 4 * m);
    AndPairs(y, z, m);
  }

  lemma AndFullNibble(x: nat, y: nat, z: nat, m: nat)
    requires y == x / 4 && z == y / 4
    ensures And(x, 16 * m + 15) == 16 * And(z, m) + 4 * (y % 4) + x % 4
  {
    AndPairs(x, y, 4 * m + 3);
    assert And(x, 16 * m + 15) == 4 * And(y, 4 * m + 3) + x % 4;
    AndPairs(y, z, m);
  }

  lemma AndByte(x: nat, m: nat)
    ensures And(x, 256 * m + 15) == 256 * And(x / 256, m) + x % 16
  {
    Shifts(x);
    Shifts(x / 16);
    AndFullNibble(x, x / 4, x / 16, 16 * m);
    AndGapNibble(x / 16, x / 16 / 4, x / 256, m);
  }

  lemma TwoOnes(x: nat, n: nat)
    requires n > 0
    ensures Ones(x, 2 * n) == x % 2 + (x / 2) % 2 + Ones(x / 4, 2 * (n - 1))
  {
  }

  lemma PairStep(x: nat, n: nat)
    requires n > 0
    ensures PairStage(x, n) == 4 * PairStage(x / 4, n - 1) + x % 2 + (x / 2) % 2
  {
    Shifts(x);
    AndPairs(x / 2, x / 4 / 2, Fives(n - 1));
  }

  lemma PairDigit(y: nat, r: nat, n: nat)
    requires n > 0 && r <= 2 && AtMost2(y, n - 1)
    ensures AtMost2(4 * y + r, n) && Sum4(4 * y + r, n) == r + Sum4(y, n - 1)
  {
  }

  /** After the first stage each pair of bits holds its own count. */
  lemma {:induction false} PairsCount(x: nat, n: nat)
    requires x < Shl1(2 * n)
    ensures PairStage(x, n) >= 0
    ensures AtMost2(PairStage(x, n), n)
    ensures Sum4(PairStage(x, n), n) == Ones(x, 2 * n)
    decreases n
  {
    if n > 0 {
      assert Shl1(2 * n) == 4 * Shl1(2 * (n - 1));
      PairsCount(x / 4, n - 1);
      PairStep(x, n);
      TwoOnes(x, n);
      PairDigit(PairStage(x / 4, n - 1), x % 2 + (x / 2) % 2, n);
    }
  }

  lemma PairDigits(x: nat, y: nat, z: nat, n: nat)
    requires n > 0 && AtMost2(x, 2 * n) && y == x / 4 && z == y / 4
    ensures x % 4 <= 2 && y % 4 <= 2 && AtMost2(z, 2 * (n - 1))
    ensures Sum4(x, 2 * n) == x % 4 + y % 4 + Sum4(z, 2 * (n - 1))
  {
  }

  lemma NibbleStep(x: nat, q: nat, r: nat, n: nat)
    requires n > 0 && AtMost2(x, 2 * n) && q == x / 16 && r == x % 4 + (x / 4) % 4
    ensures r <= 4 && AtMost2(q, 2 * (n - 1))
    ensures NibbleStage(x, n) == 16 * NibbleStage(q, n - 1) + r
    ensures Sum4(x, 2 * n) == r + Sum4(q, 2 * (n - 1))
  {
    Shifts(x);
    PairDigits(x, x / 4, q, n);
    Shifts(x / 4);
    AndLowNibble(x, x / 4, q, Threes(n - 1));
    AndLowNibble(x / 4, q, q / 4, Threes(n - 1));
  }

  lemma NibbleDigit(y: nat, r: nat, n: nat)
    requires n > 0 && r <= 4 && AtMost4(y, n - 1)
    ensures AtMost4(16 * y + r, n) && Sum16(16 * y + r, n) == r + Sum16(y, n - 1)
  {
  }

  ghost predicate NibblesRight(x: nat, y: nat, n: nat) {
    AtMost4(y, n) && Sum16(y, n) == Sum4(x, 2 * n)
  }

  lemma NibbleJoin(x: nat, q: nat, r: nat, y: nat, n: nat)
    requires n > 0 && r <= 4 && NibblesRight(q, y, n - 1) && Sum4(x, 2 * n) == r + Sum4(q, 2 * (n - 1))
    ensures NibblesRight(x, 16 * y + r, n)
  {
    NibbleDigit(y, r, n);
  }

  lemma NoNibbles(x: nat)
    requires AtMost2(x, 0)
    ensures NibblesRight(x, NibbleStage(x, 0), 0)
  {
  }

  lemma NibbleSplit(x: nat, n: nat) returns (q: nat, r: nat)
    requires n > 0 && AtMost2(x, 2 * n)
    ensures r <= 4 && AtMost2(q, 2 * (n - 1))
    ensures NibbleStage(x, n) == 16 * NibbleStage(q, n - 1) + r
    ensures Sum4(x, 2 * n) == r + Sum4(q, 2 * (n - 1))
  {
    q, r := x / 16, x % 4 + (x / 4) % 4;
    NibbleStep(x, q, r, n);
  }

  /** After the second, each nibble holds the sum of its two pairs. */
  lemma {:induction false} NibblesSum(x: nat, n: nat)
    requires AtMost2(x, 2 * n)
    ensures NibblesRight(x, NibbleStage(x, n), n)
    decreases n
  {
    if n == 0 {
      NoNibbles(x);
    } else {
      var q, r := NibbleSplit(x, n);
      NibblesSum(q, n - 1);
      NibbleJoin(x, q, r, NibbleStage(q, n - 1), n);
    }
  }

  lemma NoCarryOf(s: nat, t: nat, u: nat, v: nat, y: nat)
    requires t <= 4 && u <= 4 && v <= 4
    requires y == 256 * (17 * s + t) + 16 * (t + u) + (u + v)
    ensures y % 16 == u + v && y / 256 == 17 * s + t
  {
    assert y == 16 * (16 * (17 * s + t) + (t + u)) + (u + v);
  }

  lemma NoCarry(x: nat, q: nat)
    requires q == x / 256 && x % 16 <= 4 && (x / 16) % 16 <= 4 && q % 16 <= 4
    ensures (x + x / 16) % 16 == x % 16 + (x / 16) % 16
    ensures (x + x / 16) / 256 == q + q / 16
  {
    var u, v := (x / 16) % 16, x % 16;
    assert x / 16 == 16 * q + u && x == 256 * q + 16 * u + v by {
      Shifts(x);
    }
    NoCarryOf(q / 16, q % 16, u, v, x + x / 16);
  }

  lemma NibbleDigits(x: nat, y: nat, z: nat, n: nat)
    requires n > 0 && AtMost4(x, 2 * n) && y == x / 16 && z == y / 16
    ensures x % 16 <= 4 && y % 16 <= 4 && AtMost4(z, 2 * (n - 1))
    ensures Sum16(x, 2 * n) == x % 16 + y % 16 + Sum16(z, 2 * (n - 1))
  {
  }

  lemma ByteStep(x: nat, q: nat, r: nat, n: nat)
    requires n > 0 && AtMost4(x, 2 * n) && q == x / 256 && r == x % 16 + (x / 16) % 16
    ensures r <= 8 && AtMost4(q, 2 * (n - 1))
    ensures ByteStage(x, n) == 256 * ByteStage(q, n - 1) + r
    ensures Sum16(x, 2 * n) == r + Sum16(q, 2 * (n - 1))
  {
    Shifts(x);
    NibbleDigits(x, x / 16, q, n);
    assert q % 16 <= 4;
    NoCarry(x, q);
    AndByte(x + x / 16, LowNibbles(n - 1));
  }

  lemma ByteDigit(y: nat, r: nat, n: nat)
    requires n > 0 && r <= 8 && AtMost8(y, n - 1)
    ensures AtMost8(256 * y + r, n) && Sum256(256 * y + r, n) == r + Sum256(y, n - 1)
  {
  }

  /** After the third, each byte holds the sum of its two nibbles: no nibble carries. */
  lemma {:induction false} BytesSum(x: nat, n: nat)
    requires AtMost4(x, 2 * n)
    ensures AtMost8(ByteStage(x, n), n)
    ensures Sum256(ByteStage(x, n), n) == Sum16(x, 2 * n)
    decreases n
  {
    if n > 0 {
      var q, r := x / 256, x % 16 + (x / 16) % 16;
      ByteStep(x, q, r, n);
      BytesSum(q, n - 1);
      ByteDigit(ByteStage(q, n - 1), r, n);
    }
  }

  /** Multiplying by 0x0101..01 adds up the bytes in the top one. */
  lemma EightBytes(a: nat, b: nat, c: nat, d: nat, e: nat, f: nat, g: nat, h: nat, x: nat)
    requires x == a + 0x100 * b + 0x1_0000 * c + 0x100_0000 * d + 0x1_0000_0000 * e
                  + 0x100_0000_0000 * f + 0x1_0000_0000_0000 * g + 0x100_0000_0000_0000 * h
    ensures x * 0x0101010101010101
         == TWO_TO_64 * ((b + c + d + e + f + g + h) + 0x100 * (c + d + e + f + g + h)
                         + 0x1_0000 * (d + e + f + g + h) + 0x100_0000 * (e + f + g + h)
                         + 0x1_0000_0000 * (f + g + h) + 0x100_0000_0000 * (g + h) + 0x1_0000_0000_0000 * h)
            + 0x100_0000_0000_0000 * (a + b + c + d + e + f + g + h)
            + (a + 0x100 * (a + b) + 0x1_0000 * (a + b + c) + 0x100_0000 * (a + b + c + d)
               + 0x1_0000_0000 * (a + b + c + d + e) + 0x100_0000_0000 * (a + b + c + d + e + f)
               + 0x1_0000_0000_0000 * (a + b + c + d + e + f + g))
  {
  }

  lemma TopOf(y: nat, high: nat, sum: nat, low: nat)
    requires y == TWO_TO_64 * high + 0x100_0000_0000_0000 * sum + low
    requires sum < 256 && low < 0x100_0000_0000_0000
    ensures y % TWO_TO_64 / 0x100_0000_0000_0000 == sum
  {
  }

  lemma TopByteOf(a: nat, b: nat, c: nat, d: nat, e: nat, f: nat, g: nat, h: nat, x: nat)
    requires a <= 8 && b <= 8 && c <= 8 && d <= 8 && e <= 8 && f <= 8 && g <= 8 && h <= 8
    requires x == a + 0x100 * b + 0x1_0000 * c + 0x100_0000 * d + 0x1_0000_0000 * e
                  + 0x100_0000_0000 * f + 0x1_0000_0000_0000 * g + 0x100_0000_0000_0000 * h
    ensures (x * 0x0101010101010101) % TWO_TO_64 / 0x100_0000_0000_0000 == a + b + c + d + e + f + g + h
  {
    EightBytes(a, b, c, d, e, f, g, h, x);
    TopOf(x * 0x0101010101010101,
          (b + c + d + e + f + g + h) + 0x100 * (c + d + e + f + g + h)
          + 0x1_0000 * (d + e + f + g + h) + 0x100_0000 * (e + f + g + h)
          + 0x1_0000_0000 * (f + g + h) + 0x100_0000_0000 * (g + h) + 0x1_0000_0000_0000 * h,
          a + b + c + d + e + f + g + h,
          a + 0x100 * (a + b) + 0x1_0000 * (a + b + c) + 0x100_0000 * (a + b + c + d)
          + 0x1_0000_0000 * (a + b + c + d + e) + 0x100_0000_0000 * (a + b + c + d + e + f)
          + 0x1_0000_0000_0000 * (a + b + c + d + e + f + g));
  }

  lemma TopByte(x: nat, n: nat)
    requires AtMost8(x, n) && n == 8
    ensures (x * 0x0101010101010101) % TWO_TO_64 / 0x100_0000_0000_0000 == Sum256(x, n)
  {
    var x2 := x / 256 / 256;
    var x4 := x2 / 256 / 256;
    var x6 := x4 / 256 / 256;
    TwoBytes(x, n);
    TwoBytes(x2, n - 2);
    TwoBytes(x4, n - 4);
    TwoBytes(x6, n - 6);
    TopByteOf(x % 256, x / 256 % 256, x2 % 256, x2 / 256 % 256,
              x4 % 256, x4 / 256 % 256, x6 % 256, x6 / 256 % 256, x);
  }

  lemma TwoBytes(x: nat, n: nat)
    requires n >= 2 && AtMost8(x, n)
    ensures x == x % 256 + 0x100 * (x / 256 % 256) + 0x1_0000 * (x / 256 / 256)
    ensures x % 256 <= 8 && x / 256 % 256 <= 8 && AtMost8(x / 256 / 256, n - 2)
    ensures Sum256(x, n) == x % 256 + x / 256 % 256 + Sum256(x / 256 / 256, n - 2)
  {
  }

  lemma {:induction false} NibblesBound(x: nat, n: nat)
    requires AtMost4(x, n)
    ensures 15 * x <= 4 * (Shl1(4 * n) - 1)
  {
    if n > 0 {
      NibblesBound(x / 16, n - 1);
      assert Shl1(4 * n) == 16 * Shl1(4 * (n - 1)) by {
        assert Shl1(4 * n - 2) == 4 * Shl1(4 * (n - 1));
      }
    }
  }

  lemma FivesStep(n: nat)
    ensures Fives(n + 4) == 256 * Fives(n) + 0x55
  {
    assert Fives(n + 2) == 16 * Fives(n) + 5;
  }

  lemma StageMasks(n: nat)
    requires n == 8
    ensures Fives(4 * n) == PAIR_MASK
    ensures Threes(2 * n) == NIBBLE_MASK
    ensures LowNibbles(n) == BYTE_MASK
  {
    FivesStep(4 * n - 32);
    FivesStep(4 * n - 28);
    FivesStep(4 * n - 24);
    FivesStep(4 * n - 20);
    FivesStep(4 * n - 16);
    FivesStep(4 * n - 12);
    FivesStep(4 * n - 8);
    FivesStep(4 * n - 4);
    assert Threes(4) == 0x3333 by { assert Threes(2) == 0x33; }
    assert Threes(8) == 0x33333333 by { assert Threes(6) == 0x333333; }
    assert Threes(12) == 0x333333333333 by { assert Threes(10) == 0x3333333333; }
    assert Threes(14) == 0x33333333333333;
    assert LowNibbles(4) == 0x0f0f0f0f by { assert LowNibbles(2) == 0x0f0f; }
    assert LowNibbles(6) == 0x0f0f0f0f0f0f;
  }

  // popcount, line by line; every intermediate value is reduced to 64 bits.

  function PopLine1(x: nat): nat {
    (x - And(x / 2, PAIR_MASK)) % TWO_TO_64
  }

  function PopLine2(x: nat): nat {
    (And(x, NIBBLE_MASK) + And(x / 4, NIBBLE_MASK)) % TWO_TO_64
  }

  function PopLine3(x: nat): nat {
    And((x + x / 16) % TWO_TO_64, BYTE_MASK)
  }

  function PopLine4(x: nat): nat {
    (x * 0x0101010101010101) % TWO_TO_64 / 0x100_0000_0000_0000
  }

  function PopCount(x: nat): nat {
    PopLine4(PopLine3(PopLine2(PopLine1(x))))
  }

  lemma Line1IsStage(x: nat, n: nat)
    requires n == 8 && 0 <= PairStage(x, 4 * n) < TWO_TO_64
    ensures PopLine1(x) == PairStage(x, 4 * n)
  {
    StageMasks(n);
  }

  lemma Line2IsStage(x: nat, n: nat)
    requires n == 8 && NibbleStage(x, 2 * n) < TWO_TO_64
    ensures PopLine2(x) == NibbleStage(x, 2 * n)
  {
    StageMasks(n);
  }

  lemma Line3IsStage(x: nat, n: nat)
    requires n == 8 && x + x / 16 < TWO_TO_64
    ensures PopLine3(x) == ByteStage(x, n)
  {
    StageMasks(n);
    var y := x + x / 16;
    assert y % TWO_TO_64 == y;
    assert PopLine3(x) == And(y, BYTE_MASK);
  }

  lemma NibblesFit(x: nat, n: nat)
    requires AtMost4(x, 2 * n) && n == 8
    ensures x + x / 16 < TWO_TO_64
  {
    WordWidth();
    NibblesBound(x, 2 * n);
    assert 4 * (2 * n) == WORD_BITS;
  }

  lemma PairsFit(x: nat, n: nat)
    requires x < TWO_TO_64 && n == 8
    ensures x < Shl1(2 * (4 * n))
  {
    WordWidth();
    assert 2 * (4 * n) == WORD_BITS;
  }

  lemma Line1Counts(x: nat, n: nat)
    requires x < TWO_TO_64 && n == 8
    ensures AtMost2(PopLine1(x), 4 * n) && Sum4(PopLine1(x), 4 * n) == Ones(x, 8 * n)
  {
    PairsFit(x, n);
    PairsCount(x, 4 * n);
    Line1IsStage(x, n);
  }

  lemma Line2Sums(x: nat, n: nat)
    requires AtMost2(x, 4 * n) && n == 8
    ensures AtMost4(PopLine2(x), 2 * n) && Sum16(PopLine2(x), 2 * n) == Sum4(x, 4 * n)
  {
    NibblesSum(x, 2 * n);
    NibblesFit(NibbleStage(x, 2 * n), n);
    Line2IsStage(x, n);
  }

  lemma Line3Sums(x: nat, n: nat)
    requires AtMost4(x, 2 * n) && n == 8
    ensures AtMost8(PopLine3(x), n) && Sum256(PopLine3(x), n) == Sum16(x, 2 * n)
  {
    NibblesFit(x, n);
    BytesSum(x, n);
    Line3IsStage(x, n);
  }

  /** The bit trick counts the set bits of every 64-bit word. */
  lemma PopCountIsOnes(x: nat)
    requires x < TWO_TO_64
    ensures PopCount(x) == Ones(x, WORD_BITS)
  {
    var n := WORD_BITS / 8;
    Line1Counts(x, n);
    Line2Sums(PopLine1(x), n);
    Line3Sums(PopLine2(PopLine1(x)), n);
    TopByte(PopLine3(PopLine2(PopLine1(x))), n);
  }
}
