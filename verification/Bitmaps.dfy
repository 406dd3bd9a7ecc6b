/** 64-bit worker bitmaps, kept as two 32-bit words.

A word is a number below 2^32; bits are taken from it by halving. */
module Bitmaps {
  const WORD_BITS: nat := 32

  function Pow2(k: nat): (p: nat)
    ensures p > 0
  {
    if k == 0 then 1 else 2 * Pow2(k - 1)
  }

  lemma Pow2Values()
    ensures Pow2(28) == 0x1000_0000 && Pow2(29) == 0x2000_0000 && Pow2(31) == 0x8000_0000 && Pow2(32) == 0x1_0000_0000
  {
    assert Pow2(8) == 0x100;
    assert Pow2(16) == 0x1_0000;
    assert Pow2(24) == 0x100_0000;
  }

  lemma {:induction false} Pow2Mono(j: nat, k: nat)
    requires j < k
    ensures Pow2(j) < Pow2(k)
  {
    if j < k - 1 { Pow2Mono(j, k - 1); }
  }

  type Bits32 = w: nat | w < 0x1_0000_0000

  predicate Test(w: nat, k: nat) {
    if k == 0 then w % 2 == 1 else Test(w / 2, k - 1)
  }

  /** Bitwise or. */
  function OrWord(a: nat, b: nat): nat {
    if a == 0 && b == 0 then 0
    else 2 * OrWord(a / 2, b / 2) + (if a % 2 == 1 || b % 2 == 1 then 1 else 0)
  }

  lemma OrHalf(a: nat, b: nat)
    ensures OrWord(a, b) / 2 == OrWord(a / 2, b / 2)
    ensures OrWord(a, b) % 2 == 1 <==> a % 2 == 1 || b % 2 == 1
  {
  }

  lemma {:induction false} TestOr(a: nat, b: nat, k: nat)
    ensures Test(OrWord(a, b), k) <==> Test(a, k) || Test(b, k)
  {
    hide OrWord;
    OrHalf(a, b);
    if k > 0 { TestOr(a / 2, b / 2, k - 1); }
  }

  lemma {:induction false} OrBound(a: nat, b: nat, n: nat)
    requires a < Pow2(n) && b < Pow2(n)
    ensures OrWord(a, b) < Pow2(n)
  {
    if n > 0 { OrBound(a / 2, b / 2, n - 1); }
  }

  function Or32(a: Bits32, b: Bits32): Bits32 {
    Pow2Values();
    OrBound(a, b, 32);
    OrWord(a, b)
  }

  /** Words are determined by their bits. */
  lemma {:induction false} SameBits(a: nat, b: nat, n: nat)
    requires a < Pow2(n) && b < Pow2(n)
    requires forall k: nat | k < n :: Test(a, k) == Test(b, k)
    ensures a == b
  {
    if n > 0 {
      assert Test(a, 0) == Test(b, 0);
      forall k: nat | k < n - 1
        ensures Test(a / 2, k) == Test(b / 2, k)
      {
        assert Test(a, k + 1) == Test(b, k + 1);
      }
      SameBits(a / 2, b / 2, n - 1);
    }
  }

  lemma {:induction false} TestPow2(j: nat, k: nat)
    ensures Test(Pow2(j), k) <==> j == k
  {
    if j > 0 && k > 0 {
      TestPow2(j - 1, k - 1);
    } else if k > 0 {
      TestZero(k - 1);
    }
  }

  lemma {:induction false} TestZero(k: nat)
    ensures !Test(0, k)
  {
    if k > 0 { TestZero(k - 1); }
  }

  /** The lowest n bits. */
  function Ones(n: nat): nat { Pow2(n) - 1 }

  lemma {:induction false} TestOnes(n: nat, k: nat)
    ensures Test(Ones(n), k) <==> k < n
  {
    if n == 0 {
      TestZero(k);
    } else if k > 0 {
      assert Ones(n) / 2 == Ones(n - 1);
      TestOnes(n - 1, k - 1);
    }
  }

  lemma {:induction false} OrOnes(n: nat)
    ensures OrWord(Ones(n), Pow2(n)) == Ones(n + 1)
  {
    if n > 0 {
      OrOnes(n - 1);
      assert Ones(n) / 2 == Ones(n - 1);
    } else {
      assert OrWord(0, 1) == 2 * OrWord(0, 0) + 1;
    }
  }

  lemma {:induction false} OrZero(a: nat)
    ensures OrWord(a, 0) == a
  {
    if a > 0 { OrZero(a / 2); }
  }

  datatype Bitmap = Bitmap(low: Bits32, high: Bits32)

  const EMPTY_MAP: Bitmap := Bitmap(0, 0)

  predicate In(k: nat, b: Bitmap) {
    if k < WORD_BITS then Test(b.low, k) else Test(b.high, k - WORD_BITS)
  }

  /** The bit positions set in the pair. */
  function Positions(b: Bitmap): set<nat> {
    set k: nat | k < 2 * WORD_BITS && In(k, b)
  }

  function Or(a: Bitmap, b: Bitmap): Bitmap {
    Bitmap(Or32(a.low, b.low), Or32(a.high, b.high))
  }

  lemma OrPositions(a: Bitmap, b: Bitmap)
    ensures Positions(Or(a, b)) == Positions(a) + Positions(b)
  {
    forall k: nat | k < 2 * WORD_BITS
      ensures In(k, Or(a, b)) <==> In(k, a) || In(k, b)
    {
      if k < WORD_BITS { TestOr(a.low, b.low, k); } else { TestOr(a.high, b.high, k - WORD_BITS); }
    }
  }

  /** Comparing the two words is comparing the sets of positions. */
  lemma EqualPositions(a: Bitmap, b: Bitmap)
    ensures a == b <==> Positions(a) == Positions(b)
  {
    if Positions(a) == Positions(b) {
      Pow2Values();
      forall k: nat | k < WORD_BITS
        ensures Test(a.low, k) == Test(b.low, k) && Test(a.high, k) == Test(b.high, k)
      {
        assert k in Positions(a) <==> In(k, a);
        assert k in Positions(b) <==> In(k, b);
        assert k + WORD_BITS in Positions(a) <==> In(k + WORD_BITS, a);
        assert k + WORD_BITS in Positions(b) <==> In(k + WORD_BITS, b);
      }
      SameBits(a.low, b.low, WORD_BITS);
      SameBits(a.high, b.high, WORD_BITS);
    }
  }

  function Bit(k: nat): (w: Bits32) {
    if k < WORD_BITS then
      Pow2Values();
      if k < 31 then Pow2Mono(k, 31); Pow2(k) else Pow2(k)
    else 0
  }

  /** Position k alone. */
  function Mask(k: nat): Bitmap {
    Bitmap(Bit(k), if k < WORD_BITS then 0 else Bit(k - WORD_BITS))
  }

  function OnesWord(n: nat): (w: Bits32) {
    Pow2Values();
    if n < 32 then Pow2Mono(n, 32); Ones(n) else Ones(32)
  }

  /** The first n positions. */
  function FirstN(n: nat): Bitmap {
    Bitmap(OnesWord(n), if n < WORD_BITS then 0 else OnesWord(n - WORD_BITS))
  }

  /** The left shift of a 32-bit word drops the top bit. */
  function Shl(w: Bits32): Bits32 {
    2 * w % 0x1_0000_0000
  }

  /** The driver's way from one worker's bit to the next, carrying from the low to the high word. */
  function Shift(b: Bitmap): Bitmap {
    Bitmap(Shl(b.low), if b.low == 0x8000_0000 then 1 else Shl(b.high))
  }

  lemma ShlBit(k: nat)
    ensures Shl(Bit(k)) == Bit(k + 1)
    ensures Bit(k) == 0x8000_0000 <==> k == 31
  {
    Pow2Values();
    if k < 31 { Pow2Mono(k, 31); }
  }

  lemma ShiftMask(k: nat)
    ensures k < 64 ==> Shift(Mask(k)) == Mask(k + 1)
  {
    ShlBit(k);
    if k >= WORD_BITS { ShlBit(k - WORD_BITS); }
  }

  lemma OrMask(n: nat)
    requires n < 64
    ensures Or(FirstN(n), Mask(n)) == FirstN(n + 1)
  {
    hide OrWord;
    if n < WORD_BITS {
      OrOnes(n);
      OrZero(0);
    } else {
      OrOnes(n - WORD_BITS);
      OrZero(OnesWord(n));
    }
  }

  lemma MaskPositions(k: nat)
    requires k < 64
    ensures Positions(Mask(k)) == {k}
  {
    forall j: nat | j < 64
      ensures In(j, Mask(k)) <==> j == k
    {
      if j < WORD_BITS {
        if k < WORD_BITS { TestPow2(k, j); } else { TestZero(j); }
      } else if k < WORD_BITS {
        TestZero(j - WORD_BITS);
      } else {
        TestPow2(k - WORD_BITS, j - WORD_BITS);
      }
    }
  }

  lemma FirstNPositions(n: nat)
    requires n <= 64
    ensures forall k: nat :: k in Positions(FirstN(n)) <==> k < n
  {
    forall k: nat | k < 64
      ensures In(k, FirstN(n)) <==> k < n
    {
      if k < WORD_BITS {
        TestOnes(if n < 32 then n else 32, k);
      } else if n >= WORD_BITS {
        TestOnes(n - WORD_BITS, k - WORD_BITS);
      } else {
        TestZero(k - WORD_BITS);
      }
    }
  }

  /** The driver's numeric limits on the high word are limits on the number of workers. */
  lemma Limits(n: nat)
    requires n <= 64
    ensures FirstN(n).high >= 0xffff_ffff <==> n >= 64
    ensures FirstN(n).high >= 0x1fff_ffff <==> n >= 61
    ensures FirstN(n).low == 0 <==> n == 0
  {
    Pow2Values();
    if n > 0 { Pow2Mono(0, n); }
    if n >= WORD_BITS {
      var h := n - WORD_BITS;
      if h < 29 { Pow2Mono(h, 29); } else if h > 29 { Pow2Mono(29, h); }
      if h < 32 { Pow2Mono(h, 32); }
    }
  }
}
