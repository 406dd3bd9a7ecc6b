/** The bit-serial reference implementation: a left-shifting register fed with the lowest bit of
each byte first, complemented at the end, with the bits of every output byte reversed. */
module IcrcReference {
  import opened Icrc

  type Byte = b: nat | b < 256

  /** The low n bits of a byte, lowest first. */
  function ByteBits(b: nat, n: nat): (bits: seq<bool>)
    ensures |bits| == n
    decreases n
  {
    if n == 0 then [] else [b % 2 == 1] + ByteBits(b / 2, n - 1)
  }

  function Pow2(n: nat): (p: nat)
    ensures p > 0
  {
    if n == 0 then 1 else 2 * Pow2(n - 1)
  }

  /** Bit i of a byte, counted from the lowest. */
  predicate Test(b: nat, i: nat) {
    b / Pow2(i) % 2 == 1
  }

  lemma {:induction false} ByteBitsAt(b: nat, n: nat, i: nat)
    requires i < n
    ensures ByteBits(b, n)[i] == Test(b, i)
    decreases n
  {
    if i > 0 {
      ByteBitsAt(b / 2, n - 1, i - 1);
      HalfFirst(b, Pow2(i - 1));
    }
  }

  lemma HalfFirst(b: nat, p: nat)
    requires p > 0
    ensures b / 2 / p == b / (2 * p)
  {
    var q, r := b / (2 * p), b % (2 * p);
    assert b == 2 * (p * q) + r;
    assert b / 2 == p * q + r / 2 && r / 2 < p;
    Quotient(p, q, r / 2);
  }

  lemma Quotient(p: nat, q: nat, r: nat)
    requires r < p
    ensures (p * q + r) / p == q
  {
    var x := (p * q + r) / p;
    assert p * x <= p * q + r < p * (x + 1);
    Between(p, q, x, r);
  }

  lemma Between(p: nat, q: nat, x: nat, r: nat)
    requires r < p && p * x <= p * q + r < p * (x + 1)
    ensures x == q
  {
    var d := x - q;
    assert p * d <= r && r < p * (d + 1);
  }

  /** Different bytes have different bits. */
  lemma {:induction false} ByteBitsTell(b: nat, c: nat, n: nat)
    requires b < Pow2(n) && c < Pow2(n) && ByteBits(b, n) == ByteBits(c, n)
    ensures b == c
    decreases n
  {
    if n > 0 {
      assert ByteBits(b, n)[1..] == ByteBits(b / 2, n - 1) && ByteBits(c, n)[1..] == ByteBits(c / 2, n - 1);
      assert ByteBits(b, n)[0] == ByteBits(c, n)[0];
      ByteBitsTell(b / 2, c / 2, n - 1);
    }
  }

  /** A message of bytes in the order its bits are fed. */
  function BitsOf(m: seq<Byte>): (bits: seq<bool>)
    ensures |bits| == 8 * |m|
  {
    if m == [] then [] else ByteBits(m[0], 8) + BitsOf(m[1..])
  }

  lemma {:induction false} BitsOfConcat(a: seq<Byte>, b: seq<Byte>)
    ensures BitsOf(a + b) == BitsOf(a) + BitsOf(b)
  {
    if a == [] {
      assert a + b == b;
    } else {
      assert (a + b)[1..] == a[1..] + b;
      BitsOfConcat(a[1..], b);
    }
  }

  lemma Lowest8(b: Byte, before: seq<bool>, after: seq<bool>)
    requires after == before + ByteBits(b, 8)
    ensures |after| == |before| + 8 && after[..|before|] == before
    ensures forall i | 0 <= i < 8 :: after[|before| + i] == Test(b, i)
  {
    hide ByteBits, Test;
    forall i | 0 <= i < 8 ensures after[|before| + i] == Test(b, i) { ByteBitsAt(b, 8, i); }
  }

  /** Byte after byte, and each byte from its lowest bit to its highest. */
  lemma {:induction false} BitsOfAt(m: seq<Byte>, k: nat, i: nat)
    requires k < |m| && i < 8
    ensures BitsOf(m)[8 * k + i] == Test(m[k], i)
  {
    hide ByteBits, Test;
    if k == 0 {
      ByteBitsAt(m[0], 8, i);
    } else {
      BitsOfAt(m[1..], k - 1, i);
    }
  }

  lemma {:induction false} BitsOfTell(m: seq<Byte>, n: seq<Byte>)
    requires |m| == |n| && BitsOf(m) == BitsOf(n)
    ensures m == n
  {
    hide ByteBits;
    if m != [] {
      assert BitsOf(m)[..8] == ByteBits(m[0], 8) && BitsOf(n)[..8] == ByteBits(n[0], 8);
      assert BitsOf(m)[8..] == BitsOf(m[1..]) && BitsOf(n)[8..] == BitsOf(n[1..]);
      BytePower();
      ByteBitsTell(m[0], n[0], 8);
      BitsOfTell(m[1..], n[1..]);
    }
  }

  lemma BytePower()
    ensures Pow2(8) == 256
  {
    assert Pow2(4) == 16;
  }

  /** The generator polynomial 0x04C11DB7 with the power i at bit i. */
  function LeftPoly(): Word {
    seq(WIDTH, i requires 0 <= i < WIDTH => i in POWERS)
  }

  function Shl(a: Word): Word {
    [false] + a[..31]
  }

  /** The register after one bit. */
  function LeftStep(a: Word, b: bool): Word {
    if a[31] != b then Xor(Shl(a), LeftPoly()) else Shl(a)
  }

  function LeftRun(a: Word, m: seq<bool>): Word
    decreases |m|
  {
    if m == [] then a else LeftRun(LeftStep(a, m[0]), m[1..])
  }

  /** All 32 bits in the opposite order. */
  function Reverse(x: Word): Word {
    seq(WIDTH, i requires 0 <= i < WIDTH => x[31 - i])
  }

  /** The four bytes of a word in the opposite order. */
  function SwapBytes(x: Word): Word {
    seq(WIDTH, i requires 0 <= i < WIDTH => x[(3 - i / 8) * 8 + i % 8])
  }

  /** The eight bits of every byte in the opposite order. */
  function ReverseBytewise(x: Word): Word {
    seq(WIDTH, i requires 0 <= i < WIDTH => x[i / 8 * 8 + 7 - i % 8])
  }

  lemma SwapReverse(x: Word)
    ensures SwapBytes(Reverse(x)) == ReverseBytewise(x)
  {
  }

  /** One step of the left-shifting register is one step of the right-shifting one, mirrored. */
  lemma StepMirrors(a: Word, b: bool)
    ensures Reverse(LeftStep(a, b)) == Step(Reverse(a), b)
  {
    hide Reverse, Shl, Half, LeftPoly, Poly, Xor;
    ShiftMirrors(a);
    PolyMirrors();
    XorMirrors(Shl(a), LeftPoly());
    LastBit(a);
  }

  lemma ShiftMirrors(a: Word)
    ensures Reverse(Shl(a)) == Half(Reverse(a))
  {
  }

  lemma PolyMirrors()
    ensures Reverse(LeftPoly()) == Poly()
  {
  }

  lemma XorMirrors(x: Word, y: Word)
    ensures Reverse(Xor(x, y)) == Xor(Reverse(x), Reverse(y))
  {
  }

  lemma LastBit(a: Word)
    ensures Reverse(a)[0] == a[31]
  {
  }

  /** The whole run, for every message and every start value. */
  lemma {:induction false} RunMirrors(a: Word, m: seq<bool>)
    ensures Reverse(LeftRun(a, m)) == Run(Reverse(a), m)
    decreases |m|
  {
    hide Reverse, Step, LeftStep;
    if m != [] {
      StepMirrors(a, m[0]);
      RunMirrors(LeftStep(a, m[0]), m[1..]);
    }
  }

  lemma {:induction false} LeftRunMore(a: Word, m: seq<bool>, b: bool)
    ensures LeftRun(a, m + [b]) == LeftStep(LeftRun(a, m), b)
    decreases |m|
  {
    hide LeftStep;
    if m == [] {
      assert LeftRun(LeftStep(a, b), []) == LeftStep(a, b);
      assert (m + [b])[1..] == [];
    } else {
      assert (m + [b])[1..] == m[1..] + [b];
      LeftRunMore(LeftStep(a, m[0]), m[1..], b);
    }
  }

  /** What the reference returns for a message. */
  function Reference(m: seq<bool>): Word {
    ReverseBytewise(Xor(LeftRun(Ones(WIDTH), m), Ones(WIDTH)))
  }

  /** For every message, the reference is the byte swap of the reflected CRC-32. */
  lemma ReferenceIsSwappedHash(m: seq<bool>)
    ensures Reference(m) == SwapBytes(Hash(m))
  {
    hide ReverseBytewise, SwapBytes, LeftRun, Run;
    var f := Ones(WIDTH);
    var a := LeftRun(f, m);
    RunMirrors(f, m);
    assert Reverse(f) == f;
    assert Reverse(Xor(a, f)) == Xor(Reverse(a), f);
    SwapReverse(Xor(a, f));
  }

  lemma SwapSelf(x: Word)
    ensures SwapBytes(SwapBytes(x)) == x
  {
  }

  lemma FourApart(a: seq<Byte>, x: seq<Byte>, y: seq<Byte>, b: seq<Byte>)
    requires |x| == |y| <= 4 && x != y
    ensures Hash(BitsOf(a + x + b)) != Hash(BitsOf(a + y + b))
  {
    hide BitsOf, Hash;
    BitsOfConcat(a + x, b);
    BitsOfConcat(a, x);
    BitsOfConcat(a + y, b);
    BitsOfConcat(a, y);
    if BitsOf(x) == BitsOf(y) {
      BitsOfTell(x, y);
      assert false;
    }
    BurstTells(BitsOf(a), BitsOf(x), BitsOf(y), BitsOf(b));
  }

  lemma ReferenceTells(m: seq<bool>, n: seq<bool>)
    requires Hash(m) != Hash(n)
    ensures Reference(m) != Reference(n)
  {
    hide Reference, Hash, SwapBytes;
    ReferenceIsSwappedHash(m);
    ReferenceIsSwappedHash(n);
    SwapSelf(Hash(m));
    SwapSelf(Hash(n));
  }

  lemma CutAt(m: seq<Byte>, i: nat, j: nat)
    requires i <= j <= |m|
    ensures m == m[..i] + m[i..j] + m[j..]
  {
  }

  /** Two messages of bytes that differ, but only within four bytes in a row, have different values. */
  lemma BytesApart(m: seq<Byte>, n: seq<Byte>, k: nat)
    requires |m| == |n| && m != n
    requires forall i | 0 <= i < |m| && !(k <= i < k + 4) :: m[i] == n[i]
    ensures Reference(BitsOf(m)) != Reference(BitsOf(n))
  {
    hide BitsOf, Reference, Hash;
    var i, j := if k <= |m| then k else |m|, if k + 4 <= |m| then k + 4 else |m|;
    assert m[..i] == n[..i] && m[j..] == n[j..];
    CutAt(m, i, j);
    CutAt(n, i, j);
    FourApart(m[..i], m[i..j], n[i..j], m[j..]);
    ReferenceTells(BitsOf(m), BitsOf(n));
  }

  lemma FeedbackBit(a: Word, b: bool, f: bool)
    requires f == (a[31] != b)
    ensures LeftStep(a, b) == Xor([f] + ([false] + a)[1..32], if f then [false] + LeftPoly()[1..] else Zeros(WIDTH))
  {
    assert ([false] + a)[1..32] == a[..31];
    if f {
      assert LeftPoly()[0];
      var p := [false] + LeftPoly()[1..];
      assert forall i | 1 <= i < WIDTH :: p[i] == LeftPoly()[i];
    }
  }

  /** The object of the reference implementation. */
  class ICRC {
    var acc: Word
    ghost var fed: seq<bool>

    ghost predicate Valid()
      reads this
    {
      acc == LeftRun(Ones(WIDTH), fed)
    }

    constructor ()
      ensures Valid() && fed == []
    {
      acc, fed := Ones(WIDTH), [];
    }

    /** The new lowest bit is set from the feedback; the polynomial is added above it. */
    method UpdateBit(b: bool)
      requires Valid()
      modifies this
      ensures Valid() && fed == old(fed) + [b]
    {
      LeftRunMore(Ones(WIDTH), fed, b);
      hide LeftRun;
      var wide := [false] + acc;
      var f := wide[32] != b;
      FeedbackBit(acc, b, f);
      acc := Xor([f] + wide[1..32], if f then [false] + LeftPoly()[1..] else Zeros(WIDTH));
      fed := fed + [b];
    }

    method UpdateByte(b: Byte)
      requires Valid()
      modifies this
      ensures Valid() && fed == old(fed) + ByteBits(b, 8)
      ensures |fed| == |old(fed)| + 8 && fed[..|old(fed)|] == old(fed)
      ensures forall i | 0 <= i < 8 :: fed[|old(fed)| + i] == Test(b, i)
    {
      hide LeftRun, Test;
      var rest: nat := b;
      for i := 0 to 8
        invariant Valid() && fed + ByteBits(rest, 8 - i) == old(fed) + ByteBits(b, 8)
      {
        ghost var before, bit, after := fed, rest % 2 == 1, ByteBits(rest / 2, 7 - i);
        assert before + ([bit] + after) == (before + [bit]) + after;
        UpdateBit(rest % 2 == 1);
        rest := rest / 2;
      }
      Lowest8(b, old(fed), fed);
    }

    method UpdateBytes(bs: seq<Byte>)
      requires Valid()
      modifies this
      ensures Valid() && fed == old(fed) + BitsOf(bs)
      ensures |fed| == |old(fed)| + 8 * |bs| && fed[..|old(fed)|] == old(fed)
      ensures forall k, i | 0 <= k < |bs| && 0 <= i < 8 :: fed[|old(fed)| + 8 * k + i] == Test(bs[k], i)
    {
      hide ByteBits, LeftRun, Test;
      for i := 0 to |bs|
        invariant Valid() && fed + BitsOf(bs[i..]) == old(fed) + BitsOf(bs)
      {
        assert bs[i..][1..] == bs[i + 1..];
        UpdateByte(bs[i]);
      }
      assert fed == old(fed) + BitsOf(bs);
      forall k, i | 0 <= k < |bs| && 0 <= i < 8
        ensures fed[|old(fed)| + 8 * k + i] == Test(bs[k], i)
      {
        BitsOfAt(bs, k, i);
      }
    }

    /** The value does not disturb the register. */
    method Value() returns (v: Word)
      requires Valid()
      ensures v == SwapBytes(Hash(fed))
    {
      v := ReverseBytewise(Xor(acc, Ones(WIDTH)));
      ReferenceIsSwappedHash(fed);
    }
  }
}
