/** The reflected CRC-32 of the switch's hash units, as a register over GF(2).

Words are their 32 bits, lowest first; messages are the sequences of bits in the order in which
they enter the register. */
module Icrc {
  const WIDTH: nat := 32

  type Word = w: seq<bool> | |w| == WIDTH witness seq(WIDTH, _ => false)

  function Zeros(n: nat): (m: seq<bool>)
    ensures |m| == n
  {
    seq(n, _ => false)
  }

  function Ones(n: nat): (m: seq<bool>)
    ensures |m| == n
  {
    seq(n, _ => true)
  }

  /** Exclusive or, bit by bit. */
  function Xor(a: seq<bool>, b: seq<bool>): (m: seq<bool>)
    requires |a| == |b|
    ensures |m| == |a|
  {
    seq(|a|, i requires 0 <= i < |a| => a[i] != b[i])
  }

  /** The powers of x in the generator polynomial 0x04C11DB7, lowest first. */
  const POWERS: set<nat> := {0, 1, 2, 4, 5, 7, 8, 10, 11, 12, 16, 22, 23, 26}

  /** The generator polynomial for a register that keeps the power i at bit 31 - i. */
  function Poly(): Word {
    seq(WIDTH, i requires 0 <= i < WIDTH => 31 - i in POWERS)
  }

  function Half(r: Word): Word {
    r[1..] + [false]
  }

  function Feed(r: Word, f: bool): Word {
    if f then Xor(r, Poly()) else r
  }

  /** One bit into the right-shifting register. */
  function Step(r: Word, b: bool): Word {
    Feed(Half(r), r[0] != b)
  }

  function Run(r: Word, m: seq<bool>): Word
    decreases |m|
  {
    if m == [] then r else Run(Step(r, m[0]), m[1..])
  }

  /** What a hash unit configured with the reflected CRC-32 polynomial puts out. */
  function Hash(m: seq<bool>): Word {
    Xor(Run(Ones(WIDTH), m), Ones(WIDTH))
  }

  lemma FeedLinear(x: Word, y: Word, f: bool, g: bool)
    ensures Feed(Xor(x, y), f != g) == Xor(Feed(x, f), Feed(y, g))
  {
    hide Poly;
  }

  lemma StepLinear(r: Word, s: Word, b: bool, c: bool)
    ensures Step(Xor(r, s), b != c) == Xor(Step(r, b), Step(s, c))
  {
    hide Feed;
    assert Half(Xor(r, s)) == Xor(Half(r), Half(s));
    FeedLinear(Half(r), Half(s), r[0] != b, s[0] != c);
  }

  lemma {:induction false} RunConcat(r: Word, a: seq<bool>, b: seq<bool>)
    ensures Run(r, a + b) == Run(Run(r, a), b)
    decreases |a|
  {
    hide Step;
    if a == [] {
      assert a + b == b;
    } else {
      assert (a + b)[1..] == a[1..] + b;
      RunConcat(Step(r, a[0]), a[1..], b);
    }
  }

  /** The register is linear over GF(2) in its start value and the message together. */
  lemma {:induction false} RunLinear(r: Word, s: Word, a: seq<bool>, b: seq<bool>)
    requires |a| == |b|
    ensures Run(Xor(r, s), Xor(a, b)) == Xor(Run(r, a), Run(s, b))
    decreases |a|
  {
    hide Step;
    if a != [] {
      StepLinear(r, s, a[0], b[0]);
      assert Xor(a, b)[1..] == Xor(a[1..], b[1..]);
      RunLinear(Step(r, a[0]), Step(s, b[0]), a[1..], b[1..]);
    }
  }

  /** A message from any start value is the message from zero, and the start value alone. */
  lemma StartApart(r: Word, m: seq<bool>)
    ensures Run(r, m) == Xor(Run(Zeros(WIDTH), m), Run(r, Zeros(|m|)))
  {
    hide Run;
    assert Xor(m, Zeros(|m|)) == m;
    assert Xor(Zeros(WIDTH), r) == r;
    RunLinear(Zeros(WIDTH), r, m, Zeros(|m|));
  }

  /** A concatenation splits into its parts, each padded with zeros to its distance from the end. */
  lemma PartsApart(a: seq<bool>, b: seq<bool>)
    ensures Run(Zeros(WIDTH), a + b) == Xor(Run(Zeros(WIDTH), a + Zeros(|b|)), Run(Zeros(WIDTH), b))
  {
    hide Run;
    var z := Zeros(WIDTH);
    RunConcat(z, a, b);
    RunConcat(z, a, Zeros(|b|));
    StartApart(Run(z, a), b);
    assert Xor(Run(z, b), Run(Run(z, a), Zeros(|b|))) == Xor(Run(Run(z, a), Zeros(|b|)), Run(z, b));
  }

  lemma TopBit(r: Word)
    ensures Step(r, false)[31] == r[0]
  {
  }

  /** A zero bit leads to the zero register from the zero register only: the polynomial has a constant term. */
  lemma StepFromZero(r: Word)
    requires Step(r, false) == Zeros(WIDTH)
    ensures r == Zeros(WIDTH)
  {
    TopBit(r);
    forall i | 0 <= i < WIDTH
      ensures !r[i]
    {
      if i > 0 { assert Half(r)[i - 1] == Zeros(WIDTH)[i - 1]; }
    }
  }

  lemma {:induction false} RunFromZero(r: Word, n: nat)
    requires Run(r, Zeros(n)) == Zeros(WIDTH)
    ensures r == Zeros(WIDTH)
    decreases n
  {
    hide Step, Poly;
    if n > 0 {
      assert Zeros(n)[1..] == Zeros(n - 1);
      RunFromZero(Step(r, false), n - 1);
      StepFromZero(r);
    }
  }

  /** Up to 32 bits may as well be in the register from the start. */
  lemma {:induction false} Preload(r: Word, m: seq<bool>)
    requires |m| <= WIDTH
    ensures Run(r, m) == Run(Xor(r, m + Zeros(WIDTH - |m|)), Zeros(|m|))
    decreases |m|
  {
    hide Step, Poly;
    var w := m + Zeros(WIDTH - |m|);
    if m == [] {
      assert Xor(r, w) == r;
    } else {
      var w' := m[1..] + Zeros(WIDTH - |m[1..]|);
      Preload(Step(r, m[0]), m[1..]);
      StepLinear(r, w, m[0], m[0]);
      assert Step(w, m[0]) == w' by { OwnBit(w); assert Half(w) == w'; }
      assert Zeros(|m|)[1..] == Zeros(|m[1..]|);
      assert Zeros(|m|)[0] == false;
    }
  }

  lemma OwnBit(w: Word)
    ensures Step(w, w[0]) == Half(w)
  {
  }

  /** Two messages that differ, but only within 32 bits in a row, have different hashes. */
  lemma BurstTells(a: seq<bool>, x: seq<bool>, y: seq<bool>, b: seq<bool>)
    requires |x| == |y| <= WIDTH && x != y
    ensures Hash(a + x + b) != Hash(a + y + b)
  {
    hide Run;
    var f, z := Ones(WIDTH), Zeros(WIDTH);
    var d := Xor(x, y);
    RunConcat(f, a + x, b);
    RunConcat(f, a, x);
    RunConcat(f, a + y, b);
    RunConcat(f, a, y);
    var r := Run(f, a);
    RunLinear(r, r, x, y);
    RunLinear(Run(r, x), Run(r, y), b, b);
    assert Xor(r, r) == z && Xor(b, b) == Zeros(|b|);
    if Hash(a + x + b) == Hash(a + y + b) {
      Uncomplement(Run(f, a + x + b), Run(f, a + y + b));
      SameXor(Run(f, a + x + b));
      RunFromZero(Run(z, d), |b|);
      Preload(z, d);
      RunFromZero(Xor(z, d + Zeros(WIDTH - |d|)), |d|);
      forall i | 0 <= i < |x|
        ensures x[i] == y[i]
      {
        assert Xor(z, d + Zeros(WIDTH - |d|))[i] == d[i];
      }
      assert false;
    }
  }

  lemma Uncomplement(r: Word, s: Word)
    requires Xor(r, Ones(WIDTH)) == Xor(s, Ones(WIDTH))
    ensures r == s
  {
    forall i | 0 <= i < WIDTH
      ensures r[i] == s[i]
    {
      assert Xor(r, Ones(WIDTH))[i] == Xor(s, Ones(WIDTH))[i];
    }
  }

  lemma SameXor(r: Word)
    ensures Xor(r, r) == Zeros(WIDTH)
  {
  }
}
