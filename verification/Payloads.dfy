/** Packet payloads and their word-wise sums.

A result packet carries 64 words of 32 bits.  The switch keeps them as 32 register
pairs, so a payload is its 32 "low" words (val00, val02, ...) and its 32 "high" words
(val01, val03, ...).  Additions wrap at 2^32, as the stateful ALUs do. */
module Payloads {
  const WORD_MOD: nat := 0x1_0000_0000
  const UNITS: nat := 32

  type Word = w: nat | w < WORD_MOD
  type Half = h: seq<Word> | |h| == UNITS witness ZeroHalf()

  function ZeroHalf(): (h: seq<Word>)
    ensures |h| == UNITS
  {
    seq(UNITS, _ => 0)
  }

  datatype Payload = Payload(low: Half, high: Half) {
    /** Word `k` in packet order. */
    function Val(k: nat): Word
      requires k < 2 * UNITS
    {
      if k % 2 == 0 then low[k / 2] else high[k / 2]
    }
  }

  const ZERO: Payload := Payload(ZeroHalf(), ZeroHalf())

  /** Addition of a stateful ALU: the carry out of bit 31 is lost. */
  function AddWord(a: Word, b: Word): Word {
    if a + b < WORD_MOD then a + b else a + b - WORD_MOD
  }

  function AddHalf(a: Half, b: Half): Half {
    seq(UNITS, j requires 0 <= j < UNITS => AddWord(a[j], b[j]))
  }

  function Add(a: Payload, b: Payload): Payload {
    Payload(AddHalf(a.low, b.low), AddHalf(a.high, b.high))
  }

  lemma AddLaws(a: Payload, b: Payload, c: Payload)
    ensures Add(a, b) == Add(b, a)
    ensures Add(Add(a, b), c) == Add(a, Add(b, c))
    ensures Add(a, ZERO) == a == Add(ZERO, a)
  {
    HalfLaws(a.low, b.low, c.low);
    HalfLaws(a.high, b.high, c.high);
  }

  lemma WordAssoc(a: Word, b: Word, c: Word)
    ensures AddWord(AddWord(a, b), c) == AddWord(a, AddWord(b, c))
  {
  }

  lemma HalfLaws(a: Half, b: Half, c: Half)
    ensures AddHalf(a, b) == AddHalf(b, a)
    ensures AddHalf(AddHalf(a, b), c) == AddHalf(a, AddHalf(b, c))
    ensures AddHalf(a, ZeroHalf()) == a == AddHalf(ZeroHalf(), a)
  {
    var l, r := AddHalf(AddHalf(a, b), c), AddHalf(a, AddHalf(b, c));
    forall j | 0 <= j < UNITS
      ensures l[j] == r[j]
    {
      WordAssoc(a[j], b[j], c[j]);
    }
    assert l == r;
    assert AddHalf(a, ZeroHalf()) == a;
    assert AddHalf(ZeroHalf(), a) == a;
  }

  /** The sum of packet `n` over the senders below `k` that are in `who`;
      `rows[i][n]` is what sender `i` puts into its packet `n`. */
  function SumBelow(who: set<nat>, rows: seq<seq<Payload>>, n: nat, k: nat): Payload
    requires k <= |rows|
    requires forall i <- who :: i < |rows| && n < |rows[i]|
  {
    if k == 0 then ZERO
    else
      var rest := SumBelow(who, rows, n, k - 1);
      if k - 1 in who then Add(rest, rows[k - 1][n]) else rest
  }

  function Sum(who: set<nat>, rows: seq<seq<Payload>>, n: nat): Payload
    requires forall i <- who :: i < |rows| && n < |rows[i]|
  {
    SumBelow(who, rows, n, |rows|)
  }

  /** Sums over disjoint groups of senders add up, whatever order the senders are taken in. */
  lemma {:induction false} SumBelowUnion(a: set<nat>, b: set<nat>, rows: seq<seq<Payload>>, n: nat, k: nat)
    requires a !! b
    requires k <= |rows|
    requires forall i <- a + b :: i < |rows| && n < |rows[i]|
    ensures SumBelow(a + b, rows, n, k) == Add(SumBelow(a, rows, n, k), SumBelow(b, rows, n, k))
  {
    if k == 0 {
      AddLaws(ZERO, ZERO, ZERO);
    } else {
      SumBelowUnion(a, b, rows, n, k - 1);
      var x, y, z := SumBelow(a, rows, n, k - 1), SumBelow(b, rows, n, k - 1), rows[k - 1];
      if k - 1 in a {
        AddLaws(x, y, z[n]);
        AddLaws(y, z[n], x);
        AddLaws(x, z[n], y);
      } else if k - 1 in b {
        AddLaws(x, y, z[n]);
      }
    }
  }

  lemma {:induction false} SumBelowSingle(i: nat, rows: seq<seq<Payload>>, n: nat, k: nat)
    requires i < |rows| && n < |rows[i]| && k <= |rows|
    ensures SumBelow({i}, rows, n, k) == if i < k then rows[i][n] else ZERO
  {
    if k > 0 {
      SumBelowSingle(i, rows, n, k - 1);
      AddLaws(rows[i][n], ZERO, ZERO);
    }
  }

  lemma SumInsert(who: set<nat>, i: nat, rows: seq<seq<Payload>>, n: nat)
    requires i !in who && i < |rows| && n < |rows[i]|
    requires forall j <- who :: j < |rows| && n < |rows[j]|
    ensures Sum(who + {i}, rows, n) == Add(Sum(who, rows, n), rows[i][n])
  {
    SumBelowUnion(who, {i}, rows, n, |rows|);
    SumBelowSingle(i, rows, n, |rows|);
  }

  lemma {:induction false} SumBelowEmpty(rows: seq<seq<Payload>>, n: nat, k: nat)
    requires k <= |rows|
    ensures SumBelow({}, rows, n, k) == ZERO
  {
    if k > 0 { SumBelowEmpty(rows, n, k - 1); }
  }

  /** Only the rows of the senders in `who` matter. */
  lemma {:induction false} SumBelowFrame(who: set<nat>, rows: seq<seq<Payload>>, rows': seq<seq<Payload>>, n: nat, k: nat)
    requires k <= |rows| && k <= |rows'|
    requires forall i <- who :: i < |rows| && i < |rows'| && n < |rows[i]| && n < |rows'[i]|
    requires forall i <- who :: i < k ==> rows[i][n] == rows'[i][n]
    ensures SumBelow(who, rows, n, k) == SumBelow(who, rows', n, k)
  {
    if k > 0 { SumBelowFrame(who, rows, rows', n, k - 1); }
  }

  /** A row added behind the others does not matter to them. */
  lemma SumFrame(who: set<nat>, rows: seq<seq<Payload>>, rows': seq<seq<Payload>>, n: nat)
    requires |rows'| == |rows| + 1 && rows'[..|rows|] == rows
    requires forall i <- who :: i < |rows| && n < |rows[i]|
    ensures Sum(who, rows', n) == Sum(who, rows, n)
  {
    SumBelowFrame(who, rows, rows', n, |rows|);
  }

  /** The plain integer sum of word `j` of packet `n`, before any wrap-around. */
  ghost function IntSum(who: set<nat>, rows: seq<seq<Payload>>, n: nat, j: nat, k: nat): nat
    requires k <= |rows| && j < 2 * UNITS
    requires forall i <- who :: i < |rows| && n < |rows[i]|
  {
    if k == 0 then 0
    else IntSum(who, rows, n, j, k - 1) + (if k - 1 in who then rows[k - 1][n].Val(j) else 0)
  }

  lemma AddVal(a: Payload, b: Payload, j: nat)
    requires j < 2 * UNITS
    ensures Add(a, b).Val(j) == AddWord(a.Val(j), b.Val(j))
  {
  }

  lemma ReduceLater(x: nat, y: Word)
    ensures AddWord(x % WORD_MOD, y) == (x + y) % WORD_MOD
  {
  }

  /** Wrapping after every addition is the same as adding all words and reducing mod 2^32 once. */
  lemma {:induction false} SumIsModularSum(who: set<nat>, rows: seq<seq<Payload>>, n: nat, j: nat, k: nat)
    requires k <= |rows| && j < 2 * UNITS
    requires forall i <- who :: i < |rows| && n < |rows[i]|
    ensures SumBelow(who, rows, n, k).Val(j) == IntSum(who, rows, n, j, k) % WORD_MOD
  {
    hide Add;
    if k > 0 {
      SumIsModularSum(who, rows, n, j, k - 1);
      if k - 1 in who {
        hide Payload.Val;
        AddVal(SumBelow(who, rows, n, k - 1), rows[k - 1][n], j);
        ReduceLater(IntSum(who, rows, n, j, k - 1), rows[k - 1][n].Val(j));
      }
    }
  }
}
