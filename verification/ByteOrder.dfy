/** The byte-order conversion of the client library, including what its vector loop does past
the end of the buffer. */
module ByteOrder {
  import opened Payloads

  const LANES: nat := 8

  /** The word with bytes b0 (lowest) to b3. */
  function FromBytes(b0: nat, b1: nat, b2: nat, b3: nat): nat {
    b0 + 0x100 * (b1 + 0x100 * (b2 + 0x100 * b3))
  }

  /** Reverses the four bytes of a word. */
  function Swap(v: Word): Word {
    FromBytes(v / 0x100_0000, v / 0x1_0000 % 0x100, v / 0x100 % 0x100, v % 0x100)
  }

  lemma ByteStep(b: nat, x: nat)
    requires b < 0x100
    ensures (b + 0x100 * x) % 0x100 == b && (b + 0x100 * x) / 0x100 == x
  {
  }

  lemma SwapBytes(b0: nat, b1: nat, b2: nat, b3: nat)
    requires b0 < 0x100 && b1 < 0x100 && b2 < 0x100 && b3 < 0x100
    ensures FromBytes(b0, b1, b2, b3) < WORD_MOD
    ensures Swap(FromBytes(b0, b1, b2, b3)) == FromBytes(b3, b2, b1, b0)
  {
    var v := FromBytes(b0, b1, b2, b3);
    ByteStep(b0, b1 + 0x100 * (b2 + 0x100 * b3));
    ByteStep(b1, b2 + 0x100 * b3);
    ByteStep(b2, b3);
    assert v / 0x1_0000 == v / 0x100 / 0x100;
    assert v / 0x100_0000 == v / 0x100 / 0x100 / 0x100;
  }

  lemma SwapTwice(v: Word)
    ensures Swap(Swap(v)) == v
  {
    var b0, b1, b2, b3 := v % 0x100, v / 0x100 % 0x100, v / 0x1_0000 % 0x100, v / 0x100_0000;
    assert v == FromBytes(b0, b1, b2, b3) by {
      assert v / 0x1_0000 == v / 0x100 / 0x100;
      assert v / 0x100_0000 == v / 0x100 / 0x100 / 0x100;
    }
    SwapBytes(b0, b1, b2, b3);
    SwapBytes(b3, b2, b1, b0);
  }

  predicate OnVector(x: nat) {
    x % LANES == 0
  }

  /** Words from address `a`, in words, to the next 32-byte boundary. */
  function Gap(a: nat): (g: nat)
    ensures g < LANES && (a + g) % LANES == 0
  {
    (LANES - a % LANES) % LANES
  }

  /** Words until the destination is 32-byte aligned; `a` is its address in words. */
  function Head(count: nat, a: nat): (h: nat)
    ensures h <= count && h < LANES
    ensures h < count ==> (a + h) % LANES == 0
  {
    if Gap(a) < count then Gap(a) else count
  }

  lemma HeadStep(count: nat, a: nat, i: nat)
    requires i < count && i <= Head(count, a)
    ensures !OnVector(a + i) <==> i < Head(count, a)
  {
    assert (a + i) % LANES == (a % LANES + i) % LANES;
  }

  /** How many words a conversion of `count` words writes: the vector loop rounds up. */
  function Extent(count: nat, a: nat): (e: nat)
    ensures count <= e < count + LANES
  {
    var h := Head(count, a);
    h + (count - h + LANES - 1) / LANES * LANES
  }

  /** A conversion stays within its count exactly when the vector loop is not reached or ends on a
      32-byte boundary; otherwise it writes on up to that boundary. */
  lemma ExtentExact(count: nat, a: nat)
    ensures Extent(count, a) == count <==> count <= Gap(a) || (a + count) % LANES == 0
    ensures Extent(count, a) == count + (if count <= Gap(a) then 0 else Gap(a + count))
  {
    if count > Gap(a) {
      RoundUp(count - Gap(a));
      GapBehind(a + Gap(a), count - Gap(a));
    }
  }

  lemma RoundUp(n: nat)
    ensures (n + LANES - 1) / LANES * LANES == n + Gap(n)
  {
  }

  lemma GapBehind(a: nat, n: nat)
    requires a % LANES == 0
    ensures Gap(a + n) == Gap(n)
  {
  }

  /** `into` with the e words from d on replaced by the byte-swapped words of `from` starting at s. */
  function Spliced(into: seq<Word>, d: nat, from: seq<Word>, s: nat, e: nat): (r: seq<Word>)
    requires d + e <= |into| && s + e <= |from|
    ensures |r| == |into|
    ensures forall m | d <= m < d + e :: r[m] == Swap(from[s + (m - d)])
    ensures forall m | 0 <= m < |into| && !(d <= m < d + e) :: r[m] == into[m]
  {
    hide Swap;
    into[..d] + seq<Word>(e, k requires 0 <= k < e => Swap(from[s + k])) + into[d + e..]
  }

  /** `convert_endianess_32`.  Addresses are in bytes; pointers not aligned to a word are refused. */
  method Convert(src: array<Word>, s: nat, srcAddr: nat, dst: array<Word>, d: nat, dstAddr: nat, count: nat)
    returns (ok: bool)
    requires src != dst
    requires s + Extent(count, dstAddr / 4) <= src.Length
    requires d + Extent(count, dstAddr / 4) <= dst.Length
    modifies dst
    ensures ok <==> srcAddr % 4 == 0 && dstAddr % 4 == 0
    ensures ok ==> dst[..] == Spliced(old(dst[..]), d, src[..], s, Extent(count, dstAddr / 4))
    ensures !ok ==> dst[..] == old(dst[..])
  {
    hide Swap, Extent, Head, Spliced, OnVector;
    if srcAddr % 4 != 0 || dstAddr % 4 != 0 {
      return false;
    }
    ok := true;
    var a := dstAddr / 4;
    ghost var h, e, was := Head(count, a), Extent(count, a), dst[..];
    var i := 0;

    // Until the destination is 32-byte aligned
    while i < count && !OnVector(a + i)
      invariant i <= h
      invariant dst[..] == Spliced(was, d, src[..], s, i)
    {
      HeadStep(count, a, i);
      SplicedMore(was, d, src[..], s, i);
      dst[d + i] := Swap(src[s + i]);
      i := i + 1;
    }
    assert i == h by { if i < count { HeadStep(count, a, i); } }
    VectorNext(0);

    // Eight words at a time; the last store may go past the end
    while i < count
      invariant h <= i <= e && OnVector(i - h)
      invariant dst[..] == Spliced(was, d, src[..], s, i)
    {
      VectorFits(count, a, i);
      VectorNext(i - h);
      ghost var b := dst[..];
      forall m | d + i <= m < d + i + LANES {
        dst[m] := Swap(src[s + (m - d)]);
      }
      SplicedVector(was, d, src[..], s, i, b, dst[..]);
      i := i + LANES;
    }
    VectorDone(count, a, i);

    // Remaining words
    if i != count {
      i := i - LANES;
      while i < count
        invariant 0 <= i <= count
        invariant dst[..] == Spliced(was, d, src[..], s, e)
      {
        SplicedAgain(was, d, src[..], s, e, i);
        dst[d + i] := Swap(src[s + i]);
        i := i + 1;
      }
    }
  }

  lemma SplicedMore(into: seq<Word>, d: nat, from: seq<Word>, s: nat, i: nat)
    requires d + i < |into| && s + i < |from|
    ensures Spliced(into, d, from, s, i)[d + i := Swap(from[s + i])] == Spliced(into, d, from, s, i + 1)
  {
    hide Swap, Spliced;
  }

  lemma SplicedAgain(into: seq<Word>, d: nat, from: seq<Word>, s: nat, e: nat, i: nat)
    requires i < e && d + e <= |into| && s + e <= |from|
    ensures Spliced(into, d, from, s, e)[d + i := Swap(from[s + i])] == Spliced(into, d, from, s, e)
  {
    hide Swap, Spliced;
    assert Spliced(into, d, from, s, e)[d + i] == Swap(from[s + ((d + i) - d)]);
  }

  lemma SplicedVector(into: seq<Word>, d: nat, from: seq<Word>, s: nat, i: nat, b: seq<Word>, b': seq<Word>)
    requires d + i + LANES <= |into| && s + i + LANES <= |from| && |b'| == |b|
    requires b == Spliced(into, d, from, s, i)
    requires forall m | d + i <= m < d + i + LANES :: b'[m] == Swap(from[s + (m - d)])
    requires forall m | 0 <= m < |b| && !(d + i <= m < d + i + LANES) :: b'[m] == b[m]
    ensures b' == Spliced(into, d, from, s, i + LANES)
  {
    hide Swap, Spliced;
  }

  lemma VectorNext(x: nat)
    ensures OnVector(0) && (OnVector(x) ==> OnVector(x + LANES))
  {
  }

  lemma VectorFits(count: nat, a: nat, i: nat)
    requires Head(count, a) <= i < count && OnVector(i - Head(count, a))
    ensures i + LANES <= Extent(count, a)
  {
  }

  lemma VectorDone(count: nat, a: nat, i: nat)
    requires count <= i <= Extent(count, a) && Head(count, a) <= i && OnVector(i - Head(count, a))
    ensures i == Extent(count, a) && (i != count ==> i >= LANES)
  {
  }
}
