/** The checksums of result packets and of reflected acknowledgements, against the reference. */
module IcrcPacket {
  import opened Icrc
  import opened IcrcReference
  import opened IcrcSplit
  import opened IcrcConstants

  /** The header bytes that the invariant CRC takes as ones: type of service, time to live and
      checksum of the IP header, the UDP checksum, and the reserved byte of the transport header. */
  const MASKED: set<nat> := {1, 8, 10, 11, 26, 27, 32}

  function Masked(h: seq<Byte>): (m: seq<Byte>)
    ensures |m| == |h|
  {
    seq<Byte>(|h|, i requires 0 <= i < |h| => if i in MASKED then 255 else h[i])
  }

  /** The local routing header of RoCE packets counts as eight bytes of ones. */
  function NoLrh(): (m: seq<Byte>)
    ensures |m| == 8
  {
    [255, 255, 255, 255, 255, 255, 255, 255]
  }

  const RESULT_SUMMAND: bv32 := 0x60d9_5a72
  const ACK_SUMMAND: bv32 := 0x71ac_d589

  /** What the switch puts into a result packet: three hashes of the payload words 0 to 15, 16 to
      35 and 36 to 63 in the ingress, one of the header in the egress, each followed by zero words. */
  function ResultIcrc(h: seq<Byte>, p: seq<Byte>): Word
    requires |h| == 40 && |p| == 256
  {
    Xor(SwapBytes(SplitHash(BitsOf(Masked(h)), BitsOf(p[..64]), BitsOf(p[64..144]), BitsOf(p[144..]))),
        ToWord(RESULT_SUMMAND))
  }

  /** What the switch puts into a reflected acknowledgement. */
  function AckIcrc(h: seq<Byte>): Word
    requires |h| == 44
  {
    SwapBytes(Xor(Hash(BitsOf(Masked(h))), ToWord(ACK_SUMMAND)))
  }

  lemma {:induction false} RunOnes(k: nat)
    requires k <= WIDTH
    ensures Run(Ones(k) + Zeros(WIDTH - k), Ones(k)) == Zeros(WIDTH)
    decreases k
  {
    if k == 0 {
      assert Ones(0) + Zeros(WIDTH) == Zeros(WIDTH);
    } else {
      hide Poly;
      assert Ones(k)[1..] == Ones(k - 1);
      assert Step(Ones(k) + Zeros(WIDTH - k), true) == Ones(k - 1) + Zeros(WIDTH - (k - 1));
      RunOnes(k - 1);
    }
  }

  /** 64 ones into an all-ones register leave what 32 zeros leave. */
  lemma LeadIsZeros()
    ensures Run(Ones(WIDTH), Ones(64)) == ZeroRun(Ones(WIDTH), 32)
  {
    hide Step;
    var f, z := Ones(WIDTH), Zeros(WIDTH);
    RunOnes(WIDTH);
    assert f + Zeros(0) == f;
    assert Ones(64) == f + f;
    RunConcat(f, f, f);
    RunLinear(f, f, z, f);
    assert Xor(f, f) == z && Xor(z, f) == f;
    assert Xor(Run(f, z), z) == Run(f, z);
  }

  lemma FullByte()
    ensures ByteBits(255, 8) == Ones(8)
  {
  }

  lemma {:induction false} AllOnes(m: seq<Byte>)
    requires forall i | 0 <= i < |m| :: m[i] == 255
    ensures BitsOf(m) == Ones(8 * |m|)
  {
    hide ByteBits;
    FullByte();
    if m != [] {
      AllOnes(m[1..]);
      assert Ones(8 * |m|) == Ones(8) + Ones(8 * |m[1..]|);
    }
  }

  lemma SwapConcat(a: seq<bool>, b: seq<bool>, c: seq<bool>, d: seq<bool>)
    requires |a| == |b| == |c| == |d| == 8
    ensures SwapBytes(a + (b + (c + d))) == d + (c + (b + a))
  {
  }

  lemma WordXor(x: bv32, y: bv32)
    ensures Xor(ToWord(x), ToWord(y)) == ToWord(XorBv(x, y))
  {
    BitsXor(x, y, 32);
  }

  lemma OffsetBytes0()
    ensures Bits(0x725A_D960, 8) == [false, false, false, false, false, true, true, false]
  {
  }

  lemma OffsetBytes1()
    ensures Bits(0x0072_5AD9, 8) == [true, false, false, true, true, false, true, true]
  {
  }

  lemma OffsetBytes2()
    ensures Bits(0x0000_725A, 8) == [false, true, false, true, true, false, true, false]
  {
  }

  lemma OffsetBytes3()
    ensures Bits(0x0000_0072, 8) == [false, true, false, false, true, true, true, false]
  {
  }

  lemma OffsetBytes()
    ensures ToWord(0x725A_D960) ==
            [false, false, false, false, false, true, true, false] +
            ([true, false, false, true, true, false, true, true] +
            ([false, true, false, true, true, false, true, false] + [false, true, false, false, true, true, true, false]))
  {
    hide Bits;
    ByteSplit(0x725A_D960);
    OffsetBytes0();
    OffsetBytes1();
    OffsetBytes2();
    OffsetBytes3();
  }

  lemma SummandBytes0()
    ensures Bits(0x60D9_5A72, 8) == [false, true, false, false, true, true, true, false]
  {
  }

  lemma SummandBytes1()
    ensures Bits(0x0060_D95A, 8) == [false, true, false, true, true, false, true, false]
  {
  }

  lemma SummandBytes2()
    ensures Bits(0x0000_60D9, 8) == [true, false, false, true, true, false, true, true]
  {
  }

  lemma SummandBytes3()
    ensures Bits(0x0000_0060, 8) == [false, false, false, false, false, true, true, false]
  {
  }

  lemma SummandBytes()
    ensures ToWord(0x60D9_5A72) ==
            [false, true, false, false, true, true, true, false] +
            ([false, true, false, true, true, false, true, false] +
            ([true, false, false, true, true, false, true, true] + [false, false, false, false, false, true, true, false]))
  {
    hide Bits;
    ByteSplit(0x60D9_5A72);
    SummandBytes0();
    SummandBytes1();
    SummandBytes2();
    SummandBytes3();
  }

  lemma SummandSwapped()
    ensures SwapBytes(ToWord(0x725A_D960)) == ToWord(RESULT_SUMMAND)
  {
    hide Bits, SwapBytes;
    OffsetBytes();
    SummandBytes();
    SwapConcat([false, false, false, false, false, true, true, false], [true, false, false, true, true, false, true, true],
               [false, true, false, true, true, false, true, false], [false, true, false, false, true, true, true, false]);
  }

  lemma ResultOffset()
    ensures Offset(ZeroRun(Ones(WIDTH), 32), 320, 512, 640, 896) == ToWord(0x725A_D960)
  {
    hide Bits, Run;
    UpTo28();
    UpTo48();
    UpTo64();
    UpTo75();
    Start();
    LongerLead(2368);
    WordXor(0xF269_7AA7, 0x7400_F70D);
    WordXor(0x8669_8DAA, 0xE441_5242);
    WordXor(0x6228_DFE8, 0xA546_895A);
    WordXor(0x4ACB_702D, 0xFFFF_FFFF);
    WordXor(0xC76E_56B2, 0xB534_8FD2);
  }

  lemma LongerLead(n: nat)
    ensures ZeroRun(ZeroRun(Ones(WIDTH), 32), n) == ZeroRun(Ones(WIDTH), n + 32)
  {
    hide Run;
    assert Zeros(n + 32) == Zeros(32) + Zeros(n);
    RunConcat(Ones(WIDTH), Zeros(32), Zeros(n));
  }

  /** For every header and every payload of a result packet, the checksum that the switch puts
      together is the one the reference computes over the whole packet. */
  lemma ResultIcrcCorrect(h: seq<Byte>, p: seq<Byte>)
    requires |h| == 40 && |p| == 256
    ensures ResultIcrc(h, p) == Reference(BitsOf(NoLrh() + Masked(h) + p))
  {
    hide Run, BitsOf, SwapBytes, Hash, Offset, SplitHash, Masked, Reference, Bits;
    var b0, b1, b2, b3 := BitsOf(Masked(h)), BitsOf(p[..64]), BitsOf(p[64..144]), BitsOf(p[144..]);
    var lead := BitsOf(NoLrh());
    BitsOfConcat(p[..64], p[64..144]);
    BitsOfConcat(p[..144], p[144..]);
    BitsOfConcat(Masked(h), p);
    BitsOfConcat(NoLrh(), Masked(h) + p);
    assert p[..64] + p[64..144] == p[..144] && p[..144] + p[144..] == p;
    assert NoLrh() + Masked(h) + p == NoLrh() + (Masked(h) + p);
    assert b0 + b1 + b2 + b3 == b0 + ((b1 + b2) + b3);
    AllOnes(NoLrh());
    LeadIsZeros();
    SplitIsWhole(lead, b0, b1, b2, b3);
    ResultOffset();
    SummandSwapped();
    SwapXor(SplitHash(b0, b1, b2, b3), ToWord(0x725A_D960));
    ReferenceIsSwappedHash(BitsOf(NoLrh() + Masked(h) + p));
  }

  lemma SwapXor(x: Word, y: Word)
    ensures SwapBytes(Xor(x, y)) == Xor(SwapBytes(x), SwapBytes(y))
  {
  }

  /** The same for acknowledgements. */
  lemma AckIcrcCorrect(h: seq<Byte>)
    requires |h| == 44
    ensures AckIcrc(h) == Reference(BitsOf(NoLrh() + Masked(h)))
  {
    hide Run, BitsOf, SwapBytes, Hash, Masked, Reference, Bits;
    var m, f, o := BitsOf(Masked(h)), Ones(WIDTH), Zeros(WIDTH);
    AllOnes(NoLrh());
    LeadIsZeros();
    BitsOfConcat(NoLrh(), Masked(h));
    HashAlone(m);
    HashApart(BitsOf(NoLrh()), m);
    LongerLead(352);
    UpTo28();
    WordXor(0x7CDB_99E3, 0x0D77_4C6A);
    AckCancel(Run(o, m), ToWord(0x7CDB_99E3), ToWord(0x0D77_4C6A), f);
    ReferenceIsSwappedHash(BitsOf(NoLrh() + Masked(h)));
  }

  lemma AckCancel(a: Word, x: Word, y: Word, f: Word)
    ensures Xor(Xor(Xor(a, x), f), Xor(x, y)) == Xor(Xor(a, y), f)
  {
  }

  /** What the invariant CRC may not depend on, byte by byte of the headers: type of service (1), time to
      live (8) and checksum (10, 11) of the IP header, checksum of the UDP header (26, 27), and the
      reserved byte of the transport header (32). */
  predicate Varies(i: nat) {
    i == 1 || i == 8 || i == 10 || i == 11 || i == 26 || i == 27 || i == 32
  }

  ghost predicate SameInvariant(h: seq<Byte>, g: seq<Byte>) {
    |h| == |g| && forall i | 0 <= i < |h| && !Varies(i) :: h[i] == g[i]
  }

  /** Masking forgets those bytes and no others. */
  lemma MaskedSame(h: seq<Byte>, g: seq<Byte>)
    requires |h| == |g|
    ensures Masked(h) == Masked(g) <==> SameInvariant(h, g)
  {
    if Masked(h) == Masked(g) {
      forall i | 0 <= i < |h| && !Varies(i)
        ensures h[i] == g[i]
      {
        assert Masked(h)[i] == h[i] && Masked(g)[i] == g[i];
      }
    }
  }

  /** The message that section 7.8.1 protects, octet by octet: eight of ones for the missing routing header,
      the headers with ones where they may vary, and the payload. */
  ghost predicate Protects(m: seq<Byte>, h: seq<Byte>, p: seq<Byte>) {
    && |m| == 8 + |h| + |p|
    && (forall i | 0 <= i < 8 :: m[i] == 255)
    && (forall i | 0 <= i < |h| :: m[8 + i] == if Varies(i) then 255 else h[i])
    && (forall i | 0 <= i < |p| :: m[8 + |h| + i] == p[i])
  }

  lemma ProtectsOne(m: seq<Byte>, h: seq<Byte>, p: seq<Byte>)
    requires Protects(m, h, p)
    ensures m == NoLrh() + Masked(h) + p
  {
    var n := NoLrh() + Masked(h) + p;
    forall i | 0 <= i < |m|
      ensures m[i] == n[i]
    {
      if 8 <= i < 8 + |h| {
        var j := i - 8;
        assert m[8 + j] == if Varies(j) then 255 else h[j];
        assert Varies(j) <==> j in MASKED;
      } else if i >= 8 + |h| {
        var j := i - 8 - |h|;
        assert m[8 + |h| + j] == p[j];
      }
    }
  }

  /** The checksums are the reference's over that message. */
  lemma ResultIcrcProtects(h: seq<Byte>, p: seq<Byte>, m: seq<Byte>)
    requires |h| == 40 && |p| == 256 && Protects(m, h, p)
    ensures ResultIcrc(h, p) == Reference(BitsOf(m))
  {
    hide ResultIcrc, Reference, BitsOf, Protects;
    ProtectsOne(m, h, p);
    ResultIcrcCorrect(h, p);
  }

  lemma AckIcrcProtects(h: seq<Byte>, m: seq<Byte>)
    requires |h| == 44 && Protects(m, h, [])
    ensures AckIcrc(h) == Reference(BitsOf(m))
  {
    hide AckIcrc, Reference, BitsOf, Protects;
    ProtectsOne(m, h, []);
    assert NoLrh() + Masked(h) + [] == NoLrh() + Masked(h);
    AckIcrcCorrect(h);
  }

  /** Result packets on their way: routers that change the masked bytes leave the checksum valid. */
  lemma ResultIcrcInvariant(h: seq<Byte>, g: seq<Byte>, p: seq<Byte>)
    requires |h| == |g| == 40 && |p| == 256 && SameInvariant(h, g)
    ensures ResultIcrc(h, p) == ResultIcrc(g, p)
  {
    hide ResultIcrc, Masked, SameInvariant, Reference;
    ResultIcrcCorrect(h, p);
    ResultIcrcCorrect(g, p);
    MaskedSame(h, g);
  }

  lemma AckIcrcInvariant(h: seq<Byte>, g: seq<Byte>)
    requires |h| == |g| == 44 && SameInvariant(h, g)
    ensures AckIcrc(h) == AckIcrc(g)
  {
    hide AckIcrc, Masked, SameInvariant, Reference;
    AckIcrcCorrect(h);
    AckIcrcCorrect(g);
    MaskedSame(h, g);
  }

  /** Agreement but for four bytes in a row. */
  ghost predicate BurstAt(x: seq<Byte>, y: seq<Byte>, k: nat) {
    |x| == |y| && forall i | 0 <= i < |x| && !(k <= i < k + 4) :: x[i] == y[i]
  }

  lemma MaskedBurst(h: seq<Byte>, g: seq<Byte>, p: seq<Byte>, q: seq<Byte>, k: nat)
    requires |h| == |g| && BurstAt(h + p, g + q, k)
    ensures |p| == |q| && BurstAt(NoLrh() + Masked(h) + p, NoLrh() + Masked(g) + q, k + 8)
  {
    var x, y := NoLrh() + Masked(h) + p, NoLrh() + Masked(g) + q;
    assert |h + p| == |g + q|;
    forall i | 0 <= i < |x| && !(k + 8 <= i < k + 12)
      ensures x[i] == y[i]
    {
      if i >= 8 {
        assert (h + p)[i - 8] == (g + q)[i - 8];
      }
    }
  }

  /** No corruption of up to four bytes in a row, header and payload alike, goes unnoticed unless it is
      confined to bytes that may vary. */
  lemma ResultIcrcTells(h: seq<Byte>, g: seq<Byte>, p: seq<Byte>, q: seq<Byte>, k: nat)
    requires |h| == |g| == 40 && |p| == |q| == 256 && BurstAt(h + p, g + q, k)
    ensures ResultIcrc(h, p) == ResultIcrc(g, q) <==> SameInvariant(h, g) && p == q
  {
    MaskedBurst(h, g, p, q, k);
    hide ResultIcrc, Masked, SameInvariant, Reference, BitsOf, NoLrh;
    ResultIcrcCorrect(h, p);
    ResultIcrcCorrect(g, q);
    MaskedSame(h, g);
    Aligned(NoLrh(), Masked(h), p, Masked(g), q);
    if !(Masked(h) == Masked(g) && p == q) {
      BytesApart(NoLrh() + Masked(h) + p, NoLrh() + Masked(g) + q, k + 8);
    }
  }

  lemma Aligned(a: seq<Byte>, x: seq<Byte>, p: seq<Byte>, y: seq<Byte>, q: seq<Byte>)
    requires |x| == |y| && |p| == |q|
    ensures a + x + p == a + y + q <==> x == y && p == q
  {
    if a + x + p == a + y + q {
      assert x == (a + x + p)[|a|..|a| + |x|] && y == (a + y + q)[|a|..|a| + |y|];
      assert p == (a + x + p)[|a| + |x|..] && q == (a + y + q)[|a| + |y|..];
    }
  }

  /** The same for acknowledgements. */
  lemma AckIcrcTells(h: seq<Byte>, g: seq<Byte>, k: nat)
    requires |h| == |g| == 44 && BurstAt(h, g, k)
    ensures AckIcrc(h) == AckIcrc(g) <==> SameInvariant(h, g)
  {
    assert h + [] == h && g + [] == g;
    MaskedBurst(h, g, [], [], k);
    hide AckIcrc, Masked, SameInvariant, Reference, BitsOf, NoLrh;
    AckIcrcCorrect(h);
    AckIcrcCorrect(g);
    MaskedSame(h, g);
    Aligned(NoLrh(), Masked(h), [], Masked(g), []);
    assert NoLrh() + Masked(h) + [] == NoLrh() + Masked(h) && NoLrh() + Masked(g) + [] == NoLrh() + Masked(g);
    if Masked(h) != Masked(g) {
      BytesApart(NoLrh() + Masked(h), NoLrh() + Masked(g), k + 8);
    }
  }
}
