/** What zero words do to an all-ones register, computed on machine words. */
module IcrcConstants {
  import opened Icrc
  import opened IcrcSplit

  predicate Low(x: bv32) {
    x & 1 == 1
  }

  function Shr(x: bv32): bv32 {
    x >> 1
  }

  function XorBv(x: bv32, y: bv32): bv32 {
    x ^ y
  }

  /** The low n bits of a machine word. */
  function Bits(x: bv32, n: nat): (m: seq<bool>)
    ensures |m| == n
    decreases n
  {
    if n == 0 then [] else [Low(x)] + Bits(Shr(x), n - 1)
  }

  function ToWord(x: bv32): Word {
    Bits(x, 32)
  }

  /** One zero bit into the register. */
  function ZeroBit(x: bv32): bv32 {
    (x >> 1) ^ (0xEDB8_8320 & (0 - (x & 1)))
  }

  function ZeroByte(x: bv32): bv32 {
    ZeroBit(ZeroBit(ZeroBit(ZeroBit(ZeroBit(ZeroBit(ZeroBit(ZeroBit(x))))))))
  }

  /** The register after k zero words. */
  function ZeroWords(x: bv32, k: nat): bv32
    decreases k
  {
    if k == 0 then x else ZeroWords(ZeroByte(ZeroByte(ZeroByte(ZeroByte(x)))), k - 1)
  }

  predicate Fits(x: bv32, n: nat)
    decreases n
  {
    if n == 0 then x == 0 else Fits(Shr(x), n - 1)
  }

  predicate Within(x: bv32, m: bv32) {
    x & m == x
  }

  lemma WithinShr(x: bv32, m: bv32)
    requires Within(x, m)
    ensures Within(Shr(x), Shr(m))
  {
  }

  lemma WithinZero(x: bv32)
    requires Within(x, 0)
    ensures x == 0
  {
  }

  lemma {:induction false} FitsWithin(x: bv32, m: bv32, n: nat)
    requires Within(x, m) && Fits(m, n)
    ensures Fits(x, n)
    decreases n
  {
    hide Within, Shr;
    if n == 0 {
      WithinZero(x);
    } else {
      WithinShr(x, m);
      FitsWithin(Shr(x), Shr(m), n - 1);
    }
  }

  lemma AllFit(x: bv32)
    ensures Fits(Shr(x), 31)
  {
    assert Fits(0x7f, 7);
    assert Fits(0x7fff, 15);
    assert Fits(0x7f_ffff, 23);
    assert Fits(0x7fff_ffff, 31);
    assert Within(Shr(x), 0x7fff_ffff);
    FitsWithin(Shr(x), 0x7fff_ffff, 31);
  }

  lemma {:induction false} TopClear(x: bv32, n: nat)
    requires Fits(x, n)
    ensures Bits(x, n + 1) == Bits(x, n) + [false]
    decreases n
  {
    if n == 0 {
      assert !Low(x);
      assert Bits(x, 1) == [Low(x)] + Bits(Shr(x), 0);
    } else {
      hide Low, Shr;
      TopClear(Shr(x), n - 1);
    }
  }

  lemma LowXor(x: bv32, y: bv32)
    ensures Low(XorBv(x, y)) == (Low(x) != Low(y))
  {
  }

  lemma ShrXor(x: bv32, y: bv32)
    ensures Shr(XorBv(x, y)) == XorBv(Shr(x), Shr(y))
  {
  }

  lemma {:induction false} BitsXor(x: bv32, y: bv32, n: nat)
    ensures Bits(XorBv(x, y), n) == Xor(Bits(x, n), Bits(y, n))
    decreases n
  {
    hide Low, Shr, XorBv;
    if n > 0 {
      LowXor(x, y);
      ShrXor(x, y);
      BitsXor(Shr(x), Shr(y), n - 1);
    }
  }

  function Shr8(x: bv32): bv32 {
    x >> 8
  }

  lemma {:induction false} BitsSplit(x: bv32, y: bv32, k: nat, n: nat)
    requires y == ShrBy(x, k)
    ensures Bits(x, k + n) == Bits(x, k) + Bits(y, n)
    decreases k
  {
    hide Shr, Low;
    if k > 0 { BitsSplit(Shr(x), y, k - 1, n); }
  }

  function ShrBy(x: bv32, k: nat): bv32
    decreases k
  {
    if k == 0 then x else ShrBy(Shr(x), k - 1)
  }

  lemma EightShifts(x: bv32)
    ensures ShrBy(x, 8) == Shr8(x)
  {
    assert Shr(Shr(Shr(Shr(Shr(Shr(Shr(Shr(x)))))))) == Shr8(x);
    hide Shr, Shr8;
  }

  /** A machine word, byte by byte. */
  lemma ByteSplit(x: bv32)
    ensures ToWord(x) == Bits(x, 8) + (Bits(Shr8(x), 8) + (Bits(Shr8(Shr8(x)), 8) + Bits(Shr8(Shr8(Shr8(x))), 8)))
  {
    hide Bits, Shr8, ShrBy;
    var y := Shr8(x);
    var z := Shr8(y);
    EightShifts(x);
    EightShifts(y);
    EightShifts(z);
    BitsSplit(x, y, 8, 24);
    BitsSplit(y, z, 8, 16);
    BitsSplit(z, Shr8(z), 8, 8);
  }

  lemma PolyBytes0()
    ensures Bits(0xEDB8_8320, 8) == [false, false, false, false, false, true, false, false]
  {
  }

  lemma PolyBytes1()
    ensures Bits(0x00ED_B883, 8) == [true, true, false, false, false, false, false, true]
  {
  }

  lemma PolyBytes2()
    ensures Bits(0x0000_EDB8, 8) == [false, false, false, true, true, true, false, true]
  {
  }

  lemma PolyBytes3()
    ensures Bits(0x0000_00ED, 8) == [true, false, true, true, false, true, true, true]
  {
  }

  lemma PolyBytes()
    ensures ToWord(0xEDB8_8320) ==
            [false, false, false, false, false, true, false, false] +
            ([true, true, false, false, false, false, false, true] +
            ([false, false, false, true, true, true, false, true] + [true, false, true, true, false, true, true, true]))
  {
    hide Bits;
    ByteSplit(0xEDB8_8320);
    PolyBytes0();
    PolyBytes1();
    PolyBytes2();
    PolyBytes3();
  }

  lemma PolyBits()
    ensures ToWord(0xEDB8_8320) == Poly()
  {
    hide Bits;
    PolyBytes();
  }

  lemma ZeroBitCases(x: bv32)
    ensures ZeroBit(x) == if Low(x) then XorBv(Shr(x), 0xEDB8_8320) else Shr(x)
  {
    if Low(x) {
      assert 0 - (x & 1) == 0xffff_ffff;
    } else {
      assert x & 1 == 0;
    }
  }

  /** The machine word follows the register. */
  lemma ZeroBitIsStep(x: bv32)
    ensures Step(ToWord(x), false) == ToWord(ZeroBit(x))
  {
    ZeroBitCases(x);
    AllFit(x);
    hide Low, Shr, XorBv, ZeroBit, Poly;
    TopClear(Shr(x), 31);
    assert ToWord(x)[0] == Low(x);
    assert Half(ToWord(x)) == ToWord(Shr(x));
    PolyBits();
    BitsXor(Shr(x), 0xEDB8_8320, 32);
  }

  lemma ZeroRunStep(x: bv32, n: nat)
    requires n > 0
    ensures ZeroRun(ToWord(x), n) == ZeroRun(ToWord(ZeroBit(x)), n - 1)
  {
    hide Step, ZeroBit, Bits;
    ZeroBitIsStep(x);
    assert Zeros(n)[1..] == Zeros(n - 1);
  }

  lemma ZeroByteIsRun(x: bv32, n: nat)
    ensures ZeroRun(ToWord(x), n + 8) == ZeroRun(ToWord(ZeroByte(x)), n)
  {
    hide ZeroBit, Run, Bits;
    var y := x;
    ZeroRunStep(y, n + 8);
    y := ZeroBit(y);
    ZeroRunStep(y, n + 7);
    y := ZeroBit(y);
    ZeroRunStep(y, n + 6);
    y := ZeroBit(y);
    ZeroRunStep(y, n + 5);
    y := ZeroBit(y);
    ZeroRunStep(y, n + 4);
    y := ZeroBit(y);
    ZeroRunStep(y, n + 3);
    y := ZeroBit(y);
    ZeroRunStep(y, n + 2);
    y := ZeroBit(y);
    ZeroRunStep(y, n + 1);
  }

  lemma {:induction false} ZeroWordsIsRun(x: bv32, k: nat, n: nat)
    ensures ZeroRun(ToWord(x), n + 32 * k) == ZeroRun(ToWord(ZeroWords(x, k)), n)
    decreases k
  {
    hide ZeroByte, Run, Bits, ZeroRun;
    if k > 0 {
      var m := n + 32 * (k - 1);
      var x1 := ZeroByte(x);
      var x2 := ZeroByte(x1);
      var x3 := ZeroByte(x2);
      ZeroByteIsRun(x, m + 24);
      ZeroByteIsRun(x1, m + 16);
      ZeroByteIsRun(x2, m + 8);
      ZeroByteIsRun(x3, m);
      ZeroWordsIsRun(ZeroByte(x3), k - 1, n);
    }
  }

  lemma Words0To4()
    ensures ZeroWords(0xFFFF_FFFF, 4) == 0x1344_B4AA
  {
  }

  lemma Words4To8()
    ensures ZeroWords(0x1344_B4AA, 4) == 0xE6F5_AA52
  {
  }

  lemma Words8To11()
    ensures ZeroWords(0xE6F5_AA52, 3) == 0x7CDB_99E3
  {
  }

  lemma Words11To12()
    ensures ZeroWords(0x7CDB_99E3, 1) == 0x0D77_4C6A
  {
  }

  lemma Words12To16()
    ensures ZeroWords(0x0D77_4C6A, 4) == 0x8A72_9CC9
  {
  }

  lemma Words16To20()
    ensures ZeroWords(0x8A72_9CC9, 4) == 0x71DC_E719
  {
  }

  lemma Words20To24()
    ensures ZeroWords(0x71DC_E719, 4) == 0x450B_9A51
  {
  }

  lemma Words24To28()
    ensures ZeroWords(0x450B_9A51, 4) == 0xE441_5242
  {
  }

  lemma Words28To32()
    ensures ZeroWords(0xE441_5242, 4) == 0x3D57_0562
  {
  }

  lemma Words32To36()
    ensures ZeroWords(0x3D57_0562, 4) == 0x8FF5_FA63
  {
  }

  lemma Words36To40()
    ensures ZeroWords(0x8FF5_FA63, 4) == 0x55F8_AC9C
  {
  }

  lemma Words40To44()
    ensures ZeroWords(0x55F8_AC9C, 4) == 0xD0AF_A190
  {
  }

  lemma Words44To48()
    ensures ZeroWords(0xD0AF_A190, 4) == 0x7400_F70D
  {
  }

  lemma Words48To52()
    ensures ZeroWords(0x7400_F70D, 4) == 0xA0DD_7146
  {
  }

  lemma Words52To56()
    ensures ZeroWords(0xA0DD_7146, 4) == 0xC2DE_A49C
  {
  }

  lemma Words56To60()
    ensures ZeroWords(0xC2DE_A49C, 4) == 0x439E_DBEC
  {
  }

  lemma Words60To64()
    ensures ZeroWords(0x439E_DBEC, 4) == 0xF269_7AA7
  {
  }

  lemma Words64To68()
    ensures ZeroWords(0xF269_7AA7, 4) == 0x8F21_55F7
  {
  }

  lemma Words68To72()
    ensures ZeroWords(0x8F21_55F7, 4) == 0x140D_95AD
  {
  }

  lemma Words72To74()
    ensures ZeroWords(0x140D_95AD, 2) == 0xA546_895A
  {
  }

  lemma Words74To75()
    ensures ZeroWords(0xA546_895A, 1) == 0x4ACB_702D
  {
  }

  /** x is what k zero words leave in an all-ones register. */
  predicate Reaches(k: nat, x: bv32) {
    ZeroRun(Ones(WIDTH), 32 * k) == ToWord(x)
  }

  lemma OnesBytes0()
    ensures Bits(0xFFFF_FFFF, 8) == [true, true, true, true, true, true, true, true]
  {
  }

  lemma OnesBytes1()
    ensures Bits(0x00FF_FFFF, 8) == [true, true, true, true, true, true, true, true]
  {
  }

  lemma OnesBytes2()
    ensures Bits(0x0000_FFFF, 8) == [true, true, true, true, true, true, true, true]
  {
  }

  lemma OnesBytes3()
    ensures Bits(0x0000_00FF, 8) == [true, true, true, true, true, true, true, true]
  {
  }

  lemma OnesBytes()
    ensures ToWord(0xFFFF_FFFF) ==
            [true, true, true, true, true, true, true, true] +
            ([true, true, true, true, true, true, true, true] +
            ([true, true, true, true, true, true, true, true] + [true, true, true, true, true, true, true, true]))
  {
    hide Bits;
    ByteSplit(0xFFFF_FFFF);
    OnesBytes0();
    OnesBytes1();
    OnesBytes2();
    OnesBytes3();
  }

  lemma Start()
    ensures Ones(WIDTH) == ToWord(0xFFFF_FFFF)
    ensures Reaches(0, 0xFFFF_FFFF)
  {
    hide Bits;
    OnesBytes();
  }

  lemma More(k: nat, x: bv32, d: nat)
    requires Reaches(k, x)
    ensures Reaches(k + d, ZeroWords(x, d))
  {
    hide Bits, Run, ZeroWords;
    assert Zeros(32 * (k + d)) == Zeros(32 * k) + Zeros(32 * d);
    RunConcat(Ones(WIDTH), Zeros(32 * k), Zeros(32 * d));
    ZeroWordsIsRun(x, d, 0);
    assert Run(ToWord(ZeroWords(x, d)), Zeros(0)) == ToWord(ZeroWords(x, d)) by { RunNothing(ToWord(ZeroWords(x, d))); }
  }

  lemma RunNothing(r: Word)
    ensures Run(r, Zeros(0)) == r
  {
  }

  lemma UpTo28()
    ensures Reaches(11, 0x7CDB_99E3)
    ensures Reaches(12, 0x0D77_4C6A)
    ensures Reaches(28, 0xE441_5242)
  {
    hide ZeroWords, Reaches;
    Start();
    Words0To4();
    More(0, 0xFFFF_FFFF, 4);
    Words4To8();
    More(4, 0x1344_B4AA, 4);
    Words8To11();
    More(8, 0xE6F5_AA52, 3);
    Words11To12();
    More(11, 0x7CDB_99E3, 1);
    Words12To16();
    More(12, 0x0D77_4C6A, 4);
    Words16To20();
    More(16, 0x8A72_9CC9, 4);
    Words20To24();
    More(20, 0x71DC_E719, 4);
    Words24To28();
    More(24, 0x450B_9A51, 4);
  }

  lemma UpTo48()
    requires Reaches(28, 0xE441_5242)
    ensures Reaches(48, 0x7400_F70D)
  {
    hide ZeroWords, Reaches;
    Words28To32();
    More(28, 0xE441_5242, 4);
    Words32To36();
    More(32, 0x3D57_0562, 4);
    Words36To40();
    More(36, 0x8FF5_FA63, 4);
    Words40To44();
    More(40, 0x55F8_AC9C, 4);
    Words44To48();
    More(44, 0xD0AF_A190, 4);
  }

  lemma UpTo64()
    requires Reaches(48, 0x7400_F70D)
    ensures Reaches(64, 0xF269_7AA7)
  {
    hide ZeroWords, Reaches;
    Words48To52();
    More(48, 0x7400_F70D, 4);
    Words52To56();
    More(52, 0xA0DD_7146, 4);
    Words56To60();
    More(56, 0xC2DE_A49C, 4);
    Words60To64();
    More(60, 0x439E_DBEC, 4);
  }

  lemma UpTo75()
    requires Reaches(64, 0xF269_7AA7)
    ensures Reaches(74, 0xA546_895A)
    ensures Reaches(75, 0x4ACB_702D)
  {
    hide ZeroWords, Reaches;
    Words64To68();
    More(64, 0xF269_7AA7, 4);
    Words68To72();
    More(68, 0x8F21_55F7, 4);
    Words72To74();
    More(72, 0x140D_95AD, 2);
    Words74To75();
    More(74, 0xA546_895A, 1);
  }
}
