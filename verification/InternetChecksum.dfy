/** The checksum of IP and ICMP headers (RFC 1071), as computed natively on a little-endian host. */
module InternetChecksum {
  type Byte = b: nat | b < 0x100
  type Half = h: nat | h < 0x1_0000

  /** The size up to which the 32-bit accumulator cannot overflow. */
  const MAX_SIZE: nat := 131074

  /** One 16-bit word in native byte order; a last odd byte stands alone. */
  function Native(lo: Byte, hi: Byte): Half { lo + 0x100 * hi }

  /** The same two bytes in network byte order. */
  function Network(lo: Byte, hi: Byte): Half { 0x100 * lo + hi }

  /** The plain sum of the words of a buffer. */
  function WordSum(data: seq<Byte>): nat {
    if |data| == 0 then 0
    else if |data| == 1 then Native(data[0], 0)
    else Native(data[0], data[1]) + WordSum(data[2..])
  }

  /** The one's complement sum: the multiple of 65535 that is nearest below is taken away, but a
      sum that is not zero does not become zero. */
  function Norm(s: nat): (h: Half)
    ensures h == 0 <==> s == 0
    ensures (s - h) % 0xffff == 0
  {
    if s == 0 then 0 else (s - 1) % 0xffff + 1
  }

  function Checksum(data: seq<Byte>): Half {
    0xffff - Norm(WordSum(data))
  }

  /** Only one number from 1 to 65535 is congruent to s. */
  lemma NormUnique(s: nat, h: Half)
    requires s > 0 && h > 0 && (s - h) % 0xffff == 0
    ensures Norm(s) == h
  {
  }

  lemma NormFold(s: nat)
    ensures Norm(s % 0x1_0000 + s / 0x1_0000) == Norm(s)
  {
    var t := s % 0x1_0000 + s / 0x1_0000;
    if s > 0 {
      assert s - t == 0xffff * (s / 0x1_0000);
      var h := Norm(t);
      assert s - h == 0xffff * (s / 0x1_0000) + (t - h);
      NormUnique(s, h);
    }
  }

  /** An odd last byte counts as if a zero followed it. */
  lemma {:induction false} OddPadded(data: seq<Byte>)
    requires |data| % 2 == 1
    ensures Checksum(data) == Checksum(data + [0])
  {
    PaddedSum(data);
  }

  lemma {:induction false} PaddedSum(data: seq<Byte>)
    requires |data| % 2 == 1
    ensures WordSum(data) == WordSum(data + [0])
  {
    if |data| == 1 {
      assert (data + [0])[2..] == [];
    } else {
      assert (data + [0])[2..] == data[2..] + [0];
      PaddedSum(data[2..]);
    }
  }

  lemma {:induction false} SumBound(data: seq<Byte>)
    ensures WordSum(data) <= 0xffff * ((|data| + 1) / 2)
  {
    if |data| > 1 { SumBound(data[2..]); }
  }

  /** `internet_checksum`: additions wrap at 2^32, the carries are folded in at the end. */
  method Compute(data: seq<Byte>) returns (r: Half)
    ensures |data| <= MAX_SIZE ==> r == Checksum(data)
  {
    hide Norm;
    SumBound(data);
    var sum: nat, rest := 0, data;
    while |rest| > 1
      invariant sum < 0x1_0000_0000 && |rest| <= |data|
      invariant |data| <= MAX_SIZE ==> sum + WordSum(rest) == WordSum(data)
    {
      assert WordSum(rest) == Native(rest[0], rest[1]) + WordSum(rest[2..]);
      sum := Add32(sum, Native(rest[0], rest[1]));
      rest := rest[2..];
    }
    if |rest| > 0 {
      sum := Add32(sum, rest[0]);
    }
    while sum / 0x1_0000 != 0
      invariant sum < 0x1_0000_0000
      invariant |data| <= MAX_SIZE ==> Norm(sum) == Norm(WordSum(data))
      decreases sum
    {
      NormFold(sum);
      sum := sum % 0x1_0000 + sum / 0x1_0000;
    }
    assert Norm(sum) == sum by { NormSmall(sum); }
    r := (0xffff_ffff - sum) % 0x1_0000;
  }

  lemma NormSmall(s: nat)
    requires s < 0x1_0000
    ensures Norm(s) == s
  {
  }

  /** A word is zero-extended and added to the 32-bit accumulator. */
  function Add32(a: nat, b: nat): (r: nat)
    requires a < 0x1_0000_0000 && b < 0x1_0000
    ensures r < 0x1_0000_0000
    ensures a + b < 0x1_0000_0000 ==> r == a + b
  {
    (a + b) % 0x1_0000_0000
  }

  /** n bytes of ones. */
  function Ones(n: nat): (data: seq<Byte>)
    ensures |data| == n
  {
    seq(n, _ => 0xff)
  }

  lemma {:induction false} OnesSum(n: nat)
    ensures WordSum(Ones(n)) >= 0xffff * (n / 2) + 0xff * (n % 2)
  {
    if n > 1 {
      assert Ones(n)[2..] == Ones(n - 2);
      OnesSum(n - 2);
    }
  }

  /** The accumulator overflows for no buffer of n bytes exactly when n is at most 131074. */
  lemma OverflowFree(n: nat)
    ensures n <= MAX_SIZE <==> forall data: seq<Byte> | |data| == n :: WordSum(data) < 0x1_0000_0000
  {
    if n <= MAX_SIZE {
      forall data: seq<Byte> | |data| == n
        ensures WordSum(data) < 0x1_0000_0000
      {
        SumBound(data);
      }
    } else {
      OnesSum(n);
      assert |Ones(n)| == n;
    }
  }

  lemma {:induction false} StoreSum(data: seq<Byte>, k: nat, c: Half)
    requires k + 1 < |data| && k % 2 == 0 && data[k] == data[k + 1] == 0
    ensures WordSum(data[k := c % 0x100][k + 1 := c / 0x100]) == WordSum(data) + c
  {
    var data' := data[k := c % 0x100][k + 1 := c / 0x100];
    if k > 0 {
      assert data'[2..] == data[2..][k - 2 := c % 0x100][k - 1 := c / 0x100];
      StoreSum(data[2..], k - 2, c);
    } else {
      assert data'[2..] == data[2..];
    }
  }

  lemma Complement(s: nat)
    ensures Norm(s + (0xffff - Norm(s))) == 0xffff
  {
    NormUnique(s + (0xffff - Norm(s)), 0xffff);
  }

  /** The checksum, stored natively into the zeroed field it was computed with, makes the receiver's
      computation yield zero. */
  lemma StoredChecksumVerifies(data: seq<Byte>, k: nat)
    requires k + 1 < |data| && k % 2 == 0 && data[k] == data[k + 1] == 0
    ensures Checksum(data[k := Checksum(data) % 0x100][k + 1 := Checksum(data) / 0x100]) == 0
  {
    StoreSum(data, k, Checksum(data));
    Complement(WordSum(data));
  }

  /** The sum over words in network byte order; a last odd byte is the high one. */
  function NetworkSum(data: seq<Byte>): nat {
    if |data| == 0 then 0
    else if |data| == 1 then Network(data[0], 0)
    else Network(data[0], data[1]) + NetworkSum(data[2..])
  }

  function NetworkChecksum(data: seq<Byte>): Half {
    0xffff - Norm(NetworkSum(data))
  }

  lemma SwapCongruent(lo: Byte, hi: Byte)
    ensures 0x100 * Native(lo, hi) == Network(lo, hi) + 0xffff * hi
  {
  }

  /** A byte swap is a rotation, which multiplies by 256 modulo 65535. */
  lemma {:induction false} SumsCongruent(data: seq<Byte>) returns (q: nat)
    ensures 0x100 * WordSum(data) == NetworkSum(data) + 0xffff * q
    ensures WordSum(data) == 0 <==> NetworkSum(data) == 0
  {
    if |data| == 0 {
      q := 0;
    } else if |data| == 1 {
      SwapCongruent(data[0], 0);
      q := 0;
    } else {
      SwapCongruent(data[0], data[1]);
      q := SumsCongruent(data[2..]);
      q := q + data[1];
    }
  }

  function Swap(h: Half): Half { Network(h % 0x100, h / 0x100) }

  lemma SwapNorm(s: nat, t: nat, q: nat)
    requires 0x100 * s == t + 0xffff * q && (s == 0 <==> t == 0)
    ensures Swap(Norm(s)) == Norm(t)
  {
    if s > 0 {
      var h := Norm(s);
      var k := (s - h) / 0xffff;
      assert s == h + 0xffff * k;
      SwapCongruent(h % 0x100, h / 0x100);
      assert 0x100 * h == Swap(h) + 0xffff * (h / 0x100);
      assert t - Swap(h) == 0xffff * (h / 0x100 + 0x100 * k - q);
      Multiple(t - Swap(h), h / 0x100 + 0x100 * k - q);
      NormUnique(t, Swap(h));
    }
  }

  lemma Multiple(x: int, k: int)
    requires x == 0xffff * k
    ensures x % 0xffff == 0
  {
  }

  /** Computing in native order and storing natively puts the same bytes into the packet as computing
      in network order and storing in network order, for odd lengths too. */
  lemma ByteOrderIndependent(data: seq<Byte>)
    ensures Checksum(data) % 0x100 == NetworkChecksum(data) / 0x100
    ensures Checksum(data) / 0x100 == NetworkChecksum(data) % 0x100
  {
    var q := SumsCongruent(data);
    SwapNorm(WordSum(data), NetworkSum(data), q);
    hide Norm;
    var s := Norm(WordSum(data));
    Parts(0xff - s % 0x100, 0xff - s / 0x100);
    Parts(0xff - s / 0x100, 0xff - s % 0x100);
    assert Checksum(data) == Native(0xff - s % 0x100, 0xff - s / 0x100);
    assert NetworkChecksum(data) == Native(0xff - s / 0x100, 0xff - s % 0x100);
  }

  lemma Parts(lo: Byte, hi: Byte)
    ensures Native(lo, hi) % 0x100 == lo && Native(lo, hi) / 0x100 == hi
  {
  }
}
