/** The switch's invariant CRC: four hashes of zero-padded pieces, computed in different stages,
combined by exclusive or. */
module IcrcSplit {
  import opened Icrc

  /** The register after n zero bits. */
  function ZeroRun(r: Word, n: nat): Word {
    Run(r, Zeros(n))
  }

  function Xor4(a: Word, b: Word, c: Word, d: Word): Word {
    Xor(Xor(Xor(a, b), c), d)
  }

  /** What the four hashes' start values and final complements contribute; `lead` is the register
      after whatever precedes the header. */
  function Offset(lead: Word, n0: nat, n1: nat, n2: nat, n3: nat): Word {
    var f := Ones(WIDTH);
    Xor(Xor4(ZeroRun(f, n1 + n2 + n3), ZeroRun(f, n2 + n3), ZeroRun(f, n3), ZeroRun(f, n0 + n1 + n2 + n3)),
        Xor(ZeroRun(lead, n0 + n1 + n2 + n3), f))
  }

  /** The exclusive or of the hashes of a header and three payload pieces, each padded with zeros
      to its distance from the end. */
  function SplitHash(h: seq<bool>, p1: seq<bool>, p2: seq<bool>, p3: seq<bool>): Word {
    Xor4(Hash(p1 + Zeros(|p2| + |p3|)), Hash(p2 + Zeros(|p3|)), Hash(p3), Hash(h + Zeros(|p1| + |p2| + |p3|)))
  }

  /** A hash of a message behind another, as the message from zero and a value that depends on
      its length only. */
  lemma HashApart(lead: seq<bool>, m: seq<bool>)
    ensures Hash(lead + m) == Xor(Xor(Run(Zeros(WIDTH), m), ZeroRun(Run(Ones(WIDTH), lead), |m|)), Ones(WIDTH))
  {
    hide Xor, Run;
    RunConcat(Ones(WIDTH), lead, m);
    StartApart(Run(Ones(WIDTH), lead), m);
  }

  lemma HashAlone(m: seq<bool>)
    ensures Hash(m) == Xor(Xor(Run(Zeros(WIDTH), m), ZeroRun(Ones(WIDTH), |m|)), Ones(WIDTH))
  {
    assert [] + m == m;
    HashApart([], m);
  }

  lemma FourParts(h: seq<bool>, p1: seq<bool>, p2: seq<bool>, p3: seq<bool>)
    ensures
      var z := Zeros(WIDTH);
      Run(z, h + p1 + p2 + p3) ==
      Xor4(Run(z, p1 + Zeros(|p2| + |p3|)), Run(z, p2 + Zeros(|p3|)), Run(z, p3), Run(z, h + Zeros(|p1| + |p2| + |p3|)))
  {
    hide Run;
    var z := Zeros(WIDTH);
    assert h + p1 + p2 + p3 == h + (p1 + (p2 + p3));
    PartsApart(h, p1 + (p2 + p3));
    PartsApart(p1, p2 + p3);
    PartsApart(p2, p3);
  }

  /** Four complemented values: the complements cancel. */
  lemma XorFour(a: Word, b: Word, c: Word, d: Word, w: Word, x: Word, y: Word, z: Word, f: Word)
    ensures Xor4(Xor(Xor(a, w), f), Xor(Xor(b, x), f), Xor(Xor(c, y), f), Xor(Xor(d, z), f)) ==
            Xor(Xor4(a, b, c, d), Xor4(w, x, y, z))
  {
  }

  lemma XorDrop(a: Word, z: Word, x: Word, f: Word)
    ensures Xor(Xor(a, z), Xor(z, Xor(x, f))) == Xor(Xor(a, x), f)
  {
  }

  /** For every header and payload the split computation differs from the hash of the whole message
      by a value that depends on the lengths of the pieces and on what precedes the header only. */
  lemma SplitIsWhole(lead: seq<bool>, h: seq<bool>, p1: seq<bool>, p2: seq<bool>, p3: seq<bool>)
    ensures Xor(SplitHash(h, p1, p2, p3), Offset(Run(Ones(WIDTH), lead), |h|, |p1|, |p2|, |p3|)) ==
            Hash(lead + (h + p1 + p2 + p3))
  {
    hide Xor, Run, Hash;
    var m := h + p1 + p2 + p3;
    var f, l := Ones(WIDTH), Run(Ones(WIDTH), lead);
    var n, o := |p1| + |p2| + |p3|, Zeros(WIDTH);
    HashAlone(p1 + Zeros(|p2| + |p3|));
    HashAlone(p2 + Zeros(|p3|));
    HashAlone(p3);
    HashAlone(h + Zeros(n));
    FourParts(h, p1, p2, p3);
    var z := Xor4(ZeroRun(f, n), ZeroRun(f, |p2| + |p3|), ZeroRun(f, |p3|), ZeroRun(f, |m|));
    XorFour(Run(o, p1 + Zeros(|p2| + |p3|)), Run(o, p2 + Zeros(|p3|)), Run(o, p3), Run(o, h + Zeros(n)),
            ZeroRun(f, n), ZeroRun(f, |p2| + |p3|), ZeroRun(f, |p3|), ZeroRun(f, |m|), f);
    assert SplitHash(h, p1, p2, p3) == Xor(Run(o, m), z);
    XorDrop(Run(o, m), z, ZeroRun(l, |m|), f);
    HashApart(lead, m);
  }
}
