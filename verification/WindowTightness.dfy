/** The window is as large as it may be: with one more packet in flight than there are slots
a worker can receive a wrong result. */
module WindowTightness {
  import opened Payloads
  import opened Aggregator
  import opened SlotProtocol
  import opened SlotInvariant
  import opened SlotTheorems

  /** Whatever the workers send and however events interleave, only correct results arrive. */
  ghost predicate AlwaysCorrect(chunk: nat, ring: nat) {
    forall c: Config, es: seq<Event> :: Allowed(c, es, chunk, ring) ==> Correct(c, es)
  }

  ghost predicate Allowed(c: Config, es: seq<Event>, chunk: nat, ring: nat) {
    c.Programmed() && c.chunk == chunk && c.ring == ring && IsRun(c, Init(c), es)
  }

  ghost predicate AllPrefixes(got: seq<seq<Payload>>, results: seq<Payload>) {
    forall i | 0 <= i < |got| :: got[i] <= results
  }

  ghost predicate Correct(c: Config, es: seq<Event>) {
    c.Programmed() && IsRun(c, Init(c), es) && AllPrefixes(After(c, es).got, c.Results())
  }

  function Ones(): (p: Payload)
    ensures p != ZERO
  {
    var p := Payload(seq(UNITS, _ => 1), seq(UNITS, _ => 1));
    assert p.low[0] != ZERO.low[0];
    p
  }

  /** One worker on pipe 3; all its packets are zero but packet 256. */
  function Lone(chunk: nat, ring: nat): Config {
    Config([false], [0], 1, {}, {0}, [seq(SLOTS + 1, n => if n == SLOTS then Ones() else ZERO)], SLOTS + 1, chunk, ring)
  }

  lemma LoneProgrammed(c: Config, chunk: nat, ring: nat)
    requires chunk > 0 && ring > 0 && c == Lone(chunk, ring)
    ensures c.Programmed()
  {
    assert 0 in c.On3();
    assert c.On0() == {};
    assert c.full3 == c.BitsOf(c.On3());
  }

  lemma {:induction false} Extend(c: Config, s: State, es: seq<Event>, e: Event)
    requires c.Programmed() && s.Shaped(c) && IsRun(c, s, es) && Enabled(c, Exec(c, s, es), e)
    ensures IsRun(c, s, es + [e]) && Exec(c, s, es + [e]) == Apply(c, Exec(c, s, es), e)
    decreases es
  {
    if es == [] {
      assert IsRun(c, Apply(c, s, e), []);
      assert (es + [e])[1..] == [];
    } else {
      Extend(c, Apply(c, s, es[0]), es[1..], e);
      assert (es + [e])[1..] == es[1..] + [e];
    }
  }

  ghost predicate Posted(c: Config, s: State, k: nat)
    requires |c.input| > 0
  {
    && s.sent == [k] && |s.up| == 1 && Carries(s.up[0], c.input[0], 0, k)
    && s.pipe0 == s.pipe3 == IdlePipe() && s.hop == [] && s.down == [[]] && s.got == [[]]
  }

  /** The worker posts its first k packets, all within its window. */
  lemma Sends(c: Config, k: nat) returns (es: seq<Event>)
    requires c == Lone(c.chunk, c.ring) && c.chunk > 0 && c.ring > 0 && c.chunk * c.ring > SLOTS && k <= SLOTS + 1
    ensures c.Programmed() && IsRun(c, Init(c), es)
    ensures Posted(c, After(c, es), k)
  {
    LoneProgrammed(c, c.chunk, c.ring);
    es := [];
    var j := 0;
    while j < k
      invariant j <= k && IsRun(c, Init(c), es) && Posted(c, After(c, es), j)
    {
      var s := After(c, es);
      DivMul(j, c.chunk);
      if j / c.chunk >= c.ring { MulMono(c.ring, j / c.chunk, c.chunk); }
      assert 0 / c.chunk == 0;
      assert Enabled(c, s, Send(0));
      CarriesMore(s.up[0], c.input[0], 0, j);
      Extend(c, Init(c), es, Send(0));
      es := es + [Send(0)];
      j := j + 1;
    }
  }

  /** Slot 0 after k first passes and no second pass. */
  ghost predicate Piled(c: Config, s: State, k: nat)
    requires |c.input| > 0 && s.Shaped(c)
  {
    && s.sent == [SLOTS + 1] && s.got == [[]] && s.down == [[]] && s.hop == []
    && Carries(s.up[0], c.input[0], k, SLOTS + 1)
    && (k == 0 ==> s.pipe3 == IdlePipe())
    && (k > 0 ==>
          && s.pipe3.recirc != [] && s.pipe3.recirc[0].psn == 0
          && s.pipe3.slots[0].bits == {0}
          && s.pipe3.slots[0].sum == if k <= SLOTS then ZERO else Ones())
  }

  lemma PileStep(c: Config, s: State, k: nat)
    requires c == Lone(c.chunk, c.ring) && c.Programmed() && s.Shaped(c) && Piled(c, s, k) && k <= SLOTS
    ensures Enabled(c, s, First(0)) && Piled(c, Apply(c, s, First(0)), k + 1)
  {
    CarriesTail(s.up[0], c.input[0], k, SLOTS + 1);
    assert Psn(k) % SLOTS == 0 <==> k == 0 || k == SLOTS;
    AddLaws(ZERO, Ones(), ZERO);
  }

  /** With a window above 256 packets the second round adds into a slot that is not yet clear. */
  lemma TooWide(chunk: nat, ring: nat) returns (c: Config, es: seq<Event>)
    requires chunk > 0 && ring > 0 && chunk * ring > SLOTS
    ensures c.Programmed() && c.chunk == chunk && c.ring == ring && IsRun(c, Init(c), es)
    ensures !(After(c, es).got[0] <= c.Results())
  {
    c := Lone(chunk, ring);
    es := Sends(c, SLOTS + 1);
    var k := 0;
    assert Piled(c, After(c, es), 0);
    while k < SLOTS + 1
      invariant k <= SLOTS + 1 && IsRun(c, Init(c), es) && Piled(c, After(c, es), k)
    {
      PileStep(c, After(c, es), k);
      Extend(c, Init(c), es, First(0));
      es := es + [First(0)];
      k := k + 1;
    }
    var s := After(c, es);
    Extend(c, Init(c), es, Clear3);
    es := es + [Clear3];
    var s1 := After(c, es);
    assert s1.down[0] == [ClearOutput(s.pipe3)];
    Extend(c, Init(c), es, Deliver(0));
    es := es + [Deliver(0)];
    var r := After(c, es).got[0];
    assert r == [ClearOutput(s.pipe3).data];
    assert r[0].high == Ones().high && Ones().high[0] == 1;
    SumBelowSingle(0, c.input, 0, 1);
    assert c.All() == {0};
    assert c.Results()[0] == ZERO && ZERO.high[0] == 0;
  }

  /** Results are always correct if and only if no more than 256 packets may be in flight. */
  lemma WindowExact(chunk: nat, ring: nat)
    requires chunk > 0 && ring > 0
    ensures AlwaysCorrect(chunk, ring) <==> ring * chunk <= SLOTS
  {
    if ring * chunk <= SLOTS {
      forall c: Config, es: seq<Event> | Allowed(c, es, chunk, ring)
        ensures Correct(c, es)
      {
        EndToEnd(c, es);
      }
    } else {
      var c, es := TooWide(chunk, ring);
      assert Allowed(c, es, chunk, ring);
      assert !Correct(c, es);
    }
  }
}
