/** The two chained pipes, seen from outside, are one aggregator over all workers. */
module FlatAggregator {
  import opened Payloads
  import opened Aggregator
  import opened SlotProtocol
  import opened SlotInvariant
  import opened SlotTheorems

  /** The simple aggregator: how many packets each worker has contributed, and how many
      results have been given to all of them. */
  datatype Flat = Flat(contributed: seq<nat>, released: nat) {
    predicate Ready() {
      forall i | 0 <= i < |contributed| :: released < contributed[i]
    }
  }

  /** What an observer of the links sees of the switch. */
  function FlatOf(c: Config, s: State): Flat
    requires c.Programmed() && s.Shaped(c)
  {
    Flat(seq(c.Workers(), i requires 0 <= i < c.Workers() => if |s.up[i]| <= s.sent[i] then s.sent[i] - |s.up[i]| else 0),
         |s.got[0]| + |s.down[0]|)
  }

  lemma FlatHistory(c: Config, s: State, h: History)
    requires c.Programmed() && SysInv(c, s, h)
    ensures FlatOf(c, s) == Flat(h.done[..c.Workers()], h.Released(c))
  {
    hide Inv, UpOk, HopOk, ResultsOk, WindowOk;
    forall i | 0 <= i < c.Workers()
      ensures FlatOf(c, s).contributed[i] == h.done[i]
    {
      WorkerLinks(c, s, h, i);
    }
    WorkerLinks(c, s, h, 0);
  }

  /** Whatever the placement, every step is a step of the simple aggregator or invisible: a
      worker's first pass is its contribution, the copying of a result to the workers is a
      release and happens only when every worker has contributed to it. */
  lemma ChainRefinesFlat(c: Config, es: seq<Event>, e: Event)
    requires c.Valid() && IsRun(c, Init(c), es) && Enabled(c, After(c, es), e)
    ensures
      var s, s' := After(c, es), Apply(c, After(c, es), e);
      var f, f' := FlatOf(c, s), FlatOf(c, s');
      if e.First? then f' == f.(contributed := f.contributed[e.i := f.contributed[e.i] + 1])
      else if s'.down != s.down && !e.Deliver? then f.Ready() && f' == f.(released := f.released + 1)
      else f' == f
  {
    hide Inv, UpOk, HopOk, ResultsOk, WindowOk, Exec, IsRun, Work, FirstPass, ClearPass, ClearOutput;
    var s := After(c, es);
    var h := Reachable(c, es);
    var h' := StepWork(c, s, h, e);
    var s' := Apply(c, s, e);
    FlatHistory(c, s, h);
    FlatHistory(c, s', h');
    var release := e == Clear3 || (e == Clear0 && !c.Connected());
    if release {
      assert s'.down[0] == s.down[0] + [if e == Clear3 then ClearOutput(s.pipe3) else ClearOutput(s.pipe0)];
      forall i | 0 <= i < c.Workers()
        ensures h.Released(c) < h.done[i]
      {
        ContributedFirst(c, s', h', i);
      }
    } else if !e.Deliver? {
      assert s'.down == s.down;
    }
  }

  /** Distribution is not late either: once nothing is left inside the switch, every packet
      that all workers have contributed has been released. */
  lemma QuietSwitch(c: Config, es: seq<Event>)
    requires c.Valid() && IsRun(c, Init(c), es)
    requires var s := After(c, es); s.pipe0.recirc == [] && s.hop == [] && s.pipe3.recirc == []
    ensures !FlatOf(c, After(c, es)).Ready()
    ensures forall i | 0 <= i < c.Workers() ::
              FlatOf(c, After(c, es)).released <= FlatOf(c, After(c, es)).contributed[i]
  {
    hide Inv, UpOk, HopOk, ResultsOk, WindowOk, Exec, IsRun, Work;
    var s := After(c, es);
    var h := Reachable(c, es);
    FlatHistory(c, s, h);
    var i := Slowest(c, s, h);
    assert FlatOf(c, s).contributed[i] == h.done[i];
    forall i | 0 <= i < c.Workers()
      ensures h.Released(c) <= h.done[i]
    {
      ContributedFirst(c, s, h, i);
    }
  }

  /** The inter-pipe bit of the slot serving packet n on pipe 3 is set only if every pipe-0
      worker has contributed n, and is set if they have and pipe 0 has nothing under way. */
  lemma InterPipeBit(c: Config, es: seq<Event>, k: nat)
    requires c.Valid() && IsRun(c, Init(c), es) && c.Connected() && k < SLOTS
    ensures
      var s := After(c, es);
      var f := FlatOf(c, s);
      var n := Serves(f.released, k);
      var all0 := forall i <- c.On0() :: n < f.contributed[i];
      && (c.hopBit in s.pipe3.slots[k].bits ==> all0)
      && (all0 && s.pipe0.recirc == [] && s.hop == [] ==> c.hopBit in s.pipe3.slots[k].bits)
  {
    hide UpOk, ResultsOk, WindowOk, Exec, IsRun, Work, Sum;
    var s := After(c, es);
    var h := Reachable(c, es);
    FlatHistory(c, s, h);
    var g, m := c.Stage3(), c.Workers();
    var n := Serves(h.cleared3, k);
    var who := g.Contributors(h.done, n);
    assert s.pipe3.slots[k].bits == g.Bits(who);
    assert g.bit[m] == c.hopBit;
    assert c.hopBit in g.Bits(who) <==> m in who by {
      assert forall i <- who :: i != m ==> g.bit[i] == c.bit[i] != c.hopBit;
    }
    Counters0(c, s.pipe0, h.P0());
    HopBound(c, s.hop, h.done[m], h.cleared0);
    assert forall i <- c.On0() :: h.done[m] <= h.done[i];
  }
}
