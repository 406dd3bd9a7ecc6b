/** What holds of every run of the data path: correct results, in order, exactly once;
slots that never mix packets; no deadlock; and two chained pipes that look like one
aggregator over all workers. */
module SlotTheorems {
  import opened Payloads
  import opened Aggregator
  import opened SlotProtocol
  import opened SlotInvariant

  predicate IsRun(c: Config, s: State, es: seq<Event>)
    requires c.Programmed() && s.Shaped(c)
    decreases es
  {
    es == [] || (Enabled(c, s, es[0]) && IsRun(c, Apply(c, s, es[0]), es[1..]))
  }

  function Exec(c: Config, s: State, es: seq<Event>): (s': State)
    requires c.Programmed() && s.Shaped(c) && IsRun(c, s, es)
    ensures s'.Shaped(c)
    decreases es
  {
    if es == [] then s else Exec(c, Apply(c, s, es[0]), es[1..])
  }

  /** The state after a run from the start. */
  function After(c: Config, es: seq<Event>): (s: State)
    requires c.Programmed() && IsRun(c, Init(c), es)
    ensures s.Shaped(c)
  {
    Exec(c, Init(c), es)
  }

  function SumOf(xs: seq<nat>): nat {
    if xs == [] then 0 else xs[0] + SumOf(xs[1..])
  }

  lemma {:induction false} SumOfBump(xs: seq<nat>, i: nat)
    requires i < |xs|
    ensures SumOf(xs[i := xs[i] + 1]) == SumOf(xs) + 1
  {
    if i > 0 {
      assert xs[i := xs[i] + 1][1..] == xs[1..][i - 1 := xs[1..][i - 1] + 1];
      SumOfBump(xs[1..], i - 1);
    } else {
      assert xs[i := xs[i] + 1][1..] == xs[1..];
    }
  }

  lemma {:induction false} SumOfBound(xs: seq<nat>, b: nat)
    requires forall i | 0 <= i < |xs| :: xs[i] <= b
    ensures SumOf(xs) <= |xs| * b
    ensures (forall i | 0 <= i < |xs| :: xs[i] == b) ==> SumOf(xs) == |xs| * b
  {
    if xs != [] {
      SumOfBound(xs[1..], b);
      assert |xs| * b == b + |xs[1..]| * b;
    }
  }

  function Lengths(got: seq<seq<Payload>>): (r: seq<nat>)
    ensures |r| == |got|
  {
    seq(|got|, i requires 0 <= i < |got| => |got[i]|)
  }

  /** How many events have happened, counted from what they did. */
  ghost function Work(c: Config, s: State, h: History): nat
    requires c.Programmed() && s.Shaped(c) && |h.done| == c.Workers() + 1
  {
    SumOf(s.sent) + SumOf(h.done[..c.Workers()]) + SumOf(Lengths(s.got))
    + (if c.On0() != {} then h.cleared0 else 0) + (if c.On3() != {} then h.cleared3 else 0)
    + (if c.Connected() then h.done[c.Workers()] else 0)
  }

  /** Every packet is posted, contributed and received once per worker, and passes each pipe
      in use once more; pipe 0's results contribute once on pipe 3. */
  function TotalWork(c: Config): nat
    requires c.Programmed()
  {
    c.Workers() * c.packets * 3
    + (if c.On0() != {} then c.packets else 0) + (if c.On3() != {} then c.packets else 0)
    + (if c.Connected() then c.packets else 0)
  }

  lemma WorkBound(c: Config, s: State, h: History)
    requires c.Programmed() && SysInv(c, s, h)
    ensures Work(c, s, h) <= TotalWork(c)
    ensures Work(c, s, h) == TotalWork(c) || exists i :: 0 <= i < c.Workers() && |s.got[i]| < c.packets
  {
    hide Inv, UpOk, HopOk, ResultsOk, WindowOk;
    var m, n := c.Workers(), c.packets;
    forall i | 0 <= i < m
      ensures |s.got[i]| <= h.Released(c) <= h.done[i] <= s.sent[i] <= n
    {
      WorkerLinks(c, s, h, i);
      ContributedFirst(c, s, h, i);
    }
    SumOfBound(s.sent, n);
    SumOfBound(h.done[..m], n);
    SumOfBound(Lengths(s.got), n);
    assert m * n + m * n + m * n == m * n * 3;
    if c.On0() != {} { Counters0(c, s.pipe0, h.P0()); }
    if c.On3() != {} { Counters3(c, s.pipe3, h.P3()); }
    ReleasedBehind(c, s, h);
    if c.Connected() { HopBound(c, s.hop, h.done[m], h.cleared0); }
    if forall i | 0 <= i < m :: |s.got[i]| == n {
      assert |s.got[0]| == n == h.Released(c);
      if c.Connected() { assert m in c.Stage3().members; }
    }
  }

  lemma HopBound(c: Config, hop: seq<Packet>, done: nat, cleared0: nat)
    requires c.Programmed() && HopOk(c, hop, done, cleared0) && c.Connected()
    ensures done <= cleared0 <= c.packets
  {
  }

  /** One step does one unit of work. */
  lemma StepWork(c: Config, s: State, h: History, e: Event) returns (h': History)
    requires c.Valid() && SysInv(c, s, h) && Enabled(c, s, e)
    ensures SysInv(c, Apply(c, s, e), h')
    ensures Work(c, Apply(c, s, e), h') == Work(c, s, h) + 1
    ensures forall i | 0 <= i < c.Workers() :: h'.done[i] == h.done[i] + (if e == First(i) then 1 else 0)
    ensures h'.Released(c) == h.Released(c) + (if e == Clear3 || (e == Clear0 && !c.Connected()) then 1 else 0)
  {
    hide Inv, Pipe0Ok, Pipe3Ok, UpOk, HopOk, ResultsOk, WindowOk, SumOf, After0, After3, FirstPass, ClearPass, ClearOutput;
    var m, s' := c.Workers(), Apply(c, s, e);
    match e
    case Send(i) =>
      SendInv(c, s, h, i);
      SumOfBump(s.sent, i);
      h' := h;
    case First(i) =>
      h' := FirstWork(c, s, h, i);
    case Clear0 =>
      Clear0Inv(c, s, h);
      ClearNeedsWorkers(c, s, h);
      h' := h.(cleared0 := h.cleared0 + 1);
    case Hop =>
      HopInv(c, s, h);
      h' := After3(c, h, m);
      assert h'.done[..m] == h.done[..m];
    case Clear3 =>
      Clear3Inv(c, s, h);
      ClearNeedsWorkers(c, s, h);
      h' := h.(cleared3 := h.cleared3 + 1);
    case Deliver(i) =>
      DeliverInv(c, s, h, i);
      SumOfBump(Lengths(s.got), i);
      assert Lengths(s'.got) == Lengths(s.got)[i := |s.got[i]| + 1];
      h' := h;
  }

  lemma FirstWork(c: Config, s: State, h: History, i: nat) returns (h': History)
    requires c.Valid() && SysInv(c, s, h) && Enabled(c, s, First(i))
    ensures SysInv(c, Apply(c, s, First(i)), h')
    ensures Work(c, Apply(c, s, First(i)), h') == Work(c, s, h) + 1
    ensures h'.done == h.done[i := h.done[i] + 1]
    ensures h'.Released(c) == h.Released(c)
  {
    hide Inv, Pipe0Ok, Pipe3Ok, UpOk, HopOk, ResultsOk, WindowOk, SumOf, After0, After3, FirstPass;
    var m := c.Workers();
    if c.onPipe0[i] {
      First0Inv(c, s, h, i);
      h' := After0(c, h, i);
    } else {
      First3Inv(c, s, h, i);
      h' := After3(c, h, i);
    }
    SumOfBump(h.done[..m], i);
    assert h'.done[..m] == h.done[..m][i := h.done[i] + 1];
  }

  lemma ClearNeedsWorkers(c: Config, s: State, h: History)
    requires c.Programmed() && SysInv(c, s, h)
    ensures s.pipe0.recirc != [] ==> c.On0() != {}
    ensures s.pipe3.recirc != [] ==> c.On3() != {}
  {
    hide Inv, UpOk, HopOk, ResultsOk, WindowOk;
  }

  lemma {:induction false} RunInv(c: Config, s: State, h: History, es: seq<Event>) returns (h': History)
    requires c.Valid() && s.Shaped(c) && SysInv(c, s, h) && IsRun(c, s, es)
    ensures SysInv(c, Exec(c, s, es), h')
    ensures Work(c, Exec(c, s, es), h') == Work(c, s, h) + |es|
    decreases es
  {
    hide SysInv, Work, Apply;
    if es == [] {
      h' := h;
    } else {
      var h1 := StepWork(c, s, h, es[0]);
      h' := RunInv(c, Apply(c, s, es[0]), h1, es[1..]);
    }
  }

  /** The invariant holds after every run, with a history whose work is the run's length. */
  lemma Reachable(c: Config, es: seq<Event>) returns (h: History)
    requires c.Valid() && IsRun(c, Init(c), es)
    ensures SysInv(c, After(c, es), h) && Work(c, After(c, es), h) == |es|
  {
    hide SysInv;
    InitSys(c);
    var m := c.Workers();
    var h0 := History(seq(m + 1, _ => 0), 0, 0, 0, 0);
    SumOfBound(Init(c).sent, 0);
    SumOfBound(h0.done[..m], 0);
    SumOfBound(Lengths(Init(c).got), 0);
    h := RunInv(c, Init(c), h0, es);
  }

  /** Nothing can happen any more. */
  ghost predicate Stuck(c: Config, s: State)
    requires c.Programmed() && s.Shaped(c)
  {
    forall e: Event :: !Enabled(c, s, e)
  }

  /** A run can only get stuck when every worker has every result. */
  lemma NoDeadlock(c: Config, s: State, h: History)
    requires c.Programmed() && SysInv(c, s, h) && Stuck(c, s)
    ensures forall i | 0 <= i < c.Workers() :: |s.got[i]| == c.packets
  {
    hide Inv, UpOk, HopOk, ResultsOk, WindowOk;
    var m := c.Workers();
    assert !Enabled(c, s, Clear0) && !Enabled(c, s, Clear3) && !Enabled(c, s, Hop);
    forall i | 0 <= i < m
      ensures |s.got[i]| == h.Released(c) && h.done[i] == s.sent[i]
      ensures s.sent[i] == |s.got[i]| ==> s.sent[i] == c.packets
    {
      assert !Enabled(c, s, First(i)) && !Enabled(c, s, Deliver(i)) && !Enabled(c, s, Send(i));
      WorkerLinks(c, s, h, i);
    }
    var i := Slowest(c, s, h);
  }

  /** In a quiet switch, some worker has contributed exactly the released packets. */
  lemma Slowest(c: Config, s: State, h: History) returns (i: nat)
    requires c.Programmed() && SysInv(c, s, h)
    requires s.pipe0.recirc == [] && s.hop == [] && s.pipe3.recirc == []
    ensures i < c.Workers() && h.done[i] == h.Released(c)
  {
    hide UpOk, ResultsOk, WindowOk;
    var m := c.Workers();
    if c.On3() != {} {
      Counters3(c, s.pipe3, h.P3());
      i :| i in c.Stage3().members && h.done[i] == h.completed3;
      assert h.completed3 == h.cleared3;
      if i != m { return; }
      assert c.Connected() && h.done[m] == h.cleared0;
    } else {
      assert 0 !in c.On3();
      assert 0 in c.On0();
    }
    Counters0(c, s.pipe0, h.P0());
    i :| i in c.On0() && h.done[i] == h.completed0;
    assert h.completed0 == h.cleared0;
  }

  /** End to end.  However sends, passes, hops and deliveries interleave: what a worker has
      received so far is the beginning of the sequence of correct results, each word being
      the sum of all workers' words modulo 2^32; no run is longer than the total work; and a
      run that cannot go on has done all of it, so every worker has every result exactly once. */
  lemma EndToEnd(c: Config, es: seq<Event>)
    requires c.Valid() && IsRun(c, Init(c), es)
    ensures forall i | 0 <= i < c.Workers() :: After(c, es).got[i] <= c.Results()
    ensures forall i, n: nat, j: nat | 0 <= i < c.Workers() && n < |After(c, es).got[i]| && j < 2 * UNITS ::
              n < c.packets && After(c, es).got[i][n].Val(j) == IntSum(c.All(), c.input, n, j, c.Workers()) % WORD_MOD
    ensures |es| <= TotalWork(c)
    ensures Stuck(c, After(c, es)) ==> |es| == TotalWork(c)
    ensures Stuck(c, After(c, es)) ==> forall i | 0 <= i < c.Workers() :: After(c, es).got[i] == c.Results()
  {
    hide Inv, UpOk, HopOk, WindowOk, Work, TotalWork, Exec, IsRun;
    var s := After(c, es);
    var h := Reachable(c, es);
    WorkBound(c, s, h);
    forall i, n: nat, j: nat | 0 <= i < c.Workers() && n < |s.got[i]| && j < 2 * UNITS
      ensures n < c.packets && s.got[i][n].Val(j) == IntSum(c.All(), c.input, n, j, c.Workers()) % WORD_MOD
    {
      SumIsModularSum(c.All(), c.input, n, j, c.Workers());
      assert s.got[i][n] == c.Results()[..|s.got[i]|][n];
    }
    if Stuck(c, s) {
      NoDeadlock(c, s, h);
    }
  }

  /** Results reach every worker in sequence-number order, and none is ever lost: the queue to
      a worker always continues where the worker stands, and all workers are offered the same. */
  lemma ResultsInOrder(c: Config, es: seq<Event>, i: nat, k: nat)
    requires c.Valid() && IsRun(c, Init(c), es) && i < c.Workers() && k < |After(c, es).down[i]|
    ensures
      var s := After(c, es);
      var n := |s.got[i]| + k;
      n < c.packets && s.down[i][k] == Packet(n % 0x100_0000, c.Result(n)) && n < s.sent[i]
    ensures
      var s := After(c, es);
      |s.got[i]| + |s.down[i]| == |s.got[0]| + |s.down[0]|
  {
    hide Inv, UpOk, HopOk, WindowOk, Exec, IsRun;
    var h := Reachable(c, es);
    var s := After(c, es);
    ContributedFirst(c, s, h, i);
    assert Carries(s.down[i], c.Results(), |s.got[i]|, h.Released(c));
    assert Carries(s.down[0], c.Results(), |s.got[0]|, h.Released(c));
  }

  /** Slot reuse is safe: on either pipe, a slot holds the bits and the sum of the workers
      that contributed one single packet, never a mixture of two. */
  ghost predicate OnePacket(g: Stage, slot: Slot, n: nat, who: set<nat>)
    requires g.Valid()
  {
    && who <= g.members
    && (who != {} ==> n < g.packets)
    && slot == (if who == {} then EMPTY else Slot(g.Bits(who), Sum(who, g.rows, n)))
  }

  lemma SlotReuse(c: Config, es: seq<Event>, k: nat)
    requires c.Valid() && IsRun(c, Init(c), es) && k < SLOTS
    ensures c.On0() != {} ==> exists n: nat, who :: n % SLOTS == k && OnePacket(c.Stage0(), After(c, es).pipe0.slots[k], n, who)
    ensures c.On3() != {} ==> exists n: nat, who :: n % SLOTS == k && OnePacket(c.Stage3(), After(c, es).pipe3.slots[k], n, who)
  {
    hide UpOk, HopOk, ResultsOk, WindowOk, Exec, IsRun;
    var h := Reachable(c, es);
    var s := After(c, es);
    if c.On0() != {} { SlotOne(c.Stage0(), s.pipe0, h.P0(), k); }
    if c.On3() != {} { SlotOne(c.Stage3(), s.pipe3, h.P3(), k); }
  }

  lemma SlotOne(g: Stage, p: Pipe, h: Progress, k: nat)
    requires g.Valid() && Inv(g, p, h) && k < SLOTS
    ensures exists n: nat, who :: n % SLOTS == k && OnePacket(g, p.slots[k], n, who)
  {
    var n := Serves(h.cleared, k);
    var who := g.Contributors(h.done, n);
    if who == {} { SumBelowEmpty(g.rows, n, |g.rows|); }
    assert OnePacket(g, p.slots[k], n, who);
  }

  /** From the completing pass to the clearing pass nothing touches a slot: while packet n is
      on the recirculation queue, its slot keeps the complete bitmap and the complete sum. */
  lemma CapturedHalves(g: Stage, p: Pipe, h: Progress, k: nat)
    requires g.Valid() && Inv(g, p, h) && k < |p.recirc|
    ensures
      var n := h.cleared + k;
      n < g.packets && p.recirc[k].psn == Psn(n) && p.recirc[k].data.low == g.Total(n).low &&
      p.slots[p.recirc[k].psn % SLOTS] == Slot(g.Full(), g.Total(n))
  {
    var n := h.cleared + k;
    var i :| i in g.members && h.done[i] == h.completed;
    assert n < h.completed <= h.cleared + SLOTS;
    assert Serves(h.cleared, n % SLOTS) == n;
    assert g.Contributors(h.done, n) == g.members;
  }
}
