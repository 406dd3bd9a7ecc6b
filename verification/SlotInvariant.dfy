/** Every step of the transition system keeps the system invariant. */
module SlotInvariant {
  import opened Payloads
  import opened Aggregator
  import opened SlotProtocol

  lemma InitSys(c: Config)
    requires c.Programmed()
    ensures SysInv(c, Init(c), History(seq(c.Workers() + 1, _ => 0), 0, 0, 0, 0))
  {
    hide Inv, IdlePipe;
    if c.On0() != {} { InitInv(c.Stage0()); }
    if c.On3() != {} { InitInv(c.Stage3()); }
    NothingWaits();
  }

  lemma NothingWaits()
    ensures IdlePipe().recirc == []
  {
  }

  /** A pipe does not see the progress of feeders that are not its own. */
  lemma OtherFeeder(g: Stage, p: Pipe, h: Progress, f: nat, k: nat)
    requires g.Valid() && Inv(g, p, h) && f < |h.done| && f !in g.members
    ensures Inv(g, p, h.(done := h.done[f := k]))
  {
    var h' := h.(done := h.done[f := k]);
    var i :| i in g.members && h.done[i] == h.completed;
    assert h'.done[i] == h'.completed;
    forall s | 0 <= s < SLOTS
      ensures p.slots[s] == g.Expected(h'.done, Serves(h.cleared, s))
    {
      assert g.Contributors(h'.done, Serves(h.cleared, s)) == g.Contributors(h.done, Serves(h.cleared, s));
    }
  }

  lemma CarriesTail(q: seq<Packet>, row: seq<Payload>, from: nat, to: nat)
    requires Carries(q, row, from, to) && q != []
    ensures from < to && q[0] == Packet(Psn(from), row[from])
    ensures Carries(q[1..], row, from + 1, to)
  {
    assert q[0] == Packet(Psn(from + 0), row[from + 0]);
    forall k | 0 <= k < |q| - 1
      ensures q[1..][k] == Packet(Psn(from + 1 + k), row[from + 1 + k])
    {
      assert q[1..][k] == q[k + 1];
    }
  }

  lemma CarriesMore(q: seq<Packet>, row: seq<Payload>, from: nat, to: nat)
    requires Carries(q, row, from, to) && to < |row|
    ensures Carries(q + [Packet(Psn(to), row[to])], row, from, to + 1)
  {
  }

  /** The window in packets: no worker is more than `ring * chunk` packets ahead of its results. */
  lemma WindowBound(c: Config, sent: seq<nat>, got: seq<seq<Payload>>, i: nat)
    requires c.Programmed() && |sent| == |got| && WindowOk(c, sent, got) && i < |sent|
    ensures sent[i] <= |got[i]| + c.ring * c.chunk
  {
    var g, k := |got[i]|, c.chunk;
    assert (g / k + c.ring) * k == g / k * k + c.ring * k;
    DivMul(g, k);
  }

  lemma DivMul(g: nat, k: nat)
    requires k > 0
    ensures g / k * k <= g < (g / k + 1) * k
  {
    assert g == g / k * k + g % k;
    assert (g / k + 1) * k == g / k * k + k;
  }

  lemma SendWindow(c: Config, sent: seq<nat>, got: seq<seq<Payload>>, i: nat)
    requires c.Programmed() && |sent| == |got| && WindowOk(c, sent, got) && i < |sent|
    requires sent[i] / c.chunk < |got[i]| / c.chunk + c.ring
    ensures WindowOk(c, sent[i := sent[i] + 1], got)
  {
    DivMul(sent[i], c.chunk);
    MulMono(sent[i] / c.chunk + 1, |got[i]| / c.chunk + c.ring, c.chunk);
  }

  lemma UpMore(c: Config, up: seq<seq<Packet>>, done: seq<nat>, sent: seq<nat>, i: nat)
    requires |up| == |sent| == c.Workers() < |done| && UpOk(c, up, done, sent)
    requires i < |up| && sent[i] < |c.input[i]|
    ensures UpOk(c, up[i := up[i] + [Packet(Psn(sent[i]), c.input[i][sent[i]])]], done, sent[i := sent[i] + 1])
  {
    CarriesMore(up[i], c.input[i], done[i], sent[i]);
  }

  lemma SendInv(c: Config, s: State, h: History, i: nat)
    requires c.Programmed() && SysInv(c, s, h) && Enabled(c, s, Send(i))
    ensures SysInv(c, Apply(c, s, Send(i)), h)
  {
    hide Inv, UpOk, HopOk, ResultsOk, WindowOk;
    UpMore(c, s.up, h.done, s.sent, i);
    SendWindow(c, s.sent, s.got, i);
  }

  lemma MulMono(a: nat, b: nat, k: nat)
    requires a <= b
    ensures a * k <= b * k
  {
  }

  lemma Counters0(c: Config, p: Pipe, h: Progress)
    requires c.Programmed() && Pipe0Ok(c, p, h) && c.On0() != {}
    ensures Counters(c.Stage0(), h)
  {
  }

  lemma Counters3(c: Config, p: Pipe, h: Progress)
    requires c.Programmed() && Pipe3Ok(c, p, h) && c.On3() != {}
    ensures Counters(c.Stage3(), h)
  {
  }

  /** Nothing is released that both pipes in use have not cleared. */
  lemma ReleasedBehind(c: Config, s: State, h: History)
    requires c.Programmed() && SysInv(c, s, h)
    ensures c.On0() != {} ==> h.Released(c) <= h.cleared0
    ensures c.On3() != {} ==> h.Released(c) == h.cleared3
  {
    hide Inv, UpOk, ResultsOk, WindowOk;
    if c.Connected() {
      Counters3(c, s.pipe3, h.P3());
      assert c.Workers() in c.Stage3().members;
    }
  }

  /** What the links say about worker `i`. */
  lemma WorkerLinks(c: Config, s: State, h: History, i: nat)
    requires c.Programmed() && SysInv(c, s, h) && i < c.Workers()
    ensures h.done[i] + |s.up[i]| == s.sent[i] <= c.packets
    ensures |s.got[i]| + |s.down[i]| == h.Released(c)
    ensures s.sent[i] <= h.Released(c) + c.ring * c.chunk
  {
    hide Inv, HopOk;
    WindowBound(c, s.sent, s.got, i);
    assert Carries(s.up[i], c.input[i], h.done[i], s.sent[i]);
    assert Carries(s.down[i], c.Results(), |s.got[i]|, h.Released(c));
  }

  /** Fewer than 256 packets lie between a worker's first passes and the second passes of its pipe. */
  lemma WorkerInWindow(c: Config, s: State, h: History, i: nat)
    requires c.Valid() && SysInv(c, s, h) && i < c.Workers() && s.up[i] != []
    ensures h.done[i] < s.sent[i] <= c.packets
    ensures h.done[i] < (if c.onPipe0[i] then h.cleared0 else h.cleared3) + SLOTS
  {
    hide Inv, UpOk, HopOk, ResultsOk, WindowOk;
    WorkerLinks(c, s, h, i);
    ReleasedBehind(c, s, h);
    if c.onPipe0[i] { assert i in c.On0(); } else { assert i in c.On3(); }
  }

  lemma HopInWindow(c: Config, s: State, h: History)
    requires c.Valid() && SysInv(c, s, h) && c.Connected() && s.hop != []
    ensures h.done[c.Workers()] < h.cleared3 + SLOTS
  {
    hide Inv, UpOk, HopOk, ResultsOk, WindowOk;
    HopTaken(c, s.hop, h.done[c.Workers()], h.cleared0);
    Counters0(c, s.pipe0, h.P0());
    var i :| i in c.On0() && h.done[i] == h.completed0;
    WorkerLinks(c, s, h, i);
  }

  /** History after a first pass of feeder `f` on pipe 0 or on pipe 3. */
  ghost function After0(c: Config, h: History, f: nat): (r: History)
    requires c.Programmed() && c.On0() != {} && Counters(c.Stage0(), h.P0()) && f in c.Stage0().members
    ensures r == h.(done := h.done[f := h.done[f] + 1], completed0 := r.completed0)
  {
    var p := AfterFirst(c.Stage0(), h.P0(), f);
    h.(done := p.done, completed0 := p.completed)
  }

  ghost function After3(c: Config, h: History, f: nat): (r: History)
    requires c.Programmed() && c.On3() != {} && Counters(c.Stage3(), h.P3()) && f in c.Stage3().members
    ensures r == h.(done := h.done[f := h.done[f] + 1], completed3 := r.completed3)
  {
    var p := AfterFirst(c.Stage3(), h.P3(), f);
    h.(done := p.done, completed3 := p.completed)
  }

  /** The next packet on worker `i`'s link is its next contribution. */
  lemma UpNext(c: Config, up: seq<seq<Packet>>, done: seq<nat>, sent: seq<nat>, i: nat)
    requires |up| == |sent| == c.Workers() < |done| && UpOk(c, up, done, sent)
    requires i < |up| && up[i] != [] && i < |c.input|
    ensures done[i] < |c.input[i]| && up[i][0] == Packet(Psn(done[i]), c.input[i][done[i]])
  {
    CarriesTail(up[i], c.input[i], done[i], sent[i]);
  }

  lemma UpTaken(c: Config, up: seq<seq<Packet>>, done: seq<nat>, sent: seq<nat>, i: nat)
    requires |up| == |sent| == c.Workers() < |done| && UpOk(c, up, done, sent)
    requires i < |up| && up[i] != []
    ensures UpOk(c, up[i := up[i][1..]], done[i := done[i] + 1], sent)
  {
    CarriesTail(up[i], c.input[i], done[i], sent[i]);
  }

  /** A feeder of pipe 0 takes its first pass there ... */
  lemma Pipe0First(c: Config, p: Pipe, h: History, f: nat, pkt: Packet)
    requires c.Programmed() && |h.done| == c.Workers() + 1 && c.On0() != {}
    requires Pipe0Ok(c, p, h.P0())
    requires f < c.Workers() && f in c.On0() && CanContribute(c.Stage0(), h.P0(), f, pkt)
    ensures Pipe0Ok(c, FirstPass(p, c.bit[f], c.full0, pkt), After0(c, h, f).P0())
  {
    var g := c.Stage0();
    FirstPassInv(g, p, h.P0(), f, pkt);
    assert AfterFirst(g, h.P0(), f) == After0(c, h, f).P0();
  }

  /** ... and pipe 3 is not affected. */
  lemma Pipe3Frame(c: Config, p: Pipe, h: Progress, f: nat, k: nat)
    requires c.Programmed() && |h.done| == c.Workers() + 1 && Pipe3Ok(c, p, h)
    requires f in c.On0()
    ensures Pipe3Ok(c, p, h.(done := h.done[f := k]))
  {
    if c.On3() != {} { OtherFeeder(c.Stage3(), p, h, f, k); }
  }

  /** A feeder of pipe 3 takes its first pass there ... */
  lemma Pipe3First(c: Config, p: Pipe, h: History, f: nat, pkt: Packet)
    requires c.Programmed() && |h.done| == c.Workers() + 1 && c.On3() != {}
    requires Pipe3Ok(c, p, h.P3())
    requires f in c.Stage3().members && CanContribute(c.Stage3(), h.P3(), f, pkt)
    ensures Pipe3Ok(c, FirstPass(p, c.Stage3().bit[f], c.full3, pkt), After3(c, h, f).P3())
  {
    var g := c.Stage3();
    c.Stage3Full();
    FirstPassInv(g, p, h.P3(), f, pkt);
    assert AfterFirst(g, h.P3(), f) == After3(c, h, f).P3();
  }

  /** ... and pipe 0 is not affected. */
  lemma Pipe0Frame(c: Config, p: Pipe, h: Progress, f: nat, k: nat)
    requires c.Programmed() && |h.done| == c.Workers() + 1 && Pipe0Ok(c, p, h)
    requires f < |h.done| && f !in c.On0()
    ensures Pipe0Ok(c, p, h.(done := h.done[f := k]))
  {
    if c.On0() != {} { OtherFeeder(c.Stage0(), p, h, f, k); }
  }

  lemma First0Inv(c: Config, s: State, h: History, i: nat)
    requires c.Valid() && SysInv(c, s, h) && Enabled(c, s, First(i)) && c.onPipe0[i]
    ensures i in c.On0() && Counters(c.Stage0(), h.P0())
    ensures SysInv(c, Apply(c, s, First(i)), After0(c, h, i))
  {
    hide Inv, UpOk, HopOk, ResultsOk, WindowOk, Serves, After0, FirstPass;
    assert i in c.On0();
    Counters0(c, s.pipe0, h.P0());
    UpNext(c, s.up, h.done, s.sent, i);
    WorkerInWindow(c, s, h, i);
    Pipe0First(c, s.pipe0, h, i, s.up[i][0]);
    Pipe3Frame(c, s.pipe3, h.P3(), i, h.done[i] + 1);
    UpTaken(c, s.up, h.done, s.sent, i);
    assert After0(c, h, i).Released(c) == h.Released(c);
  }

  lemma First3Inv(c: Config, s: State, h: History, i: nat)
    requires c.Valid() && SysInv(c, s, h) && Enabled(c, s, First(i)) && !c.onPipe0[i]
    ensures i in c.On3() && Counters(c.Stage3(), h.P3())
    ensures SysInv(c, Apply(c, s, First(i)), After3(c, h, i))
  {
    hide Inv, UpOk, HopOk, ResultsOk, WindowOk, Serves, After3, FirstPass;
    assert i in c.On3();
    Counters3(c, s.pipe3, h.P3());
    UpNext(c, s.up, h.done, s.sent, i);
    WorkerInWindow(c, s, h, i);
    Pipe3First(c, s.pipe3, h, i, s.up[i][0]);
    Pipe0Frame(c, s.pipe0, h.P0(), i, h.done[i] + 1);
    UpTaken(c, s.up, h.done, s.sent, i);
    assert After3(c, h, i).Released(c) == h.Released(c);
  }

  /** The next hop packet is pipe 0's next result. */
  lemma HopTaken(c: Config, hop: seq<Packet>, done: nat, cleared0: nat)
    requires c.Programmed() && HopOk(c, hop, done, cleared0) && hop != []
    ensures c.Connected() && done < cleared0 <= c.packets && hop[0] == Packet(Psn(done), c.HopRow()[done])
    ensures HopOk(c, hop[1..], done + 1, cleared0)
  {
    CarriesTail(hop, c.HopRow(), done, cleared0);
  }

  lemma HopInv(c: Config, s: State, h: History)
    requires c.Valid() && SysInv(c, s, h) && Enabled(c, s, Hop)
    ensures c.Connected() && Counters(c.Stage3(), h.P3()) && c.Workers() in c.Stage3().members
    ensures SysInv(c, Apply(c, s, Hop), After3(c, h, c.Workers()))
  {
    hide Inv, UpOk, HopOk, ResultsOk, WindowOk, Serves, After3, FirstPass;
    var m := c.Workers();
    HopTaken(c, s.hop, h.done[m], h.cleared0);
    assert m in c.Stage3().members;
    Counters3(c, s.pipe3, h.P3());
    HopInWindow(c, s, h);
    Pipe3First(c, s.pipe3, h, m, s.hop[0]);
    Pipe0Frame(c, s.pipe0, h.P0(), m, h.done[m] + 1);
    UpKept(c, s.up, h.done, After3(c, h, m).done, s.sent);
    assert After3(c, h, m).Released(c) == h.Released(c);
  }

  lemma UpKept(c: Config, up: seq<seq<Packet>>, done: seq<nat>, done': seq<nat>, sent: seq<nat>)
    requires |up| == |sent| == c.Workers() < |done| == |done'| && UpOk(c, up, done, sent)
    requires forall i | 0 <= i < c.Workers() :: done'[i] == done[i]
    ensures UpOk(c, up, done', sent)
  {
  }

  lemma Pipe0Clear(c: Config, p: Pipe, h: History)
    requires c.Programmed() && Pipe0Ok(c, p, h.P0()) && p.Shaped() && p.recirc != []
    ensures c.On0() != {} && h.cleared0 < c.packets
    ensures Pipe0Ok(c, ClearPass(p), h.(cleared0 := h.cleared0 + 1).P0())
    ensures ClearOutput(p) == Packet(Psn(h.cleared0), c.Stage0().Total(h.cleared0))
  {
    ClearPassInv(c.Stage0(), p, h.P0());
  }

  lemma Pipe3Clear(c: Config, p: Pipe, h: History)
    requires c.Programmed() && Pipe3Ok(c, p, h.P3()) && p.Shaped() && p.recirc != []
    ensures c.On3() != {} && h.cleared3 < c.packets
    ensures Pipe3Ok(c, ClearPass(p), h.(cleared3 := h.cleared3 + 1).P3())
    ensures ClearOutput(p) == Packet(Psn(h.cleared3), c.Stage3().Total(h.cleared3))
  {
    ClearPassInv(c.Stage3(), p, h.P3());
  }

  lemma Clear0Inv(c: Config, s: State, h: History)
    requires c.Programmed() && SysInv(c, s, h) && Enabled(c, s, Clear0)
    ensures SysInv(c, Apply(c, s, Clear0), h.(cleared0 := h.cleared0 + 1))
  {
    hide Inv, UpOk, ResultsOk, WindowOk, ClearPass, ClearOutput;
    Pipe0Clear(c, s.pipe0, h);
    if c.Connected() {
      CarriesMore(s.hop, c.HopRow(), h.done[c.Workers()], h.cleared0);
    } else {
      assert c.On3() == {};
      FanOutOk(c, s.down, s.got, h.cleared0, ClearOutput(s.pipe0));
    }
  }

  lemma Clear3Inv(c: Config, s: State, h: History)
    requires c.Programmed() && SysInv(c, s, h) && Enabled(c, s, Clear3)
    ensures SysInv(c, Apply(c, s, Clear3), h.(cleared3 := h.cleared3 + 1))
  {
    hide Inv, UpOk, HopOk, ResultsOk, WindowOk, ClearPass, ClearOutput;
    Pipe3Clear(c, s.pipe3, h);
    FanOutOk(c, s.down, s.got, h.cleared3, ClearOutput(s.pipe3));
  }

  lemma FanOutOk(c: Config, down: seq<seq<Packet>>, got: seq<seq<Payload>>, n: nat, out: Packet)
    requires c.Programmed() && |down| == |got| && ResultsOk(c, down, got, n) && n < c.packets
    requires out == Packet(Psn(n), c.Last().Total(n))
    ensures ResultsOk(c, FanOut(down, out), got, n + 1)
  {
    c.LastTotal(n);
    forall i | 0 <= i < |got|
      ensures Carries(FanOut(down, out)[i], c.Results(), |got[i]|, n + 1)
    {
      CarriesMore(down[i], c.Results(), |got[i]|, n);
    }
  }

  lemma DeliverWindow(c: Config, sent: seq<nat>, got: seq<seq<Payload>>, i: nat, r: Payload)
    requires c.Programmed() && |sent| == |got| && WindowOk(c, sent, got) && i < |sent|
    ensures WindowOk(c, sent, got[i := got[i] + [r]])
  {
    var g := |got[i]|;
    DivMono(g, c.chunk);
    MulMono(g / c.chunk + c.ring, (g + 1) / c.chunk + c.ring, c.chunk);
  }

  /** A delivered result is the one the worker expects next, and its receive is posted. */
  lemma DeliverResults(c: Config, s: State, released: nat, i: nat)
    requires c.Programmed() && s.Shaped(c) && ResultsOk(c, s.down, s.got, released)
    requires i < c.Workers() && s.down[i] != [] && released <= s.sent[i]
    ensures Accept(s.got[i], s.sent[i], s.down[i][0]) == s.got[i] + [s.down[i][0].data]
    ensures ResultsOk(c, s.down[i := s.down[i][1..]], s.got[i := s.got[i] + [s.down[i][0].data]], released)
  {
    var g := |s.got[i]|;
    CarriesTail(s.down[i], c.Results(), g, released);
    assert s.got[i] + [s.down[i][0].data] == c.Results()[..g + 1];
  }

  lemma DeliverInv(c: Config, s: State, h: History, i: nat)
    requires c.Programmed() && SysInv(c, s, h) && Enabled(c, s, Deliver(i))
    ensures SysInv(c, Apply(c, s, Deliver(i)), h)
    ensures Apply(c, s, Deliver(i)).got[i] == s.got[i] + [s.down[i][0].data]
  {
    hide Inv, UpOk, HopOk, ResultsOk, WindowOk;
    ContributedFirst(c, s, h, i);
    DeliverResults(c, s, h.Released(c), i);
    DeliverWindow(c, s.sent, s.got, i, s.down[i][0].data);
  }

  lemma DivMono(g: nat, k: nat)
    requires k > 0
    ensures g / k <= (g + 1) / k
  {
    DivMul(g, k);
    DivMul(g + 1, k);
    if (g + 1) / k < g / k {
      MulMono((g + 1) / k + 1, g / k, k);
    }
  }

  /** No result is released before every worker has contributed to it. */
  lemma ContributedFirst(c: Config, s: State, h: History, i: nat)
    requires c.Programmed() && SysInv(c, s, h) && i < c.Workers()
    ensures h.Released(c) <= h.done[i] <= s.sent[i]
  {
    hide Inv, UpOk, HopOk, ResultsOk, WindowOk;
    WorkerLinks(c, s, h, i);
    ReleasedBehind(c, s, h);
    if c.onPipe0[i] {
      assert i in c.On0();
      Counters0(c, s.pipe0, h.P0());
    } else {
      assert i in c.On3();
      Counters3(c, s.pipe3, h.P3());
    }
  }

  lemma StepInv(c: Config, s: State, h: History, e: Event) returns (h': History)
    requires c.Valid() && SysInv(c, s, h) && Enabled(c, s, e)
    ensures SysInv(c, Apply(c, s, e), h')
  {
    hide SysInv, Apply, After0, After3;
    match e
    case Send(i) =>
      SendInv(c, s, h, i);
      h' := h;
    case First(i) =>
      if c.onPipe0[i] {
        First0Inv(c, s, h, i);
        h' := After0(c, h, i);
      } else {
        First3Inv(c, s, h, i);
        h' := After3(c, h, i);
      }
    case Clear0 =>
      Clear0Inv(c, s, h);
      h' := h.(cleared0 := h.cleared0 + 1);
    case Hop =>
      HopInv(c, s, h);
      h' := After3(c, h, c.Workers());
    case Clear3 =>
      Clear3Inv(c, s, h);
      h' := h.(cleared3 := h.cleared3 + 1);
    case Deliver(i) =>
      DeliverInv(c, s, h, i);
      h' := h;
  }
}
