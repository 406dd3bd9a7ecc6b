/** Runs of clients and switch together: every step keeps what is true of every worker's memory, and
the packets on the network are a run of the slot protocol. */
module ClusterRuns {
  import opened Payloads
  import opened ByteOrder
  import opened ClientWindow
  import opened ClientSchedule
  import opened ClientBuffers
  import opened Cluster
  import opened ClusterInvariant
  import A = Aggregator
  import P = SlotProtocol
  import I = SlotInvariant
  import T = SlotTheorems

  ghost predicate NetShaped(plan: Plan, s: State) {
    && s.net.Shaped(plan.c) && |s.hosts| == |s.wire| == plan.c.Workers()
    && (forall i | 0 <= i < |s.wire| :: |s.wire[i]| == s.net.sent[i])
  }

  ghost predicate Inv(plan: Plan, s: State)
    requires plan.Valid()
  {
    && NetShaped(plan, s)
    && (forall i | 0 <= i < |s.hosts| :: HostInv(plan, i, s.hosts[i], s.wire[i], s.net.got[i]))
  }

  lemma InvShaped(plan: Plan, s: State)
    requires plan.Valid() && Inv(plan, s)
    ensures Shaped(plan, s)
  {
    hide HostLocated, HostShaped, Sending, Landed, StoredCalls, WireOk, Plan.Valid, Base;
  }

  lemma HostOf(plan: Plan, s: State, i: nat)
    requires plan.Valid() && Inv(plan, s) && i < |s.hosts|
    ensures plan.JobsOk() && HostShaped(plan, i, s.hosts[i])
    ensures s.hosts[i].call <= |plan.counts| && At(RING) <= BUF_WORDS <= |s.hosts[i].buf|
    ensures i < |plan.jobs| == |s.wire| == |s.net.got| == |s.net.sent| == |s.hosts|
    ensures HostInv(plan, i, s.hosts[i], s.wire[i], s.net.got[i]) && |s.wire[i]| == s.net.sent[i]
    ensures Within(plan.Count(s.hosts[i].call), s.hosts[i].n)
    ensures PER_CHUNK * (Base(plan.counts, s.hosts[i].call) + s.hosts[i].n.received) <= |s.net.got[i]|
    ensures PER_CHUNK * Base(plan.counts, s.hosts[i].call) <= s.net.sent[i]
    ensures PER_CHUNK * Base(plan.counts, s.hosts[i].call) <= |s.net.got[i]|
  {
    hide Sending, Landed, StoredCalls, WireOk, Base;
  }

  lemma DeliverReady(plan: Plan, s: State, i: nat)
    requires plan.Valid() && Shaped(plan, s) && Can(plan, s, Net(P.Deliver(i)))
    ensures i < |s.hosts| == |s.net.down| && s.net.down[i] != []
  {
  }

  lemma StartOk(plan: Plan, s: State)
    requires plan.Valid() && IsStart(plan, s)
    ensures Inv(plan, s)
  {
    hide P.Config.Valid, HostShaped, Chunks;
    forall i | 0 <= i < |s.hosts|
      ensures HostInv(plan, i, s.hosts[i], s.wire[i], s.net.got[i])
    {
      HostStart(plan, i, s.hosts[i]);
    }
  }

  lemma HostStart(plan: Plan, i: nat, h: Host)
    requires plan.JobsOk() && i < |plan.jobs| && HostShaped(plan, i, h) && h.call == 0 && h.n == Counts(0, 0, 0)
    ensures HostInv(plan, i, h, [], [])
  {
    hide Filled, Chunks, Results, Stored;
    if |plan.counts| > 0 { StoredNone(plan.counts[0], h.dbufs[0], Results([], 0, plan.counts[0])); }
  }

  lemma HostStep(plan: Plan, s: State, i: nat, h: Host)
    requires plan.Valid() && Inv(plan, s) && i < |s.hosts| && HostInv(plan, i, h, s.wire[i], s.net.got[i])
    ensures Inv(plan, s.(hosts := s.hosts[i := h]))
  {
    hide HostInv, Plan.Valid;
  }

  lemma SendStep(plan: Plan, s: State, i: nat, p: Payload)
    requires plan.Valid() && Inv(plan, s) && i < |s.hosts| && HostInv(plan, i, s.hosts[i], s.wire[i] + [p], s.net.got[i])
    ensures Inv(plan, s.(net := SendNet(s.net, i, p), wire := s.wire[i := s.wire[i] + [p]]))
  {
    hide HostInv, Plan.Valid;
  }

  lemma DeliverStep(plan: Plan, s: State, i: nat, h: Host, takes: bool)
    requires plan.Valid() && Inv(plan, s) && i < |s.hosts| && s.net.down[i] != []
    requires takes ==> HostInv(plan, i, h, s.wire[i], s.net.got[i] + [s.net.down[i][0].data])
    ensures Inv(plan, s.(net := DeliverNet(s.net, i, takes), hosts := if takes then s.hosts[i := h] else s.hosts))
  {
    hide HostInv, Plan.Valid;
  }

  lemma SwitchStep(plan: Plan, s: State, e: P.Event)
    requires plan.Valid() && Inv(plan, s) && !e.Send? && !e.Deliver? && P.Enabled(plan.c, s.net, e)
    ensures Inv(plan, s.(net := P.Apply(plan.c, s.net, e)))
  {
    SwitchKeeps(plan.c, s.net, e);
    hide HostInv, Plan.Valid, P.Apply, P.Enabled;
  }

  lemma SwitchKeeps(c: P.Config, s: P.State, e: P.Event)
    requires c.Programmed() && s.Shaped(c) && P.Enabled(c, s, e) && !e.Send? && !e.Deliver?
    ensures P.Apply(c, s, e).sent == s.sent && P.Apply(c, s, e).got == s.got && P.Apply(c, s, e).Shaped(c)
  {
    hide A.FirstPass, A.ClearPass, A.ClearOutput;
  }

  lemma StepOk(plan: Plan, s: State, a: Step)
    requires plan.Valid() && Inv(plan, s) && Shaped(plan, s) && Can(plan, s, a)
    ensures Inv(plan, Do(plan, s, a))
  {
    hide Inv, HostInv, HostLocated, HostShaped, Shaped, Chunks, Base, P.Apply, SendAt, ReadPacket, Plan.Valid, PostHost, StoreHost, LandHost, SendNet, DeliverNet;
    match a
    case Post(i) =>
      HostOf(plan, s, i);
      PostOk(plan, i, s.hosts[i], s.wire[i], s.net.got[i]);
      HostStep(plan, s, i, PostHost(plan, i, s.hosts[i]));
    case SendDone(i) =>
      HostOf(plan, s, i);
      SendDoneOk(plan, i, s.hosts[i], s.wire[i], s.net.got[i]);
      HostStep(plan, s, i, s.hosts[i].(n := s.hosts[i].n.(sent := s.hosts[i].n.sent + 1)));
    case RecvDone(i) =>
      HostOf(plan, s, i);
      RecvDoneOk(plan, i, s.hosts[i], s.wire[i], s.net.got[i]);
      HostStep(plan, s, i, StoreHost(plan, i, s.hosts[i]));
    case Next(i) =>
      HostOf(plan, s, i);
      NextOk(plan, i, s.hosts[i], s.wire[i], s.net.got[i]);
      HostStep(plan, s, i, s.hosts[i].(call := s.hosts[i].call + 1, n := Counts(0, 0, 0)));
    case Net(Send(i)) =>
      HostOf(plan, s, i);
      SentOk(plan, i, s.hosts[i], s.wire[i], s.net.got[i]);
      SendStep(plan, s, i, ReadPacket(s.hosts[i].buf, SendAt(Base(plan.counts, s.hosts[i].call), s.net.sent[i])));
    case Net(Deliver(i)) =>
      DeliverReady(plan, s, i);
      HostOf(plan, s, i);
      var h, pkt := s.hosts[i], s.net.down[i][0];
      var takes := Takes(s.net.got[i], Base(plan.counts, h.call) + h.n.posted, pkt);
      if takes { LandOk(plan, i, h, s.wire[i], s.net.got[i], pkt.data); }
      DeliverStep(plan, s, i, LandHost(plan, i, h, |s.net.got[i]|, pkt.data), takes);
    case Net(e) =>
      SwitchStep(plan, s, e);
  }

  /** Any enabled step may come next. */
  ghost predicate IsRun(plan: Plan, s: State, es: seq<Step>)
    requires plan.Valid() && Inv(plan, s)
    decreases es
  {
    InvShaped(plan, s);
    es == [] || (Can(plan, s, es[0]) && (StepOk(plan, s, es[0]); IsRun(plan, Do(plan, s, es[0]), es[1..])))
  }

  ghost function Exec(plan: Plan, s: State, es: seq<Step>): (s': State)
    requires plan.Valid() && Inv(plan, s) && IsRun(plan, s, es)
    ensures Inv(plan, s')
    decreases es
  {
    hide Inv, Can, Do;
    InvShaped(plan, s);
    if es == [] then s else
      StepOk(plan, s, es[0]);
      Exec(plan, Do(plan, s, es[0]), es[1..])
  }

  /** The slot protocol whose packets carry what the workers put on the network. */
  ghost predicate Carrying(plan: Plan, c: P.Config, wire: seq<seq<Payload>>) {
    && c == plan.c.(input := c.input) && c.Valid()
    && |wire| == |c.input| && (forall i | 0 <= i < |wire| :: wire[i] <= c.input[i])
  }

  lemma {:induction false} WireGrows(plan: Plan, s: State, es: seq<Step>)
    requires plan.Valid() && Inv(plan, s) && IsRun(plan, s, es)
    ensures |Exec(plan, s, es).wire| == |s.wire|
    ensures forall i | 0 <= i < |s.wire| :: s.wire[i] <= Exec(plan, s, es).wire[i]
    decreases es
  {
    hide Inv, Plan.Valid;
    InvShaped(plan, s);
    if es != [] {
      StepOk(plan, s, es[0]);
      StepWire(plan, s, es[0]);
      var s1 := Do(plan, s, es[0]);
      WireGrows(plan, s1, es[1..]);
      forall i | 0 <= i < |s.wire|
        ensures s.wire[i] <= Exec(plan, s, es).wire[i]
      {
        assert s.wire[i] <= s1.wire[i] <= Exec(plan, s1, es[1..]).wire[i];
      }
    }
  }

  lemma StepWire(plan: Plan, s: State, a: Step)
    requires plan.Valid() && Shaped(plan, s) && Can(plan, s, a)
    ensures |Do(plan, s, a).wire| == |s.wire|
    ensures forall i | 0 <= i < |s.wire| :: s.wire[i] <= Do(plan, s, a).wire[i]
  {
    hide Plan.Valid, HostShaped, HostLocated, P.Apply, P.Enabled, Base, SendAt, ReadPacket, PostHost, StoreHost, LandHost, SendNet, DeliverNet;
  }

  /** What the switch does does not depend on what the packets carry. */
  lemma SameSwitch(c: P.Config, d: P.Config, s: P.State, e: P.Event)
    requires c.Programmed() && d.Programmed() && d == c.(input := d.input) && |d.input| == |c.input| && s.Shaped(c)
    requires !e.Send?
    ensures P.Enabled(d, s, e) <==> P.Enabled(c, s, e)
    ensures P.Enabled(c, s, e) ==> P.Apply(d, s, e) == P.Apply(c, s, e)
  {
    hide A.FirstPass, A.ClearPass, A.ClearOutput, P.FanOut, P.Accept;
    assert c.On0() == d.On0() && c.On3() == d.On3();
  }

  /** The window of the ring loop is the one the slot protocol needs: what a worker may put on the
      network next, the protocol lets it send. */
  lemma SendAllowed(plan: Plan, s: State, i: nat)
    requires plan.Valid() && Inv(plan, s) && Shaped(plan, s) && Can(plan, s, Net(P.Send(i)))
    ensures P.Enabled(plan.c, s.net, P.Send(i))
  {
    hide Inv, HostInv, P.Config.Valid, P.Config.Programmed, Plan.JobsOk, HostShaped, HostLocated, Chunks, Base;
    HostOf(plan, s, i);
    var h := s.hosts[i];
    var b := Base(plan.counts, h.call);
    PostedBelow(plan, i, h);
    SendWindow(b, h.n, s.net.sent[i], |s.net.got[i]|);
  }

  lemma SendWindow(b: nat, n: Counts, sent: nat, got: nat)
    requires sent < PER_CHUNK * (b + n.posted) && n.posted <= n.received + RING && PER_CHUNK * (b + n.received) <= got
    ensures sent / PER_CHUNK < got / PER_CHUNK + RING
  {
  }

  lemma PostedBelow(plan: Plan, i: nat, h: Host)
    requires HostShaped(plan, i, h) && h.n.posted <= Chunks(plan.Count(h.call))
    ensures Base(plan.counts, h.call) + h.n.posted <= Base(plan.counts, |plan.counts|)
  {
    hide Chunks;
    if h.call < |plan.counts| { BaseMono(plan.counts, h.call + 1, |plan.counts|); } else { NoChunks(plan, h.call); }
  }

  lemma NoChunks(plan: Plan, j: nat)
    requires j >= |plan.counts|
    ensures Chunks(plan.Count(j)) == 0
  {
  }

  lemma SendSame(plan: Plan, c: P.Config, s: State, i: nat, p: Payload)
    requires plan.Valid() && Inv(plan, s) && i < |s.hosts| && P.Enabled(plan.c, s.net, P.Send(i))
    requires Carrying(plan, c, s.wire[i := s.wire[i] + [p]])
    ensures P.Enabled(c, s.net, P.Send(i)) && P.Apply(c, s.net, P.Send(i)) == SendNet(s.net, i, p)
  {
    hide HostInv, P.Config.Valid, P.Config.Programmed, Plan.JobsOk;
    var wire' := s.wire[i := s.wire[i] + [p]];
    assert wire'[i] <= c.input[i];
    assert wire'[i][s.net.sent[i]] == p;
  }

  /** The packet at the head of a worker's link is its next result, to which it has contributed. */
  lemma NextResult(c: P.Config, s: P.State, h: P.History, i: nat)
    requires c.Programmed() && P.SysInv(c, s, h) && i < c.Workers() && s.down[i] != []
    ensures s.down[i][0].psn == A.Psn(|s.got[i]|) && |s.got[i]| < s.sent[i]
    ensures P.Accept(s.got[i], s.sent[i], s.down[i][0]) == s.got[i] + [s.down[i][0].data]
  {
    hide A.Inv, P.UpOk, P.HopOk, P.WindowOk, P.Config.Programmed;
    I.ContributedFirst(c, s, h, i);
    I.DeliverResults(c, s, h.Released(c), i);
    I.CarriesTail(s.down[i], c.Results(), |s.got[i]|, h.Released(c));
  }

  lemma DeliverSame(c: P.Config, s: P.State, i: nat)
    requires c.Programmed() && s.Shaped(c) && i < c.Workers() && s.down[i] != []
    requires P.Accept(s.got[i], s.sent[i], s.down[i][0]) == s.got[i] + [s.down[i][0].data]
    ensures P.Enabled(c, s, P.Deliver(i)) && P.Apply(c, s, P.Deliver(i)) == DeliverNet(s, i, true)
  {
    hide P.Accept, P.Config.Programmed;
  }

  /** A receive is posted for every result that arrives, so the adapter takes it. */
  lemma DeliverTakes(plan: Plan, c: P.Config, s: State, h: P.History, i: nat)
    requires plan.Valid() && Inv(plan, s) && i < |s.hosts| && |s.hosts| == |s.net.down| && s.net.down[i] != []
    requires c.Programmed() && P.SysInv(c, s.net, h)
    ensures s.hosts[i].call <= |plan.counts| && i < |s.net.got|
    ensures Takes(s.net.got[i], Base(plan.counts, s.hosts[i].call) + s.hosts[i].n.posted, s.net.down[i][0])
    ensures P.Enabled(c, s.net, P.Deliver(i)) && P.Apply(c, s.net, P.Deliver(i)) == DeliverNet(s.net, i, true)
  {
    hide Inv, A.Inv, P.Pipe0Ok, P.Pipe3Ok, P.UpOk, P.HopOk, P.ResultsOk, P.WindowOk, Sending, Landed, StoredCalls, WireOk, Chunks, Base, P.Config.Programmed, Plan.Valid, P.Accept, P.Enabled, P.Apply, DeliverNet;
    HostOf(plan, s, i);
    NextResult(c, s.net, h, i);
    DeliverSame(c, s.net, i);
  }

  /** Every step on the network is a step of the slot protocol, every other step none. */
  lemma NetStep(plan: Plan, c: P.Config, s: State, h: P.History, a: Step) returns (h': P.History)
    requires plan.Valid() && Inv(plan, s) && Shaped(plan, s) && Can(plan, s, a)
    requires Carrying(plan, c, Do(plan, s, a).wire) && P.SysInv(c, s.net, h)
    ensures a.Net? ==> P.Enabled(c, s.net, a.e) && Do(plan, s, a).net == P.Apply(c, s.net, a.e)
    ensures !a.Net? ==> Do(plan, s, a).net == s.net
    ensures P.SysInv(c, Do(plan, s, a).net, h')
    ensures T.Work(c, Do(plan, s, a).net, h') == T.Work(c, s.net, h) + (if a.Net? then 1 else 0)
  {
    hide Inv, HostInv, HostLocated, HostShaped, Plan.JobsOk, Chunks, Base, P.SysInv, P.Apply, P.Enabled, P.Config.Valid, T.Work;
    hide SendAt, ReadPacket, PostHost, StoreHost, LandHost, SendNet, DeliverNet, Takes;
    h' := h;
    match a
    case Net(Send(i)) =>
      HostOf(plan, s, i);
      SendAllowed(plan, s, i);
      SendSame(plan, c, s, i, ReadPacket(s.hosts[i].buf, SendAt(Base(plan.counts, s.hosts[i].call), s.net.sent[i])));
      h' := T.StepWork(c, s.net, h, P.Send(i));
    case Net(Deliver(i)) =>
      DeliverReady(plan, s, i);
      ValidProgrammed(c);
      DeliverTakes(plan, c, s, h, i);
      h' := T.StepWork(c, s.net, h, P.Deliver(i));
    case Net(e) =>
      ValidProgrammed(c);
      ValidProgrammed(plan.c);
      SameSwitch(plan.c, c, s.net, e);
      h' := T.StepWork(c, s.net, h, e);
    case _ =>
  }

  lemma ValidProgrammed(c: P.Config)
    requires c.Valid()
    ensures c.Programmed()
  {
  }

  /** Posts, completions and finished calls of a worker. */
  function HostWork(plan: Plan, h: Host): nat {
    if h.call <= |plan.counts| then 3 * Base(plan.counts, h.call) + h.call + h.n.posted + h.n.sent + h.n.received else 0
  }

  function Works(plan: Plan, hosts: seq<Host>): (r: seq<nat>)
    ensures |r| == |hosts|
  {
    seq(|hosts|, i requires 0 <= i < |hosts| => HostWork(plan, hosts[i]))
  }

  lemma WorksUpdate(plan: Plan, hosts: seq<Host>, i: nat, h: Host)
    requires i < |hosts|
    ensures HostWork(plan, h) == HostWork(plan, hosts[i]) ==> Works(plan, hosts[i := h]) == Works(plan, hosts)
    ensures HostWork(plan, h) == HostWork(plan, hosts[i]) + 1 ==>
            T.SumOf(Works(plan, hosts[i := h])) == T.SumOf(Works(plan, hosts)) + 1
  {
    hide HostWork, T.SumOf;
    if HostWork(plan, h) == HostWork(plan, hosts[i]) + 1 {
      T.SumOfBump(Works(plan, hosts), i);
      assert Works(plan, hosts[i := h]) == Works(plan, hosts)[i := Works(plan, hosts)[i] + 1];
    }
  }

  lemma HostsWork(plan: Plan, i: nat, h: Host)
    requires plan.JobsOk() && HostShaped(plan, i, h) && i < |plan.jobs| && Within(plan.Count(h.call), h.n)
    ensures h.n.posted < Chunks(plan.Count(h.call)) ==> HostWork(plan, PostHost(plan, i, h)) == HostWork(plan, h) + 1
    ensures HostWork(plan, h.(n := h.n.(sent := h.n.sent + 1))) == HostWork(plan, h) + 1
    ensures h.n.received < Chunks(plan.Count(h.call)) ==> HostWork(plan, StoreHost(plan, i, h)) == HostWork(plan, h) + 1
    ensures h.call < |plan.counts| && h.n == Done(plan.Count(h.call)) ==>
              HostWork(plan, h.(call := h.call + 1, n := Counts(0, 0, 0))) == HostWork(plan, h) + 1
  {
    hide PostBuf, StoreBuf, Chunks;
  }

  /** Every step of a worker is one unit of its work. */
  lemma HostsStep(plan: Plan, s: State, a: Step)
    requires plan.Valid() && Inv(plan, s) && Shaped(plan, s) && Can(plan, s, a)
    ensures T.SumOf(Works(plan, Do(plan, s, a).hosts)) == T.SumOf(Works(plan, s.hosts)) + (if a.Net? then 0 else 1)
  {
    hide Inv, HostInv, HostLocated, HostShaped, Plan.Valid, Chunks, Base, P.Apply, P.Enabled, SendAt, ReadPacket, PostHost, StoreHost, LandHost, SendNet, DeliverNet, Takes, T.SumOf, Works, HostWork;
    if !a.Net? {
      HostOf(plan, s, a.i);
      HostsWork(plan, a.i, s.hosts[a.i]);
    }
    match a
    case Post(i) => WorksUpdate(plan, s.hosts, i, PostHost(plan, i, s.hosts[i]));
    case SendDone(i) => WorksUpdate(plan, s.hosts, i, s.hosts[i].(n := s.hosts[i].n.(sent := s.hosts[i].n.sent + 1)));
    case RecvDone(i) => WorksUpdate(plan, s.hosts, i, StoreHost(plan, i, s.hosts[i]));
    case Next(i) => WorksUpdate(plan, s.hosts, i, s.hosts[i].(call := s.hosts[i].call + 1, n := Counts(0, 0, 0)));
    case Net(Deliver(i)) =>
      DeliverReady(plan, s, i);
      HostOf(plan, s, i);
      LandWork(plan, i, s.hosts[i], |s.net.got[i]|, s.net.down[i][0].data);
      WorksUpdate(plan, s.hosts, i, LandHost(plan, i, s.hosts[i], |s.net.got[i]|, s.net.down[i][0].data));
    case _ =>
  }

  lemma LandWork(plan: Plan, i: nat, h: Host, q: nat, p: Payload)
    requires HostShaped(plan, i, h) && q >= PER_CHUNK * Base(plan.counts, h.call)
    ensures HostWork(plan, LandHost(plan, i, h, q, p)) == HostWork(plan, h)
  {
    hide Base;
  }
}
