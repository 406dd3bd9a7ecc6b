/** What holds of every run of clients and switch together: finished calls have the sums of all workers'
words, no run gets stuck before every worker has finished every call, and none goes on for ever. */
module AllreduceSum {
  import opened Payloads
  import opened ByteOrder
  import opened ClientWindow
  import opened ClientSchedule
  import opened ClientBuffers
  import opened Cluster
  import opened ClusterInvariant
  import opened ClusterRuns
  import Channels
  import AsicDriver
  import ChannelProgram
  import A = Aggregator
  import P = SlotProtocol
  import I = SlotInvariant
  import T = SlotTheorems

  /** The calls of a channel's participants over what the channel's table entries set up. */
  ghost function PlanOf(c: Channels.Channel, counts: seq<nat>, jobs: seq<seq<Job>>): Plan {
    var packets := PER_CHUNK * Base(counts, |counts|);
    Plan(ChannelProgram.ConfigOf(c, seq(|jobs|, _ => seq(packets, _ => ZERO)), packets, PER_CHUNK, RING), counts, jobs)
  }

  /** Whatever channel fits on the switch, whatever its placement: its participants may make any sequence
      of calls, with any counts. */
  lemma ChannelPlan(c: Channels.Channel, counts: seq<nat>, jobs: seq<seq<Job>>)
    requires AsicDriver.Fits(c) && c.OnUsedPipes() && 0 < |c.participants| == |jobs|
    requires PlanOf(c, counts, jobs).JobsOk()
    ensures PlanOf(c, counts, jobs).Valid()
  {
    hide AsicDriver.Fits, Channels.Channel.OnUsedPipes, P.Config.Valid, Base;
    var packets := PER_CHUNK * Base(counts, |counts|);
    ChannelProgram.ChannelProgrammed(c, seq(|jobs|, _ => seq(packets, _ => ZERO)), packets);
  }

  /** A run from the start, with any contents of memory. */
  ghost predicate Runs(plan: Plan, s: State, es: seq<Step>) {
    plan.Valid() && IsStart(plan, s) && (StartOk(plan, s); IsRun(plan, s, es))
  }

  ghost function After(plan: Plan, s: State, es: seq<Step>): (s': State)
    requires Runs(plan, s, es)
    ensures Inv(plan, s')
  {
    StartOk(plan, s);
    Exec(plan, s, es)
  }

  /** What happens on the network. */
  function NetEvents(es: seq<Step>): seq<P.Event> {
    if es == [] then [] else (if es[0].Net? then [es[0].e] else []) + NetEvents(es[1..])
  }

  /** Every run is, on the network, a run of the slot protocol. */
  lemma {:induction false} NetRun(plan: Plan, c: P.Config, s: State, h: P.History, es: seq<Step>)
    requires plan.Valid() && Inv(plan, s) && IsRun(plan, s, es)
    requires Carrying(plan, c, Exec(plan, s, es).wire) && c.Programmed() && P.SysInv(c, s.net, h)
    ensures T.IsRun(c, s.net, NetEvents(es)) && T.Exec(c, s.net, NetEvents(es)) == Exec(plan, s, es).net
    ensures T.SumOf(Works(plan, Exec(plan, s, es).hosts)) + |NetEvents(es)| == T.SumOf(Works(plan, s.hosts)) + |es|
    decreases es
  {
    hide Inv, Can, Do, Carrying, P.SysInv, P.Apply, P.Enabled, P.Config.Programmed, T.Work, T.SumOf, Works, Plan.Valid, Shaped;
    InvShaped(plan, s);
    if es != [] {
      var a, s1 := es[0], Do(plan, s, es[0]);
      StepOk(plan, s, a);
      WireGrows(plan, s1, es[1..]);
      CarryingLess(plan, c, s1.wire, Exec(plan, s1, es[1..]).wire);
      var h1 := NetStep(plan, c, s, h, a);
      HostsStep(plan, s, a);
      NetRun(plan, c, s1, h1, es[1..]);
      SysShaped(c, s.net, h);
      if a.Net? {
        RunCons(c, s.net, a.e, s1.net, NetEvents(es[1..]));
      } else {
        assert NetEvents(es) == NetEvents(es[1..]);
      }
    }
  }

  lemma SysShaped(c: P.Config, s: P.State, h: P.History)
    requires c.Programmed() && P.SysInv(c, s, h)
    ensures s.Shaped(c)
  {
  }

  lemma RunCons(c: P.Config, s: P.State, e: P.Event, s1: P.State, es: seq<P.Event>)
    requires c.Programmed() && s.Shaped(c) && P.Enabled(c, s, e) && P.Apply(c, s, e) == s1 && T.IsRun(c, s1, es)
    ensures T.IsRun(c, s, [e] + es) && T.Exec(c, s, [e] + es) == T.Exec(c, s1, es)
  {
    hide P.Config.Programmed, P.Enabled, P.Apply;
    assert ([e] + es)[1..] == es;
  }

  lemma CarryingLess(plan: Plan, c: P.Config, wire: seq<seq<Payload>>, wire': seq<seq<Payload>>)
    requires Carrying(plan, c, wire') && |wire| == |wire'| && forall i | 0 <= i < |wire| :: wire[i] <= wire'[i]
    ensures Carrying(plan, c, wire)
  {
    hide P.Config.Valid;
  }

  /** What a run has put on the network, filled up to whole rows. */
  function RowsOf(wire: seq<seq<Payload>>, packets: nat): (rows: seq<seq<Payload>>)
    ensures |rows| == |wire|
    ensures forall i | 0 <= i < |wire| :: wire[i] <= rows[i] && (|wire[i]| <= packets ==> |rows[i]| == packets)
  {
    seq(|wire|, i requires 0 <= i < |wire| => wire[i] + seq(if |wire[i]| <= packets then packets - |wire[i]| else 0, _ => ZERO))
  }

  lemma SameProgram(c: P.Config, input: seq<seq<Payload>>)
    requires c.Valid() && |input| == |c.input| && forall i | 0 <= i < |input| :: |input[i]| == c.packets
    ensures c.(input := input).Valid() && T.TotalWork(c.(input := input)) == T.TotalWork(c)
  {
    var d := c.(input := input);
    assert c.On0() == d.On0() && c.On3() == d.On3();
    hide P.Config.On0, P.Config.On3;
    assert d.full0 == d.BitsOf(d.On0());
    assert d.full3 == d.BitsOf(d.On3()) + (if d.Connected() then {d.hopBit} else {});
  }

  lemma SentWithin(plan: Plan, s: State, i: nat)
    requires plan.Valid() && Inv(plan, s) && i < |s.wire|
    ensures |s.wire[i]| <= plan.c.packets
  {
    hide P.Config.Valid, Chunks, Sending, Landed, StoredCalls, WireOk, Plan.JobsOk;
    HostOf(plan, s, i);
    PostedBelow(plan, i, s.hosts[i]);
  }

  /** The slot protocol that a run of clients and switch is a run of. */
  lemma Behind(plan: Plan, s: State, es: seq<Step>) returns (c: P.Config, h: P.History)
    requires Runs(plan, s, es)
    ensures c.Valid() && c == plan.c.(input := c.input) && Carrying(plan, c, After(plan, s, es).wire)
    ensures T.IsRun(c, P.Init(c), NetEvents(es)) && T.After(c, NetEvents(es)) == After(plan, s, es).net
    ensures P.SysInv(c, After(plan, s, es).net, h)
    ensures |es| == T.SumOf(Works(plan, After(plan, s, es).hosts)) + |NetEvents(es)|
    ensures T.TotalWork(c) == T.TotalWork(plan.c)
  {
    hide Inv, IsRun, Exec, P.Config.Valid, P.Config.Programmed, P.SysInv, T.TotalWork, T.Work, T.SumOf, T.IsRun, Works;
    StartOk(plan, s);
    var s' := After(plan, s, es);
    WireGrows(plan, s, es);
    forall i | 0 <= i < |s'.wire| ensures |s'.wire[i]| <= plan.c.packets { SentWithin(plan, s', i); }
    c := plan.c.(input := RowsOf(s'.wire, plan.c.packets));
    SameProgram(plan.c, c.input);
    ValidProgrammed(c);
    var h0 := AtStart(c);
    WorksStart(plan, s.hosts);
    NetRun(plan, c, s, h0, es);
    h := T.Reachable(c, NetEvents(es));
  }

  lemma AtStart(c: P.Config) returns (h: P.History)
    requires c.Valid()
    ensures c.Programmed() && P.SysInv(c, P.Init(c), h)
  {
    hide P.SysInv, T.Work;
    assert T.IsRun(c, P.Init(c), []);
    h := T.Reachable(c, []);
  }

  lemma WorksStart(plan: Plan, hosts: seq<Host>)
    requires forall i | 0 <= i < |hosts| :: hosts[i].call == 0 && hosts[i].n == Counts(0, 0, 0)
    ensures T.SumOf(Works(plan, hosts)) == 0
  {
    T.SumOfBound(Works(plan, hosts), 0);
  }

  /** The plain sum of word k of call j over the first m workers. */
  function WordSum(plan: Plan, j: nat, k: nat, m: nat): nat
    requires m <= |plan.jobs| && forall i | 0 <= i < m :: j < |plan.jobs[i]| && k < |plan.jobs[i][j].sbuf|
  {
    if m == 0 then 0 else WordSum(plan, j, k, m - 1) + plan.jobs[m - 1][j].sbuf[k]
  }

  lemma {:induction false} WordSumIsIntSum(plan: Plan, c: P.Config, j: nat, k: nat, q: nat, r: nat, m: nat)
    requires m <= |plan.jobs| == |c.input| && r < 2 * UNITS
    requires forall i | 0 <= i < |plan.jobs| :: j < |plan.jobs[i]| && k < |plan.jobs[i][j].sbuf|
    requires forall i | 0 <= i < |plan.jobs| :: q < |c.input[i]| && c.input[i][q].Val(r) == plan.jobs[i][j].sbuf[k]
    ensures WordSum(plan, j, k, m) == IntSum(c.All(), c.input, q, r, m)
  {
    hide Payload.Val;
    if m > 0 {
      WordSumIsIntSum(plan, c, j, k, q, r, m - 1);
      assert c.IsWorker(m - 1) && m - 1 in c.All();
    }
  }

  /** The worker has returned from call j, or is about to. */
  predicate Finished(plan: Plan, h: Host, j: nat) {
    j < h.call || (j == h.call && h.n == Done(plan.Count(j)))
  }

  /** A finished call's destination has what was received. */
  lemma FinishedStored(plan: Plan, i: nat, h: Host, wire: seq<Payload>, got: seq<Payload>, j: nat, k: nat)
    requires plan.JobsOk() && i < |plan.jobs| && HostInv(plan, i, h, wire, got)
    requires j < |plan.counts| && k < plan.counts[j] && Finished(plan, h, j)
    ensures k < |h.dbufs[j]| && h.dbufs[j][k] == WordAt(got, At(Base(plan.counts, j)) + k)
    ensures PER_CHUNK * (Base(plan.counts, j) + Chunks(plan.counts[j])) <= |got|
  {
    hide Chunks, Results, Stored, Base, Sending, Landed, WireOk, WordAt;
    ReceivedBelow(plan, h, j);
    StoredAll(plan.counts[j], h.dbufs[j], Results(got, Base(plan.counts, j), plan.counts[j]));
    ResultsAre(got, Base(plan.counts, j), plan.counts[j], k);
  }

  lemma ResultsAre(got: seq<Payload>, b: nat, count: nat, k: nat)
    requires k < At(Chunks(count))
    ensures Results(got, b, count)[k] == WordAt(got, At(b) + k)
  {
    hide WordAt, Chunks;
  }

  /** Word k of a call is word r of packet q. */
  lemma WordPlace(counts: seq<nat>, j: nat, k: nat)
    requires j < |counts| && k < counts[j]
    ensures
      var b := Base(counts, j);
      var q, r := (At(b) + k) / PER_PACKET, (At(b) + k) % PER_PACKET;
      && InCall(counts, j, q) && PER_PACKET * (q - PER_CHUNK * b) + r == k
      && PER_CHUNK * b <= q < PER_CHUNK * (b + Chunks(counts[j]))
  {
    var b := Base(counts, j);
    hide Base;
    assert At(b) == PER_PACKET * (PER_CHUNK * b);
    assert Base(counts, j + 1) == b + Chunks(counts[j]) by { BaseNext(counts, j); }
  }

  lemma BaseNext(counts: seq<nat>, j: nat)
    requires j < |counts|
    ensures Base(counts, j + 1) == Base(counts, j) + Chunks(counts[j])
  {
  }

  /** What a worker has put on the network for word k of call j is the word of its source. */
  lemma WireWord(plan: Plan, i: nat, wire: seq<Payload>, j: nat, k: nat)
    requires plan.JobsOk() && i < |plan.jobs| && WireOk(plan, i, wire) && j < |plan.counts| && k < plan.counts[j]
    requires (At(Base(plan.counts, j)) + k) / PER_PACKET < |wire|
    ensures
      var g := At(Base(plan.counts, j)) + k;
      wire[g / PER_PACKET].Val(g % PER_PACKET) == plan.jobs[i][j].sbuf[k]
  {
    hide Payload.Val, Base, InCall, At, Carries, Chunks;
    WordPlace(plan.counts, j, k);
    var b, g := Base(plan.counts, j), At(Base(plan.counts, j)) + k;
    var q, r := g / PER_PACKET, g % PER_PACKET;
    CarriesWord(plan.jobs[i][j].sbuf, plan.counts[j], q - PER_CHUNK * b, wire[q], r);
  }

  lemma CarriesWord(sbuf: seq<Word>, count: nat, q: nat, p: Payload, r: nat)
    requires |sbuf| >= count && Carries(sbuf, count, q, p) && r < PER_PACKET && PER_PACKET * q + r < count
    ensures p.Val(r) == sbuf[PER_PACKET * q + r]
  {
    hide Payload.Val;
  }

  /** A worker has received only packets that every worker has sent. */
  lemma SentBefore(c: P.Config, s: P.State, h: P.History, i: nat, x: nat)
    requires c.Programmed() && P.SysInv(c, s, h) && i < c.Workers() && x < c.Workers()
    ensures |s.got[i]| <= s.sent[x]
  {
    hide A.Inv, P.UpOk, P.HopOk, P.WindowOk, P.Config.Programmed;
    I.ContributedFirst(c, s, h, x);
    I.WorkerLinks(c, s, h, i);
  }

  /** What the slot protocol adds up for word k of call j is that word of every worker's source. */
  lemma InputWord(plan: Plan, c: P.Config, t: State, h: P.History, i: nat, x: nat, j: nat, k: nat)
    requires plan.Valid() && Inv(plan, t) && c.Programmed() && P.SysInv(c, t.net, h) && Carrying(plan, c, t.wire)
    requires i < |plan.jobs| && x < |plan.jobs| && i < |t.net.got| && j < |plan.counts| && k < plan.counts[j]
    requires (At(Base(plan.counts, j)) + k) / PER_PACKET < |t.net.got[i]|
    ensures
      var g := At(Base(plan.counts, j)) + k;
      && x < |c.input| && g / PER_PACKET < |c.input[x]| && j < |plan.jobs[x]| && k < |plan.jobs[x][j].sbuf|
      && c.input[x][g / PER_PACKET].Val(g % PER_PACKET) == plan.jobs[x][j].sbuf[k]
  {
    hide Base, At, Payload.Val, P.SysInv, P.Config.Programmed, P.Config.Valid, WireOk, Sending, Landed, StoredCalls;
    var q := (At(Base(plan.counts, j)) + k) / PER_PACKET;
    HostOf(plan, t, x);
    SentBefore(c, t.net, h, i, x);
    WireWord(plan, x, t.wire[x], j, k);
    assert t.wire[x] <= c.input[x];
    assert c.input[x][q] == t.wire[x][q];
  }

  lemma RunsFacts(plan: Plan, s: State, es: seq<Step>)
    requires Runs(plan, s, es)
    ensures plan.Valid() && Inv(plan, After(plan, s, es)) && NetShaped(plan, After(plan, s, es))
    ensures |plan.jobs| == plan.c.Workers() == |After(plan, s, es).hosts|
  {
    hide HostInv, IsRun, Exec, P.Config.Valid;
  }

  /** Whatever a worker has received is the sum of what all workers send. */
  lemma ReceivedWord(plan: Plan, s: State, es: seq<Step>, i: nat, j: nat, k: nat)
    requires Runs(plan, s, es) && i < |plan.jobs| && j < |plan.counts| && k < plan.counts[j]
    requires i < |After(plan, s, es).net.got|
    requires (At(Base(plan.counts, j)) + k) / PER_PACKET < |After(plan, s, es).net.got[i]|
    ensures forall x | 0 <= x < |plan.jobs| :: j < |plan.jobs[x]| && k < |plan.jobs[x][j].sbuf|
    ensures WordAt(After(plan, s, es).net.got[i], At(Base(plan.counts, j)) + k) == WordSum(plan, j, k, |plan.jobs|) % WORD_MOD
  {
    hide Inv, HostInv, IsRun, Runs, After, Base, At, InCall, P.Config.Valid, P.Config.Programmed, P.SysInv, T.TotalWork, T.SumOf, T.IsRun, T.After, T.Stuck, Works, WordSum, IntSum, Payload.Val, P.Config.All;
    RunsFacts(plan, s, es);
    var t := After(plan, s, es);
    var c, h := Behind(plan, s, es);
    ValidProgrammed(c);
    var g := At(Base(plan.counts, j)) + k;
    var q, r := g / PER_PACKET, g % PER_PACKET;
    forall x | 0 <= x < |plan.jobs|
      ensures x < |c.input| && q < |c.input[x]| && j < |plan.jobs[x]| && k < |plan.jobs[x][j].sbuf|
      ensures c.input[x][q].Val(r) == plan.jobs[x][j].sbuf[k]
    {
      InputWord(plan, c, t, h, i, x, j, k);
    }
    WordSumIsIntSum(plan, c, j, k, q, r, |plan.jobs|);
    T.EndToEnd(c, NetEvents(es));
  }

  /** The result of every call.  However clients, network and switch interleave: when a worker has
      finished a call, word k of its destination is the sum of word k of all workers' sources, modulo
      2^32. */
  lemma AllreduceCorrect(plan: Plan, s: State, es: seq<Step>, i: nat, j: nat, k: nat)
    requires Runs(plan, s, es) && i < |plan.jobs| && j < |plan.counts| && k < plan.counts[j]
    requires i < |After(plan, s, es).hosts| && Finished(plan, After(plan, s, es).hosts[i], j)
    ensures j < |After(plan, s, es).hosts[i].dbufs| && k < |After(plan, s, es).hosts[i].dbufs[j]|
    ensures forall x | 0 <= x < |plan.jobs| :: j < |plan.jobs[x]| && k < |plan.jobs[x][j].sbuf|
    ensures After(plan, s, es).hosts[i].dbufs[j][k] == WordSum(plan, j, k, |plan.jobs|) % WORD_MOD
  {
    hide Inv, HostInv, IsRun, Runs, After, Base, At, Finished, InCall, P.Config.Valid, WordSum, WordAt;
    RunsFacts(plan, s, es);
    var t := After(plan, s, es);
    HostOf(plan, t, i);
    FinishedStored(plan, i, t.hosts[i], t.wire[i], t.net.got[i], j, k);
    WordPlace(plan.counts, j, k);
    ReceivedWord(plan, s, es, i, j, k);
  }

  /** Nothing can happen any more. */
  ghost predicate Stuck(plan: Plan, s: State)
    requires plan.Valid() && Shaped(plan, s)
  {
    forall a: Step :: !Can(plan, s, a)
  }

  /** A worker that has received all it has sent can always go on, up to the end of the last call. */
  lemma HostGoesOn(plan: Plan, s: State, i: nat)
    requires plan.Valid() && Inv(plan, s) && Shaped(plan, s) && Stuck(plan, s) && i < |s.hosts|
    requires |s.net.got[i]| >= s.net.sent[i]
    ensures s.hosts[i].call == |plan.counts| && s.net.sent[i] == plan.c.packets
  {
    hide P.Config.Valid, Chunks, Sending, Landed, StoredCalls, WireOk, Base, PostHost, StoreHost;
    HostOf(plan, s, i);
    assert !Can(plan, s, Net(P.Send(i))) && !Can(plan, s, SendDone(i)) && !Can(plan, s, RecvDone(i));
    assert !Can(plan, s, Post(i)) && !Can(plan, s, Next(i));
    NoChunks(plan, |plan.counts|);
  }

  /** A run of clients and switch can only get stuck when every worker has finished every call. */
  lemma NoDeadlock(plan: Plan, s: State, es: seq<Step>, i: nat)
    requires Runs(plan, s, es) && i < |plan.jobs| && Shaped(plan, After(plan, s, es)) && Stuck(plan, After(plan, s, es))
    ensures i < |After(plan, s, es).hosts| && After(plan, s, es).hosts[i].call == |plan.counts|
  {
    hide Inv, HostInv, IsRun, Runs, After, P.Config.Valid, P.Config.Programmed, P.SysInv, T.TotalWork, T.SumOf, T.IsRun, T.After, Works, Can, Plan.JobsOk;
    RunsFacts(plan, s, es);
    var t := After(plan, s, es);
    var c, h := Behind(plan, s, es);
    ValidProgrammed(c);
    Quiet(plan, c, t);
    var w := Slow(c, t.net, h);
    HostGoesOn(plan, t, w);
    AllHere(c, t.net, h, w, i);
    HostGoesOn(plan, t, i);
  }

  /** The network and the switch have nothing left to do. */
  lemma Quiet(plan: Plan, c: P.Config, s: State)
    requires plan.Valid() && Shaped(plan, s) && Stuck(plan, s) && c.Programmed() && c == plan.c.(input := c.input) && |c.input| == |plan.c.input|
    ensures s.net.pipe0.recirc == [] && s.net.hop == [] && s.net.pipe3.recirc == []
    ensures forall i | 0 <= i < plan.c.Workers() :: s.net.up[i] == [] && s.net.down[i] == []
  {
    hide P.Config.Valid, P.Config.Programmed, HostShaped, HostLocated;
    assert !Can(plan, s, Net(P.Clear0)) && !Can(plan, s, Net(P.Clear3)) && !Can(plan, s, Net(P.Hop));
    forall i | 0 <= i < plan.c.Workers()
      ensures s.net.up[i] == [] && s.net.down[i] == []
    {
      assert !Can(plan, s, Net(P.First(i))) && !Can(plan, s, Net(P.Deliver(i)));
    }
  }

  /** In a quiet network some worker has received all that it has sent. */
  lemma Slow(c: P.Config, s: P.State, h: P.History) returns (i: nat)
    requires c.Programmed() && P.SysInv(c, s, h)
    requires s.pipe0.recirc == [] && s.hop == [] && s.pipe3.recirc == []
    requires forall i | 0 <= i < c.Workers() :: s.up[i] == [] && s.down[i] == []
    ensures i < c.Workers() && |s.got[i]| == s.sent[i]
  {
    i := T.Slowest(c, s, h);
    hide P.SysInv, P.Config.Programmed;
    I.WorkerLinks(c, s, h, i);
  }

  /** If one worker has every result, so has every other. */
  lemma AllHere(c: P.Config, s: P.State, h: P.History, w: nat, i: nat)
    requires c.Programmed() && P.SysInv(c, s, h) && w < c.Workers() && i < c.Workers()
    requires forall x | 0 <= x < c.Workers() :: s.up[x] == [] && s.down[x] == []
    requires |s.got[w]| >= s.sent[w] == c.packets
    ensures |s.got[i]| >= s.sent[i]
  {
    hide P.Config.Programmed, A.Inv, P.UpOk, P.HopOk, P.ResultsOk, P.WindowOk;
    I.WorkerLinks(c, s, h, w);
    I.WorkerLinks(c, s, h, i);
  }

  /** No run is longer than the slot protocol's total work and three steps for each worker and chunk and
      one for each worker and call. */
  lemma RunsEnd(plan: Plan, s: State, es: seq<Step>)
    requires Runs(plan, s, es)
    ensures |es| <= T.TotalWork(plan.c) + |plan.jobs| * (3 * Base(plan.counts, |plan.counts|) + |plan.counts|)
  {
    hide Inv, HostInv, IsRun, Runs, After, Base, P.Config.Valid, P.Config.Programmed, P.SysInv, T.TotalWork, T.SumOf, T.IsRun, T.After, T.Stuck, HostWork, Plan.JobsOk;
    RunsFacts(plan, s, es);
    var t := After(plan, s, es);
    var c, h := Behind(plan, s, es);
    T.EndToEnd(c, NetEvents(es));
    forall i | 0 <= i < |t.hosts|
      ensures HostWork(plan, t.hosts[i]) <= 3 * Base(plan.counts, |plan.counts|) + |plan.counts|
    {
      HostOf(plan, t, i);
      WorkWithin(plan, i, t.hosts[i]);
    }
    T.SumOfBound(Works(plan, t.hosts), 3 * Base(plan.counts, |plan.counts|) + |plan.counts|);
  }

  lemma WorkWithin(plan: Plan, i: nat, h: Host)
    requires HostShaped(plan, i, h) && Within(plan.Count(h.call), h.n)
    ensures HostWork(plan, h) <= 3 * Base(plan.counts, |plan.counts|) + |plan.counts|
  {
    hide Chunks;
    PostedBelow(plan, i, h);
    if h.call < |plan.counts| {
      BaseMono(plan.counts, h.call + 1, |plan.counts|);
      BaseNext(plan.counts, h.call);
    } else {
      NoChunks(plan, h.call);
    }
  }

  lemma {:induction false} Extend(plan: Plan, s: State, es: seq<Step>, a: Step)
    requires plan.Valid() && Inv(plan, s) && IsRun(plan, s, es)
    requires Shaped(plan, Exec(plan, s, es)) && Can(plan, Exec(plan, s, es), a)
    ensures IsRun(plan, s, es + [a])
    decreases es
  {
    hide Inv, Can, Do, Shaped, Plan.Valid;
    InvShaped(plan, s);
    if es == [] {
      assert (es + [a])[1..] == [];
      StepOk(plan, s, a);
      InvShaped(plan, Do(plan, s, a));
    } else {
      StepOk(plan, s, es[0]);
      Extend(plan, Do(plan, s, es[0]), es[1..], a);
      assert (es + [a])[1..] == es[1..] + [a];
    }
  }

  /** Every run can be completed: whatever has happened so far, all workers can finish all calls. */
  lemma {:induction false} Completes(plan: Plan, s: State, es: seq<Step>) returns (fs: seq<Step>)
    requires Runs(plan, s, es)
    ensures es <= fs && Runs(plan, s, fs)
    ensures forall i | 0 <= i < |After(plan, s, fs).hosts| :: After(plan, s, fs).hosts[i].call == |plan.counts|
    decreases T.TotalWork(plan.c) + |plan.jobs| * (3 * Base(plan.counts, |plan.counts|) + |plan.counts|) - |es|
  {
    hide Inv, HostInv, HostShaped, HostLocated, IsRun, Exec, Can, P.Config.Valid, P.Config.Programmed, T.TotalWork, Base, Plan.JobsOk;
    StartOk(plan, s);
    RunsFacts(plan, s, es);
    RunsEnd(plan, s, es);
    var t := After(plan, s, es);
    InvShaped(plan, t);
    if Stuck(plan, t) {
      fs := es;
      forall i | 0 <= i < |t.hosts| ensures t.hosts[i].call == |plan.counts| { NoDeadlock(plan, s, es, i); }
    } else {
      var a :| Can(plan, t, a);
      Extend(plan, s, es, a);
      RunsEnd(plan, s, es + [a]);
      fs := Completes(plan, s, es + [a]);
    }
  }

  /** The sums that call j is to deliver, with any padding. */
  ghost predicate AreSums(plan: Plan, j: nat, r: seq<Word>) {
    && j < |plan.counts| && |r| == At(Chunks(plan.counts[j]))
    && (forall x | 0 <= x < |plan.jobs| :: j < |plan.jobs[x]| && plan.counts[j] <= |plan.jobs[x][j].sbuf|)
    && (forall k | 0 <= k < plan.counts[j] && k < |r| :: r[k] == WordSum(plan, j, k, |plan.jobs|) % WORD_MOD)
  }

  /** What a call relies on: whenever a receive completes, its receive buffer holds that chunk of the sums
      of all workers' words. */
  lemma ReceiveArrived(plan: Plan, s: State, es: seq<Step>, i: nat, r: seq<Word>)
    requires Runs(plan, s, es) && Shaped(plan, After(plan, s, es)) && Can(plan, After(plan, s, es), RecvDone(i))
    requires AreSums(plan, After(plan, s, es).hosts[i].call, r)
    ensures
      var h := After(plan, s, es).hosts[i];
      && h.call < |plan.counts| && h.n.received < Chunks(plan.counts[h.call]) && |h.buf| >= BUF_WORDS
      && Arrived(plan.counts[h.call], h.buf, r, h.n.received)
  {
    hide Inv, HostInv, IsRun, Runs, After, Base, P.Config.Valid, StoreHost, Results, Arrived, Chunks, At, PostHost, Plan.JobsOk, WordAt, WordSum, AreSums;
    RunsFacts(plan, s, es);
    var t := After(plan, s, es);
    HostOf(plan, t, i);
    var h, got := t.hosts[i], t.net.got[i];
    RecvDoneOk(plan, i, h, t.wire[i], got);
    var j, c := h.call, h.n.received;
    var b, count := Base(plan.counts, j), plan.counts[j];
    ChunkWithin(count, c);
    SumsSize(plan, j, r);
    var r' := Results(got, b, count);
    forall k: nat | At(c) <= k < At(c) + Size(count, c)
      ensures SameWord(r', r, k)
    {
      ChunkWord(b, count, c, k);
      SumsWord(plan, j, r, k);
      ReceivedWord(plan, s, es, i, j, k);
      ResultsAre(got, b, count, k);
    }
    assert Agree(r', r, At(c), At(c) + Size(count, c));
    SameArrived(count, h.buf, r', r, c);
  }

  lemma SumsSize(plan: Plan, j: nat, r: seq<Word>)
    requires AreSums(plan, j, r)
    ensures j < |plan.counts| && |r| == At(Chunks(plan.counts[j]))
  {
    hide At, Chunks, WordSum;
  }

  lemma SumsWord(plan: Plan, j: nat, r: seq<Word>, k: nat)
    requires AreSums(plan, j, r) && k < |r| && k < plan.counts[j]
    ensures forall x | 0 <= x < |plan.jobs| :: j < |plan.jobs[x]| && k < |plan.jobs[x][j].sbuf|
    ensures r[k] == WordSum(plan, j, k, |plan.jobs|) % WORD_MOD
  {
    hide At, Chunks, WordSum;
  }

  lemma ChunkWord(b: nat, count: nat, c: nat, k: nat)
    requires c < Chunks(count) && At(c) <= k < At(c) + Size(count, c)
    ensures k < count && k < At(Chunks(count)) && (At(b) + k) / PER_PACKET < PER_CHUNK * (b + c + 1)
  {
    StartBounds(count, c);
    ChunkWithin(count, c);
  }

  predicate Agree(r: seq<Word>, r': seq<Word>, from: nat, to: nat) {
    forall k: nat | from <= k < to :: SameWord(r, r', k)
  }

  predicate SameWord(r: seq<Word>, r': seq<Word>, k: nat) {
    k < |r| && k < |r'| && r[k] == r'[k]
  }

  lemma SameArrived(count: nat, buf: seq<Word>, r: seq<Word>, r': seq<Word>, c: nat)
    requires |buf| >= BUF_WORDS && |r| == |r'| == At(Chunks(count)) && c < Chunks(count)
    requires Agree(r, r', At(c), At(c) + Size(count, c)) && Arrived(count, buf, r, c)
    ensures Arrived(count, buf, r', c)
  {
    hide Size, Start, At, RecvAt, Swap, Chunks;
    ChunkWithin(count, c);
    StartBounds(count, c);
    forall m | RecvAt(c) <= m < RecvAt(c) + Size(count, c)
      ensures buf[m] == Swap(r'[At(c) + (m - RecvAt(c))])
    {
      assert SameWord(r, r', At(c) + (m - RecvAt(c)));
    }
  }
}
