/** Clients and switch together: every worker runs the ring loop of one allreduce call after the other
over its registered memory, and the packets on the network are what that memory holds.  Any enabled
step of any worker, of the network or of the switch may come next. */
module Cluster {
  import opened Payloads
  import opened ByteOrder
  import opened ClientWindow
  import opened ClientSchedule
  import opened ClientBuffers
  import A = Aggregator
  import P = SlotProtocol

  /** Packets to a chunk, and words to a packet. */
  const PER_CHUNK: nat := 64
  const PER_PACKET: nat := 64

  /** What one worker passes to one call: the words to send, their address, and that for the results. */
  datatype Job = Job(sbuf: seq<Word>, sAddr: nat, dAddr: nat)

  /** Chunks of the calls before call j. */
  function Base(counts: seq<nat>, j: nat): nat
    requires j <= |counts|
  {
    if j == 0 then 0 else Base(counts, j - 1) + Chunks(counts[j - 1])
  }

  lemma {:induction false} BaseMono(counts: seq<nat>, i: nat, j: nat)
    requires i <= j <= |counts|
    ensures Base(counts, i) <= Base(counts, j)
  {
    if i < j { BaseMono(counts, i, j - 1); }
  }

  /** The channel's switch program, and the calls: their counts, the same for all workers, and what each
      worker passes to each of them.  What the packets carry comes from memory, not from `c.input`. */
  datatype Plan = Plan(c: P.Config, counts: seq<nat>, jobs: seq<seq<Job>>) {
    ghost predicate Valid() {
      && JobsOk() && c.Valid() && c.chunk == PER_CHUNK && c.ring == RING
      && c.packets == PER_CHUNK * Base(counts, |counts|)
      && |jobs| == c.Workers()
    }

    /** Every worker has a source for every call, as far as the call reads it; both buffers are aligned
        to words. */
    ghost predicate JobsOk() {
      && (forall i | 0 <= i < |jobs| :: |jobs[i]| == |counts|)
      && (forall i, j | 0 <= i < |jobs| && 0 <= j < |counts| ::
            && |jobs[i][j].sbuf| >= SourceEnd(counts[j])
            && jobs[i][j].sAddr % 4 == 0 && jobs[i][j].dAddr % 4 == 0)
    }

    /** The words of call j; no more calls come after the last. */
    function Count(j: nat): nat {
      if j < |counts| then counts[j] else 0
    }
  }

  /** A worker: the call it is in, that call's counters, its registered memory, which all calls share,
      and the destination of each call. */
  datatype Host = Host(call: nat, n: Counts, buf: seq<Word>, dbufs: seq<seq<Word>>)

  /** `wire` keeps what each worker has put on the network so far. */
  datatype State = State(net: P.State, hosts: seq<Host>, wire: seq<seq<Payload>>)

  /** What the adapter does, or the ring loop, or the program between calls; and the network. */
  datatype Step = Post(i: nat) | SendDone(i: nat) | RecvDone(i: nat) | Next(i: nat) | Net(e: P.Event)

  /** Where packet q is read from and written to; the call's packets start at 64 * b. */
  function SendAt(b: nat, q: nat): (a: nat)
    requires q >= PER_CHUNK * b
    ensures a + PER_PACKET <= At(RING)
  {
    At(Slot(q / PER_CHUNK - b)) + PER_PACKET * (q % PER_CHUNK)
  }

  function LandAt(b: nat, q: nat): (a: nat)
    requires q >= PER_CHUNK * b
    ensures At(RING) <= a && a + PER_PACKET <= BUF_WORDS
  {
    RecvAt(q / PER_CHUNK - b) + PER_PACKET * (q % PER_CHUNK)
  }

  /** The 64 words of a packet, which memory holds in network order. */
  function ReadPacket(buf: seq<Word>, a: nat): Payload
    requires a + PER_PACKET <= |buf|
  {
    Payload(seq(UNITS, j requires 0 <= j < UNITS => Swap(buf[a + 2 * j])),
            seq(UNITS, j requires 0 <= j < UNITS => Swap(buf[a + 2 * j + 1])))
  }

  function WritePacket(buf: seq<Word>, a: nat, p: Payload): (r: seq<Word>)
    requires a + PER_PACKET <= |buf|
    ensures |r| == |buf|
    ensures forall k | 0 <= k < PER_PACKET :: r[a + k] == Swap(p.Val(k))
    ensures forall m | 0 <= m < |buf| && !(a <= m < a + PER_PACKET) :: r[m] == buf[m]
  {
    hide Swap;
    buf[..a] + seq<Word>(PER_PACKET, k requires 0 <= k < PER_PACKET => Swap(p.Val(k))) + buf[a + PER_PACKET..]
  }

  lemma ReadVal(buf: seq<Word>, a: nat, k: nat)
    requires a + PER_PACKET <= |buf| && k < PER_PACKET
    ensures ReadPacket(buf, a).Val(k) == Swap(buf[a + k])
  {
    hide Swap;
    assert k == 2 * (k / 2) + k % 2;
  }

  /** Registered memory has what the network uses and what the calls read, destinations what they write. */
  ghost predicate HostShaped(plan: Plan, i: nat, h: Host) {
    && h.call <= |plan.counts| && |h.buf| >= BUF_WORDS && |h.dbufs| == |plan.counts|
    && i < |plan.jobs| && |plan.jobs[i]| == |plan.counts|
    && (forall j | 0 <= j < |plan.counts| ::
          |h.dbufs[j]| >= DestEnd(plan.counts[j], plan.jobs[i][j].dAddr) && |h.buf| >= ReadEnd(plan.counts[j], plan.jobs[i][j].dAddr))
  }

  /** The loop's counters and the packets on their way agree: chunks are sent and received packet by
      packet between their post and their completion. */
  ghost predicate Located(b: nat, count: nat, n: Counts, sent: nat, got: nat) {
    && Within(count, n)
    && PER_CHUNK * (b + n.sent) <= sent <= PER_CHUNK * (b + n.posted)
    && PER_CHUNK * (b + n.received) <= got <= PER_CHUNK * (b + n.posted)
  }

  ghost predicate HostLocated(plan: Plan, i: nat, h: Host, sent: nat, got: nat)
    requires HostShaped(plan, i, h)
  {
    Located(Base(plan.counts, h.call), plan.Count(h.call), h.n, sent, got)
  }

  ghost predicate Shaped(plan: Plan, s: State)
    requires plan.Valid()
  {
    && s.net.Shaped(plan.c) && |s.hosts| == |s.wire| == plan.c.Workers()
    && (forall i | 0 <= i < |s.hosts| :: HostShaped(plan, i, s.hosts[i]) && |s.wire[i]| == s.net.sent[i])
    && (forall i | 0 <= i < |s.hosts| :: HostLocated(plan, i, s.hosts[i], s.net.sent[i], |s.net.got[i]|))
  }

  /** The memory may hold anything at the start. */
  ghost predicate IsStart(plan: Plan, s: State)
    requires plan.Valid()
  {
    && s.net == P.Init(plan.c) && |s.hosts| == |s.wire| == plan.c.Workers()
    && (forall i | 0 <= i < |s.hosts| ::
          HostShaped(plan, i, s.hosts[i]) && s.hosts[i].call == 0 && s.hosts[i].n == Counts(0, 0, 0) && s.wire[i] == [])
  }

  ghost predicate Can(plan: Plan, s: State, a: Step)
    requires plan.Valid() && Shaped(plan, s)
  {
    match a
    case Post(i) => i < |s.hosts| && CanPost(plan.Count(s.hosts[i].call), s.hosts[i].n)
    case SendDone(i) =>
      i < |s.hosts| && var h := s.hosts[i];
      h.n.sent < h.n.posted && PER_CHUNK * (Base(plan.counts, h.call) + h.n.sent + 1) <= s.net.sent[i]
    case RecvDone(i) =>
      i < |s.hosts| && var h := s.hosts[i];
      h.n.received < h.n.posted && PER_CHUNK * (Base(plan.counts, h.call) + h.n.received + 1) <= |s.net.got[i]|
    case Next(i) => i < |s.hosts| && s.hosts[i].call < |plan.counts| && s.hosts[i].n == Done(plan.Count(s.hosts[i].call))
    case Net(Send(i)) =>
      i < |s.hosts| && var h := s.hosts[i];
      s.net.sent[i] < PER_CHUNK * (Base(plan.counts, h.call) + h.n.posted)
    case Net(e) => P.Enabled(plan.c, s.net, e)
  }

  function PostHost(plan: Plan, i: nat, h: Host): Host
    requires plan.JobsOk() && HostShaped(plan, i, h) && i < |plan.jobs| && h.n.posted < Chunks(plan.Count(h.call))
  {
    h.(buf := PostBuf(plan.counts[h.call], plan.jobs[i][h.call].sbuf, h.buf, h.n.posted), n := h.n.(posted := h.n.posted + 1))
  }

  function StoreHost(plan: Plan, i: nat, h: Host): Host
    requires plan.JobsOk() && HostShaped(plan, i, h) && i < |plan.jobs| && h.n.received < Chunks(plan.Count(h.call))
  {
    var j := h.call;
    h.(dbufs := h.dbufs[j := StoreBuf(plan.counts[j], plan.jobs[i][j].dAddr, h.dbufs[j], h.buf, h.n.received)],
       n := h.n.(received := h.n.received + 1))
  }

  function LandHost(plan: Plan, i: nat, h: Host, q: nat, p: Payload): Host
    requires HostShaped(plan, i, h) && q >= PER_CHUNK * Base(plan.counts, h.call)
  {
    h.(buf := WritePacket(h.buf, LandAt(Base(plan.counts, h.call), q), p))
  }

  /** A packet leaves as memory has it when it is sent. */
  function SendNet(net: P.State, i: nat, p: Payload): P.State
    requires i < |net.sent| == |net.up|
  {
    net.(sent := net.sent[i := net.sent[i] + 1], up := net.up[i := net.up[i] + [A.Packet(A.Psn(net.sent[i]), p)]])
  }

  /** The adapter takes a packet if its sequence number is the next and a receive is posted for it. */
  predicate Takes(got: seq<Payload>, posted: nat, pkt: A.Packet) {
    pkt.psn == A.Psn(|got|) && |got| < PER_CHUNK * posted
  }

  function DeliverNet(net: P.State, i: nat, takes: bool): P.State
    requires i < |net.down| == |net.got| && net.down[i] != []
  {
    net.(down := net.down[i := net.down[i][1..]],
         got := if takes then net.got[i := net.got[i] + [net.down[i][0].data]] else net.got)
  }

  ghost function Do(plan: Plan, s: State, a: Step): (s': State)
    requires plan.Valid() && Shaped(plan, s) && Can(plan, s, a)
  {
    match a
    case Post(i) => s.(hosts := s.hosts[i := PostHost(plan, i, s.hosts[i])])
    case SendDone(i) => s.(hosts := s.hosts[i := s.hosts[i].(n := s.hosts[i].n.(sent := s.hosts[i].n.sent + 1))])
    case RecvDone(i) => s.(hosts := s.hosts[i := StoreHost(plan, i, s.hosts[i])])
    case Next(i) => s.(hosts := s.hosts[i := s.hosts[i].(call := s.hosts[i].call + 1, n := Counts(0, 0, 0))])
    case Net(Send(i)) =>
      var p := ReadPacket(s.hosts[i].buf, SendAt(Base(plan.counts, s.hosts[i].call), s.net.sent[i]));
      s.(net := SendNet(s.net, i, p), wire := s.wire[i := s.wire[i] + [p]])
    case Net(Deliver(i)) =>
      var h, pkt := s.hosts[i], s.net.down[i][0];
      var takes := Takes(s.net.got[i], Base(plan.counts, h.call) + h.n.posted, pkt);
      s.(net := DeliverNet(s.net, i, takes),
         hosts := if takes then s.hosts[i := LandHost(plan, i, h, |s.net.got[i]|, pkt.data)] else s.hosts)
    case Net(e) => s.(net := P.Apply(plan.c, s.net, e))
  }
}
