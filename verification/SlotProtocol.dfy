/** The whole data path of one channel as a transition system.

Workers post packets within their window; every link is a FIFO queue; packets take their
first pass on the worker's pipe, completed packets recirculate and take a second pass;
pipe 0's results hop to pipe 3, where they count as one more worker; final results are
copied to every worker.  Any enabled event may happen next. */
module SlotProtocol {
  import opened Payloads
  import opened Aggregator

  /** One channel as the control plane programmed it, and what its workers send.
      `bit[i]` is worker i's position in its pipe's bitmap, `hopBit` that of pipe 0's
      results on pipe 3; `full0` and `full3` are the bitmaps that count as complete.
      A worker may have `ring` chunks of `chunk` packets in flight. */
  datatype Config = Config(
    onPipe0: seq<bool>, bit: seq<nat>, hopBit: nat, full0: set<nat>, full3: set<nat>,
    input: seq<seq<Payload>>, packets: nat, chunk: nat, ring: nat)
  {
    function Workers(): nat { |input| }

    predicate IsWorker(i: nat) { i < |input| }

    function All(): set<nat> { set i: nat | i < |input| && IsWorker(i) }

    function On0(): set<nat>
      requires |onPipe0| == |input|
    {
      set i: nat | i < |input| && onPipe0[i]
    }

    function On3(): set<nat>
      requires |onPipe0| == |input|
    {
      set i: nat | i < |input| && !onPipe0[i]
    }

    /** Both pipes have workers, so pipe 0's results go to pipe 3. */
    predicate Connected()
      requires |onPipe0| == |input|
    {
      On0() != {} && On3() != {}
    }

    function BitsOf(who: set<nat>): set<nat>
      requires forall i <- who :: i < |bit|
    {
      set i | i in who :: bit[i]
    }

    /** Everything but the window: any number of workers, any placement, distinct bits,
        matching completion bitmaps, the same number of packets from every worker. */
    predicate Programmed() {
      && |onPipe0| == |bit| == |input| > 0
      && chunk > 0 && ring > 0
      && (forall i | 0 <= i < |input| :: |input[i]| == packets)
      && (forall i, j | 0 <= i < j < |input| && onPipe0[i] == onPipe0[j] :: bit[i] != bit[j])
      && (Connected() ==> forall i | 0 <= i < |input| && !onPipe0[i] :: bit[i] != hopBit)
      && full0 == BitsOf(On0())
      && full3 == BitsOf(On3()) + (if Connected() then {hopBit} else {})
    }

    /** The window the client library keeps is at most the number of slots. */
    predicate Valid() {
      Programmed() && ring * chunk <= SLOTS
    }

    /** What every worker must receive for packet n. */
    function Result(n: nat): Payload
      requires Programmed() && n < packets
    {
      Sum(All(), input, n)
    }

    function Results(): (r: seq<Payload>)
      requires Programmed()
      ensures |r| == packets
    {
      seq(packets, n requires 0 <= n < packets => Result(n))
    }

    ghost function Stage0(): (g: Stage)
      requires Programmed() && On0() != {}
      ensures g.Valid() && g.Full() == full0 && |g.rows| == |input| + 1
    {
      Stage(On0(), bit + [hopBit], input + [[]], packets)
    }

    /** Pipe 0's results, the row of the extra feeder of pipe 3. */
    ghost function HopRow(): (row: seq<Payload>)
      requires Programmed()
      ensures Connected() ==> |row| == packets
    {
      if Connected() then seq(packets, n requires 0 <= n < packets => Stage0().Total(n)) else []
    }

    ghost function Stage3(): (g: Stage)
      requires Programmed() && On3() != {}
      ensures g.Valid() && |g.rows| == |input| + 1
    {
      Stage(On3() + (if Connected() then {|input|} else {}), bit + [hopBit], input + [HopRow()], packets)
    }

    lemma Stage3Full()
      requires Programmed() && On3() != {}
      ensures Stage3().Full() == full3
    {
      var g := Stage3();
      assert forall i <- On3() :: g.bit[i] == bit[i];
      assert g.bit[|input|] == hopBit;
      forall x | x in full3 ensures x in g.Full() {
        if x in BitsOf(On3()) {
          var i :| i in On3() && bit[i] == x;
          assert i in g.members && g.bit[i] == x;
        } else {
          assert |input| in g.members;
        }
      }
    }

    /** The pipe whose results go to the workers. */
    ghost function Last(): (g: Stage)
      requires Programmed()
      ensures g.Valid() && g.packets == packets
    {
      if On3() == {} then assert 0 !in On3(); assert 0 in On0(); Stage0() else Stage3()
    }

    /** The last pipe's totals are the sums over all workers: pipe 0's sum, added as one
        more contribution on pipe 3, counts each of its workers exactly once. */
    lemma LastTotal(n: nat)
      requires Programmed() && n < packets
      ensures Last().Total(n) == Result(n)
    {
      hide Add, SumBelow, HopRow, Stage.Valid;
      assert On0() + On3() == All();
      assert IsWorker(0);
      if On3() == {} {
        assert 0 in On0() && On0() == All();
        SumFrame(On0(), input, Stage0().rows, n);
      } else {
        Stage3Total(n);
      }
    }

    lemma Stage3Total(n: nat)
      requires Programmed() && On3() != {} && n < packets
      ensures Stage3().Total(n) == Result(n)
    {
      hide Add, SumBelow, Stage.Valid;
      var m := |input|;
      var rows := Stage3().rows;
      assert On0() + On3() == All();
      SumFrame(On3(), input, rows, n);
      if Connected() {
        SumBelowUnion(On0(), On3(), input, n, m);
        SumFrame(On0(), input, Stage0().rows, n);
        SumInsert(On3(), m, rows, n);
        AddLaws(Sum(On3(), input, n), Sum(On0(), input, n), ZERO);
        assert rows[m][n] == Stage0().Total(n);
      } else {
        assert On3() == All() == Stage3().members;
      }
    }
  }

  datatype State = State(
    sent: seq<nat>,          // packets posted by each worker
    up: seq<seq<Packet>>,    // worker to switch
    pipe0: Pipe, pipe3: Pipe,
    hop: seq<Packet>,        // pipe 0 to pipe 3
    down: seq<seq<Packet>>,  // switch to worker
    got: seq<seq<Payload>>)  // results accepted by each worker
  {
    predicate Shaped(c: Config) {
      && |sent| == |up| == |down| == |got| == c.Workers()
      && pipe0.Shaped() && pipe3.Shaped()
    }
  }

  datatype Event = Send(i: nat) | First(i: nat) | Clear0 | Hop | Clear3 | Deliver(i: nat)

  function Init(c: Config): (s: State)
    ensures s.Shaped(c)
  {
    var m := c.Workers();
    State(seq(m, _ => 0), seq(m, _ => []), IdlePipe(), IdlePipe(), [], seq(m, _ => []), seq(m, _ => []))
  }

  predicate Enabled(c: Config, s: State, e: Event)
    requires c.Programmed() && s.Shaped(c)
  {
    match e
    case Send(i) => i < c.Workers() && s.sent[i] < c.packets && s.sent[i] / c.chunk < |s.got[i]| / c.chunk + c.ring
    case First(i) => i < c.Workers() && s.up[i] != []
    case Clear0 => s.pipe0.recirc != []
    case Hop => s.hop != []
    case Clear3 => s.pipe3.recirc != []
    case Deliver(i) => i < c.Workers() && s.down[i] != []
  }

  /** One copy of a result packet for every worker. */
  function FanOut(down: seq<seq<Packet>>, pkt: Packet): seq<seq<Packet>> {
    seq(|down|, i requires 0 <= i < |down| => down[i] + [pkt])
  }

  /** The worker's adapter takes a packet only if its sequence number is the one expected
      next and a receive buffer is posted for it; otherwise the packet is lost. */
  function Accept(got: seq<Payload>, sent: nat, pkt: Packet): seq<Payload> {
    if pkt.psn == Psn(|got|) && |got| < sent then got + [pkt.data] else got
  }

  function Apply(c: Config, s: State, e: Event): (s': State)
    requires c.Programmed() && s.Shaped(c) && Enabled(c, s, e)
    ensures s'.Shaped(c)
  {
    match e
    case Send(i) =>
      var n := s.sent[i];
      s.(sent := s.sent[i := n + 1],
         up := s.up[i := s.up[i] + [Packet(Psn(n), if n < |c.input[i]| then c.input[i][n] else ZERO)]])
    case First(i) =>
      if c.onPipe0[i] then
        s.(up := s.up[i := s.up[i][1..]], pipe0 := FirstPass(s.pipe0, c.bit[i], c.full0, s.up[i][0]))
      else
        s.(up := s.up[i := s.up[i][1..]], pipe3 := FirstPass(s.pipe3, c.bit[i], c.full3, s.up[i][0]))
    case Clear0 =>
      if c.Connected() then
        s.(pipe0 := ClearPass(s.pipe0), hop := s.hop + [ClearOutput(s.pipe0)])
      else
        s.(pipe0 := ClearPass(s.pipe0), down := FanOut(s.down, ClearOutput(s.pipe0)))
    case Hop =>
      s.(hop := s.hop[1..], pipe3 := FirstPass(s.pipe3, c.hopBit, c.full3, s.hop[0]))
    case Clear3 =>
      s.(pipe3 := ClearPass(s.pipe3), down := FanOut(s.down, ClearOutput(s.pipe3)))
    case Deliver(i) =>
      s.(down := s.down[i := s.down[i][1..]], got := s.got[i := Accept(s.got[i], s.sent[i], s.down[i][0])])
  }

  /** `done[i]` packets of worker i, and `done[Workers()]` hop packets, have had their first pass. */
  datatype History = History(done: seq<nat>, completed0: nat, cleared0: nat, completed3: nat, cleared3: nat) {
    function P0(): Progress { Progress(done, completed0, cleared0) }
    function P3(): Progress { Progress(done, completed3, cleared3) }
    /** Results that have been copied to the workers. */
    function Released(c: Config): nat
      requires c.Programmed()
    {
      if c.On3() == {} then cleared0 else cleared3
    }
  }

  ghost predicate Pipe0Ok(c: Config, p: Pipe, h: Progress)
    requires c.Programmed()
  {
    if c.On0() != {} then Inv(c.Stage0(), p, h) else p.recirc == []
  }

  ghost predicate Pipe3Ok(c: Config, p: Pipe, h: Progress)
    requires c.Programmed()
  {
    if c.On3() != {} then Inv(c.Stage3(), p, h) else p.recirc == []
  }

  /** The queue carries the packets `from..to` of a row, in order. */
  ghost predicate Carries(q: seq<Packet>, row: seq<Payload>, from: nat, to: nat) {
    && from <= to <= |row|
    && |q| == to - from
    && forall k | 0 <= k < |q| :: q[k] == Packet(Psn(from + k), row[from + k])
  }

  ghost predicate UpOk(c: Config, up: seq<seq<Packet>>, done: seq<nat>, sent: seq<nat>)
    requires |up| == |sent| == c.Workers() < |done|
  {
    forall i | 0 <= i < |up| :: Carries(up[i], c.input[i], done[i], sent[i])
  }

  ghost predicate HopOk(c: Config, hop: seq<Packet>, done: nat, cleared0: nat)
    requires c.Programmed()
  {
    if c.Connected() then Carries(hop, c.HopRow(), done, cleared0) else hop == []
  }

  ghost predicate ResultsOk(c: Config, down: seq<seq<Packet>>, got: seq<seq<Payload>>, released: nat)
    requires c.Programmed() && |down| == |got|
  {
    && released <= c.packets
    && (forall i | 0 <= i < |got| :: |got[i]| <= released && got[i] == c.Results()[..|got[i]|])
    && (forall i | 0 <= i < |got| :: Carries(down[i], c.Results(), |got[i]|, released))
  }

  ghost predicate WindowOk(c: Config, sent: seq<nat>, got: seq<seq<Payload>>)
    requires c.Programmed() && |sent| == |got|
  {
    forall i | 0 <= i < |sent| :: sent[i] <= (|got[i]| / c.chunk + c.ring) * c.chunk
  }

  ghost predicate SysInv(c: Config, s: State, h: History)
    requires c.Programmed()
  {
    && s.Shaped(c)
    && |h.done| == c.Workers() + 1
    && Pipe0Ok(c, s.pipe0, h.P0())
    && Pipe3Ok(c, s.pipe3, h.P3())
    && UpOk(c, s.up, h.done, s.sent)
    && HopOk(c, s.hop, h.done[c.Workers()], h.cleared0)
    && ResultsOk(c, s.down, s.got, h.Released(c))
    && WindowOk(c, s.sent, s.got)
  }
}
