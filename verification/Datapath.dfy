/** From the tables to the registers: with the driver's entries loaded, passes over a channel's
registers are the passes of the slot protocol that the channel's entries set up, and the protocol
starts from clear slots. */
module Datapath {
  import opened Bitmaps
  import opened Options
  import opened Payloads
  import opened Aggregator
  import opened Collectives
  import opened Channels
  import T = Tables
  import opened Reconcile
  import opened AsicDriver
  import opened ChannelProgram
  import P = SlotProtocol

  /** What the action of an entry does to the packet. */
  function VerdictOf(a: T.Action): Verdict {
    match a
    case Recirculate(port) => Recirculate(port)
    case NextPipe(port) => NextPipe(port)
    case Distribute(g) => Distribute(g)
    case _ => Pass
  }

  /** All 32 arithmetic units know what to do for an aggregation unit. */
  predicate Chosen(t: T.Table, u: nat) {
    forall alu: nat, isClear: bool | 0 <= alu < UNITS ::
      T.Choose(alu, u, isClear) in t && t[T.Choose(alu, u, isClear)] == if isClear then T.ClearValues else T.AddValues
  }

  /** A pipe works with the table entries for it. */
  ghost predicate Loaded(t: T.Table, pipe: nat, p: Pipeline)
    reads p
  {
    && (forall u: nat :: u in p.units <==> Chosen(t, u))
    && (forall u: nat :: u in p.complete <==> T.Clearing(pipe, u) in t)
    && (forall u <- p.complete ::
          && (forall b :: T.Contribution(pipe, u, b) in t <==> b == p.complete[u].full)
          && p.complete[u].onFull == VerdictOf(t[T.Contribution(pipe, u, p.complete[u].full)])
          && T.Clearing(pipe, u) in t && p.complete[u].onClear == VerdictOf(t[T.Clearing(pipe, u)]))
  }

  /** A unit with a second-pass entry has one first-pass entry. */
  ghost predicate Loadable(t: T.Table, pipe: nat) {
    forall u: nat | T.Clearing(pipe, u) in t :: exists b :: OnlyFull(t, pipe, u, b)
  }

  ghost predicate OnlyFull(t: T.Table, pipe: nat, u: nat, b: Bitmap) {
    forall x :: T.Contribution(pipe, u, x) in t <==> x == b
  }

  /** The first-pass entries of a pipe, by unit: one each of those a unit may have. */
  ghost predicate Found(t: T.Table, pipe: nat, fulls: map<nat, Bitmap>) {
    && (forall u <- fulls :: T.Contribution(pipe, u, fulls[u]) in t)
    && (forall u: nat, b | T.Contribution(pipe, u, b) in t :: u in fulls)
  }

  method FindFulls(t: T.Table, pipe: nat) returns (fulls: map<nat, Bitmap>)
    ensures Found(t, pipe, fulls)
  {
    fulls := map[];
    var rest := t.Keys;
    while rest != {}
      invariant rest <= t.Keys
      invariant forall u <- fulls :: T.Contribution(pipe, u, fulls[u]) in t
      invariant forall u: nat, b | T.Contribution(pipe, u, b) in t && T.Contribution(pipe, u, b) !in rest :: u in fulls
      decreases |rest|
    {
      var k :| k in rest;
      if k.Contribution? && k.pipe == pipe { fulls := fulls[k.unit := k.full]; }
      rest := rest - {k};
    }
  }

  function UnitsOf(t: T.Table): set<nat> {
    set k | k in t && k.Choose? && Chosen(t, k.unit) :: k.unit
  }

  function CompletionsOf(t: T.Table, pipe: nat, fulls: map<nat, Bitmap>): map<nat, Completion>
    requires forall u <- fulls :: T.Contribution(pipe, u, fulls[u]) in t
  {
    map u | u in fulls && T.Clearing(pipe, u) in t ::
      Completion(fulls[u], VerdictOf(t[T.Contribution(pipe, u, fulls[u])]), VerdictOf(t[T.Clearing(pipe, u)]))
  }

  lemma UnitsChosen(t: T.Table)
    ensures forall u: nat :: u in UnitsOf(t) <==> Chosen(t, u)
  {
    hide Chosen;
    forall u: nat
      ensures u in UnitsOf(t) <==> Chosen(t, u)
    {
      if Chosen(t, u) { ChosenHas(t, u); }
    }
  }

  lemma FoundFull(t: T.Table, pipe: nat, fulls: map<nat, Bitmap>, u: nat)
    requires Loadable(t, pipe) && Found(t, pipe, fulls) && T.Clearing(pipe, u) in t
    ensures u in fulls && OnlyFull(t, pipe, u, fulls[u])
  {
    var b :| OnlyFull(t, pipe, u, b);
    assert T.Contribution(pipe, u, b) in t;
  }

  lemma CompletionsLoaded(t: T.Table, pipe: nat, fulls: map<nat, Bitmap>)
    requires Loadable(t, pipe) && Found(t, pipe, fulls)
    ensures
      var m := CompletionsOf(t, pipe, fulls);
      && (forall u: nat :: u in m <==> T.Clearing(pipe, u) in t)
      && (forall u <- m ::
            && (forall b :: T.Contribution(pipe, u, b) in t <==> b == m[u].full)
            && m[u].onFull == VerdictOf(t[T.Contribution(pipe, u, m[u].full)])
            && T.Clearing(pipe, u) in t && m[u].onClear == VerdictOf(t[T.Clearing(pipe, u)]))
  {
    hide VerdictOf, Loadable;
    forall u: nat | T.Clearing(pipe, u) in t
      ensures u in fulls && OnlyFull(t, pipe, u, fulls[u])
    {
      FoundFull(t, pipe, fulls, u);
    }
  }

  /** The driver's entries for a pipe reach its tables. */
  method Load(t: T.Table, pipe: nat, p: Pipeline)
    modifies p`units, p`complete
    ensures Loadable(t, pipe) ==> Loaded(t, pipe, p)
  {
    hide Chosen, VerdictOf, Loadable, UnitsOf, CompletionsOf;
    var fulls := FindFulls(t, pipe);
    p.units, p.complete := UnitsOf(t), CompletionsOf(t, pipe, fulls);
    UnitsChosen(t);
    if Loadable(t, pipe) { CompletionsLoaded(t, pipe, fulls); }
  }

  lemma ChosenHas(t: T.Table, u: nat)
    requires Chosen(t, u)
    ensures T.Choose(0, u, false) in t
  {
  }

  lemma EntryIn(t: T.Table, stat: T.Table, chs: seq<Channel>, c: Channel, k: T.Key, a: T.Action)
    requires Exact(t, stat, chs) && Live(chs, c) && T.UnitWants(c, k, a)
    ensures k in t && t[k] == a
  {
    assert T.Wants(c, k, a) && Wanted(chs, k, a);
    ExactEntry(t, stat, chs, k, a);
  }

  lemma AlusChosen(t: T.Table, stat: T.Table, chs: seq<Channel>, c: Channel)
    requires Exact(t, stat, chs) && Live(chs, c)
    ensures Chosen(t, c.unit)
  {
    hide Exact;
    forall alu, isClear | 0 <= alu < UNITS
      ensures T.Choose(alu, c.unit, isClear) in t && t[T.Choose(alu, c.unit, isClear)] == if isClear then T.ClearValues else T.AddValues
    {
      EntryIn(t, stat, chs, c, T.Choose(alu, c.unit, isClear), if isClear then T.ClearValues else T.AddValues);
    }
  }

  /** Only one bitmap counts as complete for a channel on a pipe, and it is the protocol's. */
  lemma OneFull(t: T.Table, stat: T.Table, chs: seq<Channel>, c: Channel, pipe: nat, b: Bitmap)
    requires IsStatic(stat) && Exact(t, stat, chs) && WellFormed(chs) && Live(chs, c)
    requires (pipe == 0 || pipe == 3) && T.FullCount(c, pipe) > 0
    ensures T.Contribution(pipe, c.unit, b) in t <==> b == FirstN(T.FullCount(c, pipe))
    ensures b == FirstN(T.FullCount(c, pipe)) ==> t[T.Contribution(pipe, c.unit, b)] == T.Recirculate(pipe * 128 + 68)
  {
    hide FirstN, T.FullCount;
    var f := FirstN(T.FullCount(c, pipe));
    EntryIn(t, stat, chs, c, T.Contribution(pipe, c.unit, f), T.Recirculate(pipe * 128 + 68));
    var k := T.Contribution(pipe, c.unit, b);
    if k in t {
      ExactEntry(t, stat, chs, k, t[k]);
      hide Exact;
      var d :| Live(chs, d) && T.Wants(d, k, t[k]);
      WantsOwns(d, k, t[k]);
      assert d == c;
    }
  }

  /** What the driver leaves in the tables for a well-formed repository can be loaded. */
  lemma ExactLoadable(t: T.Table, stat: T.Table, chs: seq<Channel>, pipe: nat)
    requires IsStatic(stat) && Exact(t, stat, chs) && WellFormed(chs) && (pipe == 0 || pipe == 3)
    ensures Loadable(t, pipe)
  {
    hide FirstN, T.FullCount;
    forall u: nat | T.Clearing(pipe, u) in t
      ensures exists b :: OnlyFull(t, pipe, u, b)
    {
      var k := T.Clearing(pipe, u);
      ExactEntry(t, stat, chs, k, t[k]);
      var c :| Live(chs, c) && T.Wants(c, k, t[k]);
      ClearingOf(c, pipe, u, t[k]);
      hide Exact, IsStatic, WellFormed, Live;
      forall b
        ensures T.Contribution(pipe, u, b) in t <==> b == FirstN(T.FullCount(c, pipe))
      {
        OneFull(t, stat, chs, c, pipe, b);
      }
      assert OnlyFull(t, pipe, u, FirstN(T.FullCount(c, pipe)));
    }
  }

  lemma ClearingOf(c: Channel, pipe: nat, u: nat, a: T.Action)
    requires T.Wants(c, T.Clearing(pipe, u), a)
    ensures u == c.unit && T.FullCount(c, pipe) > 0
  {
    hide FirstN, T.FullCount;
  }

  /** Where the results of a pipe go. */
  function Onward(c: Channel, pipe: nat): Verdict {
    if c.Connected() && pipe != 3 then NextPipe(T.HOP_PORT + pipe * 4) else Distribute(T.GroupId(c.unit))
  }

  /** A pipe that has loaded the tables knows a live channel's unit, its complete bitmap and where
      its results go. */
  lemma ChannelLoaded(t: T.Table, stat: T.Table, chs: seq<Channel>, c: Channel, pipe: nat, p: Pipeline, bitmap: Bitmap)
    requires IsStatic(stat) && Exact(t, stat, chs) && WellFormed(chs) && SmallUnits(chs) && Live(chs, c)
    requires (pipe == 0 || pipe == 3) && T.FullCount(c, pipe) > 0 && Loaded(t, pipe, p)
    ensures c.unit < AGG_UNITS && p.Listed(Some(Selection(c.unit, bitmap)))
    ensures p.complete[c.unit] == Completion(FirstN(T.FullCount(c, pipe)), Recirculate(pipe * 128 + 68), Onward(c, pipe))
  {
    hide FirstN, T.FullCount, Channel.Connected;
    AlusChosen(t, stat, chs, c);
    InUseHas(chs, c);
    var a := if c.Connected() && pipe != 3 then T.NextPipe(T.HOP_PORT + pipe * 4) else T.Distribute(T.GroupId(c.unit));
    EntryIn(t, stat, chs, c, T.Clearing(pipe, c.unit), a);
    OneFull(t, stat, chs, c, pipe, p.complete[c.unit].full);
    hide Exact, WellFormed, IsStatic, Chosen;
    assert p.complete[c.unit].onClear == VerdictOf(a);
  }

  /** A live channel, its tables loaded into a pipe. */
  ghost predicate Wired(p: Pipeline, pipe: nat, t: T.Table, stat: T.Table, chs: seq<Channel>, c: Channel)
    reads p
  {
    && p.Valid() && Loaded(t, pipe, p)
    && IsStatic(stat) && Exact(t, stat, chs) && WellFormed(chs) && SmallUnits(chs) && QpsByChannel(chs)
    && Live(chs, c) && Fits(c)
  }

  /** The outcome of the unit selector: any matching entry may win. */
  ghost predicate Selected(t: T.Table, h: Header, sel: Option<Selection>) {
    match sel
    case None => forall k | k in t && Matches(k, h) :: !t[k].Select?
    case Some(s) => exists k :: k in t && Matches(k, h) && t[k].Select? && s == Selection(t[k].agg, t[k].bitmap)
  }

  /** The position of participant i's packet in the bitmap of a pipe it passes: its own on its own
      pipe, the one between the pipes on the other. */
  function BitOn(c: Channel, i: nat, pipe: nat): nat
    requires i < |c.participants|
  {
    if pipe == c.participants[i].Pipe() then c.Rank(i) else c.Total(3)
  }

  /** Whatever entry wins, a packet on its way is selected for its channel's unit, with its own bit on
      its own pipe and the bit between the pipes on the other. */
  lemma SelectedRight(t: T.Table, stat: T.Table, chs: seq<Channel>, c: Channel, i: nat, h: Header, sel: Option<Selection>)
    requires IsStatic(stat) && Exact(t, stat, chs) && WellFormed(chs) && QpsByChannel(chs) && Live(chs, c)
    requires i < |c.participants| && OnItsWay(c, i, h) && FromPipe0(t, h) && Selected(t, h, sel)
    ensures sel.Some? && sel.value.unit == c.unit
    ensures !h.IsClear() ==> sel.value.bitmap == Mask(BitOn(c, i, h.pipe))
  {
    var p := c.participants[i];
    AlwaysSelected(t, stat, chs, c, i, h);
    var k: T.Key;
    if h.pipe == p.Pipe() {
      k := T.FromNode(p.Pipe(), p.ip, p.fabricQp);
      OwnSelection(t, stat, chs, c, i);
    } else {
      k := T.FromPort(3, c.qpCommon, h.port);
      HopSelection(t, stat, chs, c);
      QpOf(chs, c, i);
    }
    assert Matches(k, h);
    hide Exact, WellFormed, IsStatic, QpsByChannel, FromPipe0, Mask, Channel.Rank, Channel.Total, Channel.Connected;
    var l :| l in t && Matches(l, h) && t[l].Select? && sel.value == Selection(t[l].agg, t[l].bitmap);
    PriorityIrrelevant(t, stat, chs, h, k, l);
  }

  lemma QpOf(chs: seq<Channel>, c: Channel, i: nat)
    requires QpsByChannel(chs) && Live(chs, c) && i < |c.participants|
    ensures c.participants[i].fabricQp / 256 == c.qpCommon
  {
    assert c.participants[i] in c.participants && c.participants[i].Known();
  }

  /** A packet on its way comes by pipes only where its channel has a complete bitmap, and its bit is
      the one of the slot protocol that the channel's entries set up. */
  lemma OnTheWay(chs: seq<Channel>, c: Channel, i: nat, h: Header, cfg: P.Config)
    requires WellFormed(chs) && Live(chs, c) && Fits(c) && SetUp(c, cfg) && i < |c.participants| && OnItsWay(c, i, h)
    ensures (h.pipe == 0 || h.pipe == 3) && T.FullCount(c, h.pipe) > 0 && BitOn(c, i, h.pipe) < 64
    ensures BitOn(c, i, h.pipe) == if h.pipe == c.participants[i].Pipe() then cfg.bit[i] else cfg.hopBit
    ensures (if h.pipe == 0 then cfg.full0 else cfg.full3) == Positions(FirstN(T.FullCount(c, h.pipe)))
  {
    hide Positions, FirstN;
    c.RankBelow(i);
    assert c.participants[i].Pipe() == 0 || c.participants[i].Pipe() == 3;
  }

  /** The pass of the slot protocol that a pass over the registers of a channel's unit was. */
  ghost predicate WasFirstPass(before: Pipe, after: Pipe, bit: nat, full: set<nat>, psn: nat, data: Payload, out: Payload, v: Verdict)
    requires before.Shaped()
  {
    && after == FirstPass(before, bit, full, Packet(psn, data))
    && (v.Recirculate? || v == Drop)
    && after.recirc == if v.Recirculate? then before.recirc + [Packet(psn, out)] else before.recirc
  }

  ghost predicate WasSecondPass(before: Pipe, after: Pipe, psn: nat, out: Payload)
    requires before.Shaped()
  {
    before.recirc != [] && after == ClearPass(before) && Packet(psn, out) == ClearOutput(before)
  }

  /** What becomes of a packet after its pass.  A first pass drops it or, on a recirculation port of the same
      pipe, brings it back for its second pass; a second pass sends it over to pipe 3, where it takes a first
      pass, selected as one from pipe 0, or to the group of all participants. */
  ghost predicate GoesOn(t: T.Table, c: Channel, i: nat, h: Header, v: Verdict)
    requires i < |c.participants|
  {
    match v
    case Drop => !h.IsClear()
    case Recirculate(port) =>
      var r := Again(h, port);
      !h.IsClear() && r.pipe == h.pipe && r.IsClear() && OnItsWay(c, i, r) && FromPipe0(t, r)
    case NextPipe(port) =>
      var r := Again(h, port);
      && h.IsClear() && h.pipe == 0 && c.Connected()
      && r.pipe == 3 && !r.IsClear() && OnItsWay(c, i, r) && FromPipe0(t, r) && T.FromPort(3, c.qpCommon, port) in t
    case Distribute(group) =>
      && h.IsClear() && (h.pipe == 3 || !c.Connected())
      && T.Group(group) in t && t[T.Group(group)] == T.Members(T.NodeIds(c.unit, |c.participants|))
    case Pass => false
  }

  /** The packet that completes its slot on a pipe is sent to that pipe's recirculation port. */
  lemma ComesBack(t: T.Table, stat: T.Table, chs: seq<Channel>, c: Channel, pipe: nat, ip: nat, qp: nat)
    requires IsStatic(stat) && Exact(t, stat, chs) && WellFormed(chs) && Live(chs, c)
    requires (pipe == 0 || pipe == 3) && T.FullCount(c, pipe) > 0
    ensures
      var k := T.Contribution(pipe, c.unit, FirstN(T.FullCount(c, pipe)));
      && k in t && t[k] == T.Recirculate(128 * pipe + 68) && t[k].port / 128 == pipe && Header(pipe, ip, qp, t[k].port).IsClear()
  {
    hide FirstN, T.FullCount, Exact, WellFormed, IsStatic, Live;
    OneFull(t, stat, chs, c, pipe, FirstN(T.FullCount(c, pipe)));
  }

  /** A connected channel's packet leaves pipe 0 for a port of pipe 3 where it is selected, and not taken for
      one that comes back. */
  lemma HopsOn(t: T.Table, stat: T.Table, chs: seq<Channel>, c: Channel, ip: nat, qp: nat)
    requires Exact(t, stat, chs) && Live(chs, c) && c.Connected()
    ensures
      var k := T.Clearing(0, c.unit);
      && k in t && t[k] == T.NextPipe(448) && t[k].port / 128 == 3 && !Header(3, ip, qp, t[k].port).IsClear()
      && T.FromPort(3, c.qpCommon, t[k].port) in t
  {
    HopSelection(t, stat, chs, c);
    hide FirstN;
    EntryIn(t, stat, chs, c, T.Clearing(0, c.unit), T.NextPipe(T.HOP_PORT));
  }

  /** What was selected on pipe 0 may go to pipe 3. */
  lemma FromHere(t: T.Table, stat: T.Table, chs: seq<Channel>, c: Channel, i: nat, h: Header, port: nat)
    requires Exact(t, stat, chs) && QpsByChannel(chs) && Live(chs, c) && i < |c.participants| && OnItsWay(c, i, h)
    requires h.pipe == 0
    ensures FromPipe0(t, Again(h, port))
  {
    AlwaysSelected(t, stat, chs, c, i, h);
    hide Exact, QpsByChannel, Live, OnItsWay, Matches;
    var k :| k in t && Matches(k, h);
    assert Matches(k, Header(0, h.srcIp, h.dstQp, h.port));
  }

  lemma Onwards(t: T.Table, stat: T.Table, chs: seq<Channel>, c: Channel, i: nat, h: Header, v: Verdict)
    requires Exact(t, stat, chs) && QpsByChannel(chs) && Live(chs, c) && i < |c.participants| && OnItsWay(c, i, h)
    requires h.pipe == 0 || h.pipe == 3
    requires if h.IsClear() then v == Onward(c, h.pipe) else v == Drop || v == Recirculate(h.pipe * 128 + 68)
    ensures GoesOn(t, c, i, h, v)
  {
    hide Exact, QpsByChannel, Live, Channel.Connected;
    GroupIn(t, stat, chs, c);
    if h.IsClear() && c.Connected() && h.pipe == 0 {
      HopSelection(t, stat, chs, c);
      FromHere(t, stat, chs, c, i, h, T.HOP_PORT);
    }
  }

  method Lookup(t: T.Table, h: Header) returns (sel: Option<Selection>)
    ensures Selected(t, h, sel)
  {
    if exists k :: k in t && Matches(k, h) && t[k].Select? {
      var k :| k in t && Matches(k, h) && t[k].Select?;
      sel := Some(Selection(t[k].agg, t[k].bitmap));
    } else {
      sel := None;
    }
  }

  /** What a pass of participant i's packet is to the slot protocol that its channel's entries set up. */
  ghost predicate ProtocolPass(before: Pipe, after: Pipe, c: Channel, i: nat, h: Header, cfg: P.Config,
                               psn: nat, data: Payload, out: Payload, v: Verdict)
    requires before.Shaped() && i < |c.participants| && i < |cfg.bit|
  {
    if h.IsClear() then
      WasSecondPass(before, after, psn, out) && v == Onward(c, h.pipe)
    else
      WasFirstPass(before, after, if h.pipe == c.participants[i].Pipe() then cfg.bit[i] else cfg.hopBit,
                   if h.pipe == 0 then cfg.full0 else cfg.full3, psn, data, out, v)
  }

  /** The lookup and the registers. */
  method OnePass(p: Pipeline, t: T.Table, h: Header, psn: nat, data: Payload, ghost q: seq<Packet>,
                 ghost stat: T.Table, ghost chs: seq<Channel>, ghost c: Channel, ghost i: nat, ghost cfg: P.Config)
    returns (out: Payload, v: Verdict, ghost q': seq<Packet>)
    requires Wired(p, h.pipe, t, stat, chs, c) && SetUp(c, cfg) && FromPipe0(t, h)
    requires i < |c.participants| && OnItsWay(c, i, h)
    requires h.IsClear() ==> q != [] && q[0] == Packet(psn, data)
    modifies p.low, p.high, p.mapLow, p.mapHigh
    ensures ProtocolPass(old(p.PipeOf(c.unit, q)), p.PipeOf(c.unit, q'), c, i, h, cfg, psn, data, out, v)
    ensures GoesOn(t, c, i, h, v)
    ensures OthersKept(old(p.Slots()), p.Slots(), c.unit)
  {
    hide GoesOn, OthersKept, Pipeline.Slots, Exact, IsStatic, QpsByChannel, WellFormed, SmallUnits, Fits, Live, Loaded, Selected, Matches, OnItsWay, FromPipe0, SetUp;
    hide FirstN, Positions, Mask, BitOn, Onward, FirstPass, ClearPass, ClearOutput, T.FullCount, Channel.Rank, Channel.Total;
    hide Pipeline.PipeOf, Pipeline.SlotAt, Pipeline.Listed, Index, AggUnit;
    var sel := Lookup(t, h);
    SelectedRight(t, stat, chs, c, i, h, sel);
    OnTheWay(chs, c, i, h, cfg);
    ChannelLoaded(t, stat, chs, c, h.pipe, p, sel.value.bitmap);
    ghost var bit := BitOn(c, i, h.pipe);
    out, v := p.Refine(sel.value, bit, psn, data, h.IsClear(), q);
    Onwards(t, stat, chs, c, i, h, v);
    q' := if h.IsClear() then q[1..]
          else FirstPass(old(p.PipeOf(c.unit, q)), bit, if h.pipe == 0 then cfg.full0 else cfg.full3, Packet(psn, data)).recirc;
  }

  /** Passes of a unit in use leave the registers of units not in use clear. */
  lemma StillClean(s: seq<Slot>, s': seq<Slot>, chs: seq<Channel>, u: nat)
    requires |s| == |s'| == REGISTERS && u in InUse(chs)
    requires OthersKept(s, s', u)
    ensures Clean(s, chs) ==> Clean(s', chs)
  {
    hide InUse, AggUnit, Index;
    if Clean(s, chs) {
      forall r | 0 <= r < |s'| && r / SLOTS !in InUse(chs)
        ensures s'[r] == EMPTY
      {
        IndexSplit(r / SLOTS, r % SLOTS);
        assert Index(AggUnit(r / SLOTS, r % SLOTS)) == r;
      }
    }
  }

  /** A packet passes a pipe: the parser's mark, the unit selector, then the registers.  For a packet of
      participant i on its way through the switch this is a pass of the slot protocol that the channel's
      entries set up: on its own pipe a first pass with the participant's bit, on the inter-pipe port one
      with the bit between the pipes, and from a recirculation port the second pass of the packet at the
      head of the queue, whose result goes on to pipe 3 or to the workers.  Other units' slots stay, so
      those of units not in use stay clear. */
  method Process(p: Pipeline, t: T.Table, h: Header, psn: nat, data: Payload, ghost q: seq<Packet>,
                 ghost stat: T.Table, ghost chs: seq<Channel>, ghost c: Channel, ghost i: nat, ghost cfg: P.Config)
    returns (out: Payload, v: Verdict, ghost q': seq<Packet>)
    requires Wired(p, h.pipe, t, stat, chs, c) && SetUp(c, cfg) && FromPipe0(t, h)
    requires i < |c.participants| && OnItsWay(c, i, h)
    requires h.IsClear() ==> q != [] && q[0] == Packet(psn, data)
    modifies p.low, p.high, p.mapLow, p.mapHigh
    ensures ProtocolPass(old(p.PipeOf(c.unit, q)), p.PipeOf(c.unit, q'), c, i, h, cfg, psn, data, out, v)
    ensures GoesOn(t, c, i, h, v)
    ensures OthersKept(old(p.Slots()), p.Slots(), c.unit)
    ensures Clean(old(p.Slots()), chs) ==> Clean(p.Slots(), chs)
  {
    hide Wired, SetUp, FromPipe0, OnItsWay, ProtocolPass, GoesOn, OthersKept, Clean, InUse, Pipeline.Slots, Pipeline.PipeOf;
    WiredUnit(p, h.pipe, t, stat, chs, c);
    ghost var s := p.Slots();
    out, v, q' := OnePass(p, t, h, psn, data, q, stat, chs, c, i, cfg);
    StillClean(s, p.Slots(), chs, c.unit);
  }

  lemma WiredUnit(p: Pipeline, pipe: nat, t: T.Table, stat: T.Table, chs: seq<Channel>, c: Channel)
    requires Wired(p, pipe, t, stat, chs, c)
    ensures p.Valid() && c.unit in InUse(chs)
  {
    InUseHas(chs, c);
  }
}
