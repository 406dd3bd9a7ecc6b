/** What the entries of a channel mean to the data plane: they program one instance of the slot
protocol, packets find their unit and their bit whichever entry matches, and results find their way
back to every participant. */
module ChannelProgram {
  import opened Bitmaps
  import opened Channels
  import opened Tables
  import opened Reconcile
  import opened AsicDriver
  import opened Payloads
  import P = SlotProtocol
  import Aggregator

  /** The slot protocol that a channel's entries set up. */
  ghost function ConfigOf(c: Channel, input: seq<seq<Payload>>, packets: nat, chunk: nat, ring: nat): P.Config {
    P.Config(seq(|c.participants|, i requires 0 <= i < |c.participants| => c.participants[i].Pipe() == 0),
             seq(|c.participants|, i requires 0 <= i < |c.participants| => c.Rank(i)),
             c.Total(3), Positions(FirstN(FullCount(c, 0))), Positions(FirstN(FullCount(c, 3))),
             input, packets, chunk, ring)
  }

  /** The entries' contents, field by field. */
  ghost predicate SetUp(c: Channel, cfg: P.Config) {
    && 0 < |c.participants| == |cfg.input| == |cfg.onPipe0| == |cfg.bit|
    && (forall i | 0 <= i < |c.participants| :: cfg.onPipe0[i] == (c.participants[i].Pipe() == 0) && cfg.bit[i] == c.Rank(i))
    && cfg.hopBit == c.Total(3)
    && cfg.full0 == Positions(FirstN(FullCount(c, 0))) && cfg.full3 == Positions(FirstN(FullCount(c, 3)))
  }

  /** A channel that fits has room for all bits, those of the inter-pipe packets included. */
  lemma RoomForBits(c: Channel)
    requires Fits(c)
    ensures FullCount(c, 0) <= 64 && FullCount(c, 3) <= 62
    ensures Positions(Mask(c.Total(3) + 1)) == {c.Total(3) + 1}
    ensures Positions(Mask(c.Total(3))) == {c.Total(3)}
  {
    MaskPositions(c.Total(3));
    MaskPositions(c.Total(3) + 1);
  }

  lemma OnPipes(c: Channel, cfg: P.Config)
    requires c.OnUsedPipes() && SetUp(c, cfg)
    ensures cfg.On0() != {} <==> c.Total(0) > 0
    ensures cfg.On3() != {} <==> c.Total(3) > 0
  {
    var n := |c.participants|;
    forall i | 0 <= i < n
      ensures c.Total(c.participants[i].Pipe()) > 0
    {
      c.RankBelow(i);
    }
    if c.Total(0) > 0 {
      var i := c.RankOnto(0, 0, n);
      assert i in cfg.On0();
    }
    if c.Total(3) > 0 {
      var i := c.RankOnto(3, 0, n);
      assert i in cfg.On3();
    }
    if cfg.On0() != {} { var i :| i in cfg.On0(); }
    if cfg.On3() != {} { var i :| i in cfg.On3(); }
  }

  /** The ranks on a pipe are 0, 1, 2 and so on. */
  lemma RanksFill(c: Channel, pipe: nat)
    requires c.Total(pipe) <= 64
    ensures Positions(FirstN(c.Total(pipe))) == set i | 0 <= i < |c.participants| && c.participants[i].Pipe() == pipe :: c.Rank(i)
  {
    hide Positions, FirstN;
    FirstNPositions(c.Total(pipe));
    var n := |c.participants|;
    var bits := set i | 0 <= i < n && c.participants[i].Pipe() == pipe :: c.Rank(i);
    forall r: nat
      ensures r in Positions(FirstN(c.Total(pipe))) <==> r in bits
    {
      if r < c.Total(pipe) {
        var i := c.RankOnto(pipe, r, n);
        assert c.Rank(i) in bits;
      }
      if r in bits {
        var i :| 0 <= i < n && c.participants[i].Pipe() == pipe && c.Rank(i) == r;
        c.RankBelow(i);
      }
    }
  }

  lemma FullZero(c: Channel, cfg: P.Config)
    requires Fits(c) && c.OnUsedPipes() && SetUp(c, cfg)
    ensures cfg.BitsOf(cfg.On0()) == Positions(FirstN(c.Total(0)))
    ensures cfg.BitsOf(cfg.On3()) == Positions(FirstN(c.Total(3)))
  {
    hide Positions, FirstN, Channel.Rank, Channel.Total;
    TotalsFit(c);
    RanksFill(c, 0);
    RanksFill(c, 3);
    assert cfg.BitsOf(cfg.On0()) == set i | 0 <= i < |c.participants| && c.participants[i].Pipe() == 0 :: c.Rank(i);
    assert cfg.BitsOf(cfg.On3()) == set i | 0 <= i < |c.participants| && c.participants[i].Pipe() == 3 :: c.Rank(i);
  }

  lemma TotalsFit(c: Channel)
    requires Fits(c)
    ensures c.Total(0) <= 64 && c.Total(3) <= 61
  {
  }

  lemma OneMore(n: nat)
    requires n < 64
    ensures Positions(FirstN(n + 1)) == Positions(FirstN(n)) + {n}
  {
    hide Positions, FirstN;
    FirstNPositions(n);
    FirstNPositions(n + 1);
  }

  /** For any placement of up to 64 participants on pipe 0 and 61 on pipe 3, the entries set up an
      instance of the slot protocol with distinct bits on each pipe, complete bitmaps that are exactly
      those bits, and a bit of its own for the packets between the pipes; with the window of the
      client library it is a valid one. */
  lemma ChannelProgrammed(c: Channel, input: seq<seq<Payload>>, packets: nat)
    requires Fits(c) && c.OnUsedPipes() && 0 < |c.participants| == |input|
    requires forall i | 0 <= i < |input| :: |input[i]| == packets
    ensures ConfigOf(c, input, packets, 64, 4).Valid()
  {
    var cfg := ConfigOf(c, input, packets, 64, 4);
    hide P.Config.Valid, Positions, FirstN, FullCount;
    SetUpValid(c, cfg);
  }

  lemma SetUpFull0(c: Channel, cfg: P.Config)
    requires SetUp(c, cfg) && Fits(c) && c.OnUsedPipes()
    ensures cfg.full0 == cfg.BitsOf(cfg.On0())
  {
    hide Positions, FirstN, Channel.Rank, Channel.Total, P.Config.BitsOf, P.Config.On0;
    FullZero(c, cfg);
    assert FullCount(c, 0) == c.Total(0);
  }

  lemma SetUpFull3(c: Channel, cfg: P.Config)
    requires SetUp(c, cfg) && Fits(c) && c.OnUsedPipes()
    ensures cfg.full3 == cfg.BitsOf(cfg.On3()) + (if cfg.Connected() then {cfg.hopBit} else {})
  {
    hide Positions, FirstN, FullCount, SetUp, Fits, Channel.Connected, Channel.Rank, Channel.Total, P.Config.BitsOf, P.Config.On0, P.Config.On3, P.Config.Connected;
    BothPipes(c, cfg);
    FullZero(c, cfg);
    TotalsFit(c);
    SetUpFields(c, cfg);
    OneMore(c.Total(3));
  }

  lemma SetUpFields(c: Channel, cfg: P.Config)
    requires SetUp(c, cfg)
    ensures 0 < |cfg.input| == |cfg.onPipe0| == |cfg.bit|
    ensures cfg.hopBit == c.Total(3) && cfg.full3 == Positions(FirstN(c.Total(3) + (if c.Connected() then 1 else 0)))
  {
    hide Positions, FirstN, Channel.Total, Channel.Connected, Channel.Rank;
  }

  lemma BothPipes(c: Channel, cfg: P.Config)
    requires c.OnUsedPipes() && SetUp(c, cfg)
    ensures cfg.Connected() <==> c.Connected()
  {
    hide Channel.Total, P.Config.On0, P.Config.On3, FullCount, FirstN, Positions;
    OnPipes(c, cfg);
  }

  lemma SetUpValid(c: Channel, cfg: P.Config)
    requires SetUp(c, cfg) && Fits(c) && c.OnUsedPipes()
    requires forall i | 0 <= i < |cfg.input| :: |cfg.input[i]| == cfg.packets
    requires cfg.chunk == 64 && cfg.ring == 4
    ensures cfg.Valid()
  {
    hide Positions, FirstN, Channel.Rank, Channel.Total, FullCount, P.Config.Connected, P.Config.BitsOf, P.Config.On0, P.Config.On3;
    BitsDistinct(c, cfg);
    SetUpFull0(c, cfg);
    SetUpFull3(c, cfg);
  }

  lemma BitsDistinct(c: Channel, cfg: P.Config)
    requires c.OnUsedPipes() && SetUp(c, cfg)
    ensures forall i, j | 0 <= i < j < |cfg.input| && cfg.onPipe0[i] == cfg.onPipe0[j] :: cfg.bit[i] != cfg.bit[j]
    ensures forall i | 0 <= i < |cfg.input| && !cfg.onPipe0[i] :: cfg.bit[i] != cfg.hopBit
  {
    hide Channel.Rank, Channel.Total;
    forall i, j | 0 <= i < j < |cfg.input| && cfg.onPipe0[i] == cfg.onPipe0[j]
      ensures cfg.bit[i] != cfg.bit[j]
    {
      c.RankDistinct(i, j);
    }
    forall i | 0 <= i < |cfg.input| && !cfg.onPipe0[i]
      ensures cfg.bit[i] != cfg.hopBit
    {
      c.RankBelow(i);
    }
  }

  /** The fields of a packet that the unit selector looks at, and the pipe it enters. */
  datatype Header = Header(pipe: nat, srcIp: nat, dstQp: nat, port: nat) {
    /** The parser's mark for packets that come back from recirculation. */
    predicate IsClear() {
      port == 68 || port == 196 || port == 324 || port == 452
    }
  }

  /** Those are the ports number 68 of the four pipes; no front panel port is one of them. */
  lemma ClearPorts(h: Header)
    ensures h.IsClear() <==> h.port < 512 && h.port % 128 == 68
    ensures FrontPanel(h.port) ==> !h.IsClear()
  {
  }

  /** A packet as it comes in again on a port. */
  function Again(h: Header, port: nat): Header {
    Header(port / 128, h.srcIp, h.dstQp, port)
  }

  /** The ternary match of a selector entry. */
  predicate Matches(k: Key, h: Header) {
    match k
    case FromNode(pipe, ip, qp) => pipe == h.pipe && ip == h.srcIp && qp == h.dstQp
    case FromPort(pipe, common, port) => pipe == h.pipe && common == h.dstQp / 256 && port == h.port
    case _ => false
  }

  /** Fabric queue pairs start with the 16 bits of their channel. */
  ghost predicate QpsByChannel(chs: seq<Channel>) {
    forall c, p | c in chs && p in c.participants && p.Known() :: p.fabricQp / 256 == c.qpCommon
  }

  ghost predicate SentBy(c: Channel, i: nat, srcIp: nat, dstQp: nat)
    requires i < |c.participants|
  {
    c.participants[i].ip == srcIp && c.participants[i].fabricQp == dstQp
  }

  /** What arrives at the inter-pipe port is a packet of some participant on pipe 0. */
  ghost predicate HopOrigin(chs: seq<Channel>, h: Header) {
    h.port == HOP_PORT ==>
      exists c, i :: Live(chs, c) && 0 <= i < |c.participants| && SentBy(c, i, h.srcIp, h.dstQp) && c.participants[i].Pipe() == 0
  }

  /** A packet on the inter-pipe port has been selected on pipe 0, with the same addresses. */
  ghost predicate FromPipe0(t: Table, h: Header) {
    h.port == HOP_PORT ==> exists k, port :: k in t && Matches(k, Header(0, h.srcIp, h.dstQp, port))
  }

  /** On pipe 0 only packets of participants there are selected. */
  lemma HopSource(t: Table, stat: Table, chs: seq<Channel>, h: Header)
    requires IsStatic(stat) && Exact(t, stat, chs) && WellFormed(chs) && FromPipe0(t, h)
    ensures HopOrigin(chs, h)
  {
    if h.port == HOP_PORT {
      var k, port :| k in t && Matches(k, Header(0, h.srcIp, h.dstQp, port));
      var c := SelectorOwner(t, stat, chs, k);
      hide Exact, WellFormed, IsStatic, Mask, Channel.Rank, Live;
      assert k.FromNode? && PartWants(c, |c.participants|, k, t[k]);
      var i :| 0 <= i < |c.participants| && IsPart(c, i, k.pipe, k.ip, k.qp);
      assert SentBy(c, i, h.srcIp, h.dstQp);
    }
  }

  lemma SelectorOwner(t: Table, stat: Table, chs: seq<Channel>, k: Key) returns (c: Channel)
    requires IsStatic(stat) && Exact(t, stat, chs) && WellFormed(chs) && k in t && (k.FromNode? || k.FromPort?)
    ensures Live(chs, c) && Wants(c, k, t[k]) && Owns(c, k, t[k])
  {
    ExactEntry(t, stat, chs, k, t[k]);
    c :| Live(chs, c) && Wants(c, k, t[k]);
    hide Wants;
    WantsOwns(c, k, t[k]);
  }

  lemma QpChannel(chs: seq<Channel>, c: Channel, ip: nat, qp: nat)
    requires QpsByChannel(chs) && c in chs && Mentions(c, ip, qp) && ip != 0
    ensures qp / 256 == c.qpCommon
  {
    var p :| p in c.participants && p.ip == ip && p.fabricQp == qp;
    assert p.Known();
  }

  /** Whichever matching selector entry has priority, the packet gets the same unit, and the same
      bitmap too unless it is a second pass, which does not use it. */
  lemma PriorityIrrelevant(t: Table, stat: Table, chs: seq<Channel>, h: Header, k: Key, l: Key)
    requires IsStatic(stat) && Exact(t, stat, chs) && WellFormed(chs) && QpsByChannel(chs) && FromPipe0(t, h)
    requires k in t && l in t && Matches(k, h) && Matches(l, h)
    ensures t[k].Select? && t[l].Select? && t[k].agg == t[l].agg
    ensures t[k].bitmap == t[l].bitmap || h.IsClear()
  {
    var c := SelectorOwner(t, stat, chs, k);
    var d := SelectorOwner(t, stat, chs, l);
    HopSource(t, stat, chs, h);
    hide Wants, Exact, FromPipe0;
    if k.FromNode? { QpChannel(chs, c, k.ip, k.qp); }
    if l.FromNode? { QpChannel(chs, d, l.ip, l.qp); }
    assert c.qpCommon == d.qpCommon;
    assert c == d;
    if k != l {
      if k.FromNode? { HopOnly(t, stat, chs, h, c, k, l); } else if l.FromNode? { HopOnly(t, stat, chs, h, c, l, k); }
    }
  }

  /** A participant's entry and an inter-pipe entry match the same packet only on its second pass. */
  lemma HopOnly(t: Table, stat: Table, chs: seq<Channel>, h: Header, c: Channel, k: Key, l: Key)
    requires IsStatic(stat) && WellFormed(chs) && HopOrigin(chs, h) && Live(chs, c)
    requires k.FromNode? && l.FromPort? && Matches(k, h) && Matches(l, h)
    requires k in t && l in t && Wants(c, k, t[k]) && Wants(c, l, t[l])
    ensures h.IsClear()
  {
    hide Mask, IsStatic;
    assert PartWants(c, |c.participants|, k, t[k]) && HopWants(c, l, t[l]);
    hide Wants, Channel.Rank, Channel.Total, HopWants, WellFormed;
    assert l.pipe == 3 && (l.port == HOP_PORT || l.port == RECIRC_PORT_3) by { HopPorts(c, l, t[l]); }
    if l.port == HOP_PORT {
      var d, j :| Live(chs, d) && 0 <= j < |d.participants| && SentBy(d, j, h.srcIp, h.dstQp) && d.participants[j].Pipe() == 0;
      var i :| 0 <= i < |c.participants| && IsPart(c, i, k.pipe, k.ip, k.qp);
      SameSender(chs, c, i, d, j, h.srcIp, h.dstQp);
      assert false;
    }
  }

  lemma SameSender(chs: seq<Channel>, c: Channel, i: nat, d: Channel, j: nat, ip: nat, qp: nat)
    requires WellFormed(chs) && Live(chs, c) && Live(chs, d) && i < |c.participants| && j < |d.participants|
    requires SentBy(c, i, ip, qp) && SentBy(d, j, ip, qp)
    ensures c == d && i == j
  {
    assert c.participants[i].Known() && d.participants[j].Known();
    assert c.participants[i] in c.participants && d.participants[j] in d.participants;
    assert c.Distinct();
  }

  lemma HopPorts(c: Channel, k: Key, a: Action)
    requires HopWants(c, k, a)
    ensures k.pipe == 3 && (k.port == HOP_PORT || k.port == RECIRC_PORT_3)
  {
  }

  /** A participant's packets are selected for its channel's unit with the participant's bit, and
      its acknowledgements are reflected to its own queue pair. */
  lemma OwnSelection(t: Table, stat: Table, chs: seq<Channel>, c: Channel, i: nat)
    requires Exact(t, stat, chs) && Live(chs, c) && i < |c.participants|
    ensures
      var p := c.participants[i];
      var k, l := FromNode(p.Pipe(), p.ip, p.fabricQp), Ack(p.Pipe(), p.ip, p.fabricQp);
      && k in t && t[k] == Select(c.unit, Mask(c.Rank(i)))
      && l in t && t[l] == Reflect(p.localQp)
  {
    hide Mask, Exact;
    var p := c.participants[i];
    var k, a := FromNode(p.Pipe(), p.ip, p.fabricQp), Select(c.unit, Mask(c.Rank(i)));
    var l, b := Ack(p.Pipe(), p.ip, p.fabricQp), Reflect(p.localQp);
    assert IsPart(c, i, p.Pipe(), p.ip, p.fabricQp);
    assert PartWants(c, |c.participants|, k, a) && PartWants(c, |c.participants|, l, b);
    assert Wanted(chs, k, a) && Wanted(chs, l, b);
    ExactEntry(t, stat, chs, k, a);
    ExactEntry(t, stat, chs, l, b);
  }

  /** What arrives on the inter-pipe port of pipe 3 for a connected channel is selected with the bit
      between the pipes, and what comes back from recirculation there is selected too. */
  lemma HopSelection(t: Table, stat: Table, chs: seq<Channel>, c: Channel)
    requires Exact(t, stat, chs) && Live(chs, c) && c.Connected()
    ensures
      var k, l := FromPort(3, c.qpCommon, HOP_PORT), FromPort(3, c.qpCommon, RECIRC_PORT_3);
      && k in t && t[k] == Select(c.unit, Mask(c.Total(3)))
      && l in t && t[l].Select? && t[l].agg == c.unit
  {
    hide Mask, Exact, Channel.Total, Channel.Connected;
    var k, a := FromPort(3, c.qpCommon, HOP_PORT), Select(c.unit, Mask(c.Total(3)));
    var l, b := FromPort(3, c.qpCommon, RECIRC_PORT_3), Select(c.unit, Mask(c.Total(3) + 1));
    assert UnitWants(c, k, a) && UnitWants(c, l, b);
    assert Wanted(chs, k, a) && Wanted(chs, l, b);
    ExactEntry(t, stat, chs, k, a);
    ExactEntry(t, stat, chs, l, b);
  }

  /** The ways of a participant's packet through the switch: its own pipe, first and second pass;
      and, from pipe 0 of a connected channel, the inter-pipe and the recirculation port of pipe 3. */
  predicate OnItsWay(c: Channel, i: nat, h: Header)
    requires i < |c.participants|
  {
    var p := c.participants[i];
    && h.srcIp == p.ip && h.dstQp == p.fabricQp
    && (h.pipe == p.Pipe() || (p.Pipe() == 0 && c.Connected() && h.pipe == 3 && (h.port == HOP_PORT || h.port == RECIRC_PORT_3)))
  }

  /** Wherever a participant's packet comes by, some entry selects its channel's unit. */
  lemma AlwaysSelected(t: Table, stat: Table, chs: seq<Channel>, c: Channel, i: nat, h: Header)
    requires Exact(t, stat, chs) && QpsByChannel(chs) && Live(chs, c) && i < |c.participants| && OnItsWay(c, i, h)
    ensures exists k :: k in t && Matches(k, h) && t[k].Select? && t[k].agg == c.unit
  {
    hide Mask, Exact, Channel.Total, Channel.Connected, Channel.Rank;
    var p := c.participants[i];
    if h.pipe == p.Pipe() {
      OwnSelection(t, stat, chs, c, i);
      assert Matches(FromNode(p.Pipe(), p.ip, p.fabricQp), h);
    } else {
      HopSelection(t, stat, chs, c);
      assert p in c.participants && p.Known();
      assert Matches(FromPort(3, c.qpCommon, h.port), h);
    }
  }

  /** The switch port that a copy arriving on a fan-out port is sent to: bit 7 cleared on pipe 1,
      set on pipe 2. */
  function ReturnPort(port: nat): nat {
    if port / 128 == 1 then port % 128
    else if port / 128 == 2 then port + 128
    else port
  }

  lemma ReturnTrip(port: nat)
    requires port / 128 == 0 || port / 128 == 3
    ensures ReturnPort(FanOutPort(port)) == port
    ensures FanOutPort(port) / 128 == FanOutPipe(port / 128)
  {
  }

  /** The group that a complete channel's results are distributed to has one node for each
      participant; the copy it makes comes to the pipe whose address table knows its replication id,
      is addressed to the participant there, and leaves on the participant's port. */
  lemma FanOutReaches(t: Table, stat: Table, chs: seq<Channel>, c: Channel, i: nat)
    requires Exact(t, stat, chs) && NodesExact(t, chs) && WellFormed(chs) && Live(chs, c) && i < |c.participants|
    ensures
      var g, p := Group(GroupId(c.unit)), c.participants[i];
      && g in t && t[g].Members? && |t[g].nodes| == |c.participants|
      && t[g].nodes[i] == 0x1000 + 0x200 * (c.unit / 8) + i
      && (forall j | 0 <= j < |c.participants| && j != i :: t[g].nodes[j] != t[g].nodes[i])
      && Node(t[g].nodes[i]) in t
      && var copy := t[Node(t[g].nodes[i])];
         && copy == Copy(i + 1, FanOutPort(p.port))
         && Address(copy.port / 128, c.unit, copy.rid) in t
         && t[Address(copy.port / 128, c.unit, copy.rid)] == Rewrite(p.mac, p.ip, p.localQp)
         && ReturnPort(copy.port) == p.port
  {
    var p := c.participants[i];
    GroupIn(t, stat, chs, c);
    WantsNode(c, i);
    NodesExactEntry(t, chs, Node(NodeId(c.unit, i)), Copy(i + 1, FanOutPort(p.port)));
    assert Wanted(chs, Node(NodeId(c.unit, i)), Copy(i + 1, FanOutPort(p.port)));
    assert p.Pipe() == 0 || p.Pipe() == 3;
    ReturnTrip(p.port);
    AddressIn(t, stat, chs, c, i);
    hide Wants, Wanted, Exact, NodesExact, WellFormed, FanOutPort, FanOutPipe, ReturnPort, Live;
  }

  lemma GroupIn(t: Table, stat: Table, chs: seq<Channel>, c: Channel)
    requires Exact(t, stat, chs) && Live(chs, c)
    ensures var g := Group(GroupId(c.unit)); g in t && t[g] == Members(NodeIds(c.unit, |c.participants|))
  {
    var g, a := Group(GroupId(c.unit)), Members(NodeIds(c.unit, |c.participants|));
    assert UnitWants(c, g, a) && Wants(c, g, a);
    ExactEntry(t, stat, chs, g, a);
  }

  lemma AddressIn(t: Table, stat: Table, chs: seq<Channel>, c: Channel, i: nat)
    requires Exact(t, stat, chs) && Live(chs, c) && i < |c.participants|
    ensures
      var p := c.participants[i];
      var k := Address(FanOutPipe(p.Pipe()), c.unit, i + 1);
      k in t && t[k] == Rewrite(p.mac, p.ip, p.localQp)
  {
    var p := c.participants[i];
    var k, a := Address(FanOutPipe(p.Pipe()), c.unit, i + 1), Rewrite(p.mac, p.ip, p.localQp);
    assert PartWants(c, |c.participants|, k, a);
    assert Wants(c, k, a);
    ExactEntry(t, stat, chs, k, a);
  }

  /** The tables know every participant of a channel: its packets by its address and fabric queue pair, and
      where they and the copies made for it go, which come by pipe 1 for ports of pipe 0 and by pipe 2 for
      those of pipe 3. */
  ghost predicate Knows(t: Table, c: Channel) {
    forall i | 0 <= i < |c.participants| :: KnowsOne(t, c, i)
  }

  ghost predicate KnowsOne(t: Table, c: Channel, i: nat)
    requires i < |c.participants|
  {
    var p := c.participants[i];
    var from, ack, to := FromNode(p.port / 128, p.ip, p.fabricQp), Ack(p.port / 128, p.ip, p.fabricQp),
                         Address(if p.port < 128 then 1 else 2, c.unit, i + 1);
    && from in t && t[from] == Select(c.unit, Mask(c.Rank(i)))
    && ack in t && t[ack] == Reflect(p.localQp)
    && to in t && t[to] == Rewrite(p.mac, p.ip, p.localQp)
  }

  /** Tables that are exact know the participants of all complete channels. */
  lemma ExactKnows(t: Table, stat: Table, chs: seq<Channel>, c: Channel)
    requires Exact(t, stat, chs) && Live(chs, c)
    ensures Knows(t, c)
  {
    hide Exact, Mask, Channel.Rank;
    forall i | 0 <= i < |c.participants|
      ensures KnowsOne(t, c, i)
    {
      OwnSelection(t, stat, chs, c, i);
      AddressIn(t, stat, chs, c, i);
    }
  }

  /** Which replication id the group gives a participant if participants on pipes 1 and 2 are
      skipped, as the group's loop does and the loop over addresses does not. */
  function GroupRid(c: Channel, i: nat): nat
    requires i < |c.participants|
  {
    1 + c.Count(0, i) + c.Count(3, i)
  }

  /** The two loops agree on a participant exactly when none before it is on pipe 1 or 2. */
  lemma {:induction false} RidsAgree(c: Channel, i: nat)
    requires i < |c.participants|
    ensures GroupRid(c, i) <= i + 1
    ensures GroupRid(c, i) == i + 1 <==>
            forall j | 0 <= j < i :: c.participants[j].Pipe() == 0 || c.participants[j].Pipe() == 3
  {
    if i > 0 { RidsAgree(c, i - 1); }
  }
}
