/** The match tables of the switch, all in one map, and the entries that a channel needs. */
module Tables {
  import opened Bitmaps
  import opened Channels

  /** The keys of all tables.  The fabric address, which is part of every selector key, is the same
      for all channels and left out. */
  datatype Key =
    | FromNode(pipe: nat, ip: nat, qp: nat)            // unit_selector: a participant's packets
    | FromPort(pipe: nat, common: nat, port: nat)      // unit_selector: packets from an inter-pipe port
    | Contribution(pipe: nat, unit: nat, full: Bitmap) // check_complete, first passes
    | Clearing(pipe: nat, unit: nat)                   // check_complete, second passes
    | Address(pipe: nat, unit: nat, rid: nat)          // output_address
    | Ack(pipe: nat, ip: nat, qp: nat)                 // roce_ack_reflector
    | Choose(alu: nat, unit: nat, isClear: bool)       // choose_action of the 32 arithmetic units
    | Group(id: nat)                                   // multicast groups
    | Node(id: nat)                                    // multicast nodes

  datatype Action =
    | Select(agg: nat, bitmap: Bitmap)
    | Recirculate(port: nat)
    | NextPipe(port: nat)
    | Distribute(group: nat)
    | Rewrite(mac: nat, ip: nat, qp: nat)
    | Reflect(qp: nat)
    | AddValues
    | ClearValues
    | Members(nodes: seq<nat>)
    | Copy(rid: nat, port: nat)

  type Table = map<Key, Action>

  const ALUS: nat := 32

  function GroupId(unit: nat): nat {
    0x10 + unit
  }

  /** Multicast node of the participant at index i: units in the same block of eight share nodes. */
  function NodeId(unit: nat, i: nat): nat {
    0x1000 + 0x200 * (unit / 8) + i
  }

  /** The port on the pipe where results are fanned out. */
  function FanOutPort(port: nat): nat {
    if port < 128 then port + 128 else if port >= 384 then port - 128 else port
  }

  /** Its pipe: 1 for pipe 0, 2 for pipe 3. */
  function FanOutPipe(pipe: nat): nat {
    if pipe == 0 then 1 else 2
  }

  const HOP_PORT: nat := 448
  const RECIRC_PORT_3: nat := 452

  function NodeMap(c: Channel, n: nat): Table
    requires n <= |c.participants|
  {
    if n == 0 then map[]
    else NodeMap(c, n - 1)[Node(NodeId(c.unit, n - 1)) := Copy(n, FanOutPort(c.participants[n - 1].port))]
  }

  function NodeIds(unit: nat, n: nat): (ids: seq<nat>)
    ensures |ids| == n
  {
    seq(n, i requires 0 <= i < n => NodeId(unit, i))
  }

  function PartMap(c: Channel, n: nat): Table
    requires n <= |c.participants|
  {
    if n == 0 then map[]
    else
      var p := c.participants[n - 1];
      PartMap(c, n - 1)
        [FromNode(p.Pipe(), p.ip, p.fabricQp) := Select(c.unit, Mask(c.Rank(n - 1)))]
        [Address(FanOutPipe(p.Pipe()), c.unit, n) := Rewrite(p.mac, p.ip, p.localQp)]
        [Ack(p.Pipe(), p.ip, p.fabricQp) := Reflect(p.localQp)]
  }

  /** With participants on both pipes, pipe 3 also takes packets from pipe 0 and its own
      recirculated ones. */
  function HopMap(c: Channel): Table {
    if c.Connected() then
      map[FromPort(3, c.qpCommon, HOP_PORT) := Select(c.unit, Mask(c.Total(3))),
          FromPort(3, c.qpCommon, RECIRC_PORT_3) := Select(c.unit, Mask(c.Total(3) + 1))]
    else map[]
  }

  /** How many contributions complete a packet on a pipe. */
  function FullCount(c: Channel, pipe: nat): nat {
    c.Total(pipe) + (if pipe == 3 && c.Connected() then 1 else 0)
  }

  function CompleteMap(c: Channel, pipe: nat): Table {
    if FullCount(c, pipe) == 0 then map[]
    else
      map[Contribution(pipe, c.unit, FirstN(FullCount(c, pipe))) := Recirculate(pipe * 128 + 68),
          Clearing(pipe, c.unit) :=
            if c.Connected() && pipe != 3 then NextPipe(HOP_PORT + pipe * 4) else Distribute(GroupId(c.unit))]
  }

  function ChooseMap(unit: nat, n: nat): Table {
    if n == 0 then map[]
    else ChooseMap(unit, n - 1)[Choose(n - 1, unit, false) := AddValues][Choose(n - 1, unit, true) := ClearValues]
  }

  /** All entries of a channel. */
  function Required(c: Channel): Table {
    NodeMap(c, |c.participants|) + map[Group(GroupId(c.unit)) := Members(NodeIds(c.unit, |c.participants|))]
    + PartMap(c, |c.participants|) + HopMap(c) + CompleteMap(c, 0) + CompleteMap(c, 3) + ChooseMap(c.unit, ALUS)
  }

  /** The same, entry by entry. */
  ghost predicate Wants(c: Channel, k: Key, a: Action) {
    || NodeWants(c, |c.participants|, k, a)
    || PartWants(c, |c.participants|, k, a)
    || UnitWants(c, k, a)
  }

  /** One entry of the tables that are not filled participant by participant. */
  ghost predicate UnitWants(c: Channel, k: Key, a: Action) {
    match k
    case FromPort(pipe, common, port) =>
      HopWants(c, k, a)
    case Contribution(pipe, unit, full) =>
      (pipe == 0 || pipe == 3) && CompleteWants(c, pipe, k, a)
    case Clearing(pipe, unit) =>
      (pipe == 0 || pipe == 3) && CompleteWants(c, pipe, k, a)
    case Choose(alu, unit, isClear) =>
      unit == c.unit && alu < ALUS && a == if isClear then ClearValues else AddValues
    case Group(id) =>
      id == GroupId(c.unit) && a == Members(NodeIds(c.unit, |c.participants|))
    case _ => false
  }

  ghost predicate HopWants(c: Channel, k: Key, a: Action) {
    && c.Connected() && k.FromPort? && k.pipe == 3 && k.common == c.qpCommon
    && (k.port == HOP_PORT || k.port == RECIRC_PORT_3)
    && a == Select(c.unit, Mask(if k.port == HOP_PORT then c.Total(3) else c.Total(3) + 1))
  }

  ghost predicate CompleteWants(c: Channel, pipe: nat, k: Key, a: Action) {
    && FullCount(c, pipe) > 0
    && match k
       case Contribution(p, unit, full) =>
         p == pipe && unit == c.unit && full == FirstN(FullCount(c, pipe)) && a == Recirculate(pipe * 128 + 68)
       case Clearing(p, unit) =>
         p == pipe && unit == c.unit &&
         a == if c.Connected() && pipe != 3 then NextPipe(HOP_PORT + pipe * 4) else Distribute(GroupId(c.unit))
       case _ => false
  }

  predicate IsPart(c: Channel, i: nat, pipe: nat, ip: nat, qp: nat)
    requires i < |c.participants|
  {
    var p := c.participants[i];
    pipe == p.Pipe() && ip == p.ip && qp == p.fabricQp
  }

  /** `Wants` for the tables filled participant by participant, with only the first m of them. */
  ghost predicate NodeWants(c: Channel, m: nat, k: Key, a: Action)
    requires m <= |c.participants|
  {
    k.Node? && exists i :: 0 <= i < m && k.id == NodeId(c.unit, i) && a == Copy(i + 1, FanOutPort(c.participants[i].port))
  }

  ghost predicate PartWants(c: Channel, m: nat, k: Key, a: Action)
    requires m <= |c.participants|
  {
    match k
    case FromNode(pipe, ip, qp) =>
      exists i :: 0 <= i < m && IsPart(c, i, pipe, ip, qp) && a == Select(c.unit, Mask(c.Rank(i)))
    case Address(pipe, unit, rid) =>
      unit == c.unit && 0 < rid <= m && pipe == FanOutPipe(c.participants[rid - 1].Pipe()) &&
      a == Rewrite(c.participants[rid - 1].mac, c.participants[rid - 1].ip, c.participants[rid - 1].localQp)
    case Ack(pipe, ip, qp) =>
      exists i :: 0 <= i < m && IsPart(c, i, pipe, ip, qp) && a == Reflect(c.participants[i].localQp)
    case _ => false
  }

  lemma {:induction false} NodeMapOnly(c: Channel, m: nat, k: Key)
    requires m <= |c.participants| && k in NodeMap(c, m)
    ensures NodeWants(c, m, k, NodeMap(c, m)[k])
  {
    if k != Node(NodeId(c.unit, m - 1)) {
      NodeMapOnly(c, m - 1, k);
    }
  }

  lemma {:induction false} NodeMapAll(c: Channel, m: nat, k: Key, a: Action)
    requires m <= |c.participants| && NodeWants(c, m, k, a)
    ensures k in NodeMap(c, m) && NodeMap(c, m)[k] == a
  {
    if k != Node(NodeId(c.unit, m - 1)) {
      NodeMapAll(c, m - 1, k, a);
    }
  }

  lemma {:induction false} PartMapOnly(c: Channel, m: nat, k: Key)
    requires m <= |c.participants| && k in PartMap(c, m)
    ensures PartWants(c, m, k, PartMap(c, m)[k])
  {
    hide Mask;
    var p := c.participants[m - 1];
    assert IsPart(c, m - 1, p.Pipe(), p.ip, p.fabricQp);
    if k in PartMap(c, m - 1) {
      PartMapOnly(c, m - 1, k);
    }
  }

  lemma {:induction false} PartMapAll(c: Channel, m: nat, k: Key, a: Action)
    requires m <= |c.participants| && PartWants(c, m, k, a) && c.Distinct()
    ensures k in PartMap(c, m) && PartMap(c, m)[k] == a
  {
    hide Mask;
    var p := c.participants[m - 1];
    if PartWants(c, m - 1, k, a) {
      PartMapAll(c, m - 1, k, a);
      assert c.Distinct();
    }
  }

  lemma {:induction false} ChooseMapIs(unit: nat, m: nat, k: Key)
    ensures k in ChooseMap(unit, m) <==> k.Choose? && k.unit == unit && k.alu < m
    ensures k in ChooseMap(unit, m) ==> ChooseMap(unit, m)[k] == if k.isClear then ClearValues else AddValues
  {
    if m > 0 { ChooseMapIs(unit, m - 1, k); }
  }

  lemma HopMapIs(c: Channel, k: Key, a: Action)
    ensures k in HopMap(c) && HopMap(c)[k] == a <==> HopWants(c, k, a)
  {
    hide Mask, Channel.Connected, Channel.Total;
  }

  lemma CompleteMapIs(c: Channel, pipe: nat, k: Key, a: Action)
    ensures k in CompleteMap(c, pipe) && CompleteMap(c, pipe)[k] == a <==> CompleteWants(c, pipe, k, a)
  {
    hide FirstN, Channel.Connected, FullCount;
  }

  /** Each kind of key occurs in one of the parts only. */
  lemma MapKinds(c: Channel, k: Key)
    ensures k in NodeMap(c, |c.participants|) ==> k.Node?
    ensures k in PartMap(c, |c.participants|) ==> k.FromNode? || k.Address? || k.Ack?
    ensures k in HopMap(c) ==> k.FromPort?
    ensures forall pipe: nat | k in CompleteMap(c, pipe) :: (k.Contribution? || k.Clearing?) && k.pipe == pipe
    ensures k in ChooseMap(c.unit, ALUS) ==> k.Choose?
  {
    var n := |c.participants|;
    ChooseMapIs(c.unit, ALUS, k);
    if k in PartMap(c, n) { PartMapOnly(c, n, k); }
    if k in NodeMap(c, n) { NodeMapOnly(c, n, k); }
    hide NodeMap, PartMap, ChooseMap, Mask, FirstN;
  }

  /** A channel's entries are exactly the ones it wants. */
  lemma RequiredOnly(c: Channel, k: Key)
    requires k in Required(c)
    ensures Wants(c, k, Required(c)[k])
  {
    hide NodeMap, PartMap, HopMap, CompleteMap, ChooseMap, NodeWants, PartWants, CompleteWants;
    var a, n := Required(c)[k], |c.participants|;
    MapKinds(c, k);
    ChooseMapIs(c.unit, ALUS, k);
    HopMapIs(c, k, a);
    CompleteMapIs(c, 0, k, a);
    CompleteMapIs(c, 3, k, a);
    if k in PartMap(c, n) { PartMapOnly(c, n, k); }
    if k in NodeMap(c, n) { NodeMapOnly(c, n, k); }
  }

  lemma RequiredAll(c: Channel, k: Key, a: Action)
    requires Wants(c, k, a) && c.Distinct()
    ensures k in Required(c) && Required(c)[k] == a
  {
    hide NodeMap, PartMap, HopMap, CompleteMap, ChooseMap;
    var n := |c.participants|;
    ChooseMapIs(c.unit, ALUS, k);
    HopMapIs(c, k, a);
    CompleteMapIs(c, 0, k, a);
    CompleteMapIs(c, 3, k, a);
    if NodeWants(c, n, k, a) { NodeMapAll(c, n, k, a); }
    if PartWants(c, n, k, a) { PartMapAll(c, n, k, a); }
    MapKinds(c, k);
  }
}
