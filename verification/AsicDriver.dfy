/** The driver: a pass over the repository's channels that adds missing table entries, deletes excess
ones and clears the registers of units that are no longer in use. */
module AsicDriver {
  import opened Bitmaps
  import opened Channels
  import opened Tables
  import opened Reconcile
  import Aggregator
  import C = Collectives

  const AGG_UNITS: nat := 64

  /** How many participants fit on a pipe; pipe 3 keeps positions for the other pipes. */
  function Limit(pipe: nat): nat {
    if pipe == 3 then 61 else 64
  }

  predicate Fits(c: Channel) {
    c.Total(0) <= Limit(0) && c.Total(3) <= Limit(3)
  }

  /** Registers of units that no complete channel uses hold nothing. */
  ghost predicate Clean(slots: seq<Aggregator.Slot>, chs: seq<Channel>) {
    forall r | 0 <= r < |slots| && r / Aggregator.SLOTS !in InUse(chs) :: slots[r] == Aggregator.EMPTY
  }

  /** The units whose registers exist: the slot index has room for six bits of the unit. */
  ghost predicate SmallUnits(chs: seq<Channel>) {
    forall u <- InUse(chs) :: u < AGG_UNITS
  }

  /** The slots of the given units are cleared and no others touched. */
  ghost predicate Cleared(s: seq<Aggregator.Slot>, s': seq<Aggregator.Slot>, units: set<nat>) {
    && |s| == |s'|
    && forall r | 0 <= r < |s| :: s'[r] == if r / Aggregator.SLOTS in units then Aggregator.EMPTY else s[r]
  }

  lemma ClearedMore(s: seq<Aggregator.Slot>, s1: seq<Aggregator.Slot>, s2: seq<Aggregator.Slot>, units: set<nat>, u: nat)
    requires Cleared(s, s1, units) && Cleared(s1, s2, {u})
    ensures Cleared(s, s2, units + {u})
  {
  }

  lemma CleanAfter(t: Table, stat: Table, before: seq<Channel>, chs: seq<Channel>, s: seq<Aggregator.Slot>, s': seq<Aggregator.Slot>)
    requires Pass(t, stat, before, chs) && Clean(s, before) && Cleared(s, s', ToClear(Added(t, chs), InUse(chs)))
    ensures Clean(s', chs)
  {
    hide Pass, InUse, ToClear, Added;
    forall r | 0 <= r < |s'| && r / Aggregator.SLOTS !in InUse(chs)
      ensures s'[r] == Aggregator.EMPTY
    {
      var u := r / Aggregator.SLOTS;
      if u in InUse(before) { PassClears(t, stat, before, chs, u); }
    }
  }

  /** A pass clears exactly the units that go out of use. */
  lemma PassRecycles(t: Table, stat: Table, before: seq<Channel>, chs: seq<Channel>)
    requires Pass(t, stat, before, chs)
    ensures ToClear(Added(t, chs), InUse(chs)) == InUse(before) - InUse(chs)
  {
    hide Pass, InUse, ToClear, Added;
    forall u
      ensures u in ToClear(Added(t, chs), InUse(chs)) <==> u in InUse(before) && u !in InUse(chs)
    {
      if u in ToClear(Added(t, chs), InUse(chs)) { ClearsUsed(t, stat, before, chs, u); }
      if u in InUse(before) && u !in InUse(chs) { PassClears(t, stat, before, chs, u); }
    }
  }

  /** The slots of pipes 0 and 3. */
  type Bank = (seq<Aggregator.Slot>, seq<Aggregator.Slot>)

  ghost predicate BothCleared(s: Bank, s': Bank, units: set<nat>) {
    Cleared(s.0, s'.0, units) && Cleared(s.1, s'.1, units)
  }

  lemma NothingCleared(s: Bank, s': Bank)
    requires BothCleared(s, s', {})
    ensures s' == s
  {
    assert s'.0 == s.0 && s'.1 == s.1;
  }

  lemma BothClearedMore(s: Bank, s1: Bank, s2: Bank, units: set<nat>, more: set<nat>)
    requires BothCleared(s, s1, units) && BothCleared(s1, s2, more)
    ensures BothCleared(s, s2, units + more)
  {
  }

  /** Registers of a unit that no channel uses are those of an idle pipe, where the slot protocol
      starts. */
  lemma CleanStart(p: C.Pipeline, chs: seq<Channel>, u: nat)
    requires p.Valid() && Clean(p.Slots(), chs) && u !in InUse(chs) && u < AGG_UNITS
    ensures p.PipeOf(u, []) == Aggregator.IdlePipe()
  {
    hide InUse;
    forall k | 0 <= k < Aggregator.SLOTS
      ensures p.PipeOf(u, []).slots[k] == Aggregator.EMPTY
    {
      C.IndexSplit(u, k);
      assert C.Index(C.AggUnit(u, k)) / Aggregator.SLOTS == u;
    }
  }

  lemma ClearsSmall(t: Table, stat: Table, before: seq<Channel>, chs: seq<Channel>)
    requires Pass(t, stat, before, chs) && SmallUnits(before)
    ensures forall u <- ToClear(Added(t, chs), InUse(chs)) :: u < AGG_UNITS
  {
    hide Pass, InUse, ToClear, Added;
    forall u | u in ToClear(Added(t, chs), InUse(chs))
      ensures u < AGG_UNITS
    {
      ClearsUsed(t, stat, before, chs, u);
    }
  }

  ghost predicate AllFit(chs: seq<Channel>) {
    forall c | Live(chs, c) :: Fits(c)
  }

  /** The bitmaps after the first n participants. */
  ghost predicate BitmapsOk(c: Channel, n: nat, node: seq<Bitmap>, full: seq<Bitmap>)
    requires n <= |c.participants|
  {
    && |node| == |full| == 4
    && forall p | 0 <= p < 4 ::
         c.Count(p, n) <= Limit(p) && node[p] == Mask(c.Count(p, n)) && full[p] == FirstN(c.Count(p, n))
  }

  /** The driver's check and its step from one participant's bit to the next. */
  lemma NextBit(pipe: nat, k: nat)
    requires k <= Limit(pipe)
    ensures FirstN(k).high >= (if pipe == 3 then 0x1fff_ffff else 0xffff_ffff) <==> k == Limit(pipe)
    ensures k < Limit(pipe) ==> Shift(Mask(k)) == Mask(k + 1) && Or(FirstN(k), Mask(k)) == FirstN(k + 1)
  {
    hide Mask, FirstN, Shift, Or;
    Limits(k);
    if k < Limit(pipe) {
      OrMask(k);
      ShiftMask(k);
    }
  }

  lemma NextBits(c: Channel, i: nat, node: seq<Bitmap>, full: seq<Bitmap>)
    requires i < |c.participants| && BitmapsOk(c, i, node, full) && c.participants[i].Pipe() < 4
    ensures
      var p := c.participants[i].Pipe();
      && node[p] == Mask(c.Rank(i))
      && (full[p].high >= (if p == 3 then 0x1fff_ffff else 0xffff_ffff) <==> c.Count(p, i + 1) > Limit(p))
      && (c.Count(p, i + 1) <= Limit(p) ==> BitmapsOk(c, i + 1, node[p := Shift(node[p])], full[p := Or(full[p], node[p])]))
  {
    hide Mask, FirstN, Shift, Or, Limit, Channel.Count, Channel.Rank;
    var p := c.participants[i].Pipe();
    CountStep(c, i);
    NextBit(p, c.Count(p, i));
  }

  lemma CountStep(c: Channel, i: nat)
    requires i < |c.participants|
    ensures
      var p := c.participants[i].Pipe();
      && c.Rank(i) == c.Count(p, i) && (forall q: nat :: c.Count(q, i + 1) == c.Count(q, i) + (if q == p then 1 else 0))
  {
  }

  lemma BitmapsFit(c: Channel, i: nat, node: seq<Bitmap>, full: seq<Bitmap>)
    requires i <= |c.participants| && BitmapsOk(c, i, node, full)
    ensures |node| == |full| == 4
    ensures i == |c.participants| ==> Fits(c)
  {
  }

  lemma NoBits(c: Channel)
    ensures BitmapsOk(c, 0, [Mask(0), Mask(0), Mask(0), Mask(0)], [EMPTY_MAP, EMPTY_MAP, EMPTY_MAP, EMPTY_MAP])
  {
    Limits(0);
    assert FirstN(0) == EMPTY_MAP;
  }

  lemma NoParts(c: Channel)
    ensures PartMap(c, 0) == map[]
  {
  }

  lemma PartStep(c: Channel, i: nat, t: Table)
    requires i < |c.participants|
    ensures
      var p := c.participants[i];
      t + PartMap(c, i + 1) ==
      (t + PartMap(c, i))[FromNode(p.Pipe(), p.ip, p.fabricQp) := Select(c.unit, Mask(c.Rank(i)))]
        [Address(FanOutPipe(p.Pipe()), c.unit, i + 1) := Rewrite(p.mac, p.ip, p.localQp)]
        [Ack(p.Pipe(), p.ip, p.fabricQp) := Reflect(p.localQp)]
  {
    hide Mask;
  }

  class ASICDriver {
    var tables: Table
    /** The registers of pipes 0 and 3, 256 slots to a unit. */
    const pipe0: C.Pipeline
    const pipe3: C.Pipeline

    /** The driver takes over a switch with cleared registers. */
    constructor (pipe0: C.Pipeline, pipe3: C.Pipeline)
      requires pipe0.Valid() && pipe3.Valid() && pipe0.Registers() !! pipe3.Registers()
      requires AllClear(pipe0.Slots()) && AllClear(pipe3.Slots())
      ensures this.pipe0 == pipe0 && this.pipe3 == pipe3
      ensures Serving(StaticTables(), [])
      ensures Delivers(tables, 1, 0, false) && Delivers(tables, 2, 0x200, true)
    {
      hide StaticTables, IsStatic, Exact, WellFormed, SmallUnits, Clean, Delivers;
      tables := StaticTables();
      this.pipe0, this.pipe3 := pipe0, pipe3;
      StaticOk();
      StaticDelivers();
      AllClean(pipe0.Slots());
      AllClean(pipe3.Slots());
    }

    /** Multicast nodes and group of a channel. */
    method AddGroup(c: Channel)
      requires c.OnUsedPipes()
      modifies this`tables
      ensures tables == old(tables) + NodeMap(c, |c.participants|)
                        + map[Group(GroupId(c.unit)) := Members(NodeIds(c.unit, |c.participants|))]
    {
      var ids := [];
      for i := 0 to |c.participants|
        invariant ids == NodeIds(c.unit, i)
        invariant tables == old(tables) + NodeMap(c, i)
      {
        var swPort := c.participants[i].port;
        if swPort < 128 {
          swPort := swPort + 128;
        } else if swPort >= 384 {
          swPort := swPort - 128;
        }
        ids := ids + [NodeId(c.unit, i)];
        tables := tables[Node(NodeId(c.unit, i)) := Copy(i + 1, swPort)];
      }
      tables := tables[Group(GroupId(c.unit)) := Members(ids)];
    }

    /** Selector, address and reflector entries of the participants, and the pipes' bitmaps. */
    method AddParticipants(c: Channel) returns (ok: bool, node: seq<Bitmap>, full: seq<Bitmap>)
      requires c.OnUsedPipes()
      modifies this`tables
      ensures ok <==> Fits(c)
      ensures ok ==> tables == old(tables) + PartMap(c, |c.participants|) && BitmapsOk(c, |c.participants|, node, full)
    {
      node := [Mask(0), Mask(0), Mask(0), Mask(0)];
      full := [EMPTY_MAP, EMPTY_MAP, EMPTY_MAP, EMPTY_MAP];
      NoBits(c);
      hide Mask, FirstN, Shift, Or, PartMap, BitmapsOk, Channel.Rank, Channel.Count;
      assert tables == tables + PartMap(c, 0) by { NoParts(c); }
      for i := 0 to |c.participants|
        invariant BitmapsOk(c, i, node, full)
        invariant tables == old(tables) + PartMap(c, i)
      {
        var p := c.participants[i];
        var pipe := p.Pipe();
        BitmapsFit(c, i, node, full);
        NextBits(c, i, node, full);
        if full[pipe].high >= (if pipe == 3 then 0x1fff_ffff else 0xffff_ffff) {
          c.CountMono(pipe, i + 1, |c.participants|);
          return false, node, full;
        }
        PartStep(c, i, old(tables));
        tables := tables[FromNode(pipe, p.ip, p.fabricQp) := Select(c.unit, node[pipe])]
                        [Address(FanOutPipe(pipe), c.unit, i + 1) := Rewrite(p.mac, p.ip, p.localQp)]
                        [Ack(pipe, p.ip, p.fabricQp) := Reflect(p.localQp)];
        full, node := full[pipe := Or(full[pipe], node[pipe])], node[pipe := Shift(node[pipe])];
      }
      BitmapsFit(c, |c.participants|, node, full);
      ok := true;
    }

    /** Are there participants on more than one pipe? */
    method HaveConnectedPipes(c: Channel, full: seq<Bitmap>) returns (connected: bool)
      requires c.OnUsedPipes() && |full| == 4
      requires forall p | 0 <= p < 4 :: full[p].low == 0 <==> c.Total(p) == 0
      ensures connected == c.Connected()
    {
      EmptyPipes(c);
      hide Channel.Total;
      var pipes := 0;
      for pipe := 0 to 4
        invariant pipes == (if pipe > 0 && c.Total(0) > 0 then 1 else 0) + (if pipe > 3 && c.Total(3) > 0 then 1 else 0)
      {
        if full[pipe].low != 0 { pipes := pipes + 1; }
      }
      connected := pipes > 1;
    }

    /** Entries for packets that pipe 0 sends on to pipe 3, if both have participants. */
    method AddHop(c: Channel, node: seq<Bitmap>, full: seq<Bitmap>) returns (connected: bool, full': seq<Bitmap>)
      requires c.OnUsedPipes() && BitmapsOk(c, |c.participants|, node, full)
      modifies this`tables
      ensures connected == c.Connected()
      ensures tables == old(tables) + HopMap(c)
      ensures |full'| == 4 && full'[0] == FirstN(FullCount(c, 0)) && full'[3] == FirstN(FullCount(c, 3))
      ensures full'[1] == full'[2] == EMPTY_MAP
    {
      BitmapsFit(c, |c.participants|, node, full);
      Occupied(c, full);
      HopBits(c, node, full);
      HopPut(old(tables), c);
      hide Mask, FirstN, Shift, Or, Channel.Total, HopMap, BitmapsOk;
      connected := HaveConnectedPipes(c, full);
      var node3 := node[3];
      full' := full;
      var pipe := 0;
      while connected && pipe < 3
        invariant pipe <= 3 && (!connected ==> pipe == 0) && |full'| == 4
        invariant full'[0] == full[0] && full'[1] == full[1] && full'[2] == full[2]
        invariant tables == if connected && pipe > 0 then old(tables)[FromPort(3, c.qpCommon, HOP_PORT) := Select(c.unit, node[3])] else old(tables)
        invariant node3 == if pipe > 0 then Shift(node[3]) else node[3]
        invariant full'[3] == if pipe > 0 then Or(full[3], node[3]) else full[3]
      {
        if full[pipe].low != 0 {
          tables := tables[FromPort(3, c.qpCommon, HOP_PORT) := Select(c.unit, node3)];
          full' := full'[3 := Or(full'[3], node3)];
          node3 := Shift(node3);
        }
        pipe := pipe + 1;
      }
      if connected {
        tables := tables[FromPort(3, c.qpCommon, RECIRC_PORT_3) := Select(c.unit, node3)];
      }
    }

    /** What counts as complete on each pipe, and what then happens to the result. */
    method AddComplete(c: Channel, connected: bool, full: seq<Bitmap>)
      requires connected == c.Connected() && Fits(c)
      requires |full| == 4 && full[0] == FirstN(FullCount(c, 0)) && full[3] == FirstN(FullCount(c, 3))
      requires full[1] == full[2] == EMPTY_MAP
      modifies this`tables
      ensures tables == old(tables) + CompleteMap(c, 0) + CompleteMap(c, 3)
    {
      Limits(FullCount(c, 0));
      Limits(FullCount(c, 3));
      hide FirstN, FullCount, Channel.Connected;
      for pipe := 0 to 4
        invariant tables == (if pipe == 0 then old(tables)
                             else if pipe < 4 then old(tables) + CompleteMap(c, 0)
                             else old(tables) + CompleteMap(c, 0) + CompleteMap(c, 3))
      {
        if full[pipe].low != 0 {
          tables := tables[Contribution(pipe, c.unit, full[pipe]) := Recirculate(pipe * 128 + 68)];
          tables := tables[Clearing(pipe, c.unit) :=
            if connected && pipe != 3 then NextPipe(3 * 128 + 64 + pipe * 4) else Distribute(0x10 + c.unit)];
        }
      }
    }

    method AddChoose(unit: nat)
      modifies this`tables
      ensures tables == old(tables) + ChooseMap(unit, ALUS)
    {
      for i := 0 to ALUS
        invariant tables == old(tables) + ChooseMap(unit, i)
      {
        tables := tables[Choose(i, unit, false) := AddValues][Choose(i, unit, true) := ClearValues];
      }
    }

    /** All entries of one complete channel. */
    method AddChannel(c: Channel) returns (ok: bool)
      requires c.OnUsedPipes()
      modifies this`tables
      ensures ok <==> Fits(c)
      ensures ok ==> tables == old(tables) + Required(c)
    {
      hide NodeMap, PartMap, HopMap, CompleteMap, ChooseMap, FirstN, FullCount, BitmapsOk, Required, Fits;
      AddGroup(c);
      var node, full;
      ok, node, full := AddParticipants(c);
      if ok {
        var connected;
        connected, full := AddHop(c, node, full);
        AddComplete(c, connected, full);
        AddChoose(c.unit);
        InOrder(old(tables), c);
      }
    }

    /** Adds what the complete channels need. */
    method AddMissing(chs: seq<Channel>) returns (ok: bool, inUse: set<nat>)
      requires forall c <- chs :: c.OnUsedPipes()
      modifies this`tables
      ensures ok <==> AllFit(chs)
      ensures ok ==> tables == Added(old(tables), chs) && inUse == InUse(chs)
    {
      hide Required, Fits, Channel.Complete;
      inUse := {};
      for i := 0 to |chs|
        invariant inUse == InUse(chs[..i])
        invariant forall j | 0 <= j < i && chs[j].Complete() :: Fits(chs[j])
        invariant tables == old(tables) + AllRequired(chs, i)
      {
        assert chs[..i + 1] == chs[..i] + [chs[i]];
        InUseMore(chs[..i], chs[i]);
        if chs[i].Complete() {
          inUse := inUse + {chs[i].unit};
          Merge(old(tables), AllRequired(chs, i), Required(chs[i]));
          ok := AddChannel(chs[i]);
          if !ok {
            assert Live(chs, chs[i]);
            return;
          }
        }
      }
      assert chs[..|chs|] == chs;
      ok := true;
    }

    /** Deletes excess entries of all tables but the multicast nodes; says which units lost a selector
        entry and which nodes the remaining groups use. */
    method DeleteEntries(chs: seq<Channel>, inUse: set<nat>) returns (toClear: set<nat>, nodes: set<nat>)
      requires inUse == InUse(chs)
      modifies this`tables
      ensures tables == Visited(old(tables), {}, chs, inUse)
      ensures toClear == ToClear(old(tables), inUse)
      ensures nodes == NodesInUse(old(tables), inUse)
    {
      ghost var t := tables;
      var rest := tables.Keys;
      toClear, nodes := {}, {};
      Unvisited(t, chs, inUse);
      hide Visited, ToClear, NodesInUse, Survives;
      while rest != {}
        invariant rest <= t.Keys
        invariant tables == Visited(t, rest, chs, inUse)
        invariant toClear == ToClear(Without(t, rest), inUse)
        invariant nodes == NodesInUse(Without(t, rest), inUse)
        decreases |rest|
      {
        var k :| k in rest;
        Visit(t, rest, k, chs, inUse);
        var a := tables[k];
        if !k.Node? && !Survives(k, a, chs, inUse, {}) {
          if Selects(k) && a.Select? { toClear := toClear + {a.agg}; }
          tables := tables - {k};
        } else if k.Group? && a.Members? {
          nodes := nodes + (set id | id in a.nodes);
        }
        rest := rest - {k};
      }
      assert Without(t, {}) == t;
    }

    /** Deletes the multicast nodes of no group. */
    method DeleteNodes(nodes: set<nat>)
      modifies this`tables
      ensures tables == (map k | k in old(tables) && (k.Node? ==> k.id in nodes) :: old(tables)[k])
    {
      ghost var t := tables;
      var rest := tables.Keys;
      while rest != {}
        invariant rest <= t.Keys
        invariant forall k :: k in tables <==> k in t && (k in rest || (k.Node? ==> k.id in nodes))
        invariant forall k <- tables :: tables[k] == t[k]
        decreases |rest|
      {
        var k :| k in rest;
        if k.Node? && k.id !in nodes { tables := tables - {k}; }
        rest := rest - {k};
      }
    }

    /** Deletes what no complete channel needs any more. */
    method DeleteExcess(chs: seq<Channel>, inUse: set<nat>) returns (toClear: set<nat>)
      requires inUse == InUse(chs)
      modifies this`tables
      ensures tables == Cleaned(old(tables), chs)
      ensures toClear == ToClear(old(tables), inUse)
    {
      ghost var t := tables;
      var nodes;
      toClear, nodes := DeleteEntries(chs, inUse);
      DeleteNodes(nodes);
      CleanedInTwo(t, chs);
    }

    ghost predicate Ready() {
      pipe0.Valid() && pipe3.Valid() && pipe0.Registers() !! pipe3.Registers()
    }

    /** The register memory of both pipes. */
    ghost function Memory(): set<object> {
      pipe0.Registers() + pipe3.Registers()
    }

    /** The slots of both pipes. */
    ghost function Slots(): (s: Bank)
      requires Ready()
      reads Memory()
      ensures |s.0| == |s.1| == C.REGISTERS
    {
      (pipe0.Slots(), pipe3.Slots())
    }

    /** On both pipes the registers of a unit are those of an idle pipe. */
    ghost predicate Idle(unit: nat)
      requires Ready()
      reads Memory()
    {
      pipe0.PipeOf(unit, []) == pipe3.PipeOf(unit, []) == Aggregator.IdlePipe()
    }

    /** Clears the 256 slots of every given unit on both pipes. */
    method ClearRegisters(toClear: set<nat>)
      requires Ready() && forall u <- toClear :: u < AGG_UNITS
      modifies Memory()
      ensures Cleared(old(pipe0.Slots()), pipe0.Slots(), toClear) && Cleared(old(pipe3.Slots()), pipe3.Slots(), toClear)
    {
      var rest := toClear;
      while rest != {}
        invariant rest <= toClear
        invariant Cleared(old(pipe0.Slots()), pipe0.Slots(), toClear - rest)
        invariant Cleared(old(pipe3.Slots()), pipe3.Slots(), toClear - rest)
        decreases |rest|
      {
        var u :| u in rest;
        assert toClear - (rest - {u}) == toClear - rest + {u};
        ghost var s0, s3 := pipe0.Slots(), pipe3.Slots();
        ClearUnit(pipe0, u);
        ClearUnit(pipe3, u);
        ClearedMore(old(pipe0.Slots()), s0, pipe0.Slots(), toClear - rest, u);
        ClearedMore(old(pipe3.Slots()), s3, pipe3.Slots(), toClear - rest, u);
        rest := rest - {u};
      }
    }

    static method ClearUnit(p: C.Pipeline, u: nat)
      requires p.Valid() && u < AGG_UNITS
      modifies p.low, p.high, p.mapLow, p.mapHigh
      ensures Cleared(old(p.Slots()), p.Slots(), {u})
    {
      for i := u * Aggregator.SLOTS to u * Aggregator.SLOTS + Aggregator.SLOTS
        invariant forall r | 0 <= r < C.REGISTERS ::
                    p.SlotAt(r) == (if u * Aggregator.SLOTS <= r < i then Aggregator.EMPTY else old(p.SlotAt(r)))
      {
        p.ClearIndex(i);
      }
    }

    /** `on_st_repo_channels`: one pass.  It fails, with the driver, if a channel has too many
        participants on a pipe. */
    method OnChannels(chs: seq<Channel>) returns (ok: bool)
      requires Ready()
      requires forall c <- chs :: c.OnUsedPipes()
      requires forall u <- ToClear(Added(tables, chs), InUse(chs)) :: u < AGG_UNITS
      modifies this`tables, Memory()
      ensures ok <==> AllFit(chs)
      ensures ok ==> tables == Reconciled(old(tables), chs)
      ensures ok ==> Cleared(old(pipe0.Slots()), pipe0.Slots(), ToClear(Added(old(tables), chs), InUse(chs)))
      ensures ok ==> Cleared(old(pipe3.Slots()), pipe3.Slots(), ToClear(Added(old(tables), chs), InUse(chs)))
    {
      hide Added, InUse, ToClear, Cleaned, AllFit, Cleared;
      var inUse;
      ok, inUse := AddMissing(chs);
      if ok {
        var toClear := DeleteExcess(chs, inUse);
        ClearRegisters(toClear);
      }
    }

    /** The switch serves exactly the complete channels, and the registers of all other units are
        clear, so that a unit starts clean whenever it is used again. */
    ghost predicate Serving(stat: Table, chs: seq<Channel>)
      reads this, Memory()
    {
      && Ready() && IsStatic(stat) && WellFormed(chs) && SmallUnits(chs)
      && Exact(tables, stat, chs)
      && Clean(pipe0.Slots(), chs) && Clean(pipe3.Slots(), chs)
    }

    lemma ServingClean(stat: Table, chs: seq<Channel>)
      requires Serving(stat, chs)
      ensures Ready() && Clean(Slots().0, chs) && Clean(Slots().1, chs)
    {
    }

    lemma ServingExact(stat: Table, chs: seq<Channel>)
      requires Serving(stat, chs)
      ensures Exact(tables, stat, chs)
    {
    }

    /** Units that were not in use have idle registers. */
    lemma IdleUnit(chs: seq<Channel>, unit: nat)
      requires Ready() && Clean(Slots().0, chs) && Clean(Slots().1, chs) && unit !in InUse(chs) && unit < AGG_UNITS
      ensures Idle(unit)
    {
      hide Clean, InUse;
      CleanStart(pipe0, chs, unit);
      CleanStart(pipe3, chs, unit);
    }

    /** A notification by the repository, `before` being the channels of the one before.  It clears the
        registers of the units that go out of use and touches no others. */
    method Notify(chs: seq<Channel>, ghost stat: Table, ghost before: seq<Channel>) returns (ok: bool)
      requires Serving(stat, before) && WellFormed(chs) && SmallUnits(chs) && Follows(before, chs)
      modifies this`tables, Memory()
      ensures ok <==> AllFit(chs)
      ensures ok ==> Serving(stat, chs)
      ensures ok ==> (NodesExact(tables, chs) <==> NodesAgree(chs))
      ensures ok ==> BothCleared(old(Slots()), Slots(), InUse(before) - InUse(chs))
    {
      ghost var t, s0, s3 := tables, pipe0.Slots(), pipe3.Slots();
      assert Pass(t, stat, before, chs);
      hide Pass, Exact, Follows, NodesExact, NodesAgree, Clean, Cleared, InUse, ToClear, Added, AllFit, Reconciled, WellFormed, IsStatic, SmallUnits;
      ClearsSmall(t, stat, before, chs);
      OnUsed(chs);
      ok := OnChannels(chs);
      if ok {
        ReconciledExact(t, stat, before, chs);
        PassRecycles(t, stat, before, chs);
        CleanAfter(t, stat, before, chs, s0, pipe0.Slots());
        CleanAfter(t, stat, before, chs, s3, pipe3.Slots());
      }
    }
  }

  ghost predicate AllClear(s: seq<Aggregator.Slot>) {
    forall r | 0 <= r < |s| :: s[r] == Aggregator.EMPTY
  }

  lemma AllClean(s: seq<Aggregator.Slot>)
    requires AllClear(s)
    ensures Clean(s, [])
  {
  }

  /** The front panel ports: 16 on each of the pipes 0 and 3. */
  function FloodPorts(): (ports: seq<nat>)
    ensures forall p <- ports :: p < 0x200
  {
    seq<nat>(32, i requires 0 <= i < 32 => if i < 16 then 4 * i else 384 + 4 * (i - 16))
  }

  /** Every fourth port from 0 to 60 and from 384 to 444. */
  predicate FrontPanel(port: nat) {
    port % 4 == 0 && (port < 64 || 384 <= port < 448)
  }

  predicate Flooded(port: nat, cpu: bool) {
    FrontPanel(port) || (cpu && port == 64)
  }

  /** The group has one node for every front panel port, and for the CPU port if it takes part, and no
      others; the node of a port makes one copy, for this port. */
  ghost predicate Delivers(t: Table, group: nat, base: nat, cpu: bool) {
    && Group(group) in t && t[Group(group)].Members?
    && var nodes := t[Group(group)].nodes;
       && (forall i, j | 0 <= i < j < |nodes| :: nodes[i] != nodes[j])
       && (forall port: nat | Flooded(port, cpu) :: base + port in nodes)
       && (forall id <- nodes :: base <= id && Flooded(id - base, cpu) && Node(id) in t && t[Node(id)] == Copy(1, id - base))
  }

  lemma FloodPortsAre()
    ensures forall port: nat :: port in FloodPorts() <==> FrontPanel(port)
    ensures forall i, j | 0 <= i < j < |FloodPorts()| :: FloodPorts()[i] != FloodPorts()[j]
  {
    forall port: nat | FrontPanel(port)
      ensures port in FloodPorts()
    {
      assert FloodPorts()[if port < 64 then port / 4 else 16 + (port - 384) / 4] == port;
    }
  }

  lemma GroupDelivers(t: Table, group: nat, base: nat, ports: seq<nat>, cpu: bool)
    requires forall port: nat :: port in ports <==> Flooded(port, cpu)
    requires forall i, j | 0 <= i < j < |ports| :: ports[i] != ports[j]
    requires Group(group) in t && t[Group(group)] == Members(NodesOf(base, ports))
    requires forall port | port in ports :: Node(base + port) in t && t[Node(base + port)] == Copy(1, port)
    ensures Delivers(t, group, base, cpu)
  {
    hide Flooded;
    var nodes := NodesOf(base, ports);
    forall port: nat | Flooded(port, cpu)
      ensures base + port in nodes
    {
      var i :| 0 <= i < |ports| && ports[i] == port;
      assert nodes[i] == base + port;
    }
    forall id | id in nodes
      ensures base <= id && Flooded(id - base, cpu) && Node(id) in t && t[Node(id)] == Copy(1, id - base)
    {
      var i :| 0 <= i < |nodes| && nodes[i] == id;
      assert ports[i] in ports && id == base + ports[i];
    }
  }

  lemma PortNodeIn(base: nat, ports: seq<nat>, port: nat)
    requires port in ports
    ensures Node(base + port) in PortNodes(base, ports) && PortNodes(base, ports)[Node(base + port)] == Copy(1, port)
  {
  }

  lemma FloodNode(port: nat)
    requires port in FloodPorts()
    ensures Node(port) in StaticTables() && StaticTables()[Node(port)] == Copy(1, port)
  {
    hide FloodPorts, PortNodes, NodesOf;
    PortNodeIn(0, FloodPorts(), port);
    if Node(port) in PortNodes(0x200, FloodPorts() + [64]) { PortNode(0x200, FloodPorts() + [64], Node(port)); }
  }

  lemma BroadcastNode(port: nat)
    requires port in FloodPorts() + [64]
    ensures Node(0x200 + port) in StaticTables() && StaticTables()[Node(0x200 + port)] == Copy(1, port)
  {
    hide FloodPorts, PortNodes, NodesOf;
    PortNodeIn(0x200, FloodPorts() + [64], port);
  }

  lemma StaticGroups()
    ensures Group(1) in StaticTables() && StaticTables()[Group(1)] == Members(NodesOf(0, FloodPorts()))
    ensures Group(2) in StaticTables() && StaticTables()[Group(2)] == Members(NodesOf(0x200, FloodPorts() + [64]))
  {
    hide FloodPorts, PortNodes, NodesOf;
  }

  /** What is flooded leaves on all front panel ports of pipes 0 and 3, once each; what is broadcast also
      goes to the CPU. */
  lemma StaticDelivers()
    ensures Delivers(StaticTables(), 1, 0, false) && Delivers(StaticTables(), 2, 0x200, true)
  {
    FloodPortsAre();
    StaticGroups();
    NotFrontPanel();
    hide FloodPorts, FrontPanel, Delivers, NodesOf, StaticTables;
    var t := StaticTables();
    forall port | port in FloodPorts()
      ensures Node(0 + port) in t && t[Node(0 + port)] == Copy(1, port)
    {
      FloodNode(port);
    }
    forall port | port in FloodPorts() + [64]
      ensures Node(0x200 + port) in t && t[Node(0x200 + port)] == Copy(1, port)
    {
      BroadcastNode(port);
    }
    GroupDelivers(t, 1, 0, FloodPorts(), false);
    GroupDelivers(t, 2, 0x200, FloodPorts() + [64], true);
  }

  lemma NotFrontPanel()
    ensures !FrontPanel(64)
  {
  }

  /** Channels that come and go leave this as it is. */
  lemma StillDelivers(t: Table, stat: Table, chs: seq<Channel>, group: nat, base: nat, cpu: bool)
    requires IsStatic(stat) && Exact(t, stat, chs) && Delivers(stat, group, base, cpu)
    ensures Delivers(t, group, base, cpu)
  {
    hide Flooded;
    ExactEntry(t, stat, chs, Group(group), stat[Group(group)]);
    forall id | id in stat[Group(group)].nodes
      ensures Node(id) in t && t[Node(id)] == stat[Node(id)]
    {
      ExactEntry(t, stat, chs, Node(id), stat[Node(id)]);
    }
  }

  /** Multicast nodes for ports, one each. */
  function PortNodes(base: nat, ports: seq<nat>): Table {
    map p | p in ports :: Node(base + p) := Copy(1, p)
  }

  function NodesOf(base: nat, ports: seq<nat>): (ids: seq<nat>)
    ensures |ids| == |ports|
  {
    seq<nat>(|ports|, i requires 0 <= i < |ports| => base + ports[i])
  }

  /** The groups for flooding and, with the CPU port, for broadcasts. */
  function StaticTables(): Table {
    PortNodes(0, FloodPorts()) + PortNodes(0x200, FloodPorts() + [64])
    + map[Group(1) := Members(NodesOf(0, FloodPorts())), Group(2) := Members(NodesOf(0x200, FloodPorts() + [64]))]
  }

  lemma PortNode(base: nat, ports: seq<nat>, k: Key)
    requires k in PortNodes(base, ports) && forall p <- ports :: p < 0x200
    ensures k.Node? && base <= k.id < base + 0x200 && k.id in NodesOf(base, ports)
  {
    var p :| p in ports && k == Node(base + p);
    var i :| 0 <= i < |ports| && ports[i] == p;
    assert NodesOf(base, ports)[i] == k.id;
  }

  lemma LowNodes(base: nat, ports: seq<nat>, id: nat)
    requires id in NodesOf(base, ports) && forall p <- ports :: p < 0x200
    ensures id < base + 0x200
  {
    var i :| 0 <= i < |ports| && NodesOf(base, ports)[i] == id;
    assert ports[i] in ports;
  }

  lemma StaticNode(k: Key)
    requires k in StaticTables() && k.Node?
    ensures k.id < 0x1000
    ensures exists g :: g in StaticTables() && g.Group? && StaticTables()[g].Members? && k.id in StaticTables()[g].nodes
  {
    hide FloodPorts, PortNodes, NodesOf;
    if k in PortNodes(0, FloodPorts()) {
      PortNode(0, FloodPorts(), k);
      assert k.id in StaticTables()[Group(1)].nodes;
    } else {
      PortNode(0x200, FloodPorts() + [64], k);
      assert k.id in StaticTables()[Group(2)].nodes;
    }
  }

  lemma StaticKinds(k: Key)
    requires k in StaticTables()
    ensures k.Group? || k.Node?
    ensures k.Group? ==> k.id < 0x10
    ensures k.Group? && StaticTables()[k].Members? ==> forall id <- StaticTables()[k].nodes :: id < 0x1000
  {
    hide FloodPorts, PortNodes, NodesOf;
    if k in PortNodes(0, FloodPorts()) {
      PortNode(0, FloodPorts(), k);
    } else if k in PortNodes(0x200, FloodPorts() + [64]) {
      PortNode(0x200, FloodPorts() + [64], k);
    } else {
      forall id | id in StaticTables()[k].nodes
        ensures id < 0x1000
      {
        if k.id == 1 { LowNodes(0, FloodPorts(), id); } else { LowNodes(0x200, FloodPorts() + [64], id); }
      }
    }
  }

  /** A switch without channels. */
  lemma StaticOk()
    ensures IsStatic(StaticTables()) && Exact(StaticTables(), StaticTables(), []) && WellFormed([]) && SmallUnits([])
  {
    hide StaticTables;
    forall k | k in StaticTables()
      ensures k.Group? || k.Node?
      ensures k.Group? ==> k.id < 0x10 && (StaticTables()[k].Members? ==> forall id <- StaticTables()[k].nodes :: id < 0x1000)
      ensures k.Node? ==> k.id < 0x1000 && exists g :: g in StaticTables() && g.Group? && StaticTables()[g].Members? && k.id in StaticTables()[g].nodes
    {
      StaticKinds(k);
      if k.Node? { StaticNode(k); }
    }
    assert forall k, a :: !Wanted([], k, a);
  }

  lemma OnUsed(chs: seq<Channel>)
    requires WellFormed(chs)
    ensures forall c <- chs :: c.OnUsedPipes()
  {
  }

  lemma CleanedInTwo(t: Table, chs: seq<Channel>)
    ensures
      var inUse := InUse(chs);
      var v, nodes := Visited(t, {}, chs, inUse), NodesInUse(t, inUse);
      (map k | k in v && (k.Node? ==> k.id in nodes) :: v[k]) == Cleaned(t, chs)
  {
    hide InUse, NodesInUse, Mentioned, KeepGroup;
  }

  function Without(t: Table, rest: set<Key>): Table {
    map k | k in t && k !in rest :: t[k]
  }

  /** The tables after a visit to all entries but the rest. */
  function Visited(t: Table, rest: set<Key>, chs: seq<Channel>, inUse: set<nat>): Table {
    map k | k in t && (k in rest || k.Node? || Survives(k, t[k], chs, inUse, {})) :: t[k]
  }

  lemma Unvisited(t: Table, chs: seq<Channel>, inUse: set<nat>)
    ensures t == Visited(t, t.Keys, chs, inUse)
    ensures ToClear(Without(t, t.Keys), inUse) == {} && NodesInUse(Without(t, t.Keys), inUse) == {}
  {
  }

  /** What visiting one more entry changes. */
  lemma Visit(t: Table, rest: set<Key>, k: Key, chs: seq<Channel>, inUse: set<nat>)
    requires k in rest && rest <= t.Keys
    ensures k in Visited(t, rest, chs, inUse) && Visited(t, rest, chs, inUse)[k] == t[k]
    ensures Visited(t, rest - {k}, chs, inUse) ==
            if k.Node? || Survives(k, t[k], chs, inUse, {}) then Visited(t, rest, chs, inUse) else Visited(t, rest, chs, inUse) - {k}
    ensures ToClear(Without(t, rest - {k}), inUse) ==
            ToClear(Without(t, rest), inUse) + (if Selects(k) && t[k].Select? && !Survives(k, t[k], chs, inUse, {}) then {t[k].agg} else {})
    ensures NodesInUse(Without(t, rest - {k}), inUse) ==
            NodesInUse(Without(t, rest), inUse) +
            (if k.Group? && Survives(k, t[k], chs, inUse, {}) && t[k].Members? then set id | id in t[k].nodes else {})
  {
    VisitClear(t, rest, k, inUse);
    VisitNodes(t, rest, k, inUse);
    hide ToClear, NodesInUse, Mentioned;
  }

  lemma VisitClear(t: Table, rest: set<Key>, k: Key, inUse: set<nat>)
    requires k in rest && rest <= t.Keys
    ensures ToClear(Without(t, rest - {k}), inUse) ==
            ToClear(Without(t, rest), inUse) + (if Selects(k) && t[k].Select? && t[k].agg !in inUse then {t[k].agg} else {})
  {
    var x, y := Without(t, rest - {k}), Without(t, rest);
    assert x == y[k := t[k]];
    hide Without;
    var u := if Selects(k) && t[k].Select? && t[k].agg !in inUse then {t[k].agg} else {};
    forall n
      ensures n in ToClear(x, inUse) <==> n in ToClear(y, inUse) + u
    {
      if n in ToClear(x, inUse) {
        var j :| j in x && Selects(j) && x[j].Select? && x[j].agg !in inUse && n == x[j].agg;
        if j != k { assert j in y && y[j] == x[j]; }
      }
      if n in ToClear(y, inUse) {
        var j :| j in y && Selects(j) && y[j].Select? && y[j].agg !in inUse && n == y[j].agg;
        if j in x && x[j] == y[j] { }
      }
    }
  }

  lemma VisitNodes(t: Table, rest: set<Key>, k: Key, inUse: set<nat>)
    requires k in rest && rest <= t.Keys
    ensures NodesInUse(Without(t, rest - {k}), inUse) ==
            NodesInUse(Without(t, rest), inUse) +
            (if k.Group? && KeepGroup(k.id, inUse) && t[k].Members? then set id | id in t[k].nodes else {})
  {
    var x, y := Without(t, rest - {k}), Without(t, rest);
    assert x == y[k := t[k]] && k !in y;
    hide Without;
    var u := if k.Group? && KeepGroup(k.id, inUse) && t[k].Members? then set id | id in t[k].nodes else {};
    forall n
      ensures n in NodesInUse(x, inUse) <==> n in NodesInUse(y, inUse) + u
    {
      if n in NodesInUse(x, inUse) {
        var j :| j in x && j.Group? && KeepGroup(j.id, inUse) && x[j].Members? && n in x[j].nodes;
        if j != k { assert j in y && y[j] == x[j]; }
      }
      if n in NodesInUse(y, inUse) {
        var j :| j in y && j.Group? && KeepGroup(j.id, inUse) && y[j].Members? && n in y[j].nodes;
        assert j in x && x[j] == y[j];
      }
      if n in u { assert k in x && x[k] == t[k]; }
    }
  }

  lemma InUseMore(chs: seq<Channel>, c: Channel)
    ensures InUse(chs + [c]) == InUse(chs) + (if c.Complete() then {c.unit} else {})
  {
    hide Channel.Complete;
    forall u
      ensures u in InUse(chs + [c]) <==> u in InUse(chs) || (c.Complete() && u == c.unit)
    {
      if u in InUse(chs) {
        var d :| d in chs && d.Complete() && d.unit == u;
        assert d in chs + [c];
      }
      assert c in chs + [c];
    }
  }

  lemma Merge(t: Table, a: Table, b: Table)
    ensures t + a + b == t + (a + b)
  {
  }

  lemma InOrder(t: Table, c: Channel)
    ensures t + NodeMap(c, |c.participants|) + map[Group(GroupId(c.unit)) := Members(NodeIds(c.unit, |c.participants|))]
            + PartMap(c, |c.participants|) + HopMap(c) + CompleteMap(c, 0) + CompleteMap(c, 3) + ChooseMap(c.unit, ALUS)
            == t + Required(c)
  {
    hide NodeMap, PartMap, HopMap, CompleteMap, ChooseMap;
    var n := |c.participants|;
    var a, b := NodeMap(c, n), map[Group(GroupId(c.unit)) := Members(NodeIds(c.unit, n))];
    var p, h, c0, c3 := PartMap(c, n), HopMap(c), CompleteMap(c, 0), CompleteMap(c, 3);
    Merge(t, a, b);
    Merge(t, a + b, p);
    Merge(t, a + b + p, h);
    Merge(t, a + b + p + h, c0);
    Merge(t, a + b + p + h + c0, c3);
    Merge(t, a + b + p + h + c0 + c3, ChooseMap(c.unit, ALUS));
  }

  lemma HopPut(t: Table, c: Channel)
    ensures t + HopMap(c) ==
            if c.Connected() then
              t[FromPort(3, c.qpCommon, HOP_PORT) := Select(c.unit, Mask(c.Total(3)))]
               [FromPort(3, c.qpCommon, RECIRC_PORT_3) := Select(c.unit, Mask(c.Total(3) + 1))]
            else t
  {
    hide Mask, Channel.Total, Channel.Connected;
  }

  lemma EmptyPipes(c: Channel)
    requires c.OnUsedPipes()
    ensures c.Total(1) == c.Total(2) == 0
  {
    NoneOn(c, 1, |c.participants|);
    NoneOn(c, 2, |c.participants|);
  }

  lemma {:induction false} NoneOn(c: Channel, pipe: nat, n: nat)
    requires c.OnUsedPipes() && (pipe == 1 || pipe == 2) && n <= |c.participants|
    ensures c.Count(pipe, n) == 0
  {
    if n > 0 { NoneOn(c, pipe, n - 1); }
  }

  lemma Occupied(c: Channel, full: seq<Bitmap>)
    requires c.OnUsedPipes() && |full| == 4
    requires exists node :: BitmapsOk(c, |c.participants|, node, full)
    ensures forall p | 0 <= p < 4 :: full[p].low == 0 <==> c.Total(p) == 0
    ensures full[1] == full[2] == EMPTY_MAP
    ensures full[1].low == full[2].low == 0
  {
    EmptyPipes(c);
    var node :| BitmapsOk(c, |c.participants|, node, full);
    Limits(c.Total(0));
    Limits(c.Total(3));
    assert FirstN(0) == EMPTY_MAP;
  }

  lemma HopBits(c: Channel, node: seq<Bitmap>, full: seq<Bitmap>)
    requires BitmapsOk(c, |c.participants|, node, full)
    ensures full[0] == FirstN(c.Total(0)) && full[3] == FirstN(c.Total(3)) && node[3] == Mask(c.Total(3))
    ensures Shift(node[3]) == Mask(c.Total(3) + 1) && Or(full[3], node[3]) == FirstN(c.Total(3) + 1)
  {
    ShiftMask(c.Total(3));
    OrMask(c.Total(3));
  }
}
