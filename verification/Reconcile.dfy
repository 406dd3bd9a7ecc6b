/** What a pass over the repository makes of the tables, and why that is exactly what is needed. */
module Reconcile {
  import opened Bitmaps
  import opened Channels
  import opened Tables

  /** Few enough participants for eight bits to count those with the same address. */
  const MAX_PARTICIPANTS: nat := 255

  ghost predicate Live(chs: seq<Channel>, c: Channel) {
    c in chs && c.Complete()
  }

  /** The aggregation units of the complete channels. */
  function InUse(chs: seq<Channel>): set<nat> {
    set c | c in chs && c.Complete() :: c.unit
  }

  lemma InUseHas(chs: seq<Channel>, c: Channel)
    requires Live(chs, c)
    ensures c.unit in InUse(chs)
  {
    assert c in chs && c.Complete();
  }

  /** The entries of the complete channels among the first n. */
  function AllRequired(chs: seq<Channel>, n: nat): Table
    requires n <= |chs|
  {
    if n == 0 then map[]
    else if chs[n - 1].Complete() then AllRequired(chs, n - 1) + Required(chs[n - 1])
    else AllRequired(chs, n - 1)
  }

  /** A participant that is part of some channel, complete or not. */
  predicate Mentioned(chs: seq<Channel>, ip: nat, qp: nat) {
    exists c :: c in chs && Mentions(c, ip, qp)
  }

  predicate Mentions(c: Channel, ip: nat, qp: nat) {
    exists p :: p in c.participants && p.ip == ip && p.fabricQp == qp
  }

  predicate KeepGroup(id: nat, inUse: set<nat>) {
    id < 0x10 || id - 0x10 in inUse
  }

  /** The multicast nodes of the groups that are kept. */
  function NodesInUse(t: Table, inUse: set<nat>): set<nat> {
    set k, id | k in t && k.Group? && KeepGroup(k.id, inUse) && t[k].Members? && id in t[k].nodes :: id
  }

  /** Does the clean-up leave an entry alone?  It visits the tables of pipes 0 and 3, and the
      address tables of the pipes where their results are fanned out. */
  predicate Survives(k: Key, a: Action, chs: seq<Channel>, inUse: set<nat>, nodes: set<nat>) {
    match k
    case FromNode(pipe, _, _) => (pipe == 0 || pipe == 3) && a.Select? ==> a.agg in inUse
    case FromPort(pipe, _, _) => (pipe == 0 || pipe == 3) && a.Select? ==> a.agg in inUse
    case Contribution(pipe, unit, _) => pipe == 0 || pipe == 3 ==> unit in inUse
    case Clearing(pipe, unit) => pipe == 0 || pipe == 3 ==> unit in inUse
    case Address(pipe, unit, _) => pipe == 1 || pipe == 2 ==> unit in inUse
    case Ack(pipe, ip, qp) => pipe == 0 || pipe == 3 ==> Mentioned(chs, ip, qp)
    case Choose(_, unit, _) => unit in inUse
    case Group(id) => KeepGroup(id, inUse)
    case Node(id) => id in nodes
  }

  function Cleaned(t: Table, chs: seq<Channel>): Table {
    var inUse := InUse(chs);
    var nodes := NodesInUse(t, inUse);
    map k | k in t && Survives(k, t[k], chs, inUse, nodes) :: t[k]
  }

  function Added(t: Table, chs: seq<Channel>): Table {
    t + AllRequired(chs, |chs|)
  }

  /** The tables after a pass: missing entries added, excess entries deleted. */
  function Reconciled(t: Table, chs: seq<Channel>): Table {
    Cleaned(Added(t, chs), chs)
  }

  predicate Selects(k: Key) {
    (k.FromNode? || k.FromPort?) && (k.pipe == 0 || k.pipe == 3)
  }

  /** The units whose registers a pass clears: those that lose a selector entry. */
  function ToClear(t: Table, inUse: set<nat>): set<nat> {
    set k | k in t && Selects(k) && t[k].Select? && t[k].agg !in inUse :: t[k].agg
  }

  /** What the driver relies on the rest of the control plane for. */
  ghost predicate WellFormed(chs: seq<Channel>) {
    && (forall c <- chs :: 0 < |c.participants| <= MAX_PARTICIPANTS && c.OnUsedPipes() && (c.Complete() ==> c.Distinct()))
    && (forall c, d | c in chs && d in chs && c != d :: c.unit != d.unit && c.qpCommon != d.qpCommon)
    && SeparateQps(chs)
  }

  /** No two channels mention the same known address and fabric queue pair. */
  ghost predicate SeparateQps(chs: seq<Channel>) {
    forall c, d, p, q | c in chs && d in chs && c != d && p in c.participants && q in d.participants && p.Known() && q.Known() ::
      p.ip != q.ip || p.fabricQp != q.fabricQp
  }

  /** Entries that belong to no channel: the groups below 0x10 and their nodes. */
  ghost predicate IsStatic(stat: Table) {
    && (forall k <- stat :: k.Group? || k.Node?)
    && (forall k <- stat | k.Group? :: k.id < 0x10 && (stat[k].Members? ==> forall id <- stat[k].nodes :: id < 0x1000))
    && (forall k <- stat | k.Node? :: k.id < 0x1000 && exists g :: g in stat && g.Group? && stat[g].Members? && k.id in stat[g].nodes)
  }

  /** Multicast nodes of channels, which several channels may share. */
  predicate Shared(k: Key) {
    k.Node? && k.id >= 0x1000
  }

  /** Shared multicast nodes aside, the tables hold the static entries and what the complete channels
      want, and nothing else. */
  ghost predicate Exact(t: Table, stat: Table, chs: seq<Channel>) {
    forall k, a | !Shared(k) :: k in t && t[k] == a <==> (k in stat && stat[k] == a) || Wanted(chs, k, a)
  }

  /** The same for the shared nodes. */
  ghost predicate NodesExact(t: Table, chs: seq<Channel>) {
    forall k, a | Shared(k) :: k in t && t[k] == a <==> Wanted(chs, k, a)
  }

  ghost predicate Wanted(chs: seq<Channel>, k: Key, a: Action) {
    exists c :: Live(chs, c) && Wants(c, k, a)
  }

  /** Complete channels in the same block of eight units send results to the same ports. */
  ghost predicate NodesAgree(chs: seq<Channel>) {
    forall c, d, i | Live(chs, c) && Live(chs, d) && c.unit / 8 == d.unit / 8 && 0 <= i < |c.participants| && i < |d.participants| ::
      FanOutPort(c.participants[i].port) == FanOutPort(d.participants[i].port)
  }

  /** From one notification to the next, complete channels stay as they are or are removed, and a
      new channel does not mention what a removed one did. */
  ghost predicate Follows(before: seq<Channel>, chs: seq<Channel>) {
    && (forall c | Live(before, c) && c.unit in InUse(chs) :: c in chs)
    && (forall c, p | Live(before, c) && c !in chs && p in c.participants :: !Mentioned(chs, p.ip, p.fabricQp))
  }

  lemma {:induction false} AllRequiredOnly(chs: seq<Channel>, n: nat, k: Key)
    requires n <= |chs| && k in AllRequired(chs, n)
    ensures Wanted(chs, k, AllRequired(chs, n)[k])
  {
    hide Required, Wants;
    var c := chs[n - 1];
    if c.Complete() && k in Required(c) {
      RequiredOnly(c, k);
      assert Live(chs, c);
    } else {
      AllRequiredOnly(chs, n - 1, k);
    }
  }

  lemma {:induction false} AllRequiredHas(chs: seq<Channel>, n: nat, i: nat, k: Key)
    requires i < n <= |chs| && chs[i].Complete() && k in Required(chs[i])
    ensures k in AllRequired(chs, n)
  {
    hide Required;
    if i < n - 1 { AllRequiredHas(chs, n - 1, i, k); }
  }

  /** How an entry shows which channel it is for. */
  ghost predicate Owns(c: Channel, k: Key, a: Action) {
    match k
    case FromNode(pipe, ip, qp) => (pipe == 0 || pipe == 3) && a.Select? && a.agg == c.unit && ip != 0 && Mentions(c, ip, qp)
    case FromPort(pipe, common, _) => pipe == 3 && a.Select? && a.agg == c.unit && common == c.qpCommon
    case Contribution(pipe, unit, _) => (pipe == 0 || pipe == 3) && unit == c.unit
    case Clearing(pipe, unit) => (pipe == 0 || pipe == 3) && unit == c.unit
    case Address(pipe, unit, _) => (pipe == 1 || pipe == 2) && unit == c.unit
    case Ack(pipe, ip, qp) => (pipe == 0 || pipe == 3) && ip != 0 && Mentions(c, ip, qp)
    case Choose(_, unit, _) => unit == c.unit
    case Group(id) => id == GroupId(c.unit) && a == Members(NodeIds(c.unit, |c.participants|))
    case Node(id) => NodeWants(c, |c.participants|, k, a)
  }

  lemma WantsOwns(c: Channel, k: Key, a: Action)
    requires c.OnUsedPipes() && c.Complete() && Wants(c, k, a)
    ensures Owns(c, k, a)
  {
    hide Mask, FirstN, Channel.Total, Channel.Rank, FullCount, Channel.Connected;
    match k
    case FromNode(pipe, ip, qp) =>
      var i :| 0 <= i < |c.participants| && IsPart(c, i, pipe, ip, qp);
      assert c.participants[i] in c.participants;
    case Ack(pipe, ip, qp) =>
      var i :| 0 <= i < |c.participants| && IsPart(c, i, pipe, ip, qp);
      assert c.participants[i] in c.participants;
    case _ =>
  }

  /** Two live channels never own the same entry, shared multicast nodes aside. */
  lemma NoClash(chs: seq<Channel>, c: Channel, d: Channel, k: Key, a: Action, b: Action)
    requires WellFormed(chs) && c in chs && d in chs && Owns(c, k, a) && Owns(d, k, b)
    requires !k.Node?
    ensures c == d
  {
    hide NodeIds, NodeWants;
  }

  lemma NodeClash(chs: seq<Channel>, c: Channel, d: Channel, k: Key, a: Action, b: Action)
    requires |c.participants| <= MAX_PARTICIPANTS && |d.participants| <= MAX_PARTICIPANTS
    requires NodesAgree(chs) && Live(chs, c) && Live(chs, d)
    requires k.Node? && NodeWants(c, |c.participants|, k, a) && NodeWants(d, |d.participants|, k, b)
    ensures a == b
  {
    hide FanOutPort, Channel.Complete;
    var i :| 0 <= i < |c.participants| && k.id == NodeId(c.unit, i) && a == Copy(i + 1, FanOutPort(c.participants[i].port));
    var j :| 0 <= j < |d.participants| && k.id == NodeId(d.unit, j) && b == Copy(j + 1, FanOutPort(d.participants[j].port));
    NodeIdSplit(c.unit / 8, i, d.unit / 8, j);
  }

  lemma NodeIdSplit(b: nat, i: nat, e: nat, j: nat)
    requires 0x200 * b + i == 0x200 * e + j && i < 0x200 && j < 0x200
    ensures b == e && i == j
  {
  }

  lemma SameWant(chs: seq<Channel>, c: Channel, d: Channel, k: Key, a: Action, b: Action)
    requires WellFormed(chs) && (k.Node? ==> NodesAgree(chs)) && Live(chs, c) && Live(chs, d) && Wants(c, k, a) && Wants(d, k, b)
    ensures a == b
  {
    WantsOwns(c, k, a);
    WantsOwns(d, k, b);
    if k.Node? {
      hide Wants;
      NodeClash(chs, c, d, k, a, b);
    } else {
      hide NodesAgree;
      NoClash(chs, c, d, k, a, b);
      RequiredAll(c, k, a);
      RequiredAll(c, k, b);
      hide *;
    }
  }

  /** What the live channels want is what the pass adds. */
  lemma AddedIs(chs: seq<Channel>, c: Channel, k: Key, a: Action)
    requires WellFormed(chs) && Live(chs, c) && Wants(c, k, a)
    ensures k in AllRequired(chs, |chs|)
    ensures (k.Node? ==> NodesAgree(chs)) ==> AllRequired(chs, |chs|)[k] == a
  {
    RequiredAll(c, k, a);
    hide Wants, Required;
    var i :| 0 <= i < |chs| && chs[i] == c;
    AllRequiredHas(chs, |chs|, i, k);
    AllRequiredOnly(chs, |chs|, k);
    hide WellFormed, NodesAgree, AllRequired;
    var b := AllRequired(chs, |chs|)[k];
    var d :| Live(chs, d) && Wants(d, k, b);
    if k.Node? ==> NodesAgree(chs) { SameWant(chs, c, d, k, a, b); }
  }

  /** The clean-up leaves what a live channel wants alone. */
  lemma OwnedSurvives(t: Table, chs: seq<Channel>, c: Channel, k: Key, a: Action)
    requires Live(chs, c) && Owns(c, k, a)
    requires Group(GroupId(c.unit)) in t && t[Group(GroupId(c.unit))] == Members(NodeIds(c.unit, |c.participants|))
    ensures Survives(k, a, chs, InUse(chs), NodesInUse(t, InUse(chs)))
  {
    InUseHas(chs, c);
    if k.Node? {
      var i :| 0 <= i < |c.participants| && k.id == NodeId(c.unit, i);
      var g := Group(GroupId(c.unit));
      assert NodeIds(c.unit, |c.participants|)[i] == k.id;
      assert g in t && KeepGroup(g.id, InUse(chs)) && t[g].Members? && k.id in t[g].nodes;
    }
  }

  /** Whom an added entry is for. */
  lemma AddedOwner(chs: seq<Channel>, k: Key) returns (c: Channel)
    requires WellFormed(chs) && k in AllRequired(chs, |chs|)
    ensures Live(chs, c) && Wants(c, k, AllRequired(chs, |chs|)[k]) && Owns(c, k, AllRequired(chs, |chs|)[k])
  {
    hide AllRequired, Wants;
    AllRequiredOnly(chs, |chs|, k);
    var a := AllRequired(chs, |chs|)[k];
    c :| Live(chs, c) && Wants(c, k, a);
    WantsOwns(c, k, a);
  }

  lemma OwnedHigh(c: Channel, k: Key, a: Action)
    requires Owns(c, k, a)
    ensures k.Group? ==> k.id >= 0x10
    ensures k.Node? ==> k.id >= 0x1000
  {
  }

  /** Static entries are neither added nor removed. */
  lemma StaticApart(stat: Table, chs: seq<Channel>, k: Key)
    requires IsStatic(stat) && k in stat && WellFormed(chs)
    ensures k !in AllRequired(chs, |chs|)
  {
    hide AllRequired, Wants, Owns, WellFormed;
    if k in AllRequired(chs, |chs|) {
      var c := AddedOwner(chs, k);
      OwnedHigh(c, k, AllRequired(chs, |chs|)[k]);
    }
  }

  /** An entry that survives although its channel is gone belongs to another one. */
  lemma StaleGone(before: seq<Channel>, chs: seq<Channel>, c: Channel, k: Key, a: Action, nodes: set<nat>)
    requires WellFormed(before) && Follows(before, chs) && Live(before, c) && Wants(c, k, a)
    requires !k.Node? && Survives(k, a, chs, InUse(chs), nodes)
    ensures Live(chs, c)
  {
    WantsOwns(c, k, a);
    hide Wants, Mask, FirstN;
  }

  /** The situation of a pass: the tables were exact for the channels before. */
  ghost predicate Pass(t: Table, stat: Table, before: seq<Channel>, chs: seq<Channel>) {
    && IsStatic(stat) && Exact(t, stat, before)
    && WellFormed(before) && WellFormed(chs) && Follows(before, chs)
  }

  lemma ExactEntry(t: Table, stat: Table, chs: seq<Channel>, k: Key, a: Action)
    requires Exact(t, stat, chs) && !Shared(k)
    ensures k in t && t[k] == a <==> (k in stat && stat[k] == a) || Wanted(chs, k, a)
  {
  }

  lemma GroupAdded(t: Table, chs: seq<Channel>, c: Channel)
    requires WellFormed(chs) && Live(chs, c)
    ensures var g := Group(GroupId(c.unit));
            g in Added(t, chs) && Added(t, chs)[g] == Members(NodeIds(c.unit, |c.participants|))
  {
    hide WellFormed, NodesAgree, AllRequired;
    var g, a := Group(GroupId(c.unit)), Members(NodeIds(c.unit, |c.participants|));
    assert UnitWants(c, g, a);
    assert Wants(c, g, a);
    hide Wants;
    AddedIs(chs, c, g, a);
  }

  lemma StaticKept(t: Table, stat: Table, before: seq<Channel>, chs: seq<Channel>, k: Key)
    requires Pass(t, stat, before, chs) && k in stat
    ensures k in Reconciled(t, chs) && Reconciled(t, chs)[k] == stat[k]
  {
    StaticApart(stat, chs, k);
    ExactEntry(t, stat, before, k, stat[k]);
    if k.Node? {
      var g :| g in stat && g.Group? && stat[g].Members? && k.id in stat[g].nodes;
      StaticApart(stat, chs, g);
      ExactEntry(t, stat, before, g, stat[g]);
      hide AllRequired, WellFormed, Follows, Wanted, InUse, Exact;
      assert g in Added(t, chs) && KeepGroup(g.id, InUse(chs));
    }
  }

  lemma WantedAdded(t: Table, chs: seq<Channel>, c: Channel, k: Key, a: Action)
    requires WellFormed(chs) && Live(chs, c) && Wants(c, k, a)
    ensures k in Reconciled(t, chs)
    ensures (k.Node? ==> NodesAgree(chs)) ==> Reconciled(t, chs)[k] == a
  {
    WantsOwns(c, k, a);
    AddedIs(chs, c, k, a);
    GroupAdded(t, chs, c);
    hide AllRequired, WellFormed, Wants, InUse, NodesInUse, Live, NodesAgree;
    AddedSurvives(t, chs, c, k, a);
    hide Survives, Owns;
  }

  /** What survives does not depend on the data of the entry, a selector's unit aside. */
  lemma AddedSurvives(t: Table, chs: seq<Channel>, c: Channel, k: Key, a: Action)
    requires Live(chs, c) && Owns(c, k, a) && k in Added(t, chs) && (!k.Node? ==> Added(t, chs)[k] == a)
    requires Group(GroupId(c.unit)) in Added(t, chs)
    requires Added(t, chs)[Group(GroupId(c.unit))] == Members(NodeIds(c.unit, |c.participants|))
    ensures Survives(k, Added(t, chs)[k], chs, InUse(chs), NodesInUse(Added(t, chs), InUse(chs)))
  {
    hide InUse, NodesInUse, Live, Owns, Added;
    OwnedSurvives(Added(t, chs), chs, c, k, a);
  }

  /** Where a node that survives comes from. */
  lemma NodeOrigin(t: Table, stat: Table, before: seq<Channel>, chs: seq<Channel>, id: nat)
    requires Pass(t, stat, before, chs) && id >= 0x1000
    requires id in NodesInUse(Added(t, chs), InUse(chs))
    ensures exists d, i :: Live(chs, d) && 0 <= i < |d.participants| && id == NodeId(d.unit, i)
  {
    hide AllRequired, WellFormed, Follows, NodesAgree, Wants, Owns;
    var g :| g in Added(t, chs) && g.Group? && KeepGroup(g.id, InUse(chs)) && Added(t, chs)[g].Members? && id in Added(t, chs)[g].nodes;
    if g.id < 0x10 {
      if g in AllRequired(chs, |chs|) {
        var c := AddedOwner(chs, g);
        OwnedHigh(c, g, AllRequired(chs, |chs|)[g]);
        assert false;
      }
      ExactEntry(t, stat, before, g, t[g]);
      if g !in stat || stat[g] != t[g] {
        var c :| Live(before, c) && Wants(c, g, t[g]);
        LowUnwanted(before, c, g, t[g]);
        assert false;
      }
    } else {
      var d :| d in chs && d.Complete() && d.unit == g.id - 0x10;
      GroupAdded(t, chs, d);
      var i :| 0 <= i < |d.participants| && NodeIds(d.unit, |d.participants|)[i] == id;
      assert Live(chs, d) && id == NodeId(d.unit, i);
    }
  }

  lemma LowUnwanted(chs: seq<Channel>, c: Channel, k: Key, a: Action)
    requires WellFormed(chs) && Live(chs, c) && Wants(c, k, a)
    ensures k.Group? ==> k.id >= 0x10
    ensures k.Node? ==> k.id >= 0x1000
  {
    hide Wants;
    WantsOwns(c, k, a);
    OwnedHigh(c, k, a);
  }

  lemma NothingElse(t: Table, stat: Table, before: seq<Channel>, chs: seq<Channel>, k: Key)
    requires Pass(t, stat, before, chs) && k in Reconciled(t, chs)
    ensures (k in stat && stat[k] == Reconciled(t, chs)[k]) || Wanted(chs, k, Reconciled(t, chs)[k])
  {
    hide AllRequired, WellFormed, NodesAgree, Wants, Owns, IsStatic;
    var a := Added(t, chs)[k];
    var nodes := NodesInUse(Added(t, chs), InUse(chs));
    assert Survives(k, a, chs, InUse(chs), nodes);
    if k in AllRequired(chs, |chs|) {
      var c := AddedOwner(chs, k);
    } else if Shared(k) {
      NodeOrigin(t, stat, before, chs, k.id);
      var d, i :| Live(chs, d) && 0 <= i < |d.participants| && k.id == NodeId(d.unit, i);
      WantsNode(d, i);
      AddedIs(chs, d, k, Copy(i + 1, FanOutPort(d.participants[i].port)));
      assert false;
    } else {
      ExactEntry(t, stat, before, k, a);
      if k !in stat || stat[k] != a {
        var c :| Live(before, c) && Wants(c, k, a);
        hide InUse, NodesInUse, Survives;
        LowUnwanted(before, c, k, a);
        StaleGone(before, chs, c, k, a, nodes);
      }
    }
  }

  /** After every change of the repository the tables again hold exactly what the complete channels
      want; for multicast nodes this is so if and only if channels in the same block of eight units
      agree on their ports. */
  lemma ReconciledExact(t: Table, stat: Table, before: seq<Channel>, chs: seq<Channel>)
    requires Pass(t, stat, before, chs)
    ensures Exact(Reconciled(t, chs), stat, chs)
    ensures NodesExact(Reconciled(t, chs), chs) <==> NodesAgree(chs)
  {
    hide Pass, Wants, NodesAgree, WellFormed, Reconciled, Wanted, IsStatic;
    forall k, a | !Shared(k)
      ensures k in Reconciled(t, chs) && Reconciled(t, chs)[k] == a <==> (k in stat && stat[k] == a) || Wanted(chs, k, a)
    {
      ReconciledEntry(t, stat, before, chs, k, a);
    }
    if NodesAgree(chs) {
      forall k, a | Shared(k)
        ensures k in Reconciled(t, chs) && Reconciled(t, chs)[k] == a <==> Wanted(chs, k, a)
      {
        ReconciledEntry(t, stat, before, chs, k, a);
        assert k !in stat by { NotStatic(t, stat, before, chs, k); }
      }
    }
    if NodesExact(Reconciled(t, chs), chs) {
      NodesNeedAgree(Reconciled(t, chs), chs);
    }
  }

  lemma NotStatic(t: Table, stat: Table, before: seq<Channel>, chs: seq<Channel>, k: Key)
    requires Pass(t, stat, before, chs) && Shared(k)
    ensures k !in stat
  {
  }

  lemma ReconciledEntry(t: Table, stat: Table, before: seq<Channel>, chs: seq<Channel>, k: Key, a: Action)
    requires Pass(t, stat, before, chs) && (Shared(k) ==> NodesAgree(chs))
    ensures k in Reconciled(t, chs) && Reconciled(t, chs)[k] == a <==> (k in stat && stat[k] == a) || Wanted(chs, k, a)
  {
    PassWell(t, stat, before, chs);
    hide Pass, Wants, NodesAgree, WellFormed, Reconciled;
    if k in stat { StaticKept(t, stat, before, chs, k); }
    if k in Reconciled(t, chs) { NothingElse(t, stat, before, chs, k); }
    if Wanted(chs, k, a) {
      var c :| Live(chs, c) && Wants(c, k, a);
      LowUnwanted(chs, c, k, a);
      WantedAdded(t, chs, c, k, a);
    }
  }

  lemma NodesNeedAgree(t: Table, chs: seq<Channel>)
    requires NodesExact(t, chs)
    ensures NodesAgree(chs)
  {
    hide Wants, NodesExact;
    forall c, d, i | Live(chs, c) && Live(chs, d) && c.unit / 8 == d.unit / 8 && 0 <= i < |c.participants| && i < |d.participants|
      ensures FanOutPort(c.participants[i].port) == FanOutPort(d.participants[i].port)
    {
      var k, a, b := Node(NodeId(c.unit, i)), Copy(i + 1, FanOutPort(c.participants[i].port)), Copy(i + 1, FanOutPort(d.participants[i].port));
      WantsNode(c, i);
      WantsNode(d, i);
      NodesExactEntry(t, chs, k, a);
      NodesExactEntry(t, chs, k, b);
    }
  }

  lemma NodesExactEntry(t: Table, chs: seq<Channel>, k: Key, a: Action)
    requires NodesExact(t, chs) && Shared(k)
    ensures k in t && t[k] == a <==> Wanted(chs, k, a)
  {
  }

  lemma PassWell(t: Table, stat: Table, before: seq<Channel>, chs: seq<Channel>)
    requires Pass(t, stat, before, chs)
    ensures WellFormed(chs)
  {
  }

  lemma WantsNode(c: Channel, i: nat)
    requires i < |c.participants|
    ensures Wants(c, Node(NodeId(c.unit, i)), Copy(i + 1, FanOutPort(c.participants[i].port)))
  {
    assert NodeWants(c, |c.participants|, Node(NodeId(c.unit, i)), Copy(i + 1, FanOutPort(c.participants[i].port)));
  }

  lemma FirstSelector(c: Channel)
    requires |c.participants| > 0
    ensures var p := c.participants[0]; Wants(c, FromNode(p.Pipe(), p.ip, p.fabricQp), Select(c.unit, Mask(c.Rank(0))))
  {
    hide Mask;
    var p := c.participants[0];
    assert IsPart(c, 0, p.Pipe(), p.ip, p.fabricQp);
    assert PartWants(c, |c.participants|, FromNode(p.Pipe(), p.ip, p.fabricQp), Select(c.unit, Mask(c.Rank(0))));
  }

  /** A unit that goes out of use loses a selector entry, so its registers are cleared. */
  lemma PassClears(t: Table, stat: Table, before: seq<Channel>, chs: seq<Channel>, u: nat)
    requires Pass(t, stat, before, chs) && u in InUse(before) && u !in InUse(chs)
    ensures u in ToClear(Added(t, chs), InUse(chs))
  {
    hide Wants, Mask, Exact, IsStatic, AllRequired;
    var c :| c in before && c.Complete() && c.unit == u;
    var p := c.participants[0];
    var k, a := FromNode(p.Pipe(), p.ip, p.fabricQp), Select(u, Mask(c.Rank(0)));
    FirstSelector(c);
    assert Live(before, c) && Wanted(before, k, a);
    ExactEntry(t, stat, before, k, a);
    assert k in t && t[k] == a by { NotStaticSelector(t, stat, before, k, a); }
    if k in AllRequired(chs, |chs|) {
      var d := AddedOwner(chs, k);
      Abandoned(before, chs, c, p, d);
      InUseHas(chs, c);
      assert false;
    }
    assert p.Pipe() == 0 || p.Pipe() == 3;
    hide InUse;
    assert Added(t, chs)[k] == a && Selects(k);
  }

  lemma NotStaticSelector(t: Table, stat: Table, chs: seq<Channel>, k: Key, a: Action)
    requires Exact(t, stat, chs) && !Shared(k) && Wanted(chs, k, a)
    ensures k in t && t[k] == a
  {
    ExactEntry(t, stat, chs, k, a);
  }

  /** A channel whose participant is still mentioned has not been removed. */
  lemma Abandoned(before: seq<Channel>, chs: seq<Channel>, c: Channel, p: Participant, d: Channel)
    requires Follows(before, chs) && Live(before, c) && p in c.participants
    requires Live(chs, d) && Mentions(d, p.ip, p.fabricQp)
    ensures c in chs
  {
    assert Mentioned(chs, p.ip, p.fabricQp);
  }

  /** Only units that were in use are cleared. */
  lemma ClearsUsed(t: Table, stat: Table, before: seq<Channel>, chs: seq<Channel>, u: nat)
    requires Pass(t, stat, before, chs) && u in ToClear(Added(t, chs), InUse(chs))
    ensures u in InUse(before) && u !in InUse(chs)
  {
    var k :| k in Added(t, chs) && Selects(k) && Added(t, chs)[k].Select? && Added(t, chs)[k].agg !in InUse(chs) && u == Added(t, chs)[k].agg;
    if k in AllRequired(chs, |chs|) {
      var d := AddedOwner(chs, k);
      InUseHas(chs, d);
      assert false;
    }
    ExactEntry(t, stat, before, k, t[k]);
    var c :| Live(before, c) && Wants(c, k, t[k]);
    WantsOwns(c, k, t[k]);
    InUseHas(before, c);
  }

  /** Two channels with one participant each, in units 0 and 1, which are the first two allocated. */
  function First(): Channel { Channel(1, 1, 0, [Participant(1, 10, 5, 256, 7, 0)]) }

  function Second(): Channel { Channel(2, 2, 1, [Participant(2, 11, 5, 512, 7, 4)]) }

  lemma OneParticipant(c: Channel)
    requires |c.participants| == 1 && c.participants[0].port < 128 && c.participants[0].Known()
    ensures c.OnUsedPipes() && c.Complete() && c.Distinct()
    ensures forall p <- c.participants :: p == c.participants[0]
  {
  }

  lemma TwoWellFormed(c: Channel, d: Channel)
    requires |c.participants| == 1 && c.participants[0].port < 128 && c.participants[0].Known()
    requires |d.participants| == 1 && d.participants[0].port < 128 && d.participants[0].Known()
    requires c.unit != d.unit && c.qpCommon != d.qpCommon && c.participants[0].ip != d.participants[0].ip
    ensures WellFormed([c, d])
  {
    OneParticipant(c);
    OneParticipant(d);
    hide Channel.OnUsedPipes, Channel.Distinct, Channel.Complete;
    assert forall e <- [c, d] :: e == c || e == d;
  }

  lemma PairWellFormed()
    ensures WellFormed([First(), Second()])
    ensures First().Complete() && Second().Complete()
  {
    OneParticipant(First());
    OneParticipant(Second());
    hide WellFormed, Channel.Complete;
    TwoWellFormed(First(), Second());
  }

  lemma PairDisagrees()
    ensures !NodesAgree([First(), Second()])
  {
    PairWellFormed();
    var chs, c, d := [First(), Second()], First(), Second();
    assert chs[0] == c && chs[1] == d;
    assert Live(chs, c) && Live(chs, d);
    assert FanOutPort(c.participants[0].port) != FanOutPort(d.participants[0].port);
  }

  /** The first two channels already share multicast nodes: if their participants are on different
      ports, no node table can serve both. */
  lemma FirstTwoClash()
    ensures First().unit == 0 && Second().unit == 1 && First().Complete() && Second().Complete()
    ensures WellFormed([First(), Second()])
    ensures forall t :: !NodesExact(t, [First(), Second()])
  {
    PairWellFormed();
    PairDisagrees();
    hide NodesExact, NodesAgree, WellFormed;
    forall t
      ensures !NodesExact(t, [First(), Second()])
    {
      if NodesExact(t, [First(), Second()]) { NodesNeedAgree(t, [First(), Second()]); }
    }
  }
}
