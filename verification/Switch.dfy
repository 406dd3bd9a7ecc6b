/** The switch as a whole, control plane and pipes: whatever channels come and go and whatever packets of
other channels pass in between, the registers of a channel's unit go through the slot protocol's passes of
its own packets and nothing else. */
module Switch {
  import opened Options
  import opened Payloads
  import opened Aggregator
  import opened Collectives
  import opened Channels
  import T = Tables
  import opened Reconcile
  import opened AsicDriver
  import opened ChannelProgram
  import opened ControlState
  import opened StateRepository
  import opened Datapath
  import P = SlotProtocol

  /** Pipes of the slot protocol, by channel. */
  type Pipes = map<nat, Pipe>

  /** The complete channels. */
  function LiveTags(m: Repo): set<nat> {
    set t | t in m && m[t].Complete()
  }

  function SlotsOn(b: Bank, pipe: nat): seq<Slot> {
    if pipe == 0 then b.0 else b.1
  }

  /** The slots of a unit, with a given recirculation queue. */
  function PipeIn(s: seq<Slot>, unit: nat, q: seq<Packet>): (p: Pipe)
    requires |s| == REGISTERS
    ensures p.Shaped()
  {
    Pipe(seq(SLOTS, k requires 0 <= k < SLOTS => s[Index(AggUnit(unit, k))]), q)
  }

  lemma PipeOfIn(p: Pipeline, unit: nat, q: seq<Packet>)
    requires p.Valid()
    ensures p.PipeOf(unit, q) == PipeIn(p.Slots(), unit, q)
  {
    hide Pipeline.SlotAt, Index, AggUnit;
  }

  /** The registers of every complete channel's unit are the slots of its own slot protocol. */
  ghost predicate Tracks(m: Repo, ps: Pipes, s: seq<Slot>)
    requires |s| == REGISTERS
  {
    && ps.Keys == LiveTags(m)
    && (forall t <- ps :: t in m && PipeIn(s, m[t].unit, ps[t].recirc) == ps[t])
  }

  lemma TracksAdd(m: Repo, c: Channel, ps: Pipes, s: seq<Slot>)
    requires |s| == REGISTERS && Tracks(m, ps, s) && c.tag !in m && !c.Complete()
    ensures Tracks(m[c.tag := c], ps, s)
  {
    hide PipeIn, Channel.Complete;
    assert LiveTags(m[c.tag := c]) == LiveTags(m);
  }

  /** A channel that becomes complete starts with idle pipes. */
  lemma TracksUpdate(m: Repo, t: nat, c: Channel, ps: Pipes, s: seq<Slot>)
    requires |s| == REGISTERS && Tracks(m, ps, s) && t in m && !m[t].Complete()
    requires c.Complete() ==> PipeIn(s, c.unit, []) == IdlePipe()
    ensures Tracks(m[t := c], if c.Complete() then ps[t := IdlePipe()] else ps, s)
  {
    IdleQueue();
    hide PipeIn, Channel.Complete, IdlePipe;
    assert LiveTags(m[t := c]) == if c.Complete() then LiveTags(m) + {t} else LiveTags(m);
  }

  lemma IdleQueue()
    ensures IdlePipe().recirc == []
  {
  }

  lemma TracksRemove(m: Repo, t: nat, ps: Pipes, s: seq<Slot>, s': seq<Slot>)
    requires |s| == |s'| == REGISTERS && Tracks(m, ps, s) && RepoOk(m) && t in m
    requires Cleared(s, s', if m[t].Complete() then {m[t].unit} else {})
    ensures Tracks(m - {t}, ps - {t}, s')
  {
    hide PipeIn, Channel.Complete, Cleared, ChannelOk;
    assert LiveTags(m - {t}) == LiveTags(m) - {t};
    forall u | u in ps - {t}
      ensures PipeIn(s', m[u].unit, ps[u].recirc) == ps[u]
    {
      SmallUnit(m, u);
      OtherCleared(s, s', m[u].unit, if m[t].Complete() then {m[t].unit} else {}, ps[u].recirc);
    }
  }

  lemma OtherCleared(s: seq<Slot>, s': seq<Slot>, u: nat, units: set<nat>, q: seq<Packet>)
    requires |s| == |s'| == REGISTERS && Cleared(s, s', units) && u !in units && u < AGG_UNITS
    ensures PipeIn(s', u, q) == PipeIn(s, u, q)
  {
    hide Index, AggUnit;
    forall k | 0 <= k < SLOTS
      ensures s'[Index(AggUnit(u, k))] == s[Index(AggUnit(u, k))]
    {
      IndexSplit(u, k);
      assert Index(AggUnit(u, k)) / SLOTS == u;
    }
  }

  lemma TracksPass(m: Repo, t: nat, ps: Pipes, s: seq<Slot>, s': seq<Slot>, after: Pipe)
    requires |s| == |s'| == REGISTERS && Tracks(m, ps, s) && RepoOk(m) && t in ps && t in m
    requires OthersKept(s, s', m[t].unit) && PipeIn(s', m[t].unit, after.recirc) == after
    ensures Tracks(m, ps[t := after], s')
  {
    hide PipeIn, Channel.Complete, OthersKept, ChannelOk;
    forall u | u in ps && u != t
      ensures PipeIn(s', m[u].unit, ps[u].recirc) == ps[u]
    {
      SmallUnit(m, u);
      OtherKept(s, s', m[t].unit, m[u].unit, ps[u].recirc);
    }
  }

  lemma SmallUnit(m: Repo, t: nat)
    requires RepoOk(m) && t in m
    ensures m[t].unit < AGG_UNITS
  {
    assert ChannelOk(m[t]);
  }

  lemma OtherKept(s: seq<Slot>, s': seq<Slot>, unit: nat, u: nat, q: seq<Packet>)
    requires |s| == |s'| == REGISTERS && OthersKept(s, s', unit) && u != unit && u < AGG_UNITS
    ensures PipeIn(s', u, q) == PipeIn(s, u, q)
  {
    hide Index, AggUnit;
  }

  /** A complete channel of the repository is one that the driver serves. */
  lemma LiveIn(m: Repo, chs: seq<Channel>, t: nat)
    requires Lists(chs, m) && RepoFits(m) && t in LiveTags(m)
    ensures t in m && Live(chs, m[t]) && Fits(m[t])
  {
    hide Fits, Channel.Complete;
  }

  /** The tables know nothing of unit 255, which is what a packet without a channel looks like. */
  lemma NoStray(t: T.Table, stat: T.Table, chs: seq<Channel>, pipe: nat, p: Pipeline)
    requires IsStatic(stat) && Exact(t, stat, chs) && SmallUnits(chs) && WellFormed(chs) && Loaded(t, pipe, p)
    ensures p.Listed(None)
  {
    if 255 in p.units {
      ChosenHas(t, 255);
      Stranger(t, stat, chs, T.Choose(0, 255, false));
    }
    if 255 in p.complete { Stranger(t, stat, chs, T.Clearing(pipe, 255)); }
  }

  lemma Stranger(t: T.Table, stat: T.Table, chs: seq<Channel>, k: T.Key)
    requires IsStatic(stat) && Exact(t, stat, chs) && SmallUnits(chs) && WellFormed(chs) && (k.Choose? || k.Clearing?) && k in t
    ensures k.unit < AGG_UNITS
  {
    ExactEntry(t, stat, chs, k, t[k]);
    var c :| Live(chs, c) && T.Wants(c, k, t[k]);
    WantsOwns(c, k, t[k]);
    InUseHas(chs, c);
  }

  class Switch {
    const repo: StateRepository
    /** The slot protocols of the complete channels on pipes 0 and 3, as their own packets have left them. */
    ghost var on0: Pipes
    ghost var on3: Pipes

    ghost predicate Valid()
      reads this, repo, repo.driver, repo.driver.Memory(), repo.driver.pipe0, repo.driver.pipe3
    {
      && this !in repo.driver.Memory() && repo.Valid() && repo.driver.Ready()
      && Loaded(repo.driver.tables, 0, repo.driver.pipe0) && Loaded(repo.driver.tables, 3, repo.driver.pipe3)
      && Tracks(repo.channels, on0, repo.driver.Slots().0) && Tracks(repo.channels, on3, repo.driver.Slots().1)
    }

    constructor (repo: StateRepository)
      requires repo.Valid() && repo.channels == map[]
      modifies repo.driver.pipe0, repo.driver.pipe3
      ensures Valid() && this.repo == repo && on0 == on3 == map[]
    {
      this.repo, on0, on3 := repo, map[], map[];
      new;
      Sync();
    }

    /** What the driver writes is in the pipes when a change of the repository is done. */
    method Sync()
      requires repo.Valid()
      modifies repo.driver.pipe0`units, repo.driver.pipe0`complete, repo.driver.pipe3`units, repo.driver.pipe3`complete
      ensures repo.driver.Ready()
      ensures Loaded(repo.driver.tables, 0, repo.driver.pipe0) && Loaded(repo.driver.tables, 3, repo.driver.pipe3)
    {
      hide RepoOk, RepoFits, Lists, Loaded, Loadable, SmallUnits, Clean;
      RepoWellFormed(repo.listed, repo.channels);
      ExactLoadable(repo.driver.tables, repo.stat, repo.listed, 0);
      ExactLoadable(repo.driver.tables, repo.stat, repo.listed, 3);
      Load(repo.driver.tables, 0, repo.driver.pipe0);
      Load(repo.driver.tables, 3, repo.driver.pipe3);
    }

    /** A new channel. */
    method Add(c: Channel) returns (r: Status)
      requires Valid()
      requires c.tag !in repo.channels ==>
                 ChannelOk(c) && !c.Complete() && !TakenUnit(repo.channels, c.unit) && !TakenQp(repo.channels, c.qpCommon)
      modifies repo`channels, repo`listed, repo.driver`tables, repo.driver.Memory(), repo.driver.pipe0, repo.driver.pipe3
      ensures Valid() && on0 == old(on0) && on3 == old(on3)
      ensures repo.channels == if c.tag in old(repo.channels) then old(repo.channels) else old(repo.channels)[c.tag := c]
    {
      hide RepoOk, RepoFits, Lists, Loaded, Tracks, TakenUnit, TakenQp, ChannelOk, Channel.Complete, ASICDriver.Serving, ASICDriver.Slots;
      ghost var m, s := repo.channels, repo.driver.Slots();
      r := repo.AddChannel(c);
      Sync();
      if c.tag !in m {
        TracksAdd(m, c, on0, s.0);
        TracksAdd(m, c, on3, s.1);
      }
    }

    /** A participant's data: if its channel is now complete, the slot protocol starts with idle pipes. */
    method Update(tag: nat, clientId: nat, ip: nat, localQp: nat, mac: nat, port: nat, fabricQp: nat) returns (r: Status, k: nat)
      requires Valid()
      requires tag in repo.channels ==> FirstRequest(repo.channels[tag], clientId)
      requires tag in repo.channels ==> fabricQp == NextFabricQp(repo.channels[tag], ip)
      requires ip != 0 && (port / 128 == 0 || port / 128 == 3)
      modifies this, repo`channels, repo`listed, repo.driver`tables, repo.driver.Memory(), repo.driver.pipe0, repo.driver.pipe3
      ensures r != TooMany ==> Valid()
      ensures r == Ok ==>
                && tag in old(repo.channels) && k < |old(repo.channels)[tag].participants|
                && repo.channels == old(repo.channels)[tag := Join(old(repo.channels)[tag], k, ip, localQp, mac, port)]
                && on0 == Started(old(on0), repo.channels[tag]) && on3 == Started(old(on3), repo.channels[tag])
                && Entered(old(repo.channels)[tag], repo.channels[tag], k, Participant(clientId, ip, localQp, fabricQp, mac, port))
                && (repo.channels[tag].Complete() ==> Knows(repo.driver.tables, repo.channels[tag]))
      ensures r == Missing || r == NoParticipant ==>
                repo.channels == old(repo.channels) && on0 == old(on0) && on3 == old(on3)
    {
      hide RepoOk, RepoFits, Lists, Loaded, Tracks, ChannelOk, Channel.Complete, Join, NextFabricQp, ASICDriver.Serving, ASICDriver.Slots, ASICDriver.Idle, IdlePipe, Entered, Knows;
      ghost var m, s := repo.channels, repo.driver.Slots();
      r, k := repo.Update(tag, clientId, ip, localQp, mac, port, fabricQp);
      if r == Ok {
        ghost var c := repo.channels[tag];
        JoinTag(m, tag, k, ip, localQp, mac, port);
        if c.Complete() { IdleIn(repo.driver, c.unit); }
        TracksUpdate(m, tag, c, on0, s.0);
        TracksUpdate(m, tag, c, on3, s.1);
        on0, on3 := Started(on0, c), Started(on3, c);
      }
      if r != TooMany { Sync(); }
    }

    /** A channel goes, and its slot protocol with it. */
    method Remove(tag: nat) returns (r: Status)
      requires Valid()
      modifies this, repo`channels, repo`listed, repo.driver`tables, repo.driver.Memory(), repo.driver.pipe0, repo.driver.pipe3
      ensures Valid() && repo.channels == old(repo.channels) - {tag}
      ensures on0 == old(on0) - {tag} && on3 == old(on3) - {tag}
    {
      hide RepoOk, RepoFits, Lists, Loaded, Tracks, ChannelOk, Channel.Complete, ASICDriver.Serving, ASICDriver.Slots, Cleared;
      ghost var m, s := repo.channels, repo.driver.Slots();
      r := repo.RemoveChannel(tag);
      Sync();
      if tag in m {
        TracksRemove(m, tag, on0, s.0, repo.driver.Slots().0);
        TracksRemove(m, tag, on3, s.1, repo.driver.Slots().1);
      } else {
        TracksGone(m, tag, on0, s.0, repo.driver.Slots().0);
        TracksGone(m, tag, on3, s.1, repo.driver.Slots().1);
      }
      on0, on3 := on0 - {tag}, on3 - {tag};
    }

    ghost function On(pipe: nat): Pipes
      reads this
    {
      if pipe == 0 then on0 else on3
    }

    /** A packet of participant i of some complete channel comes by: its channel's slot protocol makes the
        pass, and no other channel notices. */
    method Packet(h: Header, psn: nat, data: Payload, ghost tag: nat, ghost i: nat, ghost cfg: P.Config)
      returns (out: Payload, v: Verdict)
      requires Valid() && Comes(repo.channels, repo.driver.tables, tag, i, h, cfg) && Head(On(h.pipe), tag, h, psn, data)
      modifies this`on0, this`on3, repo.driver.Memory()
      ensures Valid() && Passed(old(On(h.pipe)), On(h.pipe), repo.channels, tag, i, h, cfg, psn, data, out, v)
      ensures Leaves(repo.channels, repo.driver.tables, tag, i, h, cfg, v)
      ensures h.pipe == 0 ==> on3 == old(on3)
      ensures h.pipe != 0 ==> on0 == old(on0)
    {
      hide RepoOk, RepoFits, Lists, Loaded, Tracks, OthersKept, Comes, Passed, Head, ASICDriver.Serving, ASICDriver.Slots, PipeIn;
      hide QpsByChannel, WellFormed, Live, LiveTags, Fits, SetUp, OnItsWay, FromPipe0, ProtocolPass, GoesOn, Leaves, Header.IsClear, Channel.Complete;
      ghost var m, s, ps := repo.channels, SlotsOn(repo.driver.Slots(), h.pipe), On(h.pipe);
      ComesFacts(m, repo.listed, repo.driver.tables, tag, i, h, cfg);
      HeadFacts(m, ps, s, tag, h, psn, data);
      ghost var q';
      out, v, q' := PassOn(repo.driver, h, psn, data, ps[tag].recirc, repo.stat, repo.listed, m[tag], i, cfg);
      ghost var s' := SlotsOn(repo.driver.Slots(), h.pipe);
      ghost var after := PipeIn(s', m[tag].unit, q');
      PassedBy(m, ps, s, s', after, q', tag, i, h, cfg, psn, data, out, v);
      LeavesAs(m, repo.driver.tables, tag, i, h, cfg, v);
      if h.pipe == 0 { on0 := ps[tag := after]; } else { on3 := ps[tag := after]; }
    }

    /** A packet that no selector entry matches passes unchanged and changes nothing. */
    method Stray(h: Header, psn: nat, data: Payload) returns (out: Payload, v: Verdict)
      requires Valid() && (h.pipe == 0 || h.pipe == 3)
      requires forall k | k in repo.driver.tables && Matches(k, h) :: !repo.driver.tables[k].Select?
      modifies repo.driver.Memory()
      ensures Valid() && repo.driver.Slots() == old(repo.driver.Slots()) && out == data && v == Verdict.Pass
    {
      hide RepoOk, RepoFits, Lists, Loaded, Tracks, ASICDriver.Serving, ASICDriver.Slots, Matches;
      out, v := StrayOn(repo.driver, h, psn, data, repo.stat, repo.listed);
    }
  }

  method StrayOn(d: ASICDriver, h: Header, psn: nat, data: Payload, ghost stat: T.Table, ghost chs: seq<Channel>)
    returns (out: Payload, v: Verdict)
    requires d.Serving(stat, chs) && Loaded(d.tables, 0, d.pipe0) && Loaded(d.tables, 3, d.pipe3)
    requires (h.pipe == 0 || h.pipe == 3) && forall k | k in d.tables && Matches(k, h) :: !d.tables[k].Select?
    modifies d.Memory()
    ensures d.Serving(stat, chs) && d.Slots() == old(d.Slots()) && out == data && v == Verdict.Pass
  {
    hide Loaded, Clean, WellFormed, SmallUnits, IsStatic, Exact, Matches, Pipeline.SlotAt;
    var p := if h.pipe == 0 then d.pipe0 else d.pipe3;
    NoStray(d.tables, stat, chs, h.pipe, p);
    hide Pipeline.Listed;
    var sel := Lookup(d.tables, h);
    ghost var s := p.Slots();
    out, v := p.Apply(psn, data, sel, h.IsClear());
    assert p.Slots() == s;
  }

  /** Participant i's packet comes by somewhere on its way. */
  ghost predicate Comes(m: Repo, t: T.Table, tag: nat, i: nat, h: Header, cfg: P.Config) {
    && tag in m && m[tag].Complete() && SetUp(m[tag], cfg)
    && i < |m[tag].participants| && OnItsWay(m[tag], i, h) && FromPipe0(t, h)
  }

  /** A packet that stays in the switch comes by again: the one that completes its slot comes back to its
      pipe for the second pass, and a connected channel's second pass on pipe 0 sends it over for a first
      pass on pipe 3; any other second pass hands it to the channel's group. */
  ghost predicate Leaves(m: Repo, t: T.Table, tag: nat, i: nat, h: Header, cfg: P.Config, v: Verdict) {
    match v
    case Drop => !h.IsClear()
    case Recirculate(port) =>
      var r := Again(h, port);
      !h.IsClear() && Comes(m, t, tag, i, r, cfg) && r.IsClear() && r.pipe == h.pipe
    case NextPipe(port) =>
      var r := Again(h, port);
      h.IsClear() && Comes(m, t, tag, i, r, cfg) && !r.IsClear() && h.pipe == 0 && r.pipe == 3
    case Distribute(group) =>
      h.IsClear() && tag in m && (h.pipe == 3 || !m[tag].Connected()) && T.Group(group) in t
      && t[T.Group(group)] == T.Members(T.NodeIds(m[tag].unit, |m[tag].participants|))
    case Pass => false
  }

  lemma LeavesAs(m: Repo, t: T.Table, tag: nat, i: nat, h: Header, cfg: P.Config, v: Verdict)
    requires Comes(m, t, tag, i, h, cfg) && GoesOn(t, m[tag], i, h, v)
    ensures Leaves(m, t, tag, i, h, cfg, v)
  {
    hide SetUp, OnItsWay, FromPipe0, Header.IsClear, Channel.Complete, Channel.Connected;
  }

  /** A packet from recirculation is the one at the head of its channel's queue. */
  ghost predicate Head(ps: Pipes, tag: nat, h: Header, psn: nat, data: Payload) {
    h.IsClear() ==> tag in ps && ps[tag].recirc != [] && ps[tag].recirc[0] == Packet(psn, data)
  }

  /** One channel's slot protocol makes a pass. */
  ghost predicate Passed(ps: Pipes, ps': Pipes, m: Repo, tag: nat, i: nat, h: Header, cfg: P.Config,
                         psn: nat, data: Payload, out: Payload, v: Verdict)
  {
    && tag in m && i < |m[tag].participants| && i < |cfg.bit| && tag in ps && tag in ps' && ps[tag].Shaped()
    && ps' == ps[tag := ps'[tag]]
    && ProtocolPass(ps[tag], ps'[tag], m[tag], i, h, cfg, psn, data, out, v)
  }

  lemma ComesFacts(m: Repo, chs: seq<Channel>, t: T.Table, tag: nat, i: nat, h: Header, cfg: P.Config)
    requires RepoOk(m) && RepoFits(m) && Lists(chs, m) && Comes(m, t, tag, i, h, cfg)
    ensures tag in m && tag in LiveTags(m)
    ensures
      var c := m[tag];
      && Live(chs, c) && Fits(c) && QpsByChannel(chs) && WellFormed(chs)
      && i < |c.participants| && i < |cfg.bit| && OnItsWay(c, i, h) && SetUp(c, cfg) && FromPipe0(t, h)
      && (h.pipe == 0 || h.pipe == 3)
  {
    hide RepoOk, Lists, RepoFits, Fits, QpsByChannel, FromPipe0, WellFormed, Channel.Complete;
    RepoWellFormed(chs, m);
    LiveIn(m, chs, tag);
    OnTheWay(chs, m[tag], i, h, cfg);
    SetUpBits(m[tag], cfg);
  }

  lemma SetUpBits(c: Channel, cfg: P.Config)
    requires SetUp(c, cfg)
    ensures |cfg.bit| == |c.participants|
  {
  }

  lemma HeadFacts(m: Repo, ps: Pipes, s: seq<Slot>, tag: nat, h: Header, psn: nat, data: Payload)
    requires |s| == REGISTERS && Tracks(m, ps, s) && tag in LiveTags(m) && Head(ps, tag, h, psn, data)
    ensures tag in ps && PipeIn(s, m[tag].unit, ps[tag].recirc) == ps[tag]
    ensures h.IsClear() ==> ps[tag].recirc != [] && ps[tag].recirc[0] == Packet(psn, data)
  {
    hide PipeIn, Channel.Complete;
  }

  lemma PassedBy(m: Repo, ps: Pipes, s: seq<Slot>, s': seq<Slot>, after: Pipe, q: seq<Packet>, tag: nat, i: nat, h: Header,
                 cfg: P.Config, psn: nat, data: Payload, out: Payload, v: Verdict)
    requires |s| == |s'| == REGISTERS && RepoOk(m) && Tracks(m, ps, s) && tag in m && tag in ps
    requires i < |m[tag].participants| && i < |cfg.bit| && after == PipeIn(s', m[tag].unit, q)
    requires ProtocolPass(PipeIn(s, m[tag].unit, ps[tag].recirc), after, m[tag], i, h, cfg, psn, data, out, v)
    requires OthersKept(s, s', m[tag].unit)
    ensures Tracks(m, ps[tag := after], s') && Passed(ps, ps[tag := after], m, tag, i, h, cfg, psn, data, out, v)
  {
    hide PipeIn, ProtocolPass, RepoOk, OthersKept, Channel.Complete;
    QueueOf(s', m[tag].unit, q);
    TracksPass(m, tag, ps, s, s', after);
  }

  lemma QueueOf(s: seq<Slot>, unit: nat, q: seq<Packet>)
    requires |s| == REGISTERS
    ensures PipeIn(s, unit, q).recirc == q
  {
  }

  /** A pass on one of the driver's pipes: the other one and all other units stay, and so does what the
      driver keeps true. */
  method PassOn(d: ASICDriver, h: Header, psn: nat, data: Payload, ghost q: seq<Packet>,
                ghost stat: T.Table, ghost chs: seq<Channel>, ghost c: Channel, ghost i: nat, ghost cfg: P.Config)
    returns (out: Payload, v: Verdict, ghost q': seq<Packet>)
    requires d.Serving(stat, chs) && Loaded(d.tables, 0, d.pipe0) && Loaded(d.tables, 3, d.pipe3)
    requires QpsByChannel(chs) && Live(chs, c) && Fits(c) && SetUp(c, cfg) && FromPipe0(d.tables, h)
    requires i < |c.participants| && i < |cfg.bit| && OnItsWay(c, i, h) && (h.pipe == 0 || h.pipe == 3)
    requires h.IsClear() ==> q != [] && q[0] == Packet(psn, data)
    modifies d.Memory()
    ensures d.Serving(stat, chs)
    ensures SlotsOn(d.Slots(), 3 - h.pipe) == SlotsOn(old(d.Slots()), 3 - h.pipe)
    ensures OthersKept(SlotsOn(old(d.Slots()), h.pipe), SlotsOn(d.Slots(), h.pipe), c.unit)
    ensures ProtocolPass(PipeIn(SlotsOn(old(d.Slots()), h.pipe), c.unit, q), PipeIn(SlotsOn(d.Slots(), h.pipe), c.unit, q'),
                         c, i, h, cfg, psn, data, out, v)
    ensures GoesOn(d.tables, c, i, h, v)
  {
    hide GoesOn, Loaded, QpsByChannel, Live, Fits, SetUp, FromPipe0, OnItsWay, OthersKept, ProtocolPass, PipeIn, Clean, WellFormed, SmallUnits, IsStatic, Exact, Pipeline.PipeOf, Pipeline.Slots;
    if h.pipe == 0 {
      PipeOfIn(d.pipe0, c.unit, q);
      out, v, q' := Process(d.pipe0, d.tables, h, psn, data, q, stat, chs, c, i, cfg);
      PipeOfIn(d.pipe0, c.unit, q');
    } else {
      PipeOfIn(d.pipe3, c.unit, q);
      out, v, q' := Process(d.pipe3, d.tables, h, psn, data, q, stat, chs, c, i, cfg);
      PipeOfIn(d.pipe3, c.unit, q');
    }
  }

  /** A complete channel's slot protocol starts with idle pipes. */
  function Started(ps: Pipes, c: Channel): Pipes {
    if c.Complete() then ps[c.tag := IdlePipe()] else ps
  }

  lemma JoinTag(m: Repo, t: nat, k: nat, ip: nat, localQp: nat, mac: nat, port: nat)
    requires RepoOk(m) && t in m && k < |m[t].participants| && !m[t].participants[k].Known()
    ensures Join(m[t], k, ip, localQp, mac, port).tag == t && !m[t].Complete()
  {
    hide ChannelOk, NextFabricQp;
  }

  lemma IdleIn(d: ASICDriver, unit: nat)
    requires d.Ready() && d.Idle(unit)
    ensures PipeIn(d.Slots().0, unit, []) == PipeIn(d.Slots().1, unit, []) == IdlePipe()
  {
    PipeOfIn(d.pipe0, unit, []);
    PipeOfIn(d.pipe3, unit, []);
  }

  lemma TracksGone(m: Repo, t: nat, ps: Pipes, s: seq<Slot>, s': seq<Slot>)
    requires |s| == |s'| == REGISTERS && Tracks(m, ps, s) && t !in m && Cleared(s, s', {})
    ensures Tracks(m - {t}, ps - {t}, s')
  {
    hide PipeIn, Channel.Complete;
    assert s' == s && m - {t} == m && ps - {t} == ps;
  }
}
