/** The switch's side of the control protocol: channels on request, replies held back until the switch
is programmed, channels removed with their last owner. */
module Agent {
  import opened Channels
  import opened Reconcile
  import opened AsicDriver
  import opened ControlState
  import opened Messages
  import opened StateRepository
  import opened Options
  import ChannelProgram
  import Ownership

  /** A reply and the node daemon it is for. */
  datatype Reply = Reply(node: nat, clientId: nat, tag: nat, fabricQp: nat)

  /** A participant nothing is known of but its client id. */
  function Blank(id: nat): Participant {
    Participant(id, 0, 0, 0, 0, 0)
  }

  /** Insertion into the map of participants: ordered by client id, a second insertion does nothing. */
  function Insert(ps: seq<Participant>, id: nat): (r: seq<Participant>) {
    if ps == [] then [Blank(id)]
    else if id < ps[0].clientId then [Blank(id)] + ps
    else if id == ps[0].clientId then ps
    else [ps[0]] + Insert(ps[1..], id)
  }

  function InsertAll(ids: seq<nat>): seq<Participant> {
    if ids == [] then [] else Insert(InsertAll(ids[..|ids| - 1]), ids[|ids| - 1])
  }

  ghost predicate AllBlank(ps: seq<Participant>) {
    forall p <- ps :: p == Blank(p.clientId)
  }

  ghost predicate HasId(ps: seq<Participant>, id: nat) {
    exists p :: p in ps && p.clientId == id
  }

  lemma {:induction false} InsertIds(ps: seq<Participant>, id: nat, j: nat)
    ensures HasId(Insert(ps, id), j) <==> HasId(ps, j) || j == id
  {
    if ps == [] {
      assert Blank(id) in Insert(ps, id);
    } else if id < ps[0].clientId {
      IdParts(Blank(id), ps, j);
    } else if id > ps[0].clientId {
      InsertIds(ps[1..], id, j);
      IdParts(ps[0], ps[1..], j);
      IdParts(ps[0], Insert(ps[1..], id), j);
      assert ps == [ps[0]] + ps[1..];
    } else {
      assert ps[0] in ps;
    }
  }

  lemma InsertAbove(ps: seq<Participant>, id: nat, low: nat)
    requires id > low && forall p <- ps :: p.clientId > low
    ensures forall p <- Insert(ps, id) :: p.clientId > low
  {
    forall p | p in Insert(ps, id)
      ensures p.clientId > low
    {
      InsertIds(ps, id, p.clientId);
      assert HasId(Insert(ps, id), p.clientId);
    }
  }

  lemma {:induction false} InsertBlank(ps: seq<Participant>, id: nat)
    requires AllBlank(ps)
    ensures AllBlank(Insert(ps, id)) && |Insert(ps, id)| <= |ps| + 1
  {
    if ps != [] && id > ps[0].clientId {
      assert forall p <- ps[1..] :: p in ps;
      InsertBlank(ps[1..], id);
    }
  }

  lemma AscendingCons(p: Participant, ps: seq<Participant>)
    requires Ascending(ps) && forall q <- ps :: p.clientId < q.clientId
    ensures Ascending([p] + ps)
  {
    var r := [p] + ps;
    forall i, j | 0 <= i < j < |r|
      ensures r[i].clientId < r[j].clientId
    {
      assert r[j] == ps[j - 1];
      if i > 0 { assert r[i] == ps[i - 1]; } else { assert ps[j - 1] in ps; }
    }
  }

  lemma AscendingTail(ps: seq<Participant>)
    requires Ascending(ps) && ps != []
    ensures Ascending(ps[1..]) && forall q <- ps[1..] :: ps[0].clientId < q.clientId
  {
    forall q | q in ps[1..]
      ensures ps[0].clientId < q.clientId
    {
      var i :| 0 <= i < |ps[1..]| && ps[1..][i] == q;
      assert ps[i + 1] == q;
    }
  }

  lemma {:induction false} InsertAscending(ps: seq<Participant>, id: nat)
    requires Ascending(ps)
    ensures Ascending(Insert(ps, id))
  {
    if ps != [] {
      AscendingTail(ps);
      assert ps == [ps[0]] + ps[1..];
      hide Ascending;
      if id < ps[0].clientId {
        forall q | q in ps ensures id < q.clientId { if q != ps[0] { assert q in ps[1..]; } }
        AscendingCons(Blank(id), ps);
      } else if id > ps[0].clientId {
        InsertAscending(ps[1..], id);
        InsertAbove(ps[1..], id, ps[0].clientId);
        AscendingCons(ps[0], Insert(ps[1..], id));
      }
    }
  }

  lemma IdParts(p: Participant, ps: seq<Participant>, j: nat)
    ensures HasId([p] + ps, j) <==> p.clientId == j || HasId(ps, j)
  {
    if HasId(ps, j) {
      var o :| o in ps && o.clientId == j;
      assert o in [p] + ps;
    }
    assert p in [p] + ps;
  }

  /** Whatever the order of the ids and however often they occur, each gets one participant. */
  lemma {:induction false} InsertAllOk(ids: seq<nat>)
    ensures Ascending(InsertAll(ids)) && AllBlank(InsertAll(ids)) && |InsertAll(ids)| <= |ids|
    ensures forall j :: HasId(InsertAll(ids), j) <==> j in ids
  {
    hide Ascending, AllBlank, Insert, HasId;
    if ids == [] {
      NoIds();
    } else {
      var n := |ids| - 1;
      InsertAllOk(ids[..n]);
      InsertBlank(InsertAll(ids[..n]), ids[n]);
      InsertAscending(InsertAll(ids[..n]), ids[n]);
      forall j
        ensures HasId(InsertAll(ids), j) <==> j in ids
      {
        InsertIds(InsertAll(ids[..n]), ids[n], j);
        assert j in ids <==> j in ids[..n] || j == ids[n];
      }
    }
  }

  lemma NoIds()
    ensures Ascending([]) && AllBlank([])
    ensures forall j :: !HasId([], j)
  {
  }

  /** The reply for the participant at index i, with its own fabric queue pair. */
  predicate IsFor(r: Reply, c: Channel, i: nat)
    requires i < |c.participants|
  {
    r.tag == c.tag && r.clientId == c.participants[i].clientId && r.fabricQp == c.participants[i].fabricQp
  }

  /** Exactly one reply for every known participant, and no other. */
  ghost predicate Holds(q: seq<Reply>, c: Channel) {
    && |q| == KnownCount(c.participants, |c.participants|)
    && DifferentClients(q) && OnlyKnown(q, c) && AllKnown(q, c)
  }

  ghost predicate DifferentClients(q: seq<Reply>) {
    forall a, b | 0 <= a < b < |q| :: q[a].clientId != q[b].clientId
  }

  ghost predicate OnlyKnown(q: seq<Reply>, c: Channel) {
    forall a | 0 <= a < |q| :: exists i :: 0 <= i < |c.participants| && c.participants[i].Known() && IsFor(q[a], c, i)
  }

  ghost predicate AllKnown(q: seq<Reply>, c: Channel) {
    forall i | 0 <= i < |c.participants| && c.participants[i].Known() :: exists a :: 0 <= a < |q| && IsFor(q[a], c, i)
  }

  predicate Joins(held: seq<Reply>, all: seq<Reply>, node: nat, clientId: nat) {
    |all| == |held| + 1 && all[..|held|] == held && all[|held|].node == node && all[|held|].clientId == clientId
  }

  function HeldFor(pending: map<nat, seq<Reply>>, tag: nat): seq<Reply> {
    if tag in pending then pending[tag] else []
  }

  /** Incomplete channels hold a reply for each known participant; complete ones hold none. */
  ghost predicate PendingOk(pending: map<nat, seq<Reply>>, m: Repo) {
    forall t <- m :: if m[t].Complete() then t !in pending else Holds(HeldFor(pending, t), m[t])
  }

  lemma HoldsNone(c: Channel)
    requires AllBlank(c.participants)
    ensures Holds([], c)
    ensures |c.participants| > 0 ==> !c.Complete()
  {
    KnownCountAll(c.participants, |c.participants|);
    forall i | 0 <= i < |c.participants|
      ensures !c.participants[i].Known()
    {
      assert c.participants[i] in c.participants;
    }
  }

  lemma JoinOthers(c: Channel, k: nat, ip: nat, localQp: nat, mac: nat, port: nat, r: Reply, i: nat)
    requires k < |c.participants| && i < |c.participants| && i != k
    ensures
      var c' := Join(c, k, ip, localQp, mac, port);
      c'.participants[i].Known() == c.participants[i].Known() && IsFor(r, c', i) == IsFor(r, c, i)
  {
  }

  lemma JoinSelf(c: Channel, k: nat, ip: nat, localQp: nat, mac: nat, port: nat, node: nat)
    requires k < |c.participants| && ip != 0
    ensures
      var c' := Join(c, k, ip, localQp, mac, port);
      c'.participants[k].Known() && IsFor(Reply(node, c.participants[k].clientId, c.tag, NextFabricQp(c, ip)), c', k)
  {
    hide NextFabricQp;
  }

  lemma OnlyKnownMore(q: seq<Reply>, c: Channel, k: nat, r: Reply, ip: nat, localQp: nat, mac: nat, port: nat)
    requires OnlyKnown(q, c) && Ascending(c.participants) && k < |c.participants| && !c.participants[k].Known()
    requires Join(c, k, ip, localQp, mac, port).participants[k].Known() && IsFor(r, Join(c, k, ip, localQp, mac, port), k)
    requires r.clientId == c.participants[k].clientId
    ensures OnlyKnown(q + [r], Join(c, k, ip, localQp, mac, port))
    ensures forall a | 0 <= a < |q| :: q[a].clientId != r.clientId
  {
    var c' := Join(c, k, ip, localQp, mac, port);
    var n := |c.participants|;
    assert |c'.participants| == n;
    hide NextFabricQp, Join;
    forall a | 0 <= a < |q| + 1
      ensures exists i :: 0 <= i < n && c'.participants[i].Known() && IsFor((q + [r])[a], c', i)
      ensures a < |q| ==> q[a].clientId != r.clientId
    {
      if a < |q| {
        assert (q + [r])[a] == q[a];
        var i :| 0 <= i < n && c.participants[i].Known() && IsFor(q[a], c, i);
        JoinOthers(c, k, ip, localQp, mac, port, q[a], i);
      } else {
        assert (q + [r])[a] == r;
      }
    }
  }

  lemma AllKnownMore(q: seq<Reply>, c: Channel, k: nat, r: Reply, ip: nat, localQp: nat, mac: nat, port: nat)
    requires AllKnown(q, c) && k < |c.participants|
    requires IsFor(r, Join(c, k, ip, localQp, mac, port), k)
    ensures AllKnown(q + [r], Join(c, k, ip, localQp, mac, port))
  {
    var c' := Join(c, k, ip, localQp, mac, port);
    assert |c'.participants| == |c.participants|;
    hide NextFabricQp, Join;
    forall i | 0 <= i < |c.participants| && c'.participants[i].Known()
      ensures exists a :: 0 <= a < |q| + 1 && IsFor((q + [r])[a], c', i)
    {
      if i == k {
        assert (q + [r])[|q|] == r;
      } else {
        JoinOthers(c, k, ip, localQp, mac, port, r, i);
        var a :| 0 <= a < |q| && IsFor(q[a], c, i);
        JoinOthers(c, k, ip, localQp, mac, port, q[a], i);
        assert (q + [r])[a] == q[a];
      }
    }
  }

  /** The reply to one more participant joins the ones that are held. */
  lemma HoldsMore(q: seq<Reply>, c: Channel, k: nat, node: nat, ip: nat, localQp: nat, mac: nat, port: nat)
    requires Holds(q, c) && Ascending(c.participants) && k < |c.participants| && !c.participants[k].Known() && ip != 0
    ensures Holds(q + [Reply(node, c.participants[k].clientId, c.tag, NextFabricQp(c, ip))], Join(c, k, ip, localQp, mac, port))
  {
    var c' := Join(c, k, ip, localQp, mac, port);
    var r := Reply(node, c.participants[k].clientId, c.tag, NextFabricQp(c, ip));
    JoinCount(c, k, ip, localQp, mac, port);
    JoinSelf(c, k, ip, localQp, mac, port, node);
    hide NextFabricQp, Join, KnownCount, AllKnown, OnlyKnown, DifferentClients, Ascending, IsFor;
    OnlyKnownMore(q, c, k, r, ip, localQp, mac, port);
    AllKnownMore(q, c, k, r, ip, localQp, mac, port);
    DifferentMore(q, r);
  }

  lemma JoinCount(c: Channel, k: nat, ip: nat, localQp: nat, mac: nat, port: nat)
    requires k < |c.participants| && !c.participants[k].Known() && ip != 0
    ensures
      var c' := Join(c, k, ip, localQp, mac, port);
      |c'.participants| == |c.participants| &&
      KnownCount(c'.participants, |c'.participants|) == KnownCount(c.participants, |c.participants|) + 1
  {
    hide NextFabricQp;
    var c' := Join(c, k, ip, localQp, mac, port);
    KnownCountUpdate(c.participants, k, c'.participants[k], |c.participants|);
    assert c'.participants == c.participants[k := c'.participants[k]];
  }

  lemma DifferentMore(q: seq<Reply>, r: Reply)
    requires DifferentClients(q) && forall a | 0 <= a < |q| :: q[a].clientId != r.clientId
    ensures DifferentClients(q + [r])
  {
  }

  lemma WrapLater(x: nat)
    ensures (x % 256 + 1) % 256 == (x + 1) % 256
  {
  }

  lemma PendingRemove(pending: map<nat, seq<Reply>>, m: Repo, t: nat)
    requires PendingOk(pending, m)
    ensures PendingOk(pending, m - {t})
  {
    hide Holds, Channel.Complete;
  }

  /** The channels that some connected node daemon owns are the ones that exist. */
  ghost predicate OwnersOk(owned: map<nat, set<nat>>, m: Repo) {
    forall t :: t in m <==> Owned(owned, t)
  }

  predicate Owned(owned: map<nat, set<nat>>, t: nat) {
    exists n :: n in owned && t in owned[n]
  }

  /** Replies held for channels that exist are for connected node daemons. */
  ghost predicate HeldOk(pending: map<nat, seq<Reply>>, owned: map<nat, set<nat>>) {
    forall t, r | Owned(owned, t) && t in pending && r in pending[t] :: r.node in owned
  }

  /** Some channel that is owned holds a reply for the node daemon. */
  ghost predicate Awaits(pending: map<nat, seq<Reply>>, owned: map<nat, set<nat>>, node: nat) {
    exists t, r :: Owned(owned, t) && t in pending && r in pending[t] && r.node == node
  }

  /** In the present life of each channel: no reply yet while some participant has not asked, and then
      exactly one for every participant. */
  ghost predicate RepliedOk(replied: map<nat, seq<Reply>>, m: Repo) {
    forall t <- m :: t in replied && (if m[t].Complete() then Holds(replied[t], m[t]) else replied[t] == [])
  }

  lemma RepliedPart(replied: map<nat, seq<Reply>>, m: Repo, m': Repo)
    requires RepliedOk(replied, m) && PartOf(m', m)
    ensures RepliedOk(replied, m')
  {
    hide Holds, Channel.Complete;
  }

  /** The replies sent in the present life of a channel; none if there is no such channel. */
  function RepliedSoFar(replied: map<nat, seq<Reply>>, m: Repo, t: nat): seq<Reply> {
    if t in m && t in replied then replied[t] else []
  }

  lemma RepliedServed(replied: map<nat, seq<Reply>>, m: Repo, m': Repo, p: map<nat, seq<Reply>>, p': map<nat, seq<Reply>>,
                      listed: seq<Channel>, out: seq<Reply>, node: nat, msg: GetMsg)
    requires RepliedOk(replied, m) && Served(m, m', p, p', listed, out, node, msg)
    requires msg.tag in m ==> FirstRequest(m[msg.tag], msg.clientId)
    ensures RepliedOk(replied[msg.tag := RepliedSoFar(replied, m, msg.tag) + out], m')
  {
    hide Holds, Join, InsertAll, Joins;
    if msg.tag in m {
      var k :| 0 <= k < |m[msg.tag].participants| && m[msg.tag].participants[k].clientId == msg.clientId
               && m'[msg.tag] == Join(m[msg.tag], k, msg.ip, msg.localQp, msg.mac, msg.port);
      assert !m[msg.tag].participants[k].Known();
      assert !m[msg.tag].Complete();
    }
    assert RepliedSoFar(replied, m, msg.tag) + out == out;
    hide Channel.Complete;
  }

  lemma RemovedPart(m: Repo, owned: map<nat, set<nat>>, tags: set<nat>)
    ensures PartOf(Removed(m, owned, tags), m)
  {
    hide Owned;
  }

  /** The channel that a request is about; its unit and prefix do not matter here. */
  function Target(m: Repo, msg: GetMsg): Channel {
    if msg.tag in m then m[msg.tag] else Channel(msg.tag, 0, 0, InsertAll(msg.ids))
  }

  /** The request can be served: the client is one of the channel's participants, and once all of them
      are known they fit on their pipes. */
  ghost predicate Servable(c: Channel, msg: GetMsg) {
    exists k :: 0 <= k < |c.participants| && ServableAs(c, k, msg)
  }

  ghost predicate ServableAs(c: Channel, k: nat, msg: GetMsg)
    requires k < |c.participants|
  {
    var c' := Join(c, k, msg.ip, msg.localQp, msg.mac, msg.port);
    c.participants[k].clientId == msg.clientId && (c'.Complete() ==> Fits(c'))
  }

  class Agent {
    const repo: StateRepository
    /** Connected node daemons and the channels they own. */
    var owned: map<nat, set<nat>>
    /** Replies held back, by channel. */
    var pending: map<nat, seq<Reply>>
    /** Replies sent, by channel, since the channel was created. */
    ghost var replied: map<nat, seq<Reply>>

    ghost predicate Valid()
      reads this, repo, repo.driver, repo.driver.Memory()
    {
      Consistent() && HeldOk(pending, owned)
    }

    ghost predicate Consistent()
      reads this, repo, repo.driver, repo.driver.Memory()
    {
      && this !in repo.driver.Memory()
      && repo.Valid() && OwnersOk(owned, repo.channels) && PendingOk(pending, repo.channels)
      && RepliedOk(replied, repo.channels)
    }

    constructor (repo: StateRepository)
      requires repo.Valid() && repo.channels == map[]
      ensures Valid() && this.repo == repo && owned == map[]
    {
      this.repo, owned, pending, replied := repo, map[], map[], map[];
    }

    /** `get_next_fabric_qp`: counts the known participants by address, in eight bits. */
    method GetNextFabricQp(c: Channel, ip: nat) returns (qp: nat)
      requires ip != 0
      ensures qp == NextFabricQp(c, ip)
      ensures qp / 256 == c.qpCommon && qp % 256 == |Sharing(c.participants, ip, |c.participants|)| % 256
    {
      var cnts: map<nat, nat> := map[];
      for i := 0 to |c.participants|
        invariant forall a | a != 0 :: (if a in cnts then cnts[a] else 0) == CountIp(c.participants, a, i) % 256
      {
        var p := c.participants[i];
        if p.Known() {
          WrapLater(CountIp(c.participants, p.ip, i));
          cnts := cnts[p.ip := ((if p.ip in cnts then cnts[p.ip] else 0) + 1) % 256];
        }
      }
      qp := c.qpCommon * 256 + (if ip in cnts then cnts[ip] else 0);
      CountIpIs(c.participants, ip, |c.participants|);
      FabricParts(c.qpCommon, CountIp(c.participants, ip, |c.participants|) % 256);
    }

    /** `check_remove_channel`: a channel without owners is removed. */
    method CheckRemove(tag: nat)
      requires this !in repo.driver.Memory() && repo.Valid() && PendingOk(pending, repo.channels)
      requires tag in repo.channels
      modifies repo`channels, repo`listed, repo.driver`tables, repo.driver.Memory()
      ensures repo.Valid() && PendingOk(pending, repo.channels)
      ensures repo.channels == if Owned(owned, tag) then old(repo.channels) else old(repo.channels) - {tag}
      ensures Recycled(old(repo.driver.Slots()), repo.driver.Slots(), old(repo.channels), repo.channels)
    {
      hide RepoOk, RepoFits, Lists, ASICDriver.Serving, PendingOk, Recycled, BothCleared, Channel.Complete;
      repo.driver.ServingClean(repo.stat, repo.listed);
      ghost var s, m := repo.driver.Slots(), repo.channels;
      PendingRemove(pending, m, tag);
      NothingRecycled(s, m);
      var owners, rest := 0, owned.Keys;
      while rest != {}
        invariant rest <= owned.Keys
        invariant owners > 0 <==> exists n :: n in owned && n !in rest && tag in owned[n]
        decreases |rest|
      {
        var n :| n in rest;
        if tag in owned[n] { owners := owners + 1; }
        rest := rest - {n};
      }
      if owners == 0 {
        var _ := repo.RemoveChannel(tag);
        RecycledOne(s, repo.driver.Slots(), m, tag);
      }
    }

    /** `on_new_client`. */
    method OnConnect(node: nat)
      requires Valid() && node !in owned
      modifies this`owned
      ensures Valid() && owned == old(owned)[node := {}]
    {
      OwnersConnect(owned, node, repo.channels);
      HeldConnect(pending, owned, node);
      owned := owned[node := {}];
    }

    /** A channel that does not exist yet gets a prefix and a unit of its own, and its participants. */
    method Allocate(tag: nat, ids: seq<nat>)
      requires repo.Valid() && tag !in repo.channels
      requires 0 < |InsertAll(ids)| <= MAX_PARTICIPANTS && |repo.channels| < AGG_UNITS
      modifies repo`nextQp, repo`channels, repo`listed, repo.driver`tables, repo.driver.Memory()
      ensures repo.Valid()
      ensures tag in repo.channels && repo.channels == old(repo.channels)[tag := repo.channels[tag]]
      ensures repo.channels[tag].tag == tag && repo.channels[tag].participants == InsertAll(ids)
      ensures !TakenUnit(old(repo.channels), repo.channels[tag].unit) && !TakenQp(old(repo.channels), repo.channels[tag].qpCommon)
      ensures repo.driver.Slots() == old(repo.driver.Slots())
    {
      hide RepoOk, RepoFits, Lists, ASICDriver.Serving, ASICDriver.Slots, TakenQp, TakenUnit;
      repo.driver.ServingClean(repo.stat, repo.listed);
      ghost var s := repo.driver.Slots();
      ghost var freeQp, freeUnit := RoomLeft(repo.channels);
      var qp := repo.GetFreeQp();
      assert !TakenQp(repo.channels, freeQp) && repo.driver.Slots() == s;
      var unit := repo.GetFreeUnit();
      var c := Channel(tag, qp.value, unit.value, InsertAll(ids));
      InsertAllOk(ids);
      BlankOk(c);
      var _ := repo.AddChannel(c);
    }

    /** `on_client_get_channel` for a participant's first request.  An exception is None: the port is out
        of range, the client is no participant of the channel, or the last participant to be known does
        not fit on its pipe. */
    method OnGetChannel(node: nat, msg: GetMsg) returns (out: Option<seq<Reply>>)
      requires Valid() && node in owned
      requires msg.ip != 0 && (msg.port < 512 ==> msg.port / 128 == 0 || msg.port / 128 == 3)
      requires msg.tag in repo.channels ==> FirstRequest(repo.channels[msg.tag], msg.clientId)
      requires msg.tag !in repo.channels ==> 0 < |InsertAll(msg.ids)| <= MAX_PARTICIPANTS && |repo.channels| < AGG_UNITS
      modifies this, repo`nextQp, repo`channels, repo`listed, repo.driver`tables, repo.driver.Memory()
      ensures out.Some? <==> msg.port < 512 && Servable(Target(old(repo.channels), msg), msg)
      ensures out.Some? ==> Valid()
      ensures out.Some? ==> owned == old(owned)[node := Ownership.Take(old(owned)[node], Ownership.Get(msg.tag))]
      ensures out.Some? ==>
                Served(old(repo.channels), repo.channels, old(pending), pending, repo.listed, out.value, node, msg)
      ensures out.Some? ==> msg.tag in repo.channels && Heard(BaseOf(old(repo.channels), repo.channels[msg.tag], msg), repo.channels[msg.tag], msg)
      ensures out.Some? ==> forall r <- out.value :: r.node in owned
      ensures out.Some? ==>
                replied == old(replied)[msg.tag := RepliedSoFar(old(replied), old(repo.channels), msg.tag) + out.value]
      ensures out.Some? ==> Programmed(repo.driver, repo.channels, msg.tag) && repo.driver.Slots() == old(repo.driver.Slots())
    {
      hide RepoOk, RepoFits, Lists, ASICDriver.Serving, StateRepository.Valid, PendingOk, OwnersOk, HeldOk, FirstRequest, InsertAll, Ensured, Served, Servable, Target, Programmed, RepliedOk, RepliedSoFar, Heard, BaseOf;
      ghost var m, p, o := repo.channels, pending, owned;
      EnsureChannel(msg);
      ghost var m1, p1 := repo.channels, pending;
      TargetIs(m, m1, p, p1, msg);
      owned := owned[node := owned[node] + {msg.tag}];
      if msg.port >= 512 {
        return None;
      }
      out := Answer(node, msg);
      if out.Some? {
        ServedAfter(m, m1, repo.channels, p, p1, pending, repo.listed, out.value, node, msg);
        ServedHeard(m, repo.channels, p, pending, repo.listed, out.value, node, msg);
        OwnersGet(o, node, m, repo.channels, msg.tag);
        HeldServed(o, node, m, repo.channels, p, pending, repo.listed, out.value, msg);
        RepliedServed(replied, m, repo.channels, p, pending, repo.listed, out.value, node, msg);
        replied := replied[msg.tag := RepliedSoFar(replied, m, msg.tag) + out.value];
      }
    }

    /** The first half: the channel, if it does not exist yet. */
    method EnsureChannel(msg: GetMsg)
      requires this !in repo.driver.Memory() && repo.Valid() && PendingOk(pending, repo.channels)
      requires msg.tag in repo.channels ==> FirstRequest(repo.channels[msg.tag], msg.clientId)
      requires msg.tag !in repo.channels ==> 0 < |InsertAll(msg.ids)| <= MAX_PARTICIPANTS && |repo.channels| < AGG_UNITS
      modifies this`pending, repo`nextQp, repo`channels, repo`listed, repo.driver`tables, repo.driver.Memory()
      ensures repo.Valid() && PendingOk(pending, repo.channels)
      ensures Ensured(old(repo.channels), repo.channels, old(pending), pending, msg)
      ensures msg.tag in repo.channels && FirstRequest(repo.channels[msg.tag], msg.clientId)
      ensures repo.driver.Slots() == old(repo.driver.Slots())
    {
      hide RepoOk, RepoFits, Lists, ASICDriver.Serving, ASICDriver.Slots, StateRepository.Valid, PendingOk, Channel.Complete, FirstRequest, InsertAll, TakenQp, TakenUnit, Ensured;
      ghost var p, m := pending, repo.channels;
      EnsuredOld(m, p, msg);
      if msg.tag !in repo.channels {
        Allocate(msg.tag, msg.ids);
        PendingNew(p, m, repo.channels, msg);
        EnsuredNew(m, repo.channels, p, msg);
        pending := pending - {msg.tag};
        FirstOk(repo.channels[msg.tag], msg.ids, msg.clientId);
      }
    }

    /** The second half: the participant's data ... */
    method Record(msg: GetMsg) returns (ok: bool, fabricQp: nat, ghost k: nat)
      requires repo.Valid() && msg.tag in repo.channels
      requires msg.ip != 0 && (msg.port / 128 == 0 || msg.port / 128 == 3)
      requires FirstRequest(repo.channels[msg.tag], msg.clientId)
      modifies repo`channels, repo`listed, repo.driver`tables, repo.driver.Memory()
      ensures ok <==> Servable(old(repo.channels)[msg.tag], msg)
      ensures ok ==> repo.Valid() && repo.driver.Slots() == old(repo.driver.Slots())
      ensures ok ==> Recorded(old(repo.channels), repo.channels, k, fabricQp, msg)
      ensures ok ==> Programmed(repo.driver, repo.channels, msg.tag)
    {
      hide RepoOk, RepoFits, Lists, ASICDriver.Serving, ASICDriver.Slots, ASICDriver.Idle, Channel.Complete, Join, NextFabricQp, Servable, Entered, ChannelProgram.Knows;
      repo.driver.ServingClean(repo.stat, repo.listed);
      ghost var m := repo.channels;
      fabricQp := GetNextFabricQp(repo.channels[msg.tag], msg.ip);
      var r, j := repo.Update(msg.tag, msg.clientId, msg.ip, msg.localQp, msg.mac, msg.port, fabricQp);
      UpdateServes(m, repo.channels, j, r, msg);
      ok, k := r == Ok, j;
      if ok { repo.driver.ServingClean(repo.stat, repo.listed); }
    }

    /** ... and the replies. */
    method Answer(node: nat, msg: GetMsg) returns (out: Option<seq<Reply>>)
      requires this !in repo.driver.Memory() && repo.Valid() && PendingOk(pending, repo.channels) && msg.tag in repo.channels
      requires msg.ip != 0 && (msg.port / 128 == 0 || msg.port / 128 == 3)
      requires FirstRequest(repo.channels[msg.tag], msg.clientId)
      modifies this`pending, repo`channels, repo`listed, repo.driver`tables, repo.driver.Memory()
      ensures out.Some? <==> Servable(old(repo.channels)[msg.tag], msg)
      ensures out.Some? ==> repo.Valid() && PendingOk(pending, repo.channels)
      ensures out.Some? ==>
                Served(old(repo.channels), repo.channels, old(pending), pending, repo.listed, out.value, node, msg)
      ensures out.Some? ==> Programmed(repo.driver, repo.channels, msg.tag) && repo.driver.Slots() == old(repo.driver.Slots())
    {
      hide RepoOk, RepoFits, Lists, ASICDriver.Serving, ASICDriver.Slots, PendingOk, Channel.Complete, NextFabricQp, Servable, Served, Programmed;
      repo.driver.ServingClean(repo.stat, repo.listed);
      ghost var m, p := repo.channels, pending;
      var ok, fabricQp, k := Record(msg);
      if !ok {
        return None;
      }
      repo.driver.ServingClean(repo.stat, repo.listed);
      var reply := Reply(node, msg.clientId, msg.tag, fabricQp);
      var q := HeldFor(pending, msg.tag) + [reply];
      pending := pending[msg.tag := q];
      Collected(m, repo.channels, p, repo.listed, k, node, fabricQp, msg);
      if |q| == |repo.channels[msg.tag].participants| {
        out := Some(q);
        pending := pending - {msg.tag};
      } else {
        out := Some([]);
      }
    }

    /** `on_client_unref_channel`: giving up a channel that is not owned is only reported. */
    method OnUnref(node: nat, tag: nat) returns (unowned: bool)
      requires Valid() && node in owned
      modifies this`owned, repo`channels, repo`listed, repo.driver`tables, repo.driver.Memory()
      ensures Valid()
      ensures unowned <==> tag !in old(owned)[node]
      ensures owned == old(owned)[node := Ownership.Take(old(owned)[node], Ownership.Unref(tag))]
      ensures repo.channels == Removed(old(repo.channels), owned, if unowned then {} else {tag})
      ensures Recycled(old(repo.driver.Slots()), repo.driver.Slots(), old(repo.channels), repo.channels)
    {
      hide RepoOk, RepoFits, Lists, ASICDriver.Serving, PendingOk, OwnersOk, HeldOk, RepliedOk, Owned, Recycled;
      repo.driver.ServingClean(repo.stat, repo.listed);
      hide StateRepository.Valid;
      unowned := tag !in owned[node];
      ghost var o, m := owned, repo.channels;
      if unowned {
        assert owned[node] - {tag} == owned[node];
        NothingRecycled(repo.driver.Slots(), m);
        return unowned;
      }
      ExistsOwned(o, m, node, tag);
      owned := owned[node := owned[node] - {tag}];
      OwnedLess(o, owned, node, {tag});
      HeldLess(pending, o, owned);
      CheckRemove(tag);
      assert (set t | t in {tag} && !Owned(owned, t)) == if Owned(owned, tag) then {} else {tag};
      OwnersLess(o, owned, m, repo.channels, {tag});
      RemovedPart(m, owned, {tag});
      RepliedPart(replied, m, repo.channels);
    }

    /** `on_client_fd` on a hang-up: the node daemon is forgotten, and its channels with it unless
        others own them.  Replies that a remaining channel holds for it are not: the agent stays valid
        exactly if there are none. */
    method OnDisconnect(node: nat)
      requires Valid() && node in owned
      modifies this`owned, repo`channels, repo`listed, repo.driver`tables, repo.driver.Memory()
      ensures Consistent()
      ensures Valid() <==> !Awaits(pending, old(owned) - {node}, node)
      ensures owned == old(owned) - {node}
      ensures repo.channels == Removed(old(repo.channels), owned, old(owned)[node])
      ensures Recycled(old(repo.driver.Slots()), repo.driver.Slots(), old(repo.channels), repo.channels)
    {
      hide RepoOk, RepoFits, Lists, ASICDriver.Serving, PendingOk, OwnersOk, HeldOk, RepliedOk, Awaits, Owned, Recycled;
      repo.driver.ServingClean(repo.stat, repo.listed);
      hide StateRepository.Valid;
      ghost var o, m := owned, repo.channels;
      GoneOrHeld(pending, o, node);
      DropAll(node);
      OwnersDrop(owned, node, repo.channels);
      RemovedDrop(m, owned, node, o[node]);
      owned := owned - {node};
      assert owned == o - {node};
    }

    /** `check_remove_channels` on all channels of a node daemon. */
    method DropAll(node: nat)
      requires Consistent() && node in owned
      modifies this`owned, repo`channels, repo`listed, repo.driver`tables, repo.driver.Memory()
      ensures Consistent() && owned == old(owned)[node := {}]
      ensures repo.channels == Removed(old(repo.channels), owned, old(owned)[node])
      ensures Recycled(old(repo.driver.Slots()), repo.driver.Slots(), old(repo.channels), repo.channels)
    {
      hide RepoOk, RepoFits, Lists, ASICDriver.Serving, PendingOk, OwnersOk, RepliedOk, Owned, Recycled;
      repo.driver.ServingClean(repo.stat, repo.listed);
      hide StateRepository.Valid;
      var tags := owned[node];
      ghost var o, m, s := owned, repo.channels, repo.driver.Slots();
      forall t | t in tags ensures t in m { ExistsOwned(o, m, node, t); }
      assert owned[node] - tags == {};
      owned := owned[node := {}];
      OwnedLess(o, owned, node, tags);
      NothingRecycled(s, m);
      var rest := tags;
      assert m == Removed(m, owned, tags - rest);
      while rest != {}
        invariant rest <= tags && owned == o[node := {}]
        invariant repo.Valid() && PendingOk(pending, repo.channels)
        invariant repo.channels == Removed(m, owned, tags - rest)
        invariant repo.driver.Ready() && Recycled(s, repo.driver.Slots(), m, repo.channels)
        decreases |rest|
      {
        var t :| t in rest;
        ghost var m1, s1 := repo.channels, repo.driver.Slots();
        RemovedStep(m, owned, tags - rest, t);
        assert tags - (rest - {t}) == tags - rest + {t};
        CheckRemove(t);
        RecycledMore(s, s1, repo.driver.Slots(), m, m1, repo.channels);
        rest := rest - {t};
      }
      assert tags - rest == tags;
      OwnersLess(o, owned, m, repo.channels, tags);
      RemovedPart(m, owned, tags);
      RepliedPart(replied, m, repo.channels);
    }
  }

  /** If the channel is complete, the tables know its participants and its unit's registers are idle on
      both pipes when the replies go out. */
  ghost predicate Programmed(driver: ASICDriver, m: Repo, tag: nat)
    reads driver, driver.Memory()
  {
    driver.Ready() && tag in m && (m[tag].Complete() ==> driver.Idle(m[tag].unit) && ChannelProgram.Knows(driver.tables, m[tag]))
  }

  /** The participant at index k has the data of the request. */
  ghost predicate Recorded(m: Repo, m': Repo, k: nat, fabricQp: nat, msg: GetMsg) {
    && msg.tag in m && k < |m[msg.tag].participants|
    && m[msg.tag].participants[k].clientId == msg.clientId && !m[msg.tag].participants[k].Known()
    && fabricQp == NextFabricQp(m[msg.tag], msg.ip)
    && m' == m[msg.tag := Join(m[msg.tag], k, msg.ip, msg.localQp, msg.mac, msg.port)]
  }

  /** A request and its outcome in the repository. */
  lemma UpdateServes(m: Repo, m': Repo, k: nat, r: Status, msg: GetMsg)
    requires RepoOk(m) && RepoFits(m) && msg.tag in m
    requires r == Ok || r == NoParticipant || r == TooMany
    requires r == NoParticipant ==> !HasClient(m[msg.tag], msg.clientId)
    requires r != NoParticipant ==>
               && k < |m[msg.tag].participants| && m[msg.tag].participants[k].clientId == msg.clientId
               && m' == m[msg.tag := Join(m[msg.tag], k, msg.ip, msg.localQp, msg.mac, msg.port)]
               && (r == Ok <==> RepoFits(m'))
    ensures r == Ok <==> Servable(m[msg.tag], msg)
  {
    var c := m[msg.tag];
    assert ChannelOk(c);
    hide RepoFits, Channel.Complete, Fits, Join, ChannelOk;
    if r != NoParticipant {
      FitsWith(m, msg.tag, Join(c, k, msg.ip, msg.localQp, msg.mac, msg.port));
      assert r == Ok <==> ServableAs(c, k, msg);
    }
  }

  /** The channel that is there after the first half of a request is the one the request is about. */
  lemma TargetIs(m: Repo, m1: Repo, p: map<nat, seq<Reply>>, p1: map<nat, seq<Reply>>, msg: GetMsg)
    requires Ensured(m, m1, p, p1, msg)
    ensures msg.tag in m1 && (Servable(m1[msg.tag], msg) <==> Servable(Target(m, msg), msg))
  {
    hide Servable, InsertAll;
    SameServable(m1[msg.tag], Target(m, msg), msg);
  }

  lemma SameServable(c: Channel, d: Channel, msg: GetMsg)
    requires c.participants == d.participants
    ensures Servable(c, msg) <==> Servable(d, msg)
  {
    forall k | 0 <= k < |c.participants|
      ensures ServableAs(c, k, msg) <==> ServableAs(d, k, msg)
    {
      var c', d' := Join(c, k, msg.ip, msg.localQp, msg.mac, msg.port), Join(d, k, msg.ip, msg.localQp, msg.mac, msg.port);
      SamePlaces(c', d');
    }
  }

  lemma SamePlaces(c: Channel, d: Channel)
    requires |c.participants| == |d.participants|
    requires forall i | 0 <= i < |c.participants| ::
               c.participants[i].Known() == d.participants[i].Known() && c.participants[i].Pipe() == d.participants[i].Pipe()
    ensures c.Complete() <==> d.Complete()
    ensures Fits(c) <==> Fits(d)
  {
    SameCount(c, d, 0, |c.participants|);
    SameCount(c, d, 3, |c.participants|);
  }

  lemma {:induction false} SameCount(c: Channel, d: Channel, pipe: nat, n: nat)
    requires n <= |c.participants| == |d.participants|
    requires forall i | 0 <= i < n :: c.participants[i].Pipe() == d.participants[i].Pipe()
    ensures c.Count(pipe, n) == d.Count(pipe, n)
  {
    if n > 0 { SameCount(c, d, pipe, n - 1); }
  }

  lemma HeldConnect(pending: map<nat, seq<Reply>>, o: map<nat, set<nat>>, node: nat)
    requires HeldOk(pending, o) && node !in o
    ensures HeldOk(pending, o[node := {}])
  {
    OwnedDrop(o[node := {}], node);
    assert o[node := {}] - {node} == o;
    hide Owned;
  }

  lemma HeldLess(pending: map<nat, seq<Reply>>, o: map<nat, set<nat>>, o': map<nat, set<nat>>)
    requires HeldOk(pending, o) && o'.Keys == o.Keys
    requires forall t | Owned(o', t) :: Owned(o, t)
    ensures HeldOk(pending, o')
  {
    hide Owned;
  }

  lemma GoneOrHeld(pending: map<nat, seq<Reply>>, o: map<nat, set<nat>>, node: nat)
    requires HeldOk(pending, o) && node in o
    ensures HeldOk(pending, o - {node}) <==> !Awaits(pending, o - {node}, node)
  {
    forall t | Owned(o - {node}, t)
      ensures Owned(o, t)
    {
      var n :| n in o - {node} && t in (o - {node})[n];
      assert n in o && t in o[n];
    }
    hide Owned;
  }

  /** The replies held or sent after a request are for connected node daemons. */
  lemma HeldServed(o: map<nat, set<nat>>, node: nat, m: Repo, m': Repo, p: map<nat, seq<Reply>>, p': map<nat, seq<Reply>>,
                   listed: seq<Channel>, out: seq<Reply>, msg: GetMsg)
    requires HeldOk(p, o) && OwnersOk(o, m) && node in o && Served(m, m', p, p', listed, out, node, msg)
    ensures HeldOk(p', o[node := o[node] + {msg.tag}])
    ensures forall r <- out :: r.node in o
  {
    var o' := o[node := o[node] + {msg.tag}];
    var held, kept := if msg.tag in m then HeldFor(p, msg.tag) else [], HeldFor(p', msg.tag);
    OwnedMore(o, node, msg.tag);
    ServedJoins(m, m', p, p', listed, out, node, msg);
    hide Served, Owned;
    forall r | r in out || r in kept
      ensures r.node in o
    {
      assert r in out + kept;
      JoinsFrom(held, out + kept, node, msg.clientId, r);
    }
    forall t, r | Owned(o', t) && t in p' && r in p'[t]
      ensures r.node in o'
    {
      if t != msg.tag {
        assert t in p' - {msg.tag};
        assert t in p && p[t] == p'[t];
      }
    }
  }

  lemma ServedJoins(m: Repo, m': Repo, p: map<nat, seq<Reply>>, p': map<nat, seq<Reply>>,
                    listed: seq<Channel>, out: seq<Reply>, node: nat, msg: GetMsg)
    requires Served(m, m', p, p', listed, out, node, msg)
    ensures p' - {msg.tag} == p - {msg.tag}
    ensures Joins(if msg.tag in m then HeldFor(p, msg.tag) else [], out + HeldFor(p', msg.tag), node, msg.clientId)
  {
    hide InsertAll, Join, Joined, Holds, Channel.Complete;
  }

  lemma JoinsFrom(held: seq<Reply>, all: seq<Reply>, node: nat, clientId: nat, r: Reply)
    requires Joins(held, all, node, clientId) && r in all
    ensures r in held || r.node == node
  {
    var i :| 0 <= i < |all| && all[i] == r;
    if i < |held| { assert held[i] == all[..|held|][i] == r; }
  }

  lemma OwnedMore(o: map<nat, set<nat>>, node: nat, t: nat)
    requires node in o
    ensures forall u :: Owned(o[node := o[node] + {t}], u) <==> Owned(o, u) || u == t
  {
    var o' := o[node := o[node] + {t}];
    forall u
      ensures Owned(o', u) <==> Owned(o, u) || u == t
    {
      if Owned(o, u) {
        var n :| n in o && u in o[n];
        assert n in o' && u in o'[n];
      }
      assert node in o' && t in o'[node];
    }
  }

  /** The channels that are left when those of the given ones without an owner are removed. */
  ghost function Removed(m: Repo, owned: map<nat, set<nat>>, tags: set<nat>): Repo {
    m - (set t | t in tags && !Owned(owned, t))
  }

  lemma RemovedDrop(m: Repo, o: map<nat, set<nat>>, node: nat, tags: set<nat>)
    requires node in o && o[node] == {}
    ensures Removed(m, o - {node}, tags) == Removed(m, o, tags)
  {
    OwnedDrop(o, node);
    hide Owned;
  }

  lemma RemovedStep(m: Repo, owned: map<nat, set<nat>>, done: set<nat>, t: nat)
    requires t !in done && t in m
    ensures t in Removed(m, owned, done)
    ensures Removed(m, owned, done + {t}) == if Owned(owned, t) then Removed(m, owned, done) else Removed(m, owned, done) - {t}
  {
    hide Owned;
  }

  /** The channel with the data of the participant that asks, and nothing else changed. */
  predicate Joined(before: Channel, c: Channel, msg: GetMsg) {
    exists k :: 0 <= k < |before.participants| && before.participants[k].clientId == msg.clientId
      && c == Join(before, k, msg.ip, msg.localQp, msg.mac, msg.port)
  }

  /** The channel before the request: if there was none, one with all participants unknown. */
  function BaseOf(m: Repo, c: Channel, msg: GetMsg): Channel {
    if msg.tag in m then m[msg.tag] else Channel(msg.tag, c.qpCommon, c.unit, InsertAll(msg.ids))
  }

  lemma BlankOk(c: Channel)
    requires AllBlank(c.participants) && Ascending(c.participants) && 0 < |c.participants| <= MAX_PARTICIPANTS && c.unit < AGG_UNITS
    ensures ChannelOk(c) && !c.Complete()
  {
    forall i | 0 <= i < |c.participants|
      ensures c.participants[i] == Blank(c.participants[i].clientId)
    {
      assert c.participants[i] in c.participants;
    }
    assert !c.participants[0].Known();
  }

  lemma FirstOk(c: Channel, ids: seq<nat>, clientId: nat)
    requires c.participants == InsertAll(ids)
    ensures FirstRequest(c, clientId)
  {
    InsertAllOk(ids);
    forall i | 0 <= i < |c.participants|
      ensures !c.participants[i].Known()
    {
      assert c.participants[i] in c.participants;
    }
  }

  lemma PendingAdd(pending: map<nat, seq<Reply>>, m: Repo, c: Channel)
    requires PendingOk(pending, m) && c.tag !in m && AllBlank(c.participants) && !c.Complete()
    ensures PendingOk(pending - {c.tag}, m[c.tag := c])
  {
    HoldsNone(c);
    hide Holds, Channel.Complete;
  }

  lemma PendingNew(pending: map<nat, seq<Reply>>, m: Repo, m': Repo, msg: GetMsg)
    requires PendingOk(pending, m) && msg.tag !in m && msg.tag in m' && m' == m[msg.tag := m'[msg.tag]]
    requires m'[msg.tag].tag == msg.tag && m'[msg.tag].participants == InsertAll(msg.ids) && |InsertAll(msg.ids)| > 0
    ensures PendingOk(pending - {msg.tag}, m')
  {
    InsertAllOk(msg.ids);
    HoldsNone(m'[msg.tag]);
    PendingAdd(pending, m, m'[msg.tag]);
  }

  /** One more request: its reply joins those held, and the last one completes the channel. */
  lemma Asked(pending: map<nat, seq<Reply>>, m: Repo, t: nat, k: nat, node: nat, ip: nat, localQp: nat, mac: nat, port: nat)
    requires PendingOk(pending, m) && RepoOk(m) && t in m && k < |m[t].participants| && !m[t].participants[k].Known() && ip != 0
    ensures
      var c := Join(m[t], k, ip, localQp, mac, port);
      var q := HeldFor(pending, t) + [Reply(node, m[t].participants[k].clientId, t, NextFabricQp(m[t], ip))];
      && Holds(q, c)
      && (|q| == |c.participants| <==> c.Complete())
      && PendingOk(if c.Complete() then pending[t := q] - {t} else pending[t := q], m[t := c])
  {
    assert ChannelOk(m[t]) && m[t].tag == t;
    assert !m[t].Complete();
    HeldNow(pending, m, t);
    hide Holds, PendingOk, Channel.Complete, Join, NextFabricQp, RepoOk, HeldFor;
    var c := Join(m[t], k, ip, localQp, mac, port);
    var q := HeldFor(pending, t) + [Reply(node, m[t].participants[k].clientId, t, NextFabricQp(m[t], ip))];
    HoldsMore(HeldFor(pending, t), m[t], k, node, ip, localQp, mac, port);
    HoldsCount(q, c);
    PendingUpdate(pending, m, t, c, q);
  }

  /** The reply is collected: held, or sent with all others. */
  lemma Collected(m: Repo, m': Repo, p: map<nat, seq<Reply>>, listed: seq<Channel>, k: nat, node: nat, fabricQp: nat, msg: GetMsg)
    requires RepoOk(m) && PendingOk(p, m) && Lists(listed, m') && msg.ip != 0 && Recorded(m, m', k, fabricQp, msg)
    ensures
      var q := HeldFor(p, msg.tag) + [Reply(node, msg.clientId, msg.tag, fabricQp)];
      var c := m'[msg.tag];
      if |q| == |c.participants| then
        PendingOk(p[msg.tag := q] - {msg.tag}, m') && Served(m, m', p, p[msg.tag := q] - {msg.tag}, listed, q, node, msg)
      else
        PendingOk(p[msg.tag := q], m') && Served(m, m', p, p[msg.tag := q], listed, [], node, msg)
  {
    hide RepoOk, Lists, PendingOk, Holds, Channel.Complete, Join, NextFabricQp;
    Asked(p, m, msg.tag, k, node, msg.ip, msg.localQp, msg.mac, msg.port);
    ListedLive(listed, m', msg.tag);
    assert Joined(m[msg.tag], m'[msg.tag], msg);
    var q := HeldFor(p, msg.tag) + [Reply(node, msg.clientId, msg.tag, fabricQp)];
    assert p[msg.tag := q] - {msg.tag} == p - {msg.tag};
    assert q + [] == q && [] + q == q;
  }

  lemma HeldNow(pending: map<nat, seq<Reply>>, m: Repo, t: nat)
    requires PendingOk(pending, m) && t in m && !m[t].Complete()
    ensures Holds(HeldFor(pending, t), m[t])
  {
    hide Holds;
  }

  lemma PendingUpdate(pending: map<nat, seq<Reply>>, m: Repo, t: nat, c: Channel, q: seq<Reply>)
    requires PendingOk(pending, m) && Holds(q, c)
    ensures PendingOk(if c.Complete() then pending[t := q] - {t} else pending[t := q], m[t := c])
  {
    hide Holds, Channel.Complete;
  }

  lemma HoldsCount(q: seq<Reply>, c: Channel)
    requires Holds(q, c)
    ensures |q| == |c.participants| <==> c.Complete()
  {
    KnownCountAll(c.participants, |c.participants|);
  }

  lemma OwnersConnect(o: map<nat, set<nat>>, node: nat, m: Repo)
    requires OwnersOk(o, m) && node !in o
    ensures OwnersOk(o[node := {}], m)
  {
    OwnedDrop(o[node := {}], node);
    assert o[node := {}] - {node} == o;
  }

  lemma OwnersGet(o: map<nat, set<nat>>, node: nat, m: Repo, m': Repo, t: nat)
    requires OwnersOk(o, m) && node in o && m'.Keys == m.Keys + {t}
    ensures OwnersOk(o[node := o[node] + {t}], m')
  {
    OwnedMore(o, node, t);
    hide Owned;
  }

  lemma ListedLive(chs: seq<Channel>, m: Repo, t: nat)
    requires Lists(chs, m) && t in m
    ensures m[t].Complete() ==> Live(chs, m[t])
  {
  }

  /** After the first half of a request the channel exists; nothing else has changed. */
  ghost predicate Ensured(m: Repo, m': Repo, p: map<nat, seq<Reply>>, p': map<nat, seq<Reply>>, msg: GetMsg) {
    && msg.tag in m' && m' == m[msg.tag := m'[msg.tag]]
    && m'[msg.tag] == BaseOf(m, m'[msg.tag], msg)
    && p' - {msg.tag} == p - {msg.tag}
    && HeldFor(p', msg.tag) == if msg.tag in m then HeldFor(p, msg.tag) else []
  }

  lemma EnsuredOld(m: Repo, p: map<nat, seq<Reply>>, msg: GetMsg)
    ensures msg.tag in m ==> Ensured(m, m, p, p, msg)
  {
    hide InsertAll;
  }

  lemma EnsuredNew(m: Repo, m': Repo, p: map<nat, seq<Reply>>, msg: GetMsg)
    requires msg.tag !in m && msg.tag in m' && m' == m[msg.tag := m'[msg.tag]]
    requires m'[msg.tag].tag == msg.tag && m'[msg.tag].participants == InsertAll(msg.ids)
    ensures Ensured(m, m', p, p - {msg.tag}, msg)
  {
    hide InsertAll;
  }

  /** After a request the channel has the participant's data and the replies are held or sent; other
      channels and their replies are as before. */
  ghost predicate Served(m: Repo, m': Repo, p: map<nat, seq<Reply>>, p': map<nat, seq<Reply>>, listed: seq<Channel>,
                         out: seq<Reply>, node: nat, msg: GetMsg)
  {
    && msg.tag in m' && m' == m[msg.tag := m'[msg.tag]]
    && Joined(BaseOf(m, m'[msg.tag], msg), m'[msg.tag], msg)
    && p' - {msg.tag} == p - {msg.tag}
    && Answered(m'[msg.tag], listed, if msg.tag in m then HeldFor(p, msg.tag) else [], out, HeldFor(p', msg.tag), node, msg.clientId)
  }

  lemma ServedAfter(m: Repo, m1: Repo, m2: Repo, p: map<nat, seq<Reply>>, p1: map<nat, seq<Reply>>, p2: map<nat, seq<Reply>>,
                    listed: seq<Channel>, out: seq<Reply>, node: nat, msg: GetMsg)
    requires Ensured(m, m1, p, p1, msg) && Served(m1, m2, p1, p2, listed, out, node, msg)
    ensures Served(m, m2, p, p2, listed, out, node, msg) && m2.Keys == m.Keys + {msg.tag}
  {
    hide InsertAll, NextFabricQp, Answered, Join;
    JoinedBase(m1[msg.tag], m2[msg.tag], msg);
  }

  /** All the channel's data is as before but the asking participant's, which is the request's, with a
      fabric queue pair that starts with the channel's prefix. */
  ghost predicate Heard(before: Channel, c: Channel, msg: GetMsg) {
    exists k: nat, q: nat ::
      && Entered(before, c, k, Participant(msg.clientId, msg.ip, msg.localQp, q, msg.mac, msg.port))
      && before.participants[k].clientId == msg.clientId && q / 256 == c.qpCommon
  }

  lemma JoinedHeard(before: Channel, c: Channel, msg: GetMsg)
    requires Joined(before, c, msg)
    ensures Heard(before, c, msg)
  {
    hide Join, NextFabricQp, Entered;
    var k :| 0 <= k < |before.participants| && before.participants[k].clientId == msg.clientId
             && c == Join(before, k, msg.ip, msg.localQp, msg.mac, msg.port);
    JoinEnters(before, k, msg.ip, msg.localQp, msg.mac, msg.port);
    var q := NextFabricQp(before, msg.ip);
    EnteredQp(before, c, k, Participant(msg.clientId, msg.ip, msg.localQp, q, msg.mac, msg.port));
  }

  lemma EnteredQp(before: Channel, c: Channel, k: nat, p: Participant)
    requires Entered(before, c, k, p)
    ensures c.qpCommon == before.qpCommon
  {
  }

  lemma ServedHeard(m: Repo, m': Repo, p: map<nat, seq<Reply>>, p': map<nat, seq<Reply>>, listed: seq<Channel>,
                    out: seq<Reply>, node: nat, msg: GetMsg)
    requires Served(m, m', p, p', listed, out, node, msg)
    ensures msg.tag in m' && Heard(BaseOf(m, m'[msg.tag], msg), m'[msg.tag], msg)
  {
    hide Heard, BaseOf, Answered, Joined;
    JoinedHeard(BaseOf(m, m'[msg.tag], msg), m'[msg.tag], msg);
  }

  lemma JoinedBase(before: Channel, c: Channel, msg: GetMsg)
    requires Joined(before, c, msg)
    ensures c.qpCommon == before.qpCommon && c.unit == before.unit
  {
    hide NextFabricQp;
  }

  /** What comes of a request: replies are held until the last participant has asked; then the driver
      has been told of the complete channel, and each participant gets one reply, with its own fabric
      queue pair.  The new reply, for the node that asked, comes after those that were held. */
  ghost predicate Answered(c: Channel, listed: seq<Channel>, held: seq<Reply>, out: seq<Reply>, kept: seq<Reply>, node: nat, clientId: nat) {
    && (if c.Complete() then Holds(out, c) && |out| == |c.participants| && Live(listed, c) else out == [])
    && Joins(held, out + kept, node, clientId)
  }

  /** Giving up tags changes ownership of those only. */
  lemma OwnedLess(o: map<nat, set<nat>>, o': map<nat, set<nat>>, node: nat, tags: set<nat>)
    requires node in o && o' == o[node := o[node] - tags]
    ensures forall t | t !in tags :: Owned(o', t) <==> Owned(o, t)
    ensures forall t | Owned(o', t) :: Owned(o, t)
  {
    forall t
      ensures Owned(o', t) ==> Owned(o, t)
      ensures t !in tags && Owned(o, t) ==> Owned(o', t)
    {
      if Owned(o', t) {
        var n :| n in o' && t in o'[n];
        assert n in o && t in o[n];
      }
      if t !in tags && Owned(o, t) {
        var n :| n in o && t in o[n];
        assert n in o' && t in o'[n];
      }
    }
  }

  lemma OwnedDrop(o: map<nat, set<nat>>, node: nat)
    requires node in o && o[node] == {}
    ensures forall t :: Owned(o - {node}, t) <==> Owned(o, t)
  {
    forall t
      ensures Owned(o - {node}, t) <==> Owned(o, t)
    {
      if Owned(o, t) {
        var n :| n in o && t in o[n];
        assert n in o - {node} && t in (o - {node})[n];
      }
    }
  }

  lemma ExistsOwned(o: map<nat, set<nat>>, m: Repo, node: nat, t: nat)
    requires OwnersOk(o, m) && node in o && t in o[node]
    ensures t in m
  {
    assert Owned(o, t);
  }

  lemma OwnersLess(o: map<nat, set<nat>>, o': map<nat, set<nat>>, m: Repo, m': Repo, tags: set<nat>)
    requires OwnersOk(o, m)
    requires forall t | t !in tags :: Owned(o', t) <==> Owned(o, t)
    requires forall t | Owned(o', t) :: Owned(o, t)
    requires m' == m - (set t | t in tags && !Owned(o', t))
    ensures OwnersOk(o', m')
  {
  }

  lemma OwnersDrop(o: map<nat, set<nat>>, node: nat, m: Repo)
    requires OwnersOk(o, m) && node in o && o[node] == {}
    ensures OwnersOk(o - {node}, m)
  {
    OwnedDrop(o, node);
  }
}
