/** A reply for nobody: how a node daemon that disconnects leaves a reply behind. */
module HeldReplies {
  import opened Channels
  import opened Reconcile
  import opened AsicDriver
  import opened ControlState
  import opened StateRepository
  import opened Messages
  import opened Agent

  /** Clients 1, 2 and 3 of one channel, on nodes 1, 2 and 3. */
  const THREE: seq<nat> := [1, 2, 3]

  function Ask(client: nat): GetMsg {
    GetMsg(7, THREE, client, 10 + client, 5, 0, 4 * client)
  }

  lemma ThreeBlank()
    ensures InsertAll(THREE) == [Blank(1), Blank(2), Blank(3)]
  {
    assert THREE[..2] == [1, 2] && [1, 2][..1] == [1] && [1][..0] == [];
    assert InsertAll([1]) == [Blank(1)];
    InsertLast([], 1, 2);
    InsertLast([Blank(1)], 2, 3);
  }

  /** Inserting behind one or two smaller ones. */
  lemma InsertLast(ps: seq<Participant>, id: nat, next: nat)
    requires |ps| <= 1 && id < next && (ps != [] ==> ps[0].clientId < id)
    ensures Insert(ps + [Blank(id)], next) == ps + [Blank(id), Blank(next)]
  {
    assert [Blank(id)][1..] == [];
    assert Insert([Blank(id)], next) == [Blank(id)] + [Blank(next)];
    if ps != [] { assert (ps + [Blank(id)])[1..] == [Blank(id)]; }
  }

  /** A request of client k while participant j is not known can be served. */
  lemma ServableWaiting(c: Channel, msg: GetMsg, j: nat, k: nat)
    requires j < |c.participants| && k < |c.participants| && j != k
    requires c.participants[k].clientId == msg.clientId && !c.participants[j].Known()
    ensures Servable(c, msg)
  {
    hide Fits, NextFabricQp;
    assert !Join(c, k, msg.ip, msg.localQp, msg.mac, msg.port).participants[j].Known();
    assert ServableAs(c, k, msg);
  }

  /** Its reply is held, and participant j is as before. */
  lemma HeldWaiting(m: Repo, m': Repo, p: map<nat, seq<Reply>>, p': map<nat, seq<Reply>>, listed: seq<Channel>, out: seq<Reply>,
                    node: nat, msg: GetMsg, c: Channel, j: nat)
    requires Served(m, m', p, p', listed, out, node, msg) && msg.tag in m' && c == BaseOf(m, m'[msg.tag], msg)
    requires j < |c.participants| && !c.participants[j].Known() && c.participants[j].clientId != msg.clientId
    ensures out == [] && |m'[msg.tag].participants| == |c.participants| && m'[msg.tag].participants[j] == c.participants[j]
    ensures forall i | 0 <= i < |c.participants| :: m'[msg.tag].participants[i].clientId == c.participants[i].clientId
    ensures Joins(if msg.tag in m then HeldFor(p, msg.tag) else [], HeldFor(p', msg.tag), node, msg.clientId)
  {
    hide InsertAll, NextFabricQp, Holds;
    assert !m'[msg.tag].participants[j].Known();
    assert [] + HeldFor(p', msg.tag) == HeldFor(p', msg.tag);
  }

  /** The first n of the three clients have asked, client 1 from node 1. */
  ghost predicate AskedSoFar(m: Repo, p: map<nat, seq<Reply>>, n: nat) {
    if n == 0 then m == map[]
    else
      && 7 in m && |m[7].participants| == 3 && 7 in p && |p[7]| == n && p[7][0].node == 1
      && (forall i | 0 <= i < 3 :: m[7].participants[i].clientId == i + 1 && (i >= n ==> !m[7].participants[i].Known()))
  }

  /** Client k, the next one, may ask. */
  lemma MayAsk(m: Repo, p: map<nat, seq<Reply>>, k: nat)
    requires 1 <= k <= 2 && AskedSoFar(m, p, k - 1)
    ensures Servable(Target(m, Ask(k)), Ask(k))
    ensures 7 in m ==> FirstRequest(m[7], k)
    ensures |InsertAll(THREE)| == 3 && (7 in m || m == map[])
  {
    ThreeBlank();
    hide Servable, InsertAll;
    ServableWaiting(Target(m, Ask(k)), Ask(k), 2, k - 1);
  }

  lemma HasAsked(m: Repo, m': Repo, p: map<nat, seq<Reply>>, p': map<nat, seq<Reply>>, listed: seq<Channel>, out: seq<Reply>, k: nat)
    requires 1 <= k <= 2 && AskedSoFar(m, p, k - 1) && Served(m, m', p, p', listed, out, k, Ask(k))
    ensures AskedSoFar(m', p', k)
  {
    ThreeBlank();
    var c := BaseOf(m, m'[7], Ask(k));
    hide InsertAll, Served;
    ServedTag(m, m', p, p', listed, out, k, Ask(k));
    forall j | k <= j < 3
      ensures |m'[7].participants| == 3 && !m'[7].participants[j].Known()
    {
      HeldWaiting(m, m', p, p', listed, out, k, Ask(k), c, j);
    }
    HeldWaiting(m, m', p, p', listed, out, k, Ask(k), c, 2);
  }

  lemma ServedTag(m: Repo, m': Repo, p: map<nat, seq<Reply>>, p': map<nat, seq<Reply>>, listed: seq<Channel>, out: seq<Reply>,
                  node: nat, msg: GetMsg)
    requires Served(m, m', p, p', listed, out, node, msg)
    ensures msg.tag in m'
  {
  }

  method AskNext(a: Agent, k: nat)
    requires a.Valid() && 1 <= k <= 2 && k in a.owned && AskedSoFar(a.repo.channels, a.pending, k - 1)
    modifies a, a.repo`nextQp, a.repo`channels, a.repo`listed, a.repo.driver`tables, a.repo.driver.Memory()
    ensures a.Valid() && AskedSoFar(a.repo.channels, a.pending, k)
    ensures a.owned == old(a.owned)[k := old(a.owned)[k] + {7}]
  {
    hide RepoOk, RepoFits, Lists, ASICDriver.Serving, ASICDriver.Slots, StateRepository.Valid, PendingOk, OwnersOk, HeldOk, RepliedOk, RepliedSoFar, InsertAll, Served, Servable, Target, Programmed, FirstRequest;
    ghost var m, p := a.repo.channels, a.pending;
    MayAsk(m, p, k);
    var out := a.OnGetChannel(k, Ask(k));
    HasAsked(m, a.repo.channels, p, a.pending, a.repo.listed, out.value, k);
  }

  /** The first two of three clients ask, and then the first one's node daemon disconnects: its reply is
      still held for the channel, which the second one's node daemon keeps. */
  method ReplyForNobody(a: Agent)
    requires a.Valid() && a.repo.channels == map[] && a.owned == map[]
    modifies a, a.repo`nextQp, a.repo`channels, a.repo`listed, a.repo.driver`tables, a.repo.driver.Memory()
    ensures a.Consistent() && Awaits(a.pending, a.owned, 1) && !a.Valid()
  {
    hide RepoOk, RepoFits, Lists, ASICDriver.Serving, ASICDriver.Slots, StateRepository.Valid, PendingOk, OwnersOk, HeldOk, RepliedOk, Recycled, Removed;
    a.OnConnect(1);
    a.OnConnect(2);
    a.OnConnect(3);
    AskNext(a, 1);
    AskNext(a, 2);
    a.OnDisconnect(1);
    assert 2 in a.owned && 7 in a.owned[2];
    assert Owned(a.owned, 7) && a.pending[7][0] in a.pending[7];
  }
}
