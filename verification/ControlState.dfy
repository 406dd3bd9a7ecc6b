/** What the control plane keeps true of its channels. */
module ControlState {
  import opened Channels
  import opened Tables
  import opened Reconcile
  import opened AsicDriver
  import ChannelProgram

  type Repo = map<nat, Channel>

  /** Known participants below index n with a given address. */
  function CountIp(ps: seq<Participant>, ip: nat, n: nat): (k: nat)
    requires n <= |ps|
    ensures k <= n
  {
    if n == 0 then 0 else CountIp(ps, ip, n - 1) + (if ps[n - 1].Known() && ps[n - 1].ip == ip then 1 else 0)
  }

  /** Those participants. */
  function Sharing(ps: seq<Participant>, ip: nat, n: nat): set<nat>
    requires n <= |ps|
  {
    set i | 0 <= i < n && ps[i].Known() && ps[i].ip == ip
  }

  lemma {:induction false} CountIpIs(ps: seq<Participant>, ip: nat, n: nat)
    requires n <= |ps|
    ensures CountIp(ps, ip, n) == |Sharing(ps, ip, n)|
  {
    if n > 0 {
      CountIpIs(ps, ip, n - 1);
      var rest := Sharing(ps, ip, n - 1);
      assert Sharing(ps, ip, n) == if ps[n - 1].Known() && ps[n - 1].ip == ip then rest + {n - 1} else rest;
    }
  }

  /** Making one more participant known counts one more for its address and changes no other count. */
  lemma {:induction false} CountIpUpdate(ps: seq<Participant>, k: nat, p: Participant, ip: nat, n: nat)
    requires k < |ps| && n <= |ps| && !ps[k].Known() && p.Known()
    ensures CountIp(ps[k := p], ip, n) == CountIp(ps, ip, n) + (if k < n && p.ip == ip then 1 else 0)
  {
    if n > 0 { CountIpUpdate(ps, k, p, ip, n - 1); }
  }

  function KnownCount(ps: seq<Participant>, n: nat): (k: nat)
    requires n <= |ps|
    ensures k <= n
  {
    if n == 0 then 0 else KnownCount(ps, n - 1) + (if ps[n - 1].Known() then 1 else 0)
  }

  lemma {:induction false} KnownCountUpdate(ps: seq<Participant>, k: nat, p: Participant, n: nat)
    requires k < |ps| && n <= |ps| && !ps[k].Known() && p.Known()
    ensures KnownCount(ps[k := p], n) == KnownCount(ps, n) + (if k < n then 1 else 0)
  {
    if n > 0 { KnownCountUpdate(ps, k, p, n - 1); }
  }

  lemma {:induction false} KnownCountAll(ps: seq<Participant>, n: nat)
    requires n <= |ps|
    ensures KnownCount(ps, n) == n <==> forall i | 0 <= i < n :: ps[i].Known()
    ensures KnownCount(ps, n) == 0 <==> forall i | 0 <= i < n :: !ps[i].Known()
  {
    if n > 0 { KnownCountAll(ps, n - 1); }
  }

  ghost predicate Ascending(ps: seq<Participant>) {
    forall i, j | 0 <= i < j < |ps| :: ps[i].clientId < ps[j].clientId
  }

  /** The fabric queue pairs of a channel: 16 bits of the channel, 8 bits that count the participants
      with the same address. */
  ghost predicate FabricOk(c: Channel) {
    && (forall i | 0 <= i < |c.participants| && c.participants[i].Known() ::
          var p := c.participants[i];
          p.fabricQp / 256 == c.qpCommon && p.fabricQp % 256 < CountIp(c.participants, p.ip, |c.participants|))
    && (forall i, j | 0 <= i < j < |c.participants| && c.participants[i].Known() && c.participants[i].ip == c.participants[j].ip ::
          c.participants[i].fabricQp != c.participants[j].fabricQp)
  }

  ghost predicate ChannelOk(c: Channel) {
    && 0 < |c.participants| <= MAX_PARTICIPANTS && c.unit < AGG_UNITS
    && c.OnUsedPipes() && Ascending(c.participants) && FabricOk(c)
  }

  ghost predicate RepoOk(m: Repo) {
    && (forall t <- m :: m[t].tag == t && ChannelOk(m[t]))
    && (forall t, u | t in m && u in m && t != u :: m[t].unit != m[u].unit && m[t].qpCommon != m[u].qpCommon)
  }

  /** A list of all channels, in any order. */
  ghost predicate Lists(chs: seq<Channel>, m: Repo) {
    && (forall c <- chs :: c.tag in m && m[c.tag] == c)
    && (forall t <- m :: m[t] in chs)
  }

  /** The fabric queue pair for one more participant with a given address. */
  function NextFabricQp(c: Channel, ip: nat): nat {
    c.qpCommon * 256 + CountIp(c.participants, ip, |c.participants|) % 256
  }

  /** A participant's request has arrived. */
  function Join(c: Channel, k: nat, ip: nat, localQp: nat, mac: nat, port: nat): Channel
    requires k < |c.participants|
  {
    c.(participants := c.participants[k := c.participants[k].(ip := ip, localQp := localQp, mac := mac, port := port, fabricQp := NextFabricQp(c, ip))])
  }

  /** Nothing of the channel has changed but the participant at index k. */
  predicate Entered(before: Channel, c: Channel, k: nat, p: Participant) {
    && c.tag == before.tag && c.qpCommon == before.qpCommon && c.unit == before.unit
    && k < |before.participants| && c.participants == before.participants[k := p]
  }

  /** All that a request says of the participant is recorded. */
  lemma JoinEnters(c: Channel, k: nat, ip: nat, localQp: nat, mac: nat, port: nat)
    requires k < |c.participants|
    ensures Entered(c, Join(c, k, ip, localQp, mac, port), k,
                    Participant(c.participants[k].clientId, ip, localQp, NextFabricQp(c, ip), mac, port))
    ensures NextFabricQp(c, ip) / 256 == c.qpCommon
  {
    FabricParts(c.qpCommon, CountIp(c.participants, ip, |c.participants|) % 256);
  }

  lemma JoinFabric(c: Channel, k: nat, ip: nat, localQp: nat, mac: nat, port: nat)
    requires |c.participants| <= MAX_PARTICIPANTS && FabricOk(c) && k < |c.participants| && !c.participants[k].Known() && ip != 0
    ensures FabricOk(Join(c, k, ip, localQp, mac, port))
  {
    var c' := Join(c, k, ip, localQp, mac, port);
    var ps, ps', n := c.participants, c'.participants, |c.participants|;
    var p := ps'[k];
    var cnt := CountIp(ps, ip, n);
    assert ps' == ps[k := p];
    forall i | 0 <= i < n && ps'[i].Known()
      ensures ps'[i].fabricQp / 256 == c.qpCommon && ps'[i].fabricQp % 256 < CountIp(ps', ps'[i].ip, n)
      ensures i != k && ps'[i].ip == ip ==> ps'[i].fabricQp != p.fabricQp
    {
      CountIpUpdate(ps, k, p, ps'[i].ip, n);
      FabricParts(c.qpCommon, cnt);
    }
  }

  lemma FabricParts(common: nat, low: nat)
    requires low < 256
    ensures (common * 256 + low % 256) / 256 == common && (common * 256 + low % 256) % 256 == low
  {
  }

  /** The channels the driver is given are as it relies on them to be. */
  lemma RepoWellFormed(chs: seq<Channel>, m: Repo)
    requires RepoOk(m) && Lists(chs, m)
    ensures WellFormed(chs) && SmallUnits(chs) && ChannelProgram.QpsByChannel(chs)
  {
    forall c, p | c in chs && p in c.participants && p.Known()
      ensures p.fabricQp / 256 == c.qpCommon
    {
      assert ChannelOk(m[c.tag]);
      var i :| 0 <= i < |c.participants| && c.participants[i] == p;
    }
    forall c | c in chs && c.Complete()
      ensures c.Distinct()
    {
      assert ChannelOk(m[c.tag]);
    }
    forall c, d | c in chs && d in chs && c != d
      ensures c.unit != d.unit && c.qpCommon != d.qpCommon
    {
      assert c.tag != d.tag;
    }
    assert forall c <- chs :: ChannelOk(m[c.tag]);
  }

  /** One change of the repository: complete channels stay or go, and whatever is new has its own
      unit and queue pair prefix. */
  ghost predicate Changes(m: Repo, m': Repo) {
    && (forall t | t in m && t in m' && m[t].Complete() :: m'[t] == m[t])
    && (forall t, u | t in m && u in m' && t != u :: m[t].unit != m'[u].unit && m[t].qpCommon != m'[u].qpCommon)
  }

  lemma ChangesFollow(m: Repo, m': Repo, before: seq<Channel>, chs: seq<Channel>)
    requires RepoOk(m) && RepoOk(m') && Changes(m, m') && Lists(before, m) && Lists(chs, m')
    ensures Follows(before, chs)
  {
    forall c | Live(before, c) && c.unit in InUse(chs)
      ensures c in chs
    {
      var d :| d in chs && d.Complete() && d.unit == c.unit;
      assert c.tag == d.tag;
    }
    forall c, p | Live(before, c) && c !in chs && p in c.participants
      ensures !Mentioned(chs, p.ip, p.fabricQp)
    {
      assert c.tag !in m';
      PrefixOf(c, p);
      if d :| d in chs && Mentions(d, p.ip, p.fabricQp) {
        MentionPrefix(d, p.ip, p.fabricQp);
        assert false;
      }
    }
  }

  lemma MentionPrefix(c: Channel, ip: nat, qp: nat)
    requires ChannelOk(c) && Mentions(c, ip, qp) && ip != 0
    ensures qp / 256 == c.qpCommon
  {
    var p :| p in c.participants && p.ip == ip && p.fabricQp == qp;
    PrefixOf(c, p);
  }

  lemma PrefixOf(c: Channel, p: Participant)
    requires ChannelOk(c) && p in c.participants && p.Known()
    ensures p.fabricQp / 256 == c.qpCommon
  {
    var i :| 0 <= i < |c.participants| && c.participants[i] == p;
  }

  lemma AddOk(m: Repo, c: Channel)
    requires RepoOk(m) && c.tag !in m && ChannelOk(c) && !c.Complete()
    requires forall t <- m :: m[t].unit != c.unit && m[t].qpCommon != c.qpCommon
    ensures RepoOk(m[c.tag := c]) && Changes(m, m[c.tag := c])
  {
    hide ChannelOk;
  }

  lemma JoinOk(m: Repo, t: nat, k: nat, ip: nat, localQp: nat, mac: nat, port: nat)
    requires RepoOk(m) && t in m && k < |m[t].participants| && !m[t].participants[k].Known() && ip != 0
    requires port / 128 == 0 || port / 128 == 3
    ensures var c := Join(m[t], k, ip, localQp, mac, port);
            ChannelOk(c) && RepoOk(m[t := c]) && Changes(m, m[t := c])
  {
    var c := Join(m[t], k, ip, localQp, mac, port);
    JoinFabric(m[t], k, ip, localQp, mac, port);
    assert ChannelOk(c);
    hide ChannelOk, Join;
    assert !m[t].Complete();
  }

  lemma RemoveOk(m: Repo, t: nat)
    requires RepoOk(m)
    ensures RepoOk(m - {t}) && Changes(m, m - {t})
  {
    hide ChannelOk;
  }
}
