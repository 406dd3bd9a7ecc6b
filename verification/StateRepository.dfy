/** The repository of collective channels, with its allocators, and the driver as its subscriber. */
module StateRepository {
  import opened Channels
  import opened Tables
  import opened Reconcile
  import opened AsicDriver
  import opened ControlState
  import ChannelProgram
  import opened Options

  /** The outcome of an operation; all but the first are exceptions in the code. */
  datatype Status = Ok | Exists | Missing | NoParticipant | TooMany

  predicate TakenQp(m: Repo, q: nat) {
    exists t :: t in m && m[t].qpCommon == q
  }

  predicate TakenUnit(m: Repo, u: nat) {
    exists t :: t in m && m[t].unit == u
  }

  /** Going up from the cursor and wrapping after 65535, q comes before r. */
  predicate Before(cursor: nat, q: nat, r: nat) {
    if cursor <= r then cursor <= q < r else cursor <= q || q < r
  }

  /** That is by the distance from the cursor, modulo 2^16. */
  lemma BeforeIsNearer(cursor: nat, q: nat, r: nat)
    requires cursor < 0x1_0000 && q < 0x1_0000 && r < 0x1_0000
    ensures Before(cursor, q, r) <==> (q - cursor) % 0x1_0000 < (r - cursor) % 0x1_0000
  {
  }

  const MAX_QP: nat := 0xffff
  const MAX_UNITS: nat := 256

  lemma {:induction false} UnitsUsed(m: Repo, n: nat)
    requires forall u | 0 <= u < n :: TakenUnit(m, u)
    ensures n <= |m|
    decreases |m|
  {
    if n > 0 {
      assert TakenUnit(m, n - 1);
      var t :| t in m && m[t].unit == n - 1;
      var m' := m - {t};
      forall u | 0 <= u < n - 1
        ensures TakenUnit(m', u)
      {
        assert TakenUnit(m, u);
        var v :| v in m && m[v].unit == u;
        assert v in m' && m'[v].unit == u;
      }
      assert |m'| == |m| - 1 by { MapMinus(m, t); }
      UnitsUsed(m', n - 1);
    }
  }

  lemma {:induction false} QpsUsed(m: Repo, n: nat)
    requires forall q | 1 <= q <= n :: TakenQp(m, q)
    ensures n <= |m|
    decreases |m|
  {
    if n > 0 {
      assert TakenQp(m, n);
      var t :| t in m && m[t].qpCommon == n;
      var m' := m - {t};
      forall q | 1 <= q <= n - 1
        ensures TakenQp(m', q)
      {
        assert TakenQp(m, q);
        var v :| v in m && m[v].qpCommon == q;
        assert v in m' && m'[v].qpCommon == q;
      }
      assert |m'| == |m| - 1 by { MapMinus(m, t); }
      QpsUsed(m', n - 1);
    }
  }

  /** A repository of few channels has a free prefix and a free unit. */
  lemma RoomLeft(m: Repo) returns (q: nat, u: nat)
    requires |m| < 256
    ensures 1 <= q <= 0xffff && !TakenQp(m, q)
    ensures u < 256 && !TakenUnit(m, u)
  {
    hide TakenQp, TakenUnit;
    if forall q | 1 <= q <= MAX_QP :: TakenQp(m, q) { QpsUsed(m, MAX_QP); }
    if forall u | 0 <= u < MAX_UNITS :: TakenUnit(m, u) { UnitsUsed(m, MAX_UNITS); }
    q :| 1 <= q <= MAX_QP && !TakenQp(m, q);
    u :| u < MAX_UNITS && !TakenUnit(m, u);
  }

  lemma MapMinus(m: Repo, t: nat)
    requires t in m
    ensures |m - {t}| == |m| - 1
  {
    assert (m - {t}).Keys == m.Keys - {t};
    assert |m.Keys| == |m| && |(m - {t}).Keys| == |m - {t}|;
  }

  predicate HasClient(c: Channel, clientId: nat) {
    exists i :: 0 <= i < |c.participants| && c.participants[i].clientId == clientId
  }

  /** The participant has not made itself known before. */
  predicate FirstRequest(c: Channel, clientId: nat) {
    forall i | 0 <= i < |c.participants| && c.participants[i].clientId == clientId :: !c.participants[i].Known()
  }

  /** The participant is known with the same data. */
  predicate Repeats(c: Channel, clientId: nat, ip: nat, localQp: nat, mac: nat, port: nat, fabricQp: nat) {
    forall i | 0 <= i < |c.participants| && c.participants[i].clientId == clientId ::
      c.participants[i] == Participant(clientId, ip, localQp, fabricQp, mac, port)
  }

  ghost predicate RepoFits(m: Repo) {
    forall t | t in m && m[t].Complete() :: Fits(m[t])
  }

  /** The units of the complete channels. */
  function LiveUnits(m: Repo): set<nat> {
    set t | t in m && m[t].Complete() :: m[t].unit
  }

  lemma LiveUnitsListed(chs: seq<Channel>, m: Repo)
    requires Lists(chs, m)
    ensures InUse(chs) == LiveUnits(m)
  {
    hide Channel.Complete;
    forall u
      ensures u in InUse(chs) <==> u in LiveUnits(m)
    {
      if u in InUse(chs) {
        var c :| c in chs && c.Complete() && c.unit == u;
        assert c.tag in m && m[c.tag] == c;
      }
      if u in LiveUnits(m) {
        var t :| t in m && m[t].Complete() && m[t].unit == u;
        assert m[t] in chs;
      }
    }
  }

  /** Units that are live before but not after, for each way to change the repository. */
  lemma AddKeepsUnits(m: Repo, c: Channel)
    requires c.tag !in m
    ensures LiveUnits(m) - LiveUnits(m[c.tag := c]) == {}
  {
    hide Channel.Complete;
    var m' := m[c.tag := c];
    forall u | u in LiveUnits(m)
      ensures u in LiveUnits(m')
    {
      var t :| t in m && m[t].Complete() && m[t].unit == u;
      assert t in m' && m'[t] == m[t];
    }
  }

  lemma JoinKeepsUnits(m: Repo, t: nat, c: Channel)
    requires t in m && !m[t].Complete()
    ensures LiveUnits(m) - LiveUnits(m[t := c]) == {}
  {
    hide Channel.Complete;
    var m' := m[t := c];
    forall u | u in LiveUnits(m)
      ensures u in LiveUnits(m')
    {
      var v :| v in m && m[v].Complete() && m[v].unit == u;
      assert v in m' && m'[v] == m[v];
    }
  }

  /** A channel that becomes complete has a unit that was not in use. */
  lemma FreshUnit(m: Repo, t: nat)
    requires RepoOk(m) && t in m && !m[t].Complete()
    ensures m[t].unit !in LiveUnits(m)
  {
    hide ChannelOk, Channel.Complete;
  }

  lemma JoinUnits(m: Repo, listed: seq<Channel>, t: nat, c: Channel)
    requires RepoOk(m) && Lists(listed, m) && t in m && !m[t].Complete()
    ensures LiveUnits(m) - LiveUnits(m[t := c]) == {}
    ensures m[t].unit !in InUse(listed) && m[t].unit < AGG_UNITS
  {
    JoinKeepsUnits(m, t, c);
    FreshUnit(m, t);
    LiveUnitsListed(listed, m);
    assert ChannelOk(m[t]);
  }

  lemma NothingTouched(s: Bank)
    ensures BothCleared(s, s, {})
  {
  }

  /** The registers of units that go out of use are cleared on both pipes, all others kept. */
  ghost predicate Recycled(s: Bank, s': Bank, m: Repo, m': Repo) {
    BothCleared(s, s', LiveUnits(m) - LiveUnits(m'))
  }

  lemma NothingRecycled(s: Bank, m: Repo)
    ensures Recycled(s, s, m, m)
  {
    assert LiveUnits(m) - LiveUnits(m) == {};
    NothingTouched(s);
  }

  lemma RecycledOne(s: Bank, s': Bank, m: Repo, t: nat)
    requires RepoOk(m) && t in m && BothCleared(s, s', if m[t].Complete() then {m[t].unit} else {})
    ensures Recycled(s, s', m, m - {t})
  {
    RemoveUnits(m, t);
    hide LiveUnits, BothCleared, RepoOk, Channel.Complete;
  }

  ghost predicate PartOf(m': Repo, m: Repo) {
    forall t <- m' :: t in m && m[t] == m'[t]
  }

  lemma PartUnits(m': Repo, m: Repo)
    requires PartOf(m', m)
    ensures LiveUnits(m') <= LiveUnits(m)
  {
    hide Channel.Complete;
    forall u | u in LiveUnits(m')
      ensures u in LiveUnits(m)
    {
      var t :| t in m' && m'[t].Complete() && m'[t].unit == u;
      assert t in m && m[t] == m'[t];
    }
  }

  lemma RecycledMore(s: Bank, s1: Bank, s2: Bank, m: Repo, m1: Repo, m2: Repo)
    requires Recycled(s, s1, m, m1) && Recycled(s1, s2, m1, m2) && PartOf(m1, m) && PartOf(m2, m1)
    ensures Recycled(s, s2, m, m2)
  {
    PartUnits(m1, m);
    PartUnits(m2, m1);
    hide LiveUnits, BothCleared, PartOf;
    var a, b := LiveUnits(m) - LiveUnits(m1), LiveUnits(m1) - LiveUnits(m2);
    BothClearedMore(s, s1, s2, a, b);
    assert a + b == LiveUnits(m) - LiveUnits(m2);
  }

  lemma RemoveUnits(m: Repo, t: nat)
    requires RepoOk(m) && t in m
    ensures LiveUnits(m) - LiveUnits(m - {t}) == if m[t].Complete() then {m[t].unit} else {}
  {
    hide ChannelOk, Channel.Complete;
    var m' := m - {t};
    forall u
      ensures u in LiveUnits(m') <==> u in LiveUnits(m) && !(m[t].Complete() && u == m[t].unit)
    {
      if u in LiveUnits(m') {
        var v :| v in m' && m'[v].Complete() && m'[v].unit == u;
        assert v in m && m[v] == m'[v];
      }
      if u in LiveUnits(m) && !(m[t].Complete() && u == m[t].unit) {
        var v :| v in m && m[v].Complete() && m[v].unit == u;
        assert v in m' && m'[v] == m[v];
      }
    }
    UnitIsLive(m, t);
  }

  lemma UnitIsLive(m: Repo, t: nat)
    requires t in m
    ensures m[t].Complete() ==> m[t].unit in LiveUnits(m)
  {
    hide Channel.Complete;
  }

  class StateRepository {
    var channels: Repo
    /** The 16-bit cursor of the search for a free queue pair prefix. */
    var nextQp: nat
    const driver: ASICDriver
    /** Table entries that belong to no channel. */
    ghost const stat: Table
    /** What the driver was last told. */
    ghost var listed: seq<Channel>

    constructor (driver: ASICDriver, ghost stat: Table)
      requires driver.Serving(stat, [])
      ensures Valid() && channels == map[] && this.driver == driver && this.stat == stat
    {
      channels, nextQp, listed := map[], 0, [];
      this.driver, this.stat := driver, stat;
    }

    ghost predicate Valid()
      reads this, driver, driver.Memory()
    {
      && nextQp <= MAX_QP && this !in driver.Memory()
      && RepoOk(channels) && RepoFits(channels) && Lists(listed, channels)
      && driver.Serving(stat, listed)
    }

    /** All channels, for iteration. */
    method GetChannels() returns (chs: seq<Channel>)
      requires forall t <- channels :: channels[t].tag == t
      ensures Lists(chs, channels)
    {
      chs := [];
      var rest := channels.Keys;
      while rest != {}
        invariant rest <= channels.Keys
        invariant forall c <- chs :: c.tag in channels && channels[c.tag] == c
        invariant forall t | t in channels && t !in rest :: channels[t] in chs
        decreases |rest|
      {
        var t :| t in rest;
        chs := chs + [channels[t]];
        rest := rest - {t};
      }
    }

    /** Tells the driver, which acts before the call returns. */
    method NotifySubscribers(ghost before: Repo) returns (ok: bool)
      requires nextQp <= MAX_QP && this !in driver.Memory() && RepoOk(before) && RepoOk(channels) && Changes(before, channels)
      requires Lists(listed, before) && driver.Serving(stat, listed)
      modifies this`listed, driver`tables, driver.Memory()
      ensures ok <==> RepoFits(channels)
      ensures ok ==> Valid()
      ensures ok ==> BothCleared(old(driver.Slots()), driver.Slots(), LiveUnits(before) - LiveUnits(channels))
    {
      hide Changes, BothCleared, InUse, LiveUnits, RepoOk, Follows, WellFormed, SmallUnits, Lists, AllFit, RepoFits, ASICDriver.Serving;
      TagsOk(channels);
      var chs := GetChannels();
      ChangesFollow(before, channels, listed, chs);
      RepoWellFormed(chs, channels);
      LiveListed(chs, channels);
      LiveUnitsListed(listed, before);
      LiveUnitsListed(chs, channels);
      ok := driver.Notify(chs, stat, listed);
      listed := chs;
    }

    /** `get_free_coll_qp_common`: searches from the cursor and wraps around, until a free prefix is
        found or the cursor has wrapped twice. */
    method GetFreeQp() returns (r: Option<nat>)
      requires nextQp <= MAX_QP
      modifies this`nextQp
      ensures nextQp <= MAX_QP
      ensures r.Some? <==> exists q :: 1 <= q <= 0xffff && !TakenQp(channels, q)
      ensures r.Some? ==> 1 <= r.value <= MAX_QP && !TakenQp(channels, r.value)
      ensures r.Some? ==> nextQp == (r.value + 1) % 0x1_0000
      ensures r.Some? ==> forall q | 1 <= q <= MAX_QP && Before(old(nextQp), q, r.value) :: TakenQp(channels, q)
    {
      hide TakenQp;
      var wraps := 0;
      ghost var start := nextQp;
      ghost var pos := if start == 0 then 0x1_0000 else start;
      while wraps < 2
        invariant 0 <= wraps <= 2 && nextQp <= MAX_QP && 1 <= pos <= 0x1_0000 && nextQp == pos % 0x1_0000
        invariant wraps == 0 ==> start <= pos
        invariant forall q | 1 <= q <= MAX_QP && wraps == 0 && 1 <= start <= q < pos :: TakenQp(channels, q)
        invariant forall q | 1 <= q <= MAX_QP && wraps >= 1 && (start == 0 || start <= q) && start != 0 :: TakenQp(channels, q)
        invariant forall q | 1 <= q <= MAX_QP && wraps == 1 && q < pos :: TakenQp(channels, q)
        invariant forall q | 1 <= q <= MAX_QP && wraps == 2 :: TakenQp(channels, q)
        decreases 2 - wraps, 0x1_0000 - pos
      {
        if nextQp < 1 || nextQp > MAX_QP {
          nextQp := 1;
          pos := 1;
          wraps := wraps + 1;
        }
        var qp := nextQp;
        nextQp := (nextQp + 1) % 0x1_0000;
        pos := pos + 1;
        var taken := IsTakenQp(qp);
        if !taken {
          return Some(qp);
        }
      }
      r := None;
    }

    method IsTakenQp(qp: nat) returns (taken: bool)
      ensures taken == TakenQp(channels, qp)
    {
      taken := exists t :: t in channels && channels[t].qpCommon == qp;
    }

    /** `get_free_agg_unit`: the least free unit. */
    method GetFreeUnit() returns (r: Option<nat>)
      ensures r.Some? <==> exists u :: 0 <= u < 256 && !TakenUnit(channels, u)
      ensures r.Some? ==> r.value < MAX_UNITS && !TakenUnit(channels, r.value)
      ensures r.Some? ==> forall u | 0 <= u < r.value :: TakenUnit(channels, u)
      ensures r.Some? ==> r.value <= |channels|
    {
      for unit := 0 to MAX_UNITS
        invariant forall u | 0 <= u < unit :: TakenUnit(channels, u)
      {
        if !(exists t :: t in channels && channels[t].unit == unit) {
          assert !TakenUnit(channels, unit);
          UnitsUsed(channels, unit);
          return Some(unit);
        }
        assert TakenUnit(channels, unit);
      }
      r := None;
    }

    /** `add_channel`. */
    method AddChannel(c: Channel) returns (r: Status)
      requires Valid()
      requires c.tag !in channels ==> ChannelOk(c) && !c.Complete() && !TakenUnit(channels, c.unit) && !TakenQp(channels, c.qpCommon)
      modifies this`channels, this`listed, driver`tables, driver.Memory()
      ensures Valid() && driver.Slots() == old(driver.Slots())
      ensures r == if c.tag in old(channels) then Exists else Ok
      ensures channels == if c.tag in old(channels) then old(channels) else old(channels)[c.tag := c]
    {
      hide RepoOk, Changes, Lists, ChannelOk, RepoFits, LiveUnits, BothCleared, TakenUnit, TakenQp, Channel.Complete, ASICDriver.Serving;
      driver.ServingClean(stat, listed);
      if c.tag in channels {
        return Exists;
      }
      AddFresh(channels, c);
      AddKeepsUnits(channels, c);
      ghost var before, s := channels, driver.Slots();
      channels := channels[c.tag := c];
      var ok := NotifySubscribers(before);
      driver.ServingClean(stat, listed);
      NothingCleared(s, driver.Slots());
      r := Ok;
    }

    /** `update_channel_participant`, for a participant that is not known yet, or known with the same
        data; then nothing happens. */
    method Update(tag: nat, clientId: nat, ip: nat, localQp: nat, mac: nat, port: nat, fabricQp: nat) returns (r: Status, k: nat)
      requires Valid()
      requires tag in channels ==> FirstRequest(channels[tag], clientId) || Repeats(channels[tag], clientId, ip, localQp, mac, port, fabricQp)
      requires tag in channels && FirstRequest(channels[tag], clientId) ==> fabricQp == NextFabricQp(channels[tag], ip)
      requires ip != 0 && (port / 128 == 0 || port / 128 == 3)
      modifies this`channels, this`listed, driver`tables, driver.Memory()
      ensures r == Ok || r == Missing || r == NoParticipant || r == TooMany
      ensures r == Missing <==> tag !in old(channels)
      ensures r == NoParticipant <==> tag in old(channels) && !HasClient(old(channels)[tag], clientId)
      ensures r == Ok || r == TooMany ==>
                && tag in old(channels) && k < |old(channels)[tag].participants|
                && old(channels)[tag].participants[k].clientId == clientId
                && old(channels)[tag].participants[k].Known() == !FirstRequest(old(channels)[tag], clientId)
      ensures channels == if (r == Ok || r == TooMany) && FirstRequest(old(channels)[tag], clientId)
                          then old(channels)[tag := Join(old(channels)[tag], k, ip, localQp, mac, port)] else old(channels)
      ensures r != TooMany ==> Valid() && driver.Slots() == old(driver.Slots())
      ensures (r == Ok || r == TooMany) && FirstRequest(old(channels)[tag], clientId) ==>
                && tag in channels && Entered(old(channels)[tag], channels[tag], k, Participant(clientId, ip, localQp, fabricQp, mac, port))
                && fabricQp / 256 == channels[tag].qpCommon
      ensures r == Ok && channels[tag].Complete() ==> ChannelProgram.Knows(driver.tables, channels[tag])
      ensures r == TooMany ==> !RepoFits(channels)
      ensures r == Ok && FirstRequest(old(channels)[tag], clientId) && channels[tag].Complete() ==> driver.Idle(channels[tag].unit)
    {
      hide RepoOk, Changes, Lists, ChannelOk, RepoFits, LiveUnits, BothCleared, Clean, ASICDriver.Serving, ASICDriver.Idle, NextFabricQp, Exact, Entered, ChannelProgram.Knows;
      driver.ServingClean(stat, listed);
      k := 0;
      if tag !in channels {
        return Missing, k;
      }
      var c := channels[tag];
      while k < |c.participants| && c.participants[k].clientId != clientId
        invariant k <= |c.participants|
        invariant forall i | 0 <= i < k :: c.participants[i].clientId != clientId
      {
        k := k + 1;
      }
      if k == |c.participants| {
        return NoParticipant, k;
      }
      ghost var before, known, s := channels, listed, driver.Slots();
      var p := c.participants[k];
      var q := p.(ip := ip, localQp := localQp, mac := mac, port := port, fabricQp := fabricQp);
      if q == p {
        driver.ServingExact(stat, listed);
        RepoKnows(channels, listed, driver.tables, stat, tag);
        return Ok, k;
      }
      JoinOk(channels, tag, k, ip, localQp, mac, port);
      JoinUnits(channels, known, tag, Join(c, k, ip, localQp, mac, port));
      JoinEnters(c, k, ip, localQp, mac, port);
      channels := channels[tag := c.(participants := c.participants[k := q])];
      var ok := NotifySubscribers(before);
      r := if ok then Ok else TooMany;
      if ok {
        driver.ServingClean(stat, listed);
        NothingCleared(s, driver.Slots());
        driver.IdleUnit(known, c.unit);
        driver.ServingExact(stat, listed);
        RepoKnows(channels, listed, driver.tables, stat, tag);
      }
    }

    /** `remove_channel`. */
    method RemoveChannel(tag: nat) returns (r: Status)
      requires Valid()
      modifies this`channels, this`listed, driver`tables, driver.Memory()
      ensures Valid() && channels == old(channels) - {tag}
      ensures r == if tag in old(channels) then Ok else Missing
      ensures BothCleared(old(driver.Slots()), driver.Slots(),
                          if tag in old(channels) && old(channels)[tag].Complete() then {old(channels)[tag].unit} else {})
    {
      hide RepoOk, Changes, Lists, ChannelOk, RepoFits, LiveUnits, BothCleared, ASICDriver.Serving;
      driver.ServingClean(stat, listed);
      if tag !in channels {
        NothingTouched(driver.Slots());
        return Missing;
      }
      RemoveOk(channels, tag);
      RemoveFits(channels, tag);
      RemoveUnits(channels, tag);
      ghost var before := channels;
      channels := channels - {tag};
      var ok := NotifySubscribers(before);
      r := Ok;
    }
  }

  /** The tables know the participants of complete channels. */
  lemma RepoKnows(m: Repo, chs: seq<Channel>, t: Table, stat: Table, tag: nat)
    requires Lists(chs, m) && Exact(t, stat, chs) && tag in m
    ensures m[tag].Complete() ==> ChannelProgram.Knows(t, m[tag])
  {
    hide Exact, ChannelProgram.Knows, Channel.Complete;
    if m[tag].Complete() { ChannelProgram.ExactKnows(t, stat, chs, m[tag]); }
  }

  lemma RemoveFits(m: Repo, t: nat)
    requires RepoFits(m)
    ensures RepoFits(m - {t})
  {
    hide Fits, Channel.Complete;
  }

  lemma FitsWith(m: Repo, t: nat, c: Channel)
    requires RepoFits(m)
    ensures RepoFits(m[t := c]) <==> (c.Complete() ==> Fits(c))
  {
    hide Fits, Channel.Complete;
    assert t in m[t := c] && m[t := c][t] == c;
  }

  lemma AddFresh(m: Repo, c: Channel)
    requires RepoFits(m) && RepoOk(m) && c.tag !in m && ChannelOk(c) && !c.Complete() && !TakenUnit(m, c.unit) && !TakenQp(m, c.qpCommon)
    ensures RepoOk(m[c.tag := c]) && Changes(m, m[c.tag := c]) && RepoFits(m[c.tag := c])
  {
    hide RepoOk, ChannelOk, Changes, Channel.Complete, Fits;
    AddOk(m, c);
  }

  lemma TagsOk(m: Repo)
    requires RepoOk(m)
    ensures forall t <- m :: m[t].tag == t
  {
  }

  lemma LiveListed(chs: seq<Channel>, m: Repo)
    requires Lists(chs, m)
    ensures AllFit(chs) <==> RepoFits(m)
  {
    hide Fits, Channel.Complete;
  }
}