/** Two-level reference counting: applications hold channels at their node daemon, node daemons own
channels at the switch, and a stream of messages connects the two. */
module Ownership {
  /** What a node daemon tells the switch; a closed connection reads as the last message. */
  datatype Msg = Get(tag: nat) | Unref(tag: nat) | Eof

  /** A node daemon's connected applications and the channels each holds. */
  type Clients = map<nat, set<nat>>

  predicate Held(clients: Clients, t: nat) {
    exists c :: c in clients && t in clients[c]
  }

  /** Held by another application than c. */
  predicate HeldByOther(clients: Clients, c: nat, t: nat) {
    exists d :: d in clients && d != c && t in clients[d]
  }

  const NO_CLIENTS: Clients := map[]

  function Accepted(clients: Clients, c: nat): Clients {
    clients[c := {}]
  }

  function Requested(clients: Clients, c: nat, t: nat): Clients
    requires c in clients
  {
    clients[c := clients[c] + {t}]
  }

  /** The channels a node daemon owns at the switch after one more message. */
  function Take(owned: set<nat>, m: Msg): set<nat> {
    match m
    case Get(t) => owned + {t}
    case Unref(t) => owned - {t}
    case Eof => {}
  }

  function TakeAll(owned: set<nat>, wire: seq<Msg>): set<nat>
    decreases |wire|
  {
    if |wire| == 0 then owned else TakeAll(Take(owned, wire[0]), wire[1..])
  }

  /** No message gives up what is not owned, and none follows the end of the stream. */
  predicate Sound(owned: set<nat>, wire: seq<Msg>)
    decreases |wire|
  {
    |wire| == 0 ||
    (&& (wire[0].Unref? ==> wire[0].tag in owned)
     && (wire[0].Eof? ==> |wire| == 1)
     && Sound(Take(owned, wire[0]), wire[1..]))
  }

  lemma {:induction false} TakeMore(owned: set<nat>, wire: seq<Msg>, m: Msg)
    ensures TakeAll(owned, wire + [m]) == Take(TakeAll(owned, wire), m)
    ensures Sound(owned, wire + [m]) <==>
            && Sound(owned, wire) && Eof !in wire
            && (m.Unref? ==> m.tag in TakeAll(owned, wire))
    decreases |wire|
  {
    if wire == [] {
      assert wire + [m] == [m];
    } else {
      assert (wire + [m])[1..] == wire[1..] + [m];
      TakeMore(Take(owned, wire[0]), wire[1..], m);
      assert wire == [wire[0]] + wire[1..];
    }
  }

  /** The messages for channels that are given up. */
  function Unrefs(tags: seq<nat>): (w: seq<Msg>)
    ensures |w| == |tags| && forall i | 0 <= i < |w| :: w[i] == Unref(tags[i])
  {
    seq(|tags|, i requires 0 <= i < |tags| => Unref(tags[i]))
  }

  predicate NoDuplicates(tags: seq<nat>) {
    forall i, j | 0 <= i < j < |tags| :: tags[i] != tags[j]
  }

  lemma {:induction false} TakeUnrefs(owned: set<nat>, wire: seq<Msg>, tags: seq<nat>)
    requires NoDuplicates(tags) && Sound(owned, wire) && Eof !in wire
    requires forall t <- tags :: t in TakeAll(owned, wire)
    ensures Sound(owned, wire + Unrefs(tags)) && Eof !in wire + Unrefs(tags)
    ensures TakeAll(owned, wire + Unrefs(tags)) == TakeAll(owned, wire) - (set t | t in tags)
    decreases |tags|
  {
    if tags == [] {
      assert wire + Unrefs(tags) == wire;
    } else {
      var n := |tags| - 1;
      var w := wire + Unrefs(tags[..n]);
      TakeUnrefs(owned, wire, tags[..n]);
      TakeMore(owned, w, Unref(tags[n]));
      assert wire + Unrefs(tags) == w + [Unref(tags[n])];
      assert forall t :: t in tags <==> t in tags[..n] || t == tags[n];
    }
  }

  /** All nodes with a connection to the switch: the applications at their daemons, the messages on
      the way, and what the switch thinks they own.  A daemon that died has left its last messages. */
  datatype World = World(daemons: map<nat, Clients>, wires: map<nat, seq<Msg>>, owned: map<nat, set<nat>>)

  datatype Event =
    | Connect(node: nat)
    | Accept(node: nat, client: nat)
    | Request(node: nat, client: nat, tag: nat)
    | Leave(node: nat, client: nat, order: seq<nat>)
    | Die(node: nat)
    | Receive(node: nat)
    | HangUp(node: nat)

  /** The order in which a daemon gives up what only the leaving application holds. */
  predicate LastHeld(clients: Clients, c: nat, order: seq<nat>) {
    && c in clients && NoDuplicates(order)
    && (forall t <- order :: t in clients[c] && !HeldByOther(clients, c, t))
    && (forall t <- clients[c] :: t in order || HeldByOther(clients, c, t))
  }

  predicate Enabled(w: World, e: Event) {
    match e
    case Connect(n) => n !in w.daemons && n !in w.wires && n !in w.owned
    case Accept(n, c) => n in w.daemons && n in w.wires && c !in w.daemons[n]
    case Request(n, c, t) => n in w.daemons && n in w.wires && c in w.daemons[n]
    case Leave(n, c, order) => n in w.daemons && n in w.wires && LastHeld(w.daemons[n], c, order)
    case Die(n) => n in w.daemons && n in w.wires
    case Receive(n) => n in w.wires && w.wires[n] != [] && n in w.owned
    case HangUp(n) => n !in w.daemons && n in w.wires && n in w.owned
  }

  function Apply(w: World, e: Event): World
    requires Enabled(w, e)
  {
    match e
    case Connect(n) =>
      World(w.daemons[n := NO_CLIENTS], w.wires[n := []], w.owned[n := {}])
    case Accept(n, c) =>
      w.(daemons := w.daemons[n := Accepted(w.daemons[n], c)])
    case Request(n, c, t) =>
      w.(daemons := w.daemons[n := Requested(w.daemons[n], c, t)], wires := w.wires[n := w.wires[n] + [Get(t)]])
    case Leave(n, c, order) =>
      w.(daemons := w.daemons[n := w.daemons[n] - {c}], wires := w.wires[n := w.wires[n] + Unrefs(order)])
    case Die(n) =>
      w.(daemons := w.daemons - {n}, wires := w.wires[n := w.wires[n] + [Eof]])
    case Receive(n) =>
      if w.wires[n][0].Eof? then
        w.(wires := w.wires - {n}, owned := w.owned - {n})
      else
        w.(wires := w.wires[n := w.wires[n][1..]], owned := w.owned[n := Take(w.owned[n], w.wires[n][0])])
    case HangUp(n) =>
      // The switch sees that the connection is closed before it has read all messages.
      w.(wires := w.wires - {n}, owned := w.owned - {n})
  }

  /** A node's messages bring the switch to where the node's applications are. */
  ghost predicate NodeOk(w: World, n: nat)
    requires n in w.wires && n in w.owned
  {
    && Sound(w.owned[n], w.wires[n])
    && (n in w.daemons ==> Eof !in w.wires[n] && forall t :: t in TakeAll(w.owned[n], w.wires[n]) <==> Held(w.daemons[n], t))
    && (n !in w.daemons ==> Eof in w.wires[n])
  }

  ghost predicate Inv(w: World) {
    && w.wires.Keys == w.owned.Keys && w.daemons.Keys <= w.wires.Keys
    && forall n | n in w.wires && n in w.owned :: NodeOk(w, n)
  }

  lemma ReceiveStep(owned: set<nat>, wire: seq<Msg>)
    requires Sound(owned, wire) && wire != []
    ensures wire[0].Unref? ==> wire[0].tag in owned
    ensures Sound(Take(owned, wire[0]), wire[1..]) && TakeAll(Take(owned, wire[0]), wire[1..]) == TakeAll(owned, wire)
    ensures !wire[0].Eof? ==> (Eof in wire[1..] <==> Eof in wire)
  {
    assert wire == [wire[0]] + wire[1..];
  }

  lemma KeysStep(w: World, e: Event)
    requires w.wires.Keys == w.owned.Keys && w.daemons.Keys <= w.wires.Keys && Enabled(w, e)
    requires e.Receive? && w.wires[e.node][0].Eof? ==> e.node !in w.daemons
    ensures var w' := Apply(w, e); w'.wires.Keys == w'.owned.Keys && w'.daemons.Keys <= w'.wires.Keys
  {
  }

  /** Nothing changes for other nodes. */
  lemma OtherNode(w: World, e: Event, m: nat)
    requires Enabled(w, e) && m != e.node
    ensures
      var w' := Apply(w, e);
      && (m in w'.wires <==> m in w.wires) && (m in w.wires ==> w'.wires[m] == w.wires[m])
      && (m in w'.owned <==> m in w.owned) && (m in w.owned ==> w'.owned[m] == w.owned[m])
      && (m in w'.daemons <==> m in w.daemons) && (m in w.daemons ==> w'.daemons[m] == w.daemons[m])
  {
    hide LastHeld, Take, Accepted, Requested, Unrefs;
  }

  lemma StepInv(w: World, e: Event)
    requires Inv(w) && Enabled(w, e)
    ensures Inv(Apply(w, e))
  {
    var w' := Apply(w, e);
    if e.Receive? { assert NodeOk(w, e.node); }
    KeysStep(w, e);
    hide Apply, Enabled, Sound, TakeAll, Held;
    forall m | m in w'.wires && m in w'.owned
      ensures NodeOk(w', m)
    {
      if m == e.node {
        NodeStep(w, e);
      } else {
        OtherNode(w, e, m);
        assert NodeOk(w, m);
      }
    }
  }

  lemma NodeStep(w: World, e: Event)
    requires Inv(w) && Enabled(w, e) && e.node in Apply(w, e).wires && e.node in Apply(w, e).owned
    ensures NodeOk(Apply(w, e), e.node)
  {
    var w' := Apply(w, e);
    match e
    case Connect(n) =>
    case Accept(n, c) =>
      assert NodeOk(w, n);
      HeldAccept(w.daemons[n], c);
    case Request(n, c, t) =>
      assert NodeOk(w, n);
      TakeMore(w.owned[n], w.wires[n], Get(t));
      HeldRequest(w.daemons[n], c, t);
    case Leave(n, c, order) =>
      assert NodeOk(w, n);
      HeldLeave(w.daemons[n], c, order);
      TakeUnrefs(w.owned[n], w.wires[n], order);
    case Die(n) =>
      assert NodeOk(w, n);
      TakeMore(w.owned[n], w.wires[n], Eof);
    case Receive(n) =>
      assert NodeOk(w, n);
      ReceiveStep(w.owned[n], w.wires[n]);
    case HangUp(n) =>
  }

  lemma HeldAccept(clients: Clients, c: nat)
    requires c !in clients
    ensures forall t :: Held(Accepted(clients, c), t) <==> Held(clients, t)
  {
    forall t
      ensures Held(Accepted(clients, c), t) <==> Held(clients, t)
    {
      if Held(clients, t) {
        var d :| d in clients && t in clients[d];
        assert d in Accepted(clients, c) && t in Accepted(clients, c)[d];
      }
    }
  }

  lemma HeldRequest(clients: Clients, c: nat, t: nat)
    requires c in clients
    ensures forall u :: Held(Requested(clients, c, t), u) <==> Held(clients, u) || u == t
  {
    var clients' := Requested(clients, c, t);
    forall u
      ensures Held(clients', u) <==> Held(clients, u) || u == t
    {
      if Held(clients, u) {
        var d :| d in clients && u in clients[d];
        assert d in clients' && u in clients'[d];
      }
      assert c in clients' && t in clients'[c];
    }
  }

  lemma HeldLeave(clients: Clients, c: nat, order: seq<nat>)
    requires LastHeld(clients, c, order)
    ensures forall t :: Held(clients - {c}, t) <==> Held(clients, t) && t !in order
    ensures forall t <- order :: Held(clients, t)
  {
    forall t
      ensures Held(clients - {c}, t) <==> Held(clients, t) && t !in order
    {
      if Held(clients, t) && t !in order {
        var d :| d in clients && t in clients[d];
        if d == c {
          var f :| f in clients && f != c && t in clients[f];
          assert f in clients - {c} && t in (clients - {c})[f];
        } else {
          assert d in clients - {c} && t in (clients - {c})[d];
        }
      }
    }
  }

  predicate IsRun(w: World, es: seq<Event>)
    decreases |es|
  {
    |es| == 0 || (Enabled(w, es[0]) && IsRun(Apply(w, es[0]), es[1..]))
  }

  function Exec(w: World, es: seq<Event>): World
    requires IsRun(w, es)
    decreases |es|
  {
    if |es| == 0 then w else Exec(Apply(w, es[0]), es[1..])
  }

  const START: World := World(map[], map[], map[])

  lemma {:induction false} RunInv(w: World, es: seq<Event>)
    requires Inv(w) && IsRun(w, es)
    ensures Inv(Exec(w, es))
    decreases |es|
  {
    if es != [] {
      StepInv(w, es[0]);
      RunInv(Apply(w, es[0]), es[1..]);
    }
  }

  /** A channel exists on the switch while some node owns it. */
  predicate OnSwitch(w: World, t: nat) {
    exists n :: n in w.owned && t in w.owned[n]
  }

  predicate InUse(w: World, t: nat) {
    exists n :: n in w.daemons && Held(w.daemons[n], t)
  }

  /** In every run, with every interleaving of applications and nodes coming and going: the switch is
      never told to give up a channel for a node that does not own it; whatever is on the way, each
      node's messages lead to exactly what its applications hold; and once all messages have arrived a
      channel exists on the switch if and only if some application on some node holds it. */
  lemma ChannelsFollowUse(es: seq<Event>)
    requires IsRun(START, es)
    ensures
      var w := Exec(START, es);
      && (forall n | n in w.owned && n in w.wires && w.wires[n] != [] && w.wires[n][0].Unref? :: w.wires[n][0].tag in w.owned[n])
      && (forall n, t | n in w.daemons && n in w.wires && n in w.owned ::
            t in TakeAll(w.owned[n], w.wires[n]) <==> Held(w.daemons[n], t))
      && ((forall n <- w.wires :: w.wires[n] == []) ==> forall t :: OnSwitch(w, t) <==> InUse(w, t))
  {
    RunInv(START, es);
    var w := Exec(START, es);
    hide Exec, IsRun;
    forall n | n in w.owned && n in w.wires
      ensures NodeOk(w, n)
      ensures w.wires[n] != [] && w.wires[n][0].Unref? ==> w.wires[n][0].tag in w.owned[n]
    {
      assert NodeOk(w, n);
    }
    if forall n <- w.wires :: w.wires[n] == [] {
      forall t
        ensures OnSwitch(w, t) <==> InUse(w, t)
      {
        if OnSwitch(w, t) {
          var n :| n in w.owned && t in w.owned[n];
          assert NodeOk(w, n) && t in TakeAll(w.owned[n], w.wires[n]);
        }
        if InUse(w, t) {
          var n :| n in w.daemons && Held(w.daemons[n], t);
          assert NodeOk(w, n) && t in TakeAll(w.owned[n], w.wires[n]);
        }
      }
    }
  }
}
