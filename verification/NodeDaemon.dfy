/** The node daemon's side of the control protocol. */
module NodeDaemon {
  import opened Messages
  import opened Ownership

  /** An application's request for a channel. */
  datatype ClientGet = ClientGet(tag: nat, ids: seq<nat>, clientId: nat, localQp: nat)

  /** What a request means for the ownership of channels. */
  function Meaning(r: Request): Msg {
    match r
    case GetChannel(get) => Get(get.tag)
    case UnrefChannel(tag) => Unref(tag)
  }

  function Stream(sent: seq<Request>): (ms: seq<Msg>)
    ensures |ms| == |sent|
  {
    seq(|sent|, i requires 0 <= i < |sent| => Meaning(sent[i]))
  }

  function GiveUp(tags: seq<nat>): seq<Request> {
    seq(|tags|, i requires 0 <= i < |tags| => UnrefChannel(tags[i]))
  }

  lemma GiveUpMeans(sent: seq<Request>, tags: seq<nat>)
    ensures Stream(sent + GiveUp(tags)) == Stream(sent) + Unrefs(tags)
  {
  }

  class NodeDaemon {
    /** Connected applications and the channels each uses. */
    var clients: Clients
    /** Requests of each application that the switch has not answered, by client id and tag. */
    var pending: map<nat, set<(nat, nat)>>
    /** Whether a switch is known; until then requests are ignored. */
    var switchKnown: bool
    /** This node on the high performance network, and its port on the switch. */
    var ip: nat
    var mac: nat
    var port: nat
    /** Everything sent to the switch so far. */
    var sent: seq<Request>

    constructor (ip: nat, mac: nat)
      ensures clients == NO_CLIENTS && pending == map[] && !switchKnown && sent == []
      ensures this.ip == ip && this.mac == mac
    {
      clients, pending, switchKnown, sent := NO_CLIENTS, map[], false, [];
      this.ip, this.mac, port := ip, mac, 0;
    }

    /** `on_client_conn`. */
    method OnClientConn(c: nat)
      requires c !in clients
      modifies this`clients, this`pending
      ensures clients == Accepted(old(clients), c) && pending == old(pending)[c := {}]
    {
      clients, pending := clients[c := {}], pending[c := {}];
    }

    /** `on_client_get_channel`: the application uses the channel from now on, and the request goes to the
        switch with the node's own address and port. */
    method OnGetChannel(c: nat, msg: ClientGet)
      requires c in clients && c in pending
      modifies this`clients, this`pending, this`sent
      ensures !switchKnown ==> clients == old(clients) && pending == old(pending) && sent == old(sent)
      ensures switchKnown ==>
                && clients == Requested(old(clients), c, msg.tag)
                && pending == old(pending)[c := old(pending)[c] + {(msg.clientId, msg.tag)}]
                && sent == old(sent) + [GetChannel(GetMsg(msg.tag, msg.ids, msg.clientId, ip, msg.localQp, mac, port))]
                && Stream(sent) == Stream(old(sent)) + [Get(msg.tag)]
    {
      if switchKnown {
        clients := clients[c := clients[c] + {msg.tag}];
        sent := sent + [GetChannel(GetMsg(msg.tag, msg.ids, msg.clientId, ip, msg.localQp, mac, port))];
        pending := pending[c := pending[c] + {(msg.clientId, msg.tag)}];
      }
    }

    /** The disconnect branch of `on_client_fd`: gives up, once each, exactly the channels that no other
        application on the node uses. */
    method OnClientGone(c: nat) returns (ghost order: seq<nat>)
      requires c in clients
      modifies this`clients, this`pending, this`sent
      ensures LastHeld(old(clients), c, order)
      ensures clients == old(clients) - {c} && pending == old(pending) - {c}
      ensures sent == old(sent) + GiveUp(order) && Stream(sent) == Stream(old(sent)) + Unrefs(order)
    {
      order := [];
      var rest := clients[c];
      while rest != {}
        invariant clients == old(clients) && rest <= clients[c]
        invariant NoDuplicates(order)
        invariant forall t <- order :: t in clients[c] && t !in rest && !HeldByOther(clients, c, t)
        invariant forall t | t in clients[c] && t !in rest :: t in order || HeldByOther(clients, c, t)
        invariant pending == old(pending) && sent == old(sent) + GiveUp(order)
        decreases |rest|
      {
        var t :| t in rest;
        var users := CountUsers(c, t);
        if users == 0 {
          assert GiveUp(order + [t]) == GiveUp(order) + [UnrefChannel(t)];
          sent := sent + [UnrefChannel(t)];
          order := order + [t];
        }
        rest := rest - {t};
      }
      GiveUpMeans(old(sent), order);
      clients, pending := clients - {c}, pending - {c};
    }

    /** How many other applications use a channel. */
    method CountUsers(c: nat, t: nat) returns (users: nat)
      ensures users > 0 <==> HeldByOther(clients, c, t)
    {
      users := 0;
      var rest := clients.Keys;
      while rest != {}
        invariant rest <= clients.Keys
        invariant users > 0 <==> exists d :: d in clients && d !in rest && d != c && t in clients[d]
        decreases |rest|
      {
        var d :| d in rest;
        if d != c && t in clients[d] { users := users + 1; }
        rest := rest - {d};
      }
    }
  }
}
