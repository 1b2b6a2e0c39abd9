/**
 The send loops of the bus classes are the broadcast of the star protocol: what each
 connection sends is what the protocol appends to the queue towards its client, and
 the connections left are the ones the protocol leaves.
 */
module StarRefinement {
  import opened Wrappers
  import opened Framing
  import opened Sequences
  import opened Scopes
  import opened Routing
  import opened SocketBus
  import Star = StarProtocol

  /** Which client is behind which connection of the server. */
  type Peers = map<BusConnection, Star.ClientId>

  /** The connection's socket gives up inside the frame if anything is written to it. */
  predicate Gives(notification: Message, faults: map<BusConnection, nat>, c: BusConnection) {
    Throws(false, notification, FaultOf(faults, c))
  }

  ghost function Clients(list: seq<BusConnection>, peers: Peers): set<Star.ClientId>
    requires forall c :: c in list ==> c in peers
  {
    set c | c in list :: peers[c]
  }

  ghost function Throwing(list: seq<BusConnection>, peers: Peers, notification: Message,
                          faults: map<BusConnection, nat>): set<Star.ClientId>
    requires forall c :: c in list ==> c in peers
  {
    set c | c in list && Gives(notification, faults, c) :: peers[c]
  }

  /** The protocol state describes this list: its members, told apart, and which of them are shutting down. */
  ghost predicate Describes(s: Star.State, list: seq<BusConnection>, peers: Peers)
    reads list`activeShutdown
  {
    && Distinct(list)
    && (forall c :: c in list ==> c in peers)
    && (forall c, d :: c in peers && d in peers && peers[c] == peers[d] ==> c == d)
    && s.links.connections == Clients(list, peers)
    && (forall c :: c in list ==> (c.activeShutdown <==> peers[c] in s.links.shutDown))
  }

  /** How many events one broadcast appends to the queue towards a client. */
  function Growth(s: Star.State, e: Star.Event, skip: Option<Star.ClientId>, throwing: set<Star.ClientId>,
                  d: Star.ClientId): nat
  {
    |Star.Broadcast(s, e, skip, throwing)(d)| - |s.down(d)|
  }

  /** The frames put on a connection are the events the protocol puts in its queue. */
  twostate predicate SentAsBroadcast(s: Star.State, e: Star.Event, skip: Option<Star.ClientId>,
                                     throwing: set<Star.ClientId>, list: seq<BusConnection>, peers: Peers,
                                     notification: Message)
    requires forall c :: c in list ==> c in peers
    reads list
  {
    forall c :: c in list ==> c.sent == old(c.sent) + seq(Growth(s, e, skip, throwing, peers[c]), _ => notification)
  }

  /** The list without its failing members is the protocol's list of remaining connections. */
  lemma RemainingClients(s: Star.State, list: seq<BusConnection>, peers: Peers, origin: BusConnection?,
                         notification: Message, faults: map<BusConnection, nat>)
    requires Describes(s, list, peers) && (origin != null ==> origin in peers)
    ensures
      var left := Without(list, Failing(list, origin, Some(notification), faults));
      var skip := if origin == null then None else Some(peers[origin]);
      && (forall c :: c in left ==> c in list && c in peers)
      && Clients(left, peers) == Star.Remaining(s, skip, Throwing(list, peers, notification, faults))
  {
    var failing := Failing(list, origin, Some(notification), faults);
    var left := Without(list, failing);
    var throwing := Throwing(list, peers, notification, faults);
    forall c | c in list
      ensures c in left <==> c !in failing
    {
      WithoutKeeps(list, failing, c);
    }
    forall c | c in left
      ensures c in list && c !in failing
    {
      WithoutKeeps(list, failing, c);
    }
    forall c | c in list
      ensures peers[c] in throwing <==> Gives(notification, faults, c)
      ensures c in failing <==>
        c != origin && peers[c] !in s.links.shutDown && peers[c] in throwing
    {
      assert peers[c] in throwing ==> exists d :: d in list && Gives(notification, faults, d) && peers[d] == peers[c];
    }
    var skip := if origin == null then None else Some(peers[origin]);
    var remaining := Star.Remaining(s, skip, throwing);
    forall d | d in remaining
      ensures d in Clients(left, peers)
    {
      var c :| c in list && peers[c] == d;
      assert c in left;
    }
    forall c | c in left
      ensures peers[c] in remaining
    {
      assert c in list && c !in failing;
    }
  }

  /** A part of a described list is described by any state with that part connected and the same ends shutting down. */
  lemma PartDescribed(s: Star.State, list: seq<BusConnection>, peers: Peers, t: Star.State, part: seq<BusConnection>)
    requires Describes(s, list, peers) && Distinct(part) && forall c :: c in part ==> c in list
    requires t.links.connections == Clients(part, peers) && t.links.shutDown == s.links.shutDown
    ensures Describes(t, part, peers)
  {
  }

  /**
   Publishing in a client process, as a step of the protocol: the client's one connection,
   if the bus still lists it, sends what the protocol queues towards the server, and it
   stays listed exactly if the protocol leaves the client linked.
   */
  method SendUp(client: BusImpl, c: BusConnection, event: Event, expired: set<Sink>, faults: map<BusConnection, nat>,
                ghost s: Star.State, ghost o: Star.Informer)
    requires o.home.Client? && s.half(o).Some?
    requires DescribesClient(s, client.connections, c, o.home.id)
    requires |event.scope.scopestring| < SIZE_LIMIT && event.notification.Some?
    modifies client`connections, c`messageSendBuffer, c`lengthSendBuffer, c`written, c`sent
    ensures
      var throwing := if Gives(event.notification.value, faults, c) then {o.home.id} else {};
      var after := Star.AfterSendUp(s, o, throwing);
      && c.sent == old(c.sent) +
           seq(|after.up(o.home.id)| - |s.up(o.home.id)|, _ => event.notification.value)
      && DescribesClient(after, client.connections, c, o.home.id)
  {
    WithoutKeeps(client.connections, Failing(client.connections, null, event.notification, faults), c);
    var called, throws := client.Handle(event, expired, faults);
  }

  /** Publishing in the server process, as a step of the protocol: everything goes to every client. */
  method SendDown(server: BusImpl, event: Event, expired: set<Sink>, faults: map<BusConnection, nat>,
                  ghost s: Star.State, ghost e: Star.Event, ghost peers: Peers)
    requires Describes(s, server.connections, peers)
    requires |event.scope.scopestring| < SIZE_LIMIT && event.notification.Some?
    modifies server`connections
    modifies server.connections`messageSendBuffer, server.connections`lengthSendBuffer
    modifies server.connections`written, server.connections`sent
    ensures forall c :: c in server.connections ==> c in peers
    ensures var throwing := Throwing(old(server.connections), peers, event.notification.value, faults);
      && SentAsBroadcast(s, e, None, throwing, old(server.connections), peers, event.notification.value)
      && Clients(server.connections, peers) == Star.Remaining(s, None, throwing)
      && forall o: Star.Informer :: s.half(o) == Some(e) ==>
           Describes(Star.AfterSendDown(s, o, throwing), server.connections, peers)
  {
    RemainingClients(s, server.connections, peers, null, event.notification.value, faults);
    ghost var before := server.connections;
    ghost var throwing := Throwing(before, peers, event.notification.value, faults);
    var called, throws := server.Handle(event, expired, faults);
    hide Describes;
    forall o: Star.Informer | s.half(o) == Some(e)
      ensures Describes(Star.AfterSendDown(s, o, throwing), server.connections, peers)
    {
      PartDescribed(s, before, peers, Star.AfterSendDown(s, o, throwing), server.connections);
    }
  }

  /** Handling a received event, as a step of the protocol: everything goes to every client but its sender. */
  method Forward(server: BusServerImpl, event: Event, connection: BusConnection, expired: set<Sink>,
                 faults: map<BusConnection, nat>, ghost s: Star.State, ghost e: Star.Event, ghost peers: Peers)
    requires Describes(s, server.bus.connections, peers) && connection in peers
    requires |event.scope.scopestring| < SIZE_LIMIT && event.notification.Some?
    modifies server.bus`connections
    modifies server.bus.connections`messageSendBuffer, server.bus.connections`lengthSendBuffer
    modifies server.bus.connections`written, server.bus.connections`sent
    ensures forall c :: c in server.bus.connections ==> c in peers
    ensures var throwing := Throwing(old(server.bus.connections), peers, event.notification.value, faults);
      && SentAsBroadcast(s, e, Some(peers[connection]), throwing, old(server.bus.connections), peers,
                         event.notification.value)
      && Clients(server.bus.connections, peers) == Star.Remaining(s, Some(peers[connection]), throwing)
      && (s.forwarding == Some((peers[connection], e)) ==>
            Describes(Star.AfterForward(s, throwing), server.bus.connections, peers))
  {
    hide Frame;
    hide Without;
    RemainingClients(s, server.bus.connections, peers, connection, event.notification.value, faults);
    ghost var before := server.bus.connections;
    ghost var throwing := Throwing(before, peers, event.notification.value, faults);
    var called := server.HandleIncoming(event, connection, expired, faults);
    assert SentAsBroadcast(s, e, Some(peers[connection]), throwing, before, peers, event.notification.value);
    hide Describes;
    hide SentAsBroadcast;
    if s.forwarding == Some((peers[connection], e)) {
      PartDescribed(s, before, peers, Star.AfterForward(s, throwing), server.bus.connections);
    }
  }

  /** Accepting a connection, as a step of the protocol. */
  method Accept(server: BusImpl, c: BusConnection, k: Star.ClientId, ghost s: Star.State, ghost peers: Peers)
    requires Describes(s, server.connections, peers) && Star.Enabled(s, Star.Accept(k))
    requires c !in peers && k !in peers.Values && (c.activeShutdown <==> k in s.links.shutDown)
    modifies server`connections
    ensures Describes(Star.Next(s, Star.Accept(k)), server.connections, peers[c := k])
  {
    assert c !in server.connections;
    assert forall d :: d in peers ==> peers[d] in peers.Values;
    server.AddConnection(c);
    ghost var before, after, more := old(server.connections), server.connections, peers[c := k];
    forall d: BusConnection | d in after
      ensures d in more && (d in before || d == c)
    {
    }
    assert Clients(after, more) == Clients(before, peers) + {k} by {
      assert c in after && more[c] == k;
      forall id | id in Clients(before, peers)
        ensures id in Clients(after, more)
      {
        var d: BusConnection :| d in before && peers[d] == id;
        assert d in after && more[d] == id;
      }
    }
  }

  /** Dropping a connection, as a step of the protocol. */
  method Drop(server: BusImpl, c: BusConnection, ghost s: Star.State, ghost peers: Peers)
    requires Describes(s, server.connections, peers) && c in peers
    modifies server`connections
    ensures forall d :: d in server.connections ==> d in peers
    ensures Describes(Star.Next(s, Star.ServerDrops(peers[c])), server.connections, peers)
  {
    ghost var before := server.connections;
    forall d: BusConnection | d in before
      ensures d in Without(before, {c}) <==> d != c
    {
      WithoutKeeps(before, {c}, d);
    }
    forall d: BusConnection | d in Without(before, {c})
      ensures d in before && d != c
    {
      WithoutKeeps(before, {c}, d);
    }
    server.RemoveConnection(c);
  }

  /** Shutting down the server's end of a connection, as a step of the protocol. */
  method ShutDown(server: BusImpl, c: BusConnection, ghost s: Star.State, ghost peers: Peers)
    requires Describes(s, server.connections, peers) && c in peers && c.Valid()
    modifies c`activeShutdown
    ensures Describes(Star.Next(s, Star.ServerShutsDown(peers[c])), server.connections, peers)
  {
    c.Shutdown();
  }

  /** The protocol state describes a client's bus: it lists its connection exactly while the client is linked. */
  ghost predicate DescribesClient(s: Star.State, list: seq<BusConnection>, c: BusConnection, k: Star.ClientId)
    reads c`activeShutdown
  {
    && list == (if k in s.links.linked then [c] else [])
    && (c.activeShutdown <==> k in s.links.shutUp)
  }

  /** A client that connects lists its connection from then on. */
  method Connect(client: BusImpl, c: BusConnection, k: Star.ClientId, ghost s: Star.State)
    requires DescribesClient(s, client.connections, c, k) && client.connections == []
    requires Star.Enabled(s, Star.Connect(k))
    modifies client`connections
    ensures client.connections == [c]
    ensures DescribesClient(Star.Next(s, Star.Connect(k)), client.connections, c, k)
  {
    client.AddConnection(c);
  }

  /** A client that drops its connection no longer lists it. */
  method ClientDrop(client: BusImpl, c: BusConnection, k: Star.ClientId, ghost s: Star.State)
    requires DescribesClient(s, client.connections, c, k)
    modifies client`connections
    ensures client.connections == []
    ensures DescribesClient(Star.Next(s, Star.ClientDrops(k)), client.connections, c, k)
  {
    client.RemoveConnection(c);
  }

  /** Shutting down the client's end of its connection, as a step of the protocol. */
  method ClientShutDown(client: BusImpl, c: BusConnection, k: Star.ClientId, ghost s: Star.State)
    requires DescribesClient(s, client.connections, c, k) && c.Valid()
    modifies c`activeShutdown
    ensures DescribesClient(Star.Next(s, Star.ClientShutsDown(k)), client.connections, c, k)
  {
    c.Shutdown();
  }
}
