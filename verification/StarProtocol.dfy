/**
 The socket bus as a protocol: one server process, any number of client processes
 with one connection each, one queue per direction of a connection.

 A process publishes in two steps because local sinks and connections are served
 under two different locks; the server likewise delivers a received event locally
 before it forwards it. Each informer publishes one event at a time, and each
 process has one service thread for what it receives.
 */
module StarProtocol {
  import opened Wrappers
  import opened Framing
  import opened Sequences

  /** Clients are told apart by arbitrary numbers. */
  type ClientId = int

  datatype Process = Server | Client(id: ClientId)

  datatype Informer = Informer(home: Process, number: nat)

  datatype Event = Event(origin: Informer, seqno: nat, payload: nat)

  type Queue = seq<Event>

  /**
   Who is connected to whom.

   - connections: the server's connection list; shutDown: those of its ends that are shutting down
   - linked: clients that still list their connection; shutUp: client ends that are shutting down
   - known, accepted: clients that ever connected, and those the server ever listed
   */
  datatype Links = Links(
    connections: set<ClientId>, shutDown: set<ClientId>, linked: set<ClientId>, shutUp: set<ClientId>,
    known: set<ClientId>, accepted: set<ClientId>)

  /**
   - published: what each informer has published, in order
   - delivered: what each process has handed to its sinks, in order
   - half: events handed to the local sinks but not yet to the connections
   - forwarding: the event the server has received and not yet forwarded, with its connection
   - up, down: events written on a connection and not yet read, towards and from the server
   */
  datatype State = State(
    published: Informer -> Queue, delivered: Process -> Queue,
    half: Informer -> Option<Event>, forwarding: Option<(ClientId, Event)>,
    up: ClientId -> Queue, down: ClientId -> Queue, links: Links)

  /** `f` with the value at `k` replaced. */
  function Put<K(==), V>(f: K -> V, k: K, v: V): K -> V {
    x => if x == k then v else f(x)
  }

  /** The events of one informer, in the order of the list. */
  function Of(list: Queue, o: Informer): Queue {
    if list == [] then []
    else (if list[0].origin == o then [list[0]] else []) + Of(list[1..], o)
  }

  datatype Step =
    | Publish(origin: Informer, payload: nat)
    | Send(origin: Informer, throwing: set<ClientId>)
    | ServerReceive(client: ClientId)
    | Forward(throwing: set<ClientId>)
    | ClientReceive(client: ClientId)
    | Connect(client: ClientId)
    | Accept(client: ClientId)
    | ServerDrops(client: ClientId)
    | ClientDrops(client: ClientId)
    | ServerShutsDown(client: ClientId)
    | ClientShutsDown(client: ClientId)

  ghost predicate Enabled(s: State, step: Step) {
    match step
    case Publish(o, _) => s.half(o).None? && (o.home.Client? ==> o.home.id in s.links.known)
    case Send(o, _) => s.half(o).Some?
    case ServerReceive(c) => s.forwarding.None? && s.up(c) != []
    case Forward(_) => s.forwarding.Some?
    case ClientReceive(d) => s.down(d) != []
    case Connect(c) => c !in s.links.known
    case Accept(c) => c in s.links.known && c !in s.links.accepted
    case ServerDrops(_) | ClientDrops(_) | ServerShutsDown(_) | ClientShutsDown(_) => true
  }

  /** The server's send loop: one attempt per listed connection except `skip`. */
  function Broadcast(s: State, e: Event, skip: Option<ClientId>, throwing: set<ClientId>): ClientId -> Queue {
    d =>
      if d in s.links.connections && skip != Some(d) && Accepts(d in s.links.shutDown, d in throwing)
      then s.down(d) + [e] else s.down(d)
  }

  /** The list after the loop: connections whose attempt threw are removed. */
  function Remaining(s: State, skip: Option<ClientId>, throwing: set<ClientId>): set<ClientId> {
    set d | d in s.links.connections && (skip == Some(d) || d in s.links.shutDown || d !in throwing)
  }

  /** First half of publishing: the event is numbered and handed to the local sinks. */
  function AfterPublish(s: State, o: Informer, payload: nat): State {
    var e := Event(o, |s.published(o)|, payload);
    s.(published := Put(s.published, o, s.published(o) + [e]),
       delivered := Put(s.delivered, o.home, s.delivered(o.home) + [e]),
       half := Put(s.half, o, Some(e)))
  }

  /** Second half in the server process: one attempt per connection. */
  function AfterSendDown(s: State, o: Informer, throwing: set<ClientId>): State
    requires s.half(o).Some?
  {
    s.(half := Put(s.half, o, None), down := Broadcast(s, s.half(o).value, None, throwing),
       links := s.links.(connections := Remaining(s, None, throwing)))
  }

  /** Second half in a client process: one attempt on its connection, if it still lists it. */
  function AfterSendUp(s: State, o: Informer, throwing: set<ClientId>): State
    requires s.half(o).Some? && o.home.Client?
  {
    var c, e, rest := o.home.id, s.half(o).value, Put(s.half, o, None);
    if c !in s.links.linked || c in s.links.shutUp then s.(half := rest)
    else if Accepts(c in s.links.shutUp, c in throwing) then s.(half := rest, up := Put(s.up, c, s.up(c) + [e]))
    else s.(half := rest, links := s.links.(linked := s.links.linked - {c}))
  }

  function AfterServerReceive(s: State, c: ClientId): State
    requires s.up(c) != []
  {
    var e := s.up(c)[0];
    s.(up := Put(s.up, c, s.up(c)[1..]), delivered := Put(s.delivered, Server, s.delivered(Server) + [e]),
       forwarding := Some((c, e)))
  }

  /** The received event goes to every connection except its own. */
  function AfterForward(s: State, throwing: set<ClientId>): State
    requires s.forwarding.Some?
  {
    var (c, e) := s.forwarding.value;
    s.(forwarding := None, down := Broadcast(s, e, Some(c), throwing),
       links := s.links.(connections := Remaining(s, Some(c), throwing)))
  }

  function AfterClientReceive(s: State, d: ClientId): State
    requires s.down(d) != []
  {
    s.(down := Put(s.down, d, s.down(d)[1..]),
       delivered := Put(s.delivered, Client(d), s.delivered(Client(d)) + [s.down(d)[0]]))
  }

  function Next(s: State, step: Step): State
    requires Enabled(s, step)
  {
    match step
    case Publish(o, payload) => AfterPublish(s, o, payload)
    case Send(o, throwing) => if o.home.Server? then AfterSendDown(s, o, throwing) else AfterSendUp(s, o, throwing)
    case ServerReceive(c) => AfterServerReceive(s, c)
    case Forward(throwing) => AfterForward(s, throwing)
    case ClientReceive(d) => AfterClientReceive(s, d)
    case Connect(c) => s.(links := s.links.(known := s.links.known + {c}, linked := s.links.linked + {c}))
    case Accept(c) =>
      s.(links := s.links.(accepted := s.links.accepted + {c}, connections := s.links.connections + {c}))
    case ServerDrops(c) => s.(links := s.links.(connections := s.links.connections - {c}))
    case ClientDrops(c) => s.(links := s.links.(linked := s.links.linked - {c}))
    case ServerShutsDown(c) => s.(links := s.links.(shutDown := s.links.shutDown + {c}))
    case ClientShutsDown(c) => s.(links := s.links.(shutUp := s.links.shutUp + {c}))
  }

  const INITIAL: State := State(_ => [], _ => [], _ => None, None, _ => [], _ => [], Links({}, {}, {}, {}, {}, {}))

  ghost predicate Run(states: seq<State>, steps: seq<Step>) {
    && |states| == |steps| + 1 && states[0] == INITIAL
    && forall i :: 0 <= i < |steps| ==> Enabled(states[i], steps[i]) && states[i + 1] == Next(states[i], steps[i])
  }

  // ---------------------------------------------------------------------
  // The life of one informer's events, seen from one client
  // ---------------------------------------------------------------------

  /**
   Everything about the events of one informer that matters to one client: what was
   published; what the informer's own process and the server have delivered; what is
   on its way to the server; what is half published or half forwarded; what the
   client has received or has waiting on its connection; and which links work.
   */
  datatype View = View(
    published: Queue, local: Queue, server: Queue, up: Queue, half: Queue, forwarding: Queue,
    got: Queue, down: Queue,
    remote: bool, foreign: bool, upOpen: bool, downOpen: bool, accepted: bool)

  function ViewOf(s: State, o: Informer, d: ClientId): View {
    View(s.published(o), Of(s.delivered(o.home), o), Of(s.delivered(Server), o),
         if o.home.Client? then Of(s.up(o.home.id), o) else [],
         if s.half(o).Some? then [s.half(o).value] else [],
         if s.forwarding.Some? then Of([s.forwarding.value.1], o) else [],
         if o.home == Client(d) then [] else Of(s.delivered(Client(d)), o), Of(s.down(d), o),
         o.home.Client?, o.home != Client(d),
         o.home.Client? && o.home.id in s.links.linked && o.home.id !in s.links.shutUp,
         d in s.links.connections && d !in s.links.shutDown, d in s.links.accepted)
  }

  /** How many events the server has offered to its connections. */
  function Offered(v: View): int {
    if v.remote then |v.server| - |v.forwarding| else |v.published| - |v.half|
  }

  /** What the client has received or has waiting on its connection, unless the informer is its own. */
  function Passed(v: View): Queue {
    v.got + v.down
  }

  /** `list` is a contiguous piece of `all`, placed by the number of its first event. */
  ghost predicate Piece(list: Queue, all: Queue) {
    list != [] ==> list[0].seqno + |list| <= |all| && list == all[list[0].seqno..list[0].seqno + |list|]
  }

  ghost predicate Numbered(list: Queue) {
    forall i :: 0 <= i < |list| ==> list[i].seqno == i
  }

  ghost predicate LastOf(one: Queue, list: Queue) {
    one == [] || (list != [] && one == [list[|list| - 1]])
  }

  ghost predicate Good(v: View) {
    && Numbered(v.published) && LastOf(v.half, v.published) && v.local == v.published
    && UpGood(v) && DownGood(v)
  }

  ghost predicate UpGood(v: View) {
    v.remote ==>
      && v.server + v.up <= v.published && LastOf(v.forwarding, v.server)
      && (v.upOpen ==> v.server + v.up + v.half == v.published)
  }

  ghost predicate DownGood(v: View) {
    && Piece(Passed(v), v.published)
    && (Passed(v) != [] ==>
          && v.accepted && Passed(v)[0].seqno + |Passed(v)| <= Offered(v)
          && (v.downOpen ==> Passed(v)[0].seqno + |Passed(v)| == Offered(v)))
  }

  /** Bookkeeping behind the views. */
  ghost predicate Routed(s: State) {
    && (forall c, i :: 0 <= i < |s.up(c)| ==> s.up(c)[i].origin.home == Client(c))
    && (forall d, i :: 0 <= i < |s.down(d)| ==> s.down(d)[i].origin.home != Client(d))
    && (forall o :: s.half(o).Some? ==> s.half(o).value.origin == o)
    && (forall o: Informer :: o.home.Client? && o.home.id !in s.links.known ==> s.published(o) == [])
    && (s.forwarding.Some? ==> s.forwarding.value.1.origin.home == Client(s.forwarding.value.0))
    && s.links.connections <= s.links.accepted
  }

  ghost predicate Inv(s: State) {
    Routed(s) && forall o, d :: Good(ViewOf(s, o, d))
  }

  // ---------------------------------------------------------------------
  // What the steps do to a view
  // ---------------------------------------------------------------------

  /** A link opened for an informer that has published nothing yet. */
  ghost predicate Opened(v: View, v': View) {
    v.published == [] && v' == v.(upOpen := v'.upOpen)
  }

  ghost predicate Listed(v: View, v': View) {
    !v.accepted && v' == v.(accepted := true, downOpen := v'.downOpen)
  }

  /** Links may fail; nothing else happens. */
  ghost predicate Weakened(v: View, v': View) {
    && (v'.upOpen ==> v.upOpen) && (v'.downOpen ==> v.downOpen)
    && v' == v.(upOpen := v'.upOpen, downOpen := v'.downOpen)
  }

  ghost predicate PublishedOne(v: View, v': View, e: Event) {
    && v.half == [] && e.seqno == |v.published|
    && v' == v.(published := v.published + [e], local := v.local + [e], half := [e], server := v'.server)
    && (v.remote ==> v'.server == v.server)
  }

  /** The half published event goes up, or the link is down from now on. */
  ghost predicate SentUp(v: View, v': View) {
    && v.remote && v.half != [] && v' == v.(half := [], up := v'.up, upOpen := v'.upOpen)
    && (v'.upOpen ==> v.upOpen)
    && ((v.upOpen && v'.up == v.up + v.half) || (v'.up == v.up && !v'.upOpen))
  }

  /** The server takes the next event from the queue towards it. */
  ghost predicate TakenUp(v: View, v': View, e: Event) {
    && v.remote && v.forwarding == [] && v.up == [e] + v'.up
    && v' == v.(up := v'.up, server := v.server + [e], forwarding := [e])
  }

  /** The client takes the next event from its connection. */
  ghost predicate TakenDown(v: View, v': View, e: Event) {
    v.down == [e] + v'.down && v' == v.(down := v'.down, got := v.got + [e])
  }

  /** The event offered goes down to the client, or the link is down from now on. */
  ghost predicate OfferedOne(v: View, v': View, e: Event) {
    && (if v.remote then v.forwarding == [e] && v' == v.(forwarding := [], down := v'.down, downOpen := v'.downOpen)
        else v.half == [e] && v' == v.(half := [], down := v'.down, downOpen := v'.downOpen))
    && (v'.downOpen ==> v.downOpen)
    && ((v.accepted && v.downOpen && v'.down == v.down + [e]) || (v'.down == v.down && !v'.downOpen))
  }

  /** The client is the informer's own process, so the event is not offered to it. */
  ghost predicate SentHome(v: View, v': View) {
    && !v.foreign && Passed(v) == [] && (v'.downOpen ==> v.downOpen)
    && v' == v.(forwarding := [], downOpen := v'.downOpen)
  }

  ghost predicate Moved(v: View, v': View) {
    || Opened(v, v') || Listed(v, v') || Weakened(v, v') || SentUp(v, v') || SentHome(v, v')
    || (exists e :: PublishedOne(v, v', e))
    || (exists e :: TakenUp(v, v', e))
    || (exists e :: TakenDown(v, v', e))
    || (exists e :: OfferedOne(v, v', e))
  }

  lemma PublishedOneGood(v: View, v': View, e: Event)
    requires Good(v) && PublishedOne(v, v', e)
    ensures Good(v')
  {
    if v.remote && v.upOpen {
      assert v.server + v.up + [] == v.published;
    }
    if Passed(v) != [] {
      var a, n := Passed(v)[0].seqno, |Passed(v)|;
      assert v'.published[a..a + n] == v.published[a..a + n];
    }
  }

  lemma SentUpGood(v: View, v': View)
    requires Good(v) && SentUp(v, v')
    ensures Good(v')
  {
  }

  lemma OfferedOneGood(v: View, v': View, e: Event)
    requires Good(v) && OfferedOne(v, v', e)
    ensures Good(v')
  {
    OfferedDownGood(v, v', e);
    hide DownGood;
  }

  lemma OfferedDownGood(v: View, v': View, e: Event)
    requires Good(v) && OfferedOne(v, v', e)
    ensures DownGood(v')
  {
    OfferedNext(v, e);
    assert Offered(v') == Offered(v) + 1 && v'.published == v.published && v'.accepted == v.accepted;
    assert if v'.down == v.down then Passed(v') == Passed(v) && !v'.downOpen
           else v.downOpen && v.accepted && Passed(v') == Passed(v) + [e] by {
      Reassociate(v.got, v.down, [e]);
    }
    if v'.down != v.down {
      OfferedPiece(v, e);
    }
  }

  lemma OfferedPiece(v: View, e: Event)
    requires Piece(Passed(v), v.published) && 0 <= e.seqno == Offered(v) < |v.published| && v.published[e.seqno] == e
    requires Passed(v) != [] ==> Passed(v)[0].seqno + |Passed(v)| == Offered(v)
    ensures Piece(Passed(v) + [e], v.published)
    ensures (Passed(v) + [e])[0].seqno + |Passed(v) + [e]| == Offered(v) + 1
  {
  }

  lemma OfferedNext(v: View, e: Event)
    requires Good(v) && if v.remote then v.forwarding == [e] else v.half == [e]
    ensures 0 <= e.seqno == Offered(v) < |v.published| && v.published[e.seqno] == e
  {
    if v.remote {
      assert v.server == v.published[..|v.server|];
    }
  }

  lemma TakenUpGood(v: View, v': View, e: Event)
    requires Good(v) && TakenUp(v, v', e)
    ensures Good(v')
  {
  }

  lemma TakenDownGood(v: View, v': View, e: Event)
    requires Good(v) && TakenDown(v, v', e)
    ensures Good(v')
  {
  }

  lemma OpenedOrListedGood(v: View, v': View)
    requires Good(v) && (Opened(v, v') || Listed(v, v') || Weakened(v, v') || SentHome(v, v'))
    ensures Good(v')
  {
  }

  lemma MovedGood(v: View, v': View)
    requires Good(v) && Moved(v, v')
    ensures Good(v')
  {
    if e :| PublishedOne(v, v', e) {
      PublishedOneGood(v, v', e);
    } else if e :| TakenUp(v, v', e) {
      TakenUpGood(v, v', e);
    } else if e :| TakenDown(v, v', e) {
      TakenDownGood(v, v', e);
    } else if e :| OfferedOne(v, v', e) {
      OfferedOneGood(v, v', e);
    } else if SentUp(v, v') {
      SentUpGood(v, v');
    } else {
      OpenedOrListedGood(v, v');
    }
  }

  // ---------------------------------------------------------------------
  // Every step moves every view
  // ---------------------------------------------------------------------

  lemma {:induction false} OfConcat(a: Queue, b: Queue, o: Informer)
    ensures Of(a + b, o) == Of(a, o) + Of(b, o)
  {
    if a == [] {
      assert a + b == b;
    } else {
      assert (a + b)[1..] == a[1..] + b;
      OfConcat(a[1..], b, o);
    }
  }

  lemma OfOne(e: Event, o: Informer)
    ensures Of([e], o) == if e.origin == o then [e] else []
  {
  }

  lemma OfAppend(list: Queue, e: Event, o: Informer)
    ensures Of(list + [e], o) == if e.origin == o then Of(list, o) + [e] else Of(list, o)
  {
    OfConcat(list, [e], o);
  }

  lemma OfHead(list: Queue, o: Informer)
    requires list != []
    ensures Of(list, o) == (if list[0].origin == o then [list[0]] else []) + Of(list[1..], o)
  {
  }

  lemma PublishMoves(s: State, o: Informer, payload: nat, x: Informer, d: ClientId)
    requires s.half(o).None?
    ensures var v, v' := ViewOf(s, x, d), ViewOf(AfterPublish(s, o, payload), x, d);
      if x == o then PublishedOne(v, v', Event(o, |s.published(o)|, payload)) else v' == v
  {
    var v, v' := ViewOf(s, x, d), ViewOf(AfterPublish(s, o, payload), x, d);
    var e := Event(o, |s.published(o)|, payload);
    OfAppend(s.delivered(o.home), e, x);
    assert x != o ==> v' == v;
  }

  lemma SendUpMoves(s: State, o: Informer, throwing: set<ClientId>, x: Informer, d: ClientId)
    requires s.half(o).Some? && o.home.Client? && s.half(o).value.origin == o
    ensures var v, v' := ViewOf(s, x, d), ViewOf(AfterSendUp(s, o, throwing), x, d);
      if x == o then SentUp(v, v') else Weakened(v, v')
  {
    hide Of;
    var v, v' := ViewOf(s, x, d), ViewOf(AfterSendUp(s, o, throwing), x, d);
    OfAppend(s.up(o.home.id), s.half(o).value, x);
  }

  /** What the send loop adds to the queue towards one client. */
  lemma BroadcastAt(s: State, e: Event, skip: Option<ClientId>, throwing: set<ClientId>, d: ClientId, o: Informer)
    ensures Of(Broadcast(s, e, skip, throwing)(d), o) == Of(s.down(d), o) +
      if d in s.links.connections && d !in s.links.shutDown && skip != Some(d) && d !in throwing && e.origin == o
      then [e] else []
  {
    var queue := s.down(d);
    OfAppend(queue, e, o);
  }

  lemma SendDownMoves(s: State, o: Informer, throwing: set<ClientId>, x: Informer, d: ClientId)
    requires s.half(o).Some? && o.home.Server? && s.half(o).value.origin == o && s.links.connections <= s.links.accepted
    ensures var v, v' := ViewOf(s, x, d), ViewOf(AfterSendDown(s, o, throwing), x, d);
      if x == o then OfferedOne(v, v', s.half(o).value) else Weakened(v, v')
  {
    BroadcastAt(s, s.half(o).value, None, throwing, d, x);
  }

  lemma ForwardMoves(s: State, throwing: set<ClientId>, x: Informer, d: ClientId)
    requires Routed(s) && s.forwarding.Some?
    ensures
      var (c, e) := s.forwarding.value;
      var v, v' := ViewOf(s, x, d), ViewOf(AfterForward(s, throwing), x, d);
      if x != e.origin then Weakened(v, v') else if d != c then OfferedOne(v, v', e) else SentHome(v, v')
  {
    var (c, e) := s.forwarding.value;
    BroadcastAt(s, e, Some(c), throwing, d, x);
    OfOne(e, x);
    if d == c && x == e.origin {
      OfForeign(s.down(d), x);
    }
  }

  lemma {:induction false} OfForeign(list: Queue, o: Informer)
    requires forall i :: 0 <= i < |list| ==> list[i].origin.home != o.home
    ensures Of(list, o) == []
  {
    if list != [] {
      OfForeign(list[1..], o);
    }
  }

  lemma ServerReceiveMoves(s: State, c: ClientId, x: Informer, d: ClientId)
    requires s.forwarding.None? && s.up(c) != [] && s.up(c)[0].origin.home == Client(c)
    ensures var v, v' := ViewOf(s, x, d), ViewOf(AfterServerReceive(s, c), x, d);
      if x == s.up(c)[0].origin then TakenUp(v, v', s.up(c)[0]) else v' == v
  {
    var e := s.up(c)[0];
    OfAppend(s.delivered(Server), e, x);
    OfHead(s.up(c), x);
    OfOne(e, x);
  }

  lemma ClientReceiveMoves(s: State, d0: ClientId, x: Informer, d: ClientId)
    requires s.down(d0) != [] && s.down(d0)[0].origin.home != Client(d0)
    ensures var v, v' := ViewOf(s, x, d), ViewOf(AfterClientReceive(s, d0), x, d);
      if x == s.down(d0)[0].origin && d == d0 then TakenDown(v, v', s.down(d0)[0]) else v' == v
  {
    hide Of;
    var e := s.down(d0)[0];
    OfAppend(s.delivered(Client(d0)), e, x);
    OfHead(s.down(d0), x);
  }

  lemma StepMoves(s: State, step: Step, x: Informer, d: ClientId)
    requires Routed(s) && Enabled(s, step)
    ensures Moved(ViewOf(s, x, d), ViewOf(Next(s, step), x, d))
  {
    hide Of;
    hide ViewOf;
    match step
    case Publish(o, payload) => PublishMoves(s, o, payload, x, d);
    case Send(o, throwing) =>
      if o.home.Client? { SendUpMoves(s, o, throwing, x, d); } else { SendDownMoves(s, o, throwing, x, d); }
    case ServerReceive(c) =>
      ServerReceiveMoves(s, c, x, d);
    case Forward(throwing) => ForwardMoves(s, throwing, x, d);
    case ClientReceive(d0) =>
      ClientReceiveMoves(s, d0, x, d);
    case _ => LinkMoves(s, step, x, d);
  }

  /** Connects, failures and shutdowns move no events. */
  lemma LinkMoves(s: State, step: Step, x: Informer, d: ClientId)
    requires Routed(s) && Enabled(s, step)
    requires !step.Publish? && !step.Send? && !step.ServerReceive? && !step.Forward? && !step.ClientReceive?
    ensures var v, v' := ViewOf(s, x, d), ViewOf(Next(s, step), x, d);
      Opened(v, v') || Listed(v, v') || Weakened(v, v')
  {
    hide Of;
    var v, v' := ViewOf(s, x, d), ViewOf(Next(s, step), x, d);
    if step.Connect? && x.home == Client(step.client) {
      assert Opened(v, v');
    } else if step.Accept? && d == step.client {
      assert Listed(v, v');
    } else {
      assert Weakened(v, v');
    }
  }

  lemma BroadcastRouted(s: State, e: Event, skip: Option<ClientId>, throwing: set<ClientId>, d: ClientId)
    requires Routed(s) && (e.origin.home == Client(d) ==> skip == Some(d))
    ensures forall i :: 0 <= i < |Broadcast(s, e, skip, throwing)(d)| ==>
      Broadcast(s, e, skip, throwing)(d)[i].origin.home != Client(d)
  {
  }

  lemma SendUpRouted(s: State, o: Informer, throwing: set<ClientId>)
    requires Routed(s) && s.half(o).Some? && o.home.Client?
    ensures Routed(AfterSendUp(s, o, throwing))
  {
  }

  lemma ServerReceiveRouted(s: State, c: ClientId)
    requires Routed(s) && s.up(c) != []
    ensures s.up(c)[0].origin.home == Client(c) && Routed(AfterServerReceive(s, c))
  {
  }

  lemma ClientReceiveRouted(s: State, d: ClientId)
    requires Routed(s) && s.down(d) != []
    ensures s.down(d)[0].origin.home != Client(d) && Routed(AfterClientReceive(s, d))
  {
  }

  lemma StepRouted(s: State, step: Step)
    requires Routed(s) && Enabled(s, step)
    ensures Routed(Next(s, step))
  {
    match step
    case Send(o, throwing) =>
      var e := s.half(o).value;
      if o.home.Client? {
        SendUpRouted(s, o, throwing);
      } else {
        forall d { BroadcastRouted(s, e, None, throwing, d); }
      }
    case ServerReceive(c) => ServerReceiveRouted(s, c);
    case Forward(throwing) =>
      var (c, e) := s.forwarding.value;
      forall d { BroadcastRouted(s, e, Some(c), throwing, d); }
    case ClientReceive(d) => ClientReceiveRouted(s, d);
    case _ =>
  }

  lemma StepKeeps(s: State, step: Step)
    requires Inv(s) && Enabled(s, step)
    ensures Inv(Next(s, step))
  {
    StepRouted(s, step);
    forall x, d
      ensures Good(ViewOf(Next(s, step), x, d))
    {
      assert Good(ViewOf(s, x, d));
      StepMoves(s, step, x, d);
      MovedGood(ViewOf(s, x, d), ViewOf(Next(s, step), x, d));
    }
  }

  lemma InitialInv()
    ensures Inv(INITIAL)
  {
  }

  lemma {:induction false} RunKeeps(states: seq<State>, steps: seq<Step>, n: nat)
    requires Run(states, steps) && n < |states|
    ensures Inv(states[n])
  {
    if n == 0 {
      InitialInv();
    } else {
      RunKeeps(states, steps, n - 1);
      StepKeeps(states[n - 1], steps[n - 1]);
    }
  }

  // ---------------------------------------------------------------------
  // Ordering and at-most-once delivery, whatever happens to connections
  // ---------------------------------------------------------------------

  lemma PiecePrefix(a: Queue, b: Queue, all: Queue)
    requires Piece(a + b, all)
    ensures Piece(a, all)
  {
    if a != [] {
      var k := a[0].seqno;
      assert (a + b)[0] == a[0];
      assert a == (a + b)[..|a|] == all[k..k + |a + b|][..|a|] == all[k..k + |a|];
    }
  }

  /**
   In every state of every run, with connections coming, failing, shutting down and
   going: each process has delivered a contiguous, in-order piece of what each
   informer published; its own process has all of it, the server a beginning of it.
   */
  lemma DeliveredPieces(states: seq<State>, steps: seq<Step>, n: nat, o: Informer, q: Process)
    requires Run(states, steps) && n < |states|
    ensures Numbered(states[n].published(o))
    ensures Piece(Of(states[n].delivered(q), o), states[n].published(o))
    ensures q == o.home ==> Of(states[n].delivered(q), o) == states[n].published(o)
    ensures q == Server ==> Of(states[n].delivered(q), o) <= states[n].published(o)
  {
    hide Of;
    var s := states[n];
    RunKeeps(states, steps, n);
    var d := if q.Client? then q.id else 0;
    var v := ViewOf(s, o, d);
    assert Good(v);
    if q == Server && v.remote {
      assert v.server <= v.server + v.up;
    } else if q != o.home && q != Server {
      PiecePrefix(v.got, v.down, v.published);
    }
  }

  lemma OfSplit(list: Queue, i: nat, o: Informer)
    requires i < |list| && list[i].origin == o
    ensures Of(list, o) == Of(list[..i], o) + [list[i]] + Of(list[i + 1..], o)
  {
    assert list == list[..i] + (list[i..i + 1] + list[i + 1..]);
    OfConcat(list[..i], list[i..i + 1] + list[i + 1..], o);
    OfConcat(list[i..i + 1], list[i + 1..], o);
    assert list[i..i + 1] == [list[i]];
    OfOne(list[i], o);
    Reassociate(Of(list[..i], o), [list[i]], Of(list[i + 1..], o));
  }

  lemma {:induction false} OfContains(list: Queue, i: nat, o: Informer)
    requires i < |list| && list[i].origin == o
    ensures list[i] in Of(list, o)
  {
    OfSplit(list, i, o);
    assert list[i] in Of(list[..i], o) + [list[i]];
  }

  /** No process delivers an event twice, and no event is put on a connection to the process it came from. */
  lemma AtMostOnce(states: seq<State>, steps: seq<Step>, n: nat, q: Process, d: ClientId)
    requires Run(states, steps) && n < |states|
    ensures forall i, j :: 0 <= i < j < |states[n].delivered(q)| ==>
      states[n].delivered(q)[i] != states[n].delivered(q)[j]
    ensures forall i :: 0 <= i < |states[n].down(d)| ==> states[n].down(d)[i].origin.home != Client(d)
  {
    var list := states[n].delivered(q);
    RunKeeps(states, steps, n);
    forall i, j | 0 <= i < j < |list|
      ensures list[i] != list[j]
    {
      if list[i] == list[j] {
        var o := list[i].origin;
        DeliveredPieces(states, steps, n, o, q);
        OfSplit(list, i, o);
        var rest := list[i + 1..];
        assert rest[j - i - 1] == list[j];
        OfContains(rest, j - i - 1, o);
        PieceIncreases(Of(list[..i], o), list[i], Of(rest, o), states[n].published(o));
      }
    }
  }

  lemma PieceIncreases(before: Queue, e: Event, after: Queue, all: Queue)
    requires Numbered(all) && Piece(before + [e] + after, all)
    ensures e !in after
  {
    var list := before + [e] + after;
    var k := list[0].seqno;
    forall i | 0 <= i < |after|
      ensures after[i].seqno == k + |before| + 1 + i
    {
      assert after[i] == list[|before| + 1 + i] == all[k + |before| + 1 + i];
    }
    assert e == list[|before|] == all[k + |before|];
  }

  // ---------------------------------------------------------------------
  // Conservation with fixed membership
  // ---------------------------------------------------------------------

  /** All members connected and accepted, nothing published yet. */
  function Assembled(members: set<ClientId>): State {
    INITIAL.(links := Links(members, {}, members, {}, members, members))
  }

  /** A step that neither changes the membership nor meets a failing socket. */
  predicate Steady(step: Step) {
    || step.Publish? || step.ServerReceive? || step.ClientReceive?
    || (step.Send? && step.throwing == {}) || (step.Forward? && step.throwing == {})
  }

  ghost predicate SteadyRun(members: set<ClientId>, states: seq<State>, steps: seq<Step>) {
    && |states| == |steps| + 1 && states[0] == Assembled(members)
    && forall i :: 0 <= i < |steps| ==>
         Steady(steps[i]) && Enabled(states[i], steps[i]) && states[i + 1] == Next(states[i], steps[i])
  }

  ghost predicate Conserved(v: View) {
    && (v.accepted ==> v.downOpen) && (v.remote ==> v.upOpen)
    && v.local == v.published
    && (v.remote ==> v.server + v.up + v.half == v.published)
    && (v.accepted && v.foreign && v.remote ==> v.got + v.down + v.forwarding == v.server)
    && (v.accepted && v.foreign && !v.remote ==> v.got + v.down + v.half == v.published)
  }

  lemma MovedConserved(v: View, v': View)
    requires Conserved(v) && Moved(v, v')
    requires v'.upOpen == v.upOpen && v'.downOpen == v.downOpen && v'.accepted == v.accepted
    ensures Conserved(v')
  {
    if e :| PublishedOne(v, v', e) {
      assert v.server + v.up + [] == v.server + v.up;
      assert v.got + v.down + [] == v.got + v.down;
    } else if SentUp(v, v') {
      Reassociate(v.server, v.up, v.half);
    } else if e :| TakenUp(v, v', e) {
      Reassociate(v.server, [e], v'.up);
    } else if e :| TakenDown(v, v', e) {
      Reassociate(v.got, [e], v'.down);
    } else if e :| OfferedOne(v, v', e) {
      Reassociate(v.got, v.down, [e]);
    }
  }

  lemma SteadyLinks(s: State, step: Step)
    requires Enabled(s, step) && Steady(step)
    ensures Next(s, step).links == s.links
  {
  }

  lemma {:induction false} SteadyKeeps(
    members: set<ClientId>, states: seq<State>, steps: seq<Step>, n: nat, o: Informer, d: ClientId)
    requires SteadyRun(members, states, steps) && n < |states|
    requires o.home.Client? ==> o.home.id in members
    ensures Routed(states[n]) && states[n].links == Assembled(members).links
    ensures Conserved(ViewOf(states[n], o, d))
  {
    if n > 0 {
      SteadyKeeps(members, states, steps, n - 1, o, d);
      var s, step := states[n - 1], steps[n - 1];
      StepRouted(s, step);
      SteadyLinks(s, step);
      StepMoves(s, step, o, d);
      MovedConserved(ViewOf(s, o, d), ViewOf(states[n], o, d));
    }
  }

  /** What is still on its way from an informer to a process, nearest to the process first. */
  function InTransit(s: State, o: Informer, q: Process): Queue {
    var half := if s.half(o).Some? then [s.half(o).value] else [];
    var up := if o.home.Client? then Of(s.up(o.home.id), o) else [];
    var forwarding := if s.forwarding.Some? then Of([s.forwarding.value.1], o) else [];
    if q == o.home then []
    else if q == Server then up + half
    else if o.home == Server then Of(s.down(q.id), o) + half
    else Of(s.down(q.id), o) + forwarding + up + half
  }

  /**
   With fixed membership nothing is lost, duplicated or reordered: what an informer
   has published is, in this order, what a process has delivered and what is still
   on its way to it.
   */
  lemma Conservation(
    members: set<ClientId>, states: seq<State>, steps: seq<Step>, n: nat, o: Informer, q: Process)
    requires SteadyRun(members, states, steps) && n < |states|
    requires (q.Client? ==> q.id in members) && (o.home.Client? ==> o.home.id in members)
    ensures Of(states[n].delivered(q), o) + InTransit(states[n], o, q) == states[n].published(o)
  {
    var d := if q.Client? then q.id else 0;
    SteadyKeeps(members, states, steps, n, o, d);
    var v := ViewOf(states[n], o, d);
    if q == o.home {
    } else if q == Server {
      Reassociate(v.server, v.up, v.half);
    } else if o.home == Server {
      Reassociate(v.got, v.down, v.half);
    } else {
      Reassociate(v.got, v.down, v.forwarding);
      Reassociate(v.got, v.down + v.forwarding, v.up);
      Reassociate(v.got, v.down + v.forwarding + v.up, v.half);
    }
  }

  /** Once nothing is on its way, every process has delivered everything, in the order published. */
  lemma EverythingArrives(
    members: set<ClientId>, states: seq<State>, steps: seq<Step>, n: nat, o: Informer, q: Process)
    requires SteadyRun(members, states, steps) && n < |states|
    requires (q.Client? ==> q.id in members) && (o.home.Client? ==> o.home.id in members)
    ensures Of(states[n].delivered(q), o) <= states[n].published(o)
    ensures InTransit(states[n], o, q) == [] <==> Of(states[n].delivered(q), o) == states[n].published(o)
  {
    Conservation(members, states, steps, n, o, q);
  }

  // ---------------------------------------------------------------------
  // The runs above exist
  // ---------------------------------------------------------------------

  lemma RunExtended(states: seq<State>, steps: seq<Step>, step: Step)
    requires Run(states, steps) && Enabled(states[|steps|], step)
    ensures Run(states + [Next(states[|steps|], step)], steps + [step])
  {
    hide Next;
    hide Enabled;
    var longer, more := states + [Next(states[|steps|], step)], steps + [step];
    forall i | 0 <= i < |more|
      ensures Enabled(longer[i], more[i]) && longer[i + 1] == Next(longer[i], more[i])
    {
      if i < |steps| {
        assert Enabled(states[i], steps[i]);
      }
    }
  }

  /** One more member joins: it connects, and the server accepts its connection. */
  lemma Joined(members: set<ClientId>, c: ClientId)
    requires c !in members
    ensures Enabled(Assembled(members), Connect(c))
    ensures Enabled(Next(Assembled(members), Connect(c)), Accept(c))
    ensures Next(Next(Assembled(members), Connect(c)), Accept(c)) == Assembled(members + {c})
  {
  }

  /** Every membership comes about by connecting and accepting, so steady runs continue runs from the beginning. */
  lemma AssembledReachable(members: set<ClientId>) returns (states: seq<State>, steps: seq<Step>)
    ensures Run(states, steps) && states[|steps|] == Assembled(members)
    ensures forall step :: step in steps ==> step.Connect? || step.Accept?
  {
    var list := Listing(members);
    states, steps := JoinAll(list);
  }

  lemma {:induction false} JoinAll(list: seq<ClientId>) returns (states: seq<State>, steps: seq<Step>)
    ensures Run(states, steps) && states[|steps|] == Assembled(Elements(list))
    ensures forall step :: step in steps ==> step.Connect? || step.Accept?
  {
    if list == [] {
      states, steps := [INITIAL], [];
      assert Elements(list) == {} && Assembled({}) == INITIAL;
    } else {
      var front, c := list[..|list| - 1], list[|list| - 1];
      states, steps := JoinAll(front);
      assert list == front + [c];
      assert Elements(list) == Elements(front) + {c};
      if c in front {
        assert Elements(list) == Elements(front);
      } else {
        Joined(Elements(front), c);
        var connected := Next(Assembled(Elements(front)), Connect(c));
        RunExtended(states, steps, Connect(c));
        states, steps := states + [connected], steps + [Connect(c)];
        RunExtended(states, steps, Accept(c));
        states, steps := states + [Assembled(Elements(list))], steps + [Accept(c)];
      }
    }
  }

  /** As long as something is on its way to a process, a step that is not a publication is possible. */
  lemma Progress(s: State, o: Informer, q: Process)
    requires InTransit(s, o, q) != []
    ensures exists step :: Steady(step) && !step.Publish? && Enabled(s, step)
  {
    if s.forwarding.Some? {
      assert Enabled(s, Forward({}));
    } else if s.half(o).Some? {
      assert Enabled(s, Send(o, {}));
    } else if o.home.Client? && Of(s.up(o.home.id), o) != [] {
      assert Enabled(s, ServerReceive(o.home.id));
    } else {
      assert Enabled(s, ClientReceive(q.id));
    }
  }

  /** The way of one event from one client over the server to another, from the beginning. */
  lemma EventTravels(c: ClientId, d: ClientId, number: nat, payload: nat)
    returns (states: seq<State>, steps: seq<Step>)
    requires c != d
    ensures var o := Informer(Client(c), number);
      steps == [Publish(o, payload), Send(o, {}), ServerReceive(c), Forward({}), ClientReceive(d)]
    ensures SteadyRun({c, d}, states, steps)
    ensures var e := Event(Informer(Client(c), number), 0, payload);
      && states[1].delivered(Client(c)) == [e] && states[1].delivered(Server) == states[1].delivered(Client(d)) == []
      && states[2].up(c) == [e] && states[3].delivered(Server) == [e] && states[4].down(d) == [e]
      && states[5].delivered(Client(d)) == [e] && states[5].delivered(Client(c)) == [e]
      && states[4].down(c) == states[5].down(d) == states[5].up(c) == []
  {
    var o := Informer(Client(c), number);
    var s0 := Assembled({c, d});
    var s1 := AfterPublish(s0, o, payload);
    var s2 := AfterSendUp(s1, o, {});
    var s3 := AfterServerReceive(s2, c);
    var s4 := AfterForward(s3, {});
    var s5 := AfterClientReceive(s4, d);
    states := [s0, s1, s2, s3, s4, s5];
    steps := [Publish(o, payload), Send(o, {}), ServerReceive(c), Forward({}), ClientReceive(d)];
  }
}
