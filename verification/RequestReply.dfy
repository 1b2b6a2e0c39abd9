/**
 Request and reply over one method scope: any number of clients and servers, every
 message reaching any of them any number of times, in any order, or never.
 */
module RequestReply {
  import opened Wrappers
  import opened Bytes
  import opened Ordering
  import opened Scopes
  import opened Events
  import opened Informers

  const REQUEST: string := "REQUEST"
  const REPLY: string := "REPLY"
  const ERROR_INFO: string := "rsb:error?"
  const STRING_TYPE: string := "std::string"

  // ---------------------------------------------------------------------
  // One client
  // ---------------------------------------------------------------------

  datatype Outcome = Unset | Value(reply: EventValue) | Error(text: seq<byte>)

  /**
   The client side of one method. Publishes are numbered from zero; `futures` holds the
   outcome of every call that returned, `inprogress` the number waited for under an id.
   */
  datatype RawClient = Client(requests: seq<EventValue>, futures: map<nat, Outcome>, inprogress: map<EventId, nat>)

  type Client = c: RawClient | forall id :: id in c.inprogress ==> c.inprogress[id] in c.futures
    witness RawClient.Client([], map[], map[])

  const NEW_CLIENT: Client := Client([], map[], map[])

  function Request(me: Uuid, scope: Scope, event: EventValue, n: nat): EventValue {
    event.(scope := scope, methodName := REQUEST, id := Some(IdOf(me, n)))
  }

  /** A call whose publish returned (or threw); an id already waited for keeps its old number. */
  function Called(c: Client, me: Uuid, scope: Scope, event: EventValue, throws: bool): Client {
    var n, id := |c.requests|, IdOf(me, |c.requests|);
    var requests := c.requests + [Request(me, scope, event, n)];
    if event.dataType == "" then c
    else if throws then c.(requests := requests)
    else
      Client(requests, c.futures[n := Unset], if id in c.inprogress then c.inprogress else c.inprogress[id := n])
  }

  function Ascii(text: string): seq<byte> {
    seq(|text|, i requires 0 <= i < |text| => (text[i] as int % 256) as byte)
  }

  /** The message of the exception a caller gets; it does not name the method yet. */
  function ErrorText(data: seq<byte>): (text: seq<byte>)
    ensures |text| == 56 + |data| && text[56..] == data
  {
    Ascii("Error calling remote method 'TODO: obtain method name': ") + data
  }

  /** What a reply makes of the future it answers. */
  function OutcomeOf(reply: EventValue): Outcome {
    if ERROR_INFO in reply.userInfos then Error(ErrorText(reply.data)) else Value(reply)
  }

  /** The debug assertion made on a reply that completes a future. */
  predicate Asserted(reply: EventValue) {
    ERROR_INFO in reply.userInfos ==> reply.dataType == STRING_TYPE
  }

  /** The client looks at the smallest cause only. */
  ghost function FirstCause(reply: EventValue): (id: EventId)
    requires reply.causes != {}
    ensures Least(id, reply.causes, IdLess)
  {
    IdOrder();
    SmallestOf(reply.causes, IdLess)
  }

  lemma FirstCauseIs(reply: EventValue, id: EventId)
    requires Least(id, reply.causes, IdLess)
    ensures FirstCause(reply) == id
  {
    IdOrder();
    LeastUnique(id, FirstCause(reply), reply.causes, IdLess);
  }

  ghost predicate Matches(c: Client, reply: EventValue) {
    reply.causes != {} && FirstCause(reply) in c.inprogress
  }

  /** Handling a reply. */
  ghost function Handled(c: Client, reply: EventValue): Client {
    if !Matches(c, reply) then c
    else
      var id := FirstCause(reply);
      c.(futures := c.futures[c.inprogress[id] := OutcomeOf(reply)], inprogress := c.inprogress - {id})
  }

  // ---------------------------------------------------------------------
  // One server
  // ---------------------------------------------------------------------

  /** A typed callback yields type and data, an event callback a whole event. */
  datatype CallbackResult =
    | Threw(what: seq<byte>)
    | Typed(dataType: string, data: seq<byte>)
    | Returned(event: EventValue)

  function Blank(now: Timestamp): EventValue {
    EventValue(None, ROOT, "", "", {}, [], now, 0, 0, map[], map[])
  }

  /** The reply before it is addressed. */
  function Produced(result: CallbackResult, now: Timestamp): EventValue {
    match result
    case Threw(what) => Blank(now).(dataType := STRING_TYPE, data := what, userInfos := map[ERROR_INFO := ""])
    case Typed(dataType, data) => Blank(now).(dataType := dataType, data := data)
    case Returned(event) => event
  }

  /** The reply to a request, with the request among its causes. */
  function Reply(me: Uuid, scope: Scope, cause: EventId, result: CallbackResult, now: Timestamp, n: nat): EventValue {
    var r := Produced(result, now);
    r.(scope := scope, methodName := REPLY, causes := r.causes + {cause}, id := Some(IdOf(me, n)))
  }

  /** The server publishes a reply to the request. */
  predicate Replies(expected: Option<string>, request: EventValue, result: CallbackResult, now: Timestamp) {
    && (expected.Some? ==> request.dataType == expected.value)
    && request.id.Some?
    && Produced(result, now).dataType != ""
  }

  /** When there is a reply, by the result of the callback. */
  lemma RepliesIff(expected: Option<string>, request: EventValue, result: CallbackResult, now: Timestamp)
    ensures Replies(expected, request, result, now) <==>
      && (expected.Some? ==> request.dataType == expected.value) && request.id.Some?
      && (result.Typed? ==> result.dataType != "") && (result.Returned? ==> result.event.dataType != "")
  {
  }

  /** What the reply carries, field by field. */
  ghost predicate Carries(reply: EventValue, scope: Scope, cause: EventId, result: CallbackResult) {
    && reply.methodName == "REPLY" && reply.scope == scope
    && match result
       case Threw(what) =>
         && reply.dataType == "std::string" && reply.data == what
         && reply.userInfos == map["rsb:error?" := ""] && reply.causes == {cause}
       case Typed(dataType, data) =>
         && reply.dataType == dataType && reply.data == data
         && reply.userInfos == map[] && reply.causes == {cause}
       case Returned(event) =>
         && reply.dataType == event.dataType && reply.data == event.data
         && reply.userInfos == event.userInfos && reply.userTimes == event.userTimes
         && reply.causes == event.causes + {cause}
  }

  lemma ReplyCarries(me: Uuid, scope: Scope, cause: EventId, result: CallbackResult, now: Timestamp, n: nat)
    ensures Carries(Reply(me, scope, cause, result, now, n), scope, cause, result)
  {
  }

  // ---------------------------------------------------------------------
  // The protocol
  // ---------------------------------------------------------------------

  /** A reply and what it was the reply to. */
  datatype Answer = Answer(request: EventValue, result: CallbackResult, reply: EventValue)

  datatype Step =
    | Call(client: Uuid, event: EventValue, throws: bool, visible: bool)
    | Serve(server: Uuid, request: EventValue, expected: Option<string>, result: CallbackResult, now: Timestamp,
            visible: bool)
    | Deliver(client: Uuid, reply: EventValue)

  /** `wire` holds every message published so far; it loses nothing but need not deliver. */
  datatype State = State(clients: Uuid -> Client, replies: Uuid -> nat, wire: set<EventValue>, answers: set<Answer>)

  const INITIAL: State := State(_ => NEW_CLIENT, _ => 0, {}, {})

  function With<V>(f: Uuid -> V, key: Uuid, value: V): Uuid -> V {
    (k: Uuid) => if k == key then value else f(k)
  }

  /** The method filters: a server sees requests, a client replies. */
  predicate Enabled(st: State, step: Step) {
    match step
    case Call(_, _, _, _) => true
    case Serve(_, request, _, _, _, _) => request in st.wire && request.methodName == REQUEST
    case Deliver(_, reply) => reply in st.wire && reply.methodName == REPLY
  }

  function AfterCall(st: State, scope: Scope, p: Uuid, event: EventValue, throws: bool, visible: bool): State {
    var c := st.clients(p);
    st.(clients := With<Client>(st.clients, p, Called(c, p, scope, event, throws)),
        wire := if event.dataType == "" || (throws && !visible) then st.wire
                else st.wire + {Request(p, scope, event, |c.requests|)})
  }

  function AfterServe(st: State, scope: Scope, p: Uuid, request: EventValue, expected: Option<string>,
                      result: CallbackResult, now: Timestamp, visible: bool): State {
    if !Replies(expected, request, result, now) then st
    else
      var reply := Reply(p, scope, request.id.value, result, now, st.replies(p));
      st.(replies := With<nat>(st.replies, p, st.replies(p) + 1),
          wire := if visible then st.wire + {reply} else st.wire,
          answers := st.answers + {Answer(request, result, reply)})
  }

  ghost function AfterDeliver(st: State, p: Uuid, reply: EventValue): State {
    st.(clients := With<Client>(st.clients, p, Handled(st.clients(p), reply)))
  }

  ghost function Next(st: State, scope: Scope, step: Step): State {
    match step
    case Call(p, event, throws, visible) => AfterCall(st, scope, p, event, throws, visible)
    case Serve(p, request, expected, result, now, visible) =>
      AfterServe(st, scope, p, request, expected, result, now, visible)
    case Deliver(p, reply) => AfterDeliver(st, p, reply)
  }

  /** A step that is not enabled does not happen. */
  ghost function Run(st: State, scope: Scope, steps: seq<Step>): State
    decreases |steps|
  {
    if steps == [] then st
    else Run(if Enabled(st, steps[0]) then Next(st, scope, steps[0]) else st, scope, steps[1..])
  }

  // ---------------------------------------------------------------------
  // The invariant
  // ---------------------------------------------------------------------

  /** A future is waited for under the id of its own call until it is completed. */
  ghost predicate Waiting(c: Client, me: Uuid) {
    && (forall n :: n in c.futures ==> n < |c.requests|)
    && (forall id :: id in c.inprogress ==> id == IdOf(me, c.inprogress[id]) && c.futures[c.inprogress[id]] == Unset)
  }

  ghost predicate Numbered(c: Client, me: Uuid) {
    forall n :: 0 <= n < |c.requests| ==> c.requests[n].id == Some(IdOf(me, n)) && c.requests[n].methodName == REQUEST
  }

  /** Below 2^32 publishes, nothing that is unset is not waited for. */
  ghost predicate Registered(c: Client, me: Uuid) {
    |c.requests| <= TWO32 ==> forall n :: n in c.futures && c.futures[n] == Unset ==> IdOf(me, n) in c.inprogress
  }

  /** A completed future was completed by a reply on the wire whose smallest cause is its id. */
  ghost predicate Completed(c: Client, me: Uuid, wire: set<EventValue>) {
    forall n :: n in c.futures && c.futures[n] != Unset ==> CompletedBy(c.futures[n], IdOf(me, n), wire)
  }

  ghost predicate CompletedBy(outcome: Outcome, id: EventId, wire: set<EventValue>) {
    exists reply :: reply in wire && reply.methodName == REPLY && Least(id, reply.causes, IdLess) &&
      outcome == OutcomeOf(reply)
  }

  ghost predicate ClientInv(c: Client, me: Uuid, wire: set<EventValue>) {
    Waiting(c, me) && Numbered(c, me) && Registered(c, me) && Completed(c, me, wire)
  }

  /** A request on the wire is a request of its client; a reply is the reply of an answer. */
  ghost predicate Explained(st: State, m: EventValue) {
    && (m.methodName == REQUEST ==> m.id.Some? && m in st.clients(m.id.value.participantId).requests)
    && (m.methodName == REPLY ==> exists a :: a in st.answers && a.reply == m)
  }

  /** The reply carries exactly what the callback produced and the request as one more cause. */
  predicate Sound(a: Answer) {
    var r := Produced(a.result, 0);
    && a.request.methodName == REQUEST && a.request.id.Some?
    && a.reply.methodName == REPLY && a.reply.causes == r.causes + {a.request.id.value}
    && a.reply.dataType == r.dataType && a.reply.data == r.data && a.reply.userInfos == r.userInfos
  }

  ghost predicate Inv(st: State) {
    && (forall p: Uuid :: ClientInv(st.clients(p), p, st.wire))
    && (forall m :: m in st.wire ==> Explained(st, m))
    && (forall a :: a in st.answers ==> Sound(a) && a.request in st.wire)
  }

  /** The new number is not waited for as long as ids have not wrapped around. */
  lemma CallRegistered(c: Client, me: Uuid, scope: Scope, event: EventValue, throws: bool)
    requires Waiting(c, me) && Registered(c, me)
    ensures Waiting(Called(c, me, scope, event, throws), me)
    ensures Registered(Called(c, me, scope, event, throws), me)
  {
  }

  lemma CallCompletesNothing(c: Client, me: Uuid, scope: Scope, event: EventValue, throws: bool, wire: set<EventValue>)
    requires Waiting(c, me) && Completed(c, me, wire)
    ensures Completed(Called(c, me, scope, event, throws), me, wire)
  {
  }

  lemma CalledKeeps(c: Client, me: Uuid, scope: Scope, event: EventValue, throws: bool, wire: set<EventValue>)
    requires ClientInv(c, me, wire)
    ensures ClientInv(Called(c, me, scope, event, throws), me, wire)
  {
    CallRegistered(c, me, scope, event, throws);
    CallCompletesNothing(c, me, scope, event, throws, wire);
    hide Waiting;
    hide Registered;
    hide Completed;
  }

  lemma HandledWaits(c: Client, me: Uuid, reply: EventValue)
    requires Waiting(c, me) && Registered(c, me)
    ensures Waiting(Handled(c, reply), me) && Registered(Handled(c, reply), me)
  {
    hide FirstCause;
    var d := Handled(c, reply);
    if d != c {
      var k := c.inprogress[FirstCause(reply)];
      forall n | n in d.futures && d.futures[n] == Unset && |d.requests| <= TWO32
        ensures IdOf(me, n) in d.inprogress
      {
        assert n in c.futures && c.futures[n] == Unset && n != k;
        SameIdIff(me, n, me, k);
      }
      forall other | other in d.inprogress
        ensures d.futures[d.inprogress[other]] == Unset
      {
        assert d.inprogress[other] == c.inprogress[other] != k;
      }
    }
  }

  lemma HandledCompletes(c: Client, me: Uuid, reply: EventValue, wire: set<EventValue>)
    requires Waiting(c, me) && Completed(c, me, wire) && reply in wire && reply.methodName == REPLY
    ensures Completed(Handled(c, reply), me, wire)
  {
  }

  lemma HandledKeeps(c: Client, me: Uuid, reply: EventValue, wire: set<EventValue>)
    requires ClientInv(c, me, wire) && reply in wire && reply.methodName == REPLY
    ensures ClientInv(Handled(c, reply), me, wire)
  {
    HandledWaits(c, me, reply);
    HandledCompletes(c, me, reply, wire);
  }

  lemma MoreWire(c: Client, me: Uuid, wire: set<EventValue>, more: set<EventValue>)
    requires ClientInv(c, me, wire) && wire <= more
    ensures ClientInv(c, me, more)
  {
  }

  lemma CallKeeps(st: State, scope: Scope, p: Uuid, event: EventValue, throws: bool, visible: bool)
    requires Inv(st)
    ensures Inv(AfterCall(st, scope, p, event, throws, visible))
  {
    hide ClientInv;
    var next := AfterCall(st, scope, p, event, throws, visible);
    forall q: Uuid
      ensures ClientInv(next.clients(q), q, next.wire)
    {
      CalledKeeps(st.clients(p), p, scope, event, throws, st.wire);
      MoreWire(next.clients(q), q, st.wire, next.wire);
    }
    var c := st.clients(p);
    forall m | m in next.wire
      ensures Explained(next, m)
    {
      if m in st.wire {
        assert Explained(st, m);
        assert forall q: Uuid :: st.clients(q).requests <= next.clients(q).requests;
      } else {
        assert next.clients(p).requests[|c.requests|] == m;
      }
    }
  }

  lemma ServeKeeps(st: State, scope: Scope, p: Uuid, request: EventValue, expected: Option<string>,
                   result: CallbackResult, now: Timestamp, visible: bool)
    requires Inv(st) && request in st.wire && request.methodName == REQUEST
    ensures Inv(AfterServe(st, scope, p, request, expected, result, now, visible))
  {
    hide ClientInv;
    var next := AfterServe(st, scope, p, request, expected, result, now, visible);
    forall q: Uuid
      ensures ClientInv(next.clients(q), q, next.wire)
    {
      MoreWire(next.clients(q), q, st.wire, next.wire);
    }
    forall m | m in next.wire
      ensures Explained(next, m)
    {
      assert m in st.wire ==> Explained(st, m);
    }
  }

  lemma DeliverKeeps(st: State, p: Uuid, reply: EventValue)
    requires Inv(st) && reply in st.wire && reply.methodName == REPLY
    ensures Inv(AfterDeliver(st, p, reply))
  {
    hide ClientInv;
    HandledKeeps(st.clients(p), p, reply, st.wire);
    var next := AfterDeliver(st, p, reply);
    forall m | m in next.wire
      ensures Explained(next, m)
    {
      assert Explained(st, m);
    }
  }

  lemma StepKeeps(st: State, scope: Scope, step: Step)
    requires Inv(st) && Enabled(st, step)
    ensures Inv(Next(st, scope, step))
  {
    hide Inv;
    match step
    case Call(p, event, throws, visible) => CallKeeps(st, scope, p, event, throws, visible);
    case Serve(p, request, expected, result, now, visible) =>
      ServeKeeps(st, scope, p, request, expected, result, now, visible);
    case Deliver(p, reply) => DeliverKeeps(st, p, reply);
  }

  lemma {:induction false} RunKeeps(st: State, scope: Scope, steps: seq<Step>)
    requires Inv(st)
    ensures Inv(Run(st, scope, steps))
    decreases |steps|
  {
    hide Inv;
    hide Next;
    if steps != [] {
      if Enabled(st, steps[0]) {
        StepKeeps(st, scope, steps[0]);
        RunKeeps(Next(st, scope, steps[0]), scope, steps[1..]);
      } else {
        RunKeeps(st, scope, steps[1..]);
      }
    }
  }

  lemma InitialInv()
    ensures Inv(INITIAL)
  {
  }

  // ---------------------------------------------------------------------
  // What every run guarantees
  // ---------------------------------------------------------------------

  ghost function Reached(scope: Scope, steps: seq<Step>): (st: State)
    ensures Inv(st)
  {
    InitialInv();
    RunKeeps(INITIAL, scope, steps);
    Run(INITIAL, scope, steps)
  }

  /** Below 2^32 publishes, exactly the unanswered calls are waited for. */
  lemma PendingIsUnanswered(scope: Scope, steps: seq<Step>, p: Uuid, id: EventId)
    requires |Reached(scope, steps).clients(p).requests| <= TWO32
    ensures var c := Reached(scope, steps).clients(p);
      id in c.inprogress <==> exists n :: n in c.futures && c.futures[n] == Unset && id == IdOf(p, n)
  {
  }

  /** A future keeps its first outcome, whatever happens after. */
  lemma {:induction false} CompletedOnce(st: State, scope: Scope, steps: seq<Step>, p: Uuid, n: nat)
    requires Inv(st) && n in st.clients(p).futures && st.clients(p).futures[n] != Unset
    ensures var c := Run(st, scope, steps).clients(p);
      n in c.futures && c.futures[n] == st.clients(p).futures[n]
    decreases |steps|
  {
    if steps != [] {
      if Enabled(st, steps[0]) {
        StepKeeps(st, scope, steps[0]);
        ClientMoves(st, scope, steps[0], p);
        StepKeepsOutcome(st.clients(p), scope, steps[0], p, n);
        CompletedOnce(Next(st, scope, steps[0]), scope, steps[1..], p, n);
      } else {
        CompletedOnce(st, scope, steps[1..], p, n);
      }
    }
  }

  /** What a step does to one client. */
  ghost function ClientAfter(c: Client, scope: Scope, step: Step, p: Uuid): Client {
    match step
    case Call(q, event, throws, _) => if q == p then Called(c, p, scope, event, throws) else c
    case Serve(_, _, _, _, _, _) => c
    case Deliver(q, reply) => if q == p then Handled(c, reply) else c
  }

  lemma ClientMoves(st: State, scope: Scope, step: Step, p: Uuid)
    ensures Next(st, scope, step).clients(p) == ClientAfter(st.clients(p), scope, step, p)
  {
  }

  lemma StepKeepsOutcome(c: Client, scope: Scope, step: Step, p: Uuid, n: nat)
    requires Waiting(c, p) && n in c.futures && c.futures[n] != Unset
    ensures n in ClientAfter(c, scope, step, p).futures && ClientAfter(c, scope, step, p).futures[n] == c.futures[n]
  {
  }

  /** A reply completes the future waited for under its smallest cause, and touches no other. */
  lemma DeliveryCompletesIff(st: State, p: Uuid, reply: EventValue, n: nat)
    requires Inv(st) && n in st.clients(p).futures
    ensures var c, d := st.clients(p), AfterDeliver(st, p, reply).clients(p);
      && n in d.futures
      && (d.futures[n] != c.futures[n] <==>
            n in c.inprogress.Values && Least(IdOf(p, n), reply.causes, IdLess))
      && (d.futures[n] != c.futures[n] ==> d.futures[n] == OutcomeOf(reply))
  {
    var c := st.clients(p);
    assert Waiting(c, p);
    if n in c.inprogress.Values {
      var id :| id in c.inprogress && c.inprogress[id] == n;
      if Least(IdOf(p, n), reply.causes, IdLess) {
        FirstCauseIs(reply, IdOf(p, n));
      }
    }
  }

  /** The answer that completed a future. */
  lemma CompletedByAnswer(scope: Scope, steps: seq<Step>, p: Uuid, n: nat) returns (a: Answer)
    requires n in Reached(scope, steps).clients(p).futures
    requires Reached(scope, steps).clients(p).futures[n] != Unset
    ensures a in Reached(scope, steps).answers && Sound(a) && a.request in Reached(scope, steps).wire
    ensures Least(IdOf(p, n), a.reply.causes, IdLess)
    ensures Reached(scope, steps).clients(p).futures[n] == OutcomeOf(a.reply)
  {
    var st := Reached(scope, steps);
    var c := st.clients(p);
    assert ClientInv(c, p, st.wire);
    assert CompletedBy(c.futures[n], IdOf(p, n), st.wire);
    var reply :| reply in st.wire && reply.methodName == REPLY && Least(IdOf(p, n), reply.causes, IdLess) &&
      c.futures[n] == OutcomeOf(reply);
    assert Explained(st, reply);
    a :| a in st.answers && a.reply == reply;
  }

  /** Below 2^32 publishes an id names one request, so an answer to the id is an answer to the request. */
  lemma IdNamesRequest(st: State, p: Uuid, n: nat, request: EventValue)
    requires Inv(st) && |st.clients(p).requests| <= TWO32 && n < |st.clients(p).requests|
    requires request in st.wire && request.methodName == REQUEST
    ensures request.id == Some(IdOf(p, n)) <==> request == st.clients(p).requests[n]
  {
  }

  /** The callback threw, or an event callback returned an event with the error mark. */
  predicate MarkedAsError(result: CallbackResult) {
    result.Threw? || (result.Returned? && ERROR_INFO in result.event.userInfos)
  }

  lemma ResultShows(a: Answer)
    requires Sound(a)
    ensures !a.result.Returned? ==> a.reply.causes == {a.request.id.value}
    ensures OutcomeOf(a.reply).Error? <==> MarkedAsError(a.result)
    ensures a.result.Threw? ==> OutcomeOf(a.reply) == Error(ErrorText(a.result.what))
    ensures a.result.Typed? ==> OutcomeOf(a.reply) == Value(a.reply) && a.reply.data == a.result.data
    ensures Asserted(a.reply) <==>
      (a.result.Returned? && ERROR_INFO in a.result.event.userInfos ==> a.result.event.dataType == STRING_TYPE)
  {
    hide ErrorText;
  }

  /**
   Whenever the delivery of an answer changes a future, the answer is to the future's own
   request exactly when that request is the smallest cause of the reply, in particular
   whenever the callback adds no causes. The future then holds an error exactly when the
   callback threw or handed out an event marked as one.
   */
  lemma OwnAnswerIff(scope: Scope, steps: seq<Step>, p: Uuid, n: nat, a: Answer)
    requires a in Reached(scope, steps).answers && a.reply in Reached(scope, steps).wire
    requires |Reached(scope, steps).clients(p).requests| <= TWO32
    requires n in Reached(scope, steps).clients(p).futures
    requires AfterDeliver(Reached(scope, steps), p, a.reply).clients(p).futures[n]
          != Reached(scope, steps).clients(p).futures[n]
    ensures Reached(scope, steps).clients(p).futures[n] == Unset
    ensures AfterDeliver(Reached(scope, steps), p, a.reply).clients(p).futures[n] == OutcomeOf(a.reply)
    ensures n < |Reached(scope, steps).clients(p).requests| && a.request.id.Some?
    ensures a.request == Reached(scope, steps).clients(p).requests[n] <==>
      Least(a.request.id.value, a.reply.causes, IdLess)
    ensures !a.result.Returned? ==> a.request == Reached(scope, steps).clients(p).requests[n]
    ensures OutcomeOf(a.reply).Error? <==> MarkedAsError(a.result)
    ensures a.result.Threw? ==> OutcomeOf(a.reply) == Error(ErrorText(a.result.what))
    ensures a.result.Typed? ==> OutcomeOf(a.reply) == Value(a.reply) && a.reply.data == a.result.data
    ensures !a.result.Returned? ==> Asserted(a.reply)
  {
    var st := Reached(scope, steps);
    assert Waiting(st.clients(p), p) && Sound(a) && a.request in st.wire;
    ResultShows(a);
    DeliveryCompletesIff(st, p, a.reply, n);
    hide Inv;
    hide OutcomeOf;
    hide Sound;
    hide AfterDeliver;
    IdNamesRequest(st, p, n, a.request);
    IdOrder();
    var id := a.request.id.value;
    if Least(id, a.reply.causes, IdLess) {
      LeastUnique(id, IdOf(p, n), a.reply.causes, IdLess);
    }
  }

  /**
   Delivering an answer to a pending call completes the call with it if and only if the
   request is the smallest cause of the reply, in particular for every typed callback.
   */
  lemma AnswerCompletesIff(scope: Scope, steps: seq<Step>, p: Uuid, n: nat, a: Answer)
    requires a in Reached(scope, steps).answers && a.reply in Reached(scope, steps).wire
    requires |Reached(scope, steps).clients(p).requests| <= TWO32
    requires n in Reached(scope, steps).clients(p).futures
    requires Reached(scope, steps).clients(p).futures[n] == Unset
    requires n < |Reached(scope, steps).clients(p).requests|
    requires a.request == Reached(scope, steps).clients(p).requests[n]
    ensures a.request.id == Some(IdOf(p, n)) && n in AfterDeliver(Reached(scope, steps), p, a.reply).clients(p).futures
    ensures AfterDeliver(Reached(scope, steps), p, a.reply).clients(p).futures[n] == OutcomeOf(a.reply) <==>
      Least(IdOf(p, n), a.reply.causes, IdLess)
    ensures !a.result.Returned? ==>
      AfterDeliver(Reached(scope, steps), p, a.reply).clients(p).futures[n] == OutcomeOf(a.reply)
  {
    var st := Reached(scope, steps);
    var c := st.clients(p);
    assert Waiting(c, p) && Numbered(c, p) && Sound(a);
    ResultShows(a);
    DeliveryCompletesIff(st, p, a.reply, n);
    PendingIsUnanswered(scope, steps, p, IdOf(p, n));
    WaitedForByNumber(c, p, n);
    hide Inv;
    hide AfterDeliver;
  }

  lemma WaitedForByNumber(c: Client, p: Uuid, n: nat)
    requires Waiting(c, p) && |c.requests| <= TWO32 && n < |c.requests| && IdOf(p, n) in c.inprogress
    ensures n in c.inprogress.Values
  {
    SameIdIff(p, c.inprogress[IdOf(p, n)], p, n);
  }

  /** Behind every completed future there is the one delivery, of a reply to a request, that completed it. */
  lemma {:induction false} CompletedByDelivery(scope: Scope, steps: seq<Step>, p: Uuid, n: nat)
    returns (i: nat, a: Answer)
    requires n in Reached(scope, steps).clients(p).futures
    requires Reached(scope, steps).clients(p).futures[n] != Unset
    ensures i < |steps| && steps[i] == Deliver(p, a.reply)
    ensures a in Reached(scope, steps[..i]).answers && a.reply in Reached(scope, steps[..i]).wire
    ensures n in Reached(scope, steps[..i]).clients(p).futures
    ensures Reached(scope, steps[..i]).clients(p).futures[n] == Unset
    ensures AfterDeliver(Reached(scope, steps[..i]), p, a.reply).clients(p).futures[n]
         == Reached(scope, steps).clients(p).futures[n]
    decreases |steps|
  {
    hide Handled;
    hide Called;
    hide Next;
    hide AfterDeliver;
    hide Run;
    hide Inv;
    hide ClientAfter;
    if steps == [] {
      NothingCompleted(scope, p);
      assert false;
    }
    var k := |steps| - 1;
    var before, last := Reached(scope, steps[..k]), steps[k];
    LastStep(scope, steps, p);
    var c := before.clients(p);
    if n in c.futures && c.futures[n] != Unset {
      i, a := CompletedByDelivery(scope, steps[..k], p, n);
      ReachedWaits(scope, steps[..k], p);
      StepKeepsOutcome(c, scope, last, p, n);
      assert steps[..k][..i] == steps[..i];
    } else {
      i := k;
      OnlyDeliveryCompletes(c, scope, last, p, n);
      DeliveryHandled(before, p, last.reply);
      a := AnswerBehind(before, last.reply);
    }
  }

  lemma ReachedWaits(scope: Scope, steps: seq<Step>, p: Uuid)
    ensures Waiting(Reached(scope, steps).clients(p), p)
  {
    hide Waiting;
    assert ClientInv(Reached(scope, steps).clients(p), p, Reached(scope, steps).wire);
  }

  lemma AnswerBehind(st: State, reply: EventValue) returns (a: Answer)
    requires Inv(st) && reply in st.wire && reply.methodName == REPLY
    ensures a in st.answers && a.reply == reply
  {
    assert Explained(st, reply);
    a :| a in st.answers && a.reply == reply;
  }

  lemma NothingCompleted(scope: Scope, p: Uuid)
    ensures Reached(scope, []).clients(p).futures == map[]
  {
  }

  /** What the last step of a run did to one client. */
  lemma LastStep(scope: Scope, steps: seq<Step>, p: Uuid)
    requires steps != []
    ensures var before, last := Reached(scope, steps[..|steps| - 1]), steps[|steps| - 1];
      Reached(scope, steps).clients(p) ==
        if Enabled(before, last) then ClientAfter(before.clients(p), scope, last, p) else before.clients(p)
  {
    hide Next;
    hide Enabled;
    hide Run;
    var before, last := Reached(scope, steps[..|steps| - 1]), steps[|steps| - 1];
    assert steps == steps[..|steps| - 1] + [last];
    RunAppend(INITIAL, scope, steps[..|steps| - 1], last);
    if Enabled(before, last) {
      ClientMoves(before, scope, last, p);
    }
  }

  lemma DeliveryHandled(st: State, p: Uuid, reply: EventValue)
    ensures AfterDeliver(st, p, reply).clients(p) == Handled(st.clients(p), reply)
  {
  }

  lemma OnlyDeliveryCompletes(c: Client, scope: Scope, step: Step, p: Uuid, n: nat)
    requires n in c.futures ==> c.futures[n] == Unset
    requires n in ClientAfter(c, scope, step, p).futures && ClientAfter(c, scope, step, p).futures[n] != Unset
    ensures step.Deliver? && step.client == p && n in c.futures
    ensures ClientAfter(c, scope, step, p) == Handled(c, step.reply)
  {
  }

  /**
   An event callback can make the client mistake one answer for another: two calls are
   pending, a server answers the second with an event that already has the first among its
   causes, and the first future gets the answer.
   */
  lemma MistakenAnswer(scope: Scope, p: Uuid, server: Uuid, event: EventValue, answer: EventValue, now: Timestamp)
    returns (steps: seq<Step>, a: Answer)
    requires event.dataType != "" && answer.dataType != "" && answer.causes == {IdOf(p, 0)}
    ensures a.reply == Reply(server, scope, IdOf(p, 1), a.result, now, 0) && a.result == Returned(answer)
    ensures steps == [Call(p, event, false, true), Call(p, event, false, true),
                      Serve(server, a.request, None, a.result, now, true), Deliver(p, a.reply)]
    ensures a in Reached(scope, steps).answers
    ensures var c := Reached(scope, steps).clients(p);
      && |c.requests| == 2 && a.request == c.requests[1] != c.requests[0]
      && c.futures == map[0 := OutcomeOf(a.reply), 1 := Unset]
  {
    var call := Call(p, event, false, true);
    var second, result := Request(p, scope, event, 1), Returned(answer);
    var reply := Reply(server, scope, IdOf(p, 1), result, now, 0);
    var serve, deliver := Serve(server, second, None, result, now, true), Deliver(p, reply);
    a := Answer(second, result, reply);
    steps := [call, call, serve, deliver];
    hide Inv;
    hide Run;
    hide Reached;
    hide Handled;
    hide Twice;
    hide Replies;
    hide OutcomeOf;
    SecondReply(scope, p, server, event, answer, now);
    hide Request;
    hide Reply;
    TwoCalls(scope, p, event);
    ThenServed(scope, [call, call], p, server, second, None, result, now);
    assert [call, call] + [serve] == [call, call, serve] && [call, call, serve] + [deliver] == steps;
    ThenDelivered(scope, [call, call, serve], p, reply);
    HandledTwice(scope, p, event, reply);
  }

  lemma SecondReply(scope: Scope, p: Uuid, server: Uuid, event: EventValue, answer: EventValue, now: Timestamp)
    requires answer.dataType != "" && answer.causes == {IdOf(p, 0)}
    ensures var request := Request(p, scope, event, 1);
      request.id == Some(IdOf(p, 1)) && request.methodName == REQUEST && Replies(None, request, Returned(answer), now)
    ensures var reply := Reply(server, scope, IdOf(p, 1), Returned(answer), now, 0);
      reply.methodName == REPLY && reply.causes == {IdOf(p, 0), IdOf(p, 1)}
  {
  }

  lemma HandledTwice(scope: Scope, p: Uuid, event: EventValue, reply: EventValue)
    requires reply.causes == {IdOf(p, 0), IdOf(p, 1)}
    ensures var c := Handled(Twice(scope, p, event), reply);
      && |c.requests| == 2 && c.requests[1] == Request(p, scope, event, 1) != c.requests[0]
      && c.futures == map[0 := OutcomeOf(reply), 1 := Unset]
  {
    hide OutcomeOf;
    FirstOfTwo(p, reply);
  }

  /** A call that a typed callback answers, from the beginning: the future holds what the callback returned. */
  lemma AnsweredCall(scope: Scope, p: Uuid, server: Uuid, event: EventValue, dataType: string, data: seq<byte>,
                     now: Timestamp)
    returns (steps: seq<Step>, request: EventValue, reply: EventValue)
    requires event.dataType != "" && dataType != ""
    ensures request == event.(scope := scope, methodName := "REQUEST", id := Some(IdOf(p, 0)))
    ensures reply.methodName == "REPLY" && reply.scope == scope && reply.causes == {IdOf(p, 0)}
    ensures reply.dataType == dataType && reply.data == data && reply.id == Some(IdOf(server, 0))
    ensures steps == [Call(p, event, false, true),
                      Serve(server, request, Some(event.dataType), Typed(dataType, data), now, true),
                      Deliver(p, reply)]
    ensures var c := Reached(scope, steps).clients(p);
      c.requests == [request] && c.futures == map[0 := Value(reply)] && c.inprogress == map[]
  {
    var call, result := Call(p, event, false, true), Typed(dataType, data);
    request := Request(p, scope, event, 0);
    reply := Reply(server, scope, IdOf(p, 0), result, now, 0);
    var serve, deliver := Serve(server, request, Some(event.dataType), result, now, true), Deliver(p, reply);
    steps := [call, serve, deliver];
    OnceHandled(scope, p, event, reply);
    assert request.id == Some(IdOf(p, 0)) && request.methodName == REQUEST && reply.methodName == REPLY;
    assert Replies(Some(event.dataType), request, result, now);
    hide Request;
    hide Reply;
    hide Replies;
    hide Inv;
    hide Run;
    hide Handled;
    hide Called;
    NothingReached(scope);
    ThenCalled(scope, [], p, event);
    assert [] + [call] == [call] && [call] + [serve] == [call, serve] && [call, serve] + [deliver] == steps;
    ThenServed(scope, [call], p, server, request, Some(event.dataType), result, now);
    ThenDelivered(scope, [call, serve], p, reply);
  }

  lemma NothingReached(scope: Scope)
    ensures Reached(scope, []) == INITIAL
  {
  }

  /** One call and its reply, at the client. */
  lemma OnceHandled(scope: Scope, p: Uuid, event: EventValue, reply: EventValue)
    requires event.dataType != "" && reply.causes == {IdOf(p, 0)} && ERROR_INFO !in reply.userInfos
    ensures Handled(Called(NEW_CLIENT, p, scope, event, false), reply) ==
      Client([Request(p, scope, event, 0)], map[0 := Value(reply)], map[])
  {
    hide Request;
    assert Least(IdOf(p, 0), reply.causes, IdLess);
    FirstCauseIs(reply, IdOf(p, 0));
  }

  /** The client after two calls. */
  function Twice(scope: Scope, p: Uuid, event: EventValue): Client {
    Client([Request(p, scope, event, 0), Request(p, scope, event, 1)], map[0 := Unset, 1 := Unset],
           map[IdOf(p, 0) := 0, IdOf(p, 1) := 1])
  }

  lemma CalledTwice(scope: Scope, p: Uuid, event: EventValue)
    requires event.dataType != ""
    ensures Called(Called(NEW_CLIENT, p, scope, event, false), p, scope, event, false) == Twice(scope, p, event)
    ensures |Called(NEW_CLIENT, p, scope, event, false).requests| == 1
  {
    hide Request;
  }

  lemma ThenCalled(scope: Scope, steps: seq<Step>, p: Uuid, event: EventValue)
    requires event.dataType != ""
    ensures var before, after := Reached(scope, steps), Reached(scope, steps + [Call(p, event, false, true)]);
      && after.clients(p) == Called(before.clients(p), p, scope, event, false)
      && after.replies == before.replies && after.answers == before.answers
      && Request(p, scope, event, |before.clients(p).requests|) in after.wire
  {
    hide Called;
    hide Request;
    hide Run;
    hide Inv;
    RunAppend(INITIAL, scope, steps, Call(p, event, false, true));
  }

  lemma TwoCalls(scope: Scope, p: Uuid, event: EventValue)
    requires event.dataType != ""
    ensures var st := Reached(scope, [Call(p, event, false, true), Call(p, event, false, true)]);
      && st.clients(p) == Twice(scope, p, event) && st.replies == INITIAL.replies
      && Request(p, scope, event, 1) in st.wire
  {
    var call := Call(p, event, false, true);
    ThenCalled(scope, [], p, event);
    ThenCalled(scope, [call], p, event);
    CalledTwice(scope, p, event);
    hide Inv;
    hide Request;
    hide Called;
    hide Twice;
    assert Reached(scope, []) == INITIAL;
    hide Run;
    assert [] + [call] == [call] && [call] + [call] == [call, call];
  }

  lemma ThenServed(scope: Scope, steps: seq<Step>, p: Uuid, server: Uuid, request: EventValue,
                   expected: Option<string>, result: CallbackResult, now: Timestamp)
    requires request in Reached(scope, steps).wire && request.methodName == REQUEST
    requires Replies(expected, request, result, now)
    ensures
      var before := Reached(scope, steps);
      var after := Reached(scope, steps + [Serve(server, request, expected, result, now, true)]);
      var reply := Reply(server, scope, request.id.value, result, now, before.replies(server));
      && after.clients == before.clients && reply in after.wire && Answer(request, result, reply) in after.answers
  {
    hide Reply;
    hide Run;
    hide Inv;
    hide Replies;
    RunAppend(INITIAL, scope, steps, Serve(server, request, expected, result, now, true));
  }

  lemma ThenDelivered(scope: Scope, steps: seq<Step>, p: Uuid, reply: EventValue)
    requires reply in Reached(scope, steps).wire && reply.methodName == REPLY
    ensures
      var before, after := Reached(scope, steps), Reached(scope, steps + [Deliver(p, reply)]);
      after.clients(p) == Handled(before.clients(p), reply) && after.answers == before.answers
  {
    hide Handled;
    hide Run;
    hide Inv;
    RunAppend(INITIAL, scope, steps, Deliver(p, reply));
  }

  lemma FirstOfTwo(p: Uuid, reply: EventValue)
    requires reply.causes == {IdOf(p, 0), IdOf(p, 1)}
    ensures FirstCause(reply) == IdOf(p, 0) != IdOf(p, 1)
  {
    assert Least(IdOf(p, 0), reply.causes, IdLess);
    FirstCauseIs(reply, IdOf(p, 0));
  }

  /** Replies are broadcast; the reply of a typed callback moves no client but the one that asked. */
  lemma OthersIgnoreReply(scope: Scope, steps: seq<Step>, a: Answer, q: Uuid)
    requires a in Reached(scope, steps).answers && !a.result.Returned?
    requires a.request.id.Some? && a.request.id.value.participantId != q
    ensures Handled(Reached(scope, steps).clients(q), a.reply) == Reached(scope, steps).clients(q)
  {
  }

  // ---------------------------------------------------------------------
  // The ids of replies
  // ---------------------------------------------------------------------

  /** The reply's id is one its server has given out. */
  ghost predicate GivenOut(a: Answer, replies: Uuid -> nat) {
    a.reply.id.Some? && var id := a.reply.id.value;
    exists n: nat :: n < replies(id.participantId) && id == IdOf(id.participantId, n)
  }

  /** Below 2^32 replies of one server, no two of its answers share an id. */
  ghost predicate ToldApart(st: State) {
    && (forall a :: a in st.answers ==> GivenOut(a, st.replies))
    && (forall a, b | a in st.answers && b in st.answers && a.reply.id == b.reply.id ::
          st.replies(a.reply.id.value.participantId) <= TWO32 ==> a == b)
  }

  lemma ServeTellsApart(st: State, scope: Scope, p: Uuid, request: EventValue, expected: Option<string>,
                        result: CallbackResult, now: Timestamp, visible: bool)
    requires ToldApart(st)
    ensures ToldApart(AfterServe(st, scope, p, request, expected, result, now, visible))
  {
    hide Produced;
    hide Replies;
    var next := AfterServe(st, scope, p, request, expected, result, now, visible);
    forall a | a in next.answers
      ensures GivenOut(a, next.replies)
    {
      if a in st.answers {
        var id := a.reply.id.value;
        var n: nat :| n < st.replies(id.participantId) && id == IdOf(id.participantId, n);
        assert n < next.replies(id.participantId);
      } else {
        assert a.reply.id == Some(IdOf(p, st.replies(p))) && st.replies(p) < next.replies(p);
      }
    }
    forall a | a in st.answers && next.replies(p) <= TWO32 && next.replies(p) != st.replies(p)
      ensures a.reply.id != Some(IdOf(p, st.replies(p)))
    {
      var id := a.reply.id.value;
      var n: nat :| n < st.replies(id.participantId) && id == IdOf(id.participantId, n);
      SameIdIff(id.participantId, n, p, st.replies(p));
    }
  }

  lemma {:induction false} RunTellsApart(st: State, scope: Scope, steps: seq<Step>)
    requires ToldApart(st)
    ensures ToldApart(Run(st, scope, steps))
    decreases |steps|
  {
    hide ToldApart;
    if steps != [] {
      var next := if Enabled(st, steps[0]) then Next(st, scope, steps[0]) else st;
      match steps[0] {
        case Serve(p, request, expected, result, now, visible) =>
          ServeTellsApart(st, scope, p, request, expected, result, now, visible);
        case _ => OnlyServeAnswers(st, scope, steps[0]);
      }
      RunTellsApart(next, scope, steps[1..]);
    }
  }

  lemma OnlyServeAnswers(st: State, scope: Scope, step: Step)
    requires ToldApart(st) && !step.Serve?
    ensures ToldApart(Next(st, scope, step))
  {
    hide Called, Handled;
  }

  /** In every run, a server's replies have ids of their own until it has published 2^32 of them. */
  lemma ReplyIdsUnique(scope: Scope, steps: seq<Step>, a: Answer, b: Answer)
    requires a in Reached(scope, steps).answers && b in Reached(scope, steps).answers
    ensures a.reply.id.Some?
    ensures a.reply.id == b.reply.id ==>
      (Reached(scope, steps).replies(a.reply.id.value.participantId) <= TWO32 ==> a == b)
  {
    RunTellsApart(INITIAL, scope, steps);
  }

  // ---------------------------------------------------------------------
  // When ids wrap around
  // ---------------------------------------------------------------------

  /** The future of a new call is waited for exactly when no pending call has its number modulo 2^32. */
  lemma CallWaitedForIff(c: Client, me: Uuid, scope: Scope, event: EventValue)
    requires Waiting(c, me) && event.dataType != ""
    ensures var n := |c.requests|;
      n in Called(c, me, scope, event, false).inprogress.Values <==>
        !exists k :: k in c.inprogress.Values && (k - n) % TWO32 == 0
  {
    hide Request;
    var n := |c.requests|;
    var d := Called(c, me, scope, event, false);
    if IdOf(me, n) in c.inprogress {
      var k := c.inprogress[IdOf(me, n)];
      SameIdIff(me, k, me, n);
      assert k in c.inprogress.Values && (k - n) % TWO32 == 0;
      assert forall id :: id in d.inprogress ==> d.inprogress[id] in c.futures;
    } else {
      assert d.inprogress[IdOf(me, n)] == n;
      forall k | k in c.inprogress.Values
        ensures (k - n) % TWO32 != 0
      {
        var id :| id in c.inprogress && c.inprogress[id] == k;
        SameIdIff(me, k, me, n);
      }
    }
  }

  ghost predicate Forgotten(c: Client, n: nat) {
    n < |c.requests| && n in c.futures && c.futures[n] == Unset && n !in c.inprogress.Values
  }

  /** A call that is not waited for is never answered, whatever its servers do. */
  lemma {:induction false} ForgottenForever(st: State, scope: Scope, steps: seq<Step>, p: Uuid, n: nat)
    requires Forgotten(st.clients(p), n)
    ensures Forgotten(Run(st, scope, steps).clients(p), n)
    decreases |steps|
  {
    if steps != [] {
      if Enabled(st, steps[0]) {
        ClientMoves(st, scope, steps[0], p);
        StepForgets(st.clients(p), scope, steps[0], p, n);
        ForgottenForever(Next(st, scope, steps[0]), scope, steps[1..], p, n);
      } else {
        ForgottenForever(st, scope, steps[1..], p, n);
      }
    }
  }

  lemma StepForgets(c: Client, scope: Scope, step: Step, p: Uuid, n: nat)
    requires Forgotten(c, n)
    ensures Forgotten(ClientAfter(c, scope, step, p), n)
  {
  }

  lemma {:induction false} RunAppend(st: State, scope: Scope, steps: seq<Step>, step: Step)
    ensures Run(st, scope, steps + [step]) ==
      if Enabled(Run(st, scope, steps), step) then Next(Run(st, scope, steps), scope, step) else Run(st, scope, steps)
    decreases |steps|
  {
    hide Next;
    hide Enabled;
    if steps == [] {
      assert steps + [step] == [step];
    } else {
      assert (steps + [step])[1..] == steps[1..] + [step];
      RunAppend(if Enabled(st, steps[0]) then Next(st, scope, steps[0]) else st, scope, steps[1..], step);
    }
  }

  function Calls(p: Uuid, event: EventValue, count: nat): seq<Step> {
    seq(count, _ => Call(p, event, false, true))
  }

  lemma {:induction false} CallsPending(scope: Scope, p: Uuid, event: EventValue, count: nat)
    requires event.dataType != "" && count <= TWO32
    ensures AllUnset(Reached(scope, Calls(p, event, count)).clients(p), count)
  {
    if count > 0 {
      CallsPending(scope, p, event, count - 1);
      CallsStep(scope, p, event, count - 1);
      OneMoreUnset(Reached(scope, Calls(p, event, count - 1)).clients(p), count - 1, p, scope, event);
    }
  }

  ghost predicate AllUnset(c: Client, count: nat) {
    |c.requests| == count && forall n :: 0 <= n < count ==> n in c.futures && c.futures[n] == Unset
  }

  lemma OneMoreUnset(c: Client, count: nat, p: Uuid, scope: Scope, event: EventValue)
    requires AllUnset(c, count) && event.dataType != ""
    ensures AllUnset(Called(c, p, scope, event, false), count + 1)
  {
  }

  lemma CallsStep(scope: Scope, p: Uuid, event: EventValue, count: nat)
    ensures Reached(scope, Calls(p, event, count + 1)).clients(p) ==
      Called(Reached(scope, Calls(p, event, count)).clients(p), p, scope, event, false)
  {
    var last := Call(p, event, false, true);
    assert Calls(p, event, count + 1) == Calls(p, event, count) + [last];
    RunAppend(INITIAL, scope, Calls(p, event, count), last);
    ClientMoves(Reached(scope, Calls(p, event, count)), scope, last, p);
  }

  /** The bound is tight: after 2^32 unanswered calls the next one is never answered. */
  lemma WrappedCallIsForgotten(scope: Scope, p: Uuid, event: EventValue, steps: seq<Step>)
    requires event.dataType != ""
    ensures Forgotten(Run(Reached(scope, Calls(p, event, TWO32 + 1)), scope, steps).clients(p), TWO32)
  {
    var before := Reached(scope, Calls(p, event, TWO32));
    var c := before.clients(p);
    CallsPending(scope, p, event, TWO32);
    assert ClientInv(c, p, before.wire);
    assert IdOf(p, 0) in c.inprogress;
    SameIdIff(p, c.inprogress[IdOf(p, 0)], p, 0);
    CallWaitedForIff(c, p, scope, event);
    CallsStep(scope, p, event, TWO32);
    ForgottenForever(Reached(scope, Calls(p, event, TWO32 + 1)), scope, steps, p, TWO32);
  }
}
