/**
 The socket transport of one process: connections that write and read frames, the
 bus that owns them, and the server bus that also forwards what it receives.

 The socket is the environment: `written` records the bytes put on it, `pending`
 the reads started on it, and a `fault` is the number of bytes of a message it
 still takes before a write throws.
 */
module SocketBus {
  import opened Wrappers
  import opened Bytes
  import opened Sequences
  import opened Framing
  import opened Scopes
  import opened Routing
  import opened ScopeDispatching
  import opened Serialization
  import Events

  datatype Read = ReadLength | ReadBody(expected: nat)

  /** The protocol buffer parser: a notification, unless the bytes are not one. */
  type Parser = Message -> Option<Notification>

  /** A message becomes an event: it parses and its scope is legal. */
  ghost predicate Converts(parse: Parser, message: Message) {
    parse(message).Some? && NamesScope(parse(message).value.scope)
  }

  /** The event a message becomes. */
  ghost function ValueOf(message: Message, parse: Parser, env: Surroundings): Events.EventValue
    requires Converts(parse, message)
  {
    Decoded(parse(message).value, true, env)
  }

  lemma SchemaExposed(n: Notification, env: Surroundings)
    requires NamesScope(n.scope)
    ensures WIRE_SCHEMA in Decoded(n, true, env).userInfos
    ensures Decoded(n, true, env).userInfos[WIRE_SCHEMA] == n.wireSchema
  {
  }

  /** The messages before the first that does not become an event. */
  ghost function Accepted(messages: seq<Message>, parse: Parser): seq<Message> {
    if messages == [] || !Converts(parse, messages[0]) then []
    else [messages[0]] + Accepted(messages[1..], parse)
  }

  /** How an asynchronous read ends; a transfer may be short, a full one has the requested size. */
  datatype Outcome = EndOfFile | Error | Transferred(bytes: seq<byte>)

  /** Sending throws: the connection is not shutting down and the socket gives up inside the frame. */
  predicate Throws(activeShutdown: bool, message: Message, fault: Option<nat>) {
    !activeShutdown && fault.Some? && fault.value < |Frame(message)|
  }

  /** The bytes one attempt to send `message` puts on the socket. */
  function Emitted(activeShutdown: bool, message: Message, fault: Option<nat>): seq<byte> {
    if activeShutdown then []
    else if Throws(activeShutdown, message, fault) then Frame(message)[..fault.value]
    else Frame(message)
  }

  /** One attempt to send, seen on the socket and in the list of messages sent. */
  twostate predicate Attempted(c: BusConnection, message: Message, fault: Option<nat>)
    reads c
  {
    && c.written == old(c.written) + Emitted(c.activeShutdown, message, fault)
    && c.sent == old(c.sent) +
         if Accepts(c.activeShutdown, Throws(c.activeShutdown, message, fault)) then [message] else []
  }

  twostate predicate NothingSent(c: BusConnection)
    reads c
  {
    c.written == old(c.written) && c.sent == old(c.sent)
  }

  class BusConnection {
    var disconnecting: bool
    var activeShutdown: bool
    var lengthReceiveBuffer: seq<byte>
    var messageReceiveBuffer: seq<byte>
    var lengthSendBuffer: seq<byte>
    var messageSendBuffer: seq<byte>

    var written: seq<byte>
    var pending: seq<Read>

    // The handshake this end wrote, and the messages it has written completely.
    ghost const greeting: seq<byte>
    ghost var sent: seq<Message>

    // Everything received since the handshake, and the messages handed to the bus.
    ghost var consumed: seq<byte>
    ghost var delivered: seq<Message>

    /**
     At most one read is outstanding, and what was handed to the bus is exactly
     what the bytes received so far frame, up to the header of a body being read.
     */
    ghost predicate Valid()
      reads this
    {
      && |lengthReceiveBuffer| == 4
      && |pending| <= 1
      && AllShort(delivered) && Stream(delivered) <= consumed
      && (pending == [ReadLength] ==> consumed == Stream(delivered))
      && (|pending| == 1 && pending[0].ReadBody? ==>
            && consumed == Stream(delivered) + lengthReceiveBuffer
            && pending[0].expected == FromLittleEndian(lengthReceiveBuffer) == |messageReceiveBuffer|)
    }

    /** The bytes written are the handshake and the frames of the messages sent. */
    ghost predicate Framed()
      reads this
    {
      written == greeting + Stream(sent)
    }

    /** The server end writes the handshake, the client end reads it. */
    constructor (client: bool, greeting: seq<byte>)
      requires |greeting| == 4
      ensures Valid() && pending == [] && consumed == [] && delivered == []
      ensures !activeShutdown && !disconnecting
      ensures this.greeting == written == (if client then [] else HANDSHAKE) && sent == [] && Framed()
      ensures !client ==> written == [0, 0, 0, 0]
    {
      this.greeting := if client then [] else HANDSHAKE;
      sent := [];
      disconnecting, activeShutdown := false, false;
      lengthReceiveBuffer := if client then greeting else [0, 0, 0, 0];
      lengthSendBuffer := [0, 0, 0, 0];
      messageReceiveBuffer, messageSendBuffer := [], [];
      written := if client then [] else [0, 0, 0, 0];
      pending, consumed, delivered := [], [], [];
    }

    method Shutdown()
      requires Valid()
      modifies this`activeShutdown
      ensures Valid() && activeShutdown
    {
      activeShutdown := true;
    }

    method StartReceiving()
      requires Valid() && pending == [] && consumed == Stream(delivered)
      modifies this`pending
      ensures Valid() && pending == [ReadLength]
    {
      ReceiveEvent();
    }

    method ReceiveEvent()
      requires Valid() && pending == [] && consumed == Stream(delivered)
      modifies this`pending
      ensures Valid() && pending == [ReadLength]
    {
      pending := pending + [ReadLength];
    }

    /** Leaves the bus, if that still exists, and closes the socket. */
    method PerformSafeCleanup(bus: BusImpl?)
      requires Valid() && pending == []
      modifies this`disconnecting, Owner(bus)`connections
      ensures Valid() && disconnecting && Left(bus, this)
    {
      if bus != null {
        bus.RemoveConnection(this);
      }
      if !disconnecting {
        disconnecting := true;
      }
    }

    /**
     Writes length and message, unless the connection is shutting down. Only the
     socket and the send buffers change; the reading half is untouched.
     */
    method SendEvent(message: Message, fault: Option<nat>) returns (ok: bool)
      modifies this`messageSendBuffer, this`lengthSendBuffer, this`written, this`sent
      ensures ok == !Throws(activeShutdown, message, fault)
      ensures Attempted(this, message, fault)
      ensures old(Framed()) && ok ==> Framed()
      ensures old(Framed()) && !ok ==> written == greeting + Stream(sent) + Frame(message)[..fault.value]
      ensures old(Valid()) ==> Valid()
      ensures activeShutdown ==> ok && written == old(written) && sent == old(sent)
      ensures var n := |message|;
        var frame := [(n % 256) as byte, (n / 256 % 256) as byte, (n / 65536 % 256) as byte,
                      (n / 16777216 % 256) as byte] + message;
        !activeShutdown ==>
          && (ok <==> fault.None? || fault.value >= 4 + n)
          && written == old(written) + (if ok then frame else frame[..fault.value])
          && sent == old(sent) + (if ok then [message] else [])
    {
      FrameBytes(message);
      hide Stream;
      hide LittleEndian;
      messageSendBuffer := message;
      var length := |messageSendBuffer| % TWO32;
      lengthSendBuffer := LittleEndian(length);
      LittleEndianInjective(length, |message|);
      if activeShutdown {
        return true;
      }
      var frame := lengthSendBuffer + messageSendBuffer;
      if fault.Some? && fault.value < |frame| {
        written := written + frame[..fault.value];
        return false;
      }
      written := written + frame;
      StreamAppend(sent, message);
      Reassociate(greeting, Stream(sent), frame);
      sent := sent + [message];
      return true;
    }

    /**
     The four length bytes arrived, or the read failed. Success starts the read of
     the body; anything else leaves the bus and reads no more.
     */
    method HandleReadLength(outcome: Outcome, bus: BusImpl?) returns (closed: bool)
      requires Valid() && pending == [ReadLength]
      requires outcome.Transferred? ==> |outcome.bytes| <= 4
      modifies this`pending, this`activeShutdown, this`disconnecting, this`lengthReceiveBuffer,
               this`messageReceiveBuffer, this`consumed, Owner(bus)`connections
      ensures Valid()
      ensures closed <==> !(outcome.Transferred? && |outcome.bytes| == 4)
      ensures !closed ==> pending == [ReadBody(FromLittleEndian(outcome.bytes))] && Stayed(bus)
      ensures !closed ==> consumed == old(consumed) + outcome.bytes
      ensures !closed ==> activeShutdown == old(activeShutdown) && disconnecting == old(disconnecting)
      ensures closed ==> pending == [] && disconnecting && consumed == old(consumed) && Left(bus, this)
      ensures activeShutdown == (old(activeShutdown) || outcome.EndOfFile?)
    {
      pending := [];
      if outcome.EndOfFile? {
        if !activeShutdown {
          Shutdown();
        }
        PerformSafeCleanup(bus);
        return true;
      }
      if outcome.Error? || |outcome.bytes| != 4 {
        PerformSafeCleanup(bus);
        return true;
      }
      lengthReceiveBuffer := outcome.bytes;
      consumed := consumed + outcome.bytes;
      var size := FromLittleEndian(lengthReceiveBuffer);
      messageReceiveBuffer := seq(size, _ => 0);
      pending := pending + [ReadBody(size)];
      return false;
    }

    /**
     The body arrived, or the read failed. A complete body that parses is turned into an
     event and handed to the bus, if that still exists, and only then the next length is
     read. If its scope is illegal the conversion throws out of the handler.
     */
    method HandleReadBody(outcome: Outcome, parse: Parser, env: Surroundings, bus: BusImpl?)
      returns (event: Option<Events.Event>, throws: bool)
      requires Valid() && |pending| == 1 && pending[0].ReadBody?
      requires outcome.Transferred? ==> |outcome.bytes| <= pending[0].expected
      modifies this`pending, this`disconnecting, this`messageReceiveBuffer, this`consumed, this`delivered,
               Owner(bus)`connections
      ensures Valid()
      ensures var complete := outcome.Transferred? && |outcome.bytes| == old(pending)[0].expected;
        && (throws <==> complete && parse(outcome.bytes).Some? && !Converts(parse, outcome.bytes))
        && (event.Some? <==> complete && Converts(parse, outcome.bytes) && bus != null)
      ensures event.Some? ==> fresh(event.value) && fresh(event.value.metaData)
      ensures event.Some? ==> event.value.Value() == ValueOf(outcome.bytes, parse, env)
      ensures event.Some? ==> delivered == old(delivered) + [outcome.bytes]
      ensures event.Some? ==> pending == [ReadLength] && consumed == old(consumed) + outcome.bytes
      ensures event.Some? ==> var received := event.value.metaData.userInfos;
        "rsb.wire-schema" in received && received["rsb.wire-schema"] == parse(outcome.bytes).value.wireSchema
      ensures event.None? ==> pending == [] && delivered == old(delivered) && consumed == old(consumed)
      ensures event.Some? || throws ==> disconnecting == old(disconnecting) && Stayed(bus)
      ensures event.None? && !throws ==> disconnecting && Left(bus, this)
    {
      hide Decoded;
      hide NamesScope;
      var expected := pending[0].expected;
      pending := [];
      if outcome.EndOfFile? || outcome.Error? || |outcome.bytes| != expected {
        PerformSafeCleanup(bus);
        return None, false;
      }
      messageReceiveBuffer := outcome.bytes;
      var notification := parse(messageReceiveBuffer);
      if notification.None? {
        PerformSafeCleanup(bus);
        return None, false;
      }
      var converted := NotificationToEvent(notification.value, true, env);
      if converted.Failure? {
        return None, true;
      }
      if bus == null {
        PerformSafeCleanup(bus);
        return None, false;
      }
      SchemaExposed(notification.value, env);
      CompleteFrame(delivered, lengthReceiveBuffer, messageReceiveBuffer);
      consumed := consumed + messageReceiveBuffer;
      delivered := delivered + [messageReceiveBuffer];
      ReceiveEvent();
      return Some(converted.value), false;
    }
  }

  /** The objects a connection may reach through its weak pointer to the bus. */
  function Owner(bus: BusImpl?): set<BusImpl> {
    if bus == null then {} else {bus}
  }

  twostate predicate Left(bus: BusImpl?, c: BusConnection)
    reads Owner(bus)
  {
    bus != null ==> bus.connections == Without(old(bus.connections), {c})
  }

  twostate predicate Stayed(bus: BusImpl?)
    reads Owner(bus)
  {
    bus != null ==> bus.connections == old(bus.connections)
  }

  /**
   A connection that is fed a byte stream, in whatever the reads ask for and up to the end
   of file, hands its bus the events of the messages the stream frames, up to the first
   message that does not become one. It throws if and only if that message parses, so that
   its scope is illegal; otherwise it leaves its bus.
   */
  method Feed(c: BusConnection, bus: BusImpl, stream: seq<byte>, parse: Parser, env: nat -> Surroundings)
    returns (values: seq<Events.EventValue>, throws: bool)
    requires c.Valid() && c.pending == [] && c.consumed == [] && c.delivered == []
    modifies c, bus`connections
    ensures c.Valid() && c.pending == []
    ensures c.delivered == Accepted(Parse(stream), parse)
    ensures throws <==>
      |c.delivered| < |Parse(stream)| && parse(Parse(stream)[|c.delivered|]).Some?
    ensures Decodes(values, c.delivered, parse, env)
    ensures forall messages :: AllShort(messages) && stream <= Stream(messages) ==> c.delivered <= messages
    ensures forall messages :: AllShort(messages) && stream == Stream(messages) ==>
      c.delivered == Accepted(messages, parse)
    ensures if throws then Stayed(bus) && c.disconnecting == old(c.disconnecting) else Left(bus, c) && c.disconnecting
  {
    values, throws := ReadAll(c, bus, stream, parse, env);
    Prefixes(stream);
    forall messages | AllShort(messages) && stream <= Stream(messages)
      ensures c.delivered <= messages
    {
      AcceptedPrefix(Parse(stream), parse);
    }
  }

  lemma {:induction false} AcceptedPrefix(messages: seq<Message>, parse: Parser)
    ensures Accepted(messages, parse) <= messages
  {
    hide Converts;
    if messages != [] {
      AcceptedPrefix(messages[1..], parse);
    }
  }

  lemma Prefixes(stream: seq<byte>)
    ensures forall messages :: AllShort(messages) && stream == Stream(messages) ==> Parse(stream) == messages
    ensures forall messages :: AllShort(messages) && stream <= Stream(messages) ==> Parse(stream) <= messages
  {
    forall messages | AllShort(messages) && stream <= Stream(messages)
      ensures Parse(stream) <= messages
      ensures stream == Stream(messages) ==> Parse(stream) == messages
    {
      RoundTripIff(messages);
      PrefixRoundTrip(messages, |stream|);
      assert Stream(messages)[..|stream|] == stream;
    }
  }

  /** The reads and their handlers, one after the other. */
  method ReadAll(c: BusConnection, bus: BusImpl, stream: seq<byte>, parse: Parser, env: nat -> Surroundings)
    returns (values: seq<Events.EventValue>, throws: bool)
    requires c.Valid() && c.pending == [] && c.consumed == [] && c.delivered == []
    modifies c, bus`connections
    ensures c.Valid() && c.pending == []
    ensures c.delivered == Accepted(Parse(stream), parse)
    ensures throws <==>
      |c.delivered| < |Parse(stream)| && parse(Parse(stream)[|c.delivered|]).Some?
    ensures Decodes(values, c.delivered, parse, env)
    ensures if throws then Stayed(bus) && c.disconnecting == old(c.disconnecting) else Left(bus, c) && c.disconnecting
  {
    hide Parse;
    hide Stream;
    hide Accepted;
    hide Decodes;
    hide Converts;
    hide ValueOf;
    NothingDecoded(parse, env);
    c.StartReceiving();
    values := [];
    var at := 0;
    while |stream| - at >= 4
      invariant 0 <= at <= |stream| && c.Valid() && c.pending == [ReadLength]
      invariant c.delivered + Parse(stream[at..]) == Parse(stream)
      invariant bus.connections == old(bus.connections) && c.disconnecting == old(c.disconnecting)
      invariant Decodes(values, c.delivered, parse, env)
    {
      ParseAt(stream, at);
      var header := stream[at..at + 4];
      var closed := c.HandleReadLength(Transferred(header), bus);
      var next := at + 4 + FromLittleEndian(header);
      if |stream| < next {
        AcceptedAre(values, c.delivered, [], parse, env);
        var _, _ := c.HandleReadBody(EndOfFile, parse, env(0), bus);
        return values, false;
      }
      var message, rest := stream[at + 4..next], stream[next..];
      Reassociate(c.delivered, [message], Parse(rest));
      AcceptedAre(values, c.delivered, [message] + Parse(rest), parse, env);
      label Round:
      var event, thrown := c.HandleReadBody(Transferred(message), parse, env(|values|), bus);
      if event.None? {
        return values, thrown;
      }
      OneMoreDecoded(values, event.value.Value(), old@Round(c.delivered), message, parse, env);
      values := values + [event.value.Value()];
      at := next;
    }
    ParseAt(stream, at);
    AcceptedAre(values, c.delivered, [], parse, env);
    var closed := c.HandleReadLength(EndOfFile, bus);
    return values, false;
  }

  /** The values are those of the events the messages become. */
  ghost predicate Decodes(values: seq<Events.EventValue>, messages: seq<Message>, parse: Parser,
                          env: nat -> Surroundings)
  {
    && |values| == |messages|
    && forall i :: 0 <= i < |messages| ==>
         Converts(parse, messages[i]) && values[i] == ValueOf(messages[i], parse, env(i))
  }

  lemma NothingDecoded(parse: Parser, env: nat -> Surroundings)
    ensures Decodes([], [], parse, env)
  {
  }

  lemma OneMoreDecoded(values: seq<Events.EventValue>, value: Events.EventValue, messages: seq<Message>,
                       message: Message, parse: Parser, env: nat -> Surroundings)
    requires Decodes(values, messages, parse, env) && Converts(parse, message)
    requires value == ValueOf(message, parse, env(|values|))
    ensures Decodes(values + [value], messages + [message], parse, env)
  {
    hide ValueOf;
    hide Converts;
  }

  /** Messages that become events are accepted, and so are those after them up to the first that does not. */
  lemma AcceptedAre(values: seq<Events.EventValue>, done: seq<Message>, rest: seq<Message>, parse: Parser,
                    env: nat -> Surroundings)
    requires Decodes(values, done, parse, env)
    ensures Accepted(done + rest, parse) == done + Accepted(rest, parse)
    ensures rest == [] || !Converts(parse, rest[0]) ==> Accepted(done + rest, parse) == done
  {
    hide ValueOf;
    AllAccepted(done, rest, parse);
  }

  lemma {:induction false} AllAccepted(done: seq<Message>, rest: seq<Message>, parse: Parser)
    requires forall i :: 0 <= i < |done| ==> Converts(parse, done[i])
    ensures Accepted(done + rest, parse) == done + Accepted(rest, parse)
  {
    hide Converts;
    if done == [] {
      assert done + rest == rest;
    } else {
      assert (done + rest)[1..] == done[1..] + rest;
      AllAccepted(done[1..], rest, parse);
    }
  }

  /** One round of the reader, by position in the stream. */
  lemma ParseAt(stream: seq<byte>, at: nat)
    requires at <= |stream|
    ensures |stream| - at < 4 ==> Parse(stream[at..]) == []
    ensures |stream| - at >= 4 ==>
      var next := at + 4 + FromLittleEndian(stream[at..at + 4]);
      Parse(stream[at..]) == if |stream| < next then [] else [stream[at + 4..next]] + Parse(stream[next..])
  {
    var rest := stream[at..];
    if |rest| >= 4 {
      assert rest[..4] == stream[at..at + 4];
      var size := FromLittleEndian(rest[..4]);
      if |rest| >= 4 + size {
        assert rest[4..4 + size] == stream[at + 4..at + 4 + size] && rest[4 + size..] == stream[at + 4 + size..];
      }
    }
  }

  /**
   One message with an illegal scope stops the connection however many good ones follow:
   nothing of the stream is handed over, although every message is framed in it.
   */
  lemma IllegalScopeStops(message: Message, more: seq<Message>, parse: Parser)
    requires Short(message) && AllShort(more)
    requires parse(message).Some? && parse(message).value.scope == "scope"
    ensures var parsed := Parse(Stream([message] + more));
      parsed == [message] + more && Accepted(parsed, parse) == []
  {
    RoundTripIff([message] + more);
    if NamesScope("scope") {
      var components :| Denotes("scope", components);
      DenotedIsClean("scope", components);
      assert false;
    }
  }

  /**
   A session: the server end of a connection is made and sends, the client end is made from
   the first four bytes and reads the rest. The client delivers what the server sent, in
   order, up to the first message that does not become an event.
   */
  method Session(messages: seq<Message>, bus: BusImpl, parse: Parser, env: nat -> Surroundings)
    returns (server: BusConnection, client: BusConnection, values: seq<Events.EventValue>, throws: bool)
    requires AllShort(messages)
    modifies bus`connections
    ensures fresh(server) && fresh(client)
    ensures server.written == HANDSHAKE + Stream(messages)
    ensures client.delivered == Accepted(messages, parse)
    ensures throws <==> |client.delivered| < |messages| && parse(messages[|client.delivered|]).Some?
    ensures Decodes(values, client.delivered, parse, env)
    ensures (forall i :: 0 <= i < |messages| ==> Converts(parse, messages[i])) ==> client.delivered == messages
  {
    hide Decodes;
    hide Converts;
    hide Parse;
    hide Frame;
    server := new BusConnection(false, HANDSHAKE);
    for i := 0 to |messages|
      invariant !server.activeShutdown && server.greeting == HANDSHAKE
      invariant server.Framed() && server.sent == messages[..i]
    {
      var ok := server.SendEvent(messages[i], None);
      assert messages[..i + 1] == messages[..i] + [messages[i]];
    }
    assert messages[..|messages|] == messages;
    var bytes := server.written;
    assert bytes[..4] == HANDSHAKE && bytes[4..] == Stream(messages);
    client := new BusConnection(true, bytes[..4]);
    RoundTripIff(messages);
    values, throws := Feed(client, bus, bytes[4..], parse, env);
    if forall i :: 0 <= i < |messages| ==> Converts(parse, messages[i]) {
      AllAccepted(messages, [], parse);
      assert messages + [] == messages;
    }
  }

  lemma CompleteFrame(delivered: seq<Message>, header: seq<byte>, message: Message)
    requires |header| == 4 && FromLittleEndian(header) == |message|
    ensures Short(message)
    ensures Stream(delivered) + header + message == Stream(delivered + [message])
  {
    FourDigits(header);
    DigitsOfValue(header);
    StreamAppend(delivered, message);
    Reassociate(Stream(delivered), header, message);
  }

  /**
   What a valid connection has handed to its bus, when the bytes it received are a
   beginning of what the peer wrote: a beginning of the messages the peer sent, all
   of them once everything has arrived. The last frame the peer wrote may be torn.
   */
  lemma DeliveredInOrder(delivered: seq<Message>, consumed: seq<byte>, sent: seq<Message>, torn: Message, cut: nat)
    requires AllShort(delivered) && AllShort(sent) && Short(torn) && cut < |Frame(torn)|
    requires Stream(delivered) <= consumed <= Stream(sent) + Frame(torn)[..cut]
    ensures delivered <= sent
    ensures consumed == Stream(delivered) == Stream(sent) ==> delivered == sent
  {
    var all := sent + [torn];
    StreamAppend(sent, torn);
    var n := |Stream(delivered)|;
    assert Stream(all)[..n] == Stream(delivered);
    PrefixRoundTrip(all, n);
    RoundTripIff(delivered);
    assert delivered <= all;
    assert delivered == all ==> |Stream(delivered)| > |consumed|;
    assert delivered == all[..|delivered|];
    assert delivered == sent[..|delivered|];
    if consumed == Stream(delivered) == Stream(sent) {
      RoundTripIff(sent);
    }
  }

  // ---------------------------------------------------------------------
  // Buses
  // ---------------------------------------------------------------------

  /** An event on its way: its scope, and the notification it is sent as unless it lacks its wire schema. */
  datatype Event = Event(scope: Scope, notification: Option<Message>)

  function Without(list: seq<BusConnection>, dropped: set<BusConnection>): seq<BusConnection> {
    if list == [] then []
    else if list[0] in dropped then Without(list[1..], dropped)
    else [list[0]] + Without(list[1..], dropped)
  }

  lemma {:induction false} WithoutUnion(list: seq<BusConnection>, a: set<BusConnection>, b: set<BusConnection>)
    ensures Without(Without(list, a), b) == Without(list, a + b)
  {
    if list != [] {
      WithoutUnion(list[1..], a, b);
    }
  }

  /** Every occurrence is judged by itself, so the others keep their order. */
  lemma {:induction false} WithoutConcat(a: seq<BusConnection>, b: seq<BusConnection>, dropped: set<BusConnection>)
    ensures Without(a + b, dropped) == Without(a, dropped) + Without(b, dropped)
    ensures |a| == 1 ==> Without(a, dropped) == if a[0] in dropped then [] else a
  {
    if a == [] {
      assert a + b == b;
    } else {
      assert (a + b)[1..] == a[1..] + b;
      WithoutConcat(a[1..], b, dropped);
    }
  }

  lemma {:induction false} WithoutNone(list: seq<BusConnection>)
    ensures Without(list, {}) == list
  {
    if list != [] {
      WithoutNone(list[1..]);
    }
  }

  lemma {:induction false} WithoutDistinct(list: seq<BusConnection>, dropped: set<BusConnection>)
    requires Distinct(list)
    ensures Distinct(Without(list, dropped))
  {
    if list != [] {
      WithoutDistinct(list[1..], dropped);
      WithoutKeeps(list[1..], dropped, list[0]);
      assert list[0] !in list[1..];
    }
  }

  ghost predicate Distinct(list: seq<BusConnection>) {
    forall i, j :: 0 <= i < j < |list| ==> list[i] != list[j]
  }

  function FaultOf(faults: map<BusConnection, nat>, c: BusConnection): Option<nat> {
    if c in faults then Some(faults[c]) else None
  }

  /** A send attempt throws: the socket gives up, or the wire schema that is looked up for it is missing. */
  predicate GivesUp(c: BusConnection, notification: Option<Message>, faults: map<BusConnection, nat>)
    reads c`activeShutdown
  {
    notification.None? || Throws(c.activeShutdown, notification.value, FaultOf(faults, c))
  }

  /** The connections but `origin` whose send attempt throws. */
  ghost function Failing(
    list: seq<BusConnection>, origin: BusConnection?, notification: Option<Message>, faults: map<BusConnection, nat>)
    : set<BusConnection>
    reads list`activeShutdown
  {
    set c | c in list && c != origin && GivesUp(c, notification, faults)
  }

  /** Sends to every connection of the list but `origin`, collecting those that throw. */
  method SendToAll(list: seq<BusConnection>, origin: BusConnection?, notification: Option<Message>,
                   faults: map<BusConnection, nat>)
    returns (failing: seq<BusConnection>)
    requires Distinct(list)
    modifies list`messageSendBuffer, list`lengthSendBuffer, list`written, list`sent
    ensures Elements(failing) == Failing(list, origin, notification, faults)
    ensures notification.Some? ==>
      forall c :: c in list && c != origin ==> Attempted(c, notification.value, FaultOf(faults, c))
    ensures notification.None? ==> forall c :: c in list ==> NothingSent(c)
    ensures origin != null && origin in list ==> NothingSent(origin)
  {
    hide Frame;
    failing := [];
    for i := 0 to |list|
      invariant forall c :: c in failing <==> c in list[..i] && c != origin && GivesUp(c, notification, faults)
      invariant notification.Some? ==> forall k :: 0 <= k < i && list[k] != origin ==>
        Attempted(list[k], notification.value, FaultOf(faults, list[k]))
      invariant forall k :: 0 <= k < |list| && (k >= i || list[k] == origin || notification.None?) ==>
        NothingSent(list[k])
    {
      if list[i] != origin {
        var ok := false;
        if notification.Some? {
          ok := list[i].SendEvent(notification.value, FaultOf(faults, list[i]));
        }
        if !ok {
          failing := failing + [list[i]];
        }
      }
      assert list[..i + 1] == list[..i] + [list[i]];
    }
    assert list[..|list|] == list;
  }

  /** The bus of a client process, and the part of the server bus that is the same. */
  class BusImpl {
    var connections: seq<BusConnection>
    const sinkDispatcher: WeakScopeDispatcher

    constructor ()
      ensures connections == [] && fresh(sinkDispatcher) && sinkDispatcher.sinks == map[]
    {
      connections := [];
      sinkDispatcher := new WeakScopeDispatcher();
    }

    method AddConnection(connection: BusConnection)
      modifies this`connections
      ensures connections == old(connections) + [connection]
      ensures old(Distinct(connections)) && connection !in old(connections) ==> Distinct(connections)
    {
      connections := connections + [connection];
    }

    /** Drops every occurrence of the connection and keeps the order of the others. */
    method RemoveConnection(connection: BusConnection)
      modifies this`connections
      ensures connections == Without(old(connections), {connection})
      ensures old(Distinct(connections)) ==> Distinct(connections)
    {
      var kept: seq<BusConnection> := [];
      if Distinct(connections) {
        WithoutDistinct(connections, {connection});
      }
      for i := 0 to |connections|
        invariant kept + Without(connections[i..], {connection}) == Without(connections, {connection})
      {
        if connections[i] != connection {
          kept := kept + [connections[i]];
        }
        assert connections[i..][1..] == connections[i + 1..];
      }
      connections := kept;
    }

    method RemoveFailing(failing: seq<BusConnection>)
      modifies this`connections
      ensures connections == Without(old(connections), Elements(failing))
      ensures forall c :: c in old(connections) ==> (c in connections <==> c !in failing)
      ensures old(Distinct(connections)) ==> Distinct(connections)
    {
      WithoutNone(connections);
      assert Elements(failing[..0]) == {};
      for i := 0 to |failing|
        invariant old(Distinct(connections)) ==> Distinct(connections)
        invariant connections == Without(old(connections), Elements(failing[..i]))
      {
        RemoveConnection(failing[i]);
        WithoutUnion(old(connections), Elements(failing[..i]), {failing[i]});
        assert failing[..i + 1] == failing[..i] + [failing[i]];
        assert Elements(failing[..i + 1]) == Elements(failing[..i]) + {failing[i]};
      }
      assert failing[..|failing|] == failing;
      forall c | c in old(connections)
        ensures c in connections <==> c !in failing
      {
        WithoutKeeps(old(connections), Elements(failing), c);
      }
    }

    /**
     An event published in this process: local sinks first, then every connection. The
     wire schema is looked up in between; without it the call throws and nothing is sent.
     */
    method Handle(event: Event, expired: set<Sink>, faults: map<BusConnection, nat>)
      returns (called: seq<Sink>, throws: bool)
      requires Distinct(connections) && |event.scope.scopestring| < SIZE_LIMIT
      modifies this`connections
      modifies connections`messageSendBuffer, connections`lengthSendBuffer, connections`written, connections`sent
      ensures called == Dispatched(sinkDispatcher.sinks, event.scope, expired)
      ensures throws <==> event.notification.None?
      ensures throws ==>
        connections == old(connections) && forall c :: c in old(connections) ==> NothingSent(c)
      ensures !throws ==>
        && (forall c :: c in old(connections) ==> Attempted(c, event.notification.value, FaultOf(faults, c)))
        && connections == Without(old(connections), old(Failing(connections, null, event.notification, faults)))
      ensures !throws ==> forall c :: c in old(connections) ==>
        (c in connections <==> c.activeShutdown || c !in faults || faults[c] >= 4 + |event.notification.value|)
      ensures Distinct(connections)
    {
      called := sinkDispatcher.MapSinks(event.scope, expired);
      if event.notification.None? {
        return called, true;
      }
      var failing := SendToAll(connections, null, event.notification, faults);
      assert forall c :: c in failing <==> c in Elements(failing);
      RemoveFailing(failing);
      return called, false;
    }

    /** An event received from a connection: local sinks only. */
    method HandleIncoming(event: Event, expired: set<Sink>) returns (called: seq<Sink>)
      requires |event.scope.scopestring| < SIZE_LIMIT
      ensures called == Dispatched(sinkDispatcher.sinks, event.scope, expired)
    {
      called := sinkDispatcher.MapSinks(event.scope, expired);
    }
  }

  /** The bus of the server process. */
  class BusServerImpl {
    const bus: BusImpl

    constructor ()
      ensures fresh(bus) && bus.connections == []
    {
      bus := new BusImpl();
    }

    /**
     Delivers a received event locally and forwards it to every connection except
     the one it came from; connections whose send throws are dropped afterwards.
     */
    method HandleIncoming(event: Event, connection: BusConnection, expired: set<Sink>,
                          faults: map<BusConnection, nat>)
      returns (called: seq<Sink>)
      requires Distinct(bus.connections) && |event.scope.scopestring| < SIZE_LIMIT
      modifies bus`connections
      modifies bus.connections`messageSendBuffer, bus.connections`lengthSendBuffer
      modifies bus.connections`written, bus.connections`sent
      ensures called == Dispatched(bus.sinkDispatcher.sinks, event.scope, expired)
      ensures event.notification.Some? ==> forall c :: c in old(bus.connections) && c != connection ==>
        Attempted(c, event.notification.value, FaultOf(faults, c))
      ensures event.notification.None? ==> forall c :: c in old(bus.connections) ==> NothingSent(c)
      ensures NothingSent(connection)
      ensures bus.connections ==
        Without(old(bus.connections), old(Failing(bus.connections, connection, event.notification, faults)))
      ensures forall c :: c in old(bus.connections) ==>
        (c in bus.connections <==>
          || c == connection
          || (event.notification.Some?
              && (c.activeShutdown || c !in faults || faults[c] >= 4 + |event.notification.value|)))
      ensures Distinct(bus.connections)
    {
      called := bus.HandleIncoming(event, expired);
      var failing := SendToAll(bus.connections, connection, event.notification, faults);
      assert forall c :: c in failing <==> c in Elements(failing);
      bus.RemoveFailing(failing);
    }
  }

  lemma {:induction false} WithoutKeeps(list: seq<BusConnection>, dropped: set<BusConnection>, c: BusConnection)
    ensures c in Without(list, dropped) <==> c in list && c !in dropped
  {
    if list != [] {
      WithoutKeeps(list[1..], dropped, c);
    }
  }
}
