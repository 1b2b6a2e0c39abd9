/** The byte stream of a connection: each message preceded by its length in four bytes. */
module Framing {
  import opened Bytes
  import opened Sequences

  type Message = seq<byte>

  /** The server side of a connection greets with a cleared length buffer. */
  const HANDSHAKE: seq<byte> := [0, 0, 0, 0]

  /** What is written for one message; the length is truncated to 32 bits. */
  function Frame(message: Message): seq<byte> {
    LittleEndian(|message|) + message
  }

  /** The length goes lowest byte first, and only its low 32 bits. */
  lemma FrameBytes(message: Message)
    ensures var n := |message|;
      Frame(message) == [(n % 256) as byte, (n / 256 % 256) as byte, (n / 65536 % 256) as byte,
                         (n / 16777216 % 256) as byte] + message
  {
    var n := |message|;
    assert n / 256 / 256 == n / 65536 && n / 65536 / 256 == n / 16777216;
    assert Digits(n / 16777216, 1) == [(n / 16777216 % 256) as byte];
    assert Digits(n / 65536, 2) == [(n / 65536 % 256) as byte, (n / 16777216 % 256) as byte];
    assert Digits(n / 256, 3) ==
      [(n / 256 % 256) as byte, (n / 65536 % 256) as byte, (n / 16777216 % 256) as byte];
  }

  function Stream(messages: seq<Message>): seq<byte> {
    if messages == [] then [] else Frame(messages[0]) + Stream(messages[1..])
  }

  /** One attempt to send reaches the peer: the connection is not shutting down and the write does not throw. */
  predicate Accepts(activeShutdown: bool, throws: bool) {
    !activeShutdown && !throws
  }

  predicate Short(message: Message) {
    |message| < TWO32
  }

  predicate AllShort(messages: seq<Message>) {
    forall i :: 0 <= i < |messages| ==> Short(messages[i])
  }

  /** The messages a reader takes from a byte stream, stopping where it would wait for more. */
  function Parse(bytes: seq<byte>): (messages: seq<Message>)
    ensures AllShort(messages) && |Stream(messages)| <= |bytes|
    decreases |bytes|
  {
    if |bytes| < 4 then []
    else
      var size := FromLittleEndian(bytes[..4]);
      if |bytes| < 4 + size then []
      else
        FourDigits(bytes[..4]);
        var message, rest := bytes[4..4 + size], Parse(bytes[4 + size..]);
        assert Stream([message] + rest) == Frame(message) + Stream(rest);
        [message] + rest
  }

  lemma {:induction false} StreamConcat(a: seq<Message>, b: seq<Message>)
    ensures Stream(a + b) == Stream(a) + Stream(b)
  {
    if a == [] {
      assert a + b == b;
    } else {
      assert (a + b)[1..] == a[1..] + b;
      StreamConcat(a[1..], b);
    }
  }

  lemma StreamAppend(messages: seq<Message>, message: Message)
    ensures Stream(messages + [message]) == Stream(messages) + Frame(message)
  {
    StreamConcat(messages, [message]);
    assert Stream([message]) == Frame(message) + Stream([]);
  }

  lemma SplitFrame(header: seq<byte>, message: Message, bytes: seq<byte>)
    requires |header| == 4
    ensures var all := header + message + bytes;
      all[..4] == header && all[4..4 + |message|] == message && all[4 + |message|..] == bytes
  {
  }

  lemma ParseFrame(message: Message, bytes: seq<byte>)
    requires Short(message)
    ensures Parse(Frame(message) + bytes) == [message] + Parse(bytes)
  {
    var header := LittleEndian(|message|);
    LittleEndianValue(|message|);
    SplitFrame(header, message, bytes);
    assert FromLittleEndian(header) == |message|;
    assert Frame(message) + bytes == header + message + bytes;
  }

  lemma {:induction false} ParseStream(messages: seq<Message>, bytes: seq<byte>)
    requires AllShort(messages)
    ensures Parse(Stream(messages) + bytes) == messages + Parse(bytes)
  {
    if messages == [] {
      assert Stream(messages) + bytes == bytes;
    } else {
      var first, rest := messages[0], messages[1..];
      Reassociate(Frame(first), Stream(rest), bytes);
      ParseFrame(first, Stream(rest) + bytes);
      ParseStream(rest, bytes);
      Reassociate([first], rest, Parse(bytes));
      assert messages == [first] + rest;
    }
  }

  /** Reading returns what was sent if and only if every message is shorter than 2^32 bytes. */
  lemma RoundTripIff(messages: seq<Message>)
    ensures Parse(Stream(messages)) == messages <==> AllShort(messages)
  {
    if AllShort(messages) {
      ParseStream(messages, []);
      assert Stream(messages) + [] == Stream(messages);
      assert messages + Parse([]) == messages;
    }
  }

  /** A stream cut anywhere yields the messages that are completely inside the cut, and no other. */
  lemma {:induction false} PrefixRoundTrip(messages: seq<Message>, cut: nat)
    requires AllShort(messages) && cut <= |Stream(messages)|
    ensures Parse(Stream(messages)[..cut]) <= messages
    ensures forall n :: 0 <= n <= |messages| && |Stream(messages[..n])| <= cut ==>
      n <= |Parse(Stream(messages)[..cut])|
  {
    if messages == [] {
    } else {
      var first, rest := messages[0], messages[1..];
      if cut < |Frame(first)| {
        assert Stream(messages)[..cut] == Frame(first)[..cut];
        ParseCutFrame(first, cut);
      } else {
        var cut' := cut - |Frame(first)|;
        assert Stream(messages)[..cut] == Frame(first) + Stream(rest)[..cut'];
        ParseFrame(first, Stream(rest)[..cut']);
        PrefixRoundTrip(rest, cut');
      }
      forall n | 0 < n <= |messages|
        ensures |Stream(messages[..n])| == |Frame(first)| + |Stream(rest[..n - 1])|
      {
        assert messages[..n][0] == first && messages[..n][1..] == rest[..n - 1];
      }
    }
  }

  lemma ParseCutFrame(message: Message, cut: nat)
    requires Short(message) && cut < |Frame(message)|
    ensures Parse(Frame(message)[..cut]) == []
  {
    hide LittleEndian;
    hide FromLittleEndian;
    var bytes := Frame(message)[..cut];
    if cut >= 4 {
      LittleEndianValue(|message|);
      assert bytes[..4] == LittleEndian(|message|);
      assert FromLittleEndian(bytes[..4]) == |message| && |bytes| < 4 + |message|;
    }
  }

  /**
   A write that fails part-way leaves a torn frame at the end of the stream; the
   reader then delivers only messages whose frames were written completely.
   */
  lemma TornFrame(messages: seq<Message>, torn: Message, cut: nat)
    requires AllShort(messages) && Short(torn) && cut < |Frame(torn)|
    ensures Parse(Stream(messages) + Frame(torn)[..cut]) == messages
  {
    ParseStream(messages, Frame(torn)[..cut]);
    ParseCutFrame(torn, cut);
    assert messages + [] == messages;
  }
}
