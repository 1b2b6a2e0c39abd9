/**
 What a notification looks like after it went through a server, and which notifications
 pass unchanged.
 */
module Relay {
  import opened Wrappers
  import opened Bytes
  import opened Ordering
  import opened Sequences
  import opened Scopes
  import opened Events
  import opened Serialization

  // ---------------------------------------------------------------------
  // Round trip and relay
  // ---------------------------------------------------------------------

  lemma IdRoundTrip(id: EventId, beyond: Uuid)
    ensures IdRead(IdWritten(id), beyond) == id
  {
    assert (id.participantId + [0] + beyond)[..16] == id.participantId;
  }

  lemma IdsRoundTrip(s: set<EventId>, beyond: nat -> Uuid)
    ensures IdsRead(IdsWritten(SortedIds(s)), beyond) == SortedIds(s)
    ensures Elements(IdsRead(IdsWritten(SortedIds(s)), beyond)) == s
  {
    IdOrder();
    InOrderLists(s, IdLess);
    forall id: EventId, b: Uuid { IdRoundTrip(id, b); }
    assert IdsRead(IdsWritten(SortedIds(s)), beyond) == SortedIds(s);
  }

  /** Every sender id has the sixteen bytes that are read. */
  predicate FullIds(ids: seq<WireId>) {
    forall i :: 0 <= i < |ids| ==> |ids[i].senderId| == 16
  }

  function FullIdsRead(ids: seq<WireId>): (list: seq<EventId>)
    requires FullIds(ids)
    ensures |list| == |ids|
    ensures forall i :: 0 <= i < |ids| ==> list[i] == EventId(ids[i].senderId, ids[i].sequenceNumber)
  {
    seq(|ids|, i requires 0 <= i < |ids| => EventId(ids[i].senderId, ids[i].sequenceNumber))
  }

  /** Nothing behind a full id is read. */
  lemma NothingBeyond(ids: seq<WireId>, beyond: nat -> Uuid)
    requires FullIds(ids)
    ensures IdsRead(ids, beyond) == FullIdsRead(ids) && IdsWritten(FullIdsRead(ids)) == ids
  {
    forall i | 0 <= i < |ids|
      ensures IdRead(ids[i], beyond(i + 1)) == EventId(ids[i].senderId, ids[i].sequenceNumber)
    {
      assert (ids[i].senderId + [0] + beyond(i + 1))[..16] == ids[i].senderId;
    }
  }

  predicate TimesSet(times: Times) {
    forall i :: 0 <= i < |times| ==> times[i].1 != 0
  }

  lemma StampedIff(times: Times, now: Timestamp)
    requires now != 0
    ensures Stamped(times, now) == times <==> TimesSet(times)
    ensures TimesSet(Stamped(times, now))
  {
  }

  lemma ScopeKept(s: string)
    requires NamesScope(s)
    ensures ScopeNamed(s).scopestring == s <==> s[|s| - 1] == SEPARATOR
  {
    var components := ScopeNamed(s).components;
    PrintEndsWithSeparator(components);
    if s + [SEPARATOR] == Print(components) && s[|s| - 1] == SEPARATOR {
      var k := |s|;
      assert Print(components)[k] == SEPARATOR && Print(components)[k - 1] == SEPARATOR;
      assert Offends(Print(components), k);
      PrintNeverOffends(components, k);
      assert false;
    }
  }

  lemma CausesKept(ids: seq<WireId>, beyond: nat -> Uuid)
    ensures IdsWritten(SortedIds(Elements(IdsRead(ids, beyond)))) == ids <==>
      FullIds(ids) && Ascending(FullIdsRead(ids), IdLess)
  {
    IdOrder();
    var list := IdsRead(ids, beyond);
    IdsRoundTrip(Elements(list), beyond);
    InOrderLists(Elements(list), IdLess);
    AscendingIsInOrder(list, IdLess);
    if FullIds(ids) {
      NothingBeyond(ids, beyond);
    }
  }

  lemma TimesKept(times: Times, now: Timestamp)
    requires now != 0
    ensures SortedTimes(FromEntries(Stamped(times, now))) == times <==>
      Ascending(KeysOf(times), StringLess) && TimesSet(times)
    ensures TimesSet(SortedTimes(FromEntries(Stamped(times, now))))
    ensures Ascending(KeysOf(SortedTimes(FromEntries(Stamped(times, now)))), StringLess)
  {
    StringOrder();
    var stamped := Stamped(times, now);
    var m := FromEntries(stamped);
    StampedIff(times, now);
    FromEntriesKeys(stamped);
    SortedRoundTrip(m, StringLess);
    InOrderMembers(m.Keys, StringLess);
    EntriesAt(m, InOrder(m.Keys, StringLess));
    forall i | 0 <= i < |SortedTimes(m)|
      ensures SortedTimes(m)[i].1 != 0
    {
      var key := SortedTimes(m)[i].0;
      assert (key, m[key]) in stamped;
    }
    SortedIffAscending(times, StringLess);
  }

  lemma InfosKept(n: Notification)
    ensures SortedInfos(InfosRead(n, true)) == n.userInfos <==>
      Ascending(KeysOf(n.userInfos), StringLess) && (WIRE_SCHEMA, n.wireSchema) in n.userInfos
  {
    StringOrder();
    StoredAgainIff(n.userInfos, WIRE_SCHEMA, n.wireSchema, StringLess);
  }

  // ---------------------------------------------------------------------
  // The relay
  // ---------------------------------------------------------------------

  /** What the server sends to its other clients for a notification it received. */
  ghost function Relayed(n: Notification, env: Surroundings): Notification
    requires NamesScope(n.scope)
  {
    var v := Decoded(n, true, env);
    Encoded(v, v.userInfos[WIRE_SCHEMA], v.data)
  }

  /** The server's path from a received notification to the one it sends. */
  method Forward(n: Notification, env: Surroundings) returns (r: Result<Notification, SyntaxError>)
    ensures r.Success? <==> NamesScope(n.scope)
    ensures r.Success? ==> r.value == Relayed(n, env)
  {
    var received := NotificationToEvent(n, true, env);
    if received.Failure? {
      return Failure(received.error);
    }
    var event := received.value;
    var sent := EventToNotification(event, event.metaData.userInfos[WIRE_SCHEMA], event.data);
    return Success(sent.value);
  }

  /** Every event that reaches a send loop carries its wire schema, received or submitted. */
  lemma SchemaAlwaysPresent(
    n: Notification, env: Surroundings, v: EventValue, now: Timestamp, wireSchema: string, wireData: seq<byte>)
    requires NamesScope(n.scope)
    ensures WIRE_SCHEMA in Decoded(n, true, env).userInfos
    ensures Decoded(n, true, env).userInfos[WIRE_SCHEMA] == n.wireSchema
    ensures WIRE_SCHEMA in Submitted(v, now, wireSchema, wireData).userInfos
    ensures Submitted(v, now, wireSchema, wireData).userInfos[WIRE_SCHEMA] == wireSchema
  {
  }

  /** The notifications that pass a server unchanged. */
  ghost predicate Canonical(n: Notification)
    requires NamesScope(n.scope)
  {
    && n.scope[|n.scope| - 1] == SEPARATOR
    && n.methodName != Some("")
    && |n.eventId.senderId| == 16
    && n.createTime != 0 && n.sendTime != 0
    && Ascending(KeysOf(n.userInfos), StringLess) && (WIRE_SCHEMA, n.wireSchema) in n.userInfos
    && Ascending(KeysOf(n.userTimes), StringLess) && TimesSet(n.userTimes)
    && FullIds(n.causes) && Ascending(FullIdsRead(n.causes), IdLess)
  }

  lemma RelayIff(n: Notification, env: Surroundings)
    requires NamesScope(n.scope) && env.now != 0
    ensures Relayed(n, env) == n <==> Canonical(n)
  {
    hide SortedEntries;
    hide InOrder;
    hide FromEntries;
    var r := Relayed(n, env);
    ScopeKept(n.scope);
    InfosKept(n);
    TimesKept(n.userTimes, env.now);
    CausesKept(n.causes, env.beyond);
    SenderKept(n.eventId, env.beyond(0));
    assert r.wireSchema == n.wireSchema && r.data == n.data;
    assert r.methodName == n.methodName <==> n.methodName != Some("");
    assert r.createTime == n.createTime <==> n.createTime != 0;
    assert r.sendTime == n.sendTime <==> n.sendTime != 0;
  }

  lemma SenderKept(w: WireId, beyond: Uuid)
    ensures IdWritten(IdRead(w, beyond)) == w <==> |w.senderId| == 16
  {
    if |w.senderId| == 16 {
      assert (w.senderId + [0] + beyond)[..16] == w.senderId;
    }
  }

  predicate AllTimesSet(v: EventValue) {
    v.createTime != 0 && v.sendTime != 0 && forall key :: key in v.userTimes ==> v.userTimes[key] != 0
  }

  lemma TimesSetIff(m: map<string, Timestamp>)
    ensures TimesSet(SortedTimes(m)) <==> forall key :: key in m ==> m[key] != 0
  {
    StringOrder();
    InOrderMembers(m.Keys, StringLess);
    EntriesAt(m, InOrder(m.Keys, StringLess));
    if TimesSet(SortedTimes(m)) {
      forall key | key in m
        ensures m[key] != 0
      {
        SortedLists(m, key, m[key], StringLess);
      }
    }
  }

  /** Of the encoded events, those pass unchanged that carry their wire schema and no zero time. */
  lemma EncodedCanonicalIff(v: EventValue, wireSchema: string, data: seq<byte>)
    requires v.id.Some?
    ensures Canonical(Encoded(v, wireSchema, data)) <==>
      AllTimesSet(v) && WIRE_SCHEMA in v.userInfos && v.userInfos[WIRE_SCHEMA] == wireSchema
  {
    hide SortedEntries;
    hide InOrder;
    StringOrder();
    IdOrder();
    SortedRoundTrip(v.userInfos, StringLess);
    SortedRoundTrip(v.userTimes, StringLess);
    SortedLists(v.userInfos, WIRE_SCHEMA, wireSchema, StringLess);
    TimesSetIff(v.userTimes);
    InOrderLists(v.causes, IdLess);
    WrittenIdsAreFull(SortedIds(v.causes));
    PrintEndsWithSeparator(v.scope.components);
  }

  lemma WrittenIdsAreFull(list: seq<EventId>)
    ensures FullIds(IdsWritten(list)) && FullIdsRead(IdsWritten(list)) == list
  {
  }

  /** The event as its receiver is to see it; the data type is not transmitted. */
  function Received(v: EventValue, wireSchema: string, data: seq<byte>, now: Timestamp): EventValue {
    v.(dataType := "", data := data, receiveTime := now, userInfos := v.userInfos[WIRE_SCHEMA := wireSchema])
  }

  /** Reading back what was written gives the event, but for zero times. */
  lemma RoundTripIff(v: EventValue, wireSchema: string, data: seq<byte>, env: Surroundings)
    requires v.id.Some? && env.now != 0
    ensures Decoded(Encoded(v, wireSchema, data), true, env) == Received(v, wireSchema, data, env.now) <==>
      AllTimesSet(v)
  {
    hide SortedEntries;
    hide InOrder;
    hide FromEntries;
    StringOrder();
    var n := Encoded(v, wireSchema, data);
    var d := Decoded(n, true, env);
    IdRoundTrip(v.id.value, env.beyond(0));
    DenotesUnique(v.scope.scopestring, v.scope.components, ScopeNamed(v.scope.scopestring).components);
    SortedRoundTrip(v.userInfos, StringLess);
    IdsRoundTrip(v.causes, env.beyond);
    TimesReadBackIff(v.userTimes, env.now);
  }

  lemma TimesReadBackIff(m: map<string, Timestamp>, now: Timestamp)
    requires now != 0
    ensures FromEntries(Stamped(SortedTimes(m), now)) == m <==> forall key :: key in m ==> m[key] != 0
  {
    StringOrder();
    var list := SortedTimes(m);
    SortedRoundTrip(m, StringLess);
    TimesSetIff(m);
    StampedIff(list, now);
    if !TimesSet(list) {
      var i :| 0 <= i < |list| && list[i].1 == 0;
      var stamped := Stamped(list, now);
      assert KeysOf(stamped) == KeysOf(list);
      DistinctKeys(stamped, i, StringLess);
      DistinctKeys(list, i, StringLess);
    }
  }

  // ---------------------------------------------------------------------
  // From the sender over any number of servers
  // ---------------------------------------------------------------------

  /** The event the out connector hands to its bus. */
  function Submitted(v: EventValue, now: Timestamp, wireSchema: string, wireData: seq<byte>): EventValue {
    v.(sendTime := now, data := wireData, userInfos := v.userInfos[WIRE_SCHEMA := wireSchema])
  }

  /** The serializing converter either throws or yields a wire schema and the wire data. */
  method OutConnectorHandle(event: Event, now: Timestamp, serialized: Option<(string, seq<byte>)>)
      returns (busEvent: Option<Event>)
    modifies event.metaData`sendTime
    ensures event.Value() == old(event.Value()).(sendTime := now)
    ensures busEvent.Some? <==> serialized.Some?
    ensures busEvent.Some? ==> fresh(busEvent.value) && fresh(busEvent.value.metaData)
    ensures busEvent.Some? ==>
      busEvent.value.Value() == Submitted(old(event.Value()), now, serialized.value.0, serialized.value.1)
    ensures busEvent.Some? ==> var sent := busEvent.value;
      && sent.id == event.id && sent.scope == event.scope && sent.methodName == event.methodName
      && sent.causes == event.causes && sent.data == serialized.value.1
      && sent.metaData.createTime == event.metaData.createTime && sent.metaData.sendTime == now
      && sent.metaData.userTimes == event.metaData.userTimes
      && sent.metaData.userInfos == event.metaData.userInfos["rsb.wire-schema" := serialized.value.0]
  {
    event.metaData.SetSendTime(0, now);
    if serialized.None? {
      return None;
    }
    var copy := new Event.Copy(event);
    copy.data := serialized.value.1;
    copy.metaData.SetUserInfo(WIRE_SCHEMA, serialized.value.0);
    return Some(copy);
  }

  /** No clock stands at zero. */
  predicate Timely(hops: seq<Surroundings>) {
    forall i :: 0 <= i < |hops| ==> hops[i].now != 0
  }

  /** A notification after one server per element of `hops`. */
  ghost function Hops(n: Notification, hops: seq<Surroundings>): Notification
    requires NamesScope(n.scope)
    decreases |hops|
  {
    if hops == [] then n else Hops(Relayed(n, hops[0]), hops[1..])
  }

  lemma {:induction false} CanonicalHops(n: Notification, hops: seq<Surroundings>)
    requires NamesScope(n.scope) && Canonical(n) && Timely(hops)
    ensures Hops(n, hops) == n
    decreases |hops|
  {
    if hops != [] {
      RelayIff(n, hops[0]);
      CanonicalHops(n, hops[1..]);
    }
  }

  /** Whatever comes in, the first server settles it: later servers change nothing more. */
  lemma FirstHopSettles(n: Notification, first: Surroundings, hops: seq<Surroundings>)
    requires NamesScope(n.scope) && first.now != 0 && Timely(hops)
    ensures Hops(n, [first] + hops) == Relayed(n, first)
  {
    hide Canonical;
    var v := Decoded(n, true, first);
    StampedTimesSet(n, first);
    EncodedCanonicalIff(v, v.userInfos[WIRE_SCHEMA], v.data);
    CanonicalHops(Relayed(n, first), hops);
    assert ([first] + hops)[1..] == hops;
  }

  lemma StampedTimesSet(n: Notification, env: Surroundings)
    requires NamesScope(n.scope) && env.now != 0
    ensures AllTimesSet(Decoded(n, true, env))
  {
    TimesKept(n.userTimes, env.now);
    TimesSetIff(FromEntries(Stamped(n.userTimes, env.now)));
  }

  /** A chain of servers passes exactly what one server passes. */
  lemma HopsIff(n: Notification, hops: seq<Surroundings>)
    requires NamesScope(n.scope) && hops != [] && Timely(hops)
    ensures Hops(n, hops) == n <==> Canonical(n)
  {
    hide Canonical;
    hide Relayed;
    hide Hops;
    RelayIff(n, hops[0]);
    assert hops == [hops[0]] + hops[1..];
    FirstHopSettles(n, hops[0], hops[1..]);
  }

  /**
   An event sent by the out connector reaches the client behind any number of servers as
   the notification its sender wrote, exactly when its create and user times are not zero.
   */
  lemma SentUnchangedIff(
    v: EventValue, now: Timestamp, wireSchema: string, wireData: seq<byte>, hops: seq<Surroundings>)
    requires v.id.Some? && now != 0 && hops != [] && Timely(hops)
    ensures var n := Encoded(Submitted(v, now, wireSchema, wireData), wireSchema, wireData);
      Hops(n, hops) == n <==> v.createTime != 0 && forall key :: key in v.userTimes ==> v.userTimes[key] != 0
  {
    hide Encoded;
    hide Canonical;
    var s := Submitted(v, now, wireSchema, wireData);
    var n := Encoded(s, wireSchema, wireData);
    EncodedCanonicalIff(s, wireSchema, wireData);
    HopsIff(n, hops);
  }

  /**
   A zero does get in, through dates: an event created at the epoch, and given a user time
   by a date before it, leaves the sender with zeros and the first server with its clock.
   */
  method SendEpoch(id: EventId, key: string, date: Date, now: Timestamp, wireSchema: string, wireData: seq<byte>,
                   env: Surroundings)
    returns (sent: Notification, forwarded: Notification)
    requires date < 0 && env.now != 0
    ensures sent.createTime == 0 && sent.userTimes == [(key, 0)]
    ensures forwarded.createTime == env.now && forwarded.userTimes == [(key, env.now)]
    ensures NamesScope(sent.scope) && forwarded == Relayed(sent, env) != sent
  {
    var event := new Event(now);
    event.id := Some(id);
    var created := event.metaData.SetCreateDate(0);
    var marked := event.metaData.SetUserDate(key, date);
    var busEvent := OutConnectorHandle(event, now, Some((wireSchema, wireData)));
    var written := EventToNotification(busEvent.value, wireSchema, wireData);
    sent := written.value;
    OneTime(key, 0);
    OneTime(key, env.now);
    var relayed := Forward(sent, env);
    forwarded := relayed.value;
    assert Stamped([(key, 0)], env.now) == [(key, env.now)];
    assert FromEntries([(key, env.now)]) == map[key := env.now] by {
      assert [(key, env.now)][..0] == [];
    }
  }

  lemma OneTime(key: string, time: Timestamp)
    ensures SortedTimes(map[key := time]) == [(key, time)]
  {
    StringOrder();
    var list := [(key, time)];
    assert list[..0] == [];
    SortedIffAscending(list, StringLess);
  }
}
