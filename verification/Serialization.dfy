/**
 Turning events into notifications and back, and the relay that does both: a server
 receives a notification, hands the event on and sends it to its other clients.
 */
module Serialization {
  import opened Wrappers
  import opened Bytes
  import opened Ordering
  import opened Sequences
  import opened Scopes
  import opened Events

  const WIRE_SCHEMA: string := "rsb.wire-schema"

  /** An event id on the wire. */
  datatype WireId = WireId(senderId: seq<byte>, sequenceNumber: SequenceNumber)

  type Infos = seq<(string, string)>

  type Times = seq<(string, Timestamp)>

  datatype Notification = Notification(
    eventId: WireId, scope: string, methodName: Option<string>, wireSchema: string, data: seq<byte>,
    createTime: Timestamp, sendTime: Timestamp, userInfos: Infos, userTimes: Times, causes: seq<WireId>)

  /**
   What a conversion takes from outside: the time, and the sixteen bytes in memory behind
   each sender id, the notification's own first, then those of its causes. They show only
   where an id on the wire is too short.
   */
  datatype Surroundings = Surroundings(now: Timestamp, beyond: nat -> Uuid)

  /** A sender id is followed by a terminating zero; sixteen bytes are read whatever its length. */
  function IdRead(w: WireId, beyond: Uuid): EventId {
    EventId((w.senderId + [0] + beyond)[..16], w.sequenceNumber)
  }

  function IdWritten(id: EventId): WireId {
    WireId(id.participantId, id.sequenceNumber)
  }

  function IdsRead(ids: seq<WireId>, beyond: nat -> Uuid): (list: seq<EventId>)
    ensures |list| == |ids| && forall i :: 0 <= i < |ids| ==> list[i] == IdRead(ids[i], beyond(i + 1))
  {
    seq(|ids|, i requires 0 <= i < |ids| => IdRead(ids[i], beyond(i + 1)))
  }

  function IdsWritten(list: seq<EventId>): (ids: seq<WireId>)
    ensures |ids| == |list| && forall i :: 0 <= i < |list| ==> ids[i] == IdWritten(list[i])
  {
    seq(|list|, i requires 0 <= i < |list| => IdWritten(list[i]))
  }

  /** User times as stored: a zero is replaced by the current time. */
  function Stamped(times: Times, now: Timestamp): (list: Times)
    ensures |list| == |times|
    ensures forall i :: 0 <= i < |times| ==> list[i] == (times[i].0, Stamp(times[i].1, now))
  {
    seq(|times|, i requires 0 <= i < |times| => (times[i].0, Stamp(times[i].1, now)))
  }

  ghost predicate NamesScope(s: string) {
    exists components :: Denotes(s, components)
  }

  ghost function ScopeNamed(s: string): (scope: Scope)
    requires NamesScope(s)
    ensures Denotes(s, scope.components)
  {
    var components :| Denotes(s, components);
    ScopeOf(components)
  }

  ghost function InfosRead(n: Notification, exposeWireSchema: bool): map<string, string> {
    if exposeWireSchema then FromEntries(n.userInfos)[WIRE_SCHEMA := n.wireSchema] else FromEntries(n.userInfos)
  }

  /** The event a notification stands for. */
  ghost function Decoded(n: Notification, exposeWireSchema: bool, env: Surroundings): EventValue
    requires NamesScope(n.scope)
  {
    EventValue(
      Some(IdRead(n.eventId, env.beyond(0))), ScopeNamed(n.scope), "",
      if n.methodName.Some? then n.methodName.value else "",
      Elements(IdsRead(n.causes, env.beyond)), n.data,
      Stamp(n.createTime, env.now), Stamp(n.sendTime, env.now), env.now,
      FromEntries(Stamped(n.userTimes, env.now)), InfosRead(n, exposeWireSchema))
  }

  ghost function SortedInfos(m: map<string, string>): Infos {
    StringOrder();
    SortedEntries(m, StringLess)
  }

  ghost function SortedTimes(m: map<string, Timestamp>): Times {
    StringOrder();
    SortedEntries(m, StringLess)
  }

  ghost function SortedIds(s: set<EventId>): seq<EventId> {
    IdOrder();
    InOrder(s, IdLess)
  }

  /** The notification for an event, with its infos, times and causes in key order. */
  ghost function Encoded(v: EventValue, wireSchema: string, data: seq<byte>): (n: Notification)
    requires v.id.Some?
    ensures NamesScope(n.scope)
  {
    assert Denotes(v.scope.scopestring, v.scope.components);
    Notification(
      IdWritten(v.id.value), v.scope.scopestring, if v.methodName != "" then Some(v.methodName) else None,
      wireSchema, data,
      v.createTime, v.sendTime, SortedInfos(v.userInfos), SortedTimes(v.userTimes), IdsWritten(SortedIds(v.causes)))
  }

  // ---------------------------------------------------------------------
  // What the fields hold
  // ---------------------------------------------------------------------

  /** What remains to be written of a map once only the keys `left` have not been visited. */
  ghost function Remaining<V>(m: map<string, V>, left: set<string>): seq<(string, V)>
    requires left <= m.Keys
  {
    StringOrder();
    InOrderMembers(left, StringLess);
    Entries(m, InOrder(left, StringLess))
  }

  lemma KeysSorted<V>(m: map<string, V>, list: seq<(string, V)>)
    requires list == Remaining(m, m.Keys)
    ensures forall key, value :: (key, value) in list <==> key in m && m[key] == value
    ensures forall i, j :: 0 <= i < j < |list| ==> StringLess(list[i].0, list[j].0)
  {
    StringOrder();
    SortedRoundTrip(m, StringLess);
    forall key, value { SortedLists(m, key, value, StringLess); }
    forall i, j | 0 <= i < j < |list|
      ensures StringLess(list[i].0, list[j].0)
    {
      assert StringLess(KeysOf(list)[i], KeysOf(list)[j]);
    }
  }

  /** Sorted entries are the entries of the map, each key before every later one as strings compare. */
  lemma SortedByKey<V>(m: map<string, V>, list: seq<(string, V)>)
    requires list == Remaining(m, m.Keys)
    ensures forall key, value :: (key, value) in list <==> key in m && m[key] == value
    ensures forall i, j :: 0 <= i < j < |list| ==>
      || list[i].0 < list[j].0
      || exists k :: 0 <= k < |list[i].0| && k < |list[j].0|
                     && list[i].0[..k] == list[j].0[..k] && list[i].0[k] < list[j].0[k]
  {
    KeysSorted(m, list);
    hide *;
    forall i, j | 0 <= i < j < |list|
      ensures
        || list[i].0 < list[j].0
        || exists k :: 0 <= k < |list[i].0| && k < |list[j].0|
                       && list[i].0[..k] == list[j].0[..k] && list[i].0[k] < list[j].0[k]
    {
      StringLessIff(list[i].0, list[j].0);
    }
  }

  /** Written causes are the causes, smaller sequence numbers first, then smaller first differing bytes. */
  lemma SortedById(causes: set<EventId>, ids: seq<WireId>)
    requires ids == IdsWritten(SortedIds(causes))
    ensures forall w :: w in ids <==>
      |w.senderId| == 16 && EventId(w.senderId, w.sequenceNumber) in causes
    ensures forall i, j :: 0 <= i < j < |ids| ==>
      || ids[i].sequenceNumber < ids[j].sequenceNumber
      || (&& ids[i].sequenceNumber == ids[j].sequenceNumber
          && |ids[i].senderId| == |ids[j].senderId| == 16
          && exists k :: 0 <= k < 16 && ids[i].senderId[..k] == ids[j].senderId[..k]
                         && ids[i].senderId[k] < ids[j].senderId[k])
  {
    IdOrder();
    var list := SortedIds(causes);
    InOrderLists(causes, IdLess);
    forall w
      ensures w in ids <==> |w.senderId| == 16 && EventId(w.senderId, w.sequenceNumber) in causes
    {
      if w in ids {
        var i :| 0 <= i < |ids| && ids[i] == w;
        assert list[i] in Elements(list);
      }
      if |w.senderId| == 16 && EventId(w.senderId, w.sequenceNumber) in causes {
        assert EventId(w.senderId, w.sequenceNumber) in Elements(list);
        var i :| 0 <= i < |list| && list[i] == EventId(w.senderId, w.sequenceNumber);
        assert ids[i] == w;
      }
    }
    forall i, j | 0 <= i < j < |ids| {
      IdLessIff(list[i], list[j]);
    }
  }

  /** What a map read from a list holds: the last entry under each key of the list. */
  lemma LastEntriesHold<V>(list: seq<(string, V)>)
    ensures forall key :: key in FromEntries(list) <==> exists i :: 0 <= i < |list| && list[i].0 == key
    ensures forall i :: 0 <= i < |list| && (forall j :: i < j < |list| ==> list[j].0 != list[i].0) ==>
      list[i].0 in FromEntries(list) && FromEntries(list)[list[i].0] == list[i].1
  {
    FromEntriesKeys(list);
    var keys := KeysOf(list);
    forall key
      ensures key in FromEntries(list) <==> exists i :: 0 <= i < |list| && list[i].0 == key
    {
      assert key in FromEntries(list) <==> key in Elements(keys);
      if key in keys {
        var i :| 0 <= i < |keys| && keys[i] == key;
        assert list[i].0 == key;
      }
      if i :| 0 <= i < |list| && list[i].0 == key {
        assert keys[i] == key;
      }
    }
    forall i | 0 <= i < |list| && (forall j :: i < j < |list| ==> list[j].0 != list[i].0) {
      LastWins(list, i);
    }
  }

  /** The fields of a decoded event but for its user times, user infos and causes. */
  lemma DecodedFields(n: Notification, exposeWireSchema: bool, env: Surroundings)
    requires NamesScope(n.scope)
    ensures var v := Decoded(n, exposeWireSchema, env);
      && v.id == Some(EventId((n.eventId.senderId + [0] + env.beyond(0))[..16], n.eventId.sequenceNumber))
      && (|n.eventId.senderId| >= 16 ==> v.id.value.participantId == n.eventId.senderId[..16])
      && Denotes(n.scope, v.scope.components)
      && v.dataType == ""
      && v.methodName == (if n.methodName.Some? then n.methodName.value else "")
      && v.data == n.data
      && (n.createTime != 0 ==> v.createTime == n.createTime) && (n.createTime == 0 ==> v.createTime == env.now)
      && (n.sendTime != 0 ==> v.sendTime == n.sendTime) && (n.sendTime == 0 ==> v.sendTime == env.now)
      && v.receiveTime == env.now
  {
    hide FromEntries;
    if |n.eventId.senderId| >= 16 {
      assert (n.eventId.senderId + [0] + env.beyond(0))[..16] == n.eventId.senderId[..16];
    }
  }

  /** The user times, user infos and causes of a decoded event. */
  lemma DecodedCollections(n: Notification, exposeWireSchema: bool, env: Surroundings)
    requires NamesScope(n.scope)
    ensures var v, times := Decoded(n, exposeWireSchema, env).userTimes, n.userTimes;
      && (forall key :: key in v <==> exists i :: 0 <= i < |times| && times[i].0 == key)
      && (forall i :: 0 <= i < |times| && (forall j :: i < j < |times| ==> times[j].0 != times[i].0) ==>
        times[i].0 in v && v[times[i].0] == if times[i].1 == 0 then env.now else times[i].1)
    ensures var v, infos := Decoded(n, exposeWireSchema, env).userInfos, n.userInfos;
      && (forall key :: key in v <==>
        (exposeWireSchema && key == "rsb.wire-schema") || exists i :: 0 <= i < |infos| && infos[i].0 == key)
      && (exposeWireSchema ==> v["rsb.wire-schema"] == n.wireSchema)
      && (forall i :: 0 <= i < |infos| && (forall j :: i < j < |infos| ==> infos[j].0 != infos[i].0) ==>
        (exposeWireSchema && infos[i].0 == "rsb.wire-schema") || v[infos[i].0] == infos[i].1)
    ensures forall id :: id in Decoded(n, exposeWireSchema, env).causes <==>
      exists i :: 0 <= i < |n.causes| && id == EventId((n.causes[i].senderId + [0] + env.beyond(i + 1))[..16],
                                                       n.causes[i].sequenceNumber)
  {
    hide FromEntries;
    var stamped := Stamped(n.userTimes, env.now);
    LastEntriesHold(stamped);
    LastEntriesHold(n.userInfos);
    var ids := IdsRead(n.causes, env.beyond);
    forall id
      ensures id in Elements(ids) <==> exists i :: 0 <= i < |ids| && id == ids[i]
    {
    }
  }

  // ---------------------------------------------------------------------
  // The two conversions
  // ---------------------------------------------------------------------

  method NotificationToEvent(n: Notification, exposeWireSchema: bool, env: Surroundings)
      returns (r: Result<Event, SyntaxError>)
    ensures r.Success? <==> NamesScope(n.scope)
    ensures r.Success? ==> fresh(r.value) && fresh(r.value.metaData)
    ensures r.Success? ==> r.value.Value() == Decoded(n, exposeWireSchema, env)
  {
    hide FromEntries;
    hide Denotes;
    var now := env.now;
    var event := new Event(now);
    var metaData := event.metaData;
    metaData.SetCreateTime(n.createTime, now);
    metaData.SetSendTime(n.sendTime, now);
    metaData.SetReceiveTime(0, now);
    event.id := Some(IdRead(n.eventId, env.beyond(0)));
    var parsed := VerifyAndSplit(n.scope);
    if parsed.Failure? {
      return Failure(parsed.error);
    }
    event.scope := parsed.value;
    DenotesUnique(n.scope, parsed.value.components, ScopeNamed(n.scope).components);
    if n.methodName.Some? {
      event.methodName := n.methodName.value;
    }
    ReadInfos(n.userInfos, metaData);
    ReadTimes(n.userTimes, metaData, now);
    ReadCauses(n.causes, event, env.beyond);
    event.data := n.data;
    if exposeWireSchema {
      metaData.SetUserInfo(WIRE_SCHEMA, n.wireSchema);
    }
    return Success(event);
  }

  method ReadInfos(infos: Infos, metaData: MetaData)
    requires metaData.userInfos == map[]
    modifies metaData`userInfos
    ensures metaData.userInfos == FromEntries(infos)
  {
    var i := 0;
    while i < |infos|
      invariant 0 <= i <= |infos|
      invariant metaData.userInfos == FromEntries(infos[..i])
    {
      assert infos[..i + 1][..i] == infos[..i];
      metaData.SetUserInfo(infos[i].0, infos[i].1);
      i := i + 1;
    }
    assert infos[..i] == infos;
  }

  method ReadTimes(times: Times, metaData: MetaData, now: Timestamp)
    requires metaData.userTimes == map[]
    modifies metaData`userTimes
    ensures metaData.userTimes == FromEntries(Stamped(times, now))
  {
    ghost var stamped := Stamped(times, now);
    var i := 0;
    while i < |times|
      invariant 0 <= i <= |times|
      invariant metaData.userTimes == FromEntries(stamped[..i])
    {
      assert stamped[..i + 1][..i] == stamped[..i];
      metaData.SetUserTime(times[i].0, times[i].1, now);
      i := i + 1;
    }
    assert stamped[..i] == stamped;
  }

  method ReadCauses(ids: seq<WireId>, event: Event, beyond: nat -> Uuid)
    requires event.causes == {}
    modifies event`causes
    ensures event.causes == Elements(IdsRead(ids, beyond))
  {
    ghost var list := IdsRead(ids, beyond);
    var i := 0;
    while i < |ids|
      invariant 0 <= i <= |ids|
      invariant event.causes == Elements(list[..i])
    {
      assert list[..i + 1] == list[..i] + [list[i]];
      var _ := event.AddCause(IdRead(ids[i], beyond(i + 1)));
      i := i + 1;
    }
    assert list[..i] == list;
  }

  /** An event without an id cannot be sent. */
  method EventToNotification(event: Event, wireSchema: string, data: seq<byte>) returns (r: Option<Notification>)
    ensures r.Some? <==> event.id.Some?
    ensures r.Some? ==> r.value == Encoded(event.Value(), wireSchema, data)
    ensures r.Some? ==>
      && r.value.eventId == WireId(event.id.value.participantId, event.id.value.sequenceNumber)
      && r.value.scope == event.scope.scopestring
      && r.value.methodName == (if event.methodName == "" then None else Some(event.methodName))
      && r.value.wireSchema == wireSchema && r.value.data == data
      && r.value.createTime == event.metaData.createTime && r.value.sendTime == event.metaData.sendTime
    ensures r.Some? ==> var infos := r.value.userInfos;
      && (forall key, value :: (key, value) in infos <==>
        key in event.metaData.userInfos && event.metaData.userInfos[key] == value)
      && (forall i, j :: 0 <= i < j < |infos| ==>
        || infos[i].0 < infos[j].0
        || exists k :: 0 <= k < |infos[i].0| && k < |infos[j].0|
                       && infos[i].0[..k] == infos[j].0[..k] && infos[i].0[k] < infos[j].0[k])
    ensures r.Some? ==> var times := r.value.userTimes;
      && (forall key, time :: (key, time) in times <==>
        key in event.metaData.userTimes && event.metaData.userTimes[key] == time)
      && (forall i, j :: 0 <= i < j < |times| ==>
        || times[i].0 < times[j].0
        || exists k :: 0 <= k < |times[i].0| && k < |times[j].0|
                       && times[i].0[..k] == times[j].0[..k] && times[i].0[k] < times[j].0[k])
    ensures r.Some? ==> var causes := r.value.causes;
      && (forall w :: w in causes <==> |w.senderId| == 16 && EventId(w.senderId, w.sequenceNumber) in event.causes)
      && (forall i, j :: 0 <= i < j < |causes| ==>
        || causes[i].sequenceNumber < causes[j].sequenceNumber
        || (&& causes[i].sequenceNumber == causes[j].sequenceNumber
            && |causes[i].senderId| == |causes[j].senderId| == 16
            && exists k :: 0 <= k < 16 && causes[i].senderId[..k] == causes[j].senderId[..k]
                           && causes[i].senderId[k] < causes[j].senderId[k]))
  {
    if event.id.None? {
      return None;
    }
    var methodName := if event.methodName != "" then Some(event.methodName) else None;
    var infos := WriteEntries(event.metaData.userInfos);
    SortedByKey(event.metaData.userInfos, infos);
    var times := WriteEntries(event.metaData.userTimes);
    SortedByKey(event.metaData.userTimes, times);
    var causes := WriteCauses(event.causes);
    SortedById(event.causes, causes);
    return Some(Notification(
      IdWritten(event.id.value), event.scope.scopestring, methodName, wireSchema, data,
      event.metaData.createTime, event.metaData.sendTime, infos, times, causes));
  }

  lemma WriteSmallest<V>(m: map<string, V>, left: set<string>, key: string, written: seq<(string, V)>)
    requires left <= m.Keys && Least(key, left, StringLess)
    ensures written + Remaining(m, left) == written + [(key, m[key])] + Remaining(m, left - {key})
  {
    StringOrder();
    TakeSmallestEntry(m, left, key, StringLess);
  }

  method WriteEntries<V>(m: map<string, V>) returns (list: seq<(string, V)>)
    ensures list == Remaining(m, m.Keys)
    ensures forall key, value :: (key, value) in list <==> key in m && m[key] == value
    ensures forall i, j :: 0 <= i < j < |list| ==> StringLess(list[i].0, list[j].0)
  {
    hide Entries;
    var left := m.Keys;
    list := [];
    while left != {}
      invariant left <= m.Keys
      invariant list + Remaining(m, left) == Remaining(m, m.Keys)
      decreases |left|
    {
      SmallestString(left);
      var key :| key in left && Least(key, left, StringLess);
      WriteSmallest(m, left, key, list);
      list := list + [(key, m[key])];
      left := left - {key};
    }
    NothingRemains(m);
    KeysSorted(m, list);
  }

  lemma SmallestString(left: set<string>)
    requires left != {}
    ensures exists key :: Least(key, left, StringLess)
  {
    StringOrder();
    LeastExists(left, StringLess);
  }

  lemma NothingRemains<V>(m: map<string, V>)
    ensures Remaining(m, {}) == []
  {
  }

  lemma WriteSmallestId(left: set<EventId>, id: EventId, written: seq<WireId>)
    requires Least(id, left, IdLess)
    ensures written + IdsWritten(SortedIds(left)) == written + [IdWritten(id)] + IdsWritten(SortedIds(left - {id}))
  {
    IdOrder();
    TakeSmallest(left, id, IdLess);
  }

  lemma SmallestId(left: set<EventId>)
    requires left != {}
    ensures exists id :: Least(id, left, IdLess)
  {
    IdOrder();
    LeastExists(left, IdLess);
  }

  method WriteCauses(causes: set<EventId>) returns (ids: seq<WireId>)
    ensures ids == IdsWritten(SortedIds(causes))
  {
    var left := causes;
    ids := [];
    while left != {}
      invariant ids + IdsWritten(SortedIds(left)) == IdsWritten(SortedIds(causes))
      decreases |left|
    {
      SmallestId(left);
      var id :| id in left && Least(id, left, IdLess);
      WriteSmallestId(left, id, ids);
      ids := ids + [IdWritten(id)];
      left := left - {id};
    }
  }
}
