/** Event ids, meta data and events, with the orders under which sorted containers keep them. */
module Events {
  import opened Wrappers
  import opened Bytes
  import opened Ordering
  import opened Scopes

  const TWO64: nat := 0x1_0000_0000_0000_0000

  /** Microseconds since the epoch. */
  type Timestamp = t: nat | t < TWO64

  type Uuid = u: seq<byte> | |u| == 16 witness seq(16, _ => 0)

  type SequenceNumber = n: nat | n < TWO32

  datatype EventId = EventId(participantId: Uuid, sequenceNumber: SequenceNumber)

  predicate ByteLess(a: byte, b: byte) {
    a < b
  }

  predicate CharLess(a: char, b: char) {
    a < b
  }

  predicate StringLess(a: string, b: string) {
    Lexicographic(a, b, CharLess)
  }

  /** The key order of ids: the sequence number decides first. */
  predicate IdLess(a: EventId, b: EventId) {
    if a.sequenceNumber < b.sequenceNumber then true
    else if a.sequenceNumber > b.sequenceNumber then false
    else Lexicographic(a.participantId, b.participantId, ByteLess)
  }

  lemma StringOrder()
    ensures StrictTotal(StringLess)
  {
    assert StrictTotal(CharLess);
    LexStrictTotal(CharLess);
    var order := (a: string, b: string) => Lexicographic(a, b, CharLess);
    assert forall a, b :: StringLess(a, b) == order(a, b);
  }

  /** A proper prefix comes first; otherwise the first character in which the strings differ decides. */
  lemma StringLessIff(a: string, b: string)
    ensures StringLess(a, b) <==>
      a < b || exists k :: 0 <= k < |a| && k < |b| && a[..k] == b[..k] && a[k] < b[k]
  {
    LexicographicIff(a, b, CharLess);
  }

  /** The smaller sequence number comes first; with equal ones the first differing byte decides. */
  lemma IdLessIff(a: EventId, b: EventId)
    ensures IdLess(a, b) <==>
      || a.sequenceNumber < b.sequenceNumber
      || (&& a.sequenceNumber == b.sequenceNumber
          && exists k :: 0 <= k < 16 && a.participantId[..k] == b.participantId[..k]
                         && a.participantId[k] < b.participantId[k])
  {
    LexicographicIff(a.participantId, b.participantId, ByteLess);
  }

  /** Ids are totally ordered, and two ids neither of which is smaller are the same id. */
  lemma IdOrder()
    ensures StrictTotal(IdLess)
  {
    assert StrictTotal(ByteLess);
    LexStrictTotal(ByteLess);
    var order := (a: seq<byte>, b: seq<byte>) => Lexicographic(a, b, ByteLess);
    assert forall a: EventId, b: EventId :: a.sequenceNumber == b.sequenceNumber ==>
      IdLess(a, b) == order(a.participantId, b.participantId);
  }

  /** A date as microseconds since the epoch, negative before it. */
  type Date = d: int | -0x8000_0000_0000_0000 <= d < 0x8000_0000_0000_0000

  datatype InvalidTime = BeforeEpoch

  /** A proposed time of zero asks for the current time. */
  function Stamp(proposed: Timestamp, now: Timestamp): Timestamp {
    if proposed == 0 then now else proposed
  }

  datatype EventValue = EventValue(
    id: Option<EventId>, scope: Scope, dataType: string, methodName: string, causes: set<EventId>, data: seq<byte>,
    createTime: Timestamp, sendTime: Timestamp, receiveTime: Timestamp,
    userTimes: map<string, Timestamp>, userInfos: map<string, string>)

  class MetaData {
    var createTime: Timestamp
    var sendTime: Timestamp
    var receiveTime: Timestamp
    var userTimes: map<string, Timestamp>
    var userInfos: map<string, string>

    constructor (now: Timestamp)
      ensures createTime == now && sendTime == receiveTime == 0 && userTimes == map[] && userInfos == map[]
    {
      createTime, sendTime, receiveTime, userTimes, userInfos := now, 0, 0, map[], map[];
    }

    method SetCreateTime(time: Timestamp, now: Timestamp)
      modifies this`createTime
      ensures createTime == Stamp(time, now)
    {
      if time == 0 {
        createTime := now;
      } else {
        createTime := time;
      }
    }

    method SetSendTime(time: Timestamp, now: Timestamp)
      modifies this`sendTime
      ensures sendTime == Stamp(time, now)
    {
      if time == 0 {
        sendTime := now;
      } else {
        sendTime := time;
      }
    }

    method SetReceiveTime(time: Timestamp, now: Timestamp)
      modifies this`receiveTime
      ensures receiveTime == Stamp(time, now)
    {
      if time == 0 {
        receiveTime := now;
      } else {
        receiveTime := time;
      }
    }

    method SetUserTime(key: string, time: Timestamp, now: Timestamp)
      modifies this`userTimes
      ensures userTimes == old(userTimes)[key := Stamp(time, now)]
    {
      userTimes := userTimes - {key};
      if time == 0 {
        userTimes := userTimes[key := now];
      } else {
        userTimes := userTimes[key := time];
      }
    }

    /** A date is stored as it is: the epoch itself becomes the time zero. */
    method SetCreateDate(date: Date) returns (r: Result<(), InvalidTime>)
      modifies this`createTime
      ensures r.Failure? <==> date < 0
      ensures createTime == if date < 0 then old(createTime) else date
    {
      if date < 0 {
        return Failure(BeforeEpoch);
      }
      createTime := date;
      return Success(());
    }

    /** The entry exists before the date is looked at, so a date before the epoch leaves a zero behind. */
    method SetUserDate(key: string, date: Date) returns (r: Result<(), InvalidTime>)
      modifies this`userTimes
      ensures r.Failure? <==> date < 0
      ensures userTimes == old(userTimes)[key := if date < 0 then 0 else date]
    {
      userTimes := userTimes - {key};
      userTimes := userTimes[key := 0];
      if date < 0 {
        return Failure(BeforeEpoch);
      }
      userTimes := userTimes[key := date];
      return Success(());
    }

    method SetUserInfo(key: string, value: string)
      modifies this`userInfos
      ensures userInfos == old(userInfos)[key := value]
    {
      userInfos := userInfos - {key};
      userInfos := userInfos[key := value];
    }
  }

  class Event {
    var id: Option<EventId>
    var scope: Scope
    var dataType: string
    var methodName: string
    var causes: set<EventId>
    var data: seq<byte>
    const metaData: MetaData

    function Value(): EventValue
      reads this, metaData
    {
      EventValue(id, scope, dataType, methodName, causes, data, metaData.createTime, metaData.sendTime,
                 metaData.receiveTime, metaData.userTimes, metaData.userInfos)
    }

    constructor (now: Timestamp)
      ensures Value() == EventValue(None, ROOT, "", "", {}, [], now, 0, 0, map[], map[])
      ensures fresh(metaData)
    {
      id, scope, dataType, methodName, causes, data := None, ROOT, "", "", {}, [];
      metaData := new MetaData(now);
    }

    /** A copy shares nothing that either side updates. */
    constructor Copy(other: Event)
      ensures Value() == other.Value()
      ensures fresh(metaData)
    {
      id, scope, dataType, methodName := other.id, other.scope, other.dataType, other.methodName;
      causes, data := other.causes, other.data;
      var copy := new MetaData(0);
      copy.createTime, copy.sendTime := other.metaData.createTime, other.metaData.sendTime;
      copy.receiveTime := other.metaData.receiveTime;
      copy.userTimes, copy.userInfos := other.metaData.userTimes, other.metaData.userInfos;
      metaData := copy;
    }

    /** Whether the id was new among the causes. */
    method AddCause(cause: EventId) returns (added: bool)
      modifies this`causes
      ensures causes == old(causes) + {cause} && (added <==> cause !in old(causes))
    {
      added := cause !in causes;
      causes := causes + {cause};
    }
  }
}
