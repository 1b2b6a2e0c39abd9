/** The two ends of a method as objects: futures that are set, maps that are updated, replies filled in place. */
module Methods {
  import opened Wrappers
  import opened Bytes
  import opened Ordering
  import opened Scopes
  import opened Events
  import opened Informers
  import opened RequestReply

  class Future {
    var outcome: Outcome

    constructor ()
      ensures outcome == Unset
    {
      outcome := Unset;
    }
  }

  /** What the caller's event looks like after a call; without a type it is addressed but gets no id. */
  function Addressed(me: Uuid, scope: Scope, event: EventValue, n: nat): EventValue {
    if event.dataType == "" then event.(scope := scope, methodName := REQUEST) else Request(me, scope, event, n)
  }

  class RemoteMethod {
    const informer: Informer
    var inprogress: map<EventId, Future>

    // The futures handed out, by number of the publish, and the number behind each pending id.
    ghost var issued: map<nat, Future>
    ghost var numbers: map<EventId, nat>

    ghost predicate Valid()
      reads this, informer
    {
      && informer.Valid() && informer.dataType == ""
      && numbers.Keys == inprogress.Keys
      && (forall id :: id in inprogress ==> numbers[id] in issued && issued[numbers[id]] == inprogress[id])
      && (forall i, j :: i in issued && j in issued && issued[i] == issued[j] ==> i == j)
      && (forall n :: n in issued ==> n < |informer.published|)
    }

    ghost function Outcomes(): map<nat, Outcome>
      reads this, issued.Values
    {
      map n | n in issued :: issued[n].outcome
    }

    /** The client this object implements. */
    ghost function Abstract(): Client
      requires Valid()
      reads this, informer, issued.Values
    {
      Client(informer.published, Outcomes(), numbers)
    }

    constructor (informer: Informer)
      requires informer.Valid() && informer.dataType == "" && informer.published == []
      ensures Valid() && Abstract() == NEW_CLIENT
      ensures this.informer == informer
    {
      this.informer := informer;
      inprogress, issued, numbers := map[], map[], map[];
    }

    /** An event without a type, or a connector that throws, leaves the caller with an exception. */
    method Call(request: Event, throws: bool) returns (result: Option<Future>)
      requires Valid()
      modifies this, informer, request
      ensures Valid()
      ensures result.Some? <==> old(request.dataType) != "" && !throws
      ensures Abstract() == Called(old(Abstract()), informer.id, informer.scope, old(request.Value()), throws)
      ensures issued == if result.Some? then old(issued)[|old(informer.published)| := result.value] else old(issued)
      ensures result.Some? ==> fresh(result.value) && result.value.outcome == Unset && request.id.Some?
      ensures inprogress == if result.Some? && request.id.value !in old(inprogress)
                            then old(inprogress)[request.id.value := result.value] else old(inprogress)
      ensures request.Value() == Addressed(informer.id, informer.scope, old(request.Value()), |old(informer.published)|)
      ensures request.scope == informer.scope && request.methodName == "REQUEST"
      ensures request.dataType == old(request.dataType) && request.data == old(request.data)
      ensures request.causes == old(request.causes) && unchanged(request.metaData)
      ensures old(request.dataType) != "" ==>
        informer.published == old(informer.published) + [request.Value()]
      ensures old(request.dataType) == "" ==>
        informer.published == old(informer.published) && request.id == old(request.id)
    {
      hide Request;
      hide IdOf;
      var future := new Future();
      var error := Publish(request, throws);
      if error.Some? {
        return None;
      }
      Register(request.id.value, |old(informer.published)|, future);
      return Some(future);
    }

    method Publish(request: Event, throws: bool) returns (error: Option<PublishError>)
      requires Valid()
      modifies informer, request
      ensures Valid()
      ensures error.None? <==> old(request.dataType) != "" && !throws
      ensures old(request.dataType) == "" ==> informer.published == old(informer.published)
      ensures old(request.dataType) != "" ==>
        && request.id == Some(IdOf(informer.id, |old(informer.published)|))
        && informer.published == old(informer.published) +
             [Request(informer.id, informer.scope, old(request.Value()), |old(informer.published)|)]
      ensures request.scope == informer.scope && request.methodName == "REQUEST"
      ensures request.dataType == old(request.dataType) && request.data == old(request.data)
      ensures request.causes == old(request.causes)
      ensures old(request.dataType) != "" ==>
        informer.published == old(informer.published) + [request.Value()]
      ensures request.Value() == Addressed(informer.id, informer.scope, old(request.Value()), |old(informer.published)|)
    {
      request.scope := informer.scope;
      request.methodName := REQUEST;
      error := informer.CheckedPublish(request, throws);
    }

    /** Storing a future under an id that is already in the map does nothing to the map. */
    method Register(id: EventId, ghost n: nat, future: Future)
      requires Valid() && n < |informer.published| && n !in issued && future !in issued.Values
      requires future.outcome == Unset
      modifies this`inprogress, this`numbers, this`issued
      ensures Valid() && issued == old(issued)[n := future]
      ensures inprogress == if id !in old(inprogress) then old(inprogress)[id := future] else old(inprogress)
      ensures Outcomes() == old(Outcomes())[n := Unset]
      ensures numbers == if id in old(numbers) then old(numbers) else old(numbers)[id := n]
    {
      if id !in inprogress {
        inprogress := inprogress[id := future];
        numbers := numbers[id := n];
      }
      issued := issued[n := future];
      assert forall k :: k in old(issued) ==> issued[k] == old(issued)[k] != future;
    }

    /**
     Completes at most the one future waited for under the smallest cause; `asserted` says
     whether the debug assertion on error replies holds where it is reached.
     */
    method Handle(event: Event?) returns (asserted: bool)
      requires Valid()
      modifies this`inprogress, this`numbers, issued.Values
      ensures Valid()
      ensures event == null ==> Abstract() == old(Abstract())
      ensures event != null ==> Abstract() == Handled(old(Abstract()), event.Value())
      ensures asserted <==>
        (event != null && old(Matches(Abstract(), event.Value())) && "rsb:error?" in event.metaData.userInfos ==>
           event.dataType == "std::string")
      ensures event == null || event.causes == {} ==> inprogress == old(inprogress) && Outcomes() == old(Outcomes())
      ensures event != null && event.causes != {} ==>
        var id := FirstCause(event.Value());
        && inprogress == old(inprogress) - {id}
        && forall n :: n in issued ==> (issued[n].outcome ==
             if id !in old(inprogress) || old(inprogress)[id] != issued[n] then old(issued[n].outcome)
             else if "rsb:error?" in event.metaData.userInfos then Error(ErrorText(event.data))
             else Value(event.Value()))
    {
      hide ErrorText;
      hide FirstCause;
      asserted := true;
      if event == null || event.causes == {} {
        return;
      }
      var requestId := SmallestCause(event);
      if requestId !in inprogress {
        return;
      }
      asserted := Asserted(event.Value());
      Complete(requestId, OutcomeOf(event.Value()));
    }

    /** The first element of the set of causes. */
    static method SmallestCause(event: Event) returns (id: EventId)
      requires event.causes != {}
      ensures Least(id, event.causes, IdLess) && FirstCause(event.Value()) == id
    {
      IdOrder();
      LeastExists(event.causes, IdLess);
      id :| id in event.causes && Least(id, event.causes, IdLess);
      FirstCauseIs(event.Value(), id);
    }

    /** Takes the future out of the map and sets it. */
    method Complete(id: EventId, outcome: Outcome)
      requires Valid() && id in inprogress
      modifies this`inprogress, this`numbers, inprogress[id]
      ensures Valid()
      ensures Outcomes() == old(Outcomes())[old(numbers[id]) := outcome]
      ensures numbers == old(numbers) - {id} && inprogress == old(inprogress) - {id}
      ensures old(inprogress)[id].outcome == outcome
    {
      var result := inprogress[id];
      inprogress := inprogress - {id};
      numbers := numbers - {id};
      result.outcome := outcome;
    }
  }

  /** What calling the user's callback comes to: an exception, typed data, or an event object. */
  datatype Callback = Raises(what: seq<byte>) | Yields(dataType: string, data: seq<byte>) | Hands(event: Event)

  ghost function ResultOf(callback: Callback): CallbackResult
    reads if callback.Hands? then {callback.event, callback.event.metaData} else {}
  {
    match callback
    case Raises(what) => Threw(what)
    case Yields(dataType, data) => Typed(dataType, data)
    case Hands(event) => Returned(event.Value())
  }

  class LocalMethod {
    const informer: Informer
    // The request type of a typed callback.
    const requestType: Option<string>

    ghost predicate Valid()
      reads this, informer
    {
      informer.Valid() && informer.dataType == ""
    }

    constructor (informer: Informer, requestType: Option<string>)
      requires informer.Valid() && informer.dataType == ""
      ensures Valid()
      ensures this.informer == informer && this.requestType == requestType
    {
      this.informer, this.requestType := informer, requestType;
    }

    /** There is a reply: the request has the expected type and an id, and the callback's reply has a type. */
    predicate Answers(event: Event, callback: Callback)
      reads this, event, if callback.Hands? then {callback.event} else {}
    {
      && (requestType.Some? ==> event.dataType == requestType.value)
      && event.id.Some?
      && (callback.Yields? ==> callback.dataType != "") && (callback.Hands? ==> callback.event.dataType != "")
    }

    /** The callback may hand out the very request it was given. */
    method Handle(event: Event, callback: Callback, now: Timestamp, throws: bool) returns (published: bool)
      requires Valid()
      modifies informer, if callback.Hands? then {callback.event} else {}
      ensures Valid()
      ensures published ==> !throws
      ensures old(Replies(requestType, event.Value(), ResultOf(callback), now)) ==>
        && published == !throws
        && informer.published == old(informer.published) +
             [Reply(informer.id, informer.scope, old(event.id.value), old(ResultOf(callback)), now,
                    |old(informer.published)|)]
      ensures !old(Replies(requestType, event.Value(), ResultOf(callback), now)) ==>
        !published && informer.published == old(informer.published)
      ensures old(Answers(event, callback)) <==> informer.published != old(informer.published)
      ensures old(Answers(event, callback)) ==>
        && |informer.published| == |old(informer.published)| + 1
        && Carries(informer.published[|old(informer.published)|], informer.scope, old(event.id.value),
                   old(ResultOf(callback)))
    {
      ghost var result := ResultOf(callback);
      RepliesIff(requestType, event.Value(), result, now);
      if event.id.Some? {
        ReplyCarries(informer.id, informer.scope, event.id.value, result, now, |informer.published|);
      }
      hide Carries;
      hide Produced;
      if requestType.Some? && event.dataType != requestType.value {
        return false;
      }
      var reply := Produce(callback, now);
      reply.scope := informer.scope;
      reply.methodName := REPLY;
      if event.id.None? {
        return false;
      }
      published := Dispatch(reply, event.id.value, throws);
    }

    /** Adds the cause and publishes; a reply without a type is refused. */
    method Dispatch(reply: Event, cause: EventId, throws: bool) returns (published: bool)
      requires Valid() && reply.scope == informer.scope
      modifies informer, reply`causes, reply`id
      ensures Valid()
      ensures published <==> old(reply.dataType) != "" && !throws
      ensures old(reply.dataType) == "" ==> informer.published == old(informer.published)
      ensures old(reply.dataType) != "" ==>
        informer.published == old(informer.published) +
          [old(reply.Value()).(causes := old(reply.causes) + {cause},
                               id := Some(IdOf(informer.id, |old(informer.published)|)))]
    {
      var _ := reply.AddCause(cause);
      var error := informer.CheckedPublish(reply, throws);
      published := error.None?;
    }

    /** The reply event before it is addressed; a thrown exception becomes a marked string. */
    static method Produce(callback: Callback, now: Timestamp) returns (reply: Event)
      ensures reply.Value() == Produced(ResultOf(callback), now)
      ensures callback.Hands? ==> reply == callback.event
      ensures !callback.Hands? ==> fresh(reply) && fresh(reply.metaData)
    {
      match callback
      case Raises(what) =>
        reply := new Event(now);
        reply.dataType, reply.data := STRING_TYPE, what;
        reply.metaData.SetUserInfo(ERROR_INFO, "");
      case Yields(dataType, data) =>
        reply := new Event(now);
        reply.dataType, reply.data := dataType, data;
      case Hands(event) =>
        reply := event;
    }
  }
}
