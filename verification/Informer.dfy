/** Publishing: the checks made on an event and the ids it gets. */
module Informers {
  import opened Wrappers
  import opened Bytes
  import opened Scopes
  import opened Events

  datatype PublishError = EmptyType | TypeMismatch | ScopeMismatch | TransportFailed

  /** The id of the publish number `n` of an informer. */
  function IdOf(informer: Uuid, n: nat): EventId {
    EventId(informer, n % TWO32)
  }

  /** Ids repeat exactly after 2^32 publishes of one informer. */
  lemma SameIdIff(p: Uuid, i: nat, q: Uuid, j: nat)
    ensures IdOf(p, i) == IdOf(q, j) <==> p == q && (i - j) % TWO32 == 0
    ensures i < TWO32 && j < TWO32 && IdOf(p, i) == IdOf(q, j) ==> i == j
  {
  }

  class Informer {
    const id: Uuid
    const dataType: string
    const scope: Scope
    var currentSequenceNumber: SequenceNumber

    // Every event that got an id from this informer, as published.
    ghost var published: seq<EventValue>

    ghost predicate Valid()
      reads this
    {
      && currentSequenceNumber == |published| % TWO32
      && forall i :: 0 <= i < |published| ==> published[i].id == Some(IdOf(id, i))
    }

    constructor (id: Uuid, dataType: string, scope: Scope)
      ensures Valid() && published == []
      ensures this.id == id && this.dataType == dataType && this.scope == scope
    {
      this.id, this.dataType, this.scope := id, dataType, scope;
      currentSequenceNumber, published := 0, [];
    }

    /** The reason an event is refused before it gets an id. */
    ghost function Refusal(event: EventValue): Option<PublishError> {
      if event.dataType == "" then Some(EmptyType)
      else if dataType != "" && event.dataType != dataType then Some(TypeMismatch)
      else if !Covers(scope, event.scope) then Some(ScopeMismatch)
      else None
    }

    /** A connector may throw while it hands the event on; the event keeps its id. */
    method CheckedPublish(event: Event, throws: bool) returns (error: Option<PublishError>)
      requires Valid()
      modifies this, event`id
      ensures Valid()
      ensures error == Some(EmptyType) <==> old(event.dataType) == ""
      ensures error == Some(TypeMismatch) <==>
        old(event.dataType) != "" && dataType != "" && old(event.dataType) != dataType
      ensures error == Some(ScopeMismatch) <==>
        && old(event.dataType) != "" && (dataType == "" || old(event.dataType) == dataType)
        && !(scope.scopestring <= old(event.scope.scopestring))
      ensures error.None? || error == Some(TransportFailed) ==>
        event.id == Some(EventId(id, old(currentSequenceNumber)))
      ensures old(Refusal(event.Value())).Some? ==>
        error == old(Refusal(event.Value())) && published == old(published) && event.Value() == old(event.Value())
      ensures old(Refusal(event.Value())).None? ==>
        && error == (if throws then Some(TransportFailed) else None)
        && event.Value() == old(event.Value()).(id := Some(IdOf(id, old(|published|))))
        && published == old(published) + [event.Value()]
    {
      if event.dataType == "" {
        return Some(EmptyType);
      }
      if dataType != "" && event.dataType != dataType {
        return Some(TypeMismatch);
      }
      var below := IsSubScopeOf(event.scope, scope);
      EqualityViews(event.scope, scope);
      HierarchyViews(scope, event.scope);
      if event.scope.scopestring != scope.scopestring && !below {
        return Some(ScopeMismatch);
      }
      error := UncheckedPublish(event, throws);
    }

    method UncheckedPublish(event: Event, throws: bool) returns (error: Option<PublishError>)
      requires Valid()
      modifies this, event`id
      ensures Valid()
      ensures error == if throws then Some(TransportFailed) else None
      ensures event.Value() == old(event.Value()).(id := Some(IdOf(id, old(|published|))))
      ensures published == old(published) + [event.Value()]
    {
      var number := NextSequenceNumber();
      event.id := Some(EventId(id, number));
      published := published + [event.Value()];
      return if throws then Some(TransportFailed) else None;
    }

    /** Post-increment of a 32-bit counter. */
    method NextSequenceNumber() returns (number: SequenceNumber)
      modifies this`currentSequenceNumber
      ensures number == old(currentSequenceNumber)
      ensures currentSequenceNumber == (old(currentSequenceNumber) + 1) % TWO32
    {
      number := currentSequenceNumber;
      currentSequenceNumber := (currentSequenceNumber + 1) % TWO32;
    }
  }
}
