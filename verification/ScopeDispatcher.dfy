/**
 The cache-free router: each sink is stored once, under its own scope, and the
 super-scopes of an event's scope are walked when the event is dispatched. Sinks
 are referenced weakly.
 */
module ScopeDispatching {
  import opened Wrappers
  import opened Scopes
  import opened Routing

  datatype Missing = ShouldNotHappen

  function Inserted(store: SinkMap, sink: Sink): SinkMap {
    store[sink.scope := (if sink.scope in store then store[sink.scope] else []) + [sink]]
  }

  /** The list without `sink` and without dangling pointers. */
  function Swept(list: seq<Sink>, sink: Sink, expired: set<Sink>): seq<Sink> {
    if list == [] then []
    else if list[0] in expired || list[0] == sink then Swept(list[1..], sink, expired)
    else [list[0]] + Swept(list[1..], sink, expired)
  }

  /** Removing from the list of one scope; a missing scope is an error and changes nothing. */
  function Erased(store: SinkMap, sink: Sink, expired: set<Sink>): SinkMap {
    if sink.scope !in store then store
    else
      var list := Swept(store[sink.scope], sink, expired);
      if list == [] then store - {sink.scope} else store[sink.scope := list]
  }

  /** The sinks called for `scope`: the live ones of the first `n` super-scopes, root first. */
  function Walk(store: SinkMap, scope: Scope, n: nat, expired: set<Sink>): seq<Sink>
    requires n <= |scope.components| + 1
  {
    if n == 0 then []
    else
      var key := Ancestor(scope, n - 1);
      Walk(store, scope, n - 1, expired) + if key in store then Live(store[key], expired) else []
  }

  function Dispatched(store: SinkMap, scope: Scope, expired: set<Sink>): seq<Sink> {
    Walk(store, scope, |scope.components| + 1, expired)
  }

  /**
   Each key holds sinks of that very scope, never an empty list, and among the
   live sinks exactly the registered ones, once each.
   */
  ghost predicate Stored(store: SinkMap, registered: set<Sink>, expired: set<Sink>) {
    && (forall key :: key in store ==> store[key] != [])
    && (forall key, sink :: key in store && sink in store[key] ==> sink.scope == key)
    && (forall sink :: sink in registered && sink !in expired ==> sink.scope in store)
    && (forall sink :: sink !in expired && sink.scope in store ==>
          multiset(store[sink.scope])[sink] == if sink in registered then 1 else 0)
  }

  lemma InsertKeepsStored(store: SinkMap, sink: Sink, registered: set<Sink>, expired: set<Sink>)
    requires Stored(store, registered, expired) && sink !in registered && sink !in expired
    ensures Stored(Inserted(store, sink), registered + {sink}, expired)
  {
  }

  lemma {:induction false} SweptCount(list: seq<Sink>, sink: Sink, expired: set<Sink>, other: Sink)
    ensures multiset(Swept(list, sink, expired))[other] ==
      if other == sink || other in expired then 0 else multiset(list)[other]
  {
    if list != [] {
      assert list == [list[0]] + list[1..];
      SweptCount(list[1..], sink, expired, other);
    }
  }

  /** One step of the sweep. */
  lemma SweptAt(list: seq<Sink>, it: nat, sink: Sink, expired: set<Sink>)
    requires it < |list|
    ensures list[it] in expired || list[it] == sink ==>
      var rest := list[..it] + list[it + 1..];
      list[..it] + Swept(list[it..], sink, expired) == rest[..it] + Swept(rest[it..], sink, expired)
    ensures !(list[it] in expired || list[it] == sink) ==>
      list[..it] + Swept(list[it..], sink, expired) == list[..it + 1] + Swept(list[it + 1..], sink, expired)
  {
  }

  lemma SweptNone(list: seq<Sink>, sink: Sink, expired: set<Sink>)
    ensures list[..|list|] + Swept(list[|list|..], sink, expired) == list
  {
  }

  lemma EraseCount(store: SinkMap, sink: Sink, registered: set<Sink>, expired: set<Sink>, other: Sink)
    requires Stored(store, registered, expired) && other !in expired
    ensures other in registered - {sink} ==> other.scope in Erased(store, sink, expired)
    ensures other.scope in Erased(store, sink, expired) ==>
      multiset(Erased(store, sink, expired)[other.scope])[other] == if other in registered - {sink} then 1 else 0
  {
    hide Swept;
    if sink.scope in store && sink.scope == other.scope {
      SweptCount(store[sink.scope], sink, expired, other);
      CountPositive(Swept(store[sink.scope], sink, expired), other);
    }
  }

  lemma EraseShrinks(store: SinkMap, sink: Sink, expired: set<Sink>, key: Scope, other: Sink)
    requires key in Erased(store, sink, expired) && other in Erased(store, sink, expired)[key]
    ensures key in store && other in store[key]
  {
    hide Swept;
    if key == sink.scope {
      SweptCount(store[key], sink, expired, other);
      CountPositive(store[key], other);
      CountPositive(Swept(store[key], sink, expired), other);
    }
  }

  /** Removal keeps the store right for every sink, expired or not, and whatever else has expired. */
  lemma EraseKeepsStored(store: SinkMap, sink: Sink, registered: set<Sink>, expired: set<Sink>)
    requires Stored(store, registered, expired)
    ensures Stored(Erased(store, sink, expired), registered - {sink}, expired)
  {
    var erased := Erased(store, sink, expired);
    assert forall key :: key in erased ==> erased[key] != [];
    hide Erased;
    forall key: Scope, other: Sink | key in erased && other in erased[key]
      ensures other.scope == key
    {
      EraseShrinks(store, sink, expired, key, other);
    }
    forall other: Sink | other !in expired && other in registered - {sink}
      ensures other.scope in erased
    {
      EraseCount(store, sink, registered, expired, other);
    }
    forall other: Sink | other !in expired && other.scope in erased
      ensures multiset(erased[other.scope])[other] == if other in registered - {sink} then 1 else 0
    {
      EraseCount(store, sink, registered, expired, other);
    }
  }

  /** Removing a live registered sink never meets the missing-scope error. */
  lemma LiveRemovalSucceeds(store: SinkMap, sink: Sink, registered: set<Sink>, expired: set<Sink>)
    requires Stored(store, registered, expired) && sink in registered && sink !in expired
    ensures sink.scope in store && sink in store[sink.scope]
    ensures sink.scope in Erased(store, sink, expired) ==> sink !in Erased(store, sink, expired)[sink.scope]
  {
    CountPositive(store[sink.scope], sink);
    EraseKeepsStored(store, sink, registered, expired);
    if sink.scope in Erased(store, sink, expired) {
      CountPositive(Erased(store, sink, expired)[sink.scope], sink);
    }
  }

  lemma {:induction false} WalkCount(
    store: SinkMap, scope: Scope, n: nat, registered: set<Sink>, expired: set<Sink>, sink: Sink)
    requires Stored(store, registered, expired) && n <= |scope.components| + 1
    ensures multiset(Walk(store, scope, n, expired))[sink] ==
      if |sink.scope.components| < n then Share(sink, scope, registered, expired) else 0
  {
    if n > 0 {
      WalkCount(store, scope, n - 1, registered, expired, sink);
      var key := Ancestor(scope, n - 1);
      var step := if key in store then Live(store[key], expired) else [];
      assert multiset(Walk(store, scope, n, expired))[sink]
          == multiset(Walk(store, scope, n - 1, expired))[sink] + multiset(step)[sink];
      AncestorIs(sink.scope, scope, n - 1);
      WalkStep(store, key, registered, expired, sink);
    }
  }

  lemma AncestorIs(upper: Scope, scope: Scope, k: nat)
    requires k <= |scope.components|
    ensures upper == Ancestor(scope, k) <==> Covers(upper, scope) && |upper.components| == k
  {
    if Covers(upper, scope) && |upper.components| == k {
      assert upper.components == scope.components[..k];
      assert upper.scopestring == Print(upper.components);
    }
  }

  /** The list of one key holds the live registered sinks of that very scope. */
  lemma WalkStep(store: SinkMap, key: Scope, registered: set<Sink>, expired: set<Sink>, sink: Sink)
    requires Stored(store, registered, expired)
    ensures multiset(if key in store then Live(store[key], expired) else [])[sink] ==
      if sink.scope == key && sink in registered && sink !in expired then 1 else 0
  {
    if key in store {
      LiveCount(store[key], expired, sink);
      CountPositive(store[key], sink);
    }
  }

  /** Walking the super-scopes delivers by the simple rule. */
  lemma WalkIsExact(store: SinkMap, scope: Scope, registered: set<Sink>, expired: set<Sink>)
    requires Stored(store, registered, expired)
    ensures CalledExactly(Dispatched(store, scope, expired), scope, registered, expired)
  {
    forall sink
      ensures multiset(Dispatched(store, scope, expired))[sink] == Share(sink, scope, registered, expired)
    {
      WalkCount(store, scope, |scope.components| + 1, registered, expired, sink);
    }
  }

  /**
   The order of the calls: the live sinks stored under a super-scope are called in their
   stored order, after those of all shorter super-scopes and before those of all longer ones.
   */
  lemma DispatchOrder(store: SinkMap, scope: Scope, k: nat, registered: set<Sink>, expired: set<Sink>)
      returns (before: seq<Sink>, after: seq<Sink>)
    requires Stored(store, registered, expired) && k <= |scope.components|
    ensures var key := Ancestor(scope, k);
      Dispatched(store, scope, expired) ==
        before + (if key in store then Live(store[key], expired) else []) + after
    ensures forall sink :: sink in before ==> |sink.scope.components| < k
    ensures forall sink :: sink in after ==> |sink.scope.components| > k
  {
    before := Walk(store, scope, k, expired);
    after := WalkOn(store, scope, k + 1, |scope.components| + 1, registered, expired);
    forall sink | sink in before
      ensures |sink.scope.components| < k
    {
      WalkCount(store, scope, k, registered, expired, sink);
    }
  }

  /** The part of a walk after the first `n` super-scopes. */
  lemma {:induction false} WalkOn(store: SinkMap, scope: Scope, n: nat, m: nat, registered: set<Sink>,
                                  expired: set<Sink>)
      returns (rest: seq<Sink>)
    requires Stored(store, registered, expired) && n <= m <= |scope.components| + 1
    ensures Walk(store, scope, m, expired) == Walk(store, scope, n, expired) + rest
    ensures forall sink :: sink in rest ==> |sink.scope.components| >= n
  {
    if n == m {
      rest := [];
    } else {
      var earlier := WalkOn(store, scope, n, m - 1, registered, expired);
      var key := Ancestor(scope, m - 1);
      var step := if key in store then Live(store[key], expired) else [];
      forall sink | sink in step
        ensures sink.scope == key
      {
        LiveCount(store[key], expired, sink);
        CountPositive(step, sink);
        CountPositive(store[key], sink);
      }
      rest := earlier + step;
    }
  }

  class WeakScopeDispatcher {
    var sinks: SinkMap

    constructor ()
      ensures sinks == map[] && Stored(sinks, {}, {})
    {
      sinks := map[];
    }

    method AddSink(sink: Sink)
      modifies this
      ensures sinks == Inserted(old(sinks), sink)
    {
      if sink.scope !in sinks {
        sinks := sinks[sink.scope := []];
      }
      sinks := sinks[sink.scope := sinks[sink.scope] + [sink]];
    }

    method RemoveSink(sink: Sink, expired: set<Sink>) returns (r: Result<(), Missing>)
      modifies this
      ensures r.Success? <==> sink.scope in old(sinks)
      ensures sinks == Erased(old(sinks), sink, expired)
    {
      if sink.scope !in sinks {
        return Failure(ShouldNotHappen);
      }
      var list := SweepList(sinks[sink.scope], sink, expired);
      sinks := sinks[sink.scope := list];
      if list == [] {
        sinks := sinks - {sink.scope};
        assert sinks == old(sinks) - {sink.scope};
      }
      return Success(());
    }

    /** The loop that erases while it iterates. */
    method SweepList(original: seq<Sink>, sink: Sink, expired: set<Sink>) returns (list: seq<Sink>)
      ensures list == Swept(original, sink, expired)
    {
      hide Swept;
      list := original;
      var it := 0;
      while it < |list|
        invariant it <= |list|
        invariant Swept(original, sink, expired) == list[..it] + Swept(list[it..], sink, expired)
        decreases |list| - it
      {
        SweptAt(list, it, sink, expired);
        if list[it] in expired || list[it] == sink {
          list := list[..it] + list[it + 1..];
        } else {
          it := it + 1;
        }
      }
      SweptNone(list, sink, expired);
    }

    method MapSinks(scope: Scope, expired: set<Sink>) returns (called: seq<Sink>)
      requires |scope.scopestring| < SIZE_LIMIT
      ensures called == Dispatched(sinks, scope, expired)
    {
      var scopes := SuperScopes(scope, true);
      called := [];
      var it := 0;
      while it < |scopes|
        invariant it <= |scopes| && called == Walk(sinks, scope, it, expired)
      {
        if scopes[it] in sinks {
          var list := sinks[scopes[it]];
          ghost var before := called;
          var inner := 0;
          while inner < |list|
            invariant inner <= |list| && called == before + Live(list[..inner], expired)
          {
            assert list[..inner + 1] == list[..inner] + [list[inner]];
            LiveConcat(list[..inner], [list[inner]], expired);
            if list[inner] !in expired {
              called := called + [list[inner]];
            }
            inner := inner + 1;
          }
          assert list[..inner] == list;
        }
        it := it + 1;
      }
    }
  }
}
