/** Both routers side by side over whole histories of registrations, removals, events and expiries. */
module Routers {
  import opened Scopes
  import opened Routing
  import opened InprocessBus
  import opened ScopeDispatching

  datatype Operation =
    | Add(sink: Sink)
    | Remove(sink: Sink)
    | Event(scope: Scope)
    | Expire(sink: Sink)

  datatype State = State(index: SinkMap, store: SinkMap, registered: set<Sink>, expired: set<Sink>)

  const INITIAL: State := State(map[], map[], {}, {})

  /**
   One operation applied to both routers. A sink is registered at most once at a
   time and while its owner holds it; expiry may strike any sink at any time.
   */
  ghost predicate Step(s: State, op: Operation, s': State) {
    match op
    case Add(sink) =>
      && sink !in s.registered && sink !in s.expired
      && Added(s.index, s'.index, sink) && s'.store == Inserted(s.store, sink)
      && s'.registered == s.registered + {sink} && s'.expired == s.expired
    case Remove(sink) =>
      && sink in s.registered
      && s'.index == Removed(s.index, sink, s.expired) && s'.store == Erased(s.store, sink, s.expired)
      && s'.registered == s.registered - {sink} && s'.expired == s.expired
    case Event(scope) =>
      Filled(s.index, s'.index, scope) && s' == s.(index := s'.index)
    case Expire(sink) =>
      s' == s.(expired := s.expired + {sink})
  }

  ghost predicate History(states: seq<State>, ops: seq<Operation>) {
    && |states| == |ops| + 1 && states[0] == INITIAL
    && forall i :: 0 <= i < |ops| ==> Step(states[i], ops[i], states[i + 1])
  }

  /** Every removal in the history finds its sink removable from the cached index. */
  ghost predicate CleanRemovals(states: seq<State>, ops: seq<Operation>)
    requires |states| == |ops| + 1
  {
    forall i :: 0 <= i < |ops| && ops[i].Remove? ==> Removable(states[i].index, ops[i].sink, states[i].expired)
  }

  ghost predicate Correct(s: State) {
    Exact(s.index, s.registered, s.expired) && Stored(s.store, s.registered, s.expired)
  }

  lemma StepKeepsStored(s: State, op: Operation, s': State)
    requires Stored(s.store, s.registered, s.expired) && Step(s, op, s')
    ensures Stored(s'.store, s'.registered, s'.expired)
  {
    match op
    case Add(sink) => InsertKeepsStored(s.store, sink, s.registered, s.expired);
    case Remove(sink) => EraseKeepsStored(s.store, sink, s.registered, s.expired);
    case Event(_) =>
    case Expire(_) =>
  }

  /** One step keeps the index exact if and only if it is not an obstructed removal. */
  lemma StepKeepsExactIff(s: State, op: Operation, s': State)
    requires Exact(s.index, s.registered, s.expired) && Step(s, op, s')
    ensures Exact(s'.index, s'.registered, s'.expired) <==>
      (op.Remove? ==> Removable(s.index, op.sink, s.expired))
  {
    match op
    case Add(sink) => AddKeepsExact(s.index, s'.index, sink, s.registered, s.expired);
    case Remove(sink) => RemoveKeepsExactIff(s.index, sink, s.registered, s.expired);
    case Event(scope) => FillKeepsExact(s.index, s'.index, scope, s.registered, s.expired);
    case Expire(sink) =>
      forall key, other | key in s'.index && other !in s'.expired
        ensures multiset(s'.index[key])[other] == Share(other, key, s'.registered, s'.expired)
      {
        assert multiset(s.index[key])[other] == Share(other, key, s.registered, s.expired);
      }
  }

  lemma {:induction false} HistoryCorrect(states: seq<State>, ops: seq<Operation>, n: nat)
    requires History(states, ops) && CleanRemovals(states, ops) && n < |states|
    ensures Correct(states[n])
  {
    if n > 0 {
      HistoryCorrect(states, ops, n - 1);
      StepKeepsStored(states[n - 1], ops[n - 1], states[n]);
      StepKeepsExactIff(states[n - 1], ops[n - 1], states[n]);
    }
  }

  /** The index is exact throughout a history if and only if every removal in it is clean. */
  lemma HistoryExactIff(states: seq<State>, ops: seq<Operation>)
    requires History(states, ops)
    ensures (forall n :: 0 <= n < |states| ==> Exact(states[n].index, states[n].registered, states[n].expired)) <==>
            CleanRemovals(states, ops)
  {
    if CleanRemovals(states, ops) {
      forall n | 0 <= n < |states|
        ensures Exact(states[n].index, states[n].registered, states[n].expired)
      {
        HistoryCorrect(states, ops, n);
      }
    }
    if forall n :: 0 <= n < |states| ==> Exact(states[n].index, states[n].registered, states[n].expired) {
      forall i | 0 <= i < |ops|
        ensures ops[i].Remove? ==> Removable(states[i].index, ops[i].sink, states[i].expired)
      {
        StepKeepsExactIff(states[i], ops[i], states[i + 1]);
      }
    }
  }

  /** One step keeps a sink as due if and only if it is not its own obstructed removal. */
  lemma StepKeepsDueIff(s: State, op: Operation, s': State, sink: Sink)
    requires Due(s.index, sink, s.registered, s.expired) && Step(s, op, s')
    ensures Due(s'.index, sink, s'.registered, s'.expired) <==>
      (op == Remove(sink) ==> Removable(s.index, sink, s.expired))
  {
    hide Removable;
    hide Removed;
    match op
    case Add(other) => AddKeepsDue(s.index, s'.index, other, sink, s.registered, s.expired);
    case Remove(other) =>
      if other == sink {
        RemoveKeepsDueIff(s.index, sink, s.registered, s.expired);
      } else {
        RemoveKeepsOtherDue(s.index, other, sink, s.registered, s.expired);
      }
    case Event(scope) => FillKeepsDue(s.index, s'.index, scope, sink, s.registered, s.expired);
    case Expire(_) =>
  }

  /** The sink is removable from the index whenever the history removes it. */
  ghost predicate CleanRemovalsOf(states: seq<State>, ops: seq<Operation>, sink: Sink)
    requires |states| == |ops| + 1
  {
    forall i :: 0 <= i < |ops| && ops[i] == Remove(sink) ==> Removable(states[i].index, sink, states[i].expired)
  }

  lemma {:induction false} SinkStaysDue(states: seq<State>, ops: seq<Operation>, sink: Sink, n: nat)
    requires History(states, ops) && CleanRemovalsOf(states, ops, sink) && n < |states|
    ensures Due(states[n].index, sink, states[n].registered, states[n].expired)
  {
    hide Removable;
    if n > 0 {
      SinkStaysDue(states, ops, sink, n - 1);
      StepKeepsDueIff(states[n - 1], ops[n - 1], states[n], sink);
    }
  }

  /**
   The entries hold a sink exactly as due throughout a history if and only if its own
   removals are clean, however many removals of other sinks are not.
   */
  lemma SinkDueIff(states: seq<State>, ops: seq<Operation>, sink: Sink)
    requires History(states, ops)
    ensures (forall n :: 0 <= n < |states| ==> Due(states[n].index, sink, states[n].registered, states[n].expired)) <==>
            CleanRemovalsOf(states, ops, sink)
  {
    hide Removable;
    if CleanRemovalsOf(states, ops, sink) {
      forall n | 0 <= n < |states|
        ensures Due(states[n].index, sink, states[n].registered, states[n].expired)
      {
        SinkStaysDue(states, ops, sink, n);
      }
    }
    if forall n :: 0 <= n < |states| ==> Due(states[n].index, sink, states[n].registered, states[n].expired) {
      forall i | 0 <= i < |ops| && ops[i] == Remove(sink)
        ensures Removable(states[i].index, sink, states[i].expired)
      {
        StepKeepsDueIff(states[i], ops[i], states[i + 1], sink);
      }
    }
  }

  /** A sink whose own removals are clean is called by every event of every history as often as it is due. */
  lemma SinkCalledAsDue(states: seq<State>, ops: seq<Operation>, n: nat, sink: Sink, scope: Scope, called: seq<Sink>)
    requires History(states, ops) && CleanRemovalsOf(states, ops, sink) && n < |states|
    requires Handles(states[n].index, scope, states[n].expired, called)
    ensures multiset(called)[sink] == Share(sink, scope, states[n].registered, states[n].expired)
  {
    SinkStaysDue(states, ops, sink, n);
    DeliveryIsDue(states[n].index, scope, sink, states[n].registered, states[n].expired, called);
  }

  /**
   After any history with clean removals, an event on any scope makes the cached
   index and the walking dispatcher call the same sinks, each as often as it is due.
   */
  lemma RoutersAgree(states: seq<State>, ops: seq<Operation>, n: nat, scope: Scope, called: seq<Sink>)
    requires History(states, ops) && CleanRemovals(states, ops) && n < |states|
    requires Handles(states[n].index, scope, states[n].expired, called)
    ensures CalledExactly(called, scope, states[n].registered, states[n].expired)
    ensures multiset(called) == multiset(Dispatched(states[n].store, scope, states[n].expired))
  {
    var s := states[n];
    HistoryCorrect(states, ops, n);
    DeliveryIsExact(s.index, scope, s.registered, s.expired, called);
    WalkIsExact(s.store, scope, s.registered, s.expired);
    forall sink
      ensures multiset(called)[sink] == multiset(Dispatched(s.store, scope, s.expired))[sink]
    {
      assert multiset(called)[sink] == Share(sink, scope, s.registered, s.expired);
    }
  }

  /** The dispatcher needs no condition on removals: it is right after every history. */
  lemma {:induction false} DispatcherAlwaysExact(states: seq<State>, ops: seq<Operation>, n: nat, scope: Scope)
    requires History(states, ops) && n < |states|
    ensures Stored(states[n].store, states[n].registered, states[n].expired)
    ensures CalledExactly(Dispatched(states[n].store, scope, states[n].expired), scope,
                          states[n].registered, states[n].expired)
  {
    if n > 0 {
      DispatcherAlwaysExact(states, ops, n - 1, scope);
      StepKeepsStored(states[n - 1], ops[n - 1], states[n]);
    }
    WalkIsExact(states[n].store, scope, states[n].registered, states[n].expired);
  }

  /** No live registered sink is ever lost by the index, not even after obstructed removals. */
  ghost predicate NothingLost(index: SinkMap, registered: set<Sink>, expired: set<Sink>) {
    forall sink :: sink in registered && sink !in expired ==>
      && sink.scope in index
      && forall key :: key in index && Covers(sink.scope, key) ==> sink in index[key]
  }

  lemma StepLosesNothing(s: State, op: Operation, s': State)
    requires NothingLost(s.index, s.registered, s.expired) && Step(s, op, s')
    ensures NothingLost(s'.index, s'.registered, s'.expired)
  {
    match op
    case Add(sink) =>
      var filled :| Filled(s.index, filled, sink.scope) && s'.index == Appended(filled, sink);
      FillLosesNothing(s.index, filled, sink.scope, s.registered, s.expired);
    case Remove(sink) =>
      RemoveLosesNothing(s.index, sink, s.registered, s.expired);
    case Event(scope) =>
      FillLosesNothing(s.index, s'.index, scope, s.registered, s.expired);
    case Expire(_) =>
  }

  /** Removing a sink keeps every other live one in the entries. */
  lemma RemoveLosesNothing(index: SinkMap, sink: Sink, registered: set<Sink>, expired: set<Sink>)
    requires NothingLost(index, registered, expired)
    ensures NothingLost(Removed(index, sink, expired), registered - {sink}, expired)
  {
    hide RemoveFirst;
    forall other, key | other in registered - {sink} && other !in expired && key in index && other in index[key]
      ensures other in RemoveFirst(index[key], sink, expired)
    {
      RemoveFirstCount(index[key], sink, expired, other);
      CountPositive(index[key], other);
      CountPositive(RemoveFirst(index[key], sink, expired), other);
    }
    forall other | other in registered - {sink} && other !in expired
      ensures other.scope in Removed(index, sink, expired)
    {
      assert other in index[other.scope];
    }
  }

  lemma FillLosesNothing(before: SinkMap, after: SinkMap, scope: Scope, registered: set<Sink>, expired: set<Sink>)
    requires NothingLost(before, registered, expired) && Filled(before, after, scope)
    ensures NothingLost(after, registered, expired)
  {
    forall sink | scope !in before && sink in registered && sink !in expired && Covers(sink.scope, scope)
      ensures sink in after[scope]
    {
      assert sink.scope in before && sink in before[sink.scope];
      CountPositive(after[scope], sink);
    }
  }

  lemma {:induction false} HistoryLosesNothing(states: seq<State>, ops: seq<Operation>, n: nat)
    requires History(states, ops) && n < |states|
    ensures NothingLost(states[n].index, states[n].registered, states[n].expired)
  {
    if n > 0 {
      HistoryLosesNothing(states, ops, n - 1);
      StepLosesNothing(states[n - 1], ops[n - 1], states[n]);
    }
  }

  /**
   The condition on removals matters: two sinks on one scope, the first expires, the
   second is removed while alive. The index keeps the second and goes on calling it;
   the dispatcher does not.
   */
  lemma LingeringSink(first: Sink, second: Sink) returns (states: seq<State>, ops: seq<Operation>)
    requires first != second && first.scope == second.scope
    ensures History(states, ops) && ops == [Add(first), Add(second), Expire(first), Remove(second)]
    ensures second !in states[4].registered && second !in states[4].expired
    ensures states[4] == State(map[first.scope := [second]], map[], {first}, {first})
    ensures Handles(states[4].index, first.scope, states[4].expired, [second])
    ensures Dispatched(states[4].store, first.scope, states[4].expired) == []
  {
    var scope := first.scope;
    var s1 := State(map[scope := [first]], map[scope := [first]], {first}, {});
    var s2 := State(map[scope := [first, second]], map[scope := [first, second]], {first, second}, {});
    var s3 := s2.(expired := {first});
    var s4 := State(map[scope := [second]], map[], {first}, {first});
    states := [INITIAL, s1, s2, s3, s4];
    ops := [Add(first), Add(second), Expire(first), Remove(second)];
    FirstAddition(first, INITIAL, s1);
    SecondAddition(first, second, s1, s2);
    ObstructedRemoval(first, second, s3, s4);
    assert forall i :: 0 <= i < 4 ==> Step(states[i], ops[i], states[i + 1]);
    assert Handles(s4.index, scope, {first}, [second]) by {
      assert Filled(s4.index, s4.index, scope) && Live([second], {first}) == [second];
    }
    EmptyWalk(scope, |scope.components| + 1, {first});
  }

  /** A sink left behind and added again is called twice for one event. */
  lemma DoubledSink(first: Sink, second: Sink) returns (states: seq<State>, ops: seq<Operation>)
    requires first != second && first.scope == second.scope
    ensures History(states, ops) && ops == [Add(first), Add(second), Expire(first), Remove(second), Add(second)]
    ensures states[5].registered == {first, second} && second !in states[5].expired
    ensures Handles(states[5].index, first.scope, states[5].expired, [second, second])
    ensures Dispatched(states[5].store, first.scope, states[5].expired) == [second]
  {
    var scope := first.scope;
    var before, start := LingeringSink(first, second);
    var s4 := before[4];
    var s5 := State(map[scope := [second, second]], map[scope := [second]], {first, second}, {first});
    AgainAdded(first, second, s4, s5);
    states, ops := before + [s5], start + [Add(second)];
    assert forall i :: 0 <= i < 5 ==> Step(states[i], ops[i], states[i + 1]);
    assert Filled(s5.index, s5.index, scope) && Live([second, second], {first}) == [second, second];
    OneWalk(second, {first});
  }

  lemma FirstAddition(first: Sink, s: State, s': State)
    requires s == INITIAL
    requires s' == State(map[first.scope := [first]], map[first.scope := [first]], {first}, {})
    ensures Step(s, Add(first), s')
  {
    var filled: SinkMap := map[first.scope := []];
    assert [] + [first] == [first];
    assert Filled(s.index, filled, first.scope) && s'.index == Appended(filled, first);
  }

  lemma SecondAddition(first: Sink, second: Sink, s: State, s': State)
    requires first != second && first.scope == second.scope
    requires s == State(map[first.scope := [first]], map[first.scope := [first]], {first}, {})
    requires s' == State(map[first.scope := [first, second]], map[first.scope := [first, second]], {first, second}, {})
    ensures Step(s, Add(second), s')
  {
    assert [first] + [second] == [first, second];
    assert Filled(s.index, s.index, first.scope) && s'.index == Appended(s.index, second);
  }

  lemma ObstructedRemoval(first: Sink, second: Sink, s: State, s': State)
    requires first != second && first.scope == second.scope
    requires s == State(map[first.scope := [first, second]], map[first.scope := [first, second]],
                        {first, second}, {first})
    requires s' == State(map[first.scope := [second]], map[], {first}, {first})
    ensures Step(s, Remove(second), s')
  {
    assert [first, second][1..] == [second];
    assert RemoveFirst([first, second], second, {first}) == [second];
    assert Swept([second], second, {first}) == [] && Swept([first, second], second, {first}) == [];
    assert s'.index == Removed(s.index, second, {first});
    assert s'.store == Erased(s.store, second, {first});
  }

  lemma AgainAdded(first: Sink, second: Sink, s: State, s': State)
    requires first != second && first.scope == second.scope
    requires s == State(map[first.scope := [second]], map[], {first}, {first})
    requires s' == State(map[first.scope := [second, second]], map[first.scope := [second]], {first, second}, {first})
    ensures Step(s, Add(second), s')
  {
    assert [second] + [second] == [second, second] && [] + [second] == [second];
    assert Filled(s.index, s.index, first.scope) && s'.index == Appended(s.index, second);
    assert s'.store == Inserted(s.store, second);
  }

  /** Only the last super-scope walked is the sink's own. */
  lemma OneWalk(sink: Sink, expired: set<Sink>)
    requires sink !in expired
    ensures Dispatched(map[sink.scope := [sink]], sink.scope, expired) == [sink]
  {
    var n := |sink.scope.components|;
    WalkAbove(sink, n, expired);
    AncestorIs(sink.scope, sink.scope, n);
    assert Live([sink], expired) == [sink];
  }

  lemma {:induction false} WalkAbove(sink: Sink, n: nat, expired: set<Sink>)
    requires n <= |sink.scope.components|
    ensures Walk(map[sink.scope := [sink]], sink.scope, n, expired) == []
  {
    if n > 0 {
      WalkAbove(sink, n - 1, expired);
      AncestorIs(sink.scope, sink.scope, n - 1);
    }
  }

  lemma {:induction false} EmptyWalk(scope: Scope, n: nat, expired: set<Sink>)
    requires n <= |scope.components| + 1
    ensures Walk(map[], scope, n, expired) == []
  {
    if n > 0 {
      EmptyWalk(scope, n - 1, expired);
    }
  }
}
