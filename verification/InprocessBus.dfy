/**
 The in-process bus: a routing index that keeps, for each scope it has met, the
 list of all sinks on that scope or above it. Entries are filled on demand and
 every entry is repaired when a sink comes or goes.
 */
module InprocessBus {
  import opened Scopes
  import opened Routing

  // ---------------------------------------------------------------------
  // What the three operations do to the index
  // ---------------------------------------------------------------------

  /** `list` is the duplicate-free union, in any order, of the entries at or above `scope`. */
  ghost predicate Gathered(index: SinkMap, scope: Scope, list: seq<Sink>) {
    forall sink :: multiset(list)[sink] ==
      if exists key :: key in index && Covers(key, scope) && sink in index[key] then 1 else 0
  }

  /** Looking up `scope` turns `before` into `after`. */
  ghost predicate Filled(before: SinkMap, after: SinkMap, scope: Scope) {
    && scope in after
    && (if scope in before then after == before
        else Gathered(before, scope, after[scope]) && after == before[scope := after[scope]])
  }

  /** Every entry at or below the new sink's scope gets the sink as its last element. */
  function Appended(index: SinkMap, sink: Sink): SinkMap {
    map key | key in index :: if Covers(sink.scope, key) then index[key] + [sink] else index[key]
  }

  /** The same while the sub-scopes in `keys` have yet to be visited. */
  function AppendedBut(index: SinkMap, sink: Sink, keys: set<Scope>): SinkMap {
    map key | key in index ::
      if key == sink.scope || (key !in keys && Covers(sink.scope, key)) then index[key] + [sink] else index[key]
  }

  lemma AppendedFirst(index: SinkMap, sink: Sink)
    requires sink.scope in index
    ensures AppendedBut(index, sink, index.Keys) == index[sink.scope := index[sink.scope] + [sink]]
  {
  }

  lemma AppendedNext(index: SinkMap, sink: Sink, keys: set<Scope>, key: Scope)
    requires key in keys && keys <= AppendedBut(index, sink, keys).Keys
    ensures var now := AppendedBut(index, sink, keys);
      AppendedBut(index, sink, keys - {key}) ==
        if key != sink.scope && Covers(sink.scope, key) then now[key := now[key] + [sink]] else now
  {
  }

  lemma AppendedLast(index: SinkMap, sink: Sink)
    ensures AppendedBut(index, sink, {}) == Appended(index, sink)
  {
  }

  ghost predicate Added(before: SinkMap, after: SinkMap, sink: Sink) {
    exists filled :: Filled(before, filled, sink.scope) && after == Appended(filled, sink)
  }

  /** The list without its first element that is `sink` or has expired. */
  function RemoveFirst(list: seq<Sink>, sink: Sink, expired: set<Sink>): seq<Sink> {
    if list == [] then []
    else if list[0] in expired || list[0] == sink then list[1..]
    else [list[0]] + RemoveFirst(list[1..], sink, expired)
  }

  /** Nothing is taken out but the first element that has expired or is the sink. */
  lemma {:induction false} RemoveFirstTakesOne(list: seq<Sink>, i: nat, sink: Sink, expired: set<Sink>)
    requires i <= |list| && forall j :: 0 <= j < i ==> list[j] !in expired && list[j] != sink
    ensures i == |list| ==> RemoveFirst(list, sink, expired) == list
    ensures i < |list| && (list[i] in expired || list[i] == sink) ==>
      RemoveFirst(list, sink, expired) == list[..i] + list[i + 1..]
  {
    if i > 0 {
      RemoveFirstTakesOne(list[1..], i - 1, sink, expired);
    }
  }

  /**
   What a removal leaves: no empty entry, untouched entries where nothing was hit, and
   where something was, the entry without the first element hit.
   */
  lemma RemovedEntries(index: SinkMap, sink: Sink, expired: set<Sink>)
    ensures forall key :: key in Removed(index, sink, expired) ==>
      key in index && Removed(index, sink, expired)[key] != []
    ensures forall key | key in index && index[key] != [] && sink !in index[key] &&
                         (forall other :: other in index[key] ==> other !in expired) ::
      key in Removed(index, sink, expired) && Removed(index, sink, expired)[key] == index[key]
    ensures forall key, i | key in index && 0 <= i < |index[key]| &&
                            (index[key][i] in expired || index[key][i] == sink) &&
                            (forall j :: 0 <= j < i ==> index[key][j] !in expired && index[key][j] != sink) ::
      if |index[key]| == 1 then key !in Removed(index, sink, expired)
      else key in Removed(index, sink, expired) &&
           Removed(index, sink, expired)[key] == index[key][..i] + index[key][i + 1..]
  {
    hide RemoveFirst;
    forall key | key in index && sink !in index[key] && (forall other :: other in index[key] ==> other !in expired)
      ensures RemoveFirst(index[key], sink, expired) == index[key]
    {
      RemoveFirstTakesOne(index[key], |index[key]|, sink, expired);
    }
    forall key, i | key in index && 0 <= i < |index[key]| && (index[key][i] in expired || index[key][i] == sink) &&
        (forall j :: 0 <= j < i ==> index[key][j] !in expired && index[key][j] != sink)
      ensures RemoveFirst(index[key], sink, expired) == index[key][..i] + index[key][i + 1..]
    {
      RemoveFirstTakesOne(index[key], i, sink, expired);
    }
  }

  function Removed(index: SinkMap, sink: Sink, expired: set<Sink>): SinkMap {
    map key | key in index && RemoveFirst(index[key], sink, expired) != [] ::
      RemoveFirst(index[key], sink, expired)
  }

  // ---------------------------------------------------------------------
  // The invariant
  // ---------------------------------------------------------------------

  /**
   Each entry lists every live registered sink at or above its scope once, lists
   no other live sink, and the scope of every live registered sink has an entry.
   */
  ghost predicate Exact(index: SinkMap, registered: set<Sink>, expired: set<Sink>) {
    && (forall key, sink :: key in index && sink !in expired ==>
          multiset(index[key])[sink] == Share(sink, key, registered, expired))
    && (forall sink :: sink in registered && sink !in expired ==> sink.scope in index)
  }

  /** Without expired sinks the invariant pins each entry down as a multiset. */
  lemma ExactEntries(index: SinkMap, registered: set<Sink>, key: Scope)
    requires Exact(index, registered, {}) && key in index
    ensures multiset(index[key]) == multiset(set sink | sink in registered && Covers(sink.scope, key))
  {
  }

  /** One sink is listed everywhere it is to be called, once, and nowhere else; expired sinks are never called. */
  ghost predicate Due(index: SinkMap, sink: Sink, registered: set<Sink>, expired: set<Sink>) {
    sink !in expired ==>
      && (forall key :: key in index ==> multiset(index[key])[sink] == Share(sink, key, registered, expired))
      && (sink in registered ==> sink.scope in index)
  }

  lemma ExactIsDue(index: SinkMap, registered: set<Sink>, expired: set<Sink>)
    ensures Exact(index, registered, expired) <==> forall sink :: Due(index, sink, registered, expired)
  {
    if forall sink :: Due(index, sink, registered, expired) {
      forall key, sink | key in index && sink !in expired
        ensures multiset(index[key])[sink] == Share(sink, key, registered, expired)
      {
        assert Due(index, sink, registered, expired);
      }
      forall sink | sink in registered && sink !in expired
        ensures sink.scope in index
      {
        assert Due(index, sink, registered, expired);
      }
    }
  }

  /** An entry rebuilt from those above holds a sink as due, whatever it holds of other sinks. */
  lemma FillKeepsDue(
    before: SinkMap, after: SinkMap, scope: Scope, sink: Sink, registered: set<Sink>, expired: set<Sink>)
    requires Due(before, sink, registered, expired) && Filled(before, after, scope)
    ensures Due(after, sink, registered, expired)
  {
    if scope !in before && sink !in expired {
      forall key | key in before && Covers(key, scope)
        ensures sink in before[key] <==> Share(sink, key, registered, expired) == 1
        ensures sink in before[key] ==> Share(sink, scope, registered, expired) == 1
      {
        CountPositive(before[key], sink);
        if Covers(sink.scope, key) {
          CoversTransitive(sink.scope, key, scope);
        }
      }
      if Share(sink, scope, registered, expired) == 1 {
        assert sink in before[sink.scope];
      }
    }
  }

  lemma CoversTransitive(a: Scope, b: Scope, c: Scope)
    requires Covers(a, b) && Covers(b, c)
    ensures Covers(a, c)
  {
    assert a.components == b.components[..|a.components|];
    assert a.components == c.components[..|b.components|][..|a.components|];
  }

  lemma FillKeepsExact(before: SinkMap, after: SinkMap, scope: Scope, registered: set<Sink>, expired: set<Sink>)
    requires Exact(before, registered, expired) && Filled(before, after, scope)
    ensures Exact(after, registered, expired)
  {
    ExactIsDue(before, registered, expired);
    forall sink
      ensures Due(after, sink, registered, expired)
    {
      FillKeepsDue(before, after, scope, sink, registered, expired);
    }
    ExactIsDue(after, registered, expired);
  }

  lemma AddKeepsExact(before: SinkMap, after: SinkMap, sink: Sink, registered: set<Sink>, expired: set<Sink>)
    requires Exact(before, registered, expired) && Added(before, after, sink)
    requires sink !in registered && sink !in expired
    ensures Exact(after, registered + {sink}, expired)
  {
    ExactIsDue(before, registered, expired);
    forall other
      ensures Due(after, other, registered + {sink}, expired)
    {
      AddKeepsDue(before, after, sink, other, registered, expired);
    }
    ExactIsDue(after, registered + {sink}, expired);
  }

  /** Adding a sink keeps every other sink as due and makes the new one so. */
  lemma AddKeepsDue(
    before: SinkMap, after: SinkMap, sink: Sink, other: Sink, registered: set<Sink>, expired: set<Sink>)
    requires Due(before, other, registered, expired) && Added(before, after, sink)
    requires sink !in registered && sink !in expired
    ensures Due(after, other, registered + {sink}, expired)
  {
    var filled :| Filled(before, filled, sink.scope) && after == Appended(filled, sink);
    FillKeepsDue(before, filled, sink.scope, other, registered, expired);
    AppendKeepsDue(filled, sink, other, registered, expired);
  }

  lemma AppendKeepsDue(index: SinkMap, sink: Sink, other: Sink, registered: set<Sink>, expired: set<Sink>)
    requires Due(index, other, registered, expired) && sink.scope in index
    requires sink !in registered && sink !in expired
    ensures Due(Appended(index, sink), other, registered + {sink}, expired)
  {
    hide Covers;
    forall key | key in index && other !in expired
      ensures multiset(Appended(index, sink)[key])[other] == Share(other, key, registered + {sink}, expired)
    {
      AppendCount(index, sink, key, other);
    }
  }

  lemma AppendCount(index: SinkMap, sink: Sink, key: Scope, other: Sink)
    requires key in index
    ensures multiset(Appended(index, sink)[key])[other] ==
      multiset(index[key])[other] + if other == sink && Covers(sink.scope, key) then 1 else 0
  {
    hide Covers;
    assert multiset(index[key] + [sink])[other] == multiset(index[key])[other] + multiset{sink}[other];
  }

  lemma {:induction false} RemoveFirstCount(list: seq<Sink>, sink: Sink, expired: set<Sink>, other: Sink)
    requires other != sink && other !in expired
    ensures multiset(RemoveFirst(list, sink, expired))[other] == multiset(list)[other]
  {
    if list != [] {
      assert list == [list[0]] + list[1..];
      if !(list[0] in expired || list[0] == sink) {
        RemoveFirstCount(list[1..], sink, expired, other);
      }
    }
  }

  /** Some weak pointer in front of `sink` has expired, so the scan stops before it gets there. */
  predicate Obstructed(list: seq<Sink>, sink: Sink, expired: set<Sink>) {
    list != [] && list[0] != sink && (list[0] in expired || Obstructed(list[1..], sink, expired))
  }

  lemma {:induction false} RemoveFirstSelf(list: seq<Sink>, sink: Sink, expired: set<Sink>)
    requires multiset(list)[sink] == 1
    ensures multiset(RemoveFirst(list, sink, expired))[sink] ==
      if Obstructed(list, sink, expired) then 1 else 0
  {
    assert list == [list[0]] + list[1..];
    if list[0] != sink && list[0] !in expired {
      RemoveFirstSelf(list[1..], sink, expired);
    }
  }

  lemma {:induction false} RemoveFirstAbsent(list: seq<Sink>, sink: Sink, expired: set<Sink>)
    requires multiset(list)[sink] == 0
    ensures multiset(RemoveFirst(list, sink, expired))[sink] == 0
  {
    if list != [] {
      assert list == [list[0]] + list[1..];
      if !(list[0] in expired || list[0] == sink) {
        RemoveFirstAbsent(list[1..], sink, expired);
      }
    }
  }

  /**
   A sink that is still alive can be removed at this point without being left behind:
   in no entry that lists it does an expired weak pointer stand in front of it.
   */
  ghost predicate Removable(index: SinkMap, sink: Sink, expired: set<Sink>) {
    sink in expired || forall key :: key in index && sink in index[key] ==> !Obstructed(index[key], sink, expired)
  }

  /**
   Removal keeps the index exact if and only if the sink is `Removable`. An expired
   sink always is; a live one is not when an expired weak pointer hides it.
   */
  lemma RemoveKeepsExactIff(index: SinkMap, sink: Sink, registered: set<Sink>, expired: set<Sink>)
    requires Exact(index, registered, expired) && sink in registered
    ensures Exact(Removed(index, sink, expired), registered - {sink}, expired) <==> Removable(index, sink, expired)
  {
    var after, rest := Removed(index, sink, expired), registered - {sink};
    ExactIsDue(index, registered, expired);
    ExactIsDue(after, rest, expired);
    RemoveKeepsDueIff(index, sink, registered, expired);
    forall other | other != sink
      ensures Due(after, other, rest, expired)
    {
      RemoveKeepsOtherDue(index, sink, other, registered, expired);
    }
  }

  /** The removed sink is gone from every entry if and only if it was `Removable`. */
  lemma RemoveKeepsDueIff(index: SinkMap, sink: Sink, registered: set<Sink>, expired: set<Sink>)
    requires Due(index, sink, registered, expired) && sink in registered
    ensures Due(Removed(index, sink, expired), sink, registered - {sink}, expired) <==> Removable(index, sink, expired)
  {
    var after, rest := Removed(index, sink, expired), registered - {sink};
    if sink !in expired {
      forall key | key in index
        ensures sink in index[key] && Obstructed(index[key], sink, expired) <==>
          key in after && multiset(after[key])[sink] != Share(sink, key, rest, expired)
      {
        CountPositive(index[key], sink);
        if sink in index[key] {
          RemoveFirstSelf(index[key], sink, expired);
        } else {
          RemoveFirstAbsent(index[key], sink, expired);
        }
        assert key !in after ==> RemoveFirst(index[key], sink, expired) == [];
      }
    }
  }

  /** Removing a sink keeps every other sink as due, obstructed or not. */
  lemma RemoveKeepsOtherDue(index: SinkMap, sink: Sink, other: Sink, registered: set<Sink>, expired: set<Sink>)
    requires Due(index, other, registered, expired) && other != sink
    ensures Due(Removed(index, sink, expired), other, registered - {sink}, expired)
  {
    if other !in expired {
      forall key | key in index
        ensures multiset(RemoveFirst(index[key], sink, expired))[other] == multiset(index[key])[other]
        ensures other in index[key] ==> RemoveFirst(index[key], sink, expired) != []
      {
        RemoveFirstCount(index[key], sink, expired, other);
        CountPositive(index[key], other);
        CountPositive(RemoveFirst(index[key], sink, expired), other);
      }
      if other in registered {
        CountPositive(index[other.scope], other);
        assert multiset(index[other.scope])[other] == Share(other, other.scope, registered, expired);
      }
    }
  }

  /** Expiry and removal of one sink leave nothing of it behind: no entry keeps a dangling pointer to it. */
  lemma ExpiredRemovalIsExact(index: SinkMap, sink: Sink, registered: set<Sink>)
    requires Exact(index, registered, {}) && sink in registered
    ensures Exact(Removed(index, sink, {sink}), registered - {sink}, {})
    ensures forall key :: key in Removed(index, sink, {sink}) ==> sink !in Removed(index, sink, {sink})[key]
  {
    hide RemoveFirst;
    hide Covers;
    var after, rest := Removed(index, sink, {sink}), registered - {sink};
    RemoveKeepsOthers(index, sink, registered, {sink});
    forall key: Scope, other: Sink | key in after
      ensures multiset(after[key])[other] == Share(other, key, rest, {})
    {
      if other == sink {
        RemovedLeavesNone(index, sink, registered, key);
      }
    }
    forall key | key in after
      ensures sink !in after[key]
    {
      RemovedLeavesNone(index, sink, registered, key);
      CountPositive(after[key], sink);
    }
  }

  lemma RemovedLeavesNone(index: SinkMap, sink: Sink, registered: set<Sink>, key: Scope)
    requires Exact(index, registered, {}) && key in Removed(index, sink, {sink})
    ensures multiset(Removed(index, sink, {sink})[key])[sink] == 0
  {
    assert multiset(index[key])[sink] == Share(sink, key, registered, {});
    RemoveFirstAlone(index[key], sink);
  }

  lemma {:induction false} RemoveFirstAlone(list: seq<Sink>, sink: Sink)
    requires multiset(list)[sink] <= 1
    ensures multiset(RemoveFirst(list, sink, {sink}))[sink] == 0
  {
    if list != [] {
      assert list == [list[0]] + list[1..];
      if list[0] != sink {
        RemoveFirstAlone(list[1..], sink);
      }
    }
  }

  /** Whatever happens to `sink`, all other live sinks keep exactly the calls they are due. */
  lemma RemoveKeepsOthers(index: SinkMap, sink: Sink, registered: set<Sink>, expired: set<Sink>)
    requires Exact(index, registered, expired)
    ensures
      var after, rest := Removed(index, sink, expired), registered - {sink};
      && (forall key, other :: key in after && other !in expired && other != sink ==>
            multiset(after[key])[other] == Share(other, key, rest, expired))
      && (forall other :: other in rest && other !in expired ==> other.scope in after)
  {
    var after, rest := Removed(index, sink, expired), registered - {sink};
    ExactIsDue(index, registered, expired);
    forall key: Scope, other: Sink | key in after && other !in expired && other != sink
      ensures multiset(after[key])[other] == Share(other, key, rest, expired)
    {
      RemoveKeepsOtherDue(index, sink, other, registered, expired);
    }
    forall other | other in rest && other !in expired
      ensures other.scope in after
    {
      RemoveKeepsOtherDue(index, sink, other, registered, expired);
    }
  }

  /** Handling an event on `scope` may call the sinks `called`. */
  ghost predicate Handles(index: SinkMap, scope: Scope, expired: set<Sink>, called: seq<Sink>) {
    exists after :: Filled(index, after, scope) && called == Live(after[scope], expired)
  }

  /** A sink that the index holds as due is called as often as it is due. */
  lemma DeliveryIsDue(index: SinkMap, scope: Scope, sink: Sink, registered: set<Sink>, expired: set<Sink>,
                      called: seq<Sink>)
    requires Due(index, sink, registered, expired) && Handles(index, scope, expired, called)
    ensures multiset(called)[sink] == Share(sink, scope, registered, expired)
  {
    var after :| Filled(index, after, scope) && called == Live(after[scope], expired);
    FillKeepsDue(index, after, scope, sink, registered, expired);
    LiveCount(after[scope], expired, sink);
  }

  /** The cached index delivers by the simple rule. */
  lemma DeliveryIsExact(index: SinkMap, scope: Scope, registered: set<Sink>, expired: set<Sink>, called: seq<Sink>)
    requires Exact(index, registered, expired) && Handles(index, scope, expired, called)
    ensures CalledExactly(called, scope, registered, expired)
  {
    ExactIsDue(index, registered, expired);
    forall sink
      ensures multiset(called)[sink] == Share(sink, scope, registered, expired)
    {
      DeliveryIsDue(index, scope, sink, registered, expired, called);
    }
  }

  /** Filling the cache for one scope changes the later deliveries on no scope. */
  lemma FillIsUnobservable(
    before: SinkMap, after: SinkMap, filled: Scope, scope: Scope,
    registered: set<Sink>, expired: set<Sink>, called: seq<Sink>, called': seq<Sink>)
    requires Exact(before, registered, expired) && Filled(before, after, filled)
    requires Handles(before, scope, expired, called) && Handles(after, scope, expired, called')
    ensures multiset(called) == multiset(called')
  {
    FillKeepsExact(before, after, filled, registered, expired);
    DeliveryIsExact(before, scope, registered, expired, called);
    DeliveryIsExact(after, scope, registered, expired, called');
    forall sink
      ensures multiset(called)[sink] == multiset(called')[sink]
    {
      assert multiset(called)[sink] == Share(sink, scope, registered, expired);
    }
  }

  // ---------------------------------------------------------------------
  // The class
  // ---------------------------------------------------------------------

  class Bus {
    var sinks: SinkMap

    constructor ()
      ensures sinks == map[] && Exact(sinks, {}, {})
    {
      sinks := map[];
    }

    /** Creates the entry for `scope` if there is none. */
    method FillEntry(scope: Scope)
      modifies this
      ensures Filled(old(sinks), sinks, scope)
    {
      if scope !in sinks {
        var connectors: set<Sink> := {};
        var keys := sinks.Keys;
        while keys != {}
          invariant keys <= sinks.Keys && sinks == old(sinks)
          invariant forall sink :: sink in connectors <==>
            exists key :: key in sinks && key !in keys && Covers(key, scope) && sink in sinks[key]
        {
          var key :| key in keys;
          var above := IsSuperScopeOf(key, scope);
          ghost var before := connectors;
          if key == scope || above {
            connectors := connectors + set sink | sink in sinks[key];
          }
          keys := keys - {key};
          forall sink
            ensures sink in connectors <==>
              exists key :: key in sinks && key !in keys && Covers(key, scope) && sink in sinks[key]
          {
            if sink in before {
              var earlier :| earlier in sinks && earlier !in keys && Covers(earlier, scope) && sink in sinks[earlier];
            }
            if sink in connectors && sink !in before {
              assert Covers(key, scope) && sink in sinks[key];
            }
          }
        }
        var list: seq<Sink> := [];
        ghost var all := connectors;
        while connectors != {}
          invariant sinks == old(sinks) && connectors <= all
          invariant forall sink :: multiset(list)[sink] == if sink in all && sink !in connectors then 1 else 0
        {
          var sink :| sink in connectors;
          list := list + [sink];
          connectors := connectors - {sink};
        }
        sinks := sinks[scope := list];
      }
    }

    /**
     Registers a sink: its own entry is created first if missing, then the sink
     is appended there and in the entry of every sub-scope.
     */
    method AddSink(sink: Sink, ghost registered: set<Sink>, ghost expired: set<Sink>)
      modifies this
      ensures Added(old(sinks), sinks, sink)
      ensures old(Exact(sinks, registered, expired)) && sink !in registered && sink !in expired ==>
        Exact(sinks, registered + {sink}, expired)
    {
      FillEntry(sink.scope);
      AppendToEntries(sink);
      if old(Exact(sinks, registered, expired)) && sink !in registered && sink !in expired {
        AddKeepsExact(old(sinks), sinks, sink, registered, expired);
      }
    }

    /** Appends the sink to its own entry, then to the entry of every sub-scope. */
    method AppendToEntries(sink: Sink)
      requires sink.scope in sinks
      modifies this
      ensures sinks == Appended(old(sinks), sink)
    {
      sinks := sinks[sink.scope := sinks[sink.scope] + [sink]];
      AppendedFirst(old(sinks), sink);
      hide AppendedBut;
      var keys := sinks.Keys;
      while keys != {}
        invariant keys <= sinks.Keys
        invariant sinks == AppendedBut(old(sinks), sink, keys)
      {
        var key :| key in keys;
        var below := IsSubScopeOf(key, sink.scope);
        AppendedNext(old(sinks), sink, keys, key);
        if below {
          sinks := sinks[key := sinks[key] + [sink]];
        }
        keys := keys - {key};
      }
      AppendedLast(old(sinks), sink);
    }

    /** Erases from each entry the first weak pointer that is dangling or is the sink. */
    method RemoveSink(sink: Sink, expired: set<Sink>)
      modifies this
      ensures sinks == Removed(old(sinks), sink, expired)
    {
      hide RemoveFirst;
      var emptyScopes: set<Scope> := {};
      var keys := sinks.Keys;
      while keys != {}
        invariant keys <= sinks.Keys == old(sinks).Keys
        invariant forall key :: key in sinks ==> (sinks[key] ==
          if key in keys then old(sinks)[key] else RemoveFirst(old(sinks)[key], sink, expired))
        invariant forall key :: key in emptyScopes <==> key in sinks && key !in keys && sinks[key] == []
      {
        var key :| key in keys;
        var connectors := EraseFirst(sinks[key], sink, expired);
        sinks := sinks[key := connectors];
        if connectors == [] {
          emptyScopes := emptyScopes + {key};
        }
        keys := keys - {key};
      }
      sinks := sinks - emptyScopes;
    }

    /** Calls the sinks of the entry for the event's scope whose weak pointers can be locked. */
    method Handle(scope: Scope, expired: set<Sink>, ghost registered: set<Sink>) returns (called: seq<Sink>)
      modifies this
      ensures Filled(old(sinks), sinks, scope) && Handles(old(sinks), scope, expired, called)
      ensures old(Exact(sinks, registered, expired)) ==>
        Exact(sinks, registered, expired) && CalledExactly(called, scope, registered, expired)
    {
      FillEntry(scope);
      called := CallLive(sinks[scope], expired);
      if old(Exact(sinks, registered, expired)) {
        FillKeepsExact(old(sinks), sinks, scope, registered, expired);
        DeliveryIsExact(old(sinks), scope, registered, expired, called);
      }
    }
  }

  method EraseFirst(list: seq<Sink>, sink: Sink, expired: set<Sink>) returns (r: seq<Sink>)
    ensures r == RemoveFirst(list, sink, expired)
  {
    hide RemoveFirst;
    var i := 0;
    while i < |list|
      invariant i <= |list|
      invariant RemoveFirst(list, sink, expired) == list[..i] + RemoveFirst(list[i..], sink, expired)
    {
      RemoveFirstAt(list, i, sink, expired);
      if list[i] in expired || list[i] == sink {
        return list[..i] + list[i + 1..];
      }
      i := i + 1;
    }
    RemoveFirstNone(list, sink, expired);
    return list;
  }

  /** One step of the scan. */
  lemma RemoveFirstAt(list: seq<Sink>, i: nat, sink: Sink, expired: set<Sink>)
    requires i < |list|
    ensures list[..i] + RemoveFirst(list[i..], sink, expired) ==
      if list[i] in expired || list[i] == sink then list[..i] + list[i + 1..]
      else list[..i + 1] + RemoveFirst(list[i + 1..], sink, expired)
  {
  }

  lemma RemoveFirstNone(list: seq<Sink>, sink: Sink, expired: set<Sink>)
    ensures list[..|list|] + RemoveFirst(list[|list|..], sink, expired) == list
  {
  }

  method CallLive(list: seq<Sink>, expired: set<Sink>) returns (called: seq<Sink>)
    ensures called == Live(list, expired)
  {
    called := [];
    var i := 0;
    while i < |list|
      invariant i <= |list| && called == Live(list[..i], expired)
    {
      assert list[..i + 1] == list[..i] + [list[i]];
      LiveConcat(list[..i], [list[i]], expired);
      if list[i] !in expired {
        called := called + [list[i]];
      }
      i := i + 1;
    }
    assert list[..i] == list;
  }
}
