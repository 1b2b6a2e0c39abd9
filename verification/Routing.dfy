/** What both routers share: sinks, weak references, and lists of sinks per scope. */
module Routing {
  import opened Scopes

  /** A registered connector, identified by its address; its scope is fixed while it is active. */
  datatype Sink = Sink(address: nat, scope: Scope)

  type SinkMap = map<Scope, seq<Sink>>

  /** The sinks of a list whose weak pointers can still be locked. */
  function Live(list: seq<Sink>, expired: set<Sink>): seq<Sink> {
    if list == [] then []
    else if list[0] in expired then Live(list[1..], expired)
    else [list[0]] + Live(list[1..], expired)
  }

  /** How often a sink has to be called for an event: the rule routing is about. */
  ghost function Share(sink: Sink, scope: Scope, registered: set<Sink>, expired: set<Sink>): nat {
    if sink in registered && sink !in expired && Covers(sink.scope, scope) then 1 else 0
  }

  /** `called` holds every live registered sink at or above `scope` once, and no other sink. */
  ghost predicate CalledExactly(called: seq<Sink>, scope: Scope, registered: set<Sink>, expired: set<Sink>) {
    forall sink :: multiset(called)[sink] == Share(sink, scope, registered, expired)
  }

  /** The rule in terms of scope strings: a sink is due when its scope's string begins the event's. */
  lemma RuleOnStrings(called: seq<Sink>, scope: Scope, registered: set<Sink>, expired: set<Sink>)
    ensures CalledExactly(called, scope, registered, expired) <==>
      forall sink :: multiset(called)[sink] ==
        if sink in registered && sink !in expired && sink.scope.scopestring <= scope.scopestring then 1 else 0
  {
    forall sink: Sink
      ensures Covers(sink.scope, scope) <==> sink.scope.scopestring <= scope.scopestring
    {
      HierarchyViews(sink.scope, scope);
    }
  }

  lemma {:induction false} LiveCount(list: seq<Sink>, expired: set<Sink>, sink: Sink)
    ensures multiset(Live(list, expired))[sink] == if sink in expired then 0 else multiset(list)[sink]
  {
    if list != [] {
      assert list == [list[0]] + list[1..];
      LiveCount(list[1..], expired, sink);
    }
  }

  lemma {:induction false} LiveConcat(a: seq<Sink>, b: seq<Sink>, expired: set<Sink>)
    ensures Live(a + b, expired) == Live(a, expired) + Live(b, expired)
  {
    if a == [] {
      assert a + b == b;
    } else {
      assert (a + b)[1..] == a[1..] + b;
      LiveConcat(a[1..], b, expired);
    }
  }

  lemma CountPositive(list: seq<Sink>, sink: Sink)
    ensures sink in list <==> multiset(list)[sink] > 0
  {
  }
}
