/**
 Starting and stopping the server's accept loop. Two threads take turns in any
 order: the owner, which activates and later deactivates the server and then
 busy-waits on the shutdown flag, and the service thread, which runs the accept
 handler. Each step below is one access to shared state.
 */
module AcceptHandshake {

  /** Where the owner is: inside activate(), between calls, or inside deactivate(). */
  datatype Owner = Inactive | Armed | Running | Flagged | Waiting | Stopped

  /** Where the accept handler is; `Rearming` and `Resetting` lie between the flag test and its consequence. */
  datatype Handler = Idle | Entered(error: bool) | Handled | Rearming | Resetting

  datatype State = State(
    owner: Owner, active: bool, shutdown: bool,
    outstanding: nat, cancelled: bool, handler: Handler, connections: nat)

  datatype Step =
    | StartAccepting          // activate(): the first accept
    | SetActive               // activate(): active = true
    | RequestShutdown         // deactivate(): shutdown = true
    | CancelAccept            // deactivate(): acceptor.cancel()
    | SeeFlagCleared          // deactivate(): the busy-wait ends
    | Finish                  // deactivate(): active = false
    | Complete(error: bool)   // an outstanding accept ends and its handler is entered
    | AddConnection           // handler: a connection is created unless there was an error
    | TestFlag                // handler: reads the shutdown flag
    | Rearm                   // handler: the next accept
    | ClearFlag               // handler: shutdown = false

  const INITIAL: State := State(Inactive, false, false, 0, false, Idle, 0)

  predicate Enabled(s: State, step: Step) {
    match step
    case StartAccepting => s.owner == Inactive
    case SetActive => s.owner == Armed
    case RequestShutdown => s.owner == Running
    case CancelAccept => s.owner == Flagged
    case SeeFlagCleared => s.owner == Waiting && !s.shutdown
    case Finish => s.owner == Stopped
    case Complete(_) => s.outstanding > 0 && s.handler == Idle
    case AddConnection => s.handler.Entered?
    case TestFlag => s.handler == Handled
    case Rearm => s.handler == Rearming
    case ClearFlag => s.handler == Resetting
  }

  function Next(s: State, step: Step): State
    requires Enabled(s, step)
  {
    match step
    case StartAccepting => s.(outstanding := s.outstanding + 1, owner := Armed)
    case SetActive => s.(active := true, owner := Running)
    case RequestShutdown => s.(shutdown := true, owner := Flagged)
    case CancelAccept => s.(cancelled := s.outstanding > 0, owner := Waiting)
    case SeeFlagCleared => s.(owner := Stopped)
    case Finish => s.(active := false, owner := Inactive)
    case Complete(error) => s.(outstanding := s.outstanding - 1, cancelled := false, handler := Entered(error))
    case AddConnection =>
      s.(handler := Handled, connections := s.connections + if s.handler.error then 0 else 1)
    case TestFlag => s.(handler := if s.shutdown then Resetting else Rearming)
    case Rearm => s.(outstanding := s.outstanding + 1, handler := Idle)
    case ClearFlag => s.(shutdown := false, handler := Idle)
  }

  ghost predicate Run(states: seq<State>, steps: seq<Step>) {
    && |states| == |steps| + 1 && states[0] == INITIAL
    && forall i :: 0 <= i < |steps| ==> Enabled(states[i], steps[i]) && states[i + 1] == Next(states[i], steps[i])
  }

  /** One token circulates while the loop lives: an outstanding accept or a handler at work. */
  function Tokens(s: State): nat {
    s.outstanding + if s.handler == Idle then 0 else 1
  }

  ghost predicate Inv(s: State) {
    && (s.cancelled ==> s.outstanding > 0)
    && (s.active <==> s.owner != Inactive && s.owner != Armed)
    && match s.owner
       case Inactive | Stopped => !s.shutdown && Tokens(s) == 0
       case Armed | Running => !s.shutdown && Tokens(s) == 1 && s.handler != Resetting
       case Flagged | Waiting => Tokens(s) == (if s.shutdown then 1 else 0)
  }

  lemma StepKeeps(s: State, step: Step)
    requires Inv(s) && Enabled(s, step)
    ensures Inv(Next(s, step))
  {
  }

  lemma {:induction false} RunKeeps(states: seq<State>, steps: seq<Step>, n: nat)
    requires Run(states, steps) && n < |states|
    ensures Inv(states[n])
  {
    if n > 0 {
      RunKeeps(states, steps, n - 1);
      StepKeeps(states[n - 1], steps[n - 1]);
    }
  }

  /**
   Under every interleaving at most one accept is outstanding, and none while its
   handler runs; when the busy-wait has ended none is outstanding, no handler runs,
   and none is started until the server is activated again.
   */
  lemma AcceptSafety(states: seq<State>, steps: seq<Step>, n: nat)
    requires Run(states, steps) && n < |states|
    ensures states[n].outstanding <= 1
    ensures states[n].handler != Idle ==> states[n].outstanding == 0
    ensures states[n].owner == Stopped ==> states[n].outstanding == 0 && states[n].handler == Idle
    ensures states[n].owner == Stopped ==>
      forall step :: Enabled(states[n], step) ==> step == Finish
    ensures states[n].active <==> states[n].owner !in {Inactive, Armed}
    ensures states[n].owner == Inactive ==>
      forall step :: Enabled(states[n], step) ==> step == StartAccepting
  {
    RunKeeps(states, steps, n);
  }

  /** The accepts without error among the first `n` steps. */
  ghost function Accepted(steps: seq<Step>, n: nat): set<nat>
    requires n <= |steps|
  {
    set i: nat | i < n && steps[i] == Complete(false)
  }

  /** The connections made, and the one that the handler at work is about to make. */
  function Made(s: State): nat {
    s.connections + if s.handler == Entered(false) then 1 else 0
  }

  lemma StepMakes(s: State, step: Step)
    requires Enabled(s, step)
    ensures Made(Next(s, step)) == Made(s) + if step == Complete(false) then 1 else 0
  {
  }

  lemma OneMoreStep(steps: seq<Step>, n: nat)
    requires 0 < n <= |steps|
    ensures |Accepted(steps, n)| == |Accepted(steps, n - 1)| + if steps[n - 1] == Complete(false) then 1 else 0
  {
    var before, step := Accepted(steps, n - 1), steps[n - 1];
    assert Accepted(steps, n) == if step == Complete(false) then before + {n - 1} else before;
  }

  /** Every successful accept makes one connection, as soon as its handler gets to it. */
  lemma {:induction false} ConnectionsCounted(states: seq<State>, steps: seq<Step>, n: nat)
    requires Run(states, steps) && n < |states|
    ensures states[n].connections + (if states[n].handler == Entered(false) then 1 else 0) == |Accepted(steps, n)|
  {
    assert Accepted(steps, 0) == {};
    hide Enabled;
    hide Next;
    hide Accepted;
    if n > 0 {
      ConnectionsCounted(states, steps, n - 1);
      StepMakes(states[n - 1], steps[n - 1]);
      OneMoreStep(steps, n);
    }
  }

  // ---------------------------------------------------------------------
  // Does the busy-wait end?
  // ---------------------------------------------------------------------

  /** Steps the two threads take by themselves: an accept ends only if it has been cancelled. */
  predicate Internal(s: State, step: Step) {
    Enabled(s, step) && (step.Complete? ==> s.cancelled)
  }

  /** The owner waits for a flag that only the end of an accept nobody cancelled can clear. */
  predicate Stranded(s: State) {
    s.owner == Waiting && s.shutdown && (s.handler == Rearming || (s.outstanding > 0 && !s.cancelled))
  }

  /** How many steps the service thread still needs until it clears the flag. */
  function Distance(s: State): nat {
    match s.handler
    case Idle => 4
    case Entered(_) => 3
    case Handled => 2
    case Resetting => 1
    case Rearming => 5
  }

  /** The busy-wait is stranded exactly if the cancel fell between the handler's flag test and its re-arming. */
  lemma StrandedIff(states: seq<State>, steps: seq<Step>, n: nat)
    requires Run(states, steps) && n < |steps| && steps[n] == CancelAccept
    ensures Stranded(states[n + 1]) <==> states[n].handler == Rearming
  {
    RunKeeps(states, steps, n);
  }

  /** A stranded wait stays stranded, whatever the two threads do by themselves. */
  lemma StrandedStays(s: State, step: Step)
    requires Inv(s) && Stranded(s) && Internal(s, step)
    ensures Stranded(Next(s, step)) && Inv(Next(s, step))
  {
  }

  /** Otherwise the threads can always go on, and each step brings the end of the wait nearer. */
  lemma WaitProgresses(s: State)
    requires Inv(s) && s.owner == Waiting && s.shutdown && !Stranded(s)
    ensures exists step :: Internal(s, step)
    ensures forall step :: Internal(s, step) ==>
      var s' := Next(s, step);
      && Inv(s')
      && (s'.shutdown ==> s'.owner == Waiting && !Stranded(s') && Distance(s') < Distance(s))
      && (!s'.shutdown ==> Enabled(s', SeeFlagCleared))
  {
    assert Internal(s, match s.handler
      case Idle => Complete(true)
      case Entered(_) => AddConnection
      case Handled => TestFlag
      case Resetting => ClearFlag
      case Rearming => Rearm);
  }

  /** What the two threads do by themselves from `states[0]` on. */
  ghost predicate Continuation(states: seq<State>, steps: seq<Step>) {
    && |states| == |steps| + 1
    && forall i :: 0 <= i < |steps| ==> Internal(states[i], steps[i]) && states[i + 1] == Next(states[i], steps[i])
  }

  /** The flag is seen cleared at one of the first `limit` states after the start. */
  ghost predicate Clears(states: seq<State>, limit: nat) {
    exists i :: 0 <= i < |states| && i <= limit && !states[i].shutdown
  }

  lemma {:induction false} ClearsWithin(states: seq<State>, steps: seq<Step>)
    requires Continuation(states, steps) && Inv(states[0])
    requires states[0].owner == Waiting && states[0].shutdown && !Stranded(states[0])
    requires |steps| >= Distance(states[0])
    ensures Clears(states, Distance(states[0]))
  {
    WaitProgresses(states[0]);
    assert Internal(states[0], steps[0]);
    if states[1].shutdown {
      ClearsWithin(states[1..], steps[1..]);
      var i :| 0 <= i < |states[1..]| && i <= Distance(states[1]) && !states[1..][i].shutdown;
      assert !states[i + 1].shutdown;
    } else {
      assert Clears(states, 1);
    }
  }

  lemma {:induction false} NeverClears(states: seq<State>, steps: seq<Step>, i: nat)
    requires Continuation(states, steps) && Inv(states[0]) && Stranded(states[0]) && i < |states|
    ensures Inv(states[i]) && Stranded(states[i])
  {
    if i > 0 {
      NeverClears(states, steps, i - 1);
      StrandedStays(states[i - 1], steps[i - 1]);
    }
  }

  /**
   Does the busy-wait end without another client connecting? If the acceptor is not
   cancelled while the handler is between its flag test and its re-arming, the flag is
   cleared within four steps, however the threads take turns, and they can always take
   one; if it is, the flag stays set through every continuation.
   */
  lemma WaitEndsIff(states: seq<State>, steps: seq<Step>, n: nat, more: seq<State>, moreSteps: seq<Step>)
    requires Run(states, steps) && n < |steps| && steps[n] == CancelAccept
    requires Continuation(more, moreSteps) && more[0] == states[n + 1]
    ensures |moreSteps| >= 4 ==> (Clears(more, 4) <==> states[n].handler != Rearming)
    ensures states[n].handler == Rearming ==> !Clears(more, |moreSteps|)
    ensures !Clears(more, |moreSteps|) && states[n].handler != Rearming ==>
      exists step :: Internal(more[|moreSteps|], step)
  {
    RunKeeps(states, steps, n);
    RunKeeps(states, steps, n + 1);
    StrandedIff(states, steps, n);
    if states[n].handler == Rearming {
      forall i | 0 <= i < |more|
        ensures more[i].shutdown
      {
        NeverClears(more, moreSteps, i);
      }
    } else if !more[0].shutdown {
      assert Clears(more, 0);
    } else {
      if |moreSteps| >= 4 {
        ClearsWithin(more, moreSteps);
      }
      if !Clears(more, |moreSteps|) {
        GoesOn(more, moreSteps, |moreSteps|);
      }
    }
  }

  /** As long as the flag has not been cleared, a wait that is not stranded has a next step. */
  lemma {:induction false} GoesOn(states: seq<State>, steps: seq<Step>, i: nat)
    requires Continuation(states, steps) && Inv(states[0]) && states[0].owner == Waiting && !Stranded(states[0])
    requires i < |states| && !Clears(states, i)
    ensures Inv(states[i]) && states[i].owner == Waiting && states[i].shutdown && !Stranded(states[i])
    ensures exists step :: Internal(states[i], step)
  {
    assert states[i].shutdown && states[0].shutdown;
    if i > 0 {
      assert !Clears(states, i - 1);
      GoesOn(states, steps, i - 1);
      WaitProgresses(states[i - 1]);
      assert Internal(states[i - 1], steps[i - 1]);
    }
    WaitProgresses(states[i]);
  }

  /** Stranding happens: shutdown is requested while the handler of the first connection is about to re-arm. */
  lemma StrandedReachable() returns (states: seq<State>, steps: seq<Step>)
    ensures Run(states, steps) && Stranded(states[|steps|])
    ensures !exists step :: Internal(states[|steps|], step)
  {
    steps := [StartAccepting, SetActive, Complete(false), AddConnection, TestFlag,
              RequestShutdown, CancelAccept, Rearm];
    states := [
      INITIAL,
      State(Armed, false, false, 1, false, Idle, 0),
      State(Running, true, false, 1, false, Idle, 0),
      State(Running, true, false, 0, false, Entered(false), 0),
      State(Running, true, false, 0, false, Handled, 1),
      State(Running, true, false, 0, false, Rearming, 1),
      State(Flagged, true, true, 0, false, Rearming, 1),
      State(Waiting, true, true, 0, false, Rearming, 1),
      State(Waiting, true, true, 1, false, Idle, 1)];
    NobodyMoves(states[8]);
  }

  lemma NobodyMoves(s: State)
    requires s.owner == Waiting && s.shutdown && s.handler == Idle && !s.cancelled
    ensures !exists step :: Internal(s, step)
  {
  }
}
