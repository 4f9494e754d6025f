/** The shutdown of the pipeline cleaner (core/pipeline_cleaner.go:104-137, core/pipeline_cleaner.go:384-392):
    goroutines that admit operations, a closing that waits for both, and a context they are to see cancelled
    only when nothing runs any more. */
module PipelineCleaner {

  /** How far the call that closes has come. Only one call gets past the first step. */
  datatype Phase = NotCalled | WaitingOperations | Cancelling | WaitingGoroutines | Returned

  /** `operations` and `goroutines` are the counters of the wait groups. The sets record, for the statements,
      which operations were admitted and done, and which goroutines were started and have exited;
      `interrupted` has the operations that found the context cancelled. */
  datatype State = State(
    closed: bool, cancelled: bool, operations: int, goroutines: int,
    phase: Phase, callerCancelled: bool,
    admitted: set<nat>, done: set<nat>, started: set<nat>, exited: set<nat>, interrupted: set<nat>)

  const INITIAL := State(false, false, 0, 0, NotCalled, false, {}, {}, {}, {}, {})

  /** What can happen next, at any moment and in any order. The sections under the mutex are one step each. */
  datatype Step =
    | Start(goroutine: nat)       // start is called
    | Exit(goroutine: nat)        // a goroutine returns
    | Complete(operation: nat)    // complete is called
    | Done(operation: nat)        // the function of an operation returns
    | Look(operation: nat)        // a running operation looks at the context
    | Close                       // Close is called, for the first time or again
    | CancelCaller                // the context given to Close is cancelled
    | Propagate                   // what Close registered for that case runs
    | Proceed                     // the call that closes goes on, if it can

  function Apply(s: State, step: Step): State {
    match step
    case Start(g) =>
      if s.closed || g in s.started then s
      else s.(goroutines := s.goroutines + 1, started := s.started + {g})
    case Exit(g) =>
      if g in s.started && g !in s.exited
      then s.(goroutines := s.goroutines - 1, exited := s.exited + {g})
      else s
    case Complete(o) =>
      if s.closed || o in s.admitted then s
      else s.(operations := s.operations + 1, admitted := s.admitted + {o})
    case Done(o) =>
      if o in s.admitted && o !in s.done
      then s.(operations := s.operations - 1, done := s.done + {o})
      else s
    case Look(o) =>
      if o in s.admitted && o !in s.done && s.cancelled then s.(interrupted := s.interrupted + {o}) else s
    case Close =>
      if s.closed then s else s.(closed := true, phase := WaitingOperations)
    case CancelCaller => s.(callerCancelled := true)
    case Propagate => if s.callerCancelled && s.closed then s.(cancelled := true) else s
    case Proceed =>
      match s.phase
      case WaitingOperations => if s.operations == 0 then s.(phase := Cancelling) else s
      case Cancelling => s.(cancelled := true, phase := WaitingGoroutines)
      case WaitingGoroutines => if s.goroutines == 0 then s.(phase := Returned) else s
      case _ => s
  }

  function Run(s: State, steps: seq<Step>): State {
    if steps == [] then s else Apply(Run(s, steps[..|steps| - 1]), steps[|steps| - 1])
  }

  /** The counters count what runs; past a wait, what was waited for is over; and the context is cancelled
      early only if the caller's was. */
  predicate Inv(s: State) {
    && s.done <= s.admitted && s.operations == |s.admitted - s.done|
    && s.exited <= s.started && s.goroutines == |s.started - s.exited|
    && (s.closed <==> s.phase != NotCalled)
    && (s.phase in {Cancelling, WaitingGoroutines, Returned} ==> s.admitted == s.done)
    && (s.phase == Returned ==> s.started == s.exited)
    && (s.phase in {WaitingGoroutines, Returned} ==> s.cancelled)
    && (s.cancelled && s.phase !in {WaitingGoroutines, Returned} ==> s.callerCancelled)
    && (s.interrupted != {} ==> s.callerCancelled)
  }

  lemma OneMore(all: set<nat>, over: set<nat>, x: nat)
    requires over <= all && x !in all
    ensures |all + {x} - over| == |all - over| + 1
  {
    assert all + {x} - over == (all - over) + {x};
  }

  lemma OneLess(all: set<nat>, over: set<nat>, x: nat)
    requires over <= all && x in all && x !in over
    ensures |all - (over + {x})| == |all - over| - 1
  {
    assert all - (over + {x}) == (all - over) - {x};
  }

  lemma NoneLeft(all: set<nat>, over: set<nat>)
    requires over <= all && |all - over| == 0
    ensures all == over
  {
    assert all - over == {};
    assert forall x :: x in all ==> x !in all - over;
  }

  lemma InvKept(s: State, step: Step)
    requires Inv(s)
    ensures Inv(Apply(s, step))
  {
    match step
    case Start(g) => if g !in s.started { OneMore(s.started, s.exited, g); }
    case Complete(o) => if o !in s.admitted { OneMore(s.admitted, s.done, o); }
    case Exit(g) => if g in s.started && g !in s.exited { OneLess(s.started, s.exited, g); }
    case Done(o) => if o in s.admitted && o !in s.done { OneLess(s.admitted, s.done, o); }
    case Proceed =>
      if s.operations == 0 { NoneLeft(s.admitted, s.done); }
      if s.goroutines == 0 { NoneLeft(s.started, s.exited); }
    case _ =>
  }

  lemma {:induction false} ReachableInv(steps: seq<Step>)
    ensures Inv(Run(INITIAL, steps))
  {
    if steps != [] {
      ReachableInv(steps[..|steps| - 1]);
      InvKept(Run(INITIAL, steps[..|steps| - 1]), steps[|steps| - 1]);
    }
  }

  lemma StoppedStays(s: State, step: Step)
    requires Inv(s) && s.phase == Returned
    ensures SameRuns(Apply(s, step), s) && Apply(s, step).phase == Returned
  {
    assert s.admitted == s.done && s.started == s.exited;
  }

  predicate SameRuns(s: State, t: State) {
    s.admitted == t.admitted && s.done == t.done && s.started == t.started && s.exited == t.exited
  }

  lemma {:induction false} StoppedForGood(s: State, later: seq<Step>)
    requires Inv(s) && s.phase == Returned
    ensures Inv(Run(s, later)) && SameRuns(Run(s, later), s) && Run(s, later).phase == Returned
  {
    if later != [] {
      var init := later[..|later| - 1];
      StoppedForGood(s, init);
      StoppedStays(Run(s, init), later[|later| - 1]);
      InvKept(Run(s, init), later[|later| - 1]);
    }
  }

  /** When the first Close has returned, every admitted operation is done and every goroutine has exited;
      and whatever happens after that, no other is ever admitted or started. */
  lemma NothingRunsAfterClose(steps: seq<Step>, later: seq<Step>)
    requires Run(INITIAL, steps).phase == Returned
    ensures
      var s := Run(INITIAL, steps);
      && s.admitted == s.done && s.started == s.exited
      && SameRuns(Run(s, later), s)
  {
    ReachableInv(steps);
    StoppedForGood(Run(INITIAL, steps), later);
  }

  /** From the first Close on nothing more is admitted or started, before it returns as well. */
  lemma {:induction false} ClosedAdmitsNothing(s: State, later: seq<Step>)
    requires s.closed
    ensures Run(s, later).closed
    ensures Run(s, later).admitted == s.admitted && Run(s, later).started == s.started
  {
    if later != [] { ClosedAdmitsNothing(s, later[..|later| - 1]); }
  }

  /** An operation finds the context cancelled only if, before, the context given to Close was. */
  lemma {:induction false} InterruptedOnlyByTheCaller(steps: seq<Step>, operation: nat)
    requires operation in Run(INITIAL, steps).interrupted
    ensures exists i :: 0 <= i < |steps| && steps[i].CancelCaller?
  {
    ReachableInv(steps);
    CancelledWasAsked(steps);
  }

  lemma {:induction false} CancelledWasAsked(steps: seq<Step>)
    requires Run(INITIAL, steps).callerCancelled
    ensures exists i :: 0 <= i < |steps| && steps[i].CancelCaller?
  {
    var last := |steps| - 1;
    if !steps[last].CancelCaller? {
      CancelledWasAsked(steps[..last]);
      var i :| 0 <= i < last && steps[..last][i].CancelCaller?;
      assert steps[i].CancelCaller?;
    }
  }

  /** A repeated Close changes nothing. When it returns, in whatever state, the cleaner has stopped if and only if
      both wait groups are at zero; so only the first Close can be relied on for that. */
  lemma RepeatedClose(steps: seq<Step>)
    requires Run(INITIAL, steps).closed
    ensures
      var s := Run(INITIAL, steps);
      && Apply(s, Close) == s
      && (s.admitted == s.done && s.started == s.exited <==> s.operations == 0 && s.goroutines == 0)
  {
    ReachableInv(steps);
    var s := Run(INITIAL, steps);
    if s.operations == 0 { NoneLeft(s.admitted, s.done); }
    if s.goroutines == 0 { NoneLeft(s.started, s.exited); }
  }

  /** Nothing keeps Close from returning but what still runs: when that is over, it goes through its waits and returns, with
      the context cancelled. */
  lemma CloseReturns(steps: seq<Step>)
    requires
      var s := Run(INITIAL, steps);
      s.closed && s.admitted == s.done && s.started == s.exited
    ensures
      var t := Run(INITIAL, steps + [Proceed, Proceed, Proceed]);
      t.phase == Returned && t.cancelled && SameRuns(t, Run(INITIAL, steps))
  {
    ReachableInv(steps);
    var s := Run(INITIAL, steps);
    assert s.admitted - s.done == {} && s.started - s.exited == {};
    OneMoreStep(steps, Proceed);
    OneMoreStep(steps + [Proceed], Proceed);
    OneMoreStep(steps + [Proceed] + [Proceed], Proceed);
    assert steps + [Proceed] + [Proceed] + [Proceed] == steps + [Proceed, Proceed, Proceed];
  }

  lemma OneMoreStep(steps: seq<Step>, step: Step)
    ensures Run(INITIAL, steps + [step]) == Apply(Run(INITIAL, steps), step)
  {
    assert (steps + [step])[..|steps|] == steps;
  }

  /** And it does not return before: from no wait does it go on while something that it waits for runs. */
  lemma CloseWaits(steps: seq<Step>)
    ensures
      var s, t := Run(INITIAL, steps), Run(INITIAL, steps + [Proceed]);
      && (s.phase == WaitingOperations ==> (t.phase == Cancelling <==> s.admitted == s.done) && (t.phase != Cancelling ==> t == s))
      && (s.phase == WaitingGoroutines ==> (t.phase == Returned <==> s.started == s.exited) && (t.phase != Returned ==> t == s))
  {
    ReachableInv(steps);
    var s := Run(INITIAL, steps);
    assert (steps + [Proceed])[..|steps|] == steps;
    if s.operations == 0 { NoneLeft(s.admitted, s.done); }
    if s.goroutines == 0 { NoneLeft(s.started, s.exited); }
  }

  /** A running operation that looks at the context finds it cancelled exactly when it is; and it is once that of the
      caller was, if Close has been called. */
  lemma LookFinds(s: State, operation: nat)
    requires Inv(s) && operation in s.admitted && operation !in s.done && operation !in s.interrupted
    ensures operation in Apply(s, Look(operation)).interrupted <==> s.cancelled
    ensures Apply(s, Look(operation)) == s.(interrupted := Apply(s, Look(operation)).interrupted)
    ensures Apply(s, Propagate).cancelled <==> s.cancelled || (s.callerCancelled && s.closed)
    ensures Apply(s, CancelCaller).callerCancelled
  {
  }

  // ---- The object ----------------------------------------------------------------------------------------------

  /** The fields under the mutex. The methods are the sections that hold it; waiting is the test of a counter. */
  class Cleaner {
    var closed: bool
    var cancelled: bool
    var operations: int
    var goroutines: int
    ghost var state: State

    ghost predicate Valid()
      reads this
    {
      && Inv(state)
      && closed == state.closed && cancelled == state.cancelled
      && operations == state.operations && goroutines == state.goroutines
    }

    constructor ()
      ensures Valid() && state == INITIAL
    {
      closed, cancelled, operations, goroutines := false, false, 0, 0;
      state := INITIAL;
    }

    method Start(ghost goroutine: nat) returns (started: bool)
      requires Valid() && goroutine !in state.started
      modifies this
      ensures Valid() && state == Apply(old(state), Step.Start(goroutine))
      ensures started <==> !old(closed)
      ensures state.started == if started then old(state).started + {goroutine} else old(state).started
    {
      InvKept(state, Step.Start(goroutine));
      state := Apply(state, Step.Start(goroutine));
      if closed {
        return false;
      }
      goroutines := goroutines + 1;
      return true;
    }

    /** The part of complete before the operation. */
    method Admit(ghost operation: nat) returns (ran: bool)
      requires Valid() && operation !in state.admitted
      modifies this
      ensures Valid() && state == Apply(old(state), Complete(operation))
      ensures ran <==> !old(closed)
      ensures state.admitted == if ran then old(state).admitted + {operation} else old(state).admitted
    {
      InvKept(state, Complete(operation));
      state := Apply(state, Complete(operation));
      if closed {
        return false;
      }
      operations := operations + 1;
      return true;
    }

    /** The part of complete after the operation. The counter of a wait group must not become negative. */
    method Leave(ghost operation: nat)
      requires Valid() && operation in state.admitted && operation !in state.done
      modifies this
      ensures Valid() && state == Apply(old(state), Done(operation)) && operations == old(operations) - 1 >= 0
      ensures state.done == old(state).done + {operation} && state.admitted == old(state).admitted
    {
      InvKept(state, Done(operation));
      state := Apply(state, Done(operation));
      operations := operations - 1;
    }

    method Exited(ghost goroutine: nat)
      requires Valid() && goroutine in state.started && goroutine !in state.exited
      modifies this
      ensures Valid() && state == Apply(old(state), Exit(goroutine)) && goroutines == old(goroutines) - 1 >= 0
      ensures state.exited == old(state).exited + {goroutine} && state.started == old(state).started
    {
      InvKept(state, Exit(goroutine));
      state := Apply(state, Exit(goroutine));
      goroutines := goroutines - 1;
    }

    /** The part of Close under the mutex: true for the call that has to go on. */
    method BeginClose() returns (first: bool)
      requires Valid()
      modifies this
      ensures Valid() && state == Apply(old(state), Close) && first == !old(closed) && closed
      ensures first ==> state.phase == WaitingOperations
    {
      InvKept(state, Close);
      state := Apply(state, Close);
      if closed {
        return false;
      }
      closed := true;
      return true;
    }

    /** Close goes on when the operations are over. */
    method CancelGoroutines()
      requires Valid() && state.phase == WaitingOperations && operations == 0
      modifies this
      ensures Valid() && state == Apply(Apply(old(state), Proceed), Proceed)
      ensures state.admitted == state.done && cancelled
    {
      InvKept(state, Proceed);
      InvKept(Apply(state, Proceed), Proceed);
      state := Apply(Apply(state, Proceed), Proceed);
      cancelled := true;
    }

    /** Close returns when the goroutines have exited. */
    method EndClose()
      requires Valid() && state.phase == WaitingGoroutines && goroutines == 0
      modifies this
      ensures Valid() && state == Apply(old(state), Proceed)
      ensures state.phase == Returned && state.started == state.exited
    {
      InvKept(state, Proceed);
      state := Apply(state, Proceed);
    }
  }
}
