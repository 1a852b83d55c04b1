/**
 * The deferred-transition finite state machine (FiniteStateMachine.cpp).
 *
 * A state holds up to three user callbacks (enter, update, exit); a missing
 * callback is a null pointer. The callbacks themselves are code outside the
 * model: calling one is recorded, in order, in a shared CallLog.
 */
module FiniteStateMachine {
  import opened Wrappers

  /** The identity of a user callback function. */
  datatype UserFunction = UserFunction(id: nat)

  /** The user callbacks that have run, in order. */
  class CallLog {
    var calls: seq<UserFunction>

    constructor ()
      ensures calls == []
    {
      calls := [];
    }
  }

  /** What calling a possibly-null callback runs: nothing when it is null. */
  function Invoked(f: Option<UserFunction>): (calls: seq<UserFunction>)
    ensures |calls| <= 1
    ensures f.None? <==> calls == []
    ensures forall g :: g in calls <==> f == Some(g)
  {
    match f
    case None => []
    case Some(g) => [g]
  }

  class State {
    const userEnter: Option<UserFunction>
    const userUpdate: Option<UserFunction>
    const userExit: Option<UserFunction>

    /** State(): no callbacks at all. */
    constructor Empty()
      ensures userEnter == None && userUpdate == None && userExit == None
    {
      userEnter, userUpdate, userExit := None, None, None;
    }

    /** State(updateFunction): only an update callback (which may itself be null). */
    constructor WithUpdate(update: Option<UserFunction>)
      ensures userEnter == None && userUpdate == update && userExit == None
    {
      userEnter, userUpdate, userExit := None, update, None;
    }

    /** State(enterFunction, updateFunction, exitFunction). */
    constructor (enter: Option<UserFunction>, update: Option<UserFunction>, exit: Option<UserFunction>)
      ensures userEnter == enter && userUpdate == update && userExit == exit
    {
      userEnter, userUpdate, userExit := enter, update, exit;
    }

    /** enter: run the enter callback if there is one. */
    method Enter(log: CallLog)
      modifies log
      ensures log.calls == old(log.calls) + Invoked(userEnter)
    {
      if userEnter.Some? {
        log.calls := log.calls + [userEnter.value];
      }
    }

    /** update: run the update callback if there is one. */
    method Update(log: CallLog)
      modifies log
      ensures log.calls == old(log.calls) + Invoked(userUpdate)
    {
      if userUpdate.Some? {
        log.calls := log.calls + [userUpdate.value];
      }
    }

    /** exit: run the exit callback if there is one. */
    method Exit(log: CallLog)
      modifies log
      ensures log.calls == old(log.calls) + Invoked(userExit)
    {
      if userExit.Some? {
        log.calls := log.calls + [userExit.value];
      }
    }
  }

  class Machine {
    /** Whether the first update still has to run the initial state's enter. */
    var needToTriggerEnter: bool
    var current: State
    /** The state the next update moves to; equal to current when none is pending. */
    var next: State
    /** Where the user callbacks' runs are recorded. */
    const log: CallLog

    /** FSM(current): start in `initial` without entering it yet. */
    constructor (initial: State, log: CallLog)
      ensures current == initial && next == initial && needToTriggerEnter
      ensures this.log == log
    {
      needToTriggerEnter := true;
      current, next := initial, initial;
      this.log := log;
    }

    /**
     * update: the first call only enters the initial state; later calls first
     * perform a pending transition (exit the old state, enter the new one) and
     * then run the current state's update.
     */
    method Update()
      modifies this, log
      ensures old(needToTriggerEnter) ==>
        && log.calls == old(log.calls) + Invoked(old(current).userEnter)
        && current == old(current) && next == old(next) && !needToTriggerEnter
      ensures !old(needToTriggerEnter) && old(next) != old(current) ==>
        && log.calls == old(log.calls) + Invoked(old(current).userExit)
             + Invoked(old(next).userEnter) + Invoked(old(next).userUpdate)
        && current == old(next) && next == old(next) && !needToTriggerEnter
      ensures !old(needToTriggerEnter) && old(next) == old(current) ==>
        && log.calls == old(log.calls) + Invoked(old(current).userUpdate)
        && current == old(current) && next == old(next) && !needToTriggerEnter
    {
      if needToTriggerEnter {
        current.Enter(log);
        needToTriggerEnter := false;
      } else {
        if current != next {
          ImmediateTransitionTo(next);
        }
        current.Update(log);
      }
    }

    /** transitionTo: only record the target; nothing runs until the next update. */
    method TransitionTo(state: State)
      modifies this
      ensures next == state
      ensures current == old(current) && needToTriggerEnter == old(needToTriggerEnter)
    {
      next := state;
    }

    /**
     * immediateTransitionTo: exit the current state and enter `state` now,
     * even when `state` is the current state.
     */
    method ImmediateTransitionTo(state: State)
      modifies this, log
      ensures log.calls == old(log.calls) + Invoked(old(current).userExit) + Invoked(state.userEnter)
      ensures current == state && next == state
      ensures needToTriggerEnter == old(needToTriggerEnter)
    {
      current.Exit(log);
      current, next := state, state;
      current.Enter(log);
    }

    /** getCurrentState. */
    function CurrentState(): (s: State)
      reads this
      ensures IsInState(s)
    {
      current
    }

    /** isInState: compares identities, not contents. */
    predicate IsInState(state: State)
      reads this
    {
      state == current
    }
  }

  /**
   * Two requests before an update: the second one wins, and neither runs a
   * callback nor changes the current state.
   */
  method LastRequestWins(m: Machine, a: State, b: State)
    modifies m
    ensures m.next == b && m.current == old(m.current)
    ensures m.log.calls == old(m.log.calls)
  {
    m.TransitionTo(a);
    m.TransitionTo(b);
  }
}
