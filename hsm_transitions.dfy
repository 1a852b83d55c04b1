/**
 * Properties of the transition algorithm of hsm.cpp, stated on the
 * specification functions of HsmStates.
 */
module HsmTransitions {
  import opened Wrappers
  import opened HsmStates

  /** The exit phase walks from the current state up the parent links and stops at the first strict ancestor of the target, or after the root. */
  lemma {:induction false} ExitPathShape(s: StateId, target: StateId)
    ensures var p := ExitPath(Some(s), target);
      var chain := [s] + Ancestors(s);
      && |p| <= |chain|
      && p == chain[..|p|]
      && (forall i :: 0 <= i < |p| ==> !IsDescendantOf(target, p[i]))
      && (|p| < |chain| ==> IsDescendantOf(target, chain[|p|]))
    decreases Depth(s)
  {
    var p := ExitPath(Some(s), target);
    var chain := [s] + Ancestors(s);
    if !IsDescendantOf(target, s) {
      match Parent(s)
      case None =>
        assert p == [s];
      case Some(q) =>
        ExitPathShape(q, target);
        assert p == [s] + ExitPath(Some(q), target);
        assert chain == [s] + ([q] + Ancestors(q));
    }
  }

  /** The exit phase always starts with the current state unless the target lies below it. */
  lemma ExitStartsAtCurrent(s: StateId, target: StateId)
    ensures !IsDescendantOf(target, s) ==> ExitPath(Some(s), target)[0] == s
    ensures IsDescendantOf(target, s) ==> ExitPath(Some(s), target) == []
  {
  }

  /** The number of a target's strict ancestors that are not strict ancestors of the old state. */
  function CountFresh(ancestors: seq<StateId>, oldState: StateId): (n: nat)
    ensures n <= |ancestors|
  {
    if ancestors == [] then 0
    else (if IsDescendantOf(oldState, ancestors[0]) then 0 else 1) + CountFresh(ancestors[1..], oldState)
  }

  /**
   * The counting loop counts exactly the fresh ancestors: once it meets an
   * ancestor of the old state, every ancestor above it is one too.
   */
  lemma {:induction false} NonSharedIsFresh(t: StateId, oldState: StateId)
    ensures NonShared(Parent(t), oldState) == CountFresh(Ancestors(t), oldState)
  {
    match Parent(t)
    case None =>
    case Some(p) =>
      assert Ancestors(t) == [p] + Ancestors(p);
      assert Ancestors(p) == [];
      assert Parent(p).None?;
  }

  /**
   * The enter phase, as coded: the ancestors entered are the fresh ones less
   * one (todo starts at -1), top-down, followed by the target itself.
   */
  lemma EnterPathShape(oldState: StateId, target: StateId)
    ensures var k := CountFresh(Ancestors(target), oldState);
      var e := EnterPath(oldState, target);
      && |e| == (if k == 0 then 1 else k)
      && e == Entering(target, k - 1) + [target]
  {
    NonSharedIsFresh(target, oldState);
    EnteringTopDown(target, Todo(oldState, target));
  }

  lemma {:induction false} EnteringTopDown(target: StateId, i: int)
    requires i <= |Ancestors(target)|
    ensures forall j :: 0 <= j < |Entering(target, i)| ==> Entering(target, i)[j] == Ancestors(target)[i - 1 - j]
    decreases i
  {
    if i > 0 {
      EnteringTopDown(target, i - 1);
    }
  }

  /** In this tree the enter loop never runs: every transition enters only its target. */
  lemma EnterOnlyTarget(oldState: StateId, target: StateId)
    ensures EnterPath(oldState, target) == [target]
  {
    TreeShape(target);
  }

  /**
   * As coded, a transition from Idle straight into WaitForConversion would not
   * enter Run, although Run is a fresh ancestor of the target.
   */
  lemma IdleToWaitSkipsRun()
    ensures CountFresh(Ancestors(WaitForConversion), Idle) == 1
    ensures EnterPath(Idle, WaitForConversion) == [WaitForConversion]
    ensures Entered(Run, WaitForConversion) !in TransitionCalls(Idle, WaitForConversion)
  {
    assert Ancestors(WaitForConversion) == [Run];
    assert ExitPath(Some(Idle), WaitForConversion) == [Idle];
    EnterOnlyTarget(Idle, WaitForConversion);
  }

  /**
   * The callbacks of one transitionTo come in order: exits with the old state
   * current, then enters with the target current, the target's enter last of
   * them, and its onInit last of all.
   */
  lemma TransitionCallsOrder(from: StateId, target: StateId)
    ensures var t := TransitionCalls(from, target);
      var n := |ExitPath(Some(from), target)|;
      && |t| == n + 2
      && (forall i :: 0 <= i < n ==> t[i] == Exited(ExitPath(Some(from), target)[i], from))
      && t[n] == Entered(target, target)
      && t[n + 1] == Initialised(target, target)
  {
    EnterOnlyTarget(from, target);
    var exits := ExitCalls(ExitPath(Some(from), target), from);
    assert TransitionCalls(from, target) == exits + [Entered(target, target)] + [Initialised(target, target)];
  }

  /** A self-transition is not a no-op: the state is exited, entered and initialised again. */
  lemma SelfTransition(s: StateId)
    ensures TransitionCalls(s, s) == [Exited(s, s), Entered(s, s), Initialised(s, s)]
  {
    NotOwnDescendant(s);
    EnterOnlyTarget(s, s);
    var p := ExitPath(Some(s), s);
    match Parent(s)
    case None =>
      assert p == [s];
    case Some(q) =>
      assert IsDescendantOf(s, q);
      assert p == [s];
  }

  /** Run's init moves into WaitForConversion without leaving or re-entering Run. */
  lemma RunInitStaysInRun()
    ensures TransitionCalls(Run, WaitForConversion) == [Entered(WaitForConversion, WaitForConversion), Initialised(WaitForConversion, WaitForConversion)]
    ensures InitCascade(WaitForConversion) == []
  {
    assert ExitPath(Some(Run), WaitForConversion) == [];
    EnterOnlyTarget(Run, WaitForConversion);
  }

  /** Leaving the Run subtree for a root exits the current state and then Run. */
  lemma LeaveRun(s: StateId, target: StateId)
    requires Parent(s) == Some(Run) && Parent(target).None?
    ensures TransitionCalls(s, target) == [Exited(s, s), Exited(Run, s), Entered(target, target), Initialised(target, target)]
  {
    assert ExitPath(Some(s), target) == [s, Run] by {
      assert ExitPath(Some(Run), target) == [Run];
    }
    EnterOnlyTarget(s, target);
  }

  /** A transition between roots exits the old one and enters the new one. */
  lemma RootToRoot(from: StateId, target: StateId)
    requires Parent(from).None? && Parent(target).None?
    ensures TransitionCalls(from, target) == [Exited(from, from), Entered(target, target), Initialised(target, target)]
  {
    assert ExitPath(Some(from), target) == [from];
    EnterOnlyTarget(from, target);
  }

  /** Between siblings under Run: exit one, enter the other, Run untouched. */
  lemma Sibling(from: StateId, target: StateId)
    requires Parent(from) == Some(Run) && Parent(target) == Some(Run)
    ensures TransitionCalls(from, target) == [Exited(from, from), Entered(target, target), Initialised(target, target)]
  {
    assert ExitPath(Some(from), target) == [from] by {
      assert IsDescendantOf(target, Run);
      NotOwnDescendant(from);
      assert !IsDescendantOf(target, from);
    }
    EnterOnlyTarget(from, target);
  }

  /** Every transition started by an onInit handler ends in a state whose onInit starts none. */
  lemma SettleIsStable(s: StateId)
    ensures InitRoute(Settle(s)).None?
    ensures Settle(s) == if s == SendStartRequest then Idle else if s in {Run, Sample} then WaitForConversion else s
  {
  }
}
