/**
 * The state tree of the hierarchical state machine (hsm.h, hsm.cpp) and the
 * callback sequence its transition algorithm produces, as pure functions.
 *
 * The tree is fixed: Init, Idle, SendStartRequest and Run are roots;
 * Sample and WaitForConversion are children of Run.
 */
module HsmStates {
  import opened Wrappers

  /** The state singletons that hsm.cpp instantiates and the machine can be in. */
  datatype StateId = Init | Idle | SendStartRequest | Run | WaitForConversion | Sample

  /**
   * getParentInstance: null by default; Sample's parent is Run, and so is
   * WaitForConversion's (its class declaration is not part of this model).
   */
  function Parent(s: StateId): (p: Option<StateId>)
    ensures p.Some? ==> Depth(p.value) < Depth(s)
  {
    match s
    case Sample => Some(Run)
    case WaitForConversion => Some(Run)
    case _ => None
  }

  /** Number of parent links above a state. */
  function Depth(s: StateId): nat
  {
    match s
    case Sample => 1
    case WaitForConversion => 1
    case _ => 0
  }

  /** The measure of a traversal cursor: a null cursor is below every state. */
  function Height(cursor: Option<StateId>): nat
  {
    match cursor
    case None => 0
    case Some(s) => Depth(s) + 1
  }

  /** The strict ancestors of a state, nearest first. */
  function Ancestors(s: StateId): (a: seq<StateId>)
    ensures |a| == Depth(s)
    decreases Depth(s)
  {
    match Parent(s)
    case None => []
    case Some(p) => [p] + Ancestors(p)
  }

  /**
   * isDescendantOf: walk the parent links from `s` (not counting `s` itself)
   * and report whether `a` is met.
   */
  function IsDescendantOf(s: StateId, a: StateId): bool
    decreases Depth(s)
  {
    match Parent(s)
    case None => false
    case Some(p) => p == a || IsDescendantOf(p, a)
  }

  /** The cursor after k parent steps from s (None once the walk has passed a root). */
  function Up(s: StateId, k: nat): Option<StateId>
  {
    if k == 0 then Some(s)
    else match Up(s, k - 1)
      case None => None
      case Some(x) => Parent(x)
  }

  /** isDescendantOf(s, a) holds exactly when a is met after one or more parent steps. */
  lemma DescendantIffReachable(s: StateId, a: StateId)
    ensures IsDescendantOf(s, a) <==> exists k :: 1 <= k && Up(s, k) == Some(a)
  {
    if IsDescendantOf(s, a) {
      assert Parent(Parent(s).value).None?;
      assert Up(s, 1) == Some(a);
      assert exists k :: 1 <= k && Up(s, k) == Some(a);
    }
    if exists k :: 1 <= k && Up(s, k) == Some(a) {
      var k :| 1 <= k && Up(s, k) == Some(a);
      if k > 1 {
        UpBeyondDepth(s, k);
        assert false;
      }
      assert Up(s, 1) == Parent(s);
      assert Parent(s) == Some(a);
      assert IsDescendantOf(s, a);
    }
  }

  /** A walk of more steps than the state has ancestors falls off the root. */
  lemma {:induction false} UpBeyondDepth(s: StateId, k: nat)
    requires k > Depth(s)
    ensures Up(s, k).None?
  {
    if k - 1 > Depth(s) {
      UpBeyondDepth(s, k - 1);
    } else {
      assert Up(s, k - 1) == if Depth(s) == 0 then Some(s) else Parent(s);
    }
  }

  /** isDescendantOf(s, a) is membership of a among the strict ancestors of s. */
  lemma {:induction false} DescendantIffAncestor(s: StateId, a: StateId)
    ensures IsDescendantOf(s, a) <==> a in Ancestors(s)
    decreases Depth(s)
  {
    match Parent(s)
    case None =>
    case Some(p) => DescendantIffAncestor(p, a);
  }

  /** An ancestor is strictly higher: no state is its own descendant. */
  lemma {:induction false} DescendantIsDeeper(s: StateId, a: StateId)
    requires IsDescendantOf(s, a)
    ensures Depth(a) < Depth(s)
    decreases Depth(s)
  {
    var p := Parent(s).value;
    if p != a {
      DescendantIsDeeper(p, a);
    }
  }

  lemma NotOwnDescendant(s: StateId)
    ensures !IsDescendantOf(s, s)
  {
    if IsDescendantOf(s, s) {
      DescendantIsDeeper(s, s);
    }
  }

  /** The parent relation of this machine: acyclic, depth at most one link below a root. */
  lemma TreeShape(s: StateId)
    ensures |Ancestors(s)| <= 1
    ensures Parent(s).Some? <==> s == Sample || s == WaitForConversion
    ensures Parent(s).Some? ==> Parent(s) == Some(Run) && Parent(Run).None?
  {
  }

  /** The k-th parent step (1 <= k) lands on the k-th strict ancestor. */
  lemma UpAncestors(s: StateId, k: nat)
    requires 1 <= k <= |Ancestors(s)|
    ensures Up(s, k) == Some(Ancestors(s)[k - 1])
  {
    assert Up(s, 1) == Parent(s);
  }

  // ---------------------------------------------------------------------------
  // The transition algorithm as a specification

  /** A call of one of the three transition callbacks, with the state current when it is made. */
  datatype Callback =
    | Exited(state: StateId, current: StateId)
    | Entered(state: StateId, current: StateId)
    | Initialised(state: StateId, current: StateId)

  /**
   * The exit phase: from the cursor, every node up to but excluding the first
   * one of which the target is a strict descendant; all the way up when there
   * is none.
   */
  function ExitPath(cursor: Option<StateId>, target: StateId): seq<StateId>
    decreases Height(cursor)
  {
    match cursor
    case None => []
    case Some(s) => if IsDescendantOf(target, s) then [] else [s] + ExitPath(Parent(s), target)
  }

  /**
   * The enter-count loop: starting from the cursor, the number of nodes met
   * before one of which the old state is a strict descendant.
   */
  function NonShared(cursor: Option<StateId>, oldState: StateId): (n: nat)
    ensures n <= Height(cursor)
    decreases Height(cursor)
  {
    match cursor
    case None => 0
    case Some(a) => if IsDescendantOf(oldState, a) then 0 else 1 + NonShared(Parent(a), oldState)
  }

  /** The value of `todo` after the counting loop: it starts at -1. */
  function Todo(oldState: StateId, target: StateId): (todo: int)
    ensures -1 <= todo < |Ancestors(target)|
  {
    NonSharedBound(target, oldState);
    NonShared(Parent(target), oldState) - 1
  }

  lemma NonSharedBound(target: StateId, oldState: StateId)
    ensures NonShared(Parent(target), oldState) <= |Ancestors(target)|
  {
    match Parent(target)
    case None =>
    case Some(p) => assert Height(Some(p)) == Depth(p) + 1 == |Ancestors(target)|;
  }

  /** The ancestors the entering loop calls onEnter on: the i-th, then the (i-1)-th, ..., then the first. */
  function Entering(target: StateId, i: int): (e: seq<StateId>)
    requires i <= |Ancestors(target)|
    ensures |e| == if i <= 0 then 0 else i
    decreases i
  {
    if i <= 0 then [] else [Ancestors(target)[i - 1]] + Entering(target, i - 1)
  }

  /** The states entered by a transition, in calling order. */
  function EnterPath(oldState: StateId, target: StateId): seq<StateId>
  {
    Entering(target, Todo(oldState, target)) + [target]
  }

  /** The onExit calls for the states of `path`, in order, each made while `current` is current. */
  function ExitCalls(path: seq<StateId>, current: StateId): seq<Callback>
  {
    seq(|path|, i requires 0 <= i < |path| => Exited(path[i], current))
  }

  /** The onEnter calls for the states of `path`, in order, each made while `current` is current. */
  function EnterCalls(path: seq<StateId>, current: StateId): seq<Callback>
  {
    seq(|path|, i requires 0 <= i < |path| => Entered(path[i], current))
  }

  lemma EnterCallsSnoc(path: seq<StateId>, s: StateId, current: StateId)
    ensures EnterCalls(path + [s], current) == EnterCalls(path, current) + [Entered(s, current)]
  {
  }

  /**
   * The callbacks transitionTo makes before the final onInit: exits while the
   * old state is current, then enters while the target is current.
   */
  function SwitchCalls(from: StateId, target: StateId): seq<Callback>
  {
    ExitCalls(ExitPath(Some(from), target), from) + EnterCalls(EnterPath(from, target), target)
  }

  /** The callbacks transitionTo makes itself, before any transition its final onInit starts. */
  function TransitionCalls(from: StateId, target: StateId): seq<Callback>
  {
    SwitchCalls(from, target) + [Initialised(target, target)]
  }

  /** The transition an onInit handler makes: SendStartRequest to Idle, Run and Sample to WaitForConversion. */
  function InitRoute(s: StateId): (t: Option<StateId>)
    ensures t.Some? ==> InitRank(t.value) < InitRank(s)
  {
    match s
    case SendStartRequest => Some(Idle)
    case Run => Some(WaitForConversion)
    case Sample => Some(WaitForConversion)
    case _ => None
  }

  /** Bounds the nesting of transitions started by onInit handlers. */
  function InitRank(s: StateId): nat
  {
    match s
    case SendStartRequest => 1
    case Run => 1
    case Sample => 1
    case _ => 0
  }

  /** All callbacks of transitionTo(target) from `from`, including those of transitions its onInit starts. */
  function Cascade(from: StateId, target: StateId): seq<Callback>
    decreases InitRank(target), 2
  {
    SwitchCalls(from, target) + InitCalls(target)
  }

  /** The onInit of `s`, made once `s` is current, and the transition it starts, if any. */
  function InitCalls(s: StateId): seq<Callback>
    decreases InitRank(s), 1
  {
    [Initialised(s, s)] + InitCascade(s)
  }

  /** The callbacks of the transition the onInit of `s` starts, if any. */
  function InitCascade(s: StateId): seq<Callback>
    decreases InitRank(s), 0
  {
    match InitRoute(s)
    case None => []
    case Some(t) => Cascade(s, t)
  }

  /** The state a transition to `s` finally rests in. */
  function Settle(s: StateId): StateId
    decreases InitRank(s)
  {
    match InitRoute(s)
    case None => s
    case Some(t) => Settle(t)
  }
}
