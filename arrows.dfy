/**
 * The arrows extension: a left and a right button that page the rail. The
 * buttons are records held by the extension; a click is the `Command` its
 * handler issues on the rail, which the host performs with
 * `MotionRail.Perform`.
 */
module Arrows {
  import opened Wrappers
  import opened Types
  import Visibility
  import Engine

  const Name: string := "ArrowExtension"
  const DefaultLeftIcon: string := "<svg xmlns=\"http://www.w3.org/2000/svg\" width=\"24\" height=\"24\" viewBox=\"0 0 24 24\" fill=\"none\" stroke=\"currentColor\" stroke-width=\"2\" stroke-linecap=\"round\" stroke-linejoin=\"round\" class=\"lucide lucide-chevron-left-icon lucide-chevron-left\"><path d=\"m15 18-6-6 6-6\"/></svg>"
  const DefaultRightIcon: string := "<svg xmlns=\"http://www.w3.org/2000/svg\" width=\"24\" height=\"24\" viewBox=\"0 0 24 24\" fill=\"none\" stroke=\"currentColor\" stroke-width=\"2\" stroke-linecap=\"round\" stroke-linejoin=\"round\" class=\"lucide lucide-chevron-right-icon lucide-chevron-right\"><path d=\"m9 18 6-6-6-6\"/></svg>"
  const LeftClass: string := "motionrail-arrow motionrail-arrow-left"
  const RightClass: string := "motionrail-arrow motionrail-arrow-right"

  /** The factory's parameter object; every field may be missing, and so may the object. */
  datatype Params = Params(leftIcon: Option<string>, rightIcon: Option<string>, loop: Option<bool>, log: Option<bool>)

  /**
   * A created arrow: its markup and class, its `disabled` flag, whether its
   * inline `display` is `none`, whether it is still in the document, and the
   * command its click handler issues.
   */
  datatype Button = Button(innerHtml: string, className: string, disabled: bool, hidden: bool, attached: bool, onClick: Command)

  /** The command of the left arrow and of the right arrow, for the rail's direction. */
  function ClickCommands(rtl: bool): (Command, Command) {
    if rtl then (Next, Prev) else (Prev, Next)
  }

  /** The two arrows always page in opposite directions, and reversing the direction swaps them. */
  lemma ArrowsOppose(rtl: bool)
    ensures ClickCommands(rtl).0 != ClickCommands(rtl).1
    ensures ClickCommands(rtl).0 in {Next, Prev} && ClickCommands(rtl).1 in {Next, Prev}
    ensures ClickCommands(!rtl) == (ClickCommands(rtl).1, ClickCommands(rtl).0)
  {
  }

  /** `onUpdate` shows the arrows when some item is not visible and there are items. */
  predicate Shown(s: RailState) {
    |s.visibleItemIndexes| < s.totalItems && s.totalItems != 0
  }

  /** For a well formed state, the arrows are shown exactly when some item is not visible. */
  lemma {:induction false} ShownIffSomeItemHidden(s: RailState)
    requires Visibility.WellFormed(s, s.totalItems)
    ensures Shown(s) <==> exists k :: 0 <= k < s.totalItems && k !in s.visibleItemIndexes
  {
    var vis := s.visibleItemIndexes;
    LowerBoundByPosition(vis, |vis|);
    if Shown(s) {
      var k := FirstGap(vis, 0);
      assert 0 <= k < s.totalItems && k !in vis;
    } else if s.totalItems != 0 {
      assert |vis| >= s.totalItems;
      forall k | 0 <= k < s.totalItems
        ensures k in vis
      {
        UpperBoundByPosition(vis, s.totalItems, k);
        assert vis[k] == k;
      }
    }
  }

  /** In a strictly increasing sequence of non-negative numbers, each element is at least its position. */
  lemma {:induction false} LowerBoundByPosition(vis: seq<int>, n: nat)
    requires n <= |vis|
    requires Visibility.StrictlySorted(vis)
    requires forall k :: 0 <= k < |vis| ==> vis[k] >= 0
    ensures forall k :: 0 <= k < n ==> vis[k] >= k
  {
    if n > 0 {
      LowerBoundByPosition(vis, n - 1);
      if n > 1 {
        assert vis[n - 2] < vis[n - 1];
      }
    }
  }

  /** In a strictly increasing sequence below `bound`, an element at position `k` is at most `bound - |vis| + k`. */
  lemma {:induction false} UpperBoundByPosition(vis: seq<int>, bound: int, k: nat)
    requires k < |vis|
    requires Visibility.StrictlySorted(vis)
    requires forall j :: 0 <= j < |vis| ==> vis[j] < bound
    ensures vis[k] <= bound - |vis| + k
    decreases |vis| - k
  {
    if k < |vis| - 1 {
      UpperBoundByPosition(vis, bound, k + 1);
      assert vis[k] < vis[k + 1];
    }
  }

  /** The first position from `i` on whose element is not its position, or the length when there is none; that number is missing. */
  function FirstGap(vis: seq<int>, i: nat): (k: nat)
    requires i <= |vis|
    requires Visibility.StrictlySorted(vis)
    requires forall j :: 0 <= j < |vis| ==> vis[j] >= j
    requires forall j :: 0 <= j < i ==> vis[j] == j
    ensures i <= k <= |vis| && k !in vis
    decreases |vis| - i
  {
    if i == |vis| then
      assert forall j :: 0 <= j < |vis| ==> vis[j] < |vis|;
      i
    else if vis[i] != i then
      assert forall j :: 0 <= j < i ==> vis[j] < i;
      assert forall j :: i < j < |vis| ==> vis[j] > vis[i];
      i
    else
      FirstGap(vis, i + 1)
  }

  class ArrowsExtension {
    const leftIcon: string
    const rightIcon: string
    const loop: bool
    const log: bool

    var leftArrow: Option<Button>
    var rightArrow: Option<Button>
    /** The states passed to `console.log`, in order. */
    var logs: seq<RailState>

    /** Both arrows exist or neither does, and with `loop` on no arrow is ever disabled. */
    ghost predicate Valid()
      reads this
    {
      && (leftArrow.Some? <==> rightArrow.Some?)
      && (loop ==> leftArrow.Some? ==> !leftArrow.value.disabled)
      && (loop ==> rightArrow.Some? ==> !rightArrow.value.disabled)
    }

    /** `Arrows(par)`: the parameters with their defaults; no button exists yet. */
    constructor (par: Option<Params>)
      ensures leftIcon == if par.Some? && par.value.leftIcon.Some? then par.value.leftIcon.value else DefaultLeftIcon
      ensures rightIcon == if par.Some? && par.value.rightIcon.Some? then par.value.rightIcon.value else DefaultRightIcon
      ensures loop == (par.None? || par.value.loop.None? || par.value.loop.value)
      ensures log == (par.Some? && par.value.log.Some? && par.value.log.value)
      ensures leftArrow.None? && rightArrow.None? && logs == []
      ensures Valid()
    {
      var p := if par.Some? then par.value else Params(None, None, None, None);
      leftIcon := if p.leftIcon.Some? then p.leftIcon.value else DefaultLeftIcon;
      rightIcon := if p.rightIcon.Some? then p.rightIcon.value else DefaultRightIcon;
      loop := if p.loop.Some? then p.loop.value else true;
      log := if p.log.Some? then p.log.value else false;
      leftArrow := None;
      rightArrow := None;
      logs := [];
    }

    /**
     * `onInit`: nothing for an empty rail; otherwise creates both arrows and
     * appends them to the rail's element, the left one paging back and the
     * right one forward, or the reverse when the rail is right-to-left.
     */
    method OnInit(rail: Engine.MotionRail, state: RailState)
      requires Valid()
      modifies this`leftArrow, this`rightArrow
      ensures state.totalItems == 0 ==> leftArrow == old(leftArrow) && rightArrow == old(rightArrow)
      ensures state.totalItems != 0 ==>
        var rtl := rail.GetOptions().rtl;
        && leftArrow == Some(Button(leftIcon, LeftClass, false, false, true, ClickCommands(rtl).0))
        && rightArrow == Some(Button(rightIcon, RightClass, false, false, true, ClickCommands(rtl).1))
      ensures state.totalItems != 0 ==> leftArrow.value.onClick == (if rail.GetOptions().rtl then Next else Prev)
      ensures Valid()
    {
      if state.totalItems == 0 {
        return;
      }
      var rtl := rail.GetOptions().rtl;
      leftArrow := Some(Button(leftIcon, LeftClass, false, false, true, if rtl then Next else Prev));
      rightArrow := Some(Button(rightIcon, RightClass, false, false, true, if rtl then Prev else Next));
    }

    /**
     * `onUpdate`: nothing while an arrow is missing; otherwise, without
     * `loop`, disables the left arrow exactly when the first item is visible
     * and the right one exactly when the last is; then shows both or hides
     * both, and logs the state when asked.
     */
    method OnUpdate(state: RailState)
      requires Valid()
      modifies this`leftArrow, this`rightArrow, this`logs
      ensures old(leftArrow).None? || old(rightArrow).None? ==> unchanged(this)
      ensures old(leftArrow).Some? && old(rightArrow).Some? ==>
        var l := old(leftArrow).value;
        var r := old(rightArrow).value;
        && leftArrow == Some(l.(disabled := if loop then l.disabled else state.isFirstItemVisible, hidden := !Shown(state)))
        && rightArrow == Some(r.(disabled := if loop then r.disabled else state.isLastItemVisible, hidden := !Shown(state)))
        && logs == old(logs) + (if log then [state] else [])
      ensures Valid()
    {
      if leftArrow.None? || rightArrow.None? {
        return;
      }
      var left := leftArrow.value;
      var right := rightArrow.value;
      if !loop {
        left := left.(disabled := state.isFirstItemVisible);
        right := right.(disabled := state.isLastItemVisible);
      }
      if |state.visibleItemIndexes| < state.totalItems {
        left := left.(hidden := false);
        right := right.(hidden := false);
      } else {
        left := left.(hidden := true);
        right := right.(hidden := true);
      }
      if state.totalItems == 0 {
        left := left.(hidden := true);
        right := right.(hidden := true);
      }
      leftArrow, rightArrow := Some(left), Some(right);
      if log {
        logs := logs + [state];
      }
    }

    /** `onDestroy`: removes whichever arrows exist from the document; the extension keeps its references. */
    method OnDestroy()
      requires Valid()
      modifies this`leftArrow, this`rightArrow
      ensures leftArrow == if old(leftArrow).Some? then Some(old(leftArrow).value.(attached := false)) else None
      ensures rightArrow == if old(rightArrow).Some? then Some(old(rightArrow).value.(attached := false)) else None
      ensures Valid()
    {
      if leftArrow.Some? {
        leftArrow := Some(leftArrow.value.(attached := false));
      }
      if rightArrow.Some? {
        rightArrow := Some(rightArrow.value.(attached := false));
      }
    }
  }

  /** On an empty rail `onInit` creates no arrow, and `onUpdate` then changes nothing. */
  method EmptyRailHasNoArrows(par: Option<Params>, rail: Engine.MotionRail, init: RailState, later: RailState)
    returns (left: Option<Button>, right: Option<Button>, logged: seq<RailState>)
    requires init.totalItems == 0
    ensures left.None? && right.None? && logged == []
  {
    var arrows := new ArrowsExtension(par);
    arrows.OnInit(rail, init);
    arrows.OnUpdate(later);
    left, right, logged := arrows.leftArrow, arrows.rightArrow, arrows.logs;
  }

  /** With `loop` forced off, after an update the left arrow is disabled exactly while the first item is visible. */
  method DisabledTracksEdges(par: Params, rail: Engine.MotionRail, init: RailState, later: RailState)
    returns (leftDisabled: bool, rightDisabled: bool, hidden: bool)
    requires par.loop == Some(false) && init.totalItems != 0
    ensures leftDisabled == later.isFirstItemVisible && rightDisabled == later.isLastItemVisible
    ensures hidden == !Shown(later)
  {
    var arrows := new ArrowsExtension(Some(par));
    arrows.OnInit(rail, init);
    arrows.OnUpdate(later);
    leftDisabled, rightDisabled := arrows.leftArrow.value.disabled, arrows.rightArrow.value.disabled;
    hidden := arrows.leftArrow.value.hidden;
  }
}
