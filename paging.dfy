/** The page navigation arithmetic of `scrollByPage`. */
module Paging {
  import Visibility

  datatype Direction = Forward | Backward

  predicate InRange(visible: seq<int>, len: int) {
    forall k :: 0 <= k < |visible| ==> 0 <= visible[k] < len
  }

  /**
   * The target index for one page move from the visible indexes: forward goes
   * to `last + 1` (`last + count` right-to-left), backward to `first - count`
   * (`last - count` right-to-left); then the wrap and clamp rules at both ends.
   */
  function PageTarget(visible: seq<int>, len: int, dir: Direction, rtl: bool, isFirst: bool, isLast: bool): int
    requires |visible| > 0
  {
    var first := visible[0];
    var last := visible[|visible| - 1];
    var count := |visible|;
    match dir
    case Forward =>
      var t := if rtl then last + count else last + 1;
      if t >= len - 1 && isLast then 0
      else if t >= len - 1 && !isLast then len - 1
      else t
    case Backward =>
      var t := if rtl then last - count else first - count;
      if t <= 0 && isFirst then len - 1
      else if t <= 0 && !isFirst then 0
      else t
  }

  /** With visible indexes into a list of `len` snap points, the target is an index of that list. */
  lemma PageTargetInRange(visible: seq<int>, len: int, dir: Direction, rtl: bool, isFirst: bool, isLast: bool)
    requires |visible| > 0 && InRange(visible, len)
    ensures 0 <= PageTarget(visible, len, dir, rtl, isFirst, isLast) < len
  {
    assert 0 <= visible[0] < len && 0 <= visible[|visible| - 1] < len;
  }

  /**
   * Forward: past the second-to-last snap point the move wraps to 0 when the
   * last item is visible and otherwise clamps to the last snap point; before
   * that it lands strictly after the last visible index, and so after every
   * visible index when they are sorted, as the visibility tracking keeps them.
   */
  lemma ForwardWrapOrClamp(visible: seq<int>, len: int, rtl: bool, isFirst: bool, isLast: bool)
    requires |visible| > 0 && InRange(visible, len)
    ensures var t := PageTarget(visible, len, Forward, rtl, isFirst, isLast);
      var raw := if rtl then visible[|visible| - 1] + |visible| else visible[|visible| - 1] + 1;
      && (raw >= len - 1 && isLast ==> t == 0)
      && (raw >= len - 1 && !isLast ==> t == len - 1 && t >= visible[|visible| - 1])
      && (raw < len - 1 ==> t == raw && t > visible[|visible| - 1])
      && (raw < len - 1 && Visibility.Sorted(visible) ==> forall k :: 0 <= k < |visible| ==> t > visible[k])
  {
    assert 0 <= visible[|visible| - 1] < len;
    if Visibility.Sorted(visible) {
      forall k | 0 <= k < |visible|
        ensures visible[k] <= visible[|visible| - 1]
      {
        if k < |visible| - 1 {
          assert visible[k] <= visible[|visible| - 1];
        }
      }
    }
  }

  /**
   * Backward: at or before index 0 the move wraps to the last snap point when
   * the first item is visible and otherwise goes to 0; left-to-right, a move
   * that does not reach 0 lands `count` places before the first visible index,
   * and so before every visible index when they are sorted.
   */
  lemma BackwardWrapOrClamp(visible: seq<int>, len: int, rtl: bool, isFirst: bool, isLast: bool)
    requires |visible| > 0 && InRange(visible, len)
    ensures var t := PageTarget(visible, len, Backward, rtl, isFirst, isLast);
      var raw := if rtl then visible[|visible| - 1] - |visible| else visible[0] - |visible|;
      && (raw <= 0 && isFirst ==> t == len - 1)
      && (raw <= 0 && !isFirst ==> t == 0)
      && (raw > 0 ==> t == raw && 0 < t < len)
      && (!rtl && raw > 0 ==> t < visible[0])
      && (!rtl && raw > 0 && Visibility.Sorted(visible) ==> forall k :: 0 <= k < |visible| ==> t < visible[k])
  {
    assert 0 <= visible[0] < len && 0 <= visible[|visible| - 1] < len;
    if Visibility.Sorted(visible) {
      forall k | 0 <= k < |visible|
        ensures visible[0] <= visible[k]
      {
        if 0 < k {
          assert visible[0] <= visible[k];
        }
      }
    }
  }

  /** From the final page with the last item visible, the next forward move returns to the first item. */
  lemma ForwardFromLastPageWraps(visible: seq<int>, len: int, rtl: bool, isFirst: bool)
    requires |visible| > 0 && InRange(visible, len) && visible[|visible| - 1] == len - 1
    ensures PageTarget(visible, len, Forward, rtl, isFirst, true) == 0
  {
  }
}
