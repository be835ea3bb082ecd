/**
 * The responsive layout rule generator: one container-query rule per
 * breakpoint. The same policy is used by the engine's `setBreakPoints` and by
 * the standalone generator of the utilities file; both accumulate the rules in
 * a loop, modelled by `BuildRules`.
 */
module Layout {
  import opened Wrappers
  import opened Types

  /** The condition of an `@container` rule, in pixels. */
  datatype Condition = MinWidth(px: int) | MaxWidth(px: int)

  /**
   * One generated rule: the container it is scoped to, its condition, the
   * repeat count of `grid-template-columns`, the column count and the gap.
   * The item width `calc((100cqw - ((columns - 1) * gap)) / columns)` is
   * determined by `columns` and `gap`.
   */
  datatype Rule = Rule(container: string, condition: Condition, repeat: int, columns: int, gap: string)

  /** Does a viewport of width `v` satisfy the condition? */
  predicate Matches(c: Condition, v: int) {
    match c
    case MinWidth(px) => v >= px
    case MaxWidth(px) => v <= px
  }

  /** JavaScript truthiness of `bp.width`: present and not zero. */
  predicate HasWidth(bp: Breakpoint) {
    bp.width.Some? && bp.width.value != 0
  }

  /** `bp.columns || 1` */
  function Columns(bp: Breakpoint): (c: int)
    ensures c != 0
    ensures bp.columns.Some? && bp.columns.value != 0 ==> c == bp.columns.value
    ensures bp.columns.None? || bp.columns.value == 0 ==> c == 1
  {
    if bp.columns.Some? && bp.columns.value != 0 then bp.columns.value else 1
  }

  /** `bp.gap || "0px"` */
  function Gap(bp: Breakpoint): (g: string)
    ensures g != ""
    ensures bp.gap.Some? && bp.gap.value != "" ==> g == bp.gap.value
    ensures bp.gap.None? || bp.gap.value == "" ==> g == "0px"
  {
    if bp.gap.Some? && bp.gap.value != "" then bp.gap.value else "0px"
  }

  /** The smallest truthy width among the breakpoints (`Math.min` over the filtered list), if any. */
  function SmallestWidth(bps: seq<Breakpoint>): (m: Option<int>)
    ensures m.Some? <==> exists i :: 0 <= i < |bps| && HasWidth(bps[i])
    ensures m.Some? ==> exists i :: 0 <= i < |bps| && HasWidth(bps[i]) && bps[i].width.value == m.value
    ensures m.Some? ==> forall i :: 0 <= i < |bps| && HasWidth(bps[i]) ==> m.value <= bps[i].width.value
  {
    if |bps| == 0 then None
    else
      var rest := SmallestWidth(bps[1..]);
      assert forall i :: 1 <= i < |bps| ==> bps[i] == bps[1..][i - 1];
      if !HasWidth(bps[0]) then rest
      else if rest.Some? && rest.value < bps[0].width.value then rest
      else Some(bps[0].width.value)
  }

  /** The policy for one breakpoint, given the smallest width of the list. */
  function ConditionFor(bp: Breakpoint, smallest: Option<int>): Condition {
    if HasWidth(bp) then MinWidth(bp.width.value)
    else if smallest.Some? && smallest.value != 0 then MaxWidth(smallest.value - 1)
    else MinWidth(0)
  }

  function RuleFor(name: string, repeat: int, bp: Breakpoint, smallest: Option<int>): Rule {
    Rule(name, ConditionFor(bp, smallest), repeat, Columns(bp), Gap(bp))
  }

  /** The rules generated for a breakpoint list, in order. */
  function Rules(name: string, repeat: int, bps: seq<Breakpoint>): seq<Rule> {
    var smallest := SmallestWidth(bps);
    seq(|bps|, i requires 0 <= i < |bps| => RuleFor(name, repeat, bps[i], smallest))
  }

  /** `motion-rail-` followed by the random suffix. */
  function RandomContainerName(suffix: string): (name: string)
    ensures |name| == 12 + |suffix|
    ensures name[..12] == "motion-rail-"
    ensures name[12..] == suffix
  {
    "motion-rail-" + suffix
  }

  /**
   * Distinct suffixes give distinct names, so rails with different random
   * suffixes never share a container name; and a name is never empty, so a
   * later `update` keeps it.
   */
  lemma RandomContainerNameInjective(a: string, b: string)
    ensures RandomContainerName(a) == RandomContainerName(b) <==> a == b
    ensures RandomContainerName(a) != ""
  {
    if RandomContainerName(a) == RandomContainerName(b) {
      assert a == RandomContainerName(a)[12..] == RandomContainerName(b)[12..] == b;
    }
  }

  /** The `forEach` over the breakpoints that appends one rule per entry. */
  method BuildRules(name: string, repeat: int, bps: seq<Breakpoint>) returns (rules: seq<Rule>)
    ensures rules == Rules(name, repeat, bps)
  {
    var smallest := SmallestWidth(bps);
    rules := [];
    for i := 0 to |bps|
      invariant |rules| == i
      invariant forall k :: 0 <= k < i ==> rules[k] == RuleFor(name, repeat, bps[k], smallest)
    {
      var bp := bps[i];
      var columns := Columns(bp);
      var gapValue := Gap(bp);
      var condition: Condition;
      if HasWidth(bp) {
        condition := MinWidth(bp.width.value);
      } else if smallest.Some? && smallest.value != 0 {
        condition := MaxWidth(smallest.value - 1);
      } else {
        condition := MinWidth(0);
      }
      rules := rules + [Rule(name, condition, repeat, columns, gapValue)];
    }
  }

  /** The inline container name and the rules of the style element the standalone generator leaves behind. */
  datatype Applied = Applied(containerName: string, rules: seq<Rule>)

  /**
   * The utilities' `setBreakPoints`: nothing when the container holds no
   * `.motion-rail-container`; otherwise names the container when it has no
   * inline name, and appends a style element with one rule per breakpoint,
   * each repeating `length` columns.
   */
  method SetBreakPoints(hasGrid: bool, containerName: string, breakpoints: seq<Breakpoint>, length: int, nameSuffix: string)
    returns (r: Option<Applied>)
    ensures r.None? <==> !hasGrid
    ensures r.Some? ==> r.value.containerName == if containerName == "" then RandomContainerName(nameSuffix) else containerName
    ensures r.Some? ==> r.value.rules == Rules(r.value.containerName, length, breakpoints)
  {
    if !hasGrid {
      return None;
    }
    var randomName := "";
    if containerName == "" {
      randomName := RandomContainerName(nameSuffix);
    } else {
      randomName := containerName;
    }
    var rules := BuildRules(randomName, length, breakpoints);
    return Some(Applied(randomName, rules));
  }

  /** The smallest width, when there is one, is never zero: the `else if (smallestWidth)` test is a presence test. */
  lemma SmallestWidthIsTruthy(bps: seq<Breakpoint>)
    ensures SmallestWidth(bps).Some? ==> SmallestWidth(bps).value != 0
  {
    if SmallestWidth(bps).Some? {
      var i :| 0 <= i < |bps| && HasWidth(bps[i]) && bps[i].width.value == SmallestWidth(bps).value;
    }
  }

  /**
   * One rule per breakpoint, in order, scoped to `name` with the given repeat
   * count; a breakpoint with a width gets `min-width: width`; one without gets
   * `max-width: w - 1` for the smallest width w of the list, or `min-width: 0`
   * when no breakpoint has a width; columns default to 1 and the gap to "0px".
   */
  lemma RulesPolicy(name: string, repeat: int, bps: seq<Breakpoint>, i: int)
    requires 0 <= i < |bps|
    ensures |Rules(name, repeat, bps)| == |bps|
    ensures var r := Rules(name, repeat, bps)[i];
      && r.container == name && r.repeat == repeat
      && r.columns == Columns(bps[i]) && r.gap == Gap(bps[i])
      && (HasWidth(bps[i]) ==> r.condition == MinWidth(bps[i].width.value))
      && (!HasWidth(bps[i]) && (exists j :: 0 <= j < |bps| && HasWidth(bps[j])) ==>
            r.condition.MaxWidth?
            && (forall j :: 0 <= j < |bps| && HasWidth(bps[j]) ==> r.condition.px < bps[j].width.value)
            && (exists j :: 0 <= j < |bps| && HasWidth(bps[j]) && r.condition.px == bps[j].width.value - 1))
      && (!HasWidth(bps[i]) && (forall j :: 0 <= j < |bps| ==> !HasWidth(bps[j])) ==> r.condition == MinWidth(0))
  {
    SmallestWidthIsTruthy(bps);
  }

  /** A rule from a breakpoint without a width never applies together with one from a breakpoint with a width. */
  lemma DefaultRuleDisjointFromWidthRules(name: string, repeat: int, bps: seq<Breakpoint>, i: int, j: int, v: int)
    requires 0 <= i < |bps| && 0 <= j < |bps|
    requires !HasWidth(bps[i]) && HasWidth(bps[j])
    requires Matches(Rules(name, repeat, bps)[i].condition, v)
    ensures !Matches(Rules(name, repeat, bps)[j].condition, v)
  {
    RulesPolicy(name, repeat, bps, i);
    RulesPolicy(name, repeat, bps, j);
  }

  /** With a breakpoint lacking a width, every whole-pixel, non-negative viewport width is matched by some rule. */
  lemma EveryWidthMatched(name: string, repeat: int, bps: seq<Breakpoint>, i: int, v: int)
    requires 0 <= i < |bps| && !HasWidth(bps[i]) && v >= 0
    ensures exists k :: 0 <= k < |bps| && Matches(Rules(name, repeat, bps)[k].condition, v)
  {
    RulesPolicy(name, repeat, bps, i);
    if exists j :: 0 <= j < |bps| && HasWidth(bps[j]) {
      var m := SmallestWidth(bps);
      var j :| 0 <= j < |bps| && HasWidth(bps[j]) && bps[j].width.value == m.value;
      RulesPolicy(name, repeat, bps, j);
      if !Matches(Rules(name, repeat, bps)[i].condition, v) {
        assert Matches(Rules(name, repeat, bps)[j].condition, v);
      }
    } else {
      assert Matches(Rules(name, repeat, bps)[i].condition, v);
    }
  }
}
