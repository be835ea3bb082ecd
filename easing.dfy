/**
 * The eased interpolation shared by the engine's momentum animation and the
 * standalone `animateScroll`: progress clamped to at most 1, ease-out-cubic,
 * and the position between start and target. Real arithmetic stands for the
 * browser's floating point.
 */
module Easing {

  /** `1 - (1 - t)^3` */
  function EaseOutCubic(t: real): (e: real)
    ensures t == 0.0 ==> e == 0.0
    ensures t == 1.0 ==> e == 1.0
  {
    var u := 1.0 - t;
    1.0 - u * u * u
  }

  /**
   * A JavaScript number `Math.min(elapsed / duration, 1)` can produce: a
   * finite value, the NaN of `0 / 0`, or the -Infinity of a negative number
   * over 0 (+Infinity is clamped to 1).
   */
  datatype Fraction = Finite(value: real) | NaN | NegativeInfinity

  /** `progress < 1`, which is false for NaN. */
  predicate Unfinished(p: Fraction) {
    match p
    case Finite(v) => v < 1.0
    case NaN => false
    case NegativeInfinity => true
  }

  /** `Math.min(elapsed / duration, 1)`, for every duration. */
  function Progress(elapsed: real, duration: real): (p: Fraction)
    ensures p.Finite? <==> duration != 0.0 || elapsed > 0.0
    ensures p.Finite? ==> p.value <= 1.0
    ensures duration > 0.0 ==> (p.value == 1.0 <==> elapsed >= duration) && (elapsed >= 0.0 ==> p.value >= 0.0)
    ensures duration < 0.0 ==> (p.value == 1.0 <==> elapsed <= duration) && (elapsed >= 0.0 ==> p.value <= 0.0)
    ensures duration == 0.0 ==>
      (p == Finite(1.0) <==> elapsed > 0.0) && (p.NaN? <==> elapsed == 0.0) && (p.NegativeInfinity? <==> elapsed < 0.0)
  {
    if duration == 0.0 then
      if elapsed > 0.0 then Finite(1.0) else if elapsed == 0.0 then NaN else NegativeInfinity
    else
      var ratio := elapsed / duration;
      DivisionAgainstOne(elapsed, duration);
      DivisionByNegative(elapsed, duration);
      Finite(if ratio < 1.0 then ratio else 1.0)
  }

  lemma DivisionAgainstOne(elapsed: real, duration: real)
    ensures duration > 0.0 ==> (elapsed / duration < 1.0 <==> elapsed < duration)
    ensures duration > 0.0 && elapsed >= 0.0 ==> elapsed / duration >= 0.0
  {
    if duration > 0.0 {
      DivisionAgainstPositive(elapsed, duration);
    }
  }

  lemma DivisionAgainstPositive(elapsed: real, duration: real)
    requires duration > 0.0
    ensures elapsed / duration < 1.0 <==> elapsed < duration
    ensures elapsed >= 0.0 ==> elapsed / duration >= 0.0
  {
    var ratio := elapsed / duration;
    assert ratio * duration == elapsed;
    if ratio < 1.0 {
      assert (1.0 - ratio) * duration > 0.0;
    } else {
      assert (ratio - 1.0) * duration >= 0.0;
    }
    if ratio < 0.0 {
      assert (0.0 - ratio) * duration > 0.0;
    }
  }

  lemma DivisionByNegative(elapsed: real, duration: real)
    ensures duration < 0.0 ==> (elapsed / duration < 1.0 <==> elapsed > duration)
    ensures duration < 0.0 && elapsed >= 0.0 ==> elapsed / duration <= 0.0
  {
    if duration < 0.0 {
      var ratio := elapsed / duration;
      assert ratio * duration == elapsed;
      assert ratio == (0.0 - elapsed) / (0.0 - duration);
      DivisionAgainstOne(0.0 - elapsed, 0.0 - duration);
    }
  }

  /**
   * The value a frame writes: the eased position for a finite progress, and
   * otherwise a NaN or an infinity, which the element normalises to 0.
   */
  function FrameScroll(start: real, target: real, p: Fraction): real {
    if p.Finite? then Position(start, target, EaseOutCubic(p.value)) else 0.0
  }

  /** `start + (target - start) * eased` */
  function Position(start: real, target: real, eased: real): real {
    start + (target - start) * eased
  }

  lemma CubeMonotone(x: real, y: real)
    requires 0.0 <= y <= x
    ensures y * y * y <= x * x * x
  {
    assert x * x * x - y * y * y == (x - y) * (x * x + x * y + y * y);
    assert x * x + x * y + y * y >= 0.0;
  }

  /** On [0, 1] the easing stays in [0, 1] and never decreases. */
  lemma EaseOutCubicMonotone(a: real, b: real)
    requires 0.0 <= a <= b <= 1.0
    ensures 0.0 <= EaseOutCubic(a) <= EaseOutCubic(b) <= 1.0
  {
    CubeMonotone(1.0 - a, 1.0 - b);
    CubeMonotone(1.0, 1.0 - a);
    CubeMonotone(1.0 - b, 0.0);
  }

  /** Once the duration has elapsed, the frame sets the position exactly to the target. */
  lemma FinalFrameReachesTarget(start: real, target: real, elapsed: real, duration: real)
    requires duration > 0.0 && elapsed >= duration
    ensures Progress(elapsed, duration) == Finite(1.0) && !Unfinished(Progress(elapsed, duration))
    ensures FrameScroll(start, target, Progress(elapsed, duration)) == target
  {
  }

  /** With a positive duration the progress is finite, and a frame that finishes writes the target. */
  lemma FinishedFrameAtTarget(start: real, target: real, elapsed: real, duration: real)
    requires duration > 0.0
    ensures Progress(elapsed, duration).Finite?
    ensures !Unfinished(Progress(elapsed, duration)) ==> FrameScroll(start, target, Progress(elapsed, duration)) == target
  {
    var p := Progress(elapsed, duration);
    if !Unfinished(p) {
      assert p.value == 1.0;
      assert EaseOutCubic(p.value) == 1.0;
    }
  }

  lemma ScaleWithin(c: real, e: real)
    requires c >= 0.0 && 0.0 <= e <= 1.0
    ensures 0.0 <= c * e <= c
  {
    assert c * (1.0 - e) >= 0.0;
  }

  /** Every frame at or after the start lies between the start and the target. */
  lemma FrameBetweenStartAndTarget(start: real, target: real, elapsed: real, duration: real)
    requires duration > 0.0 && elapsed >= 0.0
    ensures var x := FrameScroll(start, target, Progress(elapsed, duration));
      (start <= target ==> start <= x <= target) && (target <= start ==> target <= x <= start)
  {
    var p := Progress(elapsed, duration).value;
    EaseOutCubicMonotone(0.0, p);
    EaseOutCubicMonotone(p, 1.0);
    var e := EaseOutCubic(p);
    if start <= target {
      ScaleWithin(target - start, e);
    } else {
      ScaleWithin(start - target, e);
    }
  }

  /**
   * With a negative duration no frame at or after the start finishes: the
   * progress stays at or below 0, so the eased position lies on the far side
   * of the start from the target, and another frame is always requested.
   */
  lemma NegativeDurationNeverFinishes(start: real, target: real, elapsed: real, duration: real)
    requires duration < 0.0 && elapsed >= 0.0
    ensures Unfinished(Progress(elapsed, duration))
    ensures var x := FrameScroll(start, target, Progress(elapsed, duration));
      (start <= target ==> x <= start) && (target <= start ==> start <= x)
  {
    var p := Progress(elapsed, duration).value;
    CubeMonotone(1.0 - p, 1.0);
    var e := EaseOutCubic(p);
    if start <= target {
      ScaleNonPositive(target - start, e);
    } else {
      ScaleNonPositive(start - target, e);
    }
  }

  lemma ScaleNonPositive(c: real, e: real)
    requires c >= 0.0 && e <= 0.0
    ensures c * e <= 0.0
  {
    assert c * (0.0 - e) >= 0.0;
  }
}
