/**
 * `animateScroll`: an eased, cancellable horizontal scroll of one element.
 * Each animation frame the host delivers is a call of `Frame`; the cancel
 * function it returns is `Cancel`. Frame ids come from the host and are never
 * zero, as `requestAnimationFrame` guarantees.
 */
module AnimateScroll {
  import opened Wrappers
  import opened Easing
  import opened ScrollPosition

  /** The `duration` used when the caller passes none. */
  const DefaultDuration: real := 300.0

  /**
   * The duration a call resolves to: the default when the argument is left
   * out, and otherwise the given value, zero and negative values included.
   */
  function ResolvedDuration(duration: Option<real>): (d: real)
    ensures duration.None? ==> d == DefaultDuration
    ensures duration.Some? ==> d == duration.value
  {
    if duration.Some? then duration.value else DefaultDuration
  }

  class ScrollAnimation {
    /** `element.scrollLeft`, written by every frame. */
    var scrollLeft: real
    /** The element's scroll range, `scrollWidth - clientWidth`. */
    const range: int
    const startScroll: real
    const distance: real
    const duration: real
    const startTime: real
    const hasOnComplete: bool
    var cancelled: bool
    /** The id of the last requested frame. */
    var animationId: int
    /** Whether a call of `animate` is pending with the host. */
    var frameScheduled: bool
    /** How many times `onComplete` has run. */
    var completions: nat

    ghost predicate Valid()
      reads this
    {
      animationId >= 1
    }

    /** Captures the start position and time, and requests the first frame. */
    constructor (elementScroll: real, range: int, targetScroll: real, duration: Option<real>, now: real, hasOnComplete: bool, frameId: int)
      requires frameId >= 1
      ensures Valid()
      ensures scrollLeft == elementScroll && startScroll == elementScroll && this.range == range
      ensures distance == targetScroll - elementScroll
      ensures this.duration == ResolvedDuration(duration)
      ensures startTime == now && this.hasOnComplete == hasOnComplete
      ensures !cancelled && animationId == frameId && frameScheduled && completions == 0
    {
      scrollLeft := elementScroll;
      this.range := range;
      startScroll := elementScroll;
      distance := targetScroll - elementScroll;
      this.duration := ResolvedDuration(duration);
      startTime := now;
      this.hasOnComplete := hasOnComplete;
      cancelled := false;
      animationId := frameId;
      frameScheduled := true;
      completions := 0;
    }

    /**
     * One frame at `currentTime`: nothing once cancelled; otherwise the eased
     * position, then either the next frame or, at the end, `onComplete`.
     */
    method Frame(currentTime: real, nextFrameId: int)
      requires Valid() && frameScheduled && nextFrameId >= 1
      modifies this`scrollLeft, this`animationId, this`frameScheduled, this`completions
      ensures Valid()
      ensures cancelled ==>
        scrollLeft == old(scrollLeft) && animationId == old(animationId) && !frameScheduled && completions == old(completions)
      ensures !cancelled ==>
        var p := Progress(currentTime - startTime, duration);
        && scrollLeft == Clamp(FrameScroll(startScroll, startScroll + distance, p), range)
        && (Unfinished(p) ==> animationId == nextFrameId && frameScheduled && completions == old(completions))
        && (!Unfinished(p) ==>
              animationId == old(animationId) && !frameScheduled
              && completions == old(completions) + (if hasOnComplete then 1 else 0))
      ensures !cancelled && duration >= 0.0 && currentTime - startTime >= duration && currentTime - startTime > 0.0 ==>
        scrollLeft == Clamp(startScroll + distance, range) && !frameScheduled
      ensures !cancelled && duration < 0.0 && currentTime - startTime >= 0.0 ==> frameScheduled
    {
      frameScheduled := false;
      if cancelled {
        return;
      }
      var elapsed := currentTime - startTime;
      var progress := Progress(elapsed, duration);
      scrollLeft := Clamp(FrameScroll(startScroll, startScroll + distance, progress), range);
      if Unfinished(progress) {
        animationId := nextFrameId;
        frameScheduled := true;
      } else {
        if hasOnComplete {
          completions := completions + 1;
        }
      }
    }

    /** The returned cancel function: effective once, and it calls `onComplete` even so. */
    method Cancel()
      requires Valid()
      modifies this`cancelled, this`frameScheduled, this`completions
      ensures Valid() && cancelled
      ensures old(cancelled) ==> frameScheduled == old(frameScheduled) && completions == old(completions)
      ensures !old(cancelled) ==> !frameScheduled && completions == old(completions) + (if hasOnComplete then 1 else 0)
    {
      if !cancelled {
        cancelled := true;
        if animationId != 0 {
          frameScheduled := false;
        }
        if hasOnComplete {
          completions := completions + 1;
        }
      }
    }
  }

  /**
   * An animation whose last frame has run and which is then cancelled calls
   * `onComplete` twice; its element ends at the target, as far as its scroll
   * range allows.
   */
  method CompletedThenCancelled(elementScroll: real, range: int, targetScroll: real, duration: Option<real>, now: real, frameTime: real)
    returns (calls: nat, finalScroll: real)
    requires ResolvedDuration(duration) >= 0.0 && frameTime - now >= ResolvedDuration(duration) && frameTime > now
    ensures calls == 2 && finalScroll == Clamp(targetScroll, range)
  {
    var a := new ScrollAnimation(elementScroll, range, targetScroll, duration, now, true, 1);
    a.Frame(frameTime, 2);
    a.Cancel();
    calls := a.completions;
    finalScroll := a.scrollLeft;
  }

  /**
   * With a negative duration every frame at or after the start requests
   * another one and `onComplete` never runs, however late the frame.
   */
  method NegativeDurationKeepsRunning(elementScroll: real, range: int, targetScroll: real, duration: real, now: real, frameTime: real)
    returns (calls: nat, pending: bool)
    requires duration < 0.0 && frameTime >= now
    ensures calls == 0 && pending
  {
    var a := new ScrollAnimation(elementScroll, range, targetScroll, Some(duration), now, true, 1);
    a.Frame(frameTime, 2);
    calls := a.completions;
    pending := a.frameScheduled;
  }

  /**
   * With a zero duration, a frame stamped with the start time itself computes
   * `0 / 0`: the NaN it writes leaves the element at 0, and as `NaN < 1` is
   * false the animation completes there.
   */
  method ZeroDurationFrameAtStart(elementScroll: real, range: int, targetScroll: real, now: real)
    returns (calls: nat, pending: bool, finalScroll: real)
    ensures calls == 1 && !pending && finalScroll == 0.0
  {
    var a := new ScrollAnimation(elementScroll, range, targetScroll, Some(0.0), now, true, 1);
    a.Frame(now, 2);
    calls := a.completions;
    pending := a.frameScheduled;
    finalScroll := a.scrollLeft;
  }

  /** Cancelling twice calls `onComplete` once, withdraws the pending frame and leaves the element where it was. */
  method CancelledTwice(elementScroll: real, range: int, targetScroll: real, duration: Option<real>, now: real)
    returns (calls: nat, pending: bool, finalScroll: real)
    ensures calls == 1 && !pending && finalScroll == elementScroll
  {
    var a := new ScrollAnimation(elementScroll, range, targetScroll, duration, now, true, 1);
    a.Cancel();
    a.Cancel();
    calls := a.completions;
    pending := a.frameScheduled;
    finalScroll := a.scrollLeft;
  }
}
