/**
 * How a scroll container keeps a written `scrollLeft` (the `scrollLeft` setter
 * of CSSOM View): a non-finite value is normalised to 0, and the
 * position is clamped to the scroll range, 0 to `scrollWidth - clientWidth`.
 * The container is laid out left to right, so the range starts at 0.
 */
module ScrollPosition {

  /** The position kept for a written `x` when the scroll range is `range`. */
  function Clamp(x: real, range: int): (c: real)
    ensures 0.0 <= c
    ensures range >= 0 ==> c <= range as real
    ensures range < 0 ==> c == 0.0
    ensures 0.0 <= x <= range as real ==> c == x
    ensures x < 0.0 ==> c == 0.0
    ensures range >= 0 && x > range as real ==> c == range as real
  {
    if x <= 0.0 || range <= 0 then 0.0
    else if x >= range as real then range as real
    else x
  }

  /** A kept position is kept again unchanged; a later read sees what was kept. */
  lemma {:induction false} ClampIdempotent(x: real, range: int)
    ensures Clamp(Clamp(x, range), range) == Clamp(x, range)
  {
    var c := Clamp(x, range);
    assert 0.0 <= c;
    if range >= 0 {
      assert c <= range as real;
    }
  }
}
