/**
 * The snap index: one clamped offset per item, and the linear-scan query for
 * the offset nearest to a scroll position.
 */
module Snap {

  function Abs(r: real): (a: real)
    ensures a >= 0.0 && (a == r || a == -r)
  {
    if r < 0.0 then -r else r
  }

  /** The distance from snap point `p` to the logical scroll position `x`. */
  function Distance(p: int, x: real): real {
    Abs(p as real - x)
  }

  predicate NonDecreasing(s: seq<int>) {
    forall i, j :: 0 <= i < j < |s| ==> s[i] <= s[j]
  }

  /** `Math.min(item.offsetLeft, maxScroll)` for every item, in item order. */
  function SnapPoints(offsets: seq<int>, maxScroll: int): (ps: seq<int>)
    ensures |ps| == |offsets|
    ensures forall i :: 0 <= i < |ps| ==> ps[i] <= maxScroll && ps[i] <= offsets[i]
    ensures forall i :: 0 <= i < |ps| ==> ps[i] == offsets[i] || ps[i] == maxScroll
    ensures maxScroll >= 0 && (forall i :: 0 <= i < |offsets| ==> offsets[i] >= 0) ==>
      forall i :: 0 <= i < |ps| ==> 0 <= ps[i] <= maxScroll
    ensures NonDecreasing(offsets) ==> NonDecreasing(ps)
  {
    seq(|offsets|, i requires 0 <= i < |offsets| => if offsets[i] < maxScroll then offsets[i] else maxScroll)
  }

  /** The running minimum of the scan; it starts at `Infinity`. */
  datatype MinDistance = Infinity | Finite(d: real)

  predicate Below(d: real, m: MinDistance) {
    m.Infinity? || d < m.d
  }

  /**
   * `p` is what the scan of `findNearestSnapPoint` returns for `x`: 0 for an
   * empty list, and otherwise the first snap point whose distance to `x` is
   * minimal.
   */
  predicate IsNearest(points: seq<int>, x: real, p: int) {
    if |points| == 0 then p == 0
    else
      exists k :: 0 <= k < |points| && points[k] == p && FirstMinimum(points, x, k)
  }

  /** Position `k` holds a point of minimal distance to `x`, and every point before it is farther. */
  predicate FirstMinimum(points: seq<int>, x: real, k: int)
    requires 0 <= k < |points|
  {
    && (forall j :: 0 <= j < |points| ==> Distance(points[k], x) <= Distance(points[j], x))
    && (forall j :: 0 <= j < k ==> Distance(points[j], x) > Distance(points[k], x))
  }

  /** The scan's answer is determined by the list and the position: at most one point is the nearest. */
  lemma NearestIsUnique(points: seq<int>, x: real, p: int, q: int)
    requires IsNearest(points, x, p) && IsNearest(points, x, q)
    ensures p == q
  {
    if |points| > 0 {
      var k :| 0 <= k < |points| && points[k] == p && FirstMinimum(points, x, k);
      var m :| 0 <= m < |points| && points[m] == q && FirstMinimum(points, x, m);
      // each is at most the other, so neither position can come first
      assert Distance(points[k], x) == Distance(points[m], x);
      assert k == m;
    }
  }

  /** The linear scan of `findNearestSnapPoint`. */
  method FindNearest(points: seq<int>, x: real) returns (nearest: int)
    ensures IsNearest(points, x, nearest)
    ensures |points| > 0 ==> nearest in points
  {
    nearest := 0;
    var minDistance := Infinity;
    ghost var best := 0;
    for i := 0 to |points|
      invariant i == 0 <==> minDistance.Infinity?
      invariant i == 0 ==> nearest == 0
      invariant i > 0 ==> 0 <= best < i && points[best] == nearest && minDistance == Finite(Distance(nearest, x))
      invariant i > 0 ==> forall j :: 0 <= j < i ==> Distance(nearest, x) <= Distance(points[j], x)
      invariant i > 0 ==> forall j :: 0 <= j < best ==> Distance(points[j], x) > Distance(nearest, x)
    {
      var distance := Distance(points[i], x);
      if Below(distance, minDistance) {
        minDistance := Finite(distance);
        nearest := points[i];
        best := i;
      }
    }
    if |points| > 0 {
      assert FirstMinimum(points, x, best);
    }
  }
}
