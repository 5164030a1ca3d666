/**
 * The two nearest-sample searches of `ColorPickerView`, as values: a scan
 * that starts from a sentinel bound and moves to an entry only when it is
 * strictly smaller than the best so far, so the first of equal minima wins.
 */
module HitTest {
  import opened Wrappers
  import opened Numerics
  import opened Android
  import opened ColorCircles

  /**
   * The running minimum of such a scan: the smallest value seen (or `bound`)
   * and the index of its first occurrence (or `None` if nothing undercut `bound`).
   */
  function Scan(ds: seq<real>, bound: real): (r: (real, Option<nat>))
    ensures r.0 <= bound
    ensures r.1.None? ==> r.0 == bound
    ensures r.1.Some? ==> r.1.value < |ds| && r.0 == ds[r.1.value]
  {
    if ds == [] then (bound, None)
    else
      var prev := Scan(ds[..|ds| - 1], bound);
      if prev.0 > ds[|ds| - 1] then (ds[|ds| - 1], Some(|ds| - 1)) else prev
  }

  /** One more entry: the scan moves to it exactly when it undercuts the best so far. */
  lemma ScanStep(ds: seq<real>, i: nat, bound: real)
    requires i < |ds|
    ensures var prev := Scan(ds[..i], bound);
      Scan(ds[..i + 1], bound) == if prev.0 > ds[i] then (ds[i], Some(i)) else prev
  {
    assert ds[..i + 1][..i] == ds[..i];
  }

  /** Entry `k` is below `bound`, strictly below every earlier entry and no larger than any later one. */
  predicate FirstMinimum(ds: seq<real>, k: nat, bound: real) {
    k < |ds| && ds[k] < bound &&
    (forall j :: 0 <= j < k ==> ds[j] > ds[k]) &&
    (forall j :: k < j < |ds| ==> ds[j] >= ds[k])
  }

  /** The scan finds nothing exactly when no entry is below the bound, and otherwise the first minimum. */
  lemma {:induction false} ScanFindsFirstMinimum(ds: seq<real>, bound: real)
    ensures Scan(ds, bound).1.None? <==> forall j :: 0 <= j < |ds| ==> ds[j] >= bound
    ensures Scan(ds, bound).1.Some? ==> FirstMinimum(ds, Scan(ds, bound).1.value, bound)
    ensures forall j :: 0 <= j < |ds| ==> Scan(ds, bound).0 <= ds[j]
  {
    if ds != [] {
      var n := |ds| - 1;
      var init := ds[..n];
      ScanFindsFirstMinimum(init, bound);
      assert forall j :: 0 <= j < n ==> ds[j] == init[j];
    }
  }

  /** There is at most one first minimum. */
  lemma FirstMinimumUnique(ds: seq<real>, k1: nat, k2: nat, bound: real)
    requires FirstMinimum(ds, k1, bound) && FirstMinimum(ds, k2, bound)
    ensures k1 == k2
  {
  }

  /** The scan's answer is characterised by the first minimum, in both directions. */
  lemma ScanIsFirstMinimum(ds: seq<real>, k: nat, bound: real)
    ensures Scan(ds, bound).1 == Some(k) <==> FirstMinimum(ds, k, bound)
  {
    ScanFindsFirstMinimum(ds, bound);
    var r := Scan(ds, bound).1;
    if FirstMinimum(ds, k, bound) {
      assert r.Some?;
      FirstMinimumUnique(ds, k, r.value, bound);
    }
  }

  /** Every entry below the bound makes the scan succeed; an empty list never does. */
  lemma ScanSucceeds(ds: seq<real>, bound: real)
    requires |ds| > 0 && ds[0] < bound
    ensures Scan(ds, bound).1.Some?
  {
    ScanFindsFirstMinimum(ds, bound);
  }

  /** `sqDist(x, y)` of every listed sample. */
  function PositionDistances(samples: seq<Sample>, x: real, y: real): (ds: seq<real>)
    ensures |ds| == |samples|
    ensures forall i :: 0 <= i < |ds| ==> ds[i] >= 0.0
  {
    seq(|samples|, i requires 0 <= i < |samples| => SquaredDistance(samples[i].x, samples[i].y, x, y))
  }

  /** A hue in degrees and a saturation as the point (s cos h, s sin h) of the colour disc. */
  function PolarPoint(p: Platform, h: real, s: real): (real, real) {
    (s * p.cos(h * PI / 180.0), s * p.sin(h * PI / 180.0))
  }

  /** The squared distance, in that disc, from (h, s) to each listed sample's hue and saturation. */
  function ColorDistances(p: Platform, samples: seq<Sample>, h: real, s: real): (ds: seq<real>)
    ensures |ds| == |samples|
    ensures forall i :: 0 <= i < |ds| ==> ds[i] >= 0.0
  {
    var target := PolarPoint(p, h, s);
    seq(|samples|, i requires 0 <= i < |samples| =>
      var point := PolarPoint(p, samples[i].hsv.h, samples[i].hsv.s);
      SquaredDistance(target.0, target.1, point.0, point.1))
  }

  /** A sample placed exactly at the touch point is at distance 0, so a search can only pick one at distance 0. */
  lemma ExactHitWins(samples: seq<Sample>, x: real, y: real, i: nat)
    requires i < |samples| && samples[i].x == x && samples[i].y == y
    ensures Scan(PositionDistances(samples, x, y), DOUBLE_MAX).1.Some?
    ensures Scan(PositionDistances(samples, x, y), DOUBLE_MAX).0 == 0.0
  {
    var ds := PositionDistances(samples, x, y);
    assert ds[i] == 0.0;
    ScanFindsFirstMinimum(ds, DOUBLE_MAX);
  }
}
