/**
 * The legacy `com.flask` flower renderer and the part of its abstract base it
 * uses: the option it reads, the asin-based `calcTotalCount`, and `draw`,
 * which walks rings and positions with a running `currentCount`, fills one
 * shared HSV buffer, paints each disc when there is a canvas, and overwrites
 * or appends the list entry at the running count against the size the list
 * had when the draw began.
 *
 * The legacy `ColorCircle` and `ColorWheelRenderOption` classes are not part of
 * this model: a circle is the value it is built or `set` from, and the option is
 * the record of the fields `draw` reads.
 */
module LegacyFlower {
  import opened Numerics
  import opened Android
  import opened Graphics
  import opened WheelLayout

  /** The option fields the legacy renderer reads. */
  datatype LegacyOption = LegacyOption(
    density: int,
    maxRadius: real,
    cSize: real,
    strokeWidth: real,
    alpha: real,
    lightness: real,
    targetCanvas: Canvas?)

  /** A legacy `ColorCircle`: its centre and the HSV it was given. */
  datatype LegacySample = LegacySample(x: real, y: real, hsv: Hsv)

  /** `sizeJitter`. */
  const SIZE_JITTER: real := 1.2

  /**
   * The options for which every float `draw` computes is a number: a one-ring wheel
   * divides 0 by 0 for its ratio, and a zero `maxRadius` does for the saturation.
   */
  predicate Numeric(o: LegacyOption) {
    o.density != 1 && (o.density >= 2 ==> o.maxRadius != 0.0)
  }

  /** `0 until density`. */
  function RingTotal(o: LegacyOption): nat {
    if o.density > 0 then o.density else 0
  }

  /**
   * The legacy `calcTotalCount(radius, size)`:
   * `max(1, ((1 - GAP) * PI / asin(size / radius) + 0.5).toInt())`. A zero radius
   * or a ratio outside [-1, 1] gives `asin` a value with no arcsine, the NaN
   * converts to 0 and the count to 1; an arcsine of 0 divides to an infinity,
   * which converts to `Int.MAX_VALUE`.
   */
  function LegacyCalcTotalCount(p: Platform, radius: real, size: real): (n: int)
    ensures 1 <= n <= INT_MAX
    ensures radius == 0.0 ==> n == 1
  {
    if radius == 0.0 || !(-1.0 <= size / radius <= 1.0) then 1
    else
      var a := p.asin(size / radius);
      if a == 0.0 then INT_MAX
      else MaxInt(1, TruncToInt((1.0 - GAP_PERCENTAGE) * PI / a + 0.5))
  }

  /** One ring of the legacy draw: index, radius, circle size and number of circles. */
  datatype LegacyRing = LegacyRing(index: nat, radius: real, size: real, count: int)

  /** The circle size of ring `i`: `max(1.5 + strokeWidth, cSize + jitter)`, with no jitter on ring 0. */
  function LegacyCircleSize(o: LegacyOption, i: int): (size: real)
    requires o.density >= 2
    ensures size >= 1.5 + o.strokeWidth
  {
    var jitter := (i as real - o.density as real / 2.0) / o.density as real;
    MaxReal(1.5 + o.strokeWidth, o.cSize + (if i == 0 then 0.0 else o.cSize * SIZE_JITTER * jitter))
  }

  /** Ring `i`: radius `maxRadius * i / (density - 1)`, its size, and a count capped at `2 * density`. */
  function LegacyRingOf(p: Platform, o: LegacyOption, i: nat): (r: LegacyRing)
    requires i < o.density && Numeric(o)
    ensures r.index == i && 1 <= r.count <= 2 * o.density
    ensures r.radius == o.maxRadius * (i as real / (o.density - 1) as real)
  {
    var radius := o.maxRadius * (i as real / (o.density - 1) as real);
    var size := LegacyCircleSize(o, i);
    LegacyRing(i, radius, size, MinInt(LegacyCalcTotalCount(p, radius, size), o.density * 2))
  }

  /** `PI / total * ((i + 1) % 2)`: the half step is taken on even rings. */
  function LegacyOffset(i: int, count: int): real
    requires count >= 1
  {
    PI / count as real * ((i + 1) % 2) as real
  }

  /** `PI * 2 * j / total + offset`. */
  function LegacyAngle(i: int, count: int, j: int): real
    requires count >= 1
  {
    PI * 2.0 * j as real / count as real + LegacyOffset(i, count)
  }

  /** `(width ?: 0) / 2f`: both centre coordinates come from the canvas width. */
  function Half(o: LegacyOption): real {
    if o.targetCanvas == null then 0.0 else o.targetCanvas.width as real / 2.0
  }

  /** The circle written for position `j` of a ring around (half, half). */
  function LegacySampleAt(p: Platform, o: LegacyOption, half: real, r: LegacyRing, j: int): LegacySample
    requires r.count >= 1 && o.maxRadius != 0.0
  {
    var angle := LegacyAngle(r.index, r.count, j);
    LegacySample(half + r.radius * p.cos(angle), half + r.radius * p.sin(angle),
                 Hsv(angle * 180.0 / PI, r.radius / o.maxRadius, o.lightness))
  }

  /** `selectorFill.alpha = alphaValueAsInt`: `(alpha * 255).roundToInt()`, kept to the paint's alpha byte. */
  function PaintAlpha(alpha: real): (a: int)
    ensures 0 <= a < 256
    ensures 0.0 <= alpha <= 1.0 ==> a as real - 0.5 <= alpha * 255.0 < a as real + 0.5
  {
    var n := RoundToInt(alpha * 255.0);
    assert 0.0 <= alpha <= 1.0 ==> 0 <= n <= 255;
    n % 256
  }

  /** The disc painted for position `j`: radius `size - strokeWidth`, the sample's colour with the paint's alpha. */
  function LegacyDiscAt(p: Platform, o: LegacyOption, half: real, r: LegacyRing, j: int): Disc
    requires r.count >= 1 && o.maxRadius != 0.0
  {
    var s := LegacySampleAt(p, o, half, r, j);
    Disc(s.x, s.y, r.size - o.strokeWidth, MakeArgb(PaintAlpha(o.alpha), p.hsvToRgb(s.hsv)))
  }

  function LegacyRingSamples(p: Platform, o: LegacyOption, half: real, r: LegacyRing): (s: seq<LegacySample>)
    requires r.count >= 1 && o.maxRadius != 0.0
    ensures |s| == r.count
    ensures forall j :: 0 <= j < |s| ==> s[j] == LegacySampleAt(p, o, half, r, j)
  {
    seq(r.count, j requires 0 <= j < r.count => LegacySampleAt(p, o, half, r, j))
  }

  function LegacyRingDiscs(p: Platform, o: LegacyOption, half: real, r: LegacyRing): (s: seq<Disc>)
    requires r.count >= 1 && o.maxRadius != 0.0
    ensures |s| == r.count
    ensures forall j :: 0 <= j < |s| ==> s[j] == LegacyDiscAt(p, o, half, r, j)
  {
    seq(r.count, j requires 0 <= j < r.count => LegacyDiscAt(p, o, half, r, j))
  }

  /** The circles of the first `rings` rings, ring-major and position-minor. */
  function LegacySamples(p: Platform, o: LegacyOption, half: real, rings: nat): (s: seq<LegacySample>)
    requires rings <= RingTotal(o) && Numeric(o)
    ensures |s| <= 2 * o.density * rings
  {
    if rings == 0 then []
    else
      var r := LegacyRingOf(p, o, rings - 1);
      LegacySamples(p, o, half, rings - 1) + LegacyRingSamples(p, o, half, r)
  }

  function LegacyDiscs(p: Platform, o: LegacyOption, half: real, rings: nat): (s: seq<Disc>)
    requires rings <= RingTotal(o) && Numeric(o)
  {
    if rings == 0 then []
    else LegacyDiscs(p, o, half, rings - 1) + LegacyRingDiscs(p, o, half, LegacyRingOf(p, o, rings - 1))
  }

  /** The legacy `FlowerColorWheelRenderer` with the list and option of its base class. */
  class LegacyFlowerRenderer {
    var renderOption: LegacyOption
    var colorCircleList: seq<LegacySample>
    /** The renderer's shared `hsv` buffer. */
    const hsv: array<real>

    ghost predicate Valid()
      reads this
    {
      hsv.Length == 3
    }

    constructor (o: LegacyOption)
      ensures Valid() && fresh(hsv) && renderOption == o && colorCircleList == []
    {
      renderOption := o;
      colorCircleList := [];
      hsv := new real[3];
    }

    /**
     * `draw()`: every ring and position in turn, the list entry at the running count
     * overwritten below the starting size and appended from it on; discs are painted
     * only on a canvas, but the list is filled either way.
     */
    method Draw(p: Platform)
      requires Valid() && Numeric(renderOption)
      modifies this`colorCircleList, hsv, renderOption.targetCanvas
      ensures Valid() && renderOption == old(renderOption)
      ensures colorCircleList ==
                Overlay(old(colorCircleList), LegacySamples(p, renderOption, Half(renderOption), RingTotal(renderOption)))
      ensures renderOption.targetCanvas != null ==>
                renderOption.targetCanvas.log ==
                old(renderOption.targetCanvas.log) + LegacyDiscs(p, renderOption, Half(renderOption), RingTotal(renderOption))
    {
      var setSize := |colorCircleList|;
      var o := renderOption;
      var canvas := o.targetCanvas;
      ghost var prev := colorCircleList;
      ghost var log := if canvas == null then [] else canvas.log;
      ghost var samples: seq<LegacySample>, discs: seq<Disc> := [], [];
      var half := if canvas == null then 0.0 else canvas.width as real / 2.0;
      assert half == Half(o);
      var currentCount := 0;
      var i := 0;
      while i < o.density
        invariant 0 <= i <= RingTotal(o) && (i < RingTotal(o) <==> i < o.density)
        invariant Valid() && renderOption == o
        invariant samples == LegacySamples(p, o, half, i) && discs == LegacyDiscs(p, o, half, i)
        invariant currentCount == |samples|
        invariant colorCircleList == Overlay(prev, samples)
        invariant canvas != null ==> canvas.log == log + discs
      {
        var r := LegacyRingOf(p, o, i);
        LegacySamplesStep(p, o, half, i);
        currentCount := DrawRing(p, o, canvas, half, r, setSize, currentCount, prev, samples);
        if canvas != null {
          AppendAssociative(log, discs, LegacyRingDiscs(p, o, half, r));
        }
        samples := samples + LegacyRingSamples(p, o, half, r);
        discs := discs + LegacyRingDiscs(p, o, half, r);
        i := i + 1;
      }
      assert i == RingTotal(o);
    }

    /** The position loop of one ring, starting at list index `start`. */
    method DrawRing(p: Platform, o: LegacyOption, canvas: Canvas?, half: real, r: LegacyRing, setSize: nat,
                    start: nat, ghost prev: seq<LegacySample>, ghost written: seq<LegacySample>)
      returns (next: nat)
      requires Valid() && r.count >= 1 && o.maxRadius != 0.0
      requires setSize == |prev| && start == |written| && colorCircleList == Overlay(prev, written)
      modifies this`colorCircleList, hsv, canvas
      ensures Valid() && next == start + r.count
      ensures colorCircleList == Overlay(prev, written + LegacyRingSamples(p, o, half, r))
      ensures canvas != null ==> canvas.log == old(canvas.log) + LegacyRingDiscs(p, o, half, r)
    {
      ghost var samples := LegacyRingSamples(p, o, half, r);
      ghost var discs := LegacyRingDiscs(p, o, half, r);
      ghost var log := if canvas == null then [] else canvas.log;
      var j := 0;
      while j < r.count
        invariant 0 <= j <= r.count && Valid()
        invariant colorCircleList == Overlay(prev, written + samples[..j])
        invariant canvas != null ==> canvas.log == log + discs[..j]
      {
        PlaceCircle(p, o, canvas, half, r, j, setSize, start + j, prev, written + samples[..j]);
        assert samples[..j + 1] == samples[..j] + [samples[j]];
        assert discs[..j + 1] == discs[..j] + [discs[j]];
        AppendAssociative(written, samples[..j], [samples[j]]);
        if canvas != null {
          AppendAssociative(log, discs[..j], [discs[j]]);
        }
        j := j + 1;
      }
      assert samples[..j] == samples && discs[..j] == discs;
      next := start + r.count;
    }

    /** The body of the position loop: fill `hsv`, paint, and overwrite or append at `currentCount`. */
    method PlaceCircle(p: Platform, o: LegacyOption, canvas: Canvas?, half: real, r: LegacyRing, j: nat,
                       setSize: nat, currentCount: nat, ghost prev: seq<LegacySample>, ghost w: seq<LegacySample>)
      requires Valid() && r.count >= 1 && o.maxRadius != 0.0
      requires setSize == |prev| && currentCount == |w| && colorCircleList == Overlay(prev, w)
      modifies this`colorCircleList, hsv, canvas
      ensures Valid()
      ensures colorCircleList == Overlay(prev, w + [LegacySampleAt(p, o, half, r, j)])
      ensures canvas != null ==> canvas.log == old(canvas.log) + [LegacyDiscAt(p, o, half, r, j)]
    {
      var x, y, color := CirclePoint(p, o, half, r, j);
      hsv[0], hsv[1], hsv[2] := color.h, color.s, color.v;
      if canvas != null {
        canvas.DrawCircle(x, y, r.size - o.strokeWidth, MakeArgb(PaintAlpha(o.alpha), p.hsvToRgb(color)));
      }
      OverlayStep(prev, w, LegacySampleAt(p, o, half, r, j));
      if currentCount >= setSize {
        colorCircleList := colorCircleList + [LegacySample(x, y, color)];
      } else {
        colorCircleList := colorCircleList[currentCount := LegacySample(x, y, color)];
      }
    }
  }

  /** The angle, the point on the ring and the HSV of position `j`, as the loop body computes them. */
  method CirclePoint(p: Platform, o: LegacyOption, half: real, r: LegacyRing, j: nat)
    returns (x: real, y: real, color: Hsv)
    requires r.count >= 1 && o.maxRadius != 0.0
    ensures LegacySample(x, y, color) == LegacySampleAt(p, o, half, r, j)
    ensures j < r.count ==> 0.0 <= color.h < 360.0
    ensures color.s == r.radius / o.maxRadius && color.v == o.lightness
  {
    if j < r.count {
      LegacyHueInRange(p, o, half, r, j);
    }
    var angle := LegacyAngle(r.index, r.count, j);
    x := half + r.radius * p.cos(angle);
    y := half + r.radius * p.sin(angle);
    color := Hsv(angle * 180.0 / PI, r.radius / o.maxRadius, o.lightness);
  }

  /** One more ring appends that ring's circles and discs. */
  lemma LegacySamplesStep(p: Platform, o: LegacyOption, half: real, i: nat)
    requires Numeric(o) && i < RingTotal(o)
    ensures LegacySamples(p, o, half, i + 1)
              == LegacySamples(p, o, half, i) + LegacyRingSamples(p, o, half, LegacyRingOf(p, o, i))
    ensures LegacyDiscs(p, o, half, i + 1)
              == LegacyDiscs(p, o, half, i) + LegacyRingDiscs(p, o, half, LegacyRingOf(p, o, i))
  {
  }

  /**
   * The two renderers turn opposite rings by the half step: the legacy one on even
   * rings, the newer one on odd rings.
   */
  lemma OppositeParity(i: nat, count: int)
    requires count >= 1
    ensures LegacyOffset(i, count) + AngleOffset(i, count) == PI / count as real
    ensures i % 2 == 0 <==> LegacyOffset(i, count) == PI / count as real && AngleOffset(i, count) == 0.0
    ensures i % 2 == 1 <==> LegacyOffset(i, count) == 0.0 && AngleOffset(i, count) == PI / count as real
  {
    assert PI / count as real > 0.0;
  }

  lemma AngleBelowFullTurn(i: int, count: int, j: int)
    requires count >= 1 && 0 <= j < count
    ensures 0.0 <= LegacyAngle(i, count, j) < 2.0 * PI
  {
    var c := count as real;
    var step := PI / c;
    assert step > 0.0;
    assert PI * 2.0 * j as real / c == 2.0 * j as real * step;
    assert LegacyOffset(i, count) <= step;
    assert 2.0 * j as real * step + step <= 2.0 * (c - 1.0) * step + step;
    assert 2.0 * (c - 1.0) * step + step == 2.0 * PI - step;
  }

  /** With no `% 360` on the hue, every written hue still lies in [0, 360). */
  lemma LegacyHueInRange(p: Platform, o: LegacyOption, half: real, r: LegacyRing, j: int)
    requires r.count >= 1 && o.maxRadius != 0.0 && 0 <= j < r.count
    ensures 0.0 <= LegacySampleAt(p, o, half, r, j).hsv.h < 360.0
  {
    var angle := LegacyAngle(r.index, r.count, j);
    AngleBelowFullTurn(r.index, r.count, j);
    var q := angle / PI;
    assert angle == q * PI;
    assert q < 2.0;
    assert angle * 180.0 / PI == q * 180.0;
  }

  /** The saturation written on ring `i` is the ring's share of the radius, `i / (density - 1)`. */
  lemma LegacySaturationIsRingShare(p: Platform, o: LegacyOption, half: real, i: nat, j: int)
    requires Numeric(o) && i < o.density
    ensures LegacySampleAt(p, o, half, LegacyRingOf(p, o, i), j).hsv.s == i as real / (o.density - 1) as real
    ensures 0.0 <= LegacySampleAt(p, o, half, LegacyRingOf(p, o, i), j).hsv.s <= 1.0
  {
    var r := LegacyRingOf(p, o, i);
    var f := i as real / (o.density - 1) as real;
    ShareInUnit(i, o.density - 1);
    assert r.radius == o.maxRadius * f;
    ShareOfRadius(o.maxRadius, f, r.radius);
    assert LegacySampleAt(p, o, half, r, j).hsv.s == r.radius / o.maxRadius;
  }

  lemma ShareOfRadius(m: real, f: real, radius: real)
    requires m != 0.0 && radius == m * f
    ensures radius / m == f
  {
  }

  lemma ShareInUnit(i: nat, d: int)
    requires 0 <= i <= d && d >= 1
    ensures 0.0 <= i as real / d as real <= 1.0
  {
  }

  /** Every ring holds between 1 and `2 * density` circles, so a draw writes at most `2 * density^2`. */
  lemma {:induction false} LegacyTotalBound(p: Platform, o: LegacyOption, half: real)
    requires Numeric(o)
    ensures |LegacySamples(p, o, half, RingTotal(o))| <= 2 * o.density * o.density
    ensures o.density >= 2 ==> |LegacySamples(p, o, half, RingTotal(o))| >= o.density
  {
    if o.density >= 2 {
      LegacySamplesAtLeast(p, o, half, RingTotal(o));
    }
  }

  lemma {:induction false} LegacySamplesAtLeast(p: Platform, o: LegacyOption, half: real, rings: nat)
    requires Numeric(o) && rings <= RingTotal(o)
    ensures |LegacySamples(p, o, half, rings)| >= rings
  {
    if rings > 0 {
      LegacySamplesAtLeast(p, o, half, rings - 1);
    }
  }

  /** A draw never shortens the list, and leaves entries past what it writes as they were. */
  lemma LegacyListNeverShrinks(prev: seq<LegacySample>, w: seq<LegacySample>)
    ensures |Overlay(prev, w)| >= |prev| && |Overlay(prev, w)| >= |w|
    ensures Overlay(prev, w)[..|w|] == w
    ensures forall k :: |w| <= k < |prev| ==> Overlay(prev, w)[k] == prev[k]
  {
  }
}
