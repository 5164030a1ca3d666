/**
 * What one draw of a colour wheel computes, as values: the rings, the
 * samples placed on them, the discs painted, and how a fresh run of samples
 * is laid over the list left by an earlier draw. The renderer class
 * `Renderers.ColorWheelRenderer` is proved to produce exactly these, for
 * both of its styles.
 */
module WheelLayout {
  import opened Numerics
  import opened Android
  import opened Graphics
  import opened ColorCircles
  import opened RenderOptions

  /** `ColorWheelRenderer.GAP_PERCENTAGE`: the share of each ring kept free between circles. */
  const GAP_PERCENTAGE: real := 0.025

  /** The flower renderer's `sizeJitterFactor`. */
  const SIZE_JITTER_FACTOR: real := 1.2

  /** The two renderers: uniform circles, or circles whose size varies by ring. */
  datatype Style = Simple | Flower

  /** The ring length left for circles once the gap is taken out. */
  function EffectiveCircumference(radius: real): real {
    2.0 * PI * radius * (1.0 - GAP_PERCENTAGE)
  }

  /**
   * `calcTotalCount(radius, size)`: how many circles of diameter `size` fit
   * around a ring, at least one.
   */
  function CalcTotalCount(radius: real, size: real): (n: int)
    ensures 1 <= n <= INT_MAX
    ensures radius <= 0.0 || size <= 0.0 ==> n == 1
  {
    if radius <= 0.0 || size <= 0.0 then 1
    else MaxInt(TruncToInt(EffectiveCircumference(radius) / size), 1)
  }

  /**
   * On a real ring the count is the number of whole circle sizes in the
   * effective circumference, and a ring shorter than two sizes holds one.
   */
  lemma CalcTotalCountFits(radius: real, size: real)
    requires radius > 0.0 && size > 0.0
    ensures var n, q := CalcTotalCount(radius, size), EffectiveCircumference(radius) / size;
      (1.0 <= q < INT_MAX as real ==> n as real <= q < n as real + 1.0) &&
      (q < 2.0 ==> n == 1)
  {
  }

  lemma DivideMonotone(a: real, b: real, s: real)
    requires a <= b && s > 0.0
    ensures a / s <= b / s
  {
    assert b / s - a / s == (b - a) / s;
  }

  /** For a fixed positive size, a larger ring never holds fewer circles. */
  lemma CalcTotalCountMonotone(r1: real, r2: real, size: real)
    requires size > 0.0 && r1 <= r2
    ensures CalcTotalCount(r1, size) <= CalcTotalCount(r2, size)
  {
    if r1 > 0.0 {
      DivideMonotone(EffectiveCircumference(r1), EffectiveCircumference(r2), size);
    }
  }

  /** `r / (density - 1)`, or 0 for a one-ring wheel. */
  function RingRatio(density: int, ring: int): real {
    if density > 1 then ring as real / (density - 1) as real else 0.0
  }

  /** The flower renderer's jitter, `(ring - density / 2f) / density`: from -1/2 at the centre towards 1/2 at the rim. */
  function Jitter(density: int, ring: int): real
    requires density > 0
  {
    (ring as real - density as real / 2.0) / density as real
  }

  /** The flower renderer's size change for a ring; ring 0 gets none. */
  function SizeVariation(o: RenderOption, ring: int): real
    requires o.density > 0
  {
    if ring == 0 then 0.0 else o.cSize * SIZE_JITTER_FACTOR * Jitter(o.density, ring)
  }

  /** The circle diameter a style uses on a ring, never below `1.5 + strokeWidth` for the flower. */
  function CircleSize(style: Style, o: RenderOption, ring: int): (size: real)
    requires o.density > 0
    ensures style == Flower ==> size >= 1.5 + o.strokeWidth
  {
    match style
    case Simple => o.cSize
    case Flower => MaxReal(o.cSize + SizeVariation(o, ring), 1.5 + o.strokeWidth)
  }

  /** One ring of a draw: its index, saturation, radius, sample count and painted disc radius. */
  datatype Ring = Ring(index: nat, ratio: real, radius: real, count: int, discRadius: real)

  /** The ring a style draws at index `ring` of `density`. */
  function RingOf(style: Style, o: RenderOption, ring: nat): (r: Ring)
    requires ring < o.density
    ensures r.index == ring && r.count >= 1
    ensures style == Flower ==> r.count <= 2 * o.density
  {
    var ratio := RingRatio(o.density, ring);
    var radius := o.maxRadius * ratio;
    var size := CircleSize(style, o, ring);
    var n := CalcTotalCount(radius, size);
    Ring(ring, ratio, radius, if style == Flower then MinInt(n, 2 * o.density) else n, size - o.strokeWidth)
  }

  /** Odd rings are turned by half a step: `PI / count`. */
  function AngleOffset(ring: int, count: int): real
    requires count >= 1
  {
    if ring % 2 == 0 then 0.0 else PI / count as real
  }

  /** `2 PI j / count + offset`: the angle of sample `j`. */
  function SampleAngle(ring: int, count: int, j: int): real
    requires count >= 1
  {
    2.0 * PI * j as real / count as real + AngleOffset(ring, count)
  }

  /** `(angle * 180 / PI) % 360`: the sample's hue in degrees. */
  function HueOf(angle: real): real {
    FMod(angle * 180.0 / PI, 360.0)
  }

  /** The HSV of sample `j`: hue from its angle, saturation from the ring, value from the option. */
  function SampleHsv(r: Ring, lightness: real, j: int): Hsv
    requires r.count >= 1
  {
    Hsv(HueOf(SampleAngle(r.index, r.count, j)), r.ratio, lightness)
  }

  /** The sample stored for position `j` of a ring around (cx, cy). */
  function RingSample(p: Platform, cx: real, cy: real, r: Ring, lightness: real, j: int): Sample
    requires r.count >= 1
  {
    var angle := SampleAngle(r.index, r.count, j);
    MakeSample(p, cx + r.radius * p.cos(angle), cy + r.radius * p.sin(angle), SampleHsv(r, lightness, j))
  }

  /** The disc painted for position `j`: the sample's colour with its alpha byte replaced. */
  function RingDisc(p: Platform, cx: real, cy: real, r: Ring, lightness: real, alphaByte: int, j: int): Disc
    requires r.count >= 1 && 0 <= alphaByte < 256
  {
    var s := RingSample(p, cx, cy, r, lightness, j);
    Disc(s.x, s.y, r.discRadius, MakeArgb(alphaByte, RgbOf(s.color)))
  }

  function RingSamples(p: Platform, cx: real, cy: real, r: Ring, lightness: real): (s: seq<Sample>)
    requires r.count >= 1
    ensures |s| == r.count
    ensures forall j :: 0 <= j < |s| ==> s[j] == RingSample(p, cx, cy, r, lightness, j)
  {
    seq(r.count, j requires 0 <= j < r.count => RingSample(p, cx, cy, r, lightness, j))
  }

  function RingDiscs(p: Platform, cx: real, cy: real, r: Ring, lightness: real, alphaByte: int): (s: seq<Disc>)
    requires r.count >= 1 && 0 <= alphaByte < 256
    ensures |s| == r.count
    ensures forall j :: 0 <= j < |s| ==> s[j] == RingDisc(p, cx, cy, r, lightness, alphaByte, j)
  {
    seq(r.count, j requires 0 <= j < r.count => RingDisc(p, cx, cy, r, lightness, alphaByte, j))
  }

  /** The samples of the first `rings` rings, ring-major and position-minor. */
  function WheelSamples(p: Platform, style: Style, o: RenderOption, cx: real, cy: real, rings: nat): seq<Sample>
    requires rings <= RingCount(o)
  {
    if rings == 0 then []
    else WheelSamples(p, style, o, cx, cy, rings - 1) + RingSamples(p, cx, cy, RingOf(style, o, rings - 1), o.lightness)
  }

  function WheelDiscs(p: Platform, style: Style, o: RenderOption, cx: real, cy: real, alphaByte: int, rings: nat): seq<Disc>
    requires rings <= RingCount(o) && 0 <= alphaByte < 256
  {
    if rings == 0 then []
    else WheelDiscs(p, style, o, cx, cy, alphaByte, rings - 1)
         + RingDiscs(p, cx, cy, RingOf(style, o, rings - 1), o.lightness, alphaByte)
  }

  /** One more ring appends that ring's samples. */
  lemma WheelSamplesStep(p: Platform, style: Style, o: RenderOption, cx: real, cy: real, ring: nat)
    requires ring < RingCount(o)
    ensures WheelSamples(p, style, o, cx, cy, ring + 1)
      == WheelSamples(p, style, o, cx, cy, ring) + RingSamples(p, cx, cy, RingOf(style, o, ring), o.lightness)
  {
  }

  /** One more ring appends that ring's discs. */
  lemma WheelDiscsStep(p: Platform, style: Style, o: RenderOption, cx: real, cy: real, alphaByte: int, ring: nat)
    requires ring < RingCount(o) && 0 <= alphaByte < 256
    ensures WheelDiscs(p, style, o, cx, cy, alphaByte, ring + 1)
      == WheelDiscs(p, style, o, cx, cy, alphaByte, ring) + RingDiscs(p, cx, cy, RingOf(style, o, ring), o.lightness, alphaByte)
  {
  }

  /** The number of rings a draw walks: `0 until density`. */
  function RingCount(o: RenderOption): nat {
    if o.density > 0 then o.density else 0
  }

  /** The centre a renderer uses: the option's, or the middle of the canvas. */
  function CenterX(o: RenderOption, c: Canvas): real {
    o.centerX.GetOr(c.width as real / 2.0)
  }

  function CenterY(o: RenderOption, c: Canvas): real {
    o.centerY.GetOr(c.height as real / 2.0)
  }

  /** The list after writing `w` at indices 0, 1, ...: overwritten where `prev` had entries, appended past its end. */
  function Overlay<T>(prev: seq<T>, w: seq<T>): (r: seq<T>)
    ensures |r| == MaxInt(|prev|, |w|)
    ensures r[..|w|] == w
    ensures forall i :: |w| <= i < |r| ==> r[i] == prev[i]
  {
    if |w| < |prev| then w + prev[|w|..] else w
  }

  lemma AppendAssociative<T>(a: seq<T>, b: seq<T>, c: seq<T>)
    ensures (a + b) + c == a + (b + c)
  {
  }

  /** Writing the next entry: an overwrite while inside the prev list, an append past it. */
  lemma OverlayStep<T>(prev: seq<T>, w: seq<T>, s: T)
    ensures Overlay(prev, w + [s]) ==
      if |w| < |prev| then Overlay(prev, w)[|w| := s] else Overlay(prev, w) + [s]
  {
    var a, b := Overlay(prev, w + [s]), if |w| < |prev| then Overlay(prev, w)[|w| := s] else Overlay(prev, w) + [s];
    assert |a| == |b|;
    forall i | 0 <= i < |a| ensures a[i] == b[i] {
      if i < |w| {
        assert a[i] == a[..|w| + 1][i] == (w + [s])[i];
        assert b[i] == Overlay(prev, w)[..|w|][i];
      } else if i == |w| {
        assert a[i] == a[..|w| + 1][i];
      }
    }
  }

  /** A second identical draw leaves the list as the first one left it. */
  lemma {:induction false} OverlayIdempotent<T>(prev: seq<T>, w: seq<T>)
    ensures Overlay(Overlay(prev, w), w) == Overlay(prev, w)
  {
    var r := Overlay(prev, w);
    assert r == w + r[|w|..];
  }

  /** Whatever the list held before, a draw leaves the same prefix, of its own length, in front. */
  lemma OverlayPrefixIndependent<T>(old1: seq<T>, old2: seq<T>, w: seq<T>)
    ensures Overlay(old1, w)[..|w|] == Overlay(old2, w)[..|w|] == w
  {
  }

  /** Every ring holds at least one sample. */
  lemma {:induction false} WheelSamplesLength(p: Platform, style: Style, o: RenderOption, cx: real, cy: real, rings: nat)
    requires rings <= RingCount(o)
    ensures |WheelSamples(p, style, o, cx, cy, rings)| >= rings
    ensures style == Flower ==> |WheelSamples(p, style, o, cx, cy, rings)| <= rings * (2 * o.density)
  {
    if rings > 0 {
      WheelSamplesLength(p, style, o, cx, cy, rings - 1);
      WheelSamplesStep(p, style, o, cx, cy, rings - 1);
      var before, count := |WheelSamples(p, style, o, cx, cy, rings - 1)|, RingOf(style, o, rings - 1).count;
      assert |WheelSamples(p, style, o, cx, cy, rings)| == before + count;
      MulPredecessor(rings, 2 * o.density);
    }
  }

  lemma MulPredecessor(a: int, b: int)
    ensures (a - 1) * b + b == a * b
  {
  }

  lemma MulSwap(d: int)
    ensures d * (2 * d) == 2 * d * d
  {
  }

  /** A flower draw writes at most 2 * density^2 samples. */
  lemma FlowerTotalBound(p: Platform, o: RenderOption, cx: real, cy: real)
    ensures |WheelSamples(p, Flower, o, cx, cy, RingCount(o))| <= 2 * o.density * o.density
  {
    WheelSamplesLength(p, Flower, o, cx, cy, RingCount(o));
    if o.density <= 0 {
      assert WheelSamples(p, Flower, o, cx, cy, 0) == [];
    } else {
      MulSwap(o.density);
    }
  }

  /** The centre ring has radius 0 and one sample, placed at the centre with saturation 0. */
  lemma CentreRing(p: Platform, style: Style, o: RenderOption, cx: real, cy: real)
    requires o.density > 0
    ensures RingOf(style, o, 0).radius == 0.0 && RingOf(style, o, 0).count == 1
    ensures RingSamples(p, cx, cy, RingOf(style, o, 0), o.lightness)[0].x == cx
    ensures RingSamples(p, cx, cy, RingOf(style, o, 0), o.lightness)[0].y == cy
    ensures RingSamples(p, cx, cy, RingOf(style, o, 0), o.lightness)[0].hsv.s == 0.0
  {
  }

  /** With at least two rings, the outermost lies at `maxRadius` with full saturation. */
  lemma OuterRing(style: Style, o: RenderOption)
    requires o.density >= 2
    ensures RingOf(style, o, o.density - 1).ratio == 1.0
    ensures RingOf(style, o, o.density - 1).radius == o.maxRadius
  {
  }

  /** Every sample's hue lies in [0, 360), its saturation is its ring's ratio and its value the option's lightness. */
  lemma SampleHsvInRange(r: Ring, lightness: real, j: nat)
    requires r.count >= 1
    ensures 0.0 <= SampleHsv(r, lightness, j).h < 360.0
    ensures SampleHsv(r, lightness, j).s == r.ratio && SampleHsv(r, lightness, j).v == lightness
  {
    var angle := SampleAngle(r.index, r.count, j);
    assert 2.0 * PI * j as real >= 0.0;
    assert AngleOffset(r.index, r.count) >= 0.0;
    assert angle >= 0.0;
    FModNonNegative(angle * 180.0 / PI, 360.0);
  }

  /** A ring's saturation lies in [0, 1]: 0 at the centre ring, 1 at the rim ring. */
  lemma RingRatioInRange(density: int, ring: nat)
    requires ring < density
    ensures 0.0 <= RingRatio(density, ring) <= 1.0
    ensures ring == 0 ==> RingRatio(density, ring) == 0.0
    ensures ring == density - 1 > 0 ==> RingRatio(density, ring) == 1.0
  {
  }

  /** The flower's centre ring keeps the base size, raised to `1.5 + strokeWidth` if smaller. */
  lemma FlowerCentreSize(o: RenderOption)
    requires o.density > 0
    ensures CircleSize(Flower, o, 0) == MaxReal(o.cSize, 1.5 + o.strokeWidth)
  {
  }

  /** With density 10 and base size 10, ring 9 grows by more than ring 1 does. */
  lemma FlowerOuterRingsGrow(o: RenderOption)
    requires o.density == 10 && o.cSize == 10.0
    ensures SizeVariation(o, 9) > SizeVariation(o, 1)
    ensures SizeVariation(o, 9) == 4.8 && SizeVariation(o, 1) == -4.8
  {
  }

  /** The uniform renderer has no cap: two rings of radius up to 1000 and size 1 give 6126 samples on the outer one. */
  lemma SimpleHasNoCap(o: RenderOption)
    requires o.density == 2 && o.maxRadius == 1000.0 && o.cSize == 1.0
    ensures RingOf(Simple, o, 1).count == 6126 > 2 * o.density
  {
    assert EffectiveCircumference(1000.0) / 1.0 == 6126.10567450009635;
  }
}
