/**
 * The Compose `ColorWheel`: the continuous mapping from a touch position to a
 * colour, the remembered `selectedColor` that taps and drags update, the
 * order in which they call `onColorChange` and `onColorSelected`, and the
 * renderer and option each frame is drawn with.
 */
module ComposeWheel {
  import opened Wrappers
  import opened Numerics
  import opened Android
  import opened Graphics
  import opened ComposeColors
  import opened PickerState
  import opened RenderOptions
  import opened WheelLayout
  import opened Renderers
  import opened ColorPicker

  /** `Size.width.coerceAtMost(size.height)`. */
  function WheelSize(w: real, h: real): (s: real)
    ensures s <= w && s <= h && (s == w || s == h)
  {
    if w <= h then w else h
  }

  /** `atan2` as `kotlin.math` promises it: an angle in [-PI, PI]. */
  ghost predicate Atan2InRange(p: Platform) {
    forall y, x :: -PI <= p.atan2(y, x) <= PI
  }

  /** `((atan2(dy, dx) * 180 / PI + 360) % 360)`: the touch's hue in degrees. */
  function TouchHue(p: Platform, dx: real, dy: real): real {
    FMod(p.atan2(dy, dx) * 180.0 / PI + 360.0, 360.0)
  }

  /**
   * `(distance / maxRadius).coerceIn(0f, 1f)`. A zero radius divides to an
   * infinity, which the clamp brings into range, or, for a zero distance, to a
   * NaN, which it does not; `None` stands for that NaN.
   */
  function TouchSaturation(distance: real, maxRadius: real): (s: Option<real>)
    requires maxRadius >= 0.0
    ensures s.Some? ==> 0.0 <= s.value <= 1.0
    ensures s.None? <==> maxRadius == 0.0 && distance == 0.0
  {
    if maxRadius > 0.0 then Some(ClampReal(distance / maxRadius, 0.0, 1.0))
    else if distance > 0.0 then Some(1.0)
    else if distance < 0.0 then Some(0.0)
    else None
  }

  /**
   * `calculateColorFromPosition(offset, size, lightness, alpha)`: the distance from
   * the centre over half the smaller side gives the saturation, the angle the hue,
   * and `HSV(hue, saturation, lightness).toColor(alpha)` the colour; either
   * constructor throws on a component out of range.
   */
  function CalculateColorFromPosition(p: Platform, x: real, y: real, w: real, h: real,
                                      lightness: real, alpha: real): (r: Result<Color>)
    requires w >= 0.0 && h >= 0.0
    ensures
      var dx, dy := x - w / 2.0, y - h / 2.0;
      var hue, sat := TouchHue(p, dx, dy), TouchSaturation(p.hypot(dx, dy), WheelSize(w, h) / 2.0);
      && (r.Ok? <==> 0.0 <= hue <= 360.0 && sat.Some? && 0.0 <= lightness <= 1.0 && 0.0 <= alpha <= 1.0)
      && (r.Ok? ==> RgbOf(r.value.argb) == p.hsvToRgb(Hsv(hue, sat.value, lightness)))
      && (r.Ok? ==> AlphaOf(r.value.argb) == ToAlphaInt(alpha))
      && (r.Err? ==> r.error.IllegalArgument?)
  {
    var dx, dy := x - w / 2.0, y - h / 2.0;
    var hue := TouchHue(p, dx, dy);
    var sat := TouchSaturation(p.hypot(dx, dy), WheelSize(w, h) / 2.0);
    var hsv := if sat.None? && 0.0 <= hue <= 360.0 then Err(IllegalArgument("Saturation must be between 0 and 1"))
               else NewHSV(hue, sat.GetOr(0.0), lightness);
    match hsv
    case Err(e) => Err(e)
    case Ok(c) => ToColor(p, c, alpha)
  }

  lemma ScaledAngle(a: real)
    requires -PI <= a <= PI
    ensures 180.0 <= a * 180.0 / PI + 360.0 <= 540.0
  {
    var q := a / PI;
    assert a == q * PI;
    assert -1.0 <= q <= 1.0;
    assert a * 180.0 / PI == q * 180.0;
  }

  /** With `atan2` in [-PI, PI] the hue lies in [0, 360). */
  lemma TouchHueInRange(p: Platform, dx: real, dy: real)
    requires Atan2InRange(p)
    ensures 0.0 <= TouchHue(p, dx, dy) < 360.0
  {
    ScaledAngle(p.atan2(dy, dx));
    FModNonNegative(p.atan2(dy, dx) * 180.0 / PI + 360.0, 360.0);
  }

  /** On a wheel of positive size, with both fractions in range, every position yields a colour. */
  lemma EveryPositionPicks(p: Platform, x: real, y: real, w: real, h: real, lightness: real, alpha: real)
    requires Atan2InRange(p) && w > 0.0 && h > 0.0
    requires 0.0 <= lightness <= 1.0 && 0.0 <= alpha <= 1.0
    ensures CalculateColorFromPosition(p, x, y, w, h, lightness, alpha).Ok?
  {
    TouchHueInRange(p, x - w / 2.0, y - h / 2.0);
  }

  /**
   * The saturation grows with the distance: zero at the centre, the distance over
   * the radius inside the wheel, one on and beyond its rim.
   */
  lemma TouchSaturationProfile(distance: real, maxRadius: real)
    requires maxRadius > 0.0
    ensures distance <= 0.0 ==> TouchSaturation(distance, maxRadius) == Some(0.0)
    ensures 0.0 <= distance <= maxRadius ==> TouchSaturation(distance, maxRadius) == Some(distance / maxRadius)
    ensures distance >= maxRadius ==> TouchSaturation(distance, maxRadius) == Some(1.0)
  {
    if distance <= 0.0 {
      assert distance / maxRadius <= 0.0;
    }
    if distance >= maxRadius {
      assert distance / maxRadius >= 1.0;
    }
  }

  /**
   * The wheel is drawn out to half the smaller side less two strokes, while picking
   * divides by half the smaller side, so a touch on the outermost drawn ring picks
   * a saturation below one.
   */
  lemma DrawnRimBelowFullSaturation(w: real, h: real, strokeWidth: real)
    requires strokeWidth > 0.0 && DrawnMaxRadius(w, h, strokeWidth) >= 0.0
    ensures TouchSaturation(DrawnMaxRadius(w, h, strokeWidth), WheelSize(w, h) / 2.0).value < 1.0
  {
    TouchSaturationProfile(DrawnMaxRadius(w, h, strokeWidth), WheelSize(w, h) / 2.0);
  }

  /** `wheelSize / 2f - strokeWidthPx * 2`: the radius of the drawn wheel. */
  function DrawnMaxRadius(w: real, h: real, strokeWidth: real): (r: real)
    ensures strokeWidth > 0.0 ==> r < WheelSize(w, h) / 2.0
  {
    WheelSize(w, h) / 2.0 - strokeWidth * 2.0
  }

  /** The renderer each wheel type is drawn by. */
  function StyleOf(t: WheelType): (s: Style)
    ensures s == Flower <==> t == FLOWER
    ensures s == Simple <==> t == CIRCLE
  {
    match t
    case FLOWER => Flower
    case CIRCLE => Simple
  }

  /**
   * The option a frame is drawn with: density, the drawn radius, a base size of
   * `maxRadius / density / 2`, the stroke, both fractions, the canvas and the
   * canvas centre; the constructor's checks still apply.
   */
  function FrameOption(density: int, w: real, h: real, strokeWidth: real, alpha: real, lightness: real,
                       canvas: Canvas): (r: Result<RenderOption>)
    ensures r.Ok? <==> density >= 2 && 0.0 <= alpha <= 1.0 && 0.0 <= lightness <= 1.0
    ensures r.Ok? ==>
              ValidOption(r.value) && r.value.targetCanvas == canvas &&
              r.value.maxRadius == DrawnMaxRadius(w, h, strokeWidth) &&
              r.value.cSize * 2.0 * density as real == r.value.maxRadius &&
              r.value.centerX == Some(w / 2.0) && r.value.centerY == Some(h / 2.0)
  {
    var maxRadius := DrawnMaxRadius(w, h, strokeWidth);
    var cSize := if density == 0 then 0.0 else maxRadius / density as real / 2.0;
    match NewRenderOption(density, maxRadius, cSize, strokeWidth, alpha, lightness, canvas)
    case Err(e) => Err(e)
    case Ok(o) => Ok(o.(centerX := Some(w / 2.0), centerY := Some(h / 2.0)))
  }

  /**
   * One frame of the wheel's `Canvas` block: a new renderer of the type's style is
   * given the frame's option and draws every ring around the canvas centre.
   */
  method DrawFrame(p: Platform, wheelType: WheelType, density: int, w: real, h: real, strokeWidth: real,
                   alpha: real, lightness: real, canvas: Canvas) returns (r: Result<ColorWheelRenderer>)
    modifies canvas
    ensures r.Ok? <==> FrameOption(density, w, h, strokeWidth, alpha, lightness, canvas).Ok?
    ensures r.Err? ==> canvas.log == old(canvas.log)
    ensures r.Ok? ==>
              var o := FrameOption(density, w, h, strokeWidth, alpha, lightness, canvas).value;
              r.value.Valid() && r.value.style == StyleOf(wheelType) && r.value.renderOption == o &&
              r.value.Samples == WheelSamples(p, r.value.style, o, w / 2.0, h / 2.0, RingCount(o)) &&
              canvas.log == old(canvas.log) +
                WheelDiscs(p, r.value.style, o, w / 2.0, h / 2.0, r.value.AlphaValueAsInt(), RingCount(o))
  {
    var option := FrameOption(density, w, h, strokeWidth, alpha, lightness, canvas);
    if option.Err? {
      return Err(option.error);
    }
    var renderer := new ColorWheelRenderer(StyleOf(wheelType));
    renderer.SetRenderOption(option.value);
    renderer.Draw(p);
    r := Ok(renderer);
  }

  /**
   * The remembered `selectedColor` of one wheel and the calls it has made of its
   * two optional callbacks.
   */
  class Gestures {
    var selectedColor: Color
    var calls: seq<Callback>
    const hasOnColorChange: bool
    const hasOnColorSelected: bool

    /** `remember { mutableStateOf(Color.Red) }`. */
    constructor (hasOnColorChange: bool, hasOnColorSelected: bool)
      ensures selectedColor == RED && calls == []
      ensures this.hasOnColorChange == hasOnColorChange && this.hasOnColorSelected == hasOnColorSelected
    {
      this.hasOnColorChange := hasOnColorChange;
      this.hasOnColorSelected := hasOnColorSelected;
      selectedColor := RED;
      calls := [];
    }

    function ChangeCall(c: Color): (cs: seq<Callback>) {
      if hasOnColorChange then [OnChanged(c)] else []
    }

    function SelectCall(c: Color): (cs: seq<Callback>) {
      if hasOnColorSelected then [OnSelected(c)] else []
    }

    /** A tap: the colour at the position is stored, reported as changed and then as selected. */
    method Tap(p: Platform, x: real, y: real, w: real, h: real, lightness: real, alpha: real) returns (r: Result<Color>)
      requires w >= 0.0 && h >= 0.0
      modifies this
      ensures r == CalculateColorFromPosition(p, x, y, w, h, lightness, alpha)
      ensures r.Err? ==> selectedColor == old(selectedColor) && calls == old(calls)
      ensures r.Ok? ==> selectedColor == r.value && calls == old(calls) + ChangeCall(r.value) + SelectCall(r.value)
    {
      r := CalculateColorFromPosition(p, x, y, w, h, lightness, alpha);
      if r.Ok? {
        selectedColor := r.value;
        calls := calls + ChangeCall(r.value);
        calls := calls + SelectCall(r.value);
      }
    }

    /** A drag step: the colour at the new position is stored and reported as changed only. */
    method Drag(p: Platform, x: real, y: real, w: real, h: real, lightness: real, alpha: real) returns (r: Result<Color>)
      requires w >= 0.0 && h >= 0.0
      modifies this
      ensures r == CalculateColorFromPosition(p, x, y, w, h, lightness, alpha)
      ensures r.Err? ==> selectedColor == old(selectedColor) && calls == old(calls)
      ensures r.Ok? ==> selectedColor == r.value && calls == old(calls) + ChangeCall(r.value)
    {
      r := CalculateColorFromPosition(p, x, y, w, h, lightness, alpha);
      if r.Ok? {
        selectedColor := r.value;
        calls := calls + ChangeCall(r.value);
      }
    }

    /** The end of a drag: the stored colour is reported as selected. */
    method DragEnd()
      modifies this`calls
      ensures calls == old(calls) + SelectCall(selectedColor)
    {
      calls := calls + SelectCall(selectedColor);
    }
  }
}
