/**
 * `ColorPickerView`, the classic Android view: it owns a renderer and the
 * canvas the wheel is drawn on, keeps the selected circle, lightness, alpha
 * and the five preset colour slots, and calls its change and selection
 * listeners. Listeners are identified by an `Int` and every call made to one
 * is appended to `calls`; the sliders, the text field, the preview row and
 * `invalidate()` are views outside this model.
 */
module PickerView {
  import opened Wrappers
  import opened Numerics
  import opened Android
  import opened Graphics
  import opened ColorCircles
  import opened RenderOptions
  import opened WheelLayout
  import opened Renderers
  import opened HitTest
  import opened ColorExtensions

  const STROKE_RATIO: real := 1.5
  /** The stroke width `drawColorWheel` hands to the renderer. */
  const WHEEL_STROKE: real := STROKE_RATIO * (1.0 + GAP_PERCENTAGE)

  /** `MotionEvent` actions. */
  const ACTION_DOWN: int := 0
  const ACTION_UP: int := 1
  const ACTION_MOVE: int := 2

  /** `-0x1`: opaque white. */
  const WHITE: Bits32 := 0xFFFF_FFFF

  /** The number of preset slots a new view has. */
  const SLOT_COUNT: nat := 5
  /** The name an out-of-range slot index is reported under. */
  const SLOTS: string := "allColors"

  datatype WheelType = FLOWER | CIRCLE

  /** `WheelType.indexOf(index)`: 1 is CIRCLE; 0 and every unknown index fall back to FLOWER. */
  function IndexOf(index: int): (t: WheelType)
    ensures t == CIRCLE <==> index == 1
  {
    match index
    case 0 => FLOWER
    case 1 => CIRCLE
    case _ => FLOWER
  }

  /** `WheelType.getRenderer()`: the uniform wheel for CIRCLE, the flower for FLOWER. */
  function RendererStyle(t: WheelType): Style {
    if t == CIRCLE then Simple else Flower
  }

  datatype Event = ColorChanged | ColorSelected

  /** `listener.onColorChanged(color)` or `listener.onColorSelected(color)`. */
  datatype Call = Call(event: Event, listener: int, color: Bits32)

  /** One call per listener, in registration order, all with the same colour. */
  function Notify(event: Event, listeners: seq<int>, color: Bits32): (cs: seq<Call>)
    ensures |cs| == |listeners|
    ensures forall i :: 0 <= i < |cs| ==> cs[i] == Call(event, listeners[i], color)
  {
    seq(|listeners|, i requires 0 <= i < |listeners| => Call(event, listeners[i], color))
  }

  /** `Color.HSVToColor(alpha, hsv)`: the low byte of `alpha` over the colour of `hsv`. */
  function HsvToColorWithAlpha(p: Platform, alpha: int, hsv: Hsv): (c: Bits32)
    ensures AlphaOf(c) == alpha % 256 && RgbOf(c) == p.hsvToRgb(hsv)
  {
    MakeArgb(alpha % 256, p.hsvToRgb(hsv))
  }

  /**
   * The `selectedColor` getter on the colour of a circle: lightness applied
   * through HSV, then the alpha byte replaced by `alpha.alpha`.
   */
  function SelectedOf(p: Platform, circleColor: Bits32, lightness: real, alpha: real): (c: Bits32)
    ensures AlphaOf(c) == FloatAlpha(alpha) % 256
    ensures var hsv := p.colorToHsv(RgbOf(circleColor));
      RgbOf(c) == p.hsvToRgb(Hsv(hsv.h, hsv.s, lightness))
  {
    AdjustAlpha(ApplyLightness(p, circleColor, lightness), alpha)
  }

  /** The circle's alpha byte plays no part in the selected colour. */
  lemma SelectedIgnoresCircleAlpha(p: Platform, c: Bits32, d: Bits32, lightness: real, alpha: real)
    requires RgbOf(c) == RgbOf(d)
    ensures SelectedOf(p, c, lightness, alpha) == SelectedOf(p, d, lightness, alpha)
  {
    ArgbParts(SelectedOf(p, c, lightness, alpha));
    ArgbParts(SelectedOf(p, d, lightness, alpha));
  }

  /** For an alpha fraction in [0, 1] the selected colour's alpha is that fraction to within half of 1/255. */
  lemma SelectedAlphaInRange(p: Platform, circleColor: Bits32, lightness: real, alpha: real)
    requires 0.0 <= alpha <= 1.0
    ensures -0.5 <= IntAlpha(SelectedOf(p, circleColor, lightness, alpha)) * 255.0 - alpha * 255.0 <= 0.5
  {
    var n := FloatAlpha(alpha);
    assert n % 256 == n;
    assert IntAlpha(SelectedOf(p, circleColor, lightness, alpha)) * 255.0 == n as real;
  }

  /** The colour of the sample found by a search, or 0 when nothing was found. */
  function FoundColor(samples: seq<Sample>, k: Option<nat>): Bits32
    requires k.Some? ==> k.value < |samples|
  {
    if k.None? then 0 else samples[k.value].color
  }

  /**
   * The option `drawColorWheel` gives the renderer for a canvas of side `width`:
   * `half = width / 2`, `maxRadius = half - stroke - half / density` and
   * `cSize = maxRadius / (density - 1) / 2`, with the view's alpha, lightness and canvas.
   */
  function WheelOption(o: RenderOption, density: int, width: int, alpha: real, lightness: real,
                       canvas: Canvas?): (r: RenderOption)
    requires density >= 2
    ensures r.density == density && r.strokeWidth == WHEEL_STROKE
    ensures r.alpha == alpha && r.lightness == lightness && r.targetCanvas == canvas
    ensures r.centerX == o.centerX && r.centerY == o.centerY
  {
    var half := width as real / 2.0;
    var maxRadius := half - WHEEL_STROKE - half / density as real;
    o.(density := density, maxRadius := maxRadius, cSize := maxRadius / (density - 1) as real / 2.0,
       strokeWidth := WHEEL_STROKE, alpha := alpha, lightness := lightness, targetCanvas := canvas)
  }

  lemma RadiusSpacing(m: real, k: real, r: real)
    requires k > 0.0
    ensures m * (r / k) == 2.0 * (m / k / 2.0) * r
  {
    assert m * (r / k) == (m / k) * r;
  }

  /**
   * In the view's wheel ring `i` lies `i` circle diameters (`2 * cSize`) from the
   * centre, and the outer ring leaves the stroke and a margin of `half / density`
   * inside half the canvas.
   */
  lemma WheelGeometry(style: Style, o: RenderOption, density: int, width: int, alpha: real, lightness: real,
                      canvas: Canvas?, ring: nat)
    requires density >= 2 && ring < density
    ensures var w := WheelOption(o, density, width, alpha, lightness, canvas);
      RingOf(style, w, ring).radius == 2.0 * w.cSize * ring as real &&
      w.maxRadius + w.strokeWidth + (width as real / 2.0) / density as real == width as real / 2.0
  {
    var w := WheelOption(o, density, width, alpha, lightness, canvas);
    RadiusSpacing(w.maxRadius, (density - 1) as real, ring as real);
  }

  class ColorPickerView {
    /** The wheel bitmap, by its side length, and the canvas drawing into a bitmap. */
    var colorWheel: Option<int>
    var colorWheelCanvas: Canvas?
    /** The bitmap and canvas for the selected-colour marker. */
    var currentColor: Option<int>
    var currentColorCanvas: Canvas?
    var density: int
    var lightness: real
    var alphaValue: real
    var allColors: seq<Option<Bits32>>
    var colorSelection: int
    var initialColor: Bits32
    var currentColorCircle: ColorCircle?
    var colorChangedListeners: seq<int>
    var listeners: seq<int>
    /** Every listener call made so far, in order. */
    var calls: seq<Call>
    var renderer: ColorWheelRenderer?
    var measuredWidth: int
    var measuredHeight: int

    ghost var Repr: set<object>

    ghost predicate Valid()
      reads this`Repr, this`density, this`renderer, this`colorWheel, this`colorWheelCanvas,
            this`currentColor, this`currentColorCanvas, Repr - {this}
    {
      this in Repr && density >= 2 &&
      (renderer != null ==>
        renderer in Repr && renderer.Repr <= Repr && this !in renderer.Repr && renderer.Valid()) &&
      (colorWheel.Some? ==> colorWheelCanvas != null) && (currentColor.Some? ==> currentColorCanvas != null) &&
      (colorWheelCanvas != null ==> colorWheelCanvas in Repr && colorWheelCanvas != currentColorCanvas) &&
      (currentColorCanvas != null ==> currentColorCanvas in Repr)
    }

    /** The selected circle, if any, has its three HSV entries. */
    ghost predicate CircleValid()
      reads this`currentColorCircle
    {
      currentColorCircle != null ==> currentColorCircle.hsv.Length == 3
    }

    /**
     * A new view: the field initialisers (density 8, lightness and alpha 1, five empty
     * slots, no renderer), then `initWith` on the styled attributes.
     */
    constructor (p: Platform, densityAttr: Option<int>, colorAttr: Option<Bits32>, wheelTypeAttr: Option<int>)
      ensures Valid() && CircleValid() && fresh(Repr)
      ensures density == MaxInt(2, densityAttr.GetOr(10)) && initialColor == colorAttr.GetOr(WHITE)
      ensures renderer != null && renderer.style == RendererStyle(IndexOf(wheelTypeAttr.GetOr(0)))
      ensures renderer.Samples == [] && currentColorCircle == null
      ensures allColors == [Some(initialColor), None, None, None, None] && colorSelection == 0
      ensures alphaValue == IntAlpha(initialColor) && lightness == Lightness(p, initialColor)
      ensures Unlaidout()
    {
      colorWheel, colorWheelCanvas, currentColor, currentColorCanvas := None, null, None, null;
      density, lightness, alphaValue := 8, 1.0, 1.0;
      allColors := seq(SLOT_COUNT, _ => None);
      colorSelection, initialColor := 0, 0;
      currentColorCircle := null;
      colorChangedListeners, listeners, calls := [], [], [];
      renderer := null;
      measuredWidth, measuredHeight := 0, 0;
      new;
      Repr := {this};
      InitWith(p, densityAttr, colorAttr, wheelTypeAttr);
      assert allColors == [Some(initialColor), None, None, None, None];
    }

    /**
     * `initWith`: the `density` attribute (default 10), the `initialColor` attribute
     * (default white) and the `wheelType` attribute (default 0) picked from the
     * styled attributes, then `setRenderer` with a new renderer for that wheel type,
     * `setDensity` and `setInitialColor`.
     */
    method InitWith(p: Platform, densityAttr: Option<int>, colorAttr: Option<Bits32>, wheelTypeAttr: Option<int>)
      requires Valid() && currentColorCircle == null && 0 <= colorSelection < |allColors|
      modifies this`renderer, this`Repr, this`density, this`alphaValue, this`lightness, this`allColors,
               this`initialColor, this`currentColorCircle
      ensures Valid() && CircleValid() && fresh(Repr - old(Repr))
      ensures density == MaxInt(2, densityAttr.GetOr(10)) && initialColor == colorAttr.GetOr(WHITE)
      ensures renderer != null && renderer.style == RendererStyle(IndexOf(wheelTypeAttr.GetOr(0)))
      ensures renderer.Samples == [] && currentColorCircle == null
      ensures allColors == old(allColors)[colorSelection := Some(initialColor)]
      ensures alphaValue == IntAlpha(initialColor) && lightness == Lightness(p, initialColor)
    {
      var r := new ColorWheelRenderer(RendererStyle(IndexOf(wheelTypeAttr.GetOr(0))));
      SetRenderer(r);
      SetDensity(densityAttr.GetOr(10));
      var result := SetInitialColor(p, colorAttr.GetOr(WHITE));
    }

    /** A view before layout: no bitmaps or canvases, no listeners, nothing called and no measured size. */
    ghost predicate Unlaidout()
      reads this`colorWheel, this`currentColor, this`colorWheelCanvas, this`currentColorCanvas,
            this`colorChangedListeners, this`listeners, this`calls, this`measuredWidth, this`measuredHeight
    {
      colorWheel.None? && currentColor.None? && colorWheelCanvas == null && currentColorCanvas == null &&
      colorChangedListeners == [] && listeners == [] && calls == [] && measuredWidth == 0 && measuredHeight == 0
    }

    /** `currentColorCircle?.color ?: 0`. */
    function CircleColor(): Bits32
      reads this`currentColorCircle, currentColorCircle
    {
      if currentColorCircle == null then 0 else currentColorCircle.color
    }

    /** The `selectedColor` getter. */
    function SelectedColor(p: Platform): (c: Bits32)
      reads this`currentColorCircle, this`lightness, this`alphaValue, currentColorCircle
      ensures c == SelectedOf(p, CircleColor(), lightness, alphaValue)
      ensures AlphaOf(c) == FloatAlpha(alphaValue) % 256
    {
      SelectedOf(p, CircleColor(), lightness, alphaValue)
    }

    /** `currentColorCircle?.getHsvWithLightness(l) ?: floatArrayOf(0f, 0f, 0f)`, as a value. */
    function CircleHsv(l: real): (hsv: Hsv)
      requires CircleValid()
      reads this`currentColorCircle, currentColorCircle, if currentColorCircle == null then {} else {currentColorCircle.hsv}
      ensures currentColorCircle == null ==> hsv == Hsv(0.0, 0.0, 0.0)
      ensures currentColorCircle != null ==> hsv.v == l && hsv.h == currentColorCircle.hsv[0] && hsv.s == currentColorCircle.hsv[1]
    {
      if currentColorCircle == null then Hsv(0.0, 0.0, 0.0)
      else Hsv(currentColorCircle.hsv[0], currentColorCircle.hsv[1], l)
    }

    /** The index `findNearestByPosition(x, y)` settles on, if any. */
    ghost function NearestByPosition(x: real, y: real): (k: Option<nat>)
      reads this`renderer, renderer
      ensures renderer == null ==> k.None?
      ensures renderer != null && k.Some? ==> k.value < |renderer.Samples|
    {
      if renderer == null then None else Scan(PositionDistances(renderer.Samples, x, y), DOUBLE_MAX).1
    }

    /** The index `findNearestByColor(color)` settles on, if any. */
    ghost function NearestByColor(p: Platform, color: Bits32): (k: Option<nat>)
      reads this`renderer, renderer
      ensures renderer == null ==> k.None?
      ensures renderer != null && k.Some? ==> k.value < |renderer.Samples|
    {
      var hsv := p.colorToHsv(RgbOf(color));
      if renderer == null then None else Scan(ColorDistances(p, renderer.Samples, hsv.h, hsv.s), DOUBLE_MAX).1
    }

    /** The listed circle at a search result, or null. */
    ghost function CircleAt(k: Option<nat>): ColorCircle?
      reads this`renderer, renderer
      requires k.Some? ==> renderer != null && k.value < |renderer.circleList|
    {
      if k.None? then null else renderer.circleList[k.value]
    }

    /** The colour a touch at (x, y) selects: the nearest sample's colour through `selectedColor`. */
    ghost function PickedByPosition(p: Platform, x: real, y: real): Bits32
      reads this`renderer, this`lightness, this`alphaValue, renderer
    {
      SelectedOf(p, if renderer == null then 0 else FoundColor(renderer.Samples, NearestByPosition(x, y)),
                 lightness, alphaValue)
    }

    /** `(colorWheelCanvas?.width ?: 0)`. */
    function CanvasWidth(): int
      reads this`colorWheelCanvas
    {
      if colorWheelCanvas == null then 0 else colorWheelCanvas.width
    }

    /**
     * After `drawColorWheel`: the renderer holds the option for the current settings,
     * its list starts with the wheel those settings give, the wheel canvas shows exactly
     * that wheel's discs and the marker canvas is blank.
     */
    ghost predicate WheelDrawn(p: Platform)
      reads this`density, this`renderer, this`colorWheelCanvas, this`currentColorCanvas, this`alphaValue,
            this`lightness, renderer, colorWheelCanvas, currentColorCanvas
      requires density >= 2
    {
      (currentColorCanvas != null ==> currentColorCanvas.log == []) &&
      (renderer == null ==> colorWheelCanvas != null ==> colorWheelCanvas.log == []) &&
      (renderer != null ==>
        var o := renderer.renderOption;
        o == WheelOption(o, density, CanvasWidth(), alphaValue, lightness, colorWheelCanvas) &&
        (colorWheelCanvas != null ==>
          var cx, cy := CenterX(o, colorWheelCanvas), CenterY(o, colorWheelCanvas);
          var wheel := WheelSamples(p, renderer.style, o, cx, cy, RingCount(o));
          |wheel| <= |renderer.Samples| && renderer.Samples[..|wheel|] == wheel &&
          colorWheelCanvas.log == WheelDiscs(p, renderer.style, o, cx, cy, renderer.AlphaValueAsInt(), RingCount(o))))
    }

    /** `setDensity(n)`: at least 2. */
    method SetDensity(newDensity: int)
      requires Valid()
      modifies this`density
      ensures Valid() && density == MaxInt(2, newDensity)
    {
      density := MaxInt(2, newDensity);
    }

    /** `setRenderer(r)`. */
    method SetRenderer(r: ColorWheelRenderer)
      requires Valid() && r.Valid() && this !in r.Repr
      modifies this`renderer, this`Repr
      ensures Valid() && renderer == r && Repr == old(Repr) + r.Repr
    {
      renderer := r;
      Repr := Repr + r.Repr;
    }

    method AddOnColorChangedListener(listener: int)
      modifies this`colorChangedListeners
      ensures colorChangedListeners == old(colorChangedListeners) + [listener]
    {
      colorChangedListeners := colorChangedListeners + [listener];
    }

    method AddOnColorSelectedListener(listener: int)
      modifies this`listeners
      ensures listeners == old(listeners) + [listener]
    {
      listeners := listeners + [listener];
    }

    /** The size layout settles on: `setMeasuredDimension(width, height)`. */
    method SetMeasuredDimension(width: int, height: int)
      modifies this`measuredWidth, this`measuredHeight
      ensures measuredWidth == width && measuredHeight == height
    {
      measuredWidth, measuredHeight := width, height;
    }

    /** Calls every listener in `targets`, in order; an exception in one is swallowed, so the rest still run. */
    method Dispatch(event: Event, targets: seq<int>, color: Bits32)
      modifies this`calls
      ensures calls == old(calls) + Notify(event, targets, color)
    {
      var i := 0;
      while i < |targets|
        invariant 0 <= i <= |targets|
        invariant calls == old(calls) + Notify(event, targets[..i], color)
      {
        assert Notify(event, targets[..i + 1], color) == Notify(event, targets[..i], color) + [Call(event, targets[i], color)];
        calls := calls + [Call(event, targets[i], color)];
        i := i + 1;
      }
      assert targets[..i] == targets;
    }

    /** `callOnColorChangedListeners(oldColor, newColor)`: nothing when the colour is unchanged. */
    method CallOnColorChangedListeners(oldColor: Bits32, newColor: Bits32)
      modifies this`calls
      ensures calls == old(calls) + if oldColor == newColor then [] else Notify(ColorChanged, colorChangedListeners, newColor)
    {
      if oldColor == newColor {
        return;
      }
      Dispatch(ColorChanged, colorChangedListeners, newColor);
    }

    /** `findNearestByPosition(x, y)`: the first circle of strictly smallest `sqDist`, null for no renderer or an empty list. */
    method FindNearestByPosition(x: real, y: real) returns (near: ColorCircle?)
      requires Valid()
      ensures near == CircleAt(NearestByPosition(x, y))
      ensures near != null ==> near.hsv.Length == 3
      ensures near != null ==> near.color == FoundColor(renderer.Samples, NearestByPosition(x, y))
    {
      near := null;
      if renderer == null {
        return;
      }
      var list := renderer.circleList;
      ghost var ds := PositionDistances(renderer.Samples, x, y);
      var minDist := DOUBLE_MAX;
      ghost var best: Option<nat> := None;
      var i := 0;
      while i < |list|
        invariant 0 <= i <= |list|
        invariant (minDist, best) == Scan(ds[..i], DOUBLE_MAX)
        invariant best.None? ==> near == null
        invariant best.Some? ==> best.value < i && near == list[best.value]
      {
        var dist := list[i].SqDist(x, y);
        assert list[i].View() == renderer.Samples[i];
        assert dist == ds[i];
        ScanStep(ds, i, DOUBLE_MAX);
        if minDist > dist {
          minDist := dist;
          near := list[i];
          best := Some(i);
        }
        i := i + 1;
      }
      assert ds[..i] == ds;
    }

    /**
     * `findNearestByColor(color)`: the first circle whose (hue, saturation), as a point of
     * the colour disc, is strictly nearest to the colour's; null for no renderer or an empty list.
     */
    method FindNearestByColor(p: Platform, color: Bits32) returns (near: ColorCircle?)
      requires Valid()
      ensures near == CircleAt(NearestByColor(p, color))
      ensures near != null ==> near.hsv.Length == 3
    {
      near := null;
      if renderer == null {
        return;
      }
      var hsv := p.colorToHsv(RgbOf(color));
      var target := PolarPoint(p, hsv.h, hsv.s);
      var list := renderer.circleList;
      ghost var ds := ColorDistances(p, renderer.Samples, hsv.h, hsv.s);
      var minDiff := DOUBLE_MAX;
      ghost var best: Option<nat> := None;
      var i := 0;
      while i < |list|
        invariant 0 <= i <= |list|
        invariant (minDiff, best) == Scan(ds[..i], DOUBLE_MAX)
        invariant best.None? ==> near == null
        invariant best.Some? ==> best.value < i && near == list[best.value]
      {
        var hsv1 := list[i].hsv;
        var point := PolarPoint(p, hsv1[0], hsv1[1]);
        var dist := SquaredDistance(target.0, target.1, point.0, point.1);
        assert list[i].View() == renderer.Samples[i];
        assert dist == ds[i];
        ScanStep(ds, i, DOUBLE_MAX);
        if dist < minDiff {
          minDiff := dist;
          near := list[i];
          best := Some(i);
        }
        i := i + 1;
      }
      assert ds[..i] == ds;
    }

    /**
     * `setInitialColor(color, updateText)`: alpha and lightness taken from the colour,
     * the colour stored in the selected slot (an index outside the slots throws, after
     * alpha and lightness are already set) and the nearest circle by colour selected.
     */
    method SetInitialColor(p: Platform, color: Bits32) returns (r: Result<()>)
      requires Valid() && CircleValid()
      modifies this`alphaValue, this`lightness, this`allColors, this`initialColor, this`currentColorCircle
      ensures Valid() && CircleValid()
      ensures alphaValue == IntAlpha(color) && lightness == Lightness(p, color)
      ensures r.Ok? <==> 0 <= colorSelection < |old(allColors)|
      ensures r.Err? ==> r.error.IndexOutOfBounds? && allColors == old(allColors)
      ensures r.Err? ==> initialColor == old(initialColor) && currentColorCircle == old(currentColorCircle)
      ensures r.Ok? ==> allColors == old(allColors)[colorSelection := Some(color)] && initialColor == color
      ensures r.Ok? ==> currentColorCircle == CircleAt(NearestByColor(p, color))
    {
      var near := FindNearestByColor(p, color);
      r := StoreColor(p, color, near);
    }

    /** The part of `setInitialColor` after the search: alpha, lightness, then the slot, colour and circle. */
    method StoreColor(p: Platform, color: Bits32, near: ColorCircle?) returns (r: Result<()>)
      requires Valid() && (near != null ==> near.hsv.Length == 3)
      modifies this`alphaValue, this`lightness, this`allColors, this`initialColor, this`currentColorCircle
      ensures alphaValue == IntAlpha(color) && lightness == Lightness(p, color)
      ensures r.Ok? <==> 0 <= colorSelection < |old(allColors)|
      ensures r.Err? ==> r.error.IndexOutOfBounds? && allColors == old(allColors)
      ensures r.Err? ==> initialColor == old(initialColor) && currentColorCircle == old(currentColorCircle)
      ensures r.Ok? ==> allColors == old(allColors)[colorSelection := Some(color)] && initialColor == color
      ensures r.Ok? ==> currentColorCircle == near
    {
      var hsv := p.colorToHsv(RgbOf(color));
      alphaValue := IntAlpha(color);
      lightness := hsv.v;
      if !(0 <= colorSelection < |allColors|) {
        return Err(IndexOutOfBounds(SLOTS));
      }
      allColors := allColors[colorSelection := Some(color)];
      initialColor := color;
      currentColorCircle := near;
      r := Ok(());
    }

    /**
     * `setInitialColors(colors, selected)`: the slots replaced, the selection moved, and the
     * selected slot's colour (white when empty) made the initial colour.
     */
    method SetInitialColors(p: Platform, colors: seq<Option<Bits32>>, selected: int) returns (r: Result<()>)
      requires Valid() && CircleValid()
      modifies this`allColors, this`colorSelection, this`alphaValue, this`lightness, this`initialColor,
               this`currentColorCircle
      ensures Valid() && CircleValid() && colorSelection == selected
      ensures r.Ok? <==> 0 <= selected < |colors|
      ensures r.Err? ==> r.error.IndexOutOfBounds? && allColors == colors
      ensures r.Err? ==> alphaValue == old(alphaValue) && lightness == old(lightness) &&
                         initialColor == old(initialColor) && currentColorCircle == old(currentColorCircle)
      ensures r.Ok? ==> var c := colors[selected].GetOr(WHITE);
        allColors == colors[selected := Some(c)] && initialColor == c &&
        alphaValue == IntAlpha(c) && lightness == Lightness(p, c) &&
        currentColorCircle == CircleAt(NearestByColor(p, c))
    {
      allColors := colors;
      colorSelection := selected;
      if !(0 <= selected < |colors|) {
        return Err(IndexOutOfBounds(SLOTS));
      }
      var c := colors[selected].GetOr(WHITE);
      r := SetInitialColor(p, c);
    }

    /**
     * `drawColorWheel()`: both canvases cleared; with a renderer, its option set from
     * the view's density, canvas size, alpha and lightness, then the renderer draws.
     */
    method DrawColorWheel(p: Platform)
      requires Valid()
      modifies this`Repr, Repr - {this}
      ensures Valid() && fresh(Repr - old(Repr)) && WheelDrawn(p)
      ensures renderer != null ==>
        renderer.renderOption == WheelOption(old(renderer.renderOption), density, CanvasWidth(), alphaValue, lightness, colorWheelCanvas)
      ensures renderer != null && colorWheelCanvas == null ==> renderer.Samples == old(renderer.Samples)
      ensures renderer != null && colorWheelCanvas != null ==>
        var o := renderer.renderOption;
        renderer.Samples == Overlay(old(renderer.Samples),
          WheelSamples(p, renderer.style, o, CenterX(o, colorWheelCanvas), CenterY(o, colorWheelCanvas), RingCount(o)))
    {
      ClearCanvases();
      if renderer == null {
        return;
      }
      RenderWheel(p);
    }

    /** The first step of `drawColorWheel`: both canvases erased. */
    method ClearCanvases()
      requires Valid()
      modifies colorWheelCanvas, currentColorCanvas
      ensures Valid()
      ensures colorWheelCanvas != null ==> colorWheelCanvas.log == []
      ensures currentColorCanvas != null ==> currentColorCanvas.log == []
    {
      if colorWheelCanvas != null {
        colorWheelCanvas.Clear();
      }
      if currentColorCanvas != null {
        currentColorCanvas.Clear();
      }
    }

    /** The renderer step of `drawColorWheel`: the option for the view's settings, then the renderer draws. */
    method RenderWheel(p: Platform)
      requires Valid() && renderer != null
      modifies this`Repr, renderer.Repr, colorWheelCanvas
      ensures Valid() && fresh(Repr - old(Repr))
      ensures renderer.renderOption == WheelOption(old(renderer.renderOption), density, CanvasWidth(), alphaValue, lightness, colorWheelCanvas)
      ensures colorWheelCanvas == null ==> renderer.Samples == old(renderer.Samples)
      ensures colorWheelCanvas != null ==>
        var o := renderer.renderOption;
        var cx, cy := CenterX(o, colorWheelCanvas), CenterY(o, colorWheelCanvas);
        renderer.Samples == Overlay(old(renderer.Samples), WheelSamples(p, renderer.style, o, cx, cy, RingCount(o))) &&
        colorWheelCanvas.log == old(colorWheelCanvas.log) + WheelDiscs(p, renderer.style, o, cx, cy, renderer.AlphaValueAsInt(), RingCount(o))
    {
      var o := WheelOption(renderer.renderOption, density, CanvasWidth(), alphaValue, lightness, colorWheelCanvas);
      renderer.SetRenderOption(o);
      renderer.Draw(p);
      Repr := Repr + renderer.Repr;
    }

    /**
     * `updateColorWheel()` as written: the side is the smaller measured dimension; a
     * bitmap is replaced (and a canvas made over the bitmap it replaces) only when one
     * already exists, then the wheel is drawn.
     */
    method UpdateColorWheelAsWritten(p: Platform)
      requires Valid()
      modifies this`colorWheel, this`colorWheelCanvas, this`currentColor, this`currentColorCanvas,
               this`Repr, Repr - {this}
      ensures Valid() && fresh(Repr - old(Repr))
      ensures old(colorWheel).None? ==> colorWheel.None? && colorWheelCanvas == old(colorWheelCanvas)
      ensures old(currentColor).None? ==> currentColor.None? && currentColorCanvas == old(currentColorCanvas)
      ensures renderer != null && colorWheelCanvas == null ==> renderer.Samples == old(renderer.Samples)
    {
      var width := MinInt(measuredWidth, measuredHeight);
      if width <= 0 {
        return;
      }
      if colorWheel.Some? {
        var side := colorWheel.value;
        colorWheel := Some(width);
        var canvas := new Canvas(side, side);
        colorWheelCanvas := canvas;
        Repr := Repr + {canvas};
      }
      if currentColor.Some? {
        var side := currentColor.value;
        currentColor := Some(width);
        var canvas := new Canvas(side, side);
        currentColorCanvas := canvas;
        Repr := Repr + {canvas};
      }
      DrawColorWheel(p);
    }

    /**
     * `updateColorWheel()` as evidently intended: a missing bitmap, or one of another
     * size, is created at the current side together with a canvas over it, then the
     * wheel is drawn.
     */
    method UpdateColorWheel(p: Platform)
      requires Valid()
      modifies this`colorWheel, this`colorWheelCanvas, this`currentColor, this`currentColorCanvas,
               this`Repr, Repr - {this}
      ensures Valid() && fresh(Repr - old(Repr))
      ensures MinInt(measuredWidth, measuredHeight) <= 0 ==>
        colorWheel == old(colorWheel) && colorWheelCanvas == old(colorWheelCanvas) &&
        currentColor == old(currentColor) && currentColorCanvas == old(currentColorCanvas) &&
        (renderer != null ==> renderer.Samples == old(renderer.Samples))
      ensures MinInt(measuredWidth, measuredHeight) > 0 ==>
        colorWheel == Some(MinInt(measuredWidth, measuredHeight)) && currentColor == colorWheel &&
        colorWheelCanvas != null && currentColorCanvas != null && WheelDrawn(p)
      ensures MinInt(measuredWidth, measuredHeight) > 0 && old(colorWheel) != colorWheel ==>
        fresh(colorWheelCanvas) && colorWheelCanvas.width == MinInt(measuredWidth, measuredHeight)
      ensures MinInt(measuredWidth, measuredHeight) > 0 && renderer != null ==> |renderer.Samples| >= density
    {
      var width := MinInt(measuredWidth, measuredHeight);
      if width <= 0 {
        return;
      }
      CreateBitmaps(width);
      DrawColorWheel(p);
      if renderer != null {
        var o := renderer.renderOption;
        WheelSamplesLength(p, renderer.style, o, CenterX(o, colorWheelCanvas), CenterY(o, colorWheelCanvas), RingCount(o));
      }
    }

    /** The bitmap step of the intended `updateColorWheel`: a bitmap and canvas of side `width` wherever the side differs. */
    method CreateBitmaps(width: int)
      requires Valid() && width > 0
      modifies this`colorWheel, this`colorWheelCanvas, this`currentColor, this`currentColorCanvas, this`Repr
      ensures Valid() && fresh(Repr - old(Repr))
      ensures colorWheel == Some(width) && currentColor == Some(width)
      ensures colorWheelCanvas != null && currentColorCanvas != null
      ensures old(colorWheel) != Some(width) ==> fresh(colorWheelCanvas) && colorWheelCanvas.width == width
      ensures old(colorWheel) == Some(width) ==> colorWheelCanvas == old(colorWheelCanvas)
    {
      if colorWheel != Some(width) {
        colorWheel := Some(width);
        var canvas := new Canvas(width, width);
        colorWheelCanvas := canvas;
        Repr := Repr + {canvas};
      }
      if currentColor != Some(width) {
        currentColor := Some(width);
        var canvas := new Canvas(width, width);
        currentColorCanvas := canvas;
        Repr := Repr + {canvas};
      }
    }

    /** `setColor(color, updateText)`: `setInitialColor`, then the wheel is redrawn. */
    method SetColor(p: Platform, color: Bits32) returns (r: Result<()>)
      requires Valid() && CircleValid()
      modifies this`alphaValue, this`lightness, this`allColors, this`initialColor, this`currentColorCircle,
               this`colorWheel, this`colorWheelCanvas, this`currentColor, this`currentColorCanvas,
               this`Repr, Repr - {this}
      ensures Valid() && CircleValid() && fresh(Repr - old(Repr))
      ensures alphaValue == IntAlpha(color) && lightness == Lightness(p, color)
      ensures r.Ok? <==> 0 <= colorSelection < |old(allColors)|
      ensures r.Ok? ==> allColors == old(allColors)[colorSelection := Some(color)] && initialColor == color
      ensures r.Ok? ==> currentColorCircle == old(CircleAt(NearestByColor(p, color)))
      ensures r.Err? ==> r.error.IndexOutOfBounds? && allColors == old(allColors) &&
                         initialColor == old(initialColor) && currentColorCircle == old(currentColorCircle)
      ensures r.Ok? && MinInt(measuredWidth, measuredHeight) > 0 ==> WheelDrawn(p)
    {
      r := SetInitialColor(p, color);
      if r.Err? {
        return;
      }
      UpdateColorWheel(p);
    }

    /**
     * Assigning `selectedColor`: nothing while any slot is empty; otherwise the
     * selection moves to `value` (an index outside the slots throws) and that slot's
     * colour is set.
     */
    method SetSelectedColor(p: Platform, value: int) returns (r: Result<()>)
      requires Valid() && CircleValid()
      modifies this`colorSelection, this`alphaValue, this`lightness, this`allColors, this`initialColor,
               this`currentColorCircle, this`colorWheel, this`colorWheelCanvas, this`currentColor,
               this`currentColorCanvas, this`Repr, Repr - {this}
      ensures Valid() && CircleValid() && fresh(Repr - old(Repr))
      ensures (exists i :: 0 <= i < |old(allColors)| && old(allColors)[i].None?) ==>
        r.Ok? && colorSelection == old(colorSelection) && allColors == old(allColors) &&
        initialColor == old(initialColor) && lightness == old(lightness) && alphaValue == old(alphaValue)
      ensures (forall i :: 0 <= i < |old(allColors)| ==> old(allColors)[i].Some?) ==>
        colorSelection == value && (r.Ok? <==> 0 <= value < |old(allColors)|) &&
        (r.Ok? ==> initialColor == old(allColors)[value].value && allColors == old(allColors)) &&
        (r.Err? ==> r.error.IndexOutOfBounds? && allColors == old(allColors) && initialColor == old(initialColor) &&
                    lightness == old(lightness) && alphaValue == old(alphaValue))
      ensures (forall i :: 0 <= i < |old(allColors)| ==> old(allColors)[i].Some?) && 0 <= value < |old(allColors)| ==>
        var c := old(allColors)[value].value;
        alphaValue == IntAlpha(c) && lightness == Lightness(p, c) &&
        currentColorCircle == old(CircleAt(NearestByColor(p, c)))
    {
      if exists i :: 0 <= i < |allColors| && allColors[i].None? {
        return Ok(());
      }
      colorSelection := value;
      if !(0 <= value < |allColors|) {
        return Err(IndexOutOfBounds(SLOTS));
      }
      var color := allColors[value].value;
      r := SetColor(p, color);
    }

    /**
     * `setLightness(l)`: the initial colour becomes the selected circle's hue and
     * saturation at lightness `l` (black when there is none) with the view's alpha;
     * change listeners hear of it if it differs from the colour selected before.
     */
    method SetLightness(p: Platform, newLightness: real)
      requires Valid() && CircleValid()
      modifies this`lightness, this`initialColor, this`calls,
               this`colorWheel, this`colorWheelCanvas, this`currentColor, this`currentColorCanvas,
               this`Repr, Repr - {this}
      ensures Valid() && fresh(Repr - old(Repr))
      ensures lightness == newLightness
      ensures initialColor == HsvToColorWithAlpha(p, FloatAlpha(alphaValue), old(CircleHsv(newLightness)))
      ensures calls == old(calls) +
        if old(SelectedColor(p)) == initialColor then [] else Notify(ColorChanged, colorChangedListeners, initialColor)
      ensures MinInt(measuredWidth, measuredHeight) > 0 ==> WheelDrawn(p)
    {
      LightnessStep(p, newLightness);
      UpdateColorWheel(p);
    }

    /** The part of `setLightness` before the wheel is redrawn. */
    method LightnessStep(p: Platform, newLightness: real)
      requires CircleValid()
      modifies this`lightness, this`initialColor, this`calls
      ensures lightness == newLightness
      ensures initialColor == HsvToColorWithAlpha(p, FloatAlpha(alphaValue), old(CircleHsv(newLightness)))
      ensures calls == old(calls) +
        if old(SelectedColor(p)) == initialColor then [] else Notify(ColorChanged, colorChangedListeners, initialColor)
    {
      var lastSelectedColor := SelectedColor(p);
      lightness := newLightness;
      Recolor(p, lastSelectedColor, FloatAlpha(alphaValue));
    }

    /**
     * `setAlphaValue(a)`: the initial colour becomes the selected circle's hue and
     * saturation at the view's lightness (black when there is none) with alpha byte
     * `a.alpha`; change listeners hear of it if it differs from the colour selected before.
     */
    method SetAlphaValue(p: Platform, alpha: real)
      requires Valid() && CircleValid()
      modifies this`alphaValue, this`initialColor, this`calls,
               this`colorWheel, this`colorWheelCanvas, this`currentColor, this`currentColorCanvas,
               this`Repr, Repr - {this}
      ensures Valid() && fresh(Repr - old(Repr))
      ensures alphaValue == alpha
      ensures initialColor == HsvToColorWithAlpha(p, FloatAlpha(alpha), old(CircleHsv(lightness)))
      ensures calls == old(calls) +
        if old(SelectedColor(p)) == initialColor then [] else Notify(ColorChanged, colorChangedListeners, initialColor)
      ensures MinInt(measuredWidth, measuredHeight) > 0 ==> WheelDrawn(p)
    {
      AlphaStep(p, alpha);
      UpdateColorWheel(p);
    }

    /** The part of `setAlphaValue` before the wheel is redrawn. */
    method AlphaStep(p: Platform, alpha: real)
      requires CircleValid()
      modifies this`alphaValue, this`initialColor, this`calls
      ensures alphaValue == alpha
      ensures initialColor == HsvToColorWithAlpha(p, FloatAlpha(alpha), old(CircleHsv(lightness)))
      ensures calls == old(calls) +
        if old(SelectedColor(p)) == initialColor then [] else Notify(ColorChanged, colorChangedListeners, initialColor)
    {
      var lastSelectedColor := SelectedColor(p);
      alphaValue := alpha;
      Recolor(p, lastSelectedColor, FloatAlpha(alpha));
    }

    /**
     * The shared middle of `setLightness` and `setAlphaValue`: the initial colour made
     * from the selected circle's HSV at the current lightness and the alpha byte, and
     * change listeners told when it differs from `lastSelectedColor`.
     */
    method Recolor(p: Platform, lastSelectedColor: Bits32, alphaByte: int)
      requires CircleValid()
      modifies this`initialColor, this`calls
      ensures initialColor == HsvToColorWithAlpha(p, alphaByte, CircleHsv(lightness))
      ensures calls == old(calls) +
        if lastSelectedColor == initialColor then [] else Notify(ColorChanged, colorChangedListeners, initialColor)
    {
      var hsv := CircleHsv(lightness);
      initialColor := HsvToColorWithAlpha(p, alphaByte, hsv);
      CallOnColorChangedListeners(lastSelectedColor, initialColor);
    }

    /**
     * What DOWN and MOVE leave behind: the circle nearest the touch selected, its colour
     * through `selectedColor` made the initial colour, and change listeners told if it
     * differs from the colour selected before.
     */
    twostate predicate Reselected(p: Platform, x: real, y: real)
      requires old(Valid())
      reads this`currentColorCircle, this`initialColor, this`calls, this`colorChangedListeners
    {
      currentColorCircle == old(CircleAt(NearestByPosition(x, y))) &&
      initialColor == old(PickedByPosition(p, x, y)) &&
      calls == old(calls) +
        if old(SelectedColor(p)) == initialColor then [] else Notify(ColorChanged, colorChangedListeners, initialColor)
    }

    /**
     * DOWN or MOVE: the nearest circle by position is selected, change listeners hear of
     * the new colour if it differs, the colour becomes the initial colour and the wheel is redrawn.
     */
    method TouchMove(p: Platform, x: real, y: real)
      requires Valid()
      modifies this`currentColorCircle, this`initialColor, this`calls,
               this`colorWheel, this`colorWheelCanvas, this`currentColor, this`currentColorCanvas,
               this`Repr, Repr - {this}
      ensures Valid() && CircleValid() && fresh(Repr - old(Repr))
      ensures Reselected(p, x, y)
      ensures MinInt(measuredWidth, measuredHeight) > 0 ==> WheelDrawn(p)
    {
      Reselect(p, x, y);
      UpdateColorWheel(p);
    }

    /** The selection part of DOWN and MOVE, before the wheel is redrawn. */
    method Reselect(p: Platform, x: real, y: real)
      requires Valid()
      modifies this`currentColorCircle, this`initialColor, this`calls
      ensures CircleValid()
      ensures Reselected(p, x, y)
    {
      var lastSelectedColor := SelectedColor(p);
      currentColorCircle := FindNearestByPosition(x, y);
      var selectedColor := SelectedColor(p);
      CallOnColorChangedListeners(lastSelectedColor, selectedColor);
      initialColor := selectedColor;
    }

    /** UP: every selection listener is called once with the selected colour. */
    method TouchUp(p: Platform)
      modifies this`calls
      ensures calls == old(calls) + Notify(ColorSelected, listeners, SelectedColor(p))
    {
      var selectedColor := SelectedColor(p);
      Dispatch(ColorSelected, listeners, selectedColor);
    }

    /** `onTouchEvent(event)`: DOWN and MOVE re-select, UP reports the selection, anything else is ignored; always handled. */
    method OnTouchEvent(p: Platform, action: int, x: real, y: real) returns (handled: bool)
      requires Valid() && CircleValid()
      modifies this`currentColorCircle, this`initialColor, this`calls,
               this`colorWheel, this`colorWheelCanvas, this`currentColor, this`currentColorCanvas,
               this`Repr, Repr - {this}
      ensures Valid() && CircleValid() && handled
      ensures action == ACTION_DOWN || action == ACTION_MOVE ==> Reselected(p, x, y)
      ensures action == ACTION_UP ==>
        calls == old(calls) + Notify(ColorSelected, listeners, old(SelectedColor(p))) &&
        currentColorCircle == old(currentColorCircle) && initialColor == old(initialColor)
      ensures action != ACTION_DOWN && action != ACTION_MOVE && action != ACTION_UP ==>
        calls == old(calls) && currentColorCircle == old(currentColorCircle) && initialColor == old(initialColor)
    {
      handled := true;
      if action == ACTION_DOWN || action == ACTION_MOVE {
        TouchMove(p, x, y);
        return;
      }
      if action == ACTION_UP {
        TouchUp(p);
      }
    }
  }

  /**
   * As written, a laid-out view never gets a wheel canvas: `updateColorWheel` replaces
   * a bitmap only inside `colorWheel?.let` and `colorWheel` starts null, so the
   * renderer returns early, its list stays empty and a touch anywhere finds no circle.
   */
  method AsWrittenWheelStaysEmpty(p: Platform, side: int, x: real, y: real) returns (v: ColorPickerView, near: ColorCircle?)
    ensures v.colorWheelCanvas == null && v.renderer != null && v.renderer.Samples == []
    ensures near == null
  {
    v := new ColorPickerView(p, None, None, None);
    v.SetMeasuredDimension(side, side);
    v.UpdateColorWheelAsWritten(p);
    near := v.FindNearestByPosition(x, y);
  }

  /**
   * With the intended `updateColorWheel`, any positive size gives the view a canvas and
   * at least one sample per ring, and a touch on the first sample finds a circle.
   */
  method CorrectedWheelIsFilled(p: Platform, side: int) returns (v: ColorPickerView, near: ColorCircle?)
    requires side > 0
    ensures v.colorWheelCanvas != null && v.renderer != null && |v.renderer.Samples| >= v.density >= 2
    ensures near != null
  {
    v := new ColorPickerView(p, None, None, None);
    v.SetMeasuredDimension(side, side);
    v.UpdateColorWheel(p);
    var first := v.renderer.circleList[0];
    assert first.View() == v.renderer.Samples[0];
    ExactHitWins(v.renderer.Samples, first.x, first.y, 0);
    near := v.FindNearestByPosition(first.x, first.y);
  }
}
