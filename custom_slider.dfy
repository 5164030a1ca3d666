/**
 * The legacy `com.flask` `AbsCustomSlider`: a value in [0, 1] set from the
 * touch position along the bar, horizontal or vertical, reported to the
 * subclass hook on every touch and to the external listener on release, and
 * the handle position `onDraw` derives from it. The bar is created once, by
 * the first `updateBar` after a size change, inset by the handle radius on
 * both ends.
 */
module CustomSlider {
  import opened Wrappers
  import opened Numerics

  const ACTION_DOWN: int := 0
  const ACTION_UP: int := 1
  const ACTION_MOVE: int := 2

  /** What `Bitmap.createBitmap` throws for an empty bitmap. */
  const EMPTY_BITMAP: string := "width and height must be > 0"

  /** A call the slider makes: the subclass's `onValueChanged` hook or the external listener. */
  datatype SliderCall = ValueChanged(value: real) | ListenerCalled(value: real)

  /**
   * The value a touch asks for before the clamp: the share of the bar left of the touch,
   * or, in vertical orientation, one minus the share above it.
   */
  function TouchValue(vertical: bool, x: real, y: real, barOffsetX: int, barWidth: int): real
    requires barWidth >= 1
  {
    if vertical then 1.0 - (y - barOffsetX as real) / barWidth as real
    else (x - barOffsetX as real) / barWidth as real
  }

  /** `0f.coerceAtLeast(value.coerceAtMost(1f))`. */
  function ClampUnit(v: real): (r: real)
    ensures 0.0 <= r <= 1.0
    ensures 0.0 <= v <= 1.0 ==> r == v
    ensures v < 0.0 ==> r == 0.0
    ensures v > 1.0 ==> r == 1.0
  {
    MaxReal(0.0, if v <= 1.0 then v else 1.0)
  }

  /** A horizontal slider's value grows with `x`, a vertical one's shrinks with `y`; the bar's ends give 0 and 1. */
  lemma TouchValueMonotone(x1: real, x2: real, y: real, barOffsetX: int, barWidth: int)
    requires barWidth >= 1 && x1 <= x2
    ensures TouchValue(false, x1, y, barOffsetX, barWidth) <= TouchValue(false, x2, y, barOffsetX, barWidth)
    ensures TouchValue(true, y, x1, barOffsetX, barWidth) >= TouchValue(true, y, x2, barOffsetX, barWidth)
    ensures TouchValue(false, barOffsetX as real, y, barOffsetX, barWidth) == 0.0
    ensures TouchValue(false, (barOffsetX + barWidth) as real, y, barOffsetX, barWidth) == 1.0
  {
    var w := barWidth as real;
    DivideMonotone(x1 - barOffsetX as real, x2 - barOffsetX as real, w);
  }

  lemma DivideMonotone(a: real, b: real, w: real)
    requires a <= b && w > 0.0
    ensures a / w <= b / w
  {
    assert b / w - a / w == (b - a) / w;
  }

  /** `handleRadius + value * (width - handleRadius * 2)`: where `onDraw` puts the handle. */
  function HandleX(handleRadius: int, width: int, value: real): real {
    handleRadius as real + value * (width - handleRadius * 2) as real
  }

  /** For a value in [0, 1], the handle stays within a handle radius of both ends. */
  lemma HandleWithinBar(handleRadius: int, width: int, value: real)
    requires 0.0 <= value <= 1.0 && width >= handleRadius * 2
    ensures handleRadius as real <= HandleX(handleRadius, width, value) <= (width - handleRadius) as real
  {
    var span := (width - handleRadius * 2) as real;
    assert 0.0 <= value * span <= span by {
      assert span - value * span == (1.0 - value) * span;
    }
  }

  /**
   * With the bar as `updateBar` makes it, a touch on the bar puts the handle under the
   * finger: at `x` for a horizontal slider, and at `y` once the vertical slider's
   * canvas is turned back (`width - x`).
   */
  lemma HandleFollowsTouch(handleRadius: int, width: int, x: real, y: real)
    requires width - handleRadius * 2 >= 1
    requires handleRadius as real <= x <= (width - handleRadius) as real
    requires handleRadius as real <= y <= (width - handleRadius) as real
    ensures var v := ClampUnit(TouchValue(false, x, y, handleRadius, width - handleRadius * 2));
      HandleX(handleRadius, width, v) == x
    ensures var v := ClampUnit(TouchValue(true, x, y, handleRadius, width - handleRadius * 2));
      width as real - HandleX(handleRadius, width, v) == y
  {
    var w := (width - handleRadius * 2) as real;
    var h := handleRadius as real;
    UnitShare(x - h, w);
    UnitShare(y - h, w);
    assert HandleX(handleRadius, width, (x - h) / w) == h + (x - h) / w * w;
    assert HandleX(handleRadius, width, 1.0 - (y - h) / w) == h + (1.0 - (y - h) / w) * w;
  }

  lemma UnitShare(d: real, w: real)
    requires w > 0.0 && 0.0 <= d <= w
    ensures 0.0 <= d / w <= 1.0 && d / w * w == d
  {
    DivideMonotone(d, w, w);
    DivideMonotone(0.0, d, w);
  }

  class AbsCustomSlider {
    var value: real
    var barOffsetX: int
    var handleRadius: int
    var barHeight: int
    /** The width of the `bar` bitmap, when there is one. */
    var barWidth: Option<int>
    /** The size of the whole-view `bitmap`, when there is one. */
    var bitmapSize: Option<(int, int)>
    var hasListener: bool
    const inVerticalOrientation: bool
    var calls: seq<SliderCall>

    ghost predicate Valid()
      reads this
    {
      0.0 <= value <= 1.0 && (barWidth.Some? ==> barWidth.value >= 1) &&
      (bitmapSize.Some? ==> bitmapSize.value.0 > 0 && bitmapSize.value.1 > 0)
    }

    /** A new slider: value 1, handle radius 20, bar height 5, no bar and no bitmap yet. */
    constructor (vertical: bool, hasListener: bool)
      ensures Valid() && value == 1.0 && barOffsetX == 0 && handleRadius == 20 && barHeight == 5
      ensures barWidth.None? && bitmapSize.None? && calls == []
      ensures inVerticalOrientation == vertical && this.hasListener == hasListener
    {
      value := 1.0;
      barOffsetX := 0;
      handleRadius := 20;
      barHeight := 5;
      barWidth := None;
      bitmapSize := None;
      this.hasListener := hasListener;
      inVerticalOrientation := vertical;
      calls := [];
    }

    /**
     * `updateBar()` after a size change: the handle radius and bar height are read from the
     * resources and the bar is inset by the handle radius; the bitmaps are created only if
     * there is no bar yet, so a bar keeps the width it was first created with.
     */
    method UpdateBar(radiusDimension: int, heightDimension: int, viewWidth: int, viewHeight: int)
      returns (r: Result<()>)
      requires Valid()
      modifies this`handleRadius, this`barHeight, this`barOffsetX, this`barWidth, this`bitmapSize
      ensures Valid()
      ensures handleRadius == radiusDimension && barHeight == heightDimension && barOffsetX == radiusDimension
      ensures old(barWidth).Some? ==> barWidth == old(barWidth) && bitmapSize == old(bitmapSize) && r.Ok?
      ensures old(barWidth).None? ==>
                var w := if inVerticalOrientation then viewHeight else viewWidth;
                var h := if inVerticalOrientation then viewWidth else viewHeight;
                (r.Ok? <==> w - radiusDimension * 2 > 0 && heightDimension > 0 && w > 0 && h > 0) &&
                (r.Err? ==> r.error == IllegalArgument(EMPTY_BITMAP)) &&
                (w - radiusDimension * 2 > 0 && heightDimension > 0 ==> barWidth == Some(w - radiusDimension * 2)) &&
                (r.Ok? ==> bitmapSize.Some? && bitmapSize.value == (w, h))
    {
      handleRadius := radiusDimension;
      barHeight := heightDimension;
      barOffsetX := handleRadius;
      r := Ok(());
      if barWidth.None? {
        r := CreateBitmaps(viewWidth, viewHeight);
      }
    }

    /** `createBitmaps()`: the bar, then the view-sized bitmap if its size differs. */
    method CreateBitmaps(viewWidth: int, viewHeight: int) returns (r: Result<()>)
      requires Valid()
      modifies this`barWidth, this`bitmapSize
      ensures Valid()
      ensures var w := if inVerticalOrientation then viewHeight else viewWidth;
        var h := if inVerticalOrientation then viewWidth else viewHeight;
        (r.Ok? <==> w - barOffsetX * 2 > 0 && barHeight > 0 && w > 0 && h > 0) &&
        (r.Err? ==> r.error == IllegalArgument(EMPTY_BITMAP)) &&
        (w - barOffsetX * 2 > 0 && barHeight > 0 ==> barWidth == Some(w - barOffsetX * 2)) &&
        (!(w - barOffsetX * 2 > 0 && barHeight > 0) ==> barWidth == old(barWidth)) &&
        (r.Ok? ==> bitmapSize == Some((w, h)))
    {
      var w, h := viewWidth, viewHeight;
      if inVerticalOrientation {
        w, h := viewHeight, viewWidth;
      }
      if w - barOffsetX * 2 <= 0 || barHeight <= 0 {
        return Err(IllegalArgument(EMPTY_BITMAP));
      }
      barWidth := Some(w - barOffsetX * 2);
      if bitmapSize != Some((w, h)) {
        if w <= 0 || h <= 0 {
          return Err(IllegalArgument(EMPTY_BITMAP));
        }
        bitmapSize := Some((w, h));
      }
      r := Ok(());
    }

    /**
     * `onTouchEvent(event)`: a press or move on a slider with a bar sets the clamped touch
     * value and reports it to the hook; a release reports the current value to the hook and
     * then to the listener; every event is consumed.
     */
    method OnTouchEvent(action: int, x: real, y: real) returns (handled: bool)
      requires Valid()
      modifies this`value, this`calls
      ensures Valid() && handled
      ensures (action == ACTION_DOWN || action == ACTION_MOVE) && barWidth.Some? ==>
                value == ClampUnit(TouchValue(inVerticalOrientation, x, y, barOffsetX, barWidth.value)) &&
                calls == old(calls) + [ValueChanged(value)]
      ensures (action == ACTION_DOWN || action == ACTION_MOVE) && barWidth.None? ==>
                value == old(value) && calls == old(calls)
      ensures action == ACTION_UP ==>
                value == old(value) &&
                calls == old(calls) + [ValueChanged(value)] + (if hasListener then [ListenerCalled(value)] else [])
      ensures action != ACTION_DOWN && action != ACTION_MOVE && action != ACTION_UP ==>
                value == old(value) && calls == old(calls)
    {
      if action == ACTION_DOWN || action == ACTION_MOVE {
        if barWidth.Some? {
          value := TouchValue(inVerticalOrientation, x, y, barOffsetX, barWidth.value);
          value := ClampUnit(value);
          calls := calls + [ValueChanged(value)];
        }
      } else if action == ACTION_UP {
        calls := calls + [ValueChanged(value)];
        if hasListener {
          calls := calls + [ListenerCalled(value)];
        }
      }
      handled := true;
    }
  }
}
