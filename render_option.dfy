/**
 * `ColorWheelRenderOption`: the settings a renderer reads on every draw.
 * Its constructor checks density, alpha and lightness; its fields are `var`s
 * that later assignments change without any check, which is why the option
 * is a plain datatype here and only `NewRenderOption` validates.
 *
 * The renderers also read an optional centre, which the option's declared
 * fields do not include; it is modelled as the two `Option` fields below,
 * absent unless a caller sets them.
 */
module RenderOptions {
  import opened Wrappers
  import opened Graphics

  datatype RenderOption = RenderOption(
    density: int,
    maxRadius: real,
    cSize: real,
    strokeWidth: real,
    alpha: real,
    lightness: real,
    targetCanvas: Canvas?,
    centerX: Option<real>,
    centerY: Option<real>)

  /** The three `require`s of the constructor. */
  predicate ValidOption(o: RenderOption) {
    o.density >= 2 && 0.0 <= o.alpha <= 1.0 && 0.0 <= o.lightness <= 1.0
  }

  /** `ColorWheelRenderOption(...)`: the first failed `require` throws with its message. */
  function NewRenderOption(density: int, maxRadius: real, cSize: real, strokeWidth: real,
                           alpha: real, lightness: real, targetCanvas: Canvas?): (r: Result<RenderOption>)
    ensures r.Ok? <==> density >= 2 && 0.0 <= alpha <= 1.0 && 0.0 <= lightness <= 1.0
    ensures r.Ok? ==> ValidOption(r.value)
    ensures r.Ok? ==> r.value == RenderOption(density, maxRadius, cSize, strokeWidth, alpha, lightness,
                                               targetCanvas, None, None)
    ensures density < 2 ==> r == Err(IllegalArgument("Density must be at least 2"))
    ensures density >= 2 && !(0.0 <= alpha <= 1.0) ==> r == Err(IllegalArgument("Alpha must be between 0 and 1"))
    ensures density >= 2 && 0.0 <= alpha <= 1.0 && !(0.0 <= lightness <= 1.0) ==>
              r == Err(IllegalArgument("Lightness must be between 0 and 1"))
    ensures r.Err? ==> r.error.IllegalArgument?
  {
    if density < 2 then Err(IllegalArgument("Density must be at least 2"))
    else if !(0.0 <= alpha <= 1.0) then Err(IllegalArgument("Alpha must be between 0 and 1"))
    else if !(0.0 <= lightness <= 1.0) then Err(IllegalArgument("Lightness must be between 0 and 1"))
    else Ok(RenderOption(density, maxRadius, cSize, strokeWidth, alpha, lightness, targetCanvas, None, None))
  }

  /** `ColorWheelRenderOption()` with every default. */
  function DefaultRenderOption(): (o: RenderOption)
    ensures ValidOption(o)
    ensures NewRenderOption(8, 0.0, 0.0, 0.0, 1.0, 1.0, null) == Ok(o)
  {
    RenderOption(8, 0.0, 0.0, 0.0, 1.0, 1.0, null, None, None)
  }

  /** Assigning the `var` fields after construction runs no check: a valid option can be given density 1. */
  lemma FieldAssignmentsAreUnchecked(o: RenderOption)
    requires ValidOption(o)
    ensures !ValidOption(o.(density := 1))
    ensures NewRenderOption(1, o.maxRadius, o.cSize, o.strokeWidth, o.alpha, o.lightness, o.targetCanvas).Err?
  {
  }
}
