/**
 * `ColorPickerState`, the immutable state of the Compose picker: a data class
 * whose `init` block checks alpha, lightness and density. A data class `copy`
 * runs the same constructor, so every update either yields a state that passes
 * the checks or throws.
 */
module PickerState {
  import opened Wrappers
  import opened ComposeColors

  /** `ColorPickerState.WheelType`: exactly two wheel types. */
  datatype WheelType = FLOWER | CIRCLE

  /** The enum's `values()`, in declaration order. */
  const WHEEL_TYPES: seq<WheelType> := [FLOWER, CIRCLE]

  /** The enum constant's name. */
  function Name(t: WheelType): string {
    match t
    case FLOWER => "FLOWER"
    case CIRCLE => "CIRCLE"
  }

  /** The JVM's `valueOf` message: the enum's canonical name, then the name asked for. */
  const NO_CONSTANT: string := "No enum constant co.csadev.colorpicker.state.ColorPickerState.WheelType."

  /** `WheelType.valueOf(name)`: an unknown name throws. */
  function ValueOf(name: string): (r: Result<WheelType>)
    ensures r.Ok? <==> name in {"FLOWER", "CIRCLE"}
    ensures r.Ok? ==> Name(r.value) == name
    ensures r.Err? ==> r.error == IllegalArgument(NO_CONSTANT + name)
  {
    if name == "FLOWER" then Ok(FLOWER)
    else if name == "CIRCLE" then Ok(CIRCLE)
    else Err(IllegalArgument(NO_CONSTANT + name))
  }

  /** Every wheel type is listed once by `values()`, and `valueOf` finds it by its name. */
  lemma WheelTypesEnumerated(t: WheelType)
    ensures |WHEEL_TYPES| == 2 && t in WHEEL_TYPES
    ensures ValueOf(Name(t)) == Ok(t)
  {
    match t
    case FLOWER => assert WHEEL_TYPES[0] == t;
    case CIRCLE => assert WHEEL_TYPES[1] == t;
  }

  datatype State = State(
    selectedColor: Color,
    alpha: real,
    lightness: real,
    colors: seq<Color>,
    wheelType: WheelType,
    density: int)

  /** The three `require`s of the `init` block. */
  predicate ValidState(s: State) {
    0.0 <= s.alpha <= 1.0 && 0.0 <= s.lightness <= 1.0 && s.density >= 2
  }

  /**
   * `ColorPickerState(...)`, and so also `copy(...)`: alpha is checked first, then
   * lightness, then density; the first failed check throws with its message.
   */
  function NewState(selectedColor: Color, alpha: real, lightness: real, colors: seq<Color>,
                    wheelType: WheelType, density: int): (r: Result<State>)
    ensures r.Ok? <==> ValidState(State(selectedColor, alpha, lightness, colors, wheelType, density))
    ensures r.Ok? ==> r.value == State(selectedColor, alpha, lightness, colors, wheelType, density)
    ensures !(0.0 <= alpha <= 1.0) ==> r == Err(IllegalArgument("Alpha must be between 0 and 1"))
    ensures 0.0 <= alpha <= 1.0 && !(0.0 <= lightness <= 1.0) ==>
      r == Err(IllegalArgument("Lightness must be between 0 and 1"))
    ensures 0.0 <= alpha <= 1.0 && 0.0 <= lightness <= 1.0 && density < 2 ==>
      r == Err(IllegalArgument("Density must be at least 2"))
  {
    if !(0.0 <= alpha <= 1.0) then Err(IllegalArgument("Alpha must be between 0 and 1"))
    else if !(0.0 <= lightness <= 1.0) then Err(IllegalArgument("Lightness must be between 0 and 1"))
    else if density < 2 then Err(IllegalArgument("Density must be at least 2"))
    else Ok(State(selectedColor, alpha, lightness, colors, wheelType, density))
  }

  /** `ColorPickerState(selectedColor)` with every other parameter at its default. */
  function DefaultState(selectedColor: Color): (s: State)
    ensures ValidState(s)
    ensures s.alpha == 1.0 && s.lightness == 1.0 && s.colors == [] && s.wheelType == FLOWER && s.density == 8
    ensures NewState(selectedColor, 1.0, 1.0, [], FLOWER, 8) == Ok(s)
  {
    State(selectedColor, 1.0, 1.0, [], FLOWER, 8)
  }

  /**
   * A `copy` of a state with some fields replaced, as `NewState` of the resulting
   * fields: whatever is replaced, the outcome is a valid state or a thrown check.
   */
  function Copy(s: State, alpha: real, lightness: real, density: int): (r: Result<State>)
    ensures r.Ok? ==> ValidState(r.value)
    ensures r.Ok? ==>
              r.value.selectedColor == s.selectedColor && r.value.colors == s.colors &&
              r.value.wheelType == s.wheelType
    ensures r.Ok? ==> r.value.alpha == alpha && r.value.lightness == lightness && r.value.density == density
    ensures r.Ok? <==> 0.0 <= alpha <= 1.0 && 0.0 <= lightness <= 1.0 && density >= 2
  {
    NewState(s.selectedColor, alpha, lightness, s.colors, s.wheelType, density)
  }

  /** Density 2 is the smallest accepted; 1 is rejected whatever the other fields are. */
  lemma DensityBoundary(c: Color)
    ensures NewState(c, 1.0, 1.0, [], FLOWER, 2).Ok?
    ensures forall a, l :: NewState(c, a, l, [], FLOWER, 1).Err?
  {
  }

  /**
   * `rememberColorPickerState(...)`: the state built from the initial values (white,
   * alpha 1, lightness 1, FLOWER and density 8 unless given), with no preset colours.
   */
  function RememberState(initialColor: Color, initialAlpha: real, initialLightness: real,
                         wheelType: WheelType, density: int): (r: Result<State>)
    ensures r.Ok? <==> 0.0 <= initialAlpha <= 1.0 && 0.0 <= initialLightness <= 1.0 && density >= 2
    ensures r.Ok? ==> r.value.colors == [] && r.value.selectedColor == initialColor
  {
    NewState(initialColor, initialAlpha, initialLightness, [], wheelType, density)
  }

  /** With every argument at its default, remembering gives the default state for white. */
  lemma RememberDefaults()
    ensures RememberState(WHITE, 1.0, 1.0, FLOWER, 8) == Ok(DefaultState(WHITE))
  {
  }
}
