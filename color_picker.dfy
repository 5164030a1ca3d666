/**
 * The Compose `ColorPicker`: a remembered `ColorPickerState` cell that the
 * lightness slider, the alpha slider and the hex edit field replace with
 * validated copies, the `text` of the edit field, and the events the sliders
 * emit through the picker's event handler.
 */
module ColorPicker {
  import opened Wrappers
  import opened Android
  import opened ComposeColors
  import opened PickerState
  import opened Text

  /** `ColorPickerEvent`. */
  datatype PickerEvent =
    | ColorChanged(color: Color, alpha: real, lightness: real)
    | ColorSelected(finalColor: Color)

  /** A call of one of the picker's two optional callbacks. */
  datatype Callback = OnChanged(color: Color) | OnSelected(color: Color)

  /**
   * What `LaunchedColorPickerEventListener` makes of the emitted events: a change
   * goes to `onColorChanged` and a selection to `onColorSelected`, each only
   * when that callback was given.
   */
  function Deliver(events: seq<PickerEvent>, hasOnChanged: bool, hasOnSelected: bool): (calls: seq<Callback>)
    ensures |calls| <= |events|
    ensures !hasOnSelected ==> forall k :: 0 <= k < |calls| ==> calls[k].OnChanged?
    ensures !hasOnChanged ==> forall k :: 0 <= k < |calls| ==> calls[k].OnSelected?
    ensures hasOnChanged && hasOnSelected ==>
              |calls| == |events| && forall k :: 0 <= k < |events| ==> calls[k] == CallFor(events[k])
  {
    if events == [] then []
    else
      var e := events[|events| - 1];
      var last := match e
        case ColorChanged(c, _, _) => if hasOnChanged then [OnChanged(c)] else []
        case ColorSelected(c) => if hasOnSelected then [OnSelected(c)] else [];
      Deliver(events[..|events| - 1], hasOnChanged, hasOnSelected) + last
  }

  /** The callback call an event becomes when both callbacks are given. */
  function CallFor(e: PickerEvent): Callback {
    match e
    case ColorChanged(c, _, _) => OnChanged(c)
    case ColorSelected(c) => OnSelected(c)
  }

  /** When only changes are emitted, `onColorSelected` is never called, and every change reaches `onColorChanged`. */
  lemma {:induction false} OnlyChangesDelivered(events: seq<PickerEvent>, hasOnChanged: bool, hasOnSelected: bool)
    requires forall k :: 0 <= k < |events| ==> events[k].ColorChanged?
    ensures forall k :: 0 <= k < |Deliver(events, hasOnChanged, hasOnSelected)| ==>
              Deliver(events, hasOnChanged, hasOnSelected)[k].OnChanged?
    ensures hasOnChanged ==> |Deliver(events, hasOnChanged, hasOnSelected)| == |events|
    ensures !hasOnChanged ==> Deliver(events, hasOnChanged, hasOnSelected) == []
  {
    if events != [] {
      OnlyChangesDelivered(events[..|events| - 1], hasOnChanged, hasOnSelected);
    }
  }

  /** The state's alpha agrees with its colour's alpha byte, to within the byte's rounding. */
  predicate AlphaInStep(s: State) {
    -0.5 <= (s.selectedColor.Alpha() - s.alpha) * 255.0 <= 0.5
  }

  /**
   * `rememberColorPickerState(initialColor, initialColor.alpha, initialColor.lightness)`:
   * both fractions come from the colour itself, so the construction never throws.
   */
  function InitialState(p: Platform, initialColor: Color): (s: State)
    ensures ValidState(s) && AlphaInStep(s)
    ensures RememberState(initialColor, initialColor.Alpha(), Lightness(p, initialColor), FLOWER, 8) == Ok(s)
    ensures s.selectedColor == initialColor && s.alpha == initialColor.Alpha()
    ensures s.lightness == Lightness(p, initialColor) && s.colors == []
  {
    RememberState(initialColor, initialColor.Alpha(), Lightness(p, initialColor), FLOWER, 8).value
  }

  /**
   * The lightness slider's callback: the colour gets the new lightness, the state
   * copy takes the colour and the lightness, and a change event carries the new
   * colour, the unchanged alpha and the new lightness. A lightness outside [0, 1]
   * throws in `applyLightness`, before anything changes.
   */
  function LightnessChange(p: Platform, s: State, l: real): (r: Result<(State, PickerEvent)>)
    requires ValidState(s)
    ensures r.Ok? <==> 0.0 <= l <= 1.0
    ensures r.Err? ==> r.error == IllegalArgument("Lightness must be between 0 and 1")
    ensures r.Ok? ==> ValidState(r.value.0) && r.value.0.lightness == l
    ensures r.Ok? ==> r.value.0 == s.(selectedColor := r.value.0.selectedColor, lightness := l)
    ensures r.Ok? ==> r.value.0.selectedColor == ApplyLightness(p, s.selectedColor, l).value
    ensures r.Ok? ==> r.value.1 == ColorChanged(r.value.0.selectedColor, s.alpha, l)
  {
    match ApplyLightness(p, s.selectedColor, l)
    case Err(e) => Err(e)
    case Ok(newColor) =>
      match NewState(newColor, s.alpha, l, s.colors, s.wheelType, s.density)
      case Err(e) => Err(e)
      case Ok(next) => Ok((next, ColorChanged(newColor, next.alpha, l)))
  }

  /**
   * The alpha slider's callback: `Color.copy(alpha)` keeps the red, green and blue
   * bytes, the state copy takes the colour and the alpha, and a change event
   * carries the new colour, the new alpha and the unchanged lightness. An alpha
   * outside [0, 1] is clamped by `copy` but rejected by the state.
   */
  function AlphaChange(s: State, a: real): (r: Result<(State, PickerEvent)>)
    requires ValidState(s)
    ensures r.Ok? <==> 0.0 <= a <= 1.0
    ensures r.Err? ==> r.error == IllegalArgument("Alpha must be between 0 and 1")
    ensures r.Ok? ==> ValidState(r.value.0) && r.value.0.alpha == a
    ensures r.Ok? ==> r.value.0 == s.(selectedColor := r.value.0.selectedColor, alpha := a)
    ensures r.Ok? ==> RgbOf(r.value.0.selectedColor.argb) == RgbOf(s.selectedColor.argb)
    ensures r.Ok? ==> r.value.1 == ColorChanged(r.value.0.selectedColor, a, s.lightness)
  {
    var newColor := CopyAlpha(s.selectedColor, a);
    match NewState(newColor, a, s.lightness, s.colors, s.wheelType, s.density)
    case Err(e) => Err(e)
    case Ok(next) => Ok((next, ColorChanged(newColor, a, next.lightness)))
  }

  /**
   * The edit field's callback with a parsed colour: colour, alpha and lightness are
   * replaced together, all three taken from that colour. Nothing is emitted.
   */
  function HexChange(p: Platform, s: State, c: Color): (r: State)
    requires ValidState(s)
    ensures ValidState(r) && AlphaInStep(r)
    ensures r == s.(selectedColor := c, alpha := c.Alpha(), lightness := Lightness(p, c))
  {
    NewState(c, c.Alpha(), Lightness(p, c), s.colors, s.wheelType, s.density).value
  }

  /** Both sliders keep the alpha fraction in step with the colour's alpha byte. */
  lemma SlidersKeepAlphaInStep(p: Platform, s: State, l: real, a: real)
    requires ValidState(s) && AlphaInStep(s)
    ensures LightnessChange(p, s, l).Ok? ==> AlphaInStep(LightnessChange(p, s, l).value.0)
    ensures AlphaChange(s, a).Ok? ==> AlphaInStep(AlphaChange(s, a).value.0)
  {
    if AlphaChange(s, a).Ok? {
      CopyAlphaKeepsFraction(s.selectedColor, a);
    }
  }

  /** The two sliders touch different fields: after both, the state holds the lightness and the alpha given. */
  lemma SlidersCommuteOnFractions(p: Platform, s: State, l: real, a: real)
    requires ValidState(s) && 0.0 <= l <= 1.0 && 0.0 <= a <= 1.0
    ensures
      var s1 := LightnessChange(p, s, l).value.0;
      var s2 := AlphaChange(s, a).value.0;
      AlphaChange(s1, a).Ok? && LightnessChange(p, s2, l).Ok? &&
      AlphaChange(s1, a).value.0.alpha == a && AlphaChange(s1, a).value.0.lightness == l &&
      LightnessChange(p, s2, l).value.0.alpha == a && LightnessChange(p, s2, l).value.0.lightness == l
  {
  }

  /** The text the edit field starts from, and returns to whenever the colour changes: `#AARRGGBB` with the alpha slider, `#RRGGBB` without. */
  function InitialText(showAlpha: bool, c: Color): (t: string)
    ensures showAlpha ==> |t| == 9 && t == HexStringWithAlpha(c)
    ensures !showAlpha ==> |t| == 7 && t == HexString(c)
  {
    if showAlpha then HexStringWithAlpha(c) else HexString(c)
  }

  /** `isError`: the field's text is not empty and does not parse. */
  predicate IsError(p: Platform, text: string) {
    ParseColor(p, text).None? && text != []
  }

  /** The initial text is never flagged on a platform that reads both hash forms. */
  lemma InitialTextNotFlagged(p: Platform, showAlpha: bool, c: Color)
    requires ReadsHashForms(p)
    ensures !IsError(p, InitialText(showAlpha, c))
    ensures showAlpha ==> ParseColor(p, InitialText(showAlpha, c)) == Some(c)
  {
    if showAlpha {
      ParseHexStringWithAlpha(p, c);
    } else {
      ParseHexString(p, c);
    }
  }

  /**
   * One picker: the remembered state cell, the edit field's `text` (remembered
   * with the selected colour as its key), and the events emitted so far.
   */
  class Picker {
    var state: State
    var text: string
    var events: seq<PickerEvent>
    const showAlphaSlider: bool
    const showLightnessSlider: bool
    const showColorEdit: bool

    ghost predicate Valid()
      reads this
    {
      ValidState(state) && AlphaInStep(state) &&
      forall k :: 0 <= k < |events| ==> events[k].ColorChanged?
    }

    /**
     * `remember(color) { ... }`: when the selected colour has changed, the field's
     * text is recomputed from the new colour; otherwise it keeps what it holds.
     */
    function Retext(before: Color, after: Color, t: string): (r: string)
      ensures before != after ==> r == InitialText(showAlphaSlider, after)
      ensures before == after ==> r == t
    {
      if before == after then t else InitialText(showAlphaSlider, after)
    }

    /** `ColorPicker(initialColor, showAlphaSlider, showLightnessSlider, showColorEdit)`. */
    constructor (p: Platform, initialColor: Color, showAlphaSlider: bool, showLightnessSlider: bool,
                 showColorEdit: bool)
      ensures Valid()
      ensures state == InitialState(p, initialColor) && events == []
      ensures text == InitialText(showAlphaSlider, initialColor)
      ensures this.showAlphaSlider == showAlphaSlider && this.showLightnessSlider == showLightnessSlider
      ensures this.showColorEdit == showColorEdit
    {
      this.showAlphaSlider := showAlphaSlider;
      this.showLightnessSlider := showLightnessSlider;
      this.showColorEdit := showColorEdit;
      state := InitialState(p, initialColor);
      text := InitialText(showAlphaSlider, initialColor);
      events := [];
    }

    /** `onLightnessChange(l)`, only present while the lightness slider is shown. */
    method OnLightnessChange(p: Platform, l: real) returns (r: Result<Color>)
      requires Valid() && showLightnessSlider
      modifies this
      ensures Valid()
      ensures r.Ok? <==> LightnessChange(p, old(state), l).Ok?
      ensures r.Err? ==>
                r.error == LightnessChange(p, old(state), l).error &&
                state == old(state) && events == old(events) && text == old(text)
      ensures r.Ok? ==>
                r.value == state.selectedColor &&
                state == LightnessChange(p, old(state), l).value.0 &&
                events == old(events) + [LightnessChange(p, old(state), l).value.1] &&
                text == Retext(old(state.selectedColor), state.selectedColor, old(text))
    {
      var change := LightnessChange(p, state, l);
      if change.Err? {
        return Err(change.error);
      }
      SlidersKeepAlphaInStep(p, state, l, 0.0);
      var before := state.selectedColor;
      state := change.value.0;
      events := events + [change.value.1];
      text := Retext(before, state.selectedColor, text);
      r := Ok(state.selectedColor);
    }

    /** `onAlphaChange(a)`, only present while the alpha slider is shown. */
    method OnAlphaChange(a: real) returns (r: Result<Color>)
      requires Valid() && showAlphaSlider
      modifies this
      ensures Valid()
      ensures r.Ok? <==> AlphaChange(old(state), a).Ok?
      ensures r.Err? ==>
                r.error == AlphaChange(old(state), a).error &&
                state == old(state) && events == old(events) && text == old(text)
      ensures r.Ok? ==>
                r.value == state.selectedColor &&
                state == AlphaChange(old(state), a).value.0 &&
                events == old(events) + [AlphaChange(old(state), a).value.1] &&
                text == Retext(old(state.selectedColor), state.selectedColor, old(text))
    {
      var change := AlphaChange(state, a);
      if change.Err? {
        return Err(change.error);
      }
      CopyAlphaKeepsFraction(state.selectedColor, a);
      var before := state.selectedColor;
      state := change.value.0;
      events := events + [change.value.1];
      text := Retext(before, state.selectedColor, text);
      r := Ok(state.selectedColor);
    }

    /**
     * The edit field's `onValueChange(newText)`, only present while the field is
     * shown: the text becomes the upper-cased input, and the state changes only
     * when the input parses. Nothing is emitted.
     */
    method OnTextChange(p: Platform, newText: string)
      requires Valid() && showColorEdit
      modifies this`state, this`text
      ensures Valid() && events == old(events)
      ensures ParseColor(p, newText).None? ==> state == old(state) && text == Uppercase(newText)
      ensures ParseColor(p, newText).Some? ==>
                state == HexChange(p, old(state), ParseColor(p, newText).value) &&
                text == Retext(old(state.selectedColor), state.selectedColor, Uppercase(newText))
    {
      var before := state.selectedColor;
      text := Uppercase(newText);
      var parsed := ParseColor(p, newText);
      if parsed.Some? {
        state := HexChange(p, state, parsed.value);
        text := Retext(before, state.selectedColor, text);
      }
    }

    /** `isError` of the field as it stands. */
    predicate ShowsError(p: Platform)
      reads this`text
    {
      IsError(p, text)
    }
  }

  /**
   * An edit that parses to a new colour resets the field to that colour's hex
   * text, which is then never flagged; an edit that does not parse keeps the
   * state and flags any non-empty text whose upper-case form does not parse either.
   */
  lemma TextEditOutcome(p: Platform, s: State, showAlpha: bool, newText: string)
    requires ValidState(s) && ReadsHashForms(p)
    ensures ParseColor(p, newText).Some? && ParseColor(p, newText).value != s.selectedColor ==>
              !IsError(p, InitialText(showAlpha, HexChange(p, s, ParseColor(p, newText).value).selectedColor))
    ensures ParseColor(p, newText).None? ==>
              (IsError(p, Uppercase(newText)) <==> newText != [] && ParseColor(p, Uppercase(newText)).None?)
  {
    if ParseColor(p, newText).Some? {
      InitialTextNotFlagged(p, showAlpha, ParseColor(p, newText).value);
    }
  }

  /** A hex edit emits nothing, so whatever the edits, the events hold only slider changes and `onColorSelected` never fires. */
  lemma NeverSelects(pk: Picker, hasOnChanged: bool, hasOnSelected: bool)
    requires pk.Valid()
    ensures forall k :: 0 <= k < |Deliver(pk.events, hasOnChanged, hasOnSelected)| ==>
              !Deliver(pk.events, hasOnChanged, hasOnSelected)[k].OnSelected?
  {
    OnlyChangesDelivered(pk.events, hasOnChanged, hasOnSelected);
  }
}
