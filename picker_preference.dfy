/**
 * The legacy `com.flask` `ColorPickerPreference`: its attributes with their
 * defaults, the value it stores and persists when the change listener
 * accepts, the indicator colour (darkened while disabled), `darken`, and the
 * click that configures a `ColorPickerDialogBuilder` from the attributes.
 */
module PickerPreference {
  import opened Wrappers
  import opened Numerics
  import opened Android
  import opened DialogBuilder

  /** `max((c * factor).toInt(), 0)`: one colour byte scaled by the factor. */
  function Scale(c: int, factor: real): int {
    MaxInt(TruncToInt(c as real * factor), 0)
  }

  /** `darken(color, factor)`: the alpha byte kept, each colour byte scaled, with no upper clamp. */
  function Darken(color: Bits32, factor: real): Bits32 {
    Argb(AlphaOf(color), Scale(RedOf(color), factor), Scale(GreenOf(color), factor), Scale(BlueOf(color), factor))
  }

  /** A byte scaled by a factor in [0, 1] is the whole part of the product, within [0, c]. */
  lemma ScaledChannel(c: int, factor: real)
    requires 0 <= c < 256 && 0.0 <= factor <= 1.0
    ensures 0 <= Scale(c, factor) <= c
    ensures Scale(c, factor) as real <= c as real * factor < Scale(c, factor) as real + 1.0
  {
    var x := c as real * factor;
    MulUnitAtMost(c as real, factor, x);
    TruncOfByteRange(x, c);
    assert Scale(c, factor) == x.Floor;
  }

  /** A value between 0 and a byte truncates to its floor, which lies between 0 and that byte. */
  lemma TruncOfByteRange(x: real, c: int)
    requires 0.0 <= x <= c as real && c < 256
    ensures MaxInt(TruncToInt(x), 0) == x.Floor && 0 <= x.Floor <= c
    ensures x.Floor as real <= x < x.Floor as real + 1.0
  {
  }

  lemma MulUnitAtMost(c: real, factor: real, x: real)
    requires c >= 0.0 && 0.0 <= factor <= 1.0 && x == c * factor
    ensures 0.0 <= x <= c
  {
    assert c - x == c * (1.0 - factor);
  }

  /**
   * For a factor in [0, 1], darkening keeps the alpha byte and scales each colour byte
   * down to the whole part of its product with the factor.
   */
  lemma DarkenScalesChannels(color: Bits32, factor: real)
    requires 0.0 <= factor <= 1.0
    ensures AlphaOf(Darken(color, factor)) == AlphaOf(color)
    ensures RedOf(Darken(color, factor)) == Scale(RedOf(color), factor) <= RedOf(color)
    ensures GreenOf(Darken(color, factor)) == Scale(GreenOf(color), factor) <= GreenOf(color)
    ensures BlueOf(Darken(color, factor)) == Scale(BlueOf(color), factor) <= BlueOf(color)
  {
    ScaledChannel(RedOf(color), factor);
    ScaledChannel(GreenOf(color), factor);
    ScaledChannel(BlueOf(color), factor);
    ArgbPacks(AlphaOf(color), Scale(RedOf(color), factor), Scale(GreenOf(color), factor),
              Scale(BlueOf(color), factor));
    BytesOfPacked(AlphaOf(color), Scale(RedOf(color), factor), Scale(GreenOf(color), factor),
                  Scale(BlueOf(color), factor));
  }

  /**
   * `darken` has no upper clamp: with a factor above 1 a byte can reach 256 and its
   * carry lands in the alpha byte (red 128 of a transparent colour, doubled).
   */
  lemma DarkenCarriesIntoAlpha()
    ensures AlphaOf(0x0080_0000) == 0 && AlphaOf(Darken(0x0080_0000, 2.0)) == 1
  {
    assert RedOf(0x0080_0000) == 128 && GreenOf(0x0080_0000) == 0 && BlueOf(0x0080_0000) == 0;
    assert Scale(128, 2.0) == 256 && Scale(0, 2.0) == 0;
    ArgbCarry();
  }

  /** `Color.argb(0, 256, 0, 0)`: the ninth red bit is the lowest alpha bit. */
  lemma ArgbCarry()
    ensures Argb(0, 256, 0, 0) == TWO24
  {
    Pow2Values();
    assert IntBits(256 * TWO16) == TWO24;
    assert Or32(0, TWO24) == TWO24;
    assert Or32(TWO24, 0) == TWO24;
  }

  /** The attribute values the preference reads; a missing one is `None`. */
  datatype Attributes = Attributes(
    alphaSlider: Option<bool>,
    lightnessSlider: Option<bool>,
    border: Option<bool>,
    density: Option<int>,
    wheelType: Option<int>,
    initialColor: Option<Bits32>,
    pickerColorEdit: Option<bool>,
    pickerTitle: Option<string>,
    pickerButtonCancel: Option<string>,
    pickerButtonOk: Option<string>)

  /** `-0x1`, the default `initialColor` attribute: opaque white. */
  const DEFAULT_COLOR: Bits32 := 0xFFFF_FFFF

  class ColorPickerPreference {
    var alphaSlider: bool
    var lightSlider: bool
    var border: bool
    var selectedColor: Bits32
    /** The index given to `WheelType.indexOf`. */
    var wheelType: int
    var density: int
    var pickerColorEdit: bool
    var pickerTitle: Option<string>
    var pickerButtonCancel: Option<string>
    var pickerButtonOk: Option<string>
    var isEnabled: bool
    /** The colour of the indicator's drawable, once one is bound. */
    var indicator: Option<Bits32>
    /** The persisted `Int`, when one was written. */
    var persisted: Option<Bits32>
    /** How many times `notifyChanged` ran. */
    var notifications: nat

    /**
     * Without a styled-attribute array every field keeps its initialiser; with one, each
     * missing attribute takes its default: sliders off, border on, density 8, the first
     * wheel type, white, colour edit on, "Choose color", "cancel" and "ok".
     */
    constructor (attrs: Option<Attributes>)
      ensures isEnabled && indicator.None? && persisted.None? && notifications == 0
      ensures attrs.None? ==>
                !alphaSlider && !lightSlider && !border && selectedColor == 0 && wheelType == 0 &&
                density == 0 && !pickerColorEdit &&
                pickerTitle.None? && pickerButtonCancel.None? && pickerButtonOk.None?
      ensures attrs.Some? ==>
                var a := attrs.value;
                alphaSlider == a.alphaSlider.GetOr(false) && lightSlider == a.lightnessSlider.GetOr(false) &&
                border == a.border.GetOr(true) && density == a.density.GetOr(8) &&
                wheelType == a.wheelType.GetOr(0) && selectedColor == a.initialColor.GetOr(DEFAULT_COLOR) &&
                pickerColorEdit == a.pickerColorEdit.GetOr(true) &&
                pickerTitle == Some(a.pickerTitle.GetOr("Choose color")) &&
                pickerButtonCancel == Some(a.pickerButtonCancel.GetOr("cancel")) &&
                pickerButtonOk == Some(a.pickerButtonOk.GetOr("ok"))
    {
      alphaSlider, lightSlider, border := false, false, false;
      selectedColor, wheelType, density := 0, 0, 0;
      pickerColorEdit := false;
      pickerTitle, pickerButtonCancel, pickerButtonOk := None, None, None;
      isEnabled := true;
      indicator := None;
      persisted := None;
      notifications := 0;
      if attrs.Some? {
        var a := attrs.value;
        alphaSlider := a.alphaSlider.GetOr(false);
        lightSlider := a.lightnessSlider.GetOr(false);
        border := a.border.GetOr(true);
        density := a.density.GetOr(8);
        wheelType := a.wheelType.GetOr(0);
        selectedColor := a.initialColor.GetOr(DEFAULT_COLOR);
        pickerColorEdit := a.pickerColorEdit.GetOr(true);
        pickerTitle := Some(a.pickerTitle.GetOr("Choose color"));
        pickerButtonCancel := Some(a.pickerButtonCancel.GetOr("cancel"));
        pickerButtonOk := Some(a.pickerButtonOk.GetOr("ok"));
      }
    }

    /** The colour `onBindView` picks: the selected colour, halved while the preference is disabled. */
    function IndicatorColor(): (c: Bits32)
      reads this
      ensures !isEnabled ==> AlphaOf(c) == AlphaOf(selectedColor) && RedOf(c) == RedOf(selectedColor) / 2
      ensures !isEnabled ==> GreenOf(c) == GreenOf(selectedColor) / 2 && BlueOf(c) == BlueOf(selectedColor) / 2
    {
      if isEnabled then selectedColor
      else
        DarkenScalesChannels(selectedColor, 0.5);
        HalfChannel(RedOf(selectedColor));
        HalfChannel(GreenOf(selectedColor));
        HalfChannel(BlueOf(selectedColor));
        Darken(selectedColor, 0.5)
    }

    /**
     * `onBindView`: a drawable is made from the indicator colour only when the indicator
     * has none; an indicator that already holds one keeps it as it is.
     */
    method OnBindView()
      modifies this`indicator
      ensures old(indicator).None? ==> indicator == Some(IndicatorColor())
      ensures old(indicator).Some? ==> indicator == old(indicator)
    {
      var tmpColor := if isEnabled then selectedColor else Darken(selectedColor, 0.5);
      if indicator.None? {
        indicator := Some(tmpColor);
      }
    }

    /**
     * `setValue(value)`: when the change listener accepts, the colour is stored and
     * persisted and the change announced; otherwise nothing changes.
     */
    method SetValue(value: Bits32, accepted: bool)
      modifies this`selectedColor, this`persisted, this`notifications
      ensures accepted ==> selectedColor == value && persisted == Some(value) && notifications == old(notifications) + 1
      ensures !accepted ==>
                selectedColor == old(selectedColor) && persisted == old(persisted) && notifications == old(notifications)
    {
      if accepted {
        selectedColor := value;
        persisted := Some(value);
        notifications := notifications + 1;
      }
    }

    /**
     * `onSetInitialValue(restoreValue, defaultValue)` as written: the parameter is declared
     * `Any`, so a null default throws `NullPointerException` on entry, before anything
     * changes, and this happens even on a restore, which never reads the default.
     */
    method OnSetInitialValueAsWritten(restoreValue: bool, defaultValue: Option<Bits32>, accepted: bool)
      returns (r: Result<()>)
      modifies this`selectedColor, this`persisted, this`notifications
      ensures r.Err? <==> defaultValue.None?
      ensures r.Err? ==> r.error == NullPointer && selectedColor == old(selectedColor) &&
                         persisted == old(persisted) && notifications == old(notifications)
      ensures r.Ok? ==> var v := if restoreValue then old(persisted).GetOr(0) else defaultValue.value;
        (accepted ==> selectedColor == v && persisted == Some(v) && notifications == old(notifications) + 1) &&
        (!accepted ==> selectedColor == old(selectedColor) && persisted == old(persisted) &&
                       notifications == old(notifications))
    {
      if defaultValue.None? {
        return Err(NullPointer);
      }
      r := OnSetInitialValue(restoreValue, defaultValue, accepted);
    }

    /**
     * `onSetInitialValue` with the default declared `Any?`: a restore sets the persisted
     * value (0 when none) whatever the default is; otherwise the default is set, and only
     * a null default throws, in the cast `defaultValue as Int`.
     */
    method OnSetInitialValue(restoreValue: bool, defaultValue: Option<Bits32>, accepted: bool)
      returns (r: Result<()>)
      modifies this`selectedColor, this`persisted, this`notifications
      ensures r.Err? <==> !restoreValue && defaultValue.None?
      ensures r.Err? ==> r.error == NullPointer && selectedColor == old(selectedColor) &&
                         persisted == old(persisted) && notifications == old(notifications)
      ensures r.Ok? ==> var v := if restoreValue then old(persisted).GetOr(0) else defaultValue.value;
        (accepted ==> selectedColor == v && persisted == Some(v) && notifications == old(notifications) + 1) &&
        (!accepted ==> selectedColor == old(selectedColor) && persisted == old(persisted) &&
                       notifications == old(notifications))
    {
      if !restoreValue && defaultValue.None? {
        return Err(NullPointer);
      }
      SetValue(if restoreValue then persisted.GetOr(0) else defaultValue.value, accepted);
      r := Ok(());
    }

    /**
     * `onClick()` as written: the cancel button's listener is `null!!`, which throws
     * before the builder is finished, so no dialog is ever built.
     */
    method OnClickAsWritten() returns (r: Result<BuildPlan>)
      ensures r == Err(NullPointer)
    {
      if pickerTitle.None? {
        return Err(NullPointer);
      }
      var builder := new ColorPickerDialogBuilder();
      builder.SetInitialColor(selectedColor);
      builder.ShowBorder(border);
      builder.ShowColorEdit(pickerColorEdit);
      if pickerButtonOk.None? {
        return Err(NullPointer);
      }
      // `setNegativeButton(pickerButtonCancel!!, null!!)`: the second `!!` always throws.
      return Err(NullPointer);
    }

    /**
     * `onClick()` with no listener on the cancel button: the titles must be present, and the
     * builder is configured with the preference's colour, border, edit flag and sliders.
     */
    method OnClick() returns (r: Result<BuildPlan>)
      ensures r.Ok? <==> pickerTitle.Some? && pickerButtonOk.Some? && pickerButtonCancel.Some?
      ensures r.Err? ==> r.error == NullPointer
      ensures r.Ok? ==>
                r.value.slots == [Some(selectedColor), None, None, None, None] &&
                r.value.showBorder == border &&
                r.value.colorEdit.Some? == pickerColorEdit &&
                r.value.lightnessSliderColor.Some? == lightSlider &&
                r.value.alphaSliderColor.Some? == alphaSlider &&
                r.value.preview.None?
    {
      if pickerTitle.None? {
        return Err(NullPointer);
      }
      var builder := new ColorPickerDialogBuilder();
      builder.SetInitialColor(selectedColor);
      builder.ShowBorder(border);
      builder.ShowColorEdit(pickerColorEdit);
      if pickerButtonOk.None? || pickerButtonCancel.None? {
        return Err(NullPointer);
      }
      SelectSliders(builder, alphaSlider, lightSlider);
      var plan := builder.Build();
      r := Ok(plan);
    }
  }

  /** The slider part of `onClick`: both sliders stay on unless one of the flags is off. */
  method SelectSliders(builder: ColorPickerDialogBuilder, alphaSlider: bool, lightSlider: bool)
    requires builder.Valid() && builder.isLightnessSliderEnabled && builder.isAlphaSliderEnabled
    modifies builder`isLightnessSliderEnabled, builder`isAlphaSliderEnabled
    ensures builder.Valid()
    ensures builder.isLightnessSliderEnabled == lightSlider && builder.isAlphaSliderEnabled == alphaSlider
  {
    if !alphaSlider && !lightSlider {
      builder.NoSliders();
    } else if !alphaSlider {
      builder.LightnessSliderOnly();
    } else if !lightSlider {
      builder.AlphaSliderOnly();
    }
  }

  /** Halving a byte truncates to its integer half. */
  lemma HalfChannel(c: int)
    requires 0 <= c < 256
    ensures Scale(c, 0.5) == c / 2
  {
    var h := c / 2;
    assert c == 2 * h || c == 2 * h + 1;
    assert h as real <= c as real * 0.5 < h as real + 1.0;
  }
}
