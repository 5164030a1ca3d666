/**
 * The legacy `com.flask` `ColorPickerDialogBuilder`: the five-slot array of
 * initial colours, the slider, border, edit and preview flags with the picker
 * count, and what `build()` hands to the picker view and its widgets: the slot
 * to start on, the start colour for the sliders and the edit field, the edit
 * field's length limit and the preview swatches.
 */
module DialogBuilder {
  import opened Wrappers
  import opened Numerics
  import opened ColorExtensions

  /** The size of the `initialColor` array. */
  const SLOT_COUNT: nat := 5

  /** `Color.WHITE` as a 32-bit pattern. */
  const WHITE: Bits32 := 0xFFFF_FFFF

  /** The message `setPickerCount` throws with. */
  const PICKER_COUNT_MESSAGE: string := "Picker Can Only Support 1-5 Colors"

  /** The index of the first empty slot, or the number of slots when none is empty. */
  function FirstEmpty(slots: seq<Option<Bits32>>): (k: nat)
    ensures k <= |slots|
    ensures forall i :: 0 <= i < k ==> slots[i].Some?
    ensures k < |slots| ==> slots[k].None?
  {
    if slots == [] || slots[0].None? then 0 else 1 + FirstEmpty(slots[1..])
  }

  /** `getStartOffset(colors)`: half the length of the filled prefix, rounded down. */
  function StartOffset(slots: seq<Option<Bits32>>): nat {
    FirstEmpty(slots) / 2
  }

  /** The start slot lies inside the filled prefix, unless that prefix is empty. */
  lemma StartOffsetInPrefix(slots: seq<Option<Bits32>>)
    ensures StartOffset(slots) <= FirstEmpty(slots)
    ensures FirstEmpty(slots) > 0 ==> StartOffset(slots) < FirstEmpty(slots) && slots[StartOffset(slots)].Some?
    ensures FirstEmpty(slots) == 0 <==> slots == [] || slots[0].None?
  {
  }

  /**
   * `getStartColor(colors)`: the colour of the start slot, white when it is empty.
   * The index is out of bounds only for an array with no slots.
   */
  function StartColor(slots: seq<Option<Bits32>>): (r: Result<Bits32>)
    ensures r.Err? <==> slots == []
    ensures r.Err? ==> r.error.IndexOutOfBounds?
  {
    if slots == [] then Err(IndexOutOfBounds("Index 0 out of bounds for length 0"))
    else Ok(slots[StartOffset(slots)].GetOr(WHITE))
  }

  /** The start colour is white exactly when slot 0 is empty, or when the filled start slot holds white. */
  lemma StartColorWhite(slots: seq<Option<Bits32>>)
    requires slots != []
    ensures slots[0].None? ==> StartColor(slots) == Ok(WHITE)
    ensures slots[0].Some? ==>
              slots[StartOffset(slots)].Some? && StartColor(slots) == Ok(slots[StartOffset(slots)].value)
  {
    StartOffsetInPrefix(slots);
  }

  /**
   * The slots after `build()` has handed them to `setInitialColors(colors, offset)`: the
   * view keeps the very same array and writes the start colour, white when the start slot
   * is empty, back into it.
   */
  function WithStartFilled(slots: seq<Option<Bits32>>): (r: seq<Option<Bits32>>)
    ensures |r| == |slots|
  {
    if slots == [] then slots
    else slots[StartOffset(slots) := Some(slots[StartOffset(slots)].GetOr(WHITE))]
  }

  /**
   * The write only ever fills an empty slot 0 with white; afterwards slot 0 is filled, the
   * start colour is the colour that was written, and the preview shows at least one swatch.
   */
  lemma WithStartFilledEffect(slots: seq<Option<Bits32>>, pickerCount: int)
    requires slots != []
    ensures slots[0].None? ==> WithStartFilled(slots) == slots[0 := Some(WHITE)]
    ensures slots[0].Some? ==> WithStartFilled(slots) == slots
    ensures WithStartFilled(slots)[0].Some?
    ensures slots[0].Some? ==> StartColor(WithStartFilled(slots)) == StartColor(slots)
    ensures pickerCount >= 1 ==> |Swatches(WithStartFilled(slots), pickerCount)| >= 1
  {
    StartOffsetInPrefix(slots);
    var r := WithStartFilled(slots);
    if slots[0].Some? {
      assert slots[StartOffset(slots)].Some?;
      assert r == slots;
    }
    assert r[0].Some?;
  }

  /** `initialColors(colors)`: the first `min(|colors|, |slots|)` slots take the given colours. */
  function Seeded(slots: seq<Option<Bits32>>, colors: seq<Bits32>): (r: seq<Option<Bits32>>)
    ensures |r| == |slots|
    ensures forall i :: 0 <= i < |r| && i < |colors| ==> r[i] == Some(colors[i])
    ensures forall i :: |colors| <= i < |r| ==> r[i] == slots[i]
  {
    seq(|slots|, i requires 0 <= i < |slots| => if i < |colors| then Some(colors[i]) else slots[i])
  }

  /** Seeding twice with the same colours is seeding once, and one colour only fills slot 0. */
  lemma SeededIdempotent(slots: seq<Option<Bits32>>, colors: seq<Bits32>, c: Bits32)
    ensures Seeded(Seeded(slots, colors), colors) == Seeded(slots, colors)
    ensures slots != [] ==> Seeded(slots, [c]) == slots[0 := Some(c)]
  {
  }

  /** The preview swatches: the filled prefix, cut at `pickerCount`. */
  function Swatches(slots: seq<Option<Bits32>>, pickerCount: int): (s: seq<Bits32>)
    ensures |s| == MaxInt(0, MinInt(FirstEmpty(slots), pickerCount))
    ensures forall i :: 0 <= i < |s| ==> slots[i] == Some(s[i])
  {
    var k := MaxInt(0, MinInt(FirstEmpty(slots), pickerCount));
    seq(k, i requires 0 <= i < k => slots[i].value)
  }

  /** The preview shows at most `min(pickerCount, |slots|)` swatches and none past an empty slot. */
  lemma SwatchesBound(slots: seq<Option<Bits32>>, pickerCount: int)
    ensures |Swatches(slots, pickerCount)| <= MaxInt(0, MinInt(pickerCount, |slots|))
    ensures forall i :: 0 <= i < |slots| && slots[i].None? ==> |Swatches(slots, pickerCount)| <= i
  {
  }

  /** `getStartOffset(colors)`: the loop that returns at the first empty slot. */
  method GetStartOffset(colors: array<Option<Bits32>>) returns (start: nat)
    ensures start == StartOffset(colors[..])
  {
    start := 0;
    for i := 0 to colors.Length
      invariant forall k :: 0 <= k < i ==> colors[k].Some?
      invariant start == i / 2
    {
      if colors[i].None? {
        FirstEmptyAt(colors[..], i);
        return;
      }
      start := (i + 1) / 2;
    }
    FirstEmptyAt(colors[..], colors.Length);
  }

  /** A prefix of `k` filled slots followed by an empty slot, or the end, puts the first empty slot at `k`. */
  lemma {:induction false} FirstEmptyAt(slots: seq<Option<Bits32>>, k: nat)
    requires k <= |slots| && (k < |slots| ==> slots[k].None?)
    requires forall i :: 0 <= i < k ==> slots[i].Some?
    ensures FirstEmpty(slots) == k
  {
    if k > 0 {
      assert slots[0].Some?;
      assert forall i :: 0 <= i < k - 1 ==> slots[1..][i] == slots[i + 1];
      FirstEmptyAt(slots[1..], k - 1);
    }
  }

  /** The preview loop of `build()`: swatches until the first empty slot or `pickerCount`. */
  method PreviewSwatches(colors: seq<Option<Bits32>>, pickerCount: int) returns (swatches: seq<Bits32>)
    ensures swatches == Swatches(colors, pickerCount)
  {
    swatches := [];
    if colors == [] {
      // A lone white image is made but never added to the preview.
      return;
    }
    var i := 0;
    while i < |colors| && i < pickerCount
      invariant 0 <= i <= |colors| && i == |swatches|
      invariant forall k :: 0 <= k < i ==> colors[k] == Some(swatches[k])
      invariant i <= MaxInt(0, MinInt(FirstEmpty(colors), pickerCount))
    {
      if colors[i].None? {
        break;
      }
      swatches := swatches + [colors[i].value];
      i := i + 1;
    }
  }

  /** The colour edit field `build()` adds: its length limit and its first text. */
  datatype EditSetup = EditSetup(maxLength: nat, text: string)

  /** What `build()` hands to the picker view and the widgets it adds. */
  datatype BuildPlan = BuildPlan(
    slots: seq<Option<Bits32>>,
    selectedSlot: nat,
    showBorder: bool,
    lightnessSliderColor: Option<Bits32>,
    alphaSliderColor: Option<Bits32>,
    colorEdit: Option<EditSetup>,
    preview: Option<seq<Bits32>>,
    previewOffset: nat)

  class ColorPickerDialogBuilder {
    var isLightnessSliderEnabled: bool
    var isAlphaSliderEnabled: bool
    var isBorderEnabled: bool
    var isColorEditEnabled: bool
    var isPreviewEnabled: bool
    var pickerCount: int
    const initialColor: array<Option<Bits32>>

    /** Five slots, a count in 1..5, and a count above 1 only with the preview on. */
    ghost predicate Valid()
      reads this
    {
      initialColor.Length == SLOT_COUNT && 1 <= pickerCount <= 5 && (pickerCount > 1 ==> isPreviewEnabled)
    }

    constructor ()
      ensures Valid() && fresh(initialColor)
      ensures initialColor[..] == [None, None, None, None, None]
      ensures isLightnessSliderEnabled && isAlphaSliderEnabled && isBorderEnabled
      ensures !isColorEditEnabled && !isPreviewEnabled && pickerCount == 1
    {
      isLightnessSliderEnabled := true;
      isAlphaSliderEnabled := true;
      isBorderEnabled := true;
      isColorEditEnabled := false;
      isPreviewEnabled := false;
      pickerCount := 1;
      initialColor := new Option<Bits32>[SLOT_COUNT](_ => None);
    }

    /** `initialColor(c)`: slot 0 only. */
    method SetInitialColor(c: Bits32)
      requires Valid()
      modifies initialColor
      ensures Valid() && initialColor[..] == old(initialColor[..])[0 := Some(c)]
    {
      initialColor[0] := Some(c);
    }

    /** `initialColors(colors)`: the copy loop, which stops at whichever array ends first. */
    method SetInitialColors(colors: seq<Bits32>)
      requires Valid()
      modifies initialColor
      ensures Valid() && initialColor[..] == Seeded(old(initialColor[..]), colors)
    {
      var i := 0;
      while i < |colors| && i < initialColor.Length
        invariant 0 <= i <= initialColor.Length && i <= |colors|
        invariant forall k :: 0 <= k < i ==> initialColor[k] == Some(colors[k])
        invariant forall k :: i <= k < initialColor.Length ==> initialColor[k] == old(initialColor[k])
      {
        initialColor[i] := Some(colors[i]);
        i := i + 1;
      }
    }

    method NoSliders()
      requires Valid()
      modifies this`isLightnessSliderEnabled, this`isAlphaSliderEnabled
      ensures Valid() && !isLightnessSliderEnabled && !isAlphaSliderEnabled
    {
      isLightnessSliderEnabled := false;
      isAlphaSliderEnabled := false;
    }

    method AlphaSliderOnly()
      requires Valid()
      modifies this`isLightnessSliderEnabled, this`isAlphaSliderEnabled
      ensures Valid() && !isLightnessSliderEnabled && isAlphaSliderEnabled
    {
      isLightnessSliderEnabled := false;
      isAlphaSliderEnabled := true;
    }

    method LightnessSliderOnly()
      requires Valid()
      modifies this`isLightnessSliderEnabled, this`isAlphaSliderEnabled
      ensures Valid() && isLightnessSliderEnabled && !isAlphaSliderEnabled
    {
      isLightnessSliderEnabled := true;
      isAlphaSliderEnabled := false;
    }

    method ShowAlphaSlider(show: bool)
      requires Valid()
      modifies this`isAlphaSliderEnabled
      ensures Valid() && isAlphaSliderEnabled == show
    {
      isAlphaSliderEnabled := show;
    }

    method ShowLightnessSlider(show: bool)
      requires Valid()
      modifies this`isLightnessSliderEnabled
      ensures Valid() && isLightnessSliderEnabled == show
    {
      isLightnessSliderEnabled := show;
    }

    method ShowBorder(show: bool)
      requires Valid()
      modifies this`isBorderEnabled
      ensures Valid() && isBorderEnabled == show
    {
      isBorderEnabled := show;
    }

    method ShowColorEdit(show: bool)
      requires Valid()
      modifies this`isColorEditEnabled
      ensures Valid() && isColorEditEnabled == show
    {
      isColorEditEnabled := show;
    }

    /** `showColorPreview(show)`: turning the preview off also resets the count to one picker. */
    method ShowColorPreview(show: bool)
      requires Valid()
      modifies this`isPreviewEnabled, this`pickerCount
      ensures Valid() && isPreviewEnabled == show
      ensures pickerCount == if show then old(pickerCount) else 1
    {
      isPreviewEnabled := show;
      if !show {
        pickerCount := 1;
      }
    }

    /** `setPickerCount(n)`: a count outside 1..5 throws and changes nothing; more than one turns the preview on. */
    method SetPickerCount(n: int) returns (r: Result<()>)
      requires Valid()
      modifies this`pickerCount, this`isPreviewEnabled
      ensures Valid()
      ensures r.Ok? <==> 1 <= n <= 5
      ensures r.Err? ==> r.error == IndexOutOfBounds(PICKER_COUNT_MESSAGE) &&
                         pickerCount == old(pickerCount) && isPreviewEnabled == old(isPreviewEnabled)
      ensures r.Ok? ==> pickerCount == n && isPreviewEnabled == (old(isPreviewEnabled) || n > 1)
    {
      if n < 1 || n > 5 {
        return Err(IndexOutOfBounds(PICKER_COUNT_MESSAGE));
      }
      pickerCount := n;
      if pickerCount > 1 {
        isPreviewEnabled := true;
      }
      r := Ok(());
    }

    /**
     * `build()`, less the views: the slots go to the picker by reference with the start
     * slot computed first, and the picker writes the start colour (white for an empty
     * slot) back into this builder's own array; the sliders and the edit field then start
     * from the start colour of the written array, the edit field is limited to `#AARRGGBB`
     * with the alpha slider and `#RRGGBB` without, and the preview lists the filled slots
     * of the written array up to the picker count.
     */
    method Build() returns (plan: BuildPlan)
      requires Valid()
      modifies initialColor
      ensures Valid() && initialColor[..] == WithStartFilled(old(initialColor[..]))
      ensures plan.slots == initialColor[..] && plan.showBorder == isBorderEnabled
      ensures plan.selectedSlot == StartOffset(old(initialColor[..]))
      ensures StartColor(initialColor[..]).Ok?
      ensures var start := StartColor(initialColor[..]).value;
        (plan.lightnessSliderColor.Some? <==> isLightnessSliderEnabled) &&
        (plan.lightnessSliderColor.Some? ==> plan.lightnessSliderColor.value == start) &&
        (plan.alphaSliderColor.Some? <==> isAlphaSliderEnabled) &&
        (plan.alphaSliderColor.Some? ==> plan.alphaSliderColor.value == start) &&
        (plan.colorEdit.Some? <==> isColorEditEnabled) &&
        (plan.colorEdit.Some? ==>
          plan.colorEdit.value.maxLength == (if isAlphaSliderEnabled then 9 else 7) &&
          plan.colorEdit.value.text == if isAlphaSliderEnabled then HexStringAlpha(start) else HexString(start))
      ensures plan.preview.Some? <==> isPreviewEnabled
      ensures plan.preview.Some? ==> plan.preview.value == Swatches(initialColor[..], pickerCount)
      ensures plan.previewOffset == StartOffset(initialColor[..])
    {
      var offset := GetStartOffset(initialColor);
      StartOffsetInPrefix(initialColor[..]);
      initialColor[offset] := Some(initialColor[offset].GetOr(WHITE));
      var slots := initialColor[..];
      var start := StartColor(slots).value;
      var lightness: Option<Bits32> := if isLightnessSliderEnabled then Some(start) else None;
      var alpha: Option<Bits32> := if isAlphaSliderEnabled then Some(start) else None;
      var edit: Option<EditSetup> := None;
      if isColorEditEnabled {
        var maxLength := if isAlphaSliderEnabled then 9 else 7;
        edit := Some(EditSetup(maxLength, if isAlphaSliderEnabled then HexStringAlpha(start) else HexString(start)));
      }
      var preview: Option<seq<Bits32>> := None;
      if isPreviewEnabled {
        var swatches := PreviewSwatches(slots, pickerCount);
        preview := Some(swatches);
      }
      var previewOffset := GetStartOffset(initialColor);
      plan := BuildPlan(slots, offset, isBorderEnabled, lightness, alpha, edit, preview, previewOffset);
    }
  }
}
