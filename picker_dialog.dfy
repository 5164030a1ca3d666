/**
 * The Compose dialogs: `ColorPickerDialog`, which keeps its own picker state
 * fed by the embedded picker's change events and reports a selection and a
 * dismissal through its two callbacks; `ColorPickerDialogState`, the
 * show/hide flag and colour a host keeps; and `ColorPickerDialogHost`, which
 * composes the dialog only while the state is showing.
 */
module PickerDialog {
  import opened Wrappers
  import opened Android
  import opened ComposeColors
  import opened PickerState
  import opened ColorPicker

  /** A call of one of the dialog's two callbacks. */
  datatype DialogCall = Selected(color: Color) | DismissRequested

  /** `ColorPickerDialogState`. */
  class DialogState {
    var isShowing: bool
    var selectedColor: Color

    /** A new state is hidden and holds the initial colour. */
    constructor (initialColor: Color)
      ensures !isShowing && selectedColor == initialColor
    {
      isShowing := false;
      selectedColor := initialColor;
    }

    method Show()
      modifies this`isShowing
      ensures isShowing
    {
      isShowing := true;
    }

    method Hide()
      modifies this`isShowing
      ensures !isShowing
    {
      isShowing := false;
    }

    method UpdateColor(color: Color)
      modifies this`selectedColor
      ensures selectedColor == color
    {
      selectedColor := color;
    }
  }

  /**
   * The dialog's own state starts as `rememberColorPickerState(initialColor)` with
   * every default, so it is always valid.
   */
  function DialogInitialState(initialColor: Color): (s: State)
    ensures ValidState(s) && s.selectedColor == initialColor
    ensures s == DefaultState(initialColor)
  {
    RememberState(initialColor, 1.0, 1.0, FLOWER, 8).value
  }

  /** `state.value.copy(selectedColor = newColor)`: only the colour changes, so the copy never throws. */
  function WithColor(s: State, c: Color): (r: State)
    requires ValidState(s)
    ensures ValidState(r) && r.selectedColor == c
    ensures r == s.(selectedColor := c)
  {
    NewState(c, s.alpha, s.lightness, s.colors, s.wheelType, s.density).value
  }

  /** One composed `ColorPickerDialog`: its remembered state, the embedded picker and the callback calls made. */
  class Dialog {
    var state: State
    const picker: Picker
    var calls: seq<DialogCall>

    ghost predicate Valid()
      reads this, picker
    {
      ValidState(state) && picker.Valid()
    }

    constructor (p: Platform, initialColor: Color, showAlphaSlider: bool, showLightnessSlider: bool,
                 showColorEdit: bool)
      ensures Valid() && fresh(picker)
      ensures state == DialogInitialState(initialColor) && calls == []
      ensures picker.state == InitialState(p, initialColor) && picker.events == []
      ensures picker.showAlphaSlider == showAlphaSlider && picker.showLightnessSlider == showLightnessSlider
      ensures picker.showColorEdit == showColorEdit
    {
      state := DialogInitialState(initialColor);
      picker := new Picker(p, initialColor, showAlphaSlider, showLightnessSlider, showColorEdit);
      calls := [];
    }

    /** The picker's lightness slider moved: its change event updates the dialog's colour. */
    method OnLightnessChange(p: Platform, l: real) returns (r: Result<Color>)
      requires Valid() && picker.showLightnessSlider
      modifies this`state, picker
      ensures Valid() && calls == old(calls)
      ensures r.Ok? <==> 0.0 <= l <= 1.0
      ensures r.Ok? ==> r.value == picker.state.selectedColor && state == old(state).(selectedColor := r.value)
      ensures r.Err? ==> state == old(state) && picker.state == old(picker.state)
    {
      r := picker.OnLightnessChange(p, l);
      if r.Ok? {
        state := WithColor(state, r.value);
      }
    }

    /** The picker's alpha slider moved: its change event updates the dialog's colour. */
    method OnAlphaChange(a: real) returns (r: Result<Color>)
      requires Valid() && picker.showAlphaSlider
      modifies this`state, picker
      ensures Valid() && calls == old(calls)
      ensures r.Ok? <==> 0.0 <= a <= 1.0
      ensures r.Ok? ==> r.value == picker.state.selectedColor && state == old(state).(selectedColor := r.value)
      ensures r.Err? ==> state == old(state) && picker.state == old(picker.state)
    {
      r := picker.OnAlphaChange(a);
      if r.Ok? {
        state := WithColor(state, r.value);
      }
    }

    /** The picker's hex field was edited: the picker emits nothing, so the dialog's colour stays. */
    method OnTextChange(p: Platform, newText: string)
      requires Valid() && picker.showColorEdit
      modifies picker`state, picker`text
      ensures Valid() && state == old(state) && calls == old(calls)
      ensures ParseColor(p, newText).Some? ==> picker.state.selectedColor == ParseColor(p, newText).value
    {
      picker.OnTextChange(p, newText);
    }

    /** The confirm button: the dialog's colour is selected, then dismissal is requested. */
    method Confirm()
      modifies this`calls
      ensures calls == old(calls) + [Selected(state.selectedColor), DismissRequested]
    {
      calls := calls + [Selected(state.selectedColor)];
      calls := calls + [DismissRequested];
    }

    /** The dismiss button, or a dismissal from outside: only dismissal is requested. */
    method Dismiss()
      modifies this`calls
      ensures calls == old(calls) + [DismissRequested]
    {
      calls := calls + [DismissRequested];
    }
  }

  /**
   * A hex edit followed by confirm selects the colour the sliders last reported,
   * not the edited one.
   */
  method ConfirmAfterHexEdit(p: Platform, d: Dialog, newText: string) returns (selected: Color)
    requires d.Valid() && d.picker.showColorEdit
    modifies d, d.picker
    ensures selected == old(d.state.selectedColor)
    ensures d.calls == old(d.calls) + [Selected(selected), DismissRequested]
  {
    d.OnTextChange(p, newText);
    d.Confirm();
    selected := d.state.selectedColor;
  }

  /**
   * `ColorPickerDialogHost`: the dialog is composed only while the state is showing,
   * with the state's colour as its initial colour; a selection first updates the
   * state and is then forwarded, and a dismissal hides the state.
   */
  class Host {
    const ds: DialogState
    var dialog: Dialog?
    /** The colours forwarded to the host's `onColorSelected`. */
    var forwarded: seq<Color>
    const showAlphaSlider: bool
    const showLightnessSlider: bool
    const showColorEdit: bool

    ghost predicate Valid()
      reads this, ds, dialog, if dialog == null then {} else {dialog.picker}
    {
      (dialog != null ==> ds.isShowing && dialog.Valid()) &&
      (!ds.isShowing ==> dialog == null)
    }

    constructor (ds: DialogState, showAlphaSlider: bool, showLightnessSlider: bool, showColorEdit: bool)
      requires !ds.isShowing
      ensures Valid() && this.ds == ds && dialog == null && forwarded == []
      ensures this.showAlphaSlider == showAlphaSlider && this.showLightnessSlider == showLightnessSlider
      ensures this.showColorEdit == showColorEdit
    {
      this.ds := ds;
      dialog := null;
      forwarded := [];
      this.showAlphaSlider := showAlphaSlider;
      this.showLightnessSlider := showLightnessSlider;
      this.showColorEdit := showColorEdit;
    }

    /** The host's `show()`: the state shows, and the next composition adds the dialog. */
    method Show(p: Platform)
      requires Valid()
      modifies ds`isShowing, this`dialog
      ensures Valid() && ds.isShowing && dialog != null && ds.selectedColor == old(ds.selectedColor)
      ensures old(dialog) != null ==> dialog == old(dialog)
      ensures old(dialog) == null ==>
                fresh(dialog) && fresh(dialog.picker) && dialog.calls == [] &&
                dialog.state == DialogInitialState(ds.selectedColor) &&
                dialog.picker.state == InitialState(p, ds.selectedColor)
    {
      ds.Show();
      if dialog == null {
        dialog := new Dialog(p, ds.selectedColor, showAlphaSlider, showLightnessSlider, showColorEdit);
      }
    }

    /**
     * The dialog's confirm button under the host: the state takes the dialog's colour,
     * the colour is forwarded, the state hides, and the dialog leaves the composition.
     */
    method Confirm() returns (selected: Color)
      requires Valid() && dialog != null
      modifies this`dialog, this`forwarded, ds, dialog`calls
      ensures Valid() && dialog == null && !ds.isShowing
      ensures selected == old(dialog.state.selectedColor)
      ensures ds.selectedColor == selected && forwarded == old(forwarded) + [selected]
    {
      var d := dialog;
      var before := |d.calls|;
      d.Confirm();
      selected := d.state.selectedColor;
      assert d.calls[before] == Selected(selected) && d.calls[before + 1] == DismissRequested;
      ds.UpdateColor(selected);
      forwarded := forwarded + [selected];
      ds.Hide();
      dialog := null;
    }

    /** A dismissal under the host: the state hides and keeps its colour; nothing is forwarded. */
    method Dismiss()
      requires Valid() && dialog != null
      modifies this`dialog, ds`isShowing, dialog`calls
      ensures Valid() && dialog == null && !ds.isShowing
      ensures ds.selectedColor == old(ds.selectedColor) && forwarded == old(forwarded)
    {
      dialog.Dismiss();
      ds.Hide();
      dialog := null;
    }
  }
}
