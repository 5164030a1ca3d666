# colorpicker — a Dafny model of the colour-wheel picker

This project models the core of the `colorpicker` Android library. The library
draws a colour wheel of small discs on concentric rings, maps touches and colours
back to the nearest disc, and offers sliders, dialogs and a preference around it.
There are two generations of it: the Compose/`co.csadev` code and the older
`com.flask` view classes it grew from. The model covers both, module by module:

| module | file | models |
|---|---|---|
| `Numerics` | numerics.dfy | Kotlin's `Int` bit patterns, float-to-int conversions, `coerceIn`, `%` on doubles, bitwise `or` |
| `Android` | android.dfy | `android.graphics.Color` accessors and `Color.argb`; the HSV conversions, `parseColor` and trigonometry as parameters |
| `Text`, `Hex` | text.dfy, hex.dfy | `uppercase`, `removePrefix`, and `%0wX` hexadecimal rendering |
| `Graphics` | graphics.dfy | a canvas as the list of discs drawn on it |
| `ColorCircles` | color_circle.dfy | `ColorCircle`, one placed sample of the wheel |
| `ColorExtensions`, `ComposeColors` | color_extensions.dfy, compose_colors.dfy | the `Int` and Compose `Color` extensions: lightness, alpha, hex strings, `HSV` |
| `PickerState` | picker_state.dfy | `ColorPickerState` and its checked constructor |
| `RenderOptions` | render_option.dfy | `ColorWheelRenderOption` and its checks |
| `WheelLayout` | wheel_layout.dfy | what one draw computes: rings, sample counts, angles, colours, discs, and how new samples overlay the old list |
| `Renderers` | abs_renderer.dfy | the simple and flower renderers, proved to produce `WheelLayout`'s samples and discs |
| `HitTest` | hit_test.dfy | the nearest-sample searches by position and by colour |
| `LegacyFlower` | legacy_flower.dfy | the `com.flask` flower renderer |
| `PickerView` | picker_view.dfy | `ColorPickerView`: state, touch handling, listeners, setters |
| `ColorPicker` | color_picker.dfy | the Compose `ColorPicker` and its hex field; the event flow |
| `ComposeWheel` | color_wheel.dfy | the Compose `ColorWheel`: touch-to-colour, gestures, per-frame drawing |
| `PickerDialog` | picker_dialog.dfy | `ColorPickerDialog`, its state and its host |
| `DialogBuilder` | dialog_builder.dfy | the `com.flask` `ColorPickerDialogBuilder` |
| `CustomSlider` | custom_slider.dfy | the `com.flask` `AbsCustomSlider` |
| `PickerPreference` | picker_preference.dfy | the `com.flask` `ColorPickerPreference` |
| `CustomizableSample` | customizable_screen.dfy | the sample app's hex field and final colour |

The model's conventions:
- A Kotlin `Float` or `Double` is a Dafny `real`.
- An `Int` that holds a colour is its 32-bit pattern read as an unsigned number (`Bits32`).
- A Compose `Color` is its 32-bit ARGB pattern.
- Anything that throws returns a `Result` whose error names the exception.
- Platform functions the library calls but does not define are fields of `Android.Platform`, passed as a parameter. These are `Color.HSVToColor`, `Color.colorToHSV`, `Color.parseColor`, `cos`, `sin`, `atan2`, `hypot` and `asin`. A property whose lemma has no precondition about the platform holds whatever those functions compute. A property whose lemma does have such a precondition holds for every platform that meets it. Examples are `Atan2InRange` for the touch lemmas, `ReadsHashForms` for the hex round trips, and the inverse premise of `FinalColorIsTypedOnlyAtFullValue`.
- Objects whose fields the source updates in place (`ColorPickerView`, the renderers, the builder, the slider, the preference, the dialog state) are classes. Their methods are proved against the value-level functions that describe them.

Points where the code behaves in a way a reader might not expect:
- Out-of-range alpha, lightness and density are rejected with `IllegalArgumentException`, not clamped. The checks are in `HSV`, `ColorPickerState` and `ColorWheelRenderOption`.
- The only hex reader with visible code, the sample screen's field, accepts six or eight digits. It does not accept three.
- A redraw overwrites the first entries of the sample list and appends the rest. It never shortens the list, even when the density drops.
- `ColorWheelRenderOption` declares no `centerX`/`centerY`, yet both renderers and `ColorWheel` use them. The model gives the option two optional centre fields that default to absent, which means the canvas centre.

## Model

| member | source | states |
|---|---|---|
| Text.Uppercase | library/src/main/java/co/csadev/colorpicker/compose/ColorPicker.kt:158 | `uppercase()` on ASCII text: it keeps the length, raises every lower-case ASCII letter `a`-`z` and keeps every other character (full Unicode case mapping is not modelled) |
| Text.UppercaseIdempotent | app/src/main/java/co/csadev/colorpicker/sample/screens/CustomizableScreen.kt:219-221 | raising the case of text already raised changes nothing |
| Text.RemovePrefix | app/src/main/java/co/csadev/colorpicker/sample/screens/CustomizableScreen.kt:221 | `removePrefix("#")` drops the prefix exactly once when the text starts with it and returns the text unchanged otherwise |
| Numerics.TruncToInt | library/src/main/java/co/csadev/colorpicker/renderer/AbsColorWheelRenderer.kt:42 | `Float.toInt()` stays in the `Int` range, and a non-negative float below `Int.MAX_VALUE` lies in [r, r + 1) |
| Numerics.RoundToInt | library/src/main/java/co/csadev/colorpicker/renderer/AbsColorWheelRenderer.kt:20 | `roundToInt()` stays in the `Int` range and is the nearest integer with halves rounded up |
| Numerics.ClampInt | library/src/main/java/co/csadev/colorpicker/renderer/AbsColorWheelRenderer.kt:20 | `coerceIn(lo, hi)` lands in [lo, hi] and keeps a value already inside |
| Numerics.ClampReal | library/src/main/java/co/csadev/colorpicker/compose/ColorWheel.kt:149 | `coerceIn(lo, hi)` on a float lands in [lo, hi] and keeps a value already inside |
| Numerics.FModNonNegative | library/src/main/java/co/csadev/colorpicker/renderer/SimpleColorWheelRenderer.kt:57 | the Kotlin `%` of a non-negative degree count by 360 lies in [0, 360) |
| Numerics.FModInRange | library/src/main/java/co/csadev/colorpicker/renderer/SimpleColorWheelRenderer.kt:57 | an angle already in [0, 360) is its own remainder |
| Android.ArgbPacks | library/src/main/java/com/flask/colorpicker/ColorPickerPreference.kt:137-140 | on four bytes, the shifts and `or`s of `Color.argb` are the positional sum `a·2^24 + r·2^16 + g·2^8 + b` |
| Android.BytesOfPacked | library/src/main/java/com/flask/colorpicker/ColorPickerPreference.kt:137-140 | the alpha, red, green and blue accessors read back the four bytes that were packed |
| Android.OrOpaque | app/src/main/java/co/csadev/colorpicker/sample/screens/CustomizableScreen.kt:226 | `or 0xFF000000` sets the alpha byte to 255 and keeps the red, green and blue bytes |
| Android.HsvToColor | library/src/main/java/co/csadev/colorpicker/ColorCircle.kt:40 | `Color.HSVToColor(hsv)` is opaque and carries the platform's RGB for that HSV |
| ColorCircles.MakeSample | library/src/main/java/co/csadev/colorpicker/ColorCircle.kt:34-41 | the sample `set` stores keeps the position and HSV given, and its colour is the opaque `HSVToColor` of that HSV |
| ColorCircles.SquaredDistance | library/src/main/java/co/csadev/colorpicker/ColorCircle.kt:19-23 | the squared distance is never negative and is 0 between a point and itself |
| ColorCircles.ColorCircle.constructor | library/src/main/java/co/csadev/colorpicker/ColorCircle.kt:5-17 | a new circle owns a fresh HSV array, has no clone yet, and holds the sample `set` makes of its arguments |
| ColorCircles.ColorCircle.Set | library/src/main/java/co/csadev/colorpicker/ColorCircle.kt:34-41 | after `set` the circle holds the new position, a copy of the three floats and their colour; the caller's array and the clone are untouched |
| ColorCircles.ColorCircle.SqDist | library/src/main/java/co/csadev/colorpicker/ColorCircle.kt:19-23 | the distance from the circle to a point is never negative and is 0 at the circle's own position |
| ColorCircles.ColorCircle.GetHsvWithLightness | library/src/main/java/co/csadev/colorpicker/ColorCircle.kt:25-32 | the result is the circle's clone array holding its hue, its saturation and the given lightness; an existing clone is reused, otherwise a fresh one is made; the circle's own sample is unchanged |
| ColorCircles.ScratchArrayIsShared | library/src/main/java/co/csadev/colorpicker/ColorCircle.kt:26-31 | two calls return the same array, which then holds the second lightness: the first caller's result is overwritten |
| ColorExtensions.Lightness | library/src/main/java/co/csadev/colorpicker/ColorExtensions.kt:10-11 | `Int.lightness` is the V that `colorToHSV` reports, a value in [0, 1] |
| ColorExtensions.ApplyLightness | library/src/main/java/co/csadev/colorpicker/ColorExtensions.kt:13-18 | the result is opaque, with the RGB of the colour's own hue and saturation at the new value |
| ColorExtensions.ApplyLightnessIgnoresAlpha | library/src/main/java/co/csadev/colorpicker/ColorExtensions.kt:13-18 | two colours that differ only in alpha get the same result |
| ColorExtensions.FloatAlpha | library/src/main/java/co/csadev/colorpicker/ColorExtensions.kt:21-22 | for a fraction in [0, 1], `Float.alpha` is a byte within half a step of `a·255` |
| ColorExtensions.IntAlpha | library/src/main/java/co/csadev/colorpicker/ColorExtensions.kt:24-25 | `Int.alpha` is a fraction in [0, 1] that times 255 is the alpha byte |
| ColorExtensions.AlphaRoundTrip | library/src/main/java/co/csadev/colorpicker/ColorExtensions.kt:21-25 | the fraction `Int.alpha` reports turns back into the same byte under `Float.alpha` |
| ColorExtensions.ShiftToTopByte | library/src/main/java/co/csadev/colorpicker/ColorExtensions.kt:27 | `n shl 24` keeps only the low byte of `n`, moved to the top of the `Int` |
| ColorExtensions.AdjustAlpha | library/src/main/java/co/csadev/colorpicker/ColorExtensions.kt:27 | `adjustAlpha` keeps the red, green and blue bytes and puts the low byte of `Float.alpha` on top |
| ColorExtensions.AdjustAlphaInRange | library/src/main/java/co/csadev/colorpicker/ColorExtensions.kt:27 | for a fraction in [0, 1] the new alpha byte is exactly `a.alpha` |
| ColorExtensions.AdjustAlphaOwnAlpha | library/src/main/java/co/csadev/colorpicker/ColorExtensions.kt:24-27 | applying a colour's own alpha gives the colour back |
| ColorExtensions.AdjustAlphaWraps | library/src/main/java/co/csadev/colorpicker/ColorExtensions.kt:21-27 | nothing clamps the fraction: 256/255 rounds to 256, whose low byte is 0, so the colour becomes fully transparent |
| ColorExtensions.HexString | library/src/main/java/co/csadev/colorpicker/ColorExtensions.kt:29-30 | `hexString` is `#` followed by six upper-case hexadecimal digits |
| ColorExtensions.HexStringAlpha | library/src/main/java/co/csadev/colorpicker/ColorExtensions.kt:32-33 | `hexStringAlpha` is `#` followed by eight upper-case hexadecimal digits |
| ColorExtensions.HexStringDenotesRgb | library/src/main/java/co/csadev/colorpicker/ColorExtensions.kt:35-39 | the six digits of `hexString` denote exactly the colour's RGB bytes (`0xFFFFFF and c`) |
| ColorExtensions.HexStringAlphaDenotesColor | library/src/main/java/co/csadev/colorpicker/ColorExtensions.kt:35-39 | the eight digits of `hexStringAlpha` denote the whole 32-bit colour (`-1 and c`) |
| ColorExtensions.HexStringAlphaInjective | library/src/main/java/co/csadev/colorpicker/ColorExtensions.kt:32-39 | two colours with the same `hexStringAlpha` are the same colour |
| ColorExtensions.HexStringDropsAlphaDigits | library/src/main/java/co/csadev/colorpicker/ColorExtensions.kt:29-39 | `hexStringAlpha` without its two alpha digits is `hexString` |
| RenderOptions.NewRenderOption | library/src/main/java/co/csadev/colorpicker/renderer/ColorWheelRenderOption.kt:16-30 | construction succeeds exactly when density ≥ 2 and alpha and lightness lie in [0, 1]; otherwise the first failed check throws `IllegalArgumentException` with its message, density first, then alpha, then lightness |
| RenderOptions.DefaultRenderOption | library/src/main/java/co/csadev/colorpicker/renderer/ColorWheelRenderOption.kt:16-24 | the default option (density 8, radius, size and stroke 0, alpha and lightness 1, no canvas) passes the constructor's checks |
| RenderOptions.FieldAssignmentsAreUnchecked | library/src/main/java/co/csadev/colorpicker/renderer/ColorWheelRenderOption.kt:17-23 | the fields are `var`s: assigning density 1 to a valid option gives an option the constructor would have rejected |
| WheelLayout.CalcTotalCount | library/src/main/java/co/csadev/colorpicker/renderer/AbsColorWheelRenderer.kt:35-45 | the count is at least 1 and at most `Int.MAX_VALUE`, and exactly 1 when the radius or the size is not positive |
| WheelLayout.CalcTotalCountFits | library/src/main/java/co/csadev/colorpicker/renderer/AbsColorWheelRenderer.kt:38-44 | on a real ring the count is the number of whole circle sizes in the effective circumference, and 1 when fewer than two fit |
| WheelLayout.CalcTotalCountMonotone | library/src/main/java/co/csadev/colorpicker/renderer/AbsColorWheelRenderer.kt:35-45 | for a fixed size a larger ring never holds fewer circles |
| WheelLayout.CircleSize | library/src/main/java/co/csadev/colorpicker/renderer/FlowerColorWheelRenderer.kt:48-56 | the flower renderer's circle size is never below `1.5 + strokeWidth` |
| WheelLayout.RingOf | library/src/main/java/co/csadev/colorpicker/renderer/FlowerColorWheelRenderer.kt:39-62 | every ring holds at least one circle, and a flower ring at most `2·density` |
| WheelLayout.RingSamples | library/src/main/java/co/csadev/colorpicker/renderer/SimpleColorWheelRenderer.kt:48-73 | a ring yields one sample per position, position `j` being the sample at angle `2πj/count + offset` |
| WheelLayout.RingDiscs | library/src/main/java/co/csadev/colorpicker/renderer/SimpleColorWheelRenderer.kt:63-68 | a ring paints one disc per position, of radius `circleSize - strokeWidth`, in the sample's colour with the option's alpha byte |
| WheelLayout.WheelSamplesStep | library/src/main/java/co/csadev/colorpicker/renderer/SimpleColorWheelRenderer.kt:32-74 | each further ring appends exactly its own samples after those of the rings before it |
| WheelLayout.WheelDiscsStep | library/src/main/java/co/csadev/colorpicker/renderer/SimpleColorWheelRenderer.kt:32-74 | each further ring appends exactly its own discs to what is painted |
| WheelLayout.Overlay | library/src/main/java/co/csadev/colorpicker/renderer/AbsColorWheelRenderer.kt:56-62 | writing a run from index 0 leaves a list of the longer length, with the run in front and the old entries past it unchanged |
| WheelLayout.OverlayStep | library/src/main/java/co/csadev/colorpicker/renderer/AbsColorWheelRenderer.kt:56-62 | the next write overwrites in place while inside the old list and appends past its end |
| WheelLayout.OverlayIdempotent | library/src/main/java/co/csadev/colorpicker/renderer/SimpleColorWheelRenderer.kt:19-75 | a second identical draw leaves the circle list as the first one left it |
| WheelLayout.OverlayPrefixIndependent | library/src/main/java/co/csadev/colorpicker/renderer/AbsColorWheelRenderer.kt:56-62 | whatever the list held before, a draw leaves the same samples in front |
| WheelLayout.WheelSamplesLength | library/src/main/java/co/csadev/colorpicker/renderer/FlowerColorWheelRenderer.kt:59 | a draw writes at least one sample per ring, and the flower at most `2·density` per ring |
| WheelLayout.FlowerTotalBound | library/src/main/java/co/csadev/colorpicker/renderer/FlowerColorWheelRenderer.kt:59 | a flower draw writes at most `2·density²` samples |
| WheelLayout.CentreRing | library/src/main/java/co/csadev/colorpicker/renderer/SimpleColorWheelRenderer.kt:33-53 | ring 0 has radius 0 and one circle, placed at the centre with saturation 0 |
| WheelLayout.OuterRing | library/src/main/java/co/csadev/colorpicker/renderer/SimpleColorWheelRenderer.kt:33-39 | with at least two rings the outermost lies at `maxRadius` with saturation 1 |
| WheelLayout.SampleHsvInRange | library/src/main/java/co/csadev/colorpicker/renderer/SimpleColorWheelRenderer.kt:55-61 | every sample's hue lies in [0, 360), its saturation is its ring's ratio and its value the option's lightness |
| WheelLayout.RingRatioInRange | library/src/main/java/co/csadev/colorpicker/renderer/SimpleColorWheelRenderer.kt:33-38 | every ring's saturation lies in [0, 1], is 0 on the centre ring and 1 on the rim ring |
| WheelLayout.FlowerCentreSize | library/src/main/java/co/csadev/colorpicker/renderer/FlowerColorWheelRenderer.kt:51-56 | the flower's centre ring keeps the base size, raised to `1.5 + strokeWidth` if smaller |
| WheelLayout.FlowerOuterRingsGrow | library/src/main/java/co/csadev/colorpicker/renderer/FlowerColorWheelRenderer.kt:48-55 | with density 10 and base size 10, ring 9 grows by 4.8 and ring 1 shrinks by 4.8 |
| WheelLayout.SimpleHasNoCap | library/src/main/java/co/csadev/colorpicker/renderer/SimpleColorWheelRenderer.kt:41-42 | the simple renderer has no cap: a ring of radius 1000 and size 1 holds 6126 circles, far above `2·density` |
| Renderers.ColorWheelRenderer.constructor | library/src/main/java/co/csadev/colorpicker/renderer/AbsColorWheelRenderer.kt:11-14 | a new renderer has the default render option and an empty circle list |
| Renderers.ColorWheelRenderer.SetRenderOption | library/src/main/java/co/csadev/colorpicker/renderer/AbsColorWheelRenderer.kt:14 | assigning `renderOption` replaces the option and leaves the circle list as it was |
| Renderers.ColorWheelRenderer.AlphaValueAsInt | library/src/main/java/co/csadev/colorpicker/renderer/AbsColorWheelRenderer.kt:19-20 | the byte lies in [0, 255], within half a step of `alpha·255` for alpha in [0, 1], 0 at or below 0 and 255 at or above 1 |
| Renderers.ColorWheelRenderer.UpdateOrAddCircle | library/src/main/java/co/csadev/colorpicker/renderer/AbsColorWheelRenderer.kt:56-62 | inside the list the circle at `index` now holds the new sample and no other entry changes; past the end one circle over a fresh copy of `hsv` is appended at the end, whatever `index` is; the list never shrinks and the caller's array is unchanged |
| Renderers.ColorWheelRenderer.AddCircle | library/src/main/java/co/csadev/colorpicker/renderer/AbsColorWheelRenderer.kt:57-58 | the appended circle holds a fresh copy of the HSV, after every existing circle |
| Renderers.ColorWheelRenderer.Draw | library/src/main/java/co/csadev/colorpicker/renderer/SimpleColorWheelRenderer.kt:19-29 | without a target canvas the list is unchanged; otherwise the list is the old one overlaid by the wheel's samples and the canvas gains exactly the wheel's discs, around the option's centre or the canvas middle |
| Renderers.ColorWheelRenderer.DrawRings | library/src/main/java/co/csadev/colorpicker/renderer/FlowerColorWheelRenderer.kt:36-88 | the ring loop leaves the old list overlaid by the samples of rings `0 until density`, and paints their discs in ring order |
| Renderers.ColorWheelRenderer.RingParameters | library/src/main/java/co/csadev/colorpicker/renderer/FlowerColorWheelRenderer.kt:40-62 | the per-ring values are those of the ring the layout defines for the renderer's style: at least one circle, at most `2 * density` for the flower, a saturation ratio in [0, 1] that is 0 on the centre ring and 1 on the rim ring, and a radius of `maxRadius` times that ratio |
| Renderers.ColorWheelRenderer.DrawRing | library/src/main/java/co/csadev/colorpicker/renderer/FlowerColorWheelRenderer.kt:65-87 | one ring writes its samples at the running indices `start + position` and paints its discs; the running index advances by the ring's count |
| Renderers.ColorWheelRenderer.PlaceSample | library/src/main/java/co/csadev/colorpicker/renderer/SimpleColorWheelRenderer.kt:49-72 | one position paints its disc and writes its sample at the running index |
| Renderers.ColorWheelRenderer.FillBuffer | library/src/main/java/co/csadev/colorpicker/renderer/SimpleColorWheelRenderer.kt:57-61 | the shared HSV buffer holds the hue, saturation and value written, and no listed circle shares it |
| Renderers.ColorWheelRenderer.SamplePoint | library/src/main/java/co/csadev/colorpicker/renderer/SimpleColorWheelRenderer.kt:49-61 | the point is the centre plus `radius·(cos, sin)` of the sample angle; the HSV has a hue in [0, 360), the ring's ratio as saturation and the lightness as value |
| HitTest.Scan | library/src/main/java/co/csadev/colorpicker/ColorPickerView.kt:297-310 | the running strict minimum ends at most at the bound; with no pick it is the bound, with a pick it is that entry's distance |
| HitTest.ScanStep | library/src/main/java/co/csadev/colorpicker/ColorPickerView.kt:301-306 | one more entry moves the pick to it exactly when it is strictly below the best so far |
| HitTest.ScanFindsFirstMinimum | library/src/main/java/co/csadev/colorpicker/ColorPickerView.kt:297-310 | nothing is picked exactly when no entry is below the bound; otherwise the pick is the first entry of least distance, and the minimum is below every entry |
| HitTest.FirstMinimumUnique | library/src/main/java/co/csadev/colorpicker/ColorPickerView.kt:301-306 | at most one entry is the first minimum |
| HitTest.ScanIsFirstMinimum | library/src/main/java/co/csadev/colorpicker/ColorPickerView.kt:297-334 | the search picks entry `k` if and only if `k` is the first minimum below the bound |
| HitTest.ScanSucceeds | library/src/main/java/co/csadev/colorpicker/ColorPickerView.kt:297-310 | a list whose first entry is below the bound always yields a pick |
| HitTest.PositionDistances | library/src/main/java/co/csadev/colorpicker/ColorPickerView.kt:301-302 | one non-negative `sqDist` per listed circle |
| HitTest.ColorDistances | library/src/main/java/co/csadev/colorpicker/ColorPickerView.kt:317-326 | one non-negative colour-disc distance per listed circle |
| HitTest.ExactHitWins | library/src/main/java/co/csadev/colorpicker/ColorPickerView.kt:297-310 | a circle placed exactly at the touch point makes the search succeed at distance 0 |
| LegacyFlower.LegacyCalcTotalCount | library/src/main/java/com/flask/colorpicker/renderer/AbsColorWheelRenderer.kt:18-20 | the asin-based count is at least 1 and at most `Int.MAX_VALUE`, and 1 for a ring of radius 0 |
| LegacyFlower.LegacyCircleSize | library/src/main/java/com/flask/colorpicker/renderer/FlowerColorWheelRenderer.kt:25-27 | a ring's circle size is never below `1.5 + strokeWidth` |
| LegacyFlower.LegacyRingOf | library/src/main/java/com/flask/colorpicker/renderer/FlowerColorWheelRenderer.kt:24-28 | ring `i` lies at radius `maxRadius·i/(density - 1)` and holds between 1 and `2·density` circles |
| LegacyFlower.PaintAlpha | library/src/main/java/com/flask/colorpicker/renderer/AbsColorWheelRenderer.kt:12-13 | for alpha in [0, 1] the paint's alpha byte is within half a step of `alpha·255` |
| LegacyFlower.LegacyRingSamples | library/src/main/java/com/flask/colorpicker/renderer/FlowerColorWheelRenderer.kt:30-47 | a ring writes one circle per position, in position order |
| LegacyFlower.LegacyRingDiscs | library/src/main/java/com/flask/colorpicker/renderer/FlowerColorWheelRenderer.kt:37-40 | a ring paints one disc per position, in position order |
| LegacyFlower.LegacySamples | library/src/main/java/com/flask/colorpicker/renderer/FlowerColorWheelRenderer.kt:23-48 | the first `rings` rings write at most `2·density` circles each |
| LegacyFlower.LegacyFlowerRenderer.constructor | library/src/main/java/com/flask/colorpicker/renderer/AbsColorWheelRenderer.kt:7-10 | a new renderer has the given option, an empty list and its own HSV buffer |
| LegacyFlower.LegacyFlowerRenderer.Draw | library/src/main/java/com/flask/colorpicker/renderer/FlowerColorWheelRenderer.kt:14-49 | the list is the starting list overlaid by every ring's circles, whether or not there is a canvas; a canvas gains exactly the discs, in ring order |
| LegacyFlower.LegacyFlowerRenderer.DrawRing | library/src/main/java/com/flask/colorpicker/renderer/FlowerColorWheelRenderer.kt:30-47 | one ring writes its circles at the running count, comparing with the size the list had when the draw began, and paints its discs on a canvas |
| LegacyFlower.LegacyFlowerRenderer.PlaceCircle | library/src/main/java/com/flask/colorpicker/renderer/FlowerColorWheelRenderer.kt:31-46 | one position paints its disc when there is a canvas and overwrites or appends its circle at the running count |
| LegacyFlower.CirclePoint | library/src/main/java/com/flask/colorpicker/renderer/FlowerColorWheelRenderer.kt:31-36 | the loop body's point and HSV are those of the ring's position: for a position on the ring the hue lies in [0, 360), the saturation is the ring's share of `maxRadius` and the value is the lightness |
| LegacyFlower.LegacySamplesStep | library/src/main/java/com/flask/colorpicker/renderer/FlowerColorWheelRenderer.kt:23-48 | each further ring appends exactly its own circles and discs |
| LegacyFlower.OppositeParity | library/src/main/java/com/flask/colorpicker/renderer/FlowerColorWheelRenderer.kt:31 | the legacy renderer turns even rings by the half step, the newer one odd rings: together they add up to one half step on every ring |
| LegacyFlower.AngleBelowFullTurn | library/src/main/java/com/flask/colorpicker/renderer/FlowerColorWheelRenderer.kt:31 | every position's angle lies in [0, 2π) |
| LegacyFlower.LegacyHueInRange | library/src/main/java/com/flask/colorpicker/renderer/FlowerColorWheelRenderer.kt:34 | without any `% 360`, every written hue still lies in [0, 360) |
| LegacyFlower.LegacySaturationIsRingShare | library/src/main/java/com/flask/colorpicker/renderer/FlowerColorWheelRenderer.kt:24-35 | the saturation `radius / maxRadius` written on ring `i` is `i/(density - 1)`, a value in [0, 1] |
| LegacyFlower.LegacyTotalBound | library/src/main/java/com/flask/colorpicker/renderer/FlowerColorWheelRenderer.kt:23-28 | a draw writes at most `2·density²` circles and, with two rings or more, at least `density` |
| LegacyFlower.LegacySamplesAtLeast | library/src/main/java/com/flask/colorpicker/renderer/FlowerColorWheelRenderer.kt:28 | every ring writes at least one circle |
| LegacyFlower.LegacyListNeverShrinks | library/src/main/java/com/flask/colorpicker/renderer/FlowerColorWheelRenderer.kt:42-45 | a draw never shortens the list, writes its circles in front and leaves the entries past them as they were |
| PickerView.IndexOf | library/src/main/java/co/csadev/colorpicker/ColorPickerView.kt:518-524 | `indexOf` gives CIRCLE exactly for index 1 and FLOWER for every other index |
| PickerView.Notify | library/src/main/java/co/csadev/colorpicker/ColorPickerView.kt:262-268 | every registered listener is called exactly once, in registration order, with the same colour |
| PickerView.HsvToColorWithAlpha | library/src/main/java/co/csadev/colorpicker/ColorPickerView.kt:364 | `Color.HSVToColor(alpha, hsv)` carries the low byte of `alpha` over the platform's RGB for `hsv` |
| PickerView.SelectedOf | library/src/main/java/co/csadev/colorpicker/ColorPickerView.kt:83-86 | the selected colour has the RGB of the circle's hue and saturation at the view's lightness, and the low byte of `alphaValue.alpha` as alpha |
| PickerView.SelectedIgnoresCircleAlpha | library/src/main/java/co/csadev/colorpicker/ColorPickerView.kt:83-86 | the selected circle's own alpha byte plays no part in `selectedColor` |
| PickerView.SelectedAlphaInRange | library/src/main/java/co/csadev/colorpicker/ColorPickerView.kt:83-86 | for `alphaValue` in [0, 1] the selected colour's alpha is that fraction to within half of 1/255 |
| PickerView.WheelOption | library/src/main/java/co/csadev/colorpicker/ColorPickerView.kt:184-198 | the option handed to the renderer carries the view's density, alpha, lightness and canvas and the fixed stroke width, and keeps the option's centre |
| PickerView.WheelGeometry | library/src/main/java/co/csadev/colorpicker/ColorPickerView.kt:184-187 | in the view's wheel ring `i` lies `i` circle diameters (`2·cSize`) from the centre, and the outer ring plus the stroke plus `half/density` is exactly half the canvas |
| PickerView.ColorPickerView.constructor | library/src/main/java/co/csadev/colorpicker/ColorPickerView.kt:113-132 | a new view has density `max(2, attribute or 10)`, the renderer of the attribute's wheel type, white (or the attribute) in slot 0 of five and the alpha and lightness of that colour; it has no bitmaps or listeners yet |
| PickerView.ColorPickerView.InitWith | library/src/main/java/co/csadev/colorpicker/ColorPickerView.kt:113-132 | `initWith` sets the renderer, the density and the initial colour, in that order |
| PickerView.ColorPickerView.SelectedColor | library/src/main/java/co/csadev/colorpicker/ColorPickerView.kt:83-86 | the `selectedColor` getter is the selected circle's colour (0 without one) through `applyLightness` and `adjustAlpha` |
| PickerView.ColorPickerView.CircleHsv | library/src/main/java/co/csadev/colorpicker/ColorPickerView.kt:363 | the HSV is the selected circle's hue and saturation with the given lightness, or all zero without a circle |
| PickerView.ColorPickerView.NearestByPosition | library/src/main/java/co/csadev/colorpicker/ColorPickerView.kt:297-310 | without a renderer nothing is found; a found index is inside the renderer's list |
| PickerView.ColorPickerView.NearestByColor | library/src/main/java/co/csadev/colorpicker/ColorPickerView.kt:312-334 | without a renderer nothing is found; a found index is inside the renderer's list |
| PickerView.ColorPickerView.SetDensity | library/src/main/java/co/csadev/colorpicker/ColorPickerView.kt:427-430 | the density becomes `max(2, n)` |
| PickerView.ColorPickerView.SetRenderer | library/src/main/java/co/csadev/colorpicker/ColorPickerView.kt:432-435 | the view uses the given renderer from now on |
| PickerView.ColorPickerView.AddOnColorChangedListener | library/src/main/java/co/csadev/colorpicker/ColorPickerView.kt:395-397 | the listener is added after every listener already registered |
| PickerView.ColorPickerView.AddOnColorSelectedListener | library/src/main/java/co/csadev/colorpicker/ColorPickerView.kt:399-401 | the listener is added after every listener already registered |
| PickerView.ColorPickerView.SetMeasuredDimension | library/src/main/java/co/csadev/colorpicker/ColorPickerView.kt:202-223 | the measured width and height become the given ones |
| PickerView.ColorPickerView.Dispatch | library/src/main/java/co/csadev/colorpicker/ColorPickerView.kt:242-248 | each target is called once, in order, and an exception in one listener does not stop the rest |
| PickerView.ColorPickerView.CallOnColorChangedListeners | library/src/main/java/co/csadev/colorpicker/ColorPickerView.kt:258-269 | no call when the colour is unchanged; otherwise every change listener hears of the new colour, in order |
| PickerView.ColorPickerView.FindNearestByPosition | library/src/main/java/co/csadev/colorpicker/ColorPickerView.kt:297-310 | the result is the first circle of strictly smallest `sqDist` to the point, or null without a renderer or circles |
| PickerView.ColorPickerView.FindNearestByColor | library/src/main/java/co/csadev/colorpicker/ColorPickerView.kt:312-334 | the result is the first circle whose hue and saturation lie nearest the colour's on the colour disc, or null without a renderer or circles |
| PickerView.ColorPickerView.SetInitialColor | library/src/main/java/co/csadev/colorpicker/ColorPickerView.kt:344-357 | alpha and lightness come from the colour; when the selected slot exists the colour is stored in it and made the initial colour and the circle nearest it by colour is selected; a selection outside the slots throws after alpha and lightness were set |
| PickerView.ColorPickerView.StoreColor | library/src/main/java/co/csadev/colorpicker/ColorPickerView.kt:348-356 | the steps after the colour search: alpha and lightness first, then the slot, the initial colour and the circle, or an index error with the slots untouched |
| PickerView.ColorPickerView.SetInitialColors | library/src/main/java/co/csadev/colorpicker/ColorPickerView.kt:336-342 | the slots are replaced and the selection moved whatever happens; for a selection inside the slots, its colour (white when the slot is empty) becomes the initial colour. That colour's alpha and lightness are stored, and the circle nearest it becomes the selected circle. A selection outside the slots gives an index error, and the colour, alpha, lightness and circle are left as they were |
| PickerView.ColorPickerView.DrawColorWheel | library/src/main/java/co/csadev/colorpicker/ColorPickerView.kt:178-200 | both canvases are cleared; with a renderer the option is set from the view's settings and the wheel is drawn, leaving the renderer's list led by the wheel's samples and the wheel canvas showing exactly its discs |
| PickerView.ColorPickerView.ClearCanvases | library/src/main/java/co/csadev/colorpicker/ColorPickerView.kt:179-180 | both canvases that exist are blank afterwards |
| PickerView.ColorPickerView.RenderWheel | library/src/main/java/co/csadev/colorpicker/ColorPickerView.kt:184-199 | the renderer's option is the one for the view's density, canvas width, alpha and lightness, and the renderer has drawn with it |
| PickerView.ColorPickerView.UpdateColorWheelAsWritten | library/src/main/java/co/csadev/colorpicker/ColorPickerView.kt:157-176 | as written, a view without bitmaps never gets any: `colorWheel?.let` runs only when a bitmap already exists, so the renderer never gets a canvas and its list is left as it was |
| PickerView.ColorPickerView.UpdateColorWheel | library/src/main/java/co/csadev/colorpicker/ColorPickerView.kt:157-176 | as intended: for a positive side both bitmaps and canvases exist at that side, the wheel is drawn, and the renderer holds at least one circle per ring; for a non-positive side nothing changes |
| PickerView.ColorPickerView.CreateBitmaps | library/src/main/java/co/csadev/colorpicker/ColorPickerView.kt:165-173 | both bitmaps have the new side, with a fresh canvas of that side wherever the side changed |
| PickerView.ColorPickerView.SetColor | library/src/main/java/co/csadev/colorpicker/ColorPickerView.kt:374-378 | `setInitialColor`'s effects: the colour's alpha and lightness are stored, the slot and initial colour are set, and the circle nearest the colour before the redraw is selected. When it succeeds on a laid-out view, the wheel is also redrawn. On an index error the slots, initial colour and circle stay as they were |
| PickerView.ColorPickerView.SetSelectedColor | library/src/main/java/co/csadev/colorpicker/ColorPickerView.kt:87-94 | while any slot is empty nothing changes; otherwise the selection moves to `value`. For a slot that exists, its colour becomes the initial colour, with that colour's alpha and lightness, and the circle nearest it is selected. For a slot that does not exist, an index error leaves everything but the selection as it was |
| PickerView.ColorPickerView.SetLightness | library/src/main/java/co/csadev/colorpicker/ColorPickerView.kt:359-372 | the lightness is stored, the initial colour becomes the circle's hue and saturation at that lightness with the current alpha byte, change listeners hear of it if the selected colour changed, and the wheel is redrawn |
| PickerView.ColorPickerView.LightnessStep | library/src/main/java/co/csadev/colorpicker/ColorPickerView.kt:360-368 | the part of `setLightness` before the redraw: the same new colour and listener calls |
| PickerView.ColorPickerView.SetAlphaValue | library/src/main/java/co/csadev/colorpicker/ColorPickerView.kt:380-393 | the alpha is stored, the initial colour becomes the circle's HSV at the current lightness with the new alpha byte, change listeners hear of it if the selected colour changed, and the wheel is redrawn |
| PickerView.ColorPickerView.AlphaStep | library/src/main/java/co/csadev/colorpicker/ColorPickerView.kt:381-389 | the part of `setAlphaValue` before the redraw: the same new colour and listener calls |
| PickerView.ColorPickerView.Recolor | library/src/main/java/co/csadev/colorpicker/ColorPickerView.kt:363-368 | the initial colour is made from the circle's HSV and the alpha byte, and change listeners are told only when it differs from the colour selected before |
| PickerView.ColorPickerView.TouchMove | library/src/main/java/co/csadev/colorpicker/ColorPickerView.kt:228-239 | DOWN/MOVE selects the circle nearest the touch, makes its selected colour the initial colour, tells change listeners if it changed and redraws the wheel |
| PickerView.ColorPickerView.Reselect | library/src/main/java/co/csadev/colorpicker/ColorPickerView.kt:229-235 | the selection part of DOWN/MOVE, before the redraw |
| PickerView.ColorPickerView.TouchUp | library/src/main/java/co/csadev/colorpicker/ColorPickerView.kt:240-248 | UP calls every selection listener once, in order, with the selected colour |
| PickerView.ColorPickerView.OnTouchEvent | library/src/main/java/co/csadev/colorpicker/ColorPickerView.kt:226-256 | every event is reported handled; DOWN and MOVE re-select, UP reports the selection without changing it, any other action changes nothing |
| PickerView.AsWrittenWheelStaysEmpty | library/src/main/java/co/csadev/colorpicker/ColorPickerView.kt:157-176 | with `updateColorWheel` as written a freshly laid-out view has no wheel canvas and no circles, so a touch anywhere finds nothing |
| PickerView.CorrectedWheelIsFilled | library/src/main/java/co/csadev/colorpicker/ColorPickerView.kt:157-176 | with the intended `updateColorWheel` any positive side gives a canvas and at least `density` circles, and a touch on the first circle finds one |
| Hex.Digits | library/src/main/java/co/csadev/colorpicker/ColorExtensions.kt:35-39 | `%0wX` gives exactly `w` upper-case hexadecimal digits |
| Hex.DigitsValue | library/src/main/java/co/csadev/colorpicker/ColorExtensions.kt:35-39 | reading back the `w` printed digits of `n` gives `n` modulo 16^w |
| Hex.DigitsValueBelow | library/src/main/java/co/csadev/colorpicker/compose/ColorExtensions.kt:79-93 | a number below 16^w is read back exactly from its `w` printed digits |
| Hex.DigitsSuffix | library/src/main/java/co/csadev/colorpicker/ColorExtensions.kt:35-39 | dropping the `k` leading digits of a `k + w` digit rendering leaves the `w` digit rendering of the low part |
| ComposeColors.Color.Alpha | library/src/main/java/co/csadev/colorpicker/compose/ColorExtensions.kt:117 | `Color.alpha` is a fraction in [0, 1] that times 255 is the stored alpha byte |
| ComposeColors.AlphaByte | library/src/main/java/co/csadev/colorpicker/compose/ColorExtensions.kt:55 | the byte `Color.copy(alpha)` stores is in [0, 255] |
| ComposeColors.CopyAlpha | library/src/main/java/co/csadev/colorpicker/compose/ColorExtensions.kt:55 | `copy(alpha = a)` keeps the red, green and blue bytes and stores the byte of the clamped fraction |
| ComposeColors.ToAlphaInt | library/src/main/java/co/csadev/colorpicker/compose/ColorExtensions.kt:112 | `toAlphaInt` is a byte in [0, 255], within half a step of `x·255` for `x` in [0, 1] |
| ComposeColors.ToAlphaFloat | library/src/main/java/co/csadev/colorpicker/compose/ColorExtensions.kt:117 | `toAlphaFloat` is a fraction in [0, 1]: `n/255` for a byte, 0 below and 1 above |
| ComposeColors.AlphaByteRoundTrip | library/src/main/java/co/csadev/colorpicker/compose/ColorExtensions.kt:112-117 | every byte survives `toAlphaFloat` then `toAlphaInt` |
| ComposeColors.AlphaFractionRoundTrip | library/src/main/java/co/csadev/colorpicker/compose/ColorExtensions.kt:112-117 | every fraction comes back from `toAlphaInt` then `toAlphaFloat` to within half of 1/255 |
| ComposeColors.AlphaByteIsToAlphaInt | library/src/main/java/co/csadev/colorpicker/compose/ColorExtensions.kt:112 | the byte `Color.copy` stores for a fraction is the byte `toAlphaInt` computes |
| ComposeColors.CopyAlphaKeepsFraction | library/src/main/java/co/csadev/colorpicker/compose/ColorExtensions.kt:55 | a colour given alpha `a` reports `a` back to within half of 1/255 |
| ComposeColors.NewHSV | library/src/main/java/co/csadev/colorpicker/compose/ColorExtensions.kt:26-36 | construction succeeds exactly when hue is in [0, 360] and saturation and value in [0, 1], and then holds those three values; otherwise the first failed check throws `IllegalArgumentException` with its own message, hue first, then saturation, then value |
| ComposeColors.ToHSV | library/src/main/java/co/csadev/colorpicker/compose/ColorExtensions.kt:41-45 | the HSV built from `colorToHSV` always passes the constructor's checks, so `toHSV` never throws |
| ComposeColors.ToColor | library/src/main/java/co/csadev/colorpicker/compose/ColorExtensions.kt:52-56 | succeeds exactly for alpha in [0, 1], with the platform's RGB for the HSV and the alpha byte of `toAlphaInt`; otherwise throws with the alpha message |
| ComposeColors.Lightness | library/src/main/java/co/csadev/colorpicker/compose/ColorExtensions.kt:61-62 | `Color.lightness` is the HSV value, in [0, 1], and agrees with the classic `Int.lightness` |
| ComposeColors.ApplyLightness | library/src/main/java/co/csadev/colorpicker/compose/ColorExtensions.kt:69-73 | succeeds exactly for lightness in [0, 1], keeping the colour's alpha byte and giving the RGB of its hue and saturation at the new value; otherwise throws with the lightness message |
| ComposeColors.ApplyLightnessAgrees | library/src/main/java/co/csadev/colorpicker/compose/ColorExtensions.kt:69-73 | the colour part of the Compose `applyLightness` is the classic `Int.applyLightness` |
| ComposeColors.HexString | library/src/main/java/co/csadev/colorpicker/compose/ColorExtensions.kt:79-83 | `#` and six hexadecimal digits that denote the colour's RGB bytes |
| ComposeColors.HexStringWithAlpha | library/src/main/java/co/csadev/colorpicker/compose/ColorExtensions.kt:89-93 | `#` and eight hexadecimal digits that denote the whole ARGB word |
| ComposeColors.ParseColorAsWritten | library/src/main/java/co/csadev/colorpicker/compose/ColorExtensions.kt:101-107 | `parseColor()` as written throws an index error exactly on the empty text, which the `IllegalArgumentException` handler does not catch; otherwise `null` exactly where the platform's parser throws and the colour it reads elsewhere |
| ComposeColors.EmptyTextThrows | library/src/main/java/co/csadev/colorpicker/compose/ColorExtensions.kt:101-107 | the empty text throws out of the as-written parser and is `null` for the corrected one; on every other text the two agree |
| ComposeColors.ParseColor | library/src/main/java/co/csadev/colorpicker/compose/ColorExtensions.kt:101-107 | the corrected parser: the empty text is `null`; any other text is `null` exactly where the platform's parser throws `IllegalArgumentException`, otherwise the colour it reads |
| ComposeColors.ParseHexStringWithAlpha | library/src/main/java/co/csadev/colorpicker/compose/ColorExtensions.kt:89-107 | on a platform that reads `#AARRGGBB`, `hexStringWithAlpha` parses back to the same colour |
| ComposeColors.ParseHexString | library/src/main/java/co/csadev/colorpicker/compose/ColorExtensions.kt:79-107 | on a platform that reads `#RRGGBB`, `hexString` parses back to the same colour made opaque |
| PickerState.ValueOf | library/src/main/java/co/csadev/colorpicker/state/ColorPickerState.kt:35-41 | `valueOf` succeeds exactly for the two constant names and returns the constant of that name; any other name throws `IllegalArgumentException` with the JVM's message naming the enum's canonical name |
| PickerState.WheelTypesEnumerated | library/src/main/java/co/csadev/colorpicker/state/ColorPickerState.kt:35-41 | `values()` lists both wheel types and `valueOf` finds each by its name |
| PickerState.NewState | library/src/main/java/co/csadev/colorpicker/state/ColorPickerState.kt:24-48 | construction (and so `copy`) succeeds exactly when alpha and lightness lie in [0, 1] and density ≥ 2; otherwise the first failed check throws with its message, alpha first, then lightness, then density |
| PickerState.DefaultState | library/src/main/java/co/csadev/colorpicker/state/ColorPickerState.kt:24-31 | every default (alpha 1, lightness 1, no colours, FLOWER, density 8) passes the checks |
| PickerState.Copy | library/src/main/java/co/csadev/colorpicker/state/ColorPickerState.kt:24-48 | a `copy` is a valid state that holds the new alpha, lightness and density and keeps the untouched fields, or it throws; it succeeds exactly when the new fractions lie in [0, 1] and density ≥ 2 |
| PickerState.DensityBoundary | library/src/main/java/co/csadev/colorpicker/state/ColorPickerState.kt:46 | density 2 is accepted and density 1 rejected whatever the other fields are |
| PickerState.RememberState | library/src/main/java/co/csadev/colorpicker/state/ColorPickerState.kt:60-79 | the remembered state holds the initial colour and no colours, and exists exactly when the initial fractions and density pass the checks |
| PickerState.RememberDefaults | library/src/main/java/co/csadev/colorpicker/state/ColorPickerState.kt:60-79 | with every argument at its default the remembered state is the default state for white |
| ColorPicker.Deliver | library/src/main/java/co/csadev/colorpicker/ColorPickerEvents.kt:77-96 | each emitted event reaches at most one callback, and only a callback that was given: without `onColorSelected` every call is a change, and without `onColorChanged` every call is a selection; with both callbacks, every event becomes its own call, in emission order |
| ColorPicker.OnlyChangesDelivered | library/src/main/java/co/csadev/colorpicker/ColorPickerEvents.kt:83-94 | when only changes are emitted every delivered call is `onColorChanged`, one per event when it was given and none otherwise |
| ColorPicker.InitialState | library/src/main/java/co/csadev/colorpicker/compose/ColorPicker.kt:51-55 | the state built from the colour's own alpha and lightness always passes the checks and keeps alpha in step with the colour |
| ColorPicker.LightnessChange | library/src/main/java/co/csadev/colorpicker/compose/ColorPicker.kt:86-99 | succeeds exactly for lightness in [0, 1]: only colour and lightness change, the colour is `applyLightness` of the old one, and the event carries the new colour, the old alpha and the new lightness; otherwise throws with the lightness message |
| ColorPicker.AlphaChange | library/src/main/java/co/csadev/colorpicker/compose/ColorPicker.kt:108-121 | succeeds exactly for alpha in [0, 1]: only colour and alpha change, the RGB is kept, and the event carries the new colour, the new alpha and the old lightness; otherwise the state's check throws |
| ColorPicker.HexChange | library/src/main/java/co/csadev/colorpicker/compose/ColorPicker.kt:130-136 | a parsed colour replaces colour, alpha and lightness together, all three from that colour, and the state stays valid |
| ColorPicker.SlidersKeepAlphaInStep | library/src/main/java/co/csadev/colorpicker/compose/ColorPicker.kt:86-121 | both sliders keep the state's alpha in step with its colour's alpha byte |
| ColorPicker.SlidersCommuteOnFractions | library/src/main/java/co/csadev/colorpicker/compose/ColorPicker.kt:86-121 | in either order, the two sliders leave the lightness and the alpha that were given |
| ColorPicker.InitialText | library/src/main/java/co/csadev/colorpicker/compose/ColorPicker.kt:151-153 | the field starts as `#AARRGGBB` with the alpha slider and `#RRGGBB` without |
| ColorPicker.InitialTextNotFlagged | library/src/main/java/co/csadev/colorpicker/compose/ColorPicker.kt:151-170 | on a platform that reads both hash forms the initial text is never flagged as an error, and with alpha it parses to the colour itself |
| ColorPicker.Picker.Retext | library/src/main/java/co/csadev/colorpicker/compose/ColorPicker.kt:151-153 | the field's text is recomputed from the colour exactly when the colour changed |
| ColorPicker.Picker.constructor | library/src/main/java/co/csadev/colorpicker/compose/ColorPicker.kt:42-67 | a new picker holds the state from the initial colour, its hex text and no events |
| ColorPicker.Picker.OnLightnessChange | library/src/main/java/co/csadev/colorpicker/compose/ColorPicker.kt:82-101 | a rejected lightness leaves state, events and text unchanged; an accepted one stores the new state, emits its change event and resets the text to the new colour |
| ColorPicker.Picker.OnAlphaChange | library/src/main/java/co/csadev/colorpicker/compose/ColorPicker.kt:104-123 | a rejected alpha leaves state, events and text unchanged; an accepted one stores the new state, emits its change event and resets the text to the new colour |
| ColorPicker.Picker.OnTextChange | library/src/main/java/co/csadev/colorpicker/compose/ColorPicker.kt:155-163 | the text becomes the upper-cased input; the state changes only when the input parses, and no event is emitted |
| ColorPicker.TextEditOutcome | library/src/main/java/co/csadev/colorpicker/compose/ColorPicker.kt:151-170 | an edit that parses to a new colour resets the field to text that is never flagged; an edit that does not parse is flagged exactly when it is non-empty and its upper-case form does not parse either |
| ColorPicker.NeverSelects | library/src/main/java/co/csadev/colorpicker/compose/ColorPicker.kt:61-67 | the picker emits no selection, so `onColorSelected` is never called |
| ComposeWheel.WheelSize | library/src/main/java/co/csadev/colorpicker/compose/ColorWheel.kt:96 | the wheel's size is the smaller of the canvas's width and height |
| ComposeWheel.TouchSaturation | library/src/main/java/co/csadev/colorpicker/compose/ColorWheel.kt:146-149 | the clamped distance over the radius is a fraction in [0, 1], and is undefined (a NaN) exactly when both radius and distance are zero |
| ComposeWheel.CalculateColorFromPosition | library/src/main/java/co/csadev/colorpicker/compose/ColorWheel.kt:133-157 | a colour is produced exactly when the hue from the angle is in [0, 360], the saturation is defined and lightness and alpha are fractions; its colour bytes are the platform's HSV conversion of (hue, saturation, lightness) and its alpha byte is `alpha` scaled to 0-255; every failure is an `IllegalArgumentException` |
| ComposeWheel.TouchHueInRange | library/src/main/java/co/csadev/colorpicker/compose/ColorWheel.kt:152-153 | with `atan2` in [-PI, PI], the hue computed from the touch angle lies in [0, 360) |
| ComposeWheel.EveryPositionPicks | library/src/main/java/co/csadev/colorpicker/compose/ColorWheel.kt:133-157 | on a wheel of positive size with lightness and alpha in range, every touch position yields a colour |
| ComposeWheel.TouchSaturationProfile | library/src/main/java/co/csadev/colorpicker/compose/ColorWheel.kt:148-149 | the saturation is 0 at the centre, the distance over the radius inside the wheel and 1 on and beyond the rim |
| ComposeWheel.DrawnRimBelowFullSaturation | library/src/main/java/co/csadev/colorpicker/compose/ColorWheel.kt:99 | because the wheel is drawn two strokes inside the radius picking divides by, a touch on the outermost drawn ring picks a saturation below 1 |
| ComposeWheel.DrawnMaxRadius | library/src/main/java/co/csadev/colorpicker/compose/ColorWheel.kt:99 | with a positive stroke the drawn radius is below half the wheel's size |
| ComposeWheel.StyleOf | library/src/main/java/co/csadev/colorpicker/compose/ColorWheel.kt:102-105 | `FLOWER` is drawn by the flower renderer and `CIRCLE` by the simple renderer, and no other way round |
| ComposeWheel.FrameOption | library/src/main/java/co/csadev/colorpicker/compose/ColorWheel.kt:107-117 | the frame's option is built exactly when density is at least 2 and both fractions are in range; it is then valid, targets the canvas, centres on the canvas, has the drawn radius and a base size of radius / density / 2 |
| ComposeWheel.DrawFrame | library/src/main/java/co/csadev/colorpicker/compose/ColorWheel.kt:94-121 | a frame draws only when its option is valid, with a renderer of the type's style; the renderer's samples are then those of the wheel layout and the canvas gains exactly the layout's discs, and a failed option leaves the canvas untouched |
| ComposeWheel.Gestures.constructor | library/src/main/java/co/csadev/colorpicker/compose/ColorWheel.kt:50 | the remembered colour starts as red and no callback has been called |
| ComposeWheel.Gestures.Tap | library/src/main/java/co/csadev/colorpicker/compose/ColorWheel.kt:58-71 | a tap stores the colour at the position and then calls `onColorChange` and then `onColorSelected` with it, each only when given; an invalid position changes nothing |
| ComposeWheel.Gestures.Drag | library/src/main/java/co/csadev/colorpicker/compose/ColorWheel.kt:75-88 | a drag step stores the colour at the new position and calls only `onColorChange` with it |
| ComposeWheel.Gestures.DragEnd | library/src/main/java/co/csadev/colorpicker/compose/ColorWheel.kt:89-91 | the end of a drag calls `onColorSelected` with the stored colour and changes nothing else |
| PickerDialog.DialogState.constructor | library/src/main/java/co/csadev/colorpicker/compose/ColorPickerDialog.kt:92-99 | a new dialog state is hidden and holds the initial colour |
| PickerDialog.DialogState.Show | library/src/main/java/co/csadev/colorpicker/compose/ColorPickerDialog.kt:101-103 | `show` makes the state showing and touches nothing else |
| PickerDialog.DialogState.Hide | library/src/main/java/co/csadev/colorpicker/compose/ColorPickerDialog.kt:105-107 | `hide` makes the state hidden and touches nothing else |
| PickerDialog.DialogState.UpdateColor | library/src/main/java/co/csadev/colorpicker/compose/ColorPickerDialog.kt:109-111 | `updateColor` sets only the selected colour |
| PickerDialog.DialogInitialState | library/src/main/java/co/csadev/colorpicker/compose/ColorPickerDialog.kt:51 | the dialog's own picker state starts valid, with every default and the initial colour |
| PickerDialog.WithColor | library/src/main/java/co/csadev/colorpicker/compose/ColorPickerDialog.kt:65-67 | copying a valid state with a new colour never fails and changes nothing but the colour |
| PickerDialog.Dialog.constructor | library/src/main/java/co/csadev/colorpicker/compose/ColorPickerDialog.kt:51-69 | the dialog starts with its default state on the initial colour, an embedded picker on the same colour with the three visibility flags, and no callback called |
| PickerDialog.Dialog.OnLightnessChange | library/src/main/java/co/csadev/colorpicker/compose/ColorPickerDialog.kt:65-67 | a lightness change that the picker accepts (exactly a fraction in [0, 1]) sets the dialog's colour to the picker's new colour and nothing else; a rejected one changes neither state |
| PickerDialog.Dialog.OnAlphaChange | library/src/main/java/co/csadev/colorpicker/compose/ColorPickerDialog.kt:65-67 | an alpha change that the picker accepts (exactly a fraction in [0, 1]) sets the dialog's colour to the picker's new colour and nothing else; a rejected one changes neither state |
| PickerDialog.Dialog.OnTextChange | library/src/main/java/co/csadev/colorpicker/compose/ColorPickerDialog.kt:65-67 | a hex edit updates the picker's colour when it parses but leaves the dialog's colour alone, because the picker emits no change event for it |
| PickerDialog.Dialog.Confirm | library/src/main/java/co/csadev/colorpicker/compose/ColorPickerDialog.kt:71-75 | confirm calls `onColorSelected` with the dialog's colour and then `onDismissRequest`, in that order |
| PickerDialog.Dialog.Dismiss | library/src/main/java/co/csadev/colorpicker/compose/ColorPickerDialog.kt:79-81 | the dismiss button calls only `onDismissRequest`, with no selection |
| PickerDialog.ConfirmAfterHexEdit | library/src/main/java/co/csadev/colorpicker/compose/ColorPickerDialog.kt:65-75 | confirming right after a hex edit selects the colour the dialog held before the edit |
| PickerDialog.Host.constructor | library/src/main/java/co/csadev/colorpicker/compose/ColorPickerDialog.kt:140-153 | a host over a hidden state composes no dialog and has forwarded nothing |
| PickerDialog.Host.Show | library/src/main/java/co/csadev/colorpicker/compose/ColorPickerDialog.kt:154-170 | after `show` the dialog is composed, a new one starting on the state's colour, and an already composed one is kept |
| PickerDialog.Host.Confirm | library/src/main/java/co/csadev/colorpicker/compose/ColorPickerDialog.kt:155-160 | confirming under the host updates the state's colour to the dialog's colour, then forwards that colour, then hides the state so the dialog leaves the composition |
| PickerDialog.Host.Dismiss | library/src/main/java/co/csadev/colorpicker/compose/ColorPickerDialog.kt:156 | dismissing under the host hides the state, keeps its colour and forwards nothing |
| DialogBuilder.FirstEmpty | library/src/main/java/com/flask/colorpicker/builder/ColorPickerDialogBuilder.kt:251-254 | the index returned is the first empty slot: every slot before it is filled and it is empty or the end of the array |
| DialogBuilder.StartOffsetInPrefix | library/src/main/java/com/flask/colorpicker/builder/ColorPickerDialogBuilder.kt:249-258 | the start offset is half the filled prefix rounded down, so it names a filled slot whenever slot 0 is filled, and the prefix is empty exactly when slot 0 is empty or there are no slots |
| DialogBuilder.StartColor | library/src/main/java/com/flask/colorpicker/builder/ColorPickerDialogBuilder.kt:260-262 | the start colour fails, with an index error, exactly on an array with no slots |
| DialogBuilder.StartColorWhite | library/src/main/java/com/flask/colorpicker/builder/ColorPickerDialogBuilder.kt:249-262 | the start colour is white when slot 0 is empty, and otherwise is the colour held in the (filled) start slot |
| DialogBuilder.Seeded | library/src/main/java/com/flask/colorpicker/builder/ColorPickerDialogBuilder.kt:72-79 | `initialColors` fills the first min(n, 5) slots with the given colours and leaves every later slot as it was |
| DialogBuilder.SeededIdempotent | library/src/main/java/com/flask/colorpicker/builder/ColorPickerDialogBuilder.kt:67-79 | seeding twice with the same colours is seeding once, and seeding one colour changes slot 0 only, as `initialColor` does |
| DialogBuilder.Swatches | library/src/main/java/com/flask/colorpicker/builder/ColorPickerDialogBuilder.kt:232-240 | the preview holds min(first empty slot, pickerCount) swatches, each the colour of its slot |
| DialogBuilder.SwatchesBound | library/src/main/java/com/flask/colorpicker/builder/ColorPickerDialogBuilder.kt:232-240 | the preview has at most min(pickerCount, slot count) swatches and none at or past an empty slot |
| DialogBuilder.GetStartOffset | library/src/main/java/com/flask/colorpicker/builder/ColorPickerDialogBuilder.kt:249-258 | the loop returns half the index of the first empty slot (or of the array's length), rounded down |
| DialogBuilder.FirstEmptyAt | library/src/main/java/com/flask/colorpicker/builder/ColorPickerDialogBuilder.kt:251-254 | a filled prefix of length k ending at an empty slot or the end places the first empty slot at k |
| DialogBuilder.PreviewSwatches | library/src/main/java/com/flask/colorpicker/builder/ColorPickerDialogBuilder.kt:228-241 | the preview loop adds exactly the swatches described above, and none for an array with no slots |
| DialogBuilder.ColorPickerDialogBuilder.constructor | library/src/main/java/com/flask/colorpicker/builder/ColorPickerDialogBuilder.kt:28-36 | a new builder has five empty slots, both sliders and the border on, edit and preview off, and one picker |
| DialogBuilder.ColorPickerDialogBuilder.SetInitialColor | library/src/main/java/com/flask/colorpicker/builder/ColorPickerDialogBuilder.kt:67-70 | `initialColor` writes slot 0 and no other slot |
| DialogBuilder.ColorPickerDialogBuilder.SetInitialColors | library/src/main/java/com/flask/colorpicker/builder/ColorPickerDialogBuilder.kt:72-79 | the copy loop leaves the slots as `Seeded` describes |
| DialogBuilder.ColorPickerDialogBuilder.NoSliders | library/src/main/java/com/flask/colorpicker/builder/ColorPickerDialogBuilder.kt:122-126 | both slider flags are off |
| DialogBuilder.ColorPickerDialogBuilder.AlphaSliderOnly | library/src/main/java/com/flask/colorpicker/builder/ColorPickerDialogBuilder.kt:128-132 | only the alpha slider flag is on |
| DialogBuilder.ColorPickerDialogBuilder.LightnessSliderOnly | library/src/main/java/com/flask/colorpicker/builder/ColorPickerDialogBuilder.kt:134-138 | only the lightness slider flag is on |
| DialogBuilder.ColorPickerDialogBuilder.ShowAlphaSlider | library/src/main/java/com/flask/colorpicker/builder/ColorPickerDialogBuilder.kt:140-143 | the alpha slider flag takes the given value and nothing else changes |
| DialogBuilder.ColorPickerDialogBuilder.ShowLightnessSlider | library/src/main/java/com/flask/colorpicker/builder/ColorPickerDialogBuilder.kt:145-148 | the lightness slider flag takes the given value and nothing else changes |
| DialogBuilder.ColorPickerDialogBuilder.ShowBorder | library/src/main/java/com/flask/colorpicker/builder/ColorPickerDialogBuilder.kt:150-153 | the border flag takes the given value and nothing else changes |
| DialogBuilder.ColorPickerDialogBuilder.ShowColorEdit | library/src/main/java/com/flask/colorpicker/builder/ColorPickerDialogBuilder.kt:155-158 | the colour edit flag takes the given value and nothing else changes |
| DialogBuilder.ColorPickerDialogBuilder.ShowColorPreview | library/src/main/java/com/flask/colorpicker/builder/ColorPickerDialogBuilder.kt:165-170 | the preview flag takes the given value, and turning the preview off resets the picker count to 1 |
| DialogBuilder.ColorPickerDialogBuilder.SetPickerCount | library/src/main/java/com/flask/colorpicker/builder/ColorPickerDialogBuilder.kt:172-180 | a count outside 1..5 throws `IndexOutOfBoundsException` with the source's message and changes nothing; a count inside is stored and a count above 1 turns the preview on; a count above 1 never coexists with the preview off |
| DialogBuilder.WithStartFilledEffect | library/src/main/java/co/csadev/colorpicker/ColorPickerView.kt:336-342 | the view's write-back only fills an empty slot 0 with white and leaves filled slots alone; afterwards slot 0 is filled, a filled start slot keeps its start colour, and the preview shows at least one swatch |
| DialogBuilder.ColorPickerDialogBuilder.Build | library/src/main/java/com/flask/colorpicker/builder/ColorPickerDialogBuilder.kt:182-244 | the picker gets the slots and the start offset computed first, and writes the start colour, white for an empty slot, back into the builder's own array; each enabled slider and the edit field then start from the start colour of the written array, which always exists for the five slots; the edit field is limited to 9 characters with the alpha slider and 7 without and shows `#AARRGGBB` or `#RRGGBB` accordingly; the preview, when on, lists the written array's filled slots up to the picker count |
| CustomSlider.ClampUnit | library/src/main/java/com/flask/colorpicker/slider/AbsCustomSlider.kt:141 | the clamp yields a value in [0, 1], keeps a value already there and sends values below and above to 0 and 1 |
| CustomSlider.TouchValueMonotone | library/src/main/java/com/flask/colorpicker/slider/AbsCustomSlider.kt:136-140 | a horizontal slider's value grows with the touch's x and a vertical one's shrinks with its y; the bar's two ends give 0 and 1 |
| CustomSlider.HandleWithinBar | library/src/main/java/com/flask/colorpicker/slider/AbsCustomSlider.kt:94 | for a value in [0, 1] the handle lies within one handle radius of both ends of the view |
| CustomSlider.HandleFollowsTouch | library/src/main/java/com/flask/colorpicker/slider/AbsCustomSlider.kt:136-141 | with the bar inset by the handle radius, a touch on the bar moves the handle exactly under the finger, in both orientations |
| CustomSlider.AbsCustomSlider.constructor | library/src/main/java/com/flask/colorpicker/slider/AbsCustomSlider.kt:15-26 | a new slider has value 1, handle radius 20, bar height 5, bar offset 0, no bar or bitmap and no calls |
| CustomSlider.AbsCustomSlider.UpdateBar | library/src/main/java/com/flask/colorpicker/slider/AbsCustomSlider.kt:41-51 | the handle radius and bar height come from the resources and the bar offset equals the radius; an existing bar is kept as it is, and otherwise the bitmaps are created as `CreateBitmaps` states |
| CustomSlider.AbsCustomSlider.CreateBitmaps | library/src/main/java/com/flask/colorpicker/slider/AbsCustomSlider.kt:53-72 | the bar is the view's length (its height when vertical) less twice the offset; creation fails with `IllegalArgumentException` exactly when the bar or the view bitmap would be empty, and on success the view bitmap has the view's oriented size |
| CustomSlider.AbsCustomSlider.OnTouchEvent | library/src/main/java/com/flask/colorpicker/slider/AbsCustomSlider.kt:132-153 | a press or move with a bar sets the value to the clamped touch share and reports it to the hook; without a bar it changes nothing; a release reports the unchanged value to the hook and then to the listener when there is one; other actions do nothing; every event is consumed |
| CustomizableSample.SignLength | app/src/main/java/co/csadev/colorpicker/sample/screens/CustomizableScreen.kt:221 | the sign `toLong` accepts is at most one leading character |
| CustomizableSample.ParseLong16 | app/src/main/java/co/csadev/colorpicker/sample/screens/CustomizableScreen.kt:226-233 | `toLong(16)` on ASCII text succeeds only on an optional sign followed by at least one ASCII hexadecimal digit of either case with a value in the `Long` range, and always when the digits' value is at most `Long.MAX_VALUE`; its value is the digits' value, negated after a `-` |
| CustomizableSample.ParseLong16Digits | app/src/main/java/co/csadev/colorpicker/sample/screens/CustomizableScreen.kt:226-233 | reading back `w` printed upper-case digits of a number below 16^w gives that number |
| CustomizableSample.ParseLong16Rejects | app/src/main/java/co/csadev/colorpicker/sample/screens/CustomizableScreen.kt:222-241 | empty text, a bare sign and any text with a non-digit after the sign are rejected, and the field then ignores the input |
| CustomizableSample.HexOf | app/src/main/java/co/csadev/colorpicker/sample/screens/CustomizableScreen.kt:221 | the digits read are the input less one leading `#`, so a `#`-prefixed input loses exactly one character |
| CustomizableSample.TypedColor | app/src/main/java/co/csadev/colorpicker/sample/screens/CustomizableScreen.kt:221-241 | a colour is read exactly when the digits are 6 or 8 long and parse; six digits give an opaque colour with the parsed colour bytes, eight give the low 32 bits of the parsed number |
| CustomizableSample.HexOfRendering | app/src/main/java/co/csadev/colorpicker/sample/screens/CustomizableScreen.kt:221 | upper-case digits, with or without a `#` in front, are read as themselves |
| CustomizableSample.TypedRenderingWithAlpha | library/src/main/java/co/csadev/colorpicker/compose/ColorExtensions.kt:89-93 | typing a colour's `#AARRGGBB` rendering into the hex field reads back that colour |
| CustomizableSample.TypedRenderingDigits | app/src/main/java/co/csadev/colorpicker/sample/screens/CustomizableScreen.kt:231-237 | typing the eight digits without the `#` also reads back the colour |
| CustomizableSample.TypedRenderingOpaque | app/src/main/java/co/csadev/colorpicker/sample/screens/CustomizableScreen.kt:224-230 | typing a colour's `#RRGGBB` rendering reads back the colour made opaque |
| CustomizableSample.UppercaseDropsPrefix | app/src/main/java/co/csadev/colorpicker/sample/screens/CustomizableScreen.kt:219-221 | upper-casing and dropping a leading `#` commute |
| CustomizableSample.TypedColorIgnoresCase | app/src/main/java/co/csadev/colorpicker/sample/screens/CustomizableScreen.kt:219-221 | the upper-cased text the field shows reads the same colour as the typed input |
| CustomizableSample.FinalColor | app/src/main/java/co/csadev/colorpicker/sample/screens/CustomizableScreen.kt:105 | the final colour exists exactly when the lightness is in [0, 1]; its colour bytes are the base colour's hue and saturation at that lightness and its alpha byte is the alpha slider's value |
| CustomizableSample.AlphaByteOfOwnAlpha | library/src/main/java/co/csadev/colorpicker/compose/ColorExtensions.kt:112-117 | a colour's alpha fraction packs back to its own alpha byte |
| CustomizableSample.FinalColorAfterEntry | app/src/main/java/co/csadev/colorpicker/sample/screens/CustomizableScreen.kt:105 | after a colour is entered the screen shows it exactly when the platform maps its hue and saturation at value 1 back to its colour bytes |
| CustomizableSample.FinalColorIsTypedOnlyAtFullValue | app/src/main/java/co/csadev/colorpicker/sample/screens/CustomizableScreen.kt:105 | on a platform whose conversions invert each other there, an entered colour is shown unchanged if and only if its HSV value is 1 |
| CustomizableSample.CustomizableScreen.constructor | app/src/main/java/co/csadev/colorpicker/sample/screens/CustomizableScreen.kt:97-102 | the screen starts on red, the circle wheel, density 12, full lightness and alpha and the text "FFFF0000" |
| CustomizableSample.CustomizableScreen.OnHexChange | app/src/main/java/co/csadev/colorpicker/sample/screens/CustomizableScreen.kt:218-242 | the text always becomes the upper-cased input; a colour read from it becomes the opaque base colour with the same colour bytes, the alpha slider takes its alpha (1 for six digits) and the lightness returns to 1; unreadable text changes nothing else |
| CustomizableSample.OpaqueCopy | app/src/main/java/co/csadev/colorpicker/sample/screens/CustomizableScreen.kt:226-228 | an opaque colour is unchanged by making it opaque and its alpha fraction is 1, so the six-digit branch agrees with the eight-digit one |
| PickerPreference.ScaledChannel | library/src/main/java/com/flask/colorpicker/ColorPickerPreference.kt:138-140 | a byte scaled by a factor in [0, 1] is the whole part of the product, between 0 and the byte |
| PickerPreference.TruncOfByteRange | library/src/main/java/com/flask/colorpicker/ColorPickerPreference.kt:138-140 | on a product between 0 and a byte, `max(toInt(), 0)` is the product's floor |
| PickerPreference.DarkenScalesChannels | library/src/main/java/com/flask/colorpicker/ColorPickerPreference.kt:131-141 | for a factor in [0, 1], `darken` keeps the alpha byte and sets each colour byte to the whole part of its product with the factor, never above the original |
| PickerPreference.DarkenCarriesIntoAlpha | library/src/main/java/com/flask/colorpicker/ColorPickerPreference.kt:137-140 | with no upper clamp, a factor above 1 lets a colour byte reach 256, and its carry changes the alpha byte (red 128 of a transparent colour, doubled, gives alpha 1) |
| PickerPreference.ArgbCarry | library/src/main/java/com/flask/colorpicker/ColorPickerPreference.kt:137-140 | `Color.argb(0, 256, 0, 0)` sets the lowest alpha bit, since `argb` does not mask its arguments |
| PickerPreference.ColorPickerPreference.constructor | library/src/main/java/com/flask/colorpicker/ColorPickerPreference.kt:16-66 | without styled attributes every field keeps its initialiser; with them each missing attribute takes its default: sliders off, border on, density 8, the first wheel type, opaque white, colour edit on, "Choose color", "cancel" and "ok" |
| PickerPreference.ColorPickerPreference.IndicatorColor | library/src/main/java/com/flask/colorpicker/ColorPickerPreference.kt:72-75 | a disabled preference's indicator keeps the alpha byte and halves each colour byte of the selected colour |
| PickerPreference.ColorPickerPreference.OnBindView | library/src/main/java/com/flask/colorpicker/ColorPickerPreference.kt:69-88 | the indicator gets a drawable of the indicator colour only when it has none, and otherwise keeps the one it has |
| PickerPreference.ColorPickerPreference.SetValue | library/src/main/java/com/flask/colorpicker/ColorPickerPreference.kt:90-96 | when the change listener accepts, the colour is stored, persisted and announced once; otherwise nothing changes |
| PickerPreference.ColorPickerPreference.OnSetInitialValueAsWritten | library/src/main/java/com/flask/colorpicker/ColorPickerPreference.kt:98-100 | as written, a null default throws `NullPointerException` on entry and changes nothing, on a restore as well. A non-null default sets the persisted value (0 when none) on restore and the default otherwise. It then follows `setValue`'s acceptance rule: an accepted value is stored, persisted and announced once, and a refused one changes nothing |
| PickerPreference.ColorPickerPreference.OnSetInitialValue | library/src/main/java/com/flask/colorpicker/ColorPickerPreference.kt:98-100 | with a nullable default, a restore never throws and sets the persisted value (0 when none) whatever the default is. Otherwise the default is set, and only a null default throws, in the cast. Both paths follow `setValue`'s acceptance rule: an accepted value is stored, persisted and announced once, and a refused one changes nothing |
| PickerPreference.ColorPickerPreference.OnClickAsWritten | library/src/main/java/com/flask/colorpicker/ColorPickerPreference.kt:102-116 | every click throws `NullPointerException`, so no dialog is ever built |
| PickerPreference.ColorPickerPreference.OnClick | library/src/main/java/com/flask/colorpicker/ColorPickerPreference.kt:102-126 | with the cancel listener absent, a dialog is built exactly when the title and both button texts are present; it starts from slot 0 holding the selected colour, with the preference's border, edit and slider flags and no preview; otherwise `NullPointerException` |
| PickerPreference.SelectSliders | library/src/main/java/com/flask/colorpicker/ColorPickerPreference.kt:118-122 | starting from both sliders on, the three-way choice leaves the alpha slider on exactly when `alphaSlider` is set and the lightness slider on exactly when `lightSlider` is set |
| PickerPreference.HalfChannel | library/src/main/java/com/flask/colorpicker/ColorPickerPreference.kt:75 | a byte scaled by 0.5 is its integer half |

## Left out

- Pixel output: bitmaps, `Paint`, shaders, borders, `invalidate` and Compose drawing are not modelled. A canvas is only the list of discs drawn on it.
- The view lifecycle's plumbing is not modelled: `onWindowFocusChanged`, `onLayout`, `onSizeChanged` and `onDraw` of `ColorPickerView`, and `onMeasure` and `onDraw` of `AbsCustomSlider`. The model keeps only the work they delegate: `updateColorWheel`, `drawColorWheel`, the measured size and the slider's handle position.
- `ColorPickerView`'s preview, slider and edit-text wiring is not modelled, because it only forwards values to other views. This covers `setLightnessSlider`, `setAlphaSlider`, `setColorEdit`, `setColorEditTextColor`, `setColorPreview`, `setShowBorder`, `setHighlightedColor`, `setColorPreviewColor`, `setColorText`, `setColorToSliders` and the text watcher.
- The Compose slider widgets and the Compose `ColorPickerPreference` are not part of this model.
- The library calls `Color.HSVToColor`, `Color.colorToHSV`, `Color.parseColor`/`toColorInt`, `cos`, `sin`, `atan2`, `hypot` and `asin` but does not define them. They are parameters. Properties that need their standard behaviour state it as a precondition, for example `atan2` in [-PI, PI].
- Floating point: NaN, infinities and `Float` rounding are not modelled, and reals are exact. The one NaN the Compose touch path can reach, 0/0 at a zero-size wheel, is modelled as an absent saturation.
- `LegacyFlower.LegacyFlowerRenderer.Draw`: density 1 and radius 0 divide by zero in the legacy flower draw. The model requires `Numeric`, which excludes them.
- `LegacyFlower.PaintAlpha`: an alpha outside [0, 1] is kept to the paint's byte by taking it modulo 256. This assumes how `Paint.setAlpha` treats such a value, which its documentation leaves undefined. The contract's rounding bound is stated only for alpha in [0, 1].
- `PickerPreference.ColorPickerPreference.OnSetInitialValue`: the framework caller, `Preference.dispatchSetInitialValue`, is not part of this model. It passes a null default on every restore, so `restoreValue` and `defaultValue` are free parameters.
- `ComposeWheel.Gestures.Tap` and `ComposeWheel.Gestures.Drag`: each gesture is assumed to see the current `lightness` and `alpha`. The handlers start under `pointerInput(Unit)`, whose fixed key does not restart the block. Whether a recomposition with new values reaches a running handler depends on the Compose version, which is not part of this model.
- Coroutines: `SharedFlow` buffering, replay and collection scheduling in `ColorPickerEvents` are not modelled. Events are delivered in emission order.
- Persistence: `persistInt`, `getPersistedInt` and `callChangeListener` are not modelled. The persisted value and the listener's answer are a field and a parameter.
- Dialog chrome: the `AlertDialog` titles, buttons, theming, `DialogProperties`, `show()`, and `ColorPickerDialogBuilder`'s `with`, `setTitle`, `wheelType`, `density`, listener and button setters are not modelled. Those builder setters forward to the `com.flask` `ColorPickerView`, which is not part of this model. The builder's view is taken to behave like the `co.csadev` `ColorPickerView`, whose own setters are modelled.
- `PickerDialog.Dialog.constructor`: the dialog passes `wheelType` and `content` to `ColorPicker`, but `ColorPicker`'s signature at `ColorPicker.kt:42-50` declares neither. The model passes only the declared parameters.
- The legacy `com.flask` `ColorCircle`, `ColorWheelRenderOption` and `ColorCircleDrawable` classes are not part of this model. The legacy renderer works on sample values instead.
- `ColorCircles.ColorCircle.SqDist`: the converse, that the distance is zero only at the circle's own position, is not proved.
- `Text.Uppercase`: models ASCII case mapping only. Kotlin's `uppercase()` uses the full Unicode mapping, which also raises non-ASCII letters and can lengthen the text (`ß` becomes `SS`).
- `CustomizableSample.ParseLong16`: models ASCII digits only. Kotlin's `toLong(16)` reads digits with `Character.digit`, which also accepts other Unicode decimal digits and the full-width Latin letters.
- `CustomizableSample.ParseLong16`: the one value whose magnitude exceeds `Long.MAX_VALUE` yet parses, `-8000000000000000`, is not covered by the success direction of the contract.
- `PickerView.ColorPickerView.SetInitialColors`: in the model the view keeps a copy of the slots. The source shares the caller's array (`allColors = colors` at `ColorPickerView.kt:337`), so in the model a later write by the view (`setSelectedColor`, `setColor`) does not reach the builder's array. Only the one write-back made during `build()` is modelled, in `DialogBuilder.ColorPickerDialogBuilder.Build`.
- `PickerView.ColorPickerView.SetColor`: redraws with the corrected `UpdateColorWheel` listed under Findings, not the as-written one it calls at `ColorPickerView.kt:376`.
- `PickerView.ColorPickerView.SetSelectedColor`: redraws through `SetColor`, so with the corrected `UpdateColorWheel`, not the as-written one.
- `PickerView.ColorPickerView.SetLightness`: redraws with the corrected `UpdateColorWheel`, not the as-written one it calls at `ColorPickerView.kt:370`.
- `PickerView.ColorPickerView.SetAlphaValue`: redraws with the corrected `UpdateColorWheel`, not the as-written one it calls at `ColorPickerView.kt:391`.
- `PickerView.ColorPickerView.TouchMove`: redraws with the corrected `UpdateColorWheel`, not the as-written one it calls at `ColorPickerView.kt:237`.
- `PickerView.ColorPickerView.OnTouchEvent`: redraws through `TouchMove`, so with the corrected `UpdateColorWheel`, not the as-written one.
- `ColorPicker.Picker.OnTextChange`, `ColorPicker.TextEditOutcome`, `ColorPicker.IsError` and `PickerDialog.Dialog.OnTextChange`: use the corrected `ComposeColors.ParseColor` listed under Findings, so clearing the edit field leaves the state alone instead of throwing.
- The snapshot and renderer tests and the sample app's other screens are not part of this model.

## Findings

| source | as written | input that shows it | evidently intended | confidence | as-written member | corrected member |
|---|---|---|---|---|---|---|
| library/src/main/java/com/flask/colorpicker/ColorPickerPreference.kt:116 | the cancel button's listener is `null!!`, which throws `NullPointerException` on every click before the dialog is built | any click on the preference | a cancel button with no listener, so the dialog is built and shown | not executed | PickerPreference.ColorPickerPreference.OnClickAsWritten | PickerPreference.ColorPickerPreference.OnClick |
| library/src/main/java/com/flask/colorpicker/ColorPickerPreference.kt:98 | `defaultValue` is declared `Any`, so Kotlin's parameter check throws `NullPointerException` when it is null, before the body runs, even though a restore never reads it | `onSetInitialValue(true, null)`, the call Android's preference framework makes to restore a persisted value | the nullable `Any?` of the overridden method, so that a restore sets the persisted value | not executed; medium | PickerPreference.ColorPickerPreference.OnSetInitialValueAsWritten | PickerPreference.ColorPickerPreference.OnSetInitialValue |
| library/src/main/java/co/csadev/colorpicker/compose/ColorExtensions.kt:101-107 | `parseColor()` catches only `IllegalArgumentException`, but `Color.parseColor` reads the first character and throws `StringIndexOutOfBoundsException` on the empty text, so clearing the edit field at `ColorPicker.kt:157-163` throws | the text `""` | `null` for the empty text, as `isError`'s `text.isNotEmpty()` at `ColorPicker.kt:170` expects | not executed; high | ComposeColors.ParseColorAsWritten | ComposeColors.ParseColor |
| library/src/main/java/co/csadev/colorpicker/ColorPickerView.kt:165-173 | the bitmaps are created inside `colorWheel?.let { ... }`, which runs only when a bitmap already exists, so a new view never gets a wheel bitmap, canvas or circles | the first layout of a view at any positive size | create the bitmaps when there are none, or when their size differs | not executed | PickerView.ColorPickerView.UpdateColorWheelAsWritten | PickerView.ColorPickerView.UpdateColorWheel |
