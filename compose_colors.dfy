/**
 * The Compose-side colour helpers: the validated `HSV` value, conversions
 * between `Color` and HSV, lightness, hex renderings, string parsing and the
 * alpha byte/fraction conversions.
 *
 * A Compose `Color` in the sRGB space keeps its channels as one 32-bit ARGB
 * word, so it is modelled by that word; its alpha is the top byte over 255.
 */
module ComposeColors {
  import opened Wrappers
  import opened Numerics
  import opened Android
  import opened Hex
  import ColorExtensions

  datatype Color = Color(argb: Bits32) {
    /** `Color.alpha`. */
    function Alpha(): (a: real)
      ensures 0.0 <= a <= 1.0
      ensures a * 255.0 == AlphaOf(argb) as real
    {
      ColorExtensions.IntAlpha(argb)
    }
  }

  const WHITE: Color := Color(0xFFFF_FFFF)
  const RED: Color := Color(0xFFFF_0000)

  /** The byte Compose stores for an alpha fraction: the fraction clamped to [0, 1], scaled and rounded half up. */
  function AlphaByte(a: real): (n: int)
    ensures 0 <= n <= 255
  {
    TruncToInt(ClampReal(a, 0.0, 1.0) * 255.0 + 0.5)
  }

  /** `Color.copy(alpha = a)`: the same red, green and blue with a new alpha. */
  function CopyAlpha(c: Color, a: real): (r: Color)
    ensures RgbOf(r.argb) == RgbOf(c.argb)
    ensures AlphaOf(r.argb) == AlphaByte(a)
  {
    Color(MakeArgb(AlphaByte(a), RgbOf(c.argb)))
  }

  /** `Float.toAlphaInt()`: round(x * 255) clamped to [0, 255]. */
  function ToAlphaInt(x: real): (n: int)
    ensures 0 <= n <= 255
    ensures 0.0 <= x <= 1.0 ==> n as real - 0.5 <= x * 255.0 < n as real + 0.5
  {
    ClampInt(RoundToInt(x * 255.0), 0, 255)
  }

  /** `Int.toAlphaFloat()`: n / 255 clamped to [0, 1]. */
  function ToAlphaFloat(n: int): (x: real)
    ensures 0.0 <= x <= 1.0
    ensures 0 <= n <= 255 ==> x * 255.0 == n as real
    ensures n < 0 ==> x == 0.0
    ensures n > 255 ==> x == 1.0
  {
    ClampReal(n as real / 255.0, 0.0, 1.0)
  }

  /** Every alpha byte survives the trip to a fraction and back. */
  lemma AlphaByteRoundTrip(n: int)
    requires 0 <= n <= 255
    ensures ToAlphaInt(ToAlphaFloat(n)) == n
  {
  }

  /** Every alpha fraction comes back from the byte to within half a step of 1/255. */
  lemma AlphaFractionRoundTrip(x: real)
    requires 0.0 <= x <= 1.0
    ensures -0.5 <= (ToAlphaFloat(ToAlphaInt(x)) - x) * 255.0 <= 0.5
  {
  }

  /** The byte Compose stores for a fraction is the byte `toAlphaInt` computes from it. */
  lemma AlphaByteIsToAlphaInt(a: real)
    ensures AlphaByte(a) == ToAlphaInt(a)
  {
    if 0.0 <= a <= 1.0 {
      assert (a * 255.0 + 0.5).Floor >= 0;
    }
  }

  /** A `Color` carries back exactly the alpha fraction it was given, up to its 8-bit step. */
  lemma CopyAlphaKeepsFraction(c: Color, a: real)
    requires 0.0 <= a <= 1.0
    ensures -0.5 <= (CopyAlpha(c, a).Alpha() - a) * 255.0 <= 0.5
    ensures CopyAlpha(c, a).Alpha() == ToAlphaFloat(ToAlphaInt(a))
  {
    AlphaByteIsToAlphaInt(a);
    AlphaFractionRoundTrip(a);
  }

  /** The `HSV` value class; its constructor checks the three ranges. */
  datatype HSV = HSV(hue: real, saturation: real, value: real)

  predicate ValidHsv(c: HSV) {
    0.0 <= c.hue <= 360.0 && 0.0 <= c.saturation <= 1.0 && 0.0 <= c.value <= 1.0
  }

  /** `HSV(h, s, v)`: the first failed `require` throws `IllegalArgumentException` with its message. */
  function NewHSV(h: real, s: real, v: real): (r: Result<HSV>)
    ensures r.Ok? <==> ValidHsv(HSV(h, s, v))
    ensures r.Ok? ==> r.value == HSV(h, s, v)
    ensures r.Err? ==> r.error.IllegalArgument?
    ensures !(0.0 <= h <= 360.0) ==> r == Err(IllegalArgument("Hue must be between 0 and 360"))
    ensures 0.0 <= h <= 360.0 && !(0.0 <= s <= 1.0) ==> r == Err(IllegalArgument("Saturation must be between 0 and 1"))
    ensures 0.0 <= h <= 360.0 && 0.0 <= s <= 1.0 && !(0.0 <= v <= 1.0) ==>
              r == Err(IllegalArgument("Value must be between 0 and 1"))
  {
    if !(0.0 <= h <= 360.0) then Err(IllegalArgument("Hue must be between 0 and 360"))
    else if !(0.0 <= s <= 1.0) then Err(IllegalArgument("Saturation must be between 0 and 1"))
    else if !(0.0 <= v <= 1.0) then Err(IllegalArgument("Value must be between 0 and 1"))
    else Ok(HSV(h, s, v))
  }

  /** `Color.toHSV()`: what `colorToHSV` reports is always in range, so the construction never throws. */
  function ToHSV(p: Platform, c: Color): (r: HSV)
    ensures ValidHsv(r)
    ensures NewHSV(r.hue, r.saturation, r.value) == Ok(r)
    ensures r.hue < 360.0
  {
    var hsv := p.colorToHsv(RgbOf(c.argb));
    HSV(hsv.h, hsv.s, hsv.v)
  }

  /** `HSV.toColor(alpha)`: `HSVToColor` of the three components, carrying the given alpha. */
  function ToColor(p: Platform, c: HSV, alpha: real): (r: Result<Color>)
    ensures r.Ok? <==> 0.0 <= alpha <= 1.0
    ensures r.Ok? ==> RgbOf(r.value.argb) == p.hsvToRgb(Hsv(c.hue, c.saturation, c.value))
    ensures r.Ok? ==> AlphaOf(r.value.argb) == ToAlphaInt(alpha)
    ensures r.Err? ==> r.error == IllegalArgument("Alpha must be between 0 and 1")
  {
    if !(0.0 <= alpha <= 1.0) then Err(IllegalArgument("Alpha must be between 0 and 1"))
    else
      AlphaByteIsToAlphaInt(alpha);
      Ok(CopyAlpha(Color(HsvToColor(p, Hsv(c.hue, c.saturation, c.value))), alpha))
  }

  /** `Color.lightness`: the HSV value. */
  function Lightness(p: Platform, c: Color): (l: real)
    ensures 0.0 <= l <= 1.0
    ensures l == ColorExtensions.Lightness(p, c.argb)
  {
    ToHSV(p, c).value
  }

  /** `Color.applyLightness(l)`: hue and saturation kept, value replaced, original alpha kept. */
  function ApplyLightness(p: Platform, c: Color, l: real): (r: Result<Color>)
    ensures r.Ok? <==> 0.0 <= l <= 1.0
    ensures r.Ok? ==> AlphaOf(r.value.argb) == AlphaOf(c.argb)
    ensures r.Ok? ==> RgbOf(r.value.argb) == p.hsvToRgb(Hsv(ToHSV(p, c).hue, ToHSV(p, c).saturation, l))
    ensures r.Err? ==> r.error == IllegalArgument("Lightness must be between 0 and 1")
  {
    if !(0.0 <= l <= 1.0) then Err(IllegalArgument("Lightness must be between 0 and 1"))
    else
      var hsv := ToHSV(p, c);
      var lit := NewHSV(hsv.hue, hsv.saturation, l);
      AlphaByteRoundTrip(AlphaOf(c.argb));
      ToColor(p, lit.value, c.Alpha())
  }

  /** The colour part of Compose's `applyLightness` is the classic `Int.applyLightness`. */
  lemma ApplyLightnessAgrees(p: Platform, c: Color, l: real)
    requires 0.0 <= l <= 1.0
    ensures RgbOf(ApplyLightness(p, c, l).value.argb) == RgbOf(ColorExtensions.ApplyLightness(p, c.argb, l))
  {
  }

  /** `Color.hexString`: `#` and six upper-case digits of the RGB bytes. */
  function HexString(c: Color): (s: string)
    ensures |s| == 7 && s[0] == '#'
    ensures AllHexDigits(s[1..]) && ValueOf(s[1..]) == RgbOf(c.argb)
  {
    ColorExtensions.HexStringDenotesRgb(c.argb);
    ColorExtensions.HexString(c.argb)
  }

  /** `Color.hexStringWithAlpha`: `#` and eight upper-case digits of the ARGB word. */
  function HexStringWithAlpha(c: Color): (s: string)
    ensures |s| == 9 && s[0] == '#'
    ensures AllHexDigits(s[1..]) && ValueOf(s[1..]) == c.argb
  {
    ColorExtensions.HexStringAlphaDenotesColor(c.argb);
    ColorExtensions.HexStringAlpha(c.argb)
  }

  /**
   * `String.parseColor()` as written: the colour `toColorInt` reads, `None` where it
   * throws `IllegalArgumentException`, and the uncaught `StringIndexOutOfBoundsException`
   * that `Color.parseColor` throws on the empty string (it reads the first character).
   */
  function ParseColorAsWritten(p: Platform, s: string): (r: Result<Option<Color>>)
    ensures r.Err? <==> s == []
    ensures r.Err? ==> r.error.IndexOutOfBounds?
    ensures r.Ok? ==> (r.value.None? <==> p.parseColor(s).None?)
    ensures r.Ok? && r.value.Some? ==> r.value.value.argb == p.parseColor(s).value
  {
    if s == [] then Err(IndexOutOfBounds("index 0, length 0"))
    else match p.parseColor(s)
      case None => Ok(None)
      case Some(n) => Ok(Some(Color(n)))
  }

  /**
   * `String.parseColor()` as its callers use it, never throwing: the empty string is
   * no colour, any other string is the colour `toColorInt` reads, or `None` where it throws.
   */
  function ParseColor(p: Platform, s: string): (r: Option<Color>)
    ensures s == [] ==> r.None?
    ensures s != [] ==> (r.None? <==> p.parseColor(s).None?)
    ensures r.Some? ==> r.value.argb == p.parseColor(s).value
  {
    if s == [] then None
    else match p.parseColor(s)
      case None => None
      case Some(n) => Some(Color(n))
  }

  /**
   * Clearing the edit field throws out of the as-written parser, while the text it
   * produces for every other input is what the never-throwing parser returns.
   */
  lemma EmptyTextThrows(p: Platform, s: string)
    ensures ParseColorAsWritten(p, []).Err?
    ensures ParseColor(p, []) == None
    ensures s != [] ==> ParseColorAsWritten(p, s) == Ok(ParseColor(p, s))
  {
  }

  /**
   * The two hash forms `Color.parseColor` documents: `#AARRGGBB` is read as is,
   * `#RRGGBB` as an opaque colour.
   */
  ghost predicate ReadsHashForms(p: Platform) {
    (forall n: Bits32 {:trigger Digits(n, 8)} :: p.parseColor("#" + Digits(n, 8)) == Some(n)) &&
    (forall n: Rgb {:trigger Digits(n, 6)} :: p.parseColor("#" + Digits(n, 6)) == Some(MakeArgb(255, n)))
  }

  /** On such a platform every `#AARRGGBB` rendering parses back to the same colour. */
  lemma ParseHexStringWithAlpha(p: Platform, c: Color)
    requires ReadsHashForms(p)
    ensures ParseColor(p, HexStringWithAlpha(c)) == Some(c)
  {
    var n := c.argb;
    assert HexStringWithAlpha(c) == "#" + Digits(n, 8);
    assert p.parseColor("#" + Digits(n, 8)) == Some(n);
  }

  /** and every `#RRGGBB` rendering to the same colour made opaque. */
  lemma ParseHexString(p: Platform, c: Color)
    requires ReadsHashForms(p)
    ensures ParseColor(p, HexString(c)) == Some(Color(MakeArgb(255, RgbOf(c.argb))))
  {
    var n := RgbOf(c.argb);
    assert HexString(c) == "#" + Digits(n, 6);
    assert p.parseColor("#" + Digits(n, 6)) == Some(MakeArgb(255, n));
  }
}
