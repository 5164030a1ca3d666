/**
 * The sample app's customizable screen, reduced to the part that is logic:
 * the hex field's `onValueChange`, which reads `RRGGBB` or `AARRGGBB` with
 * `String.toLong(16)` and resets the sliders, and the final colour the screen
 * shows, the base colour with the lightness applied and the alpha replaced.
 */
module CustomizableSample {
  import opened Wrappers
  import opened Numerics
  import opened Android
  import opened Hex
  import opened Text
  import opened ComposeColors
  import PickerState

  const LONG_MIN: int := -0x8000_0000_0000_0000
  const LONG_MAX: int := 0x7FFF_FFFF_FFFF_FFFF

  /** How many leading characters of `s` are a sign `toLong` accepts. */
  function SignLength(s: string): (k: nat)
    ensures k <= |s|
  {
    if |s| > 0 && (s[0] == '-' || s[0] == '+') then 1 else 0
  }

  /**
   * `s.toLong(16)`: an optional sign, then at least one hexadecimal digit of either case,
   * and a value within the `Long` range; `None` where it throws `NumberFormatException`.
   */
  function ParseLong16(s: string): (r: Option<int>)
    ensures r.Some? ==> LONG_MIN <= r.value <= LONG_MAX
    ensures r.Some? ==> SignLength(s) < |s| && AllHexDigits(s[SignLength(s)..])
    ensures r.Some? && s[0] == '-' ==> r.value == -(ValueOf(s[1..]) as int)
    ensures r.Some? && s[0] != '-' ==> r.value == ValueOf(s[SignLength(s)..])
    ensures SignLength(s) < |s| && AllHexDigits(s[SignLength(s)..]) && ValueOf(s[SignLength(s)..]) <= LONG_MAX ==> r.Some?
  {
    var k := SignLength(s);
    var digits := s[k..];
    if |digits| == 0 || !AllHexDigits(digits) then None
    else
      var v := if k == 1 && s[0] == '-' then -(ValueOf(digits) as int) else ValueOf(digits);
      if LONG_MIN <= v <= LONG_MAX then Some(v) else None
  }

  /** `w` printed digits of a 32-bit pattern below 16^w read back as that number. */
  lemma ParseLong16Digits(n: Bits32, w: nat)
    requires 1 <= w && n < Pow16(w)
    ensures ParseLong16(Digits(n, w)) == Some(n)
  {
    DigitsValueBelow(n, w);
    var s := Digits(n, w);
    assert SignLength(s) == 0;
    assert s[0..] == s;
  }

  /** The empty text, a bare sign and anything with a character that is not a digit are rejected. */
  lemma ParseLong16Rejects(s: string, i: int)
    requires SignLength(s) <= i < |s| && DigitValue(s[i]).None?
    ensures ParseLong16(s) == None
    ensures ParseLong16("") == None && ParseLong16("-") == None && ParseLong16("+") == None
  {
    assert !AllHexDigits(s[SignLength(s)..]) by {
      assert s[SignLength(s)..][i - SignLength(s)] == s[i];
    }
  }

  /** `hex`: the input with one leading `#` dropped, upper-cased. */
  function HexOf(input: string): (hex: string)
    ensures |hex| == |RemovePrefix(input, "#")|
    ensures |input| > 0 && input[0] == '#' ==> |hex| == |input| - 1
  {
    Uppercase(RemovePrefix(input, "#"))
  }

  /**
   * The colour the hex field reads: `Color(hex.toLong(16) or 0xFF000000)` for six
   * characters, `Color(hex.toLong(16))` for eight, and `None` for any other length
   * or text `toLong` rejects. `Color(Long)` keeps the low 32 bits of the `Long`.
   */
  function TypedColor(input: string): (r: Option<Color>)
    ensures r.Some? ==> (|HexOf(input)| == 6 || |HexOf(input)| == 8) && ParseLong16(HexOf(input)).Some?
    ensures (|HexOf(input)| == 6 || |HexOf(input)| == 8) && ParseLong16(HexOf(input)).Some? ==> r.Some?
    ensures r.Some? && |HexOf(input)| == 6 ==>
              r.value.argb == MakeArgb(255, RgbOf(IntBits(ParseLong16(HexOf(input)).value)))
    ensures r.Some? && |HexOf(input)| == 8 ==> r.value.argb == IntBits(ParseLong16(HexOf(input)).value)
  {
    var hex := HexOf(input);
    match ParseLong16(hex)
    case None => None
    case Some(v) =>
      if |hex| == 6 then
        OrOpaque(IntBits(v));
        Some(Color(Or32(IntBits(v), 0xFF00_0000)))
      else if |hex| == 8 then Some(Color(IntBits(v)))
      else None
  }

  /** Upper case and dropping the `#` leave a `#` and upper-case digits as the digits alone. */
  lemma HexOfRendering(d: string)
    requires forall i :: 0 <= i < |d| ==> IsUpperHexDigit(d[i])
    ensures HexOf("#" + d) == d && HexOf(d) == d
  {
    var s := "#" + d;
    assert s[..1] == "#" && s[1..] == d;
    assert RemovePrefix(s, "#") == d;
    assert |d| >= 1 ==> d[..1] != "#" by {
      if |d| >= 1 {
        assert d[..1][0] == d[0];
      }
    }
    assert RemovePrefix(d, "#") == d;
  }

  /** A 32-bit pattern is its own low 32 bits. */
  lemma PatternBits(n: Bits32)
    ensures IntBits(n) == n
  {
    EuclidUnique(n, TWO32, 0, n);
  }

  /** Typing a colour's `#AARRGGBB` rendering gives back that colour. */
  lemma TypedRenderingWithAlpha(c: Color)
    ensures TypedColor(HexStringWithAlpha(c)) == Some(c)
  {
    Pow16Values();
    var s := HexStringWithAlpha(c);
    var d := Digits(c.argb, 8);
    assert s == "#" + d;
    HexOfRendering(d);
    ParseLong16Digits(c.argb, 8);
    assert HexOf(s) == d && |d| == 8 && ParseLong16(d) == Some(c.argb);
    PatternBits(c.argb);
    assert TypedColor(s).value.argb == c.argb;
  }

  /** So does typing it without the `#`, as the field's own prefix shows it. */
  lemma TypedRenderingDigits(c: Color)
    ensures TypedColor(HexStringWithAlpha(c)[1..]) == Some(c)
  {
    Pow16Values();
    var d := Digits(c.argb, 8);
    assert HexStringWithAlpha(c)[1..] == d;
    HexOfRendering(d);
    ParseLong16Digits(c.argb, 8);
    assert HexOf(d) == d && |d| == 8 && ParseLong16(d) == Some(c.argb);
    PatternBits(c.argb);
    assert TypedColor(d).value.argb == c.argb;
  }

  /** Typing a colour's `#RRGGBB` rendering gives the colour made opaque. */
  lemma TypedRenderingOpaque(c: Color)
    ensures TypedColor(HexString(c)) == Some(Color(MakeArgb(255, RgbOf(c.argb))))
  {
    var s := HexString(c);
    var n := RgbOf(c.argb);
    var d := Digits(n, 6);
    assert HexOf(s) == d && |d| == 6 && ParseLong16(d) == Some(n) by {
      Pow16Values();
      assert s == "#" + d;
      HexOfRendering(d);
      ParseLong16Digits(n, 6);
    }
    TypedSixDigits(s, n);
  }

  /** Six digits that read as `n` type the opaque colour of `n`. */
  lemma TypedSixDigits(s: string, n: Rgb)
    requires |HexOf(s)| == 6 && ParseLong16(HexOf(s)) == Some(n)
    ensures TypedColor(s) == Some(Color(MakeArgb(255, n)))
  {
    PatternBits(n);
    assert RgbOf(n) == n;
  }

  /** Upper case and dropping a leading `#` can be done in either order. */
  lemma UppercaseDropsPrefix(input: string)
    ensures RemovePrefix(Uppercase(input), "#") == Uppercase(RemovePrefix(input, "#"))
  {
    var u := Uppercase(input);
    if |input| >= 1 && input[0] == '#' {
      assert input[..1] == "#";
      assert u[..1] == "#";
      var t := Uppercase(input[1..]);
      assert u[1..] == t by {
        assert forall i :: 0 <= i < |t| ==> u[1..][i] == UpperChar(input[1..][i]);
      }
    } else {
      if |input| >= 1 {
        assert u[..1][0] == UpperChar(input[0]) != '#';
        assert input[..1][0] != '#';
      }
    }
  }

  /** The displayed text is the input upper-cased, and typing it again reads the same colour. */
  lemma TypedColorIgnoresCase(input: string)
    ensures TypedColor(Uppercase(input)) == TypedColor(input)
  {
    UppercaseDropsPrefix(input);
    UppercaseIdempotent(RemovePrefix(input, "#"));
    assert HexOf(Uppercase(input)) == HexOf(input);
  }

  /** `baseColor.applyLightness(lightness).copy(alpha = alpha)`: the screen's final colour. */
  function FinalColor(p: Platform, baseColor: Color, lightness: real, alpha: real): (r: Result<Color>)
    ensures r.Ok? <==> 0.0 <= lightness <= 1.0
    ensures r.Ok? ==> RgbOf(r.value.argb) == p.hsvToRgb(Hsv(ToHSV(p, baseColor).hue, ToHSV(p, baseColor).saturation, lightness))
    ensures r.Ok? ==> AlphaOf(r.value.argb) == AlphaByte(alpha)
    ensures r.Err? ==> r.error == IllegalArgument("Lightness must be between 0 and 1")
  {
    match ApplyLightness(p, baseColor, lightness)
    case Err(e) => Err(e)
    case Ok(lit) => Ok(CopyAlpha(lit, alpha))
  }

  /** A colour's own alpha fraction packs back to its own alpha byte. */
  lemma AlphaByteOfOwnAlpha(c: Color)
    ensures AlphaByte(c.Alpha()) == AlphaOf(c.argb)
  {
    var n := AlphaOf(c.argb);
    assert c.Alpha() == ToAlphaFloat(n);
    AlphaByteIsToAlphaInt(c.Alpha());
    AlphaByteRoundTrip(n);
  }

  /**
   * After a colour `c` is typed, the screen shows `c` exactly when the platform reads `c`'s
   * colour bytes back from its own hue and saturation at value 1: the typed colour's
   * lightness is replaced by 1, so a colour whose HSV value is below 1 comes out brighter.
   */
  lemma FinalColorAfterEntry(p: Platform, c: Color)
    ensures FinalColor(p, CopyAlpha(c, 1.0), 1.0, c.Alpha()).Ok?
    ensures var hsv := p.colorToHsv(RgbOf(c.argb));
      FinalColor(p, CopyAlpha(c, 1.0), 1.0, c.Alpha()) == Ok(c) <==> p.hsvToRgb(Hsv(hsv.h, hsv.s, 1.0)) == RgbOf(c.argb)
  {
    AlphaByteOfOwnAlpha(c);
    var r := FinalColor(p, CopyAlpha(c, 1.0), 1.0, c.Alpha());
    assert ToHSV(p, CopyAlpha(c, 1.0)) == ToHSV(p, c);
    if r.value.argb == c.argb {
      assert r.value == c;
    }
    ArgbParts(r.value.argb);
    ArgbParts(c.argb);
  }

  /**
   * So, on a platform whose conversions invert each other at this colour, a typed colour
   * is shown unchanged if and only if its HSV value is 1.
   */
  lemma FinalColorIsTypedOnlyAtFullValue(p: Platform, c: Color)
    requires var hsv := p.colorToHsv(RgbOf(c.argb)); p.hsvToRgb(hsv) == RgbOf(c.argb)
    requires var hsv := p.colorToHsv(RgbOf(c.argb));
      p.colorToHsv(p.hsvToRgb(Hsv(hsv.h, hsv.s, 1.0))) == Hsv(hsv.h, hsv.s, 1.0)
    ensures FinalColor(p, CopyAlpha(c, 1.0), 1.0, c.Alpha()) == Ok(c) <==> p.colorToHsv(RgbOf(c.argb)).v == 1.0
  {
    FinalColorAfterEntry(p, c);
    var hsv := p.colorToHsv(RgbOf(c.argb));
    if p.hsvToRgb(Hsv(hsv.h, hsv.s, 1.0)) == RgbOf(c.argb) {
      assert p.colorToHsv(RgbOf(c.argb)) == Hsv(hsv.h, hsv.s, 1.0);
    }
    if hsv.v == 1.0 {
      assert Hsv(hsv.h, hsv.s, 1.0) == hsv;
    }
  }

  /** The screen's remembered state. */
  class CustomizableScreen {
    var baseColor: Color
    var wheelType: PickerState.WheelType
    var density: int
    var lightness: real
    var alpha: real
    var hexInput: string

    /** The slider values stay in [0, 1]. */
    ghost predicate Valid()
      reads this
    {
      0.0 <= lightness <= 1.0 && 0.0 <= alpha <= 1.0
    }

    /** Red, the circle wheel, density 12, full lightness and alpha, and the text "FFFF0000". */
    constructor ()
      ensures Valid()
      ensures baseColor == RED && wheelType == PickerState.CIRCLE && density == 12
      ensures lightness == 1.0 && alpha == 1.0 && hexInput == "FFFF0000"
    {
      baseColor := RED;
      wheelType := PickerState.CIRCLE;
      density := 12;
      lightness := 1.0;
      alpha := 1.0;
      hexInput := "FFFF0000";
    }

    /**
     * The hex field's `onValueChange`: the text always becomes the upper-cased input; a
     * colour read from it becomes the opaque base colour, its alpha the alpha slider's value,
     * and the lightness goes back to 1; unreadable text changes nothing else.
     */
    method OnHexChange(input: string)
      requires Valid()
      modifies this`hexInput, this`baseColor, this`alpha, this`lightness
      ensures Valid()
      ensures hexInput == Uppercase(input)
      ensures TypedColor(input).Some? ==>
                var c := TypedColor(input).value;
                baseColor == CopyAlpha(c, 1.0) && alpha == c.Alpha() && lightness == 1.0
      ensures TypedColor(input).Some? ==>
                AlphaOf(baseColor.argb) == 255 && RgbOf(baseColor.argb) == RgbOf(TypedColor(input).value.argb)
      ensures TypedColor(input).Some? && |HexOf(input)| == 6 ==> alpha == 1.0
      ensures TypedColor(input).None? ==>
                baseColor == old(baseColor) && alpha == old(alpha) && lightness == old(lightness)
    {
      hexInput := Uppercase(input);
      var hex := Uppercase(RemovePrefix(input, "#"));
      var parsed := ParseLong16(hex);
      if parsed.Some? {
        if |hex| == 6 {
          var color := Color(Or32(IntBits(parsed.value), 0xFF00_0000));
          OrOpaque(IntBits(parsed.value));
          OpaqueCopy(color);
          baseColor := color;
          alpha := 1.0;
          lightness := 1.0;
        } else if |hex| == 8 {
          var color := Color(IntBits(parsed.value));
          baseColor := CopyAlpha(color, 1.0);
          alpha := color.Alpha();
          lightness := 1.0;
        }
      }
    }
  }

  /** Making an opaque colour opaque changes nothing, and its alpha fraction is 1. */
  lemma OpaqueCopy(c: Color)
    requires AlphaOf(c.argb) == 255
    ensures CopyAlpha(c, 1.0) == c && c.Alpha() == 1.0
  {
    ArgbParts(c.argb);
    assert AlphaByte(1.0) == 255;
  }
}
