/**
 * The extension properties on colour `Int`s used by the classic view:
 * lightness, alpha conversions, `adjustAlpha` and the `#RRGGBB` /
 * `#AARRGGBB` renderings.
 */
module ColorExtensions {
  import opened Numerics
  import opened Android
  import opened Hex

  /** `Int.lightness`: the V component `colorToHSV` reports. */
  function Lightness(p: Platform, c: Bits32): (l: real)
    ensures 0.0 <= l <= 1.0
    ensures l == p.colorToHsv(RgbOf(c)).v
  {
    p.colorToHsv(RgbOf(c)).v
  }

  /**
   * `Int.applyLightness(l)`: hue and saturation of `c` with value `l`, converted back by
   * `HSVToColor`, which takes no alpha, so the result is always opaque.
   */
  function ApplyLightness(p: Platform, c: Bits32, l: real): (r: Bits32)
    ensures AlphaOf(r) == 255
    ensures RgbOf(r) == p.hsvToRgb(Hsv(p.colorToHsv(RgbOf(c)).h, p.colorToHsv(RgbOf(c)).s, l))
  {
    var hsv := p.colorToHsv(RgbOf(c));
    HsvToColor(p, hsv.(v := l))
  }

  /** The alpha byte of `c` plays no part in `applyLightness`. */
  lemma ApplyLightnessIgnoresAlpha(p: Platform, c: Bits32, d: Bits32, l: real)
    requires RgbOf(c) == RgbOf(d)
    ensures ApplyLightness(p, c, l) == ApplyLightness(p, d, l)
  {
    ArgbParts(ApplyLightness(p, c, l));
    ArgbParts(ApplyLightness(p, d, l));
  }

  /** `Float.alpha`: `roundToInt` of the fraction scaled to 255, without any clamp. */
  function FloatAlpha(a: real): (n: int)
    ensures 0.0 <= a <= 1.0 ==> 0 <= n <= 255
    ensures 0.0 <= a <= 1.0 ==> n as real - 0.5 <= a * 255.0 < n as real + 0.5
  {
    RoundToInt(a * 255.0)
  }

  /** `Int.alpha`: the alpha byte as a fraction of 255. */
  function IntAlpha(c: Bits32): (a: real)
    ensures 0.0 <= a <= 1.0
    ensures a * 255.0 == AlphaOf(c) as real
  {
    AlphaOf(c) as real / 255.0
  }

  /** The fraction `Int.alpha` reports turns back into the same byte under `Float.alpha`. */
  lemma AlphaRoundTrip(c: Bits32)
    ensures FloatAlpha(IntAlpha(c)) == AlphaOf(c)
  {
  }

  /** `n shl 24` keeps only the low byte of `n`, moved to the top of the `Int`. */
  lemma ShiftToTopByte(n: int)
    ensures Shl(n, 24) == (n % 256) * TWO24
  {
    Pow2Values();
    var q, m := n / 256, n % 256;
    assert n * TWO24 == TWO32 * q + m * TWO24;
    EuclidUnique(n * TWO24, TWO32, q, m * TWO24);
  }

  /** `c.adjustAlpha(a)`: `a.alpha shl 24 or (0x00ffffff and c)`. */
  function AdjustAlpha(c: Bits32, a: real): (r: Bits32)
    ensures RgbOf(r) == RgbOf(c)
    ensures AlphaOf(r) == FloatAlpha(a) % 256
  {
    var top := Shl(FloatAlpha(a), 24);
    ShiftToTopByte(FloatAlpha(a));
    Pow2Values();
    BitOrDisjoint(FloatAlpha(a) % 256, RgbOf(c), 24);
    assert Or32(top, RgbOf(c)) == MakeArgb(FloatAlpha(a) % 256, RgbOf(c));
    Or32(top, RgbOf(c))
  }

  /** For a fraction in [0, 1] the alpha byte becomes exactly `a.alpha`. */
  lemma AdjustAlphaInRange(c: Bits32, a: real)
    requires 0.0 <= a <= 1.0
    ensures AlphaOf(AdjustAlpha(c, a)) == FloatAlpha(a)
    ensures IntAlpha(AdjustAlpha(c, a)) * 255.0 == FloatAlpha(a) as real
  {
  }

  /** Re-applying a colour's own alpha gives the colour back. */
  lemma AdjustAlphaOwnAlpha(c: Bits32)
    ensures AdjustAlpha(c, IntAlpha(c)) == c
  {
    AlphaRoundTrip(c);
    ArgbParts(c);
    ArgbParts(AdjustAlpha(c, IntAlpha(c)));
  }

  /** Nothing clamps the fraction: 256/255 rounds to 256, whose low byte makes the colour fully transparent. */
  lemma AdjustAlphaWraps(c: Bits32)
    ensures FloatAlpha(256.0 / 255.0) == 256
    ensures AlphaOf(AdjustAlpha(c, 256.0 / 255.0)) == 0
  {
  }

  /** `Int.hexString`: `#` and six upper-case digits of `0xFFFFFF and c`. */
  function HexString(c: Bits32): (s: string)
    ensures |s| == 7 && s[0] == '#'
    ensures forall i :: 1 <= i < 7 ==> IsUpperHexDigit(s[i])
  {
    "#" + Digits(RgbOf(c), 6)
  }

  /** `Int.hexStringAlpha`: `#` and eight upper-case digits of the whole 32-bit pattern. */
  function HexStringAlpha(c: Bits32): (s: string)
    ensures |s| == 9 && s[0] == '#'
    ensures forall i :: 1 <= i < 9 ==> IsUpperHexDigit(s[i])
  {
    "#" + Digits(c, 8)
  }

  /** The digits of `hexString` denote the colour's RGB bytes. */
  lemma HexStringDenotesRgb(c: Bits32)
    ensures AllHexDigits(HexString(c)[1..]) && ValueOf(HexString(c)[1..]) == RgbOf(c)
  {
    Pow16Values();
    assert HexString(c)[1..] == Digits(RgbOf(c), 6);
    DigitsValueBelow(RgbOf(c), 6);
  }

  /** The digits of `hexStringAlpha` denote the colour itself. */
  lemma HexStringAlphaDenotesColor(c: Bits32)
    ensures AllHexDigits(HexStringAlpha(c)[1..]) && ValueOf(HexStringAlpha(c)[1..]) == c
  {
    Pow16Values();
    assert HexStringAlpha(c)[1..] == Digits(c, 8);
    DigitsValueBelow(c, 8);
  }

  /** Colours with the same rendering are the same colour. */
  lemma HexStringAlphaInjective(c: Bits32, d: Bits32)
    requires HexStringAlpha(c) == HexStringAlpha(d)
    ensures c == d
  {
    HexStringAlphaDenotesColor(c);
    HexStringAlphaDenotesColor(d);
  }

  /** Removing the two alpha digits (characters 1 and 2) of `hexStringAlpha` leaves `hexString`. */
  lemma HexStringDropsAlphaDigits(c: Bits32)
    ensures HexStringAlpha(c)[..1] + HexStringAlpha(c)[3..] == HexString(c)
  {
    Pow16Values();
    DigitsSuffix(c, 2, 6);
    assert HexStringAlpha(c)[3..] == Digits(c, 8)[2..];
  }
}
