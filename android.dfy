/**
 * The platform services the colour picker calls but does not implement:
 * Android's HSV/RGB conversions, colour-string parsing and the trigonometric
 * functions of `kotlin.math`. They are the fields of a `Platform` value that
 * every operation needing them takes as a parameter, so each property proved
 * in this project holds whatever these functions compute.
 *
 * The `android.graphics.Color` channel accessors and `Color.argb` are plain
 * shifts and masks and are written out here.
 */
module Android {
  import opened Wrappers
  import opened Numerics

  /** The three floats of an HSV `FloatArray(3)`: hue in degrees, saturation, value. */
  datatype Hsv = Hsv(h: real, s: real, v: real)

  /** The ranges `Color.colorToHSV` writes. */
  predicate InHsvRange(c: Hsv) {
    0.0 <= c.h < 360.0 && 0.0 <= c.s <= 1.0 && 0.0 <= c.v <= 1.0
  }

  type RangedHsv = c: Hsv | InHsvRange(c) witness Hsv(0.0, 0.0, 0.0)

  /** The low 24 bits of a colour: its red, green and blue bytes. */
  type Rgb = n: int | 0 <= n < 0x100_0000

  datatype Platform = Platform(
    /** `Color.HSVToColor(hsv)` without its alpha byte. */
    hsvToRgb: Hsv -> Rgb,
    /** `Color.colorToHSV(color, hsv)`, which reads only the red, green and blue bytes. */
    colorToHsv: Rgb -> RangedHsv,
    cos: real -> real,
    sin: real -> real,
    atan2: (real, real) -> real,
    hypot: (real, real) -> real,
    asin: real -> real,
    /** `Color.parseColor(s)` (and `String.toColorInt()`); `None` where it throws `IllegalArgumentException`. */
    parseColor: string -> Option<Bits32>)

  /** `Color.alpha(c)`: the top byte. */
  function AlphaOf(c: Bits32): (a: int)
    ensures 0 <= a < 256
  {
    c / 0x100_0000
  }

  /** `0xFFFFFF and c`: the colour without its alpha byte. */
  function RgbOf(c: Bits32): Rgb {
    c % 0x100_0000
  }

  function RedOf(c: Bits32): int { (c / 0x1_0000) % 256 }

  function GreenOf(c: Bits32): int { (c / 0x100) % 256 }

  function BlueOf(c: Bits32): int { c % 256 }

  /** The colour with alpha byte `a` and colour bytes `rgb`. */
  function MakeArgb(a: int, rgb: Rgb): (c: Bits32)
    requires 0 <= a < 256
    ensures AlphaOf(c) == a && RgbOf(c) == rgb
  {
    a * 0x100_0000 + rgb
  }

  lemma ArgbParts(c: Bits32)
    ensures c == MakeArgb(AlphaOf(c), RgbOf(c))
  {
  }

  /** `a or b` on two `Int` bit patterns. */
  function Or32(a: Bits32, b: Bits32): Bits32 {
    Pow2Values();
    BitOrBound(a, b, 32);
    BitOr(a, b)
  }

  /** `n shl k` on an `Int`: the bits shifted out at the top are lost. */
  function Shl(n: int, k: nat): Bits32 {
    IntBits(n * Pow2(k))
  }

  /**
   * `Color.argb(alpha, red, green, blue)`: the four values shifted into place (`shl 24`,
   * `shl 16`, `shl 8`, each keeping the low 32 bits) and or-ed, without masking.
   */
  function Argb(alpha: int, red: int, green: int, blue: int): Bits32 {
    Or32(Or32(Or32(IntBits(alpha * 0x100_0000), IntBits(red * 0x1_0000)), IntBits(green * 0x100)), IntBits(blue))
  }

  /** `c or 0xFF000000`: the alpha byte set to 255 and the colour bytes kept. */
  lemma OrOpaque(c: Bits32)
    ensures Or32(c, 0xFF00_0000) == MakeArgb(255, RgbOf(c))
  {
    Pow2Values();
    assert c == AlphaOf(c) * Pow2(24) + RgbOf(c);
    assert 0xFF00_0000 == 255 * Pow2(24);
    BitOrShifted(AlphaOf(c), 255, RgbOf(c), 24);
    BitOrAllOnes(AlphaOf(c), 8);
  }

  /**
   * On four bytes the three `or`s of `Color.argb` are additions: alpha lands on top,
   * then red, green and blue, without overlap.
   */
  lemma ArgbPacks(alpha: int, red: int, green: int, blue: int)
    requires 0 <= alpha < 256 && 0 <= red < 256 && 0 <= green < 256 && 0 <= blue < 256
    ensures Argb(alpha, red, green, blue) == (alpha * 0x1_0000 + red * 256 + green) * 0x100 + blue
  {
    var ar := alpha * 256 + red;
    var top := ar * 256 + green;
    ArgbNoTruncation(alpha, red, green, blue);
    OrBelow(alpha, red * 0x1_0000, 24, 0x100_0000);
    assert alpha * 0x100_0000 + red * 0x1_0000 == ar * 0x1_0000;
    OrBelow(ar, green * 0x100, 16, 0x1_0000);
    assert ar * 0x1_0000 + green * 0x100 == top * 0x100;
    OrBelow(top, blue, 8, 0x100);
  }

  /** On bytes, none of the shifts of `Color.argb` loses a bit. */
  lemma ArgbNoTruncation(alpha: int, red: int, green: int, blue: int)
    requires 0 <= alpha < 256 && 0 <= red < 256 && 0 <= green < 256 && 0 <= blue < 256
    ensures IntBits(alpha * 0x100_0000) == alpha * 0x100_0000 && IntBits(red * 0x1_0000) == red * 0x1_0000
    ensures IntBits(green * 0x100) == green * 0x100 && IntBits(blue) == blue
  {
  }

  /** `or` with a value below a power of two that the other is a multiple of is addition. */
  lemma OrBelow(t: nat, b: nat, k: nat, p: nat)
    requires (k, p) == (8, 0x100) || (k, p) == (16, 0x1_0000) || (k, p) == (24, 0x100_0000)
    requires b < p && t * p + b < TWO32
    ensures t * p < TWO32 && Or32(t * p, b) == t * p + b
  {
    Pow2Values();
    BitOrDisjoint(t, b, k);
  }

  /** The bytes of a packed colour read back as the bytes packed. */
  lemma BytesOfPacked(alpha: int, red: int, green: int, blue: int)
    requires 0 <= alpha < 256 && 0 <= red < 256 && 0 <= green < 256 && 0 <= blue < 256
    ensures var c := (alpha * 0x1_0000 + red * 256 + green) * 0x100 + blue;
      c == alpha * 0x100_0000 + (red * 0x1_0000 + green * 0x100 + blue) &&
      c / 0x100_0000 == alpha && (c / 0x1_0000) % 256 == red && (c / 0x100) % 256 == green && c % 256 == blue
  {
    var top := alpha * 0x1_0000 + red * 256 + green;
    var c := top * 0x100 + blue;
    EuclidUnique(c, 0x100, top, blue);
    EuclidUnique(top, 256, alpha * 256 + red, green);
    EuclidUnique(c, 256, top, blue);
    assert c == 0x1_0000 * (alpha * 256 + red) + (green * 0x100 + blue);
    EuclidUnique(c, 0x1_0000, alpha * 256 + red, green * 0x100 + blue);
    EuclidUnique(alpha * 256 + red, 256, alpha, red);
    EuclidUnique(c, 0x100_0000, alpha, red * 0x1_0000 + green * 0x100 + blue);
  }

  /** `Color.HSVToColor(hsv)`: an opaque colour. */
  function HsvToColor(p: Platform, hsv: Hsv): (c: Bits32)
    ensures AlphaOf(c) == 255 && RgbOf(c) == p.hsvToRgb(hsv)
  {
    MakeArgb(255, p.hsvToRgb(hsv))
  }
}
