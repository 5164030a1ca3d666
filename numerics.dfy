/**
 * Kotlin's numeric conversions and 32-bit integer bit operations, stated over
 * Dafny's unbounded `int` and `real`.
 *
 * A Kotlin `Int` that holds a colour is modelled by its 32-bit two's-complement
 * bit pattern read as an unsigned number (`Bits32`); shifts, masks and `or` are
 * written out arithmetically on that number.
 */
module Numerics {

  const INT_MIN: int := -0x8000_0000
  const INT_MAX: int := 0x7FFF_FFFF
  const TWO8: int := 0x100
  const TWO16: int := 0x1_0000
  const TWO24: int := 0x100_0000
  const TWO32: int := 0x1_0000_0000

  /** `kotlin.math.PI` / `Math.PI`: the double nearest to pi. */
  const PI: real := 3.141592653589793

  /** `java.lang.Double.MAX_VALUE`, the starting minimum of the nearest-sample searches. */
  const DOUBLE_MAX: real := 1.7976931348623157e308

  /** The bit pattern of a 32-bit Kotlin `Int`, read as an unsigned number. */
  type Bits32 = n: int | 0 <= n < 0x1_0000_0000

  /** The low 32 bits of `n`: what a Kotlin `Int` keeps of an arithmetic result. */
  function IntBits(n: int): Bits32 {
    n % 0x1_0000_0000
  }

  /** Clamps an integer into the `Int` range, as Kotlin's float-to-int conversions do. */
  function SaturateInt(n: int): (r: int)
    ensures INT_MIN <= r <= INT_MAX
    ensures INT_MIN <= n <= INT_MAX ==> r == n
  {
    if n < INT_MIN then INT_MIN else if n > INT_MAX then INT_MAX else n
  }

  /** `Float.toInt()`: rounds toward zero and saturates at the `Int` range (NaN is not modelled). */
  function TruncToInt(x: real): (r: int)
    ensures INT_MIN <= r <= INT_MAX
    ensures x >= 0.0 ==> r >= 0
    ensures x >= 0.0 && x < INT_MAX as real ==> r as real <= x < r as real + 1.0
  {
    SaturateInt(if x >= 0.0 then x.Floor else -((-x).Floor))
  }

  /** `Float.roundToInt()`: the nearest integer with halves rounded up, saturating at the `Int` range. */
  function RoundToInt(x: real): (r: int)
    ensures INT_MIN <= r <= INT_MAX
    ensures INT_MIN as real <= x + 0.5 < INT_MAX as real ==> r as real <= x + 0.5 < r as real + 1.0
  {
    SaturateInt((x + 0.5).Floor)
  }

  function MaxInt(a: int, b: int): int { if a >= b then a else b }

  function MinInt(a: int, b: int): int { if a <= b then a else b }

  function MaxReal(a: real, b: real): real { if a >= b then a else b }

  /** `coerceIn(lo, hi)` on an `Int`. */
  function ClampInt(n: int, lo: int, hi: int): (r: int)
    requires lo <= hi
    ensures lo <= r <= hi
    ensures lo <= n <= hi ==> r == n
  {
    if n < lo then lo else if n > hi then hi else n
  }

  /** `coerceIn(lo, hi)` on a `Float`. */
  function ClampReal(x: real, lo: real, hi: real): (r: real)
    requires lo <= hi
    ensures lo <= r <= hi
    ensures lo <= x <= hi ==> r == x
  {
    if x < lo then lo else if x > hi then hi else x
  }

  /** The fractional part `q - floor(q)`. */
  function Frac(q: real): (f: real)
    ensures 0.0 <= f < 1.0
  {
    q - q.Floor as real
  }

  /**
   * Kotlin's `%` on `Double`: the remainder of division truncated toward zero,
   * with the sign of `x`; `m * frac(x / m)` is `x - m * floor(x / m)`.
   */
  function FMod(x: real, m: real): real
    requires m > 0.0
  {
    if x >= 0.0 then m * Frac(x / m) else -(m * Frac(-x / m))
  }

  lemma MulFraction(m: real, d: real)
    requires m > 0.0 && 0.0 <= d < 1.0
    ensures 0.0 <= m * d < m
  {
    assert m - m * d == m * (1.0 - d);
  }

  /** For a non-negative dividend the remainder lies in [0, m). */
  lemma FModNonNegative(x: real, m: real)
    requires x >= 0.0 && m > 0.0
    ensures 0.0 <= FMod(x, m) < m
  {
    FracMul(m, x / m);
  }

  lemma FracMul(m: real, q: real)
    requires m > 0.0
    ensures 0.0 <= m * Frac(q) < m
  {
    MulFraction(m, Frac(q));
  }

  /** A dividend already in [0, m) is its own remainder. */
  lemma FModInRange(x: real, m: real)
    requires m > 0.0 && 0.0 <= x < m
    ensures FMod(x, m) == x
  {
    var q := x / m;
    assert q * m == x;
    if q >= 1.0 {
      MulAtLeast(q, m);
      assert false;
    }
    assert q.Floor == 0;
  }

  lemma MulAtLeast(q: real, m: real)
    requires q >= 1.0 && m > 0.0
    ensures q * m >= m
  {
    assert q * m == m + (q - 1.0) * m;
  }

  /** Integer division is determined by any quotient and remainder in range. */
  lemma EuclidUnique(n: int, m: int, q: int, r: int)
    requires m > 0 && n == m * q + r && 0 <= r < m
    ensures n / m == q && n % m == r
  {
    var q0, r0 := n / m, n % m;
    assert m * (q0 - q) == r - r0;
    if q0 - q >= 1 {
      MulGrows(m, q0 - q);
      assert false;
    } else if q - q0 >= 1 {
      MulGrows(m, q - q0);
      assert false;
    }
  }

  lemma MulGrows(m: int, k: int)
    requires m > 0 && k >= 1
    ensures m * k >= m
  {
    assert m * k == m + m * (k - 1);
  }

  function Pow2(k: nat): (r: nat)
    ensures r >= 1
  {
    if k == 0 then 1 else 2 * Pow2(k - 1)
  }

  lemma Pow2Values()
    ensures Pow2(8) == TWO8 && Pow2(16) == TWO16 && Pow2(24) == TWO24 && Pow2(32) == TWO32
  {
    assert Pow2(4) == 16;
    assert Pow2(8) == 256;
    assert Pow2(12) == 4096;
    assert Pow2(16) == 65536;
    assert Pow2(20) == 1048576;
    assert Pow2(24) == TWO24;
    assert Pow2(28) == 0x1000_0000;
  }

  /** Bitwise `or` of two non-negative integers, one bit at a time. */
  function BitOr(a: nat, b: nat): nat
    decreases a + b
  {
    if a == 0 then b
    else if b == 0 then a
    else 2 * BitOr(a / 2, b / 2) + (if a % 2 == 1 || b % 2 == 1 then 1 else 0)
  }

  /** When the bits of `a` and `b` do not overlap (`a` is a multiple of 2^k, `b` is below it), `or` is addition. */
  lemma {:induction false} BitOrDisjoint(t: nat, b: nat, k: nat)
    requires b < Pow2(k)
    ensures BitOr(t * Pow2(k), b) == t * Pow2(k) + b
    decreases k
  {
    var a := t * Pow2(k);
    if a == 0 || b == 0 {
    } else {
      assert k > 0;
      var h := t * Pow2(k - 1);
      assert a == 2 * h;
      assert a / 2 == h && a % 2 == 0;
      BitOrDisjoint(t, b / 2, k - 1);
      assert BitOr(a, b) == 2 * BitOr(h, b / 2) + b % 2;
    }
  }

  /** `or` never sets a bit above the highest bit of its operands. */
  lemma {:induction false} BitOrBound(a: nat, b: nat, k: nat)
    requires a < Pow2(k) && b < Pow2(k)
    ensures BitOr(a, b) < Pow2(k)
    decreases k
  {
    if a == 0 || b == 0 {
    } else {
      BitOrBound(a / 2, b / 2, k - 1);
    }
  }

  /** `or` with a value whose low `k` bits are clear works on the bits above `k` and keeps the low bits. */
  lemma {:induction false} BitOrShifted(t1: nat, t2: nat, r: nat, k: nat)
    requires r < Pow2(k)
    ensures BitOr(t1 * Pow2(k) + r, t2 * Pow2(k)) == BitOr(t1, t2) * Pow2(k) + r
    decreases k
  {
    if k == 0 || (t1 == 0 && r == 0) || t2 == 0 {
      BitOrShiftedBase(t1, t2, r, Pow2(k));
    } else {
      var h := Pow2(k - 1);
      BitOrShiftedStep(t1, t2, r, h, Pow2(k));
      BitOrShifted(t1, t2, r / 2, k - 1);
    }
  }

  /** `BitOrShifted` where one operand is zero or there are no low bits. */
  lemma BitOrShiftedBase(t1: nat, t2: nat, r: nat, p: nat)
    requires r < p && (p == 1 || (t1 == 0 && r == 0) || t2 == 0)
    ensures BitOr(t1 * p + r, t2 * p) == BitOr(t1, t2) * p + r
  {
    if p == 1 {
    } else if t1 == 0 && r == 0 {
      assert BitOr(t1, t2) == t2;
    } else {
      assert BitOr(t1 * p + r, 0) == t1 * p + r;
      assert BitOr(t1, 0) == t1;
    }
  }

  /** The recursive step of `BitOrShifted` at `Pow2(k) == 2 * h`, given its result at `h`. */
  lemma BitOrShiftedStep(t1: nat, t2: nat, r: nat, h: nat, p: nat)
    requires h >= 1 && p == 2 * h && r < p && t2 > 0 && (t1 > 0 || r > 0)
    ensures BitOr(t1 * h + r / 2, t2 * h) == BitOr(t1, t2) * h + r / 2 ==>
      BitOr(t1 * p + r, t2 * p) == BitOr(t1, t2) * p + r
  {
    HalveShifted(t1, r, h);
    HalveShifted(t2, 0, h);
    var a, b := t1 * (2 * h) + r, t2 * (2 * h);
    if t1 > 0 {
      MulGrows(2 * h, t1);
      assert t1 * (2 * h) == (2 * h) * t1;
    }
    MulGrows(2 * h, t2);
    assert t2 * (2 * h) == (2 * h) * t2;
    BitOrStep(a, b, t1 * h + r / 2, t2 * h, r % 2);
    RecombineShifted(BitOr(t1, t2), r, h);
  }

  /** Halving `t * 2h + r` gives `t * h + r / 2` with remainder `r % 2`. */
  lemma HalveShifted(t: nat, r: nat, h: nat)
    ensures (t * (2 * h) + r) / 2 == t * h + r / 2
    ensures (t * (2 * h) + r) % 2 == r % 2
  {
    DoubleMul(t, h);
    EuclidUnique(t * (2 * h) + r, 2, t * h + r / 2, r % 2);
  }

  /** One unfolding of `BitOr` on operands whose halves and low bits are known. */
  lemma BitOrStep(a: nat, b: nat, ha: nat, hb: nat, low: nat)
    requires a > 0 && b > 0 && b % 2 == 0 && a / 2 == ha && b / 2 == hb && a % 2 == low
    ensures BitOr(a, b) == 2 * BitOr(ha, hb) + low
  {
  }

  lemma RecombineShifted(m: nat, r: nat, h: nat)
    ensures 2 * (m * h + r / 2) + r % 2 == m * (2 * h) + r
  {
    DoubleMul(m, h);
  }

  lemma DoubleMul(m: int, h: int)
    ensures m * (2 * h) == 2 * (m * h)
  {
  }

  /** `or` with `k` one-bits gives those `k` bits for any value that fits in them. */
  lemma {:induction false} BitOrAllOnes(a: nat, k: nat)
    requires a < Pow2(k)
    ensures BitOr(a, Pow2(k) - 1) == Pow2(k) - 1
    decreases k
  {
    if k > 0 && a > 0 {
      var h := Pow2(k - 1);
      assert Pow2(k) - 1 == 2 * (h - 1) + 1;
      EuclidUnique(Pow2(k) - 1, 2, h - 1, 1);
      BitOrAllOnes(a / 2, k - 1);
    }
  }
}
