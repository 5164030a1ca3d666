/**
 * Fixed-width upper-case hexadecimal, as `String.format("%06X")` and
 * `String.format("%08X")` print it, and hexadecimal digit values as
 * `Character.digit(c, 16)` reads them (ASCII digits and letters only).
 */
module Hex {
  import opened Wrappers
  import opened Numerics

  const DIGITS: string := "0123456789ABCDEF"

  function Pow16(w: nat): (r: nat)
    ensures r >= 1
  {
    if w == 0 then 1 else 16 * Pow16(w - 1)
  }

  lemma Pow16Values()
    ensures Pow16(6) == TWO24 && Pow16(8) == TWO32
  {
    assert Pow16(2) == 256;
    assert Pow16(4) == 65536;
    assert Pow16(6) == TWO24;
  }

  predicate IsUpperHexDigit(c: char) {
    '0' <= c <= '9' || 'A' <= c <= 'F'
  }

  /** The value of a hexadecimal digit of either case, or `None` for any other character. */
  function DigitValue(c: char): (r: Option<int>)
    ensures r.Some? ==> 0 <= r.value < 16
  {
    if '0' <= c <= '9' then Some(c as int - '0' as int)
    else if 'A' <= c <= 'F' then Some(c as int - 'A' as int + 10)
    else if 'a' <= c <= 'f' then Some(c as int - 'a' as int + 10)
    else None
  }

  predicate AllHexDigits(s: string) {
    forall i :: 0 <= i < |s| ==> DigitValue(s[i]).Some?
  }

  /** The number a string of hexadecimal digits denotes, most significant digit first. */
  function ValueOf(s: string): nat
    requires AllHexDigits(s)
  {
    if s == [] then 0 else ValueOf(s[..|s| - 1]) * 16 + DigitValue(s[|s| - 1]).value
  }

  /** The `w` lowest hexadecimal digits of `n`, upper case, most significant first. */
  function Digits(n: nat, w: nat): (s: string)
    ensures |s| == w
    ensures forall i :: 0 <= i < |s| ==> IsUpperHexDigit(s[i])
  {
    if w == 0 then [] else Digits(n / 16, w - 1) + [DIGITS[n % 16]]
  }

  /** Splitting off the lowest digit commutes with reducing modulo a power of 16. */
  lemma DivModNest(n: nat, q: nat)
    requires q >= 1
    ensures (n % (16 * q)) / 16 == (n / 16) % q
    ensures (n % (16 * q)) % 16 == n % 16
  {
    var a, b := n / 16, n % 16;
    var c, d := a / q, a % q;
    assert n == 16 * q * c + (16 * d + b);
    assert 0 <= 16 * d + b < 16 * q;
    EuclidUnique(n, 16 * q, c, 16 * d + b);
  }

  lemma DigitAt(d: int)
    requires 0 <= d < 16
    ensures DigitValue(DIGITS[d]) == Some(d)
  {
  }

  /** Reading back the `w` printed digits of `n` gives `n` modulo 16^w. */
  lemma {:induction false} DigitsValue(n: nat, w: nat)
    ensures AllHexDigits(Digits(n, w))
    ensures ValueOf(Digits(n, w)) == n % Pow16(w)
  {
    if w > 0 {
      var s := Digits(n, w);
      DigitsValue(n / 16, w - 1);
      DigitAt(n % 16);
      assert s[..|s| - 1] == Digits(n / 16, w - 1);
      DivModNest(n, Pow16(w - 1));
      assert n % Pow16(w) == 16 * ((n / 16) % Pow16(w - 1)) + n % 16 by {
        var m := n % Pow16(w);
        assert m == 16 * (m / 16) + m % 16;
      }
    }
  }

  /** A number below 16^w is read back exactly from its `w` printed digits. */
  lemma DigitsValueBelow(n: nat, w: nat)
    requires n < Pow16(w)
    ensures AllHexDigits(Digits(n, w)) && ValueOf(Digits(n, w)) == n
  {
    DigitsValue(n, w);
    EuclidUnique(n, Pow16(w), 0, n);
  }

  /** Dropping the `k` leading digits of a `k + w` digit rendering leaves the `w` digit rendering. */
  lemma {:induction false} DigitsSuffix(n: nat, k: nat, w: nat)
    ensures Digits(n, k + w)[k..] == Digits(n % Pow16(w), w)
  {
    if w > 0 {
      DigitsSuffix(n / 16, k, w - 1);
      DivModNest(n, Pow16(w - 1));
      assert Digits(n, k + w)[k..] == Digits(n / 16, k + w - 1)[k..] + [DIGITS[n % 16]];
    }
  }
}
