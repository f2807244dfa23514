/**
 * Python's `str(n)` / `f"{n}"` for integers, as the ticket cog uses it to
 * build dictionary keys from Discord ids.
 */
module Decimal {
  function DigitChar(d: nat): (c: char)
    requires d < 10
    ensures '0' <= c <= '9'
  {
    "0123456789"[d]
  }

  predicate IsDigits(s: string)
  {
    forall i :: 0 <= i < |s| ==> '0' <= s[i] <= '9'
  }

  /** The decimal digits of `n`, most significant first, no leading zero. */
  function Digits(n: nat): (s: string)
    decreases n
  {
    if n < 10 then [DigitChar(n)] else Digits(n / 10) + [DigitChar(n % 10)]
  }

  /** `str(i)`: a minus sign before the digits of a negative number. */
  function IntToString(i: int): string
  {
    if i < 0 then "-" + Digits(-i) else Digits(i)
  }

  /** The rendering is a non-empty run of digits, one per power of ten. */
  lemma {:induction false} DigitsShape(n: nat)
    ensures |Digits(n)| >= 1 && IsDigits(Digits(n))
    ensures (|Digits(n)| == 1) == (n < 10)
    decreases n
  {
    if n >= 10 {
      DigitsShape(n / 10);
    }
  }

  lemma DigitCharInjective(a: nat, b: nat)
    requires a < 10 && b < 10 && DigitChar(a) == DigitChar(b)
    ensures a == b
  {
  }

  /** Distinct numbers render differently. */
  lemma {:induction false} DigitsInjective(a: nat, b: nat)
    requires Digits(a) == Digits(b)
    ensures a == b
    decreases a
  {
    DigitsShape(a);
    DigitsShape(b);
    if a >= 10 {
      var s := Digits(a);
      assert s[..|s| - 1] == Digits(a / 10) && s[|s| - 1] == DigitChar(a % 10);
      assert s[..|s| - 1] == Digits(b / 10) && s[|s| - 1] == DigitChar(b % 10);
      DigitsInjective(a / 10, b / 10);
      DigitCharInjective(a % 10, b % 10);
    } else {
      DigitCharInjective(a, b);
    }
  }

  /**
   * The compound key `f"{x}-{y}"` of two non-negative ids determines both
   * ids: the dash cannot occur inside either rendering.
   */
  lemma DashedKeyInjective(x: nat, y: nat, u: nat, v: nat)
    requires IntToString(x) + "-" + IntToString(y) == IntToString(u) + "-" + IntToString(v)
    ensures x == u && y == v
  {
    DigitsShape(x);
    DigitsShape(u);
    var l := Digits(x) + "-" + Digits(y);
    var r := Digits(u) + "-" + Digits(v);
    assert l[|Digits(x)|] == '-' && r[|Digits(u)|] == '-';
    assert Digits(x) == l[..|Digits(x)|] == r[..|Digits(u)|] == Digits(u);
    assert Digits(y) == l[|Digits(x)| + 1..] == r[|Digits(u)| + 1..] == Digits(v);
    DigitsInjective(x, u);
    DigitsInjective(y, v);
  }
}
