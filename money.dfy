/**
  Money is an exact decimal (`real`). The storefront rounds with
  `Number.prototype.toFixed(2)`; `Round2` is that rounding taken on the exact
  value: the magnitude is rounded to the nearest cent, a tie goes up, and the
  sign is kept.
*/
module Money {
  import opened Text

  /** The number of cents `x.toFixed(2)` shows, with the sign of `x`. */
  function Cents(x: real): int {
    if x < 0.0 then -((-x * 100.0 + 0.5).Floor) else (x * 100.0 + 0.5).Floor
  }

  /** `+x.toFixed(2)`: the nearest whole number of cents, at most half a cent away from `x`. */
  function Round2(x: real): (r: real)
    ensures -0.005 <= r - x <= 0.005
    ensures r * 100.0 == Cents(x) as real
  {
    Cents(x) as real / 100.0
  }

  /** Rounding keeps the sign: a non-negative amount never rounds below zero. */
  lemma Round2NonNegative(x: real)
    requires x >= 0.0
    ensures Round2(x) >= 0.0
  {
  }

  /** An amount that is already a whole number of cents is left as it is. */
  lemma Round2OfCents(c: int)
    ensures Round2(c as real / 100.0) == c as real / 100.0
  {
    var x := c as real / 100.0;
    if c < 0 {
      assert (-x * 100.0 + 0.5).Floor == -c;
    } else {
      assert (x * 100.0 + 0.5).Floor == c;
    }
  }

  /** Rounding twice is rounding once. */
  lemma Round2Idempotent(x: real)
    ensures Round2(Round2(x)) == Round2(x)
  {
    Round2OfCents(Cents(x));
  }

  /** The number of cents `x.toFixed(2)` shows, without its sign. */
  function CentsMagnitude(x: real): nat {
    if Cents(x) < 0 then -Cents(x) else Cents(x)
  }

  /**
    `x.toFixed(2)` as text: a sign for negative `x`, the whole part, a point
    and two digits; read back as a decimal, the digits spell the cents that
    `Round2` keeps.
  */
  function FormatFixed2(x: real): (r: string)
    ensures |r| >= 4 && r[|r| - 3] == '.'
    ensures IsDigit(r[|r| - 2]) && IsDigit(r[|r| - 1])
    ensures (r[0] == '-') <==> x < 0.0
    ensures var s := if x < 0.0 then 1 else 0;
      s < |r| - 3 &&
      (forall i :: s <= i < |r| - 3 ==> IsDigit(r[i])) &&
      DigitsValue(r[s..|r| - 3]) * 100 + (r[|r| - 2] as int - '0' as int) * 10 + (r[|r| - 1] as int - '0' as int)
        == CentsMagnitude(x)
  {
    var c := CentsMagnitude(x);
    var sign := if x < 0.0 then "-" else "";
    var whole := NatToString(c / 100);
    NatToStringValue(c / 100);
    var m := c % 100;
    CentsDigits(c);
    FixedText(sign, whole, m / 10, m % 10);
    sign + whole + "." + [Digit(m / 10), Digit(m % 10)]
  }

  /** A count of cents is its whole part, its tens of cents and its cents. */
  lemma CentsDigits(c: nat)
    ensures (c / 100) * 100 + (c % 100 / 10) * 10 + c % 100 % 10 == c
  {
    var m := c % 100;
    assert c == (c / 100) * 100 + m;
    assert m == (m / 10) * 10 + m % 10;
  }

  /** Where the parts of the rendered text sit. */
  lemma FixedText(sign: string, whole: string, tens: nat, units: nat)
    requires tens < 10 && units < 10
    ensures var r := sign + whole + "." + [Digit(tens), Digit(units)];
      |r| == |sign| + |whole| + 3 && r[|sign|..|r| - 3] == whole && r[|r| - 3] == '.' &&
      r[|r| - 2] == Digit(tens) && r[|r| - 1] == Digit(units) &&
      (|sign| > 0 ==> r[0] == sign[0])
  {
    var r := sign + whole + "." + [Digit(tens), Digit(units)];
    assert r == sign + (whole + ("." + [Digit(tens), Digit(units)]));
  }
}
