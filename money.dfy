/** Money amounts, the `Total` of a receipt and the `Price` of an item.

    Both are strings of the shape `^\d+\.\d{2}$` and are read with
    `decimal.TryParse`. Digits here are the ASCII digits, on which that parse
    is exact; an amount is therefore modelled as a whole number of cents. */
module Money {
  import opened Text
  import opened Wrappers

  /** The pattern `^\d+\.\d{2}$` over the whole string: one or more digits, a
      point and exactly two digits. */
  predicate IsAmount(s: string) {
    |s| >= 4 && s[|s| - 3] == '.' && IsDigits(s[..|s| - 3]) && IsDigits(s[|s| - 2..])
  }

  /** The digits before the point. */
  function WholePart(s: string): (w: string)
    requires IsAmount(s)
    ensures |w| >= 1 && IsDigits(w)
  {
    s[..|s| - 3]
  }

  /** The two digits after the point, as a number of cents. */
  function CentsPart(s: string): (c: nat)
    requires IsAmount(s)
    ensures c < 100
  {
    assert IsDigit(s[|s| - 2]) && IsDigit(s[|s| - 1]) by {
      assert s[|s| - 2..][0] == s[|s| - 2] && s[|s| - 2..][1] == s[|s| - 1];
    }
    10 * DigitValue(s[|s| - 2]) + DigitValue(s[|s| - 1])
  }

  /** `decimal.TryParse` restricted to the validated shape: the amount in cents,
      or `None` when `s` does not have that shape. */
  function ParseCents(s: string): (r: Option<nat>)
    ensures r.Some? <==> IsAmount(s)
    ensures r.Some? ==> r.value / 100 == DigitsValue(WholePart(s)) && r.value % 100 == CentsPart(s)
  {
    if IsAmount(s) then Some(DigitsValue(WholePart(s)) * 100 + CentsPart(s)) else None
  }

  /** The canonical text of an amount: no superfluous leading zero, two decimals. */
  function FormatCents(cents: nat): (s: string)
    ensures IsAmount(s)
  {
    var tens, units := cents % 100 / 10, cents % 100 % 10;
    var s := NatToDigits(cents / 100) + ['.', DigitChar(tens), DigitChar(units)];
    assert s[..|s| - 3] == NatToDigits(cents / 100);
    assert s[|s| - 2..] == [DigitChar(tens), DigitChar(units)];
    s
  }

  /** Formatting then parsing gives back the amount. */
  lemma {:induction false} FormatThenParse(cents: nat)
    ensures ParseCents(FormatCents(cents)) == Some(cents)
  {
    var s := FormatCents(cents);
    assert WholePart(s) == NatToDigits(cents / 100);
    assert s[|s| - 2] == DigitChar(cents % 100 / 10) && s[|s| - 1] == DigitChar(cents % 100 % 10);
  }

  /** Parsing then formatting gives back the text, when its whole part has no
      superfluous leading zero; so each amount has exactly one canonical text. */
  lemma {:induction false} ParseThenFormat(s: string)
    requires IsAmount(s) && (s[0] != '0' || |s| == 4)
    ensures FormatCents(ParseCents(s).value) == s
  {
    var cents := ParseCents(s).value;
    var w := WholePart(s);
    var d1, d2 := s[|s| - 2], s[|s| - 1];
    assert IsDigit(d1) && IsDigit(d2) by {
      assert s[|s| - 2..][0] == d1 && s[|s| - 2..][1] == d2;
    }
    assert w[0] == s[0];
    DigitsRoundTrip(w);
    assert cents / 100 == DigitsValue(w) && cents % 100 == 10 * DigitValue(d1) + DigitValue(d2);
    assert cents % 100 / 10 == DigitValue(d1) && cents % 100 % 10 == DigitValue(d2);
    assert DigitChar(DigitValue(d1)) == d1 && DigitChar(DigitValue(d2)) == d2;
    assert s == w + ['.', d1, d2];
  }

  /** `amount % 1 == 0`: the amount is a whole number exactly when it ends in ".00". */
  lemma {:induction false} WholeIffZeroCents(s: string)
    requires IsAmount(s)
    ensures ParseCents(s).value % 100 == 0 <==> s[|s| - 2..] == "00"
  {
    assert s[|s| - 2..] == [s[|s| - 2], s[|s| - 1]];
  }

  /** `amount % 0.25m == 0`: the amount is a multiple of a quarter exactly when it
      ends in ".00", ".25", ".50" or ".75". */
  lemma {:induction false} QuarterIffQuarterCents(s: string)
    requires IsAmount(s)
    ensures ParseCents(s).value % 25 == 0 <==> s[|s| - 2..] in {"00", "25", "50", "75"}
  {
    QuarterOfCents(ParseCents(s).value);
    assert s[|s| - 2..] == [s[|s| - 2], s[|s| - 1]];
  }

  /** A hundred being a multiple of 25, only the cents decide divisibility by 25. */
  lemma QuarterOfCents(c: nat)
    ensures c % 25 == (c % 100) % 25
  {
    var q, r := c / 100, c % 100;
    assert c == 25 * (4 * q) + r;
  }

  /** `(int)Math.Ceiling(amount * 0.2m)` before the cast: a fifth of the amount,
      rounded up to a whole number. */
  function CeilingOfFifth(cents: nat): (r: nat)
    ensures 500 * (r - 1) < cents <= 500 * r
  {
    (cents + 499) / 500
  }
}
