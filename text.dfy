/** Character classes, trimming and decimal digits, restricted to ASCII.

    The .NET predicates `char.IsLetterOrDigit` and `char.IsWhiteSpace`, the regular
    expression classes `\w`, `\s` and `\d`, and `string.Trim` are Unicode-aware; here
    they are their ASCII subsets. */
module Text {

  /** `char.IsLetterOrDigit`, ASCII letters and digits only. */
  predicate IsLetterOrDigit(c: char) {
    'A' <= c <= 'Z' || 'a' <= c <= 'z' || IsDigit(c)
  }

  /** The regular expression class `\d`. */
  predicate IsDigit(c: char) {
    '0' <= c <= '9'
  }

  /** The regular expression class `\w`: letters, digits and the underscore. */
  predicate IsWordChar(c: char) {
    IsLetterOrDigit(c) || c == '_'
  }

  /** The regular expression class `\s`, and `char.IsWhiteSpace`:
      space, tab, line feed, vertical tab, form feed, carriage return. */
  predicate IsWhiteSpace(c: char) {
    c == ' ' || c == '\t' || c == '\n' || c == '\U{B}' || c == '\U{C}' || c == '\r'
  }

  /** `string.IsNullOrWhiteSpace` on a string that is not null. */
  predicate IsBlank(s: string) {
    forall i :: 0 <= i < |s| ==> IsWhiteSpace(s[i])
  }

  /** What `[Required]` accepts in a string property: not null, and (since
      `AllowEmptyStrings` is false) neither empty nor made only of white space. */
  predicate IsRequiredPresent(s: string) {
    !IsBlank(s)
  }

  /** The number of letters and digits in `s`, as `s.Count(char.IsLetterOrDigit)`. */
  function CountLetterOrDigit(s: string): (n: nat)
    ensures n <= |s|
  {
    if s == [] then 0
    else (if IsLetterOrDigit(s[0]) then 1 else 0) + CountLetterOrDigit(s[1..])
  }

  /** The positions of `s` that hold a letter or a digit. */
  ghost function LetterOrDigitPositions(s: string): (positions: set<nat>) {
    set i: nat | i < |s| && IsLetterOrDigit(s[i])
  }

  /** The count is exactly the number of positions holding a letter or a digit. */
  lemma {:induction false} CountIsNumberOfPositions(s: string)
    ensures CountLetterOrDigit(s) == |LetterOrDigitPositions(s)|
  {
    if s == [] {
      assert LetterOrDigitPositions(s) == {};
    } else {
      var tail := LetterOrDigitPositions(s[1..]);
      var shifted := set i: nat | i in tail :: i + 1;
      CountIsNumberOfPositions(s[1..]);
      ShiftedSize(tail);
      forall i: nat | i in LetterOrDigitPositions(s) && i > 0
        ensures i in shifted
      {
        assert i - 1 in tail;
      }
      if IsLetterOrDigit(s[0]) {
        assert LetterOrDigitPositions(s) == {0} + shifted;
      } else {
        assert LetterOrDigitPositions(s) == shifted;
      }
    }
  }

  lemma {:induction false} ShiftedSize(xs: set<nat>)
    ensures |set i: nat | i in xs :: i + 1| == |xs|
    ensures 0 !in set i: nat | i in xs :: i + 1
    decreases |xs|
  {
    var ys := set i: nat | i in xs :: i + 1;
    if xs != {} {
      var x :| x in xs;
      var rest := xs - {x};
      var restShifted := set i: nat | i in rest :: i + 1;
      ShiftedSize(rest);
      forall y | y in ys
        ensures y in restShifted + {x + 1}
      {
        var i :| i in xs && y == i + 1;
        if i != x {
          assert i in rest;
        }
      }
      assert ys == restShifted + {x + 1};
      assert x + 1 !in restShifted;
    } else {
      assert ys == {};
    }
  }

  /** Counting distributes over concatenation. */
  lemma {:induction false} CountConcat(a: string, b: string)
    ensures CountLetterOrDigit(a + b) == CountLetterOrDigit(a) + CountLetterOrDigit(b)
  {
    if a != [] {
      assert (a + b)[1..] == a[1..] + b;
      CountConcat(a[1..], b);
    } else {
      assert a + b == b;
    }
  }

  /** Inserting characters that are neither letters nor digits (`&`, `-`, `_`,
      white space, ...) anywhere does not change the count. */
  lemma {:induction false} NonAlphanumericAddsNothing(a: string, t: string, b: string)
    requires forall i :: 0 <= i < |t| ==> !IsLetterOrDigit(t[i])
    ensures CountLetterOrDigit(a + t + b) == CountLetterOrDigit(a + b)
  {
    CountConcat(a + t, b);
    CountConcat(a, t);
    CountConcat(a, b);
    NoLetterOrDigitCountsZero(t);
  }

  lemma {:induction false} NoLetterOrDigitCountsZero(t: string)
    requires forall i :: 0 <= i < |t| ==> !IsLetterOrDigit(t[i])
    ensures CountLetterOrDigit(t) == 0
  {
    if t != [] {
      NoLetterOrDigitCountsZero(t[1..]);
    }
  }

  /** The number of white-space characters in `s` from position `from` on,
      up to the first other character: `Trim`'s forward scan. */
  function LeadingWhiteSpace(s: string, from: nat): (n: nat)
    requires from <= |s|
    ensures from + n <= |s|
    ensures forall i :: from <= i < from + n ==> IsWhiteSpace(s[i])
    ensures from + n == |s| || !IsWhiteSpace(s[from + n])
    decreases |s| - from
  {
    if from < |s| && IsWhiteSpace(s[from]) then 1 + LeadingWhiteSpace(s, from + 1) else 0
  }

  /** The number of white-space characters in `s` before position `upto`, back
      to the first other character or to position `low`: `Trim`'s backward scan. */
  function TrailingWhiteSpace(s: string, low: nat, upto: nat): (n: nat)
    requires low <= upto <= |s|
    ensures n <= upto - low
    ensures forall i :: upto - n <= i < upto ==> IsWhiteSpace(s[i])
    ensures n == upto - low || !IsWhiteSpace(s[upto - n - 1])
  {
    if low < upto && IsWhiteSpace(s[upto - 1]) then 1 + TrailingWhiteSpace(s, low, upto - 1) else 0
  }

  /** `string.Trim`: `s` without its leading and trailing white space. */
  function Trim(s: string): (r: string)
    ensures |r| <= |s|
    ensures r != [] ==> !IsWhiteSpace(r[0]) && !IsWhiteSpace(r[|r| - 1])
  {
    var start := LeadingWhiteSpace(s, 0);
    s[start..|s| - TrailingWhiteSpace(s, start, |s|)]
  }

  /** What `Trim` removes is white space on either side: `s` is `Trim(s)` with a
      blank prefix and a blank suffix around it. */
  lemma {:induction false} TrimIsInfix(s: string)
    ensures var r, k := Trim(s), LeadingWhiteSpace(s, 0);
      k + |r| <= |s| && r == s[k..k + |r|] && IsBlank(s[..k]) && IsBlank(s[k + |r|..])
  {
    var k := LeadingWhiteSpace(s, 0);
    var e := |s| - TrailingWhiteSpace(s, k, |s|);
    assert forall i :: 0 <= i < k ==> s[..k][i] == s[i];
    assert forall i :: 0 <= i < |s| - e ==> s[e..][i] == s[e + i];
  }

  /** `Trim` leaves nothing exactly when the text is blank. */
  lemma {:induction false} TrimEmptyIffBlank(s: string)
    ensures Trim(s) == [] <==> IsBlank(s)
  {
    var k := LeadingWhiteSpace(s, 0);
    if Trim(s) != [] {
      assert s[k] == Trim(s)[0];
    }
  }

  /** Conversely, white space around a text that neither starts nor ends with
      white space is exactly what `Trim` removes. */
  lemma {:induction false} TrimOfPadded(a: string, t: string, b: string)
    requires IsBlank(a) && IsBlank(b)
    requires t != [] && !IsWhiteSpace(t[0]) && !IsWhiteSpace(t[|t| - 1])
    ensures Trim(a + t + b) == t
  {
    var s := a + t + b;
    var k := LeadingWhiteSpace(s, 0);
    assert s[|a|] == t[0];
    assert forall i :: 0 <= i < |a| ==> s[i] == a[i];
    assert k == |a|;
    var n := TrailingWhiteSpace(s, k, |s|);
    assert s[|a| + |t| - 1] == t[|t| - 1];
    assert forall i :: |a| + |t| <= i < |s| ==> s[i] == b[i - |a| - |t|];
    assert n == |b|;
    assert s[|a|..|a| + |t|] == t;
  }

  /** A text that neither starts nor ends with white space is its own trim. */
  lemma TrimOfUnpadded(t: string)
    requires t != [] && !IsWhiteSpace(t[0]) && !IsWhiteSpace(t[|t| - 1])
    ensures Trim(t) == t
  {
    TrimOfPadded([], t, []);
    assert [] + t + [] == t;
  }

  predicate IsDigits(s: string) {
    forall i :: 0 <= i < |s| ==> IsDigit(s[i])
  }

  function DigitValue(c: char): (d: nat)
    requires IsDigit(c)
    ensures d < 10
  {
    c as int - '0' as int
  }

  function DigitChar(d: nat): (c: char)
    requires d < 10
    ensures IsDigit(c) && DigitValue(c) == d
  {
    ('0' as int + d) as char
  }

  /** The number that a string of decimal digits denotes (most significant first). */
  function DigitsValue(s: string): (n: nat)
    requires IsDigits(s)
  {
    if s == [] then 0 else DigitsValue(s[..|s| - 1]) * 10 + DigitValue(s[|s| - 1])
  }

  /** The shortest decimal representation of `n`. */
  function NatToDigits(n: nat): (s: string)
    ensures |s| >= 1 && IsDigits(s)
    ensures s[0] != '0' || n == 0
    ensures DigitsValue(s) == n
  {
    if n < 10 then [DigitChar(n)]
    else
      var prefix := NatToDigits(n / 10);
      var s := prefix + [DigitChar(n % 10)];
      assert s[..|s| - 1] == prefix;
      s
  }

  /** Digit strings without superfluous leading zeros are exactly the images of
      `NatToDigits`. */
  lemma {:induction false} DigitsRoundTrip(s: string)
    requires |s| >= 1 && IsDigits(s) && (s[0] != '0' || |s| == 1)
    ensures NatToDigits(DigitsValue(s)) == s
  {
    var n := DigitsValue(s);
    var init := s[..|s| - 1];
    if |s| == 1 {
      assert init == [];
    } else {
      assert IsDigits(init) && init[0] == s[0];
      DigitsRoundTrip(init);
      LeadingDigitPositive(init);
      assert n / 10 == DigitsValue(init) && n % 10 == DigitValue(s[|s| - 1]);
      assert DigitChar(n % 10) == s[|s| - 1];
      assert s == init + [s[|s| - 1]];
    }
  }

  lemma {:induction false} LeadingDigitPositive(s: string)
    requires |s| >= 1 && IsDigits(s) && s[0] != '0'
    ensures DigitsValue(s) >= 1
  {
    if |s| > 1 {
      var init := s[..|s| - 1];
      assert init[0] == s[0];
      LeadingDigitPositive(init);
    }
  }
}
