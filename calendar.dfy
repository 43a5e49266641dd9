/** The purchase time and purchase date of a receipt.

    `TimeSpan.TryParse` and `DateTime.TryParse` are culture-sensitive library
    parsers; here they are parsers of the 24-hour `HH:MM` form and of the ISO
    `yyyy-MM-dd` form, the forms a receipt carries. */
module Calendar {
  import opened Text
  import opened Wrappers

  datatype TimeOfDay = TimeOfDay(hours: nat, minutes: nat)

  /** The pattern `^([01]\d|2[0-3]):([0-5]\d)$` of `PurchaseTime`, over the whole string. */
  predicate IsPurchaseTimeText(s: string) {
    |s| == 5 &&
    ((('0' <= s[0] <= '1') && IsDigit(s[1])) || (s[0] == '2' && '0' <= s[1] <= '3')) &&
    s[2] == ':' &&
    '0' <= s[3] <= '5' && IsDigit(s[4])
  }

  /** Two decimal digits read as a number, `s[i]` the tens. */
  function TwoDigits(s: string, i: nat): (n: nat)
    requires i + 1 < |s| && IsDigit(s[i]) && IsDigit(s[i + 1])
    ensures n < 100
  {
    10 * DigitValue(s[i]) + DigitValue(s[i + 1])
  }

  /** `TimeSpan.TryParse` on a two-digit `HH:MM`: a time of day that the text
      denotes, or `None` when it is no such time. */
  function ParseTime(s: string): (r: Option<TimeOfDay>)
    ensures r.Some? <==> IsPurchaseTimeText(s)
    ensures r.Some? ==> r.value.hours < 24 && r.value.minutes < 60
  {
    if |s| == 5 && IsDigit(s[0]) && IsDigit(s[1]) && s[2] == ':' && IsDigit(s[3]) && IsDigit(s[4]) then
      var hours, minutes := TwoDigits(s, 0), TwoDigits(s, 3);
      if hours < 24 && minutes < 60 then Some(TimeOfDay(hours, minutes)) else None
    else
      None
  }

  /** The text of a time of day, two digits each side of the colon. */
  function FormatTime(t: TimeOfDay): (s: string)
    requires t.hours < 24 && t.minutes < 60
    ensures IsPurchaseTimeText(s)
  {
    [DigitChar(t.hours / 10), DigitChar(t.hours % 10), ':',
     DigitChar(t.minutes / 10), DigitChar(t.minutes % 10)]
  }

  /** Every time of day has a text that parses back to it. */
  lemma {:induction false} FormatThenParseTime(t: TimeOfDay)
    requires t.hours < 24 && t.minutes < 60
    ensures ParseTime(FormatTime(t)) == Some(t)
  {
    var s := FormatTime(t);
    assert TwoDigits(s, 0) == t.hours && TwoDigits(s, 3) == t.minutes;
  }

  /** A valid purchase time parses, and its hour is the number its first two
      characters spell, so it lies in [0, 23]. */
  lemma {:induction false} PurchaseTimeHour(s: string)
    requires IsPurchaseTimeText(s)
    ensures ParseTime(s).Some?
    ensures ParseTime(s).value.hours == TwoDigits(s, 0) <= 23
    ensures ParseTime(s).value.minutes == TwoDigits(s, 3) <= 59
  {
  }

  datatype Date = Date(year: nat, month: nat, day: nat)

  predicate IsLeapYear(year: nat) {
    year % 4 == 0 && (year % 100 != 0 || year % 400 == 0)
  }

  function DaysInMonth(year: nat, month: nat): (n: nat)
    requires 1 <= month <= 12
    ensures 28 <= n <= 31
  {
    if month == 2 then (if IsLeapYear(year) then 29 else 28)
    else if month == 4 || month == 6 || month == 9 || month == 11 then 30
    else 31
  }

  /** A date that `DateTime` can represent: years 1 to 9999 of the Gregorian calendar. */
  predicate IsCalendarDate(d: Date) {
    1 <= d.year <= 9999 && 1 <= d.month <= 12 && 1 <= d.day <= DaysInMonth(d.year, d.month)
  }

  /** The shape `dddd-dd-dd`. */
  predicate IsIsoDateShape(s: string) {
    |s| == 10 && s[4] == '-' && s[7] == '-' &&
    IsDigit(s[0]) && IsDigit(s[1]) && IsDigit(s[2]) && IsDigit(s[3]) &&
    IsDigit(s[5]) && IsDigit(s[6]) && IsDigit(s[8]) && IsDigit(s[9])
  }

  /** `DateTime.TryParse` on the ISO form `yyyy-MM-dd`: the calendar date the
      text denotes, or `None` when it has another form or names no such date
      (the thirtieth of February, month 13, year 0). */
  function ParseDate(s: string): (r: Option<Date>)
    ensures r.Some? ==> IsCalendarDate(r.value)
    ensures r.Some? ==> IsIsoDateShape(s) && r.value.day == TwoDigits(s, 8)
  {
    if IsIsoDateShape(s) then
      var d := DateFields(s);
      if IsCalendarDate(d) then Some(d) else None
    else
      None
  }

  /** The year, month and day that the digits of an ISO-shaped text spell. */
  function DateFields(s: string): (d: Date)
    requires IsIsoDateShape(s)
  {
    Date(100 * TwoDigits(s, 0) + TwoDigits(s, 2), TwoDigits(s, 5), TwoDigits(s, 8))
  }

  /** The converse of `ParseDate`'s contract: a text of the ISO shape whose
      fields name a calendar date parses, to that date. */
  lemma ParseDateOfShape(s: string)
    requires IsIsoDateShape(s) && IsCalendarDate(DateFields(s))
    ensures ParseDate(s) == Some(DateFields(s))
  {
  }

  /** The ISO text of a date, with leading zeros. */
  function FormatDate(d: Date): (s: string)
    requires IsCalendarDate(d)
    ensures IsIsoDateShape(s)
  {
    var century, yearOfCentury := d.year / 100, d.year % 100;
    [DigitChar(century / 10), DigitChar(century % 10), DigitChar(yearOfCentury / 10), DigitChar(yearOfCentury % 10), '-',
     DigitChar(d.month / 10), DigitChar(d.month % 10), '-',
     DigitChar(d.day / 10), DigitChar(d.day % 10)]
  }

  /** Every calendar date has an ISO text that parses back to it. */
  lemma {:induction false} FormatThenParseDate(d: Date)
    requires IsCalendarDate(d)
    ensures ParseDate(FormatDate(d)) == Some(d)
  {
    FormattedDateDigits(d);
    assert 100 * (d.year / 100) + d.year % 100 == d.year;
  }

  /** The four two-digit fields of the ISO text of `d`. */
  lemma {:induction false} FormattedDateDigits(d: Date)
    requires IsCalendarDate(d)
    ensures var s := FormatDate(d);
      TwoDigits(s, 0) == d.year / 100 && TwoDigits(s, 2) == d.year % 100 &&
      TwoDigits(s, 5) == d.month && TwoDigits(s, 8) == d.day
  {
    var s := FormatDate(d);
    DigitPair(s, 0, d.year / 100);
    DigitPair(s, 2, d.year % 100);
    DigitPair(s, 5, d.month);
    DigitPair(s, 8, d.day);
  }

  lemma DigitPair(s: string, i: nat, n: nat)
    requires n < 100 && i + 1 < |s|
    requires s[i] == DigitChar(n / 10) && s[i + 1] == DigitChar(n % 10)
    ensures TwoDigits(s, i) == n
  {
  }

  /** A text that parses is the ISO text of its date, so parsing loses
      nothing and each calendar date has exactly one text that parses to it. */
  lemma {:induction false} ParseThenFormatDate(s: string)
    requires ParseDate(s).Some?
    ensures FormatDate(ParseDate(s).value) == s
  {
    var d := ParseDate(s).value;
    assert d.year / 100 == TwoDigits(s, 0) && d.year % 100 == TwoDigits(s, 2);
    DigitsOfPair(s, 0);
    DigitsOfPair(s, 2);
    DigitsOfPair(s, 5);
    DigitsOfPair(s, 8);
    var t := FormatDate(d);
    assert forall i | 0 <= i < 10 :: t[i] == s[i];
  }

  /** Two digits are the characters of the tens and units of the number they spell. */
  lemma DigitsOfPair(s: string, i: nat)
    requires i + 1 < |s| && IsDigit(s[i]) && IsDigit(s[i + 1])
    ensures DigitChar(TwoDigits(s, i) / 10) == s[i] && DigitChar(TwoDigits(s, i) % 10) == s[i + 1]
  {
  }

  /** A parsed day is odd exactly when the last character of the text is an odd digit. */
  lemma {:induction false} OddDayIffOddLastDigit(s: string)
    requires ParseDate(s).Some?
    ensures ParseDate(s).value.day % 2 == 1 <==> s[9] in "13579"
  {
    var day := ParseDate(s).value.day;
    assert day % 2 == DigitValue(s[9]) % 2;
  }
}
