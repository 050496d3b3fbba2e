/**
 * Calendar dates as `System.DateTime` holds them, the `DateTime.Date` truncation, and the
 * `ToString("yyyy-MM-dd")` rendering under a culture whose calendar is Gregorian, which is then the
 * `full-date` production of section 5.6 of RFC 3339.
 */
module Dates {
  import opened Wrappers
  import opened Strings

  datatype Date = Date(year: int, month: int, day: int)

  predicate IsLeapYear(year: int) {
    year % 4 == 0 && (year % 100 != 0 || year % 400 == 0)
  }

  function DaysInMonth(year: int, month: int): int
    requires 1 <= month <= 12
  {
    if month == 2 then (if IsLeapYear(year) then 29 else 28)
    else if month == 4 || month == 6 || month == 9 || month == 11 then 30
    else 31
  }

  /** The dates a `DateTime` can hold: years 1 to 9999 of the Gregorian calendar. */
  predicate ValidDate(d: Date) {
    && 1 <= d.year <= 9999
    && 1 <= d.month <= 12
    && 1 <= d.day <= DaysInMonth(d.year, d.month)
  }

  type CalendarDate = d: Date | ValidDate(d) witness Date(2000, 1, 1)

  /** Time of day, in whole seconds since midnight. */
  type SecondOfDay = s: int | 0 <= s < 86400

  datatype DateTime = DateTime(date: CalendarDate, secondOfDay: SecondOfDay)

  /** `t.Date`: the same calendar day at midnight. */
  function DatePart(t: DateTime): (r: DateTime)
    ensures r.date == t.date && r.secondOfDay == 0
  {
    DateTime(t.date, 0)
  }

  /** `t?.Date` */
  function DatePartOf(t: Option<DateTime>): (r: Option<DateTime>)
    ensures r.Some? <==> t.Some?
    ensures r.Some? ==> r.value.date == t.value.date && r.value.secondOfDay == 0
  {
    if t.Some? then Some(DatePart(t.value)) else None
  }

  /** Truncating to the date is idempotent, and values that are already dates are kept. */
  lemma DatePartIdempotent(t: Option<DateTime>)
    ensures DatePartOf(DatePartOf(t)) == DatePartOf(t)
    ensures t.Some? && t.value.secondOfDay == 0 ==> DatePartOf(t) == t
  {
  }

  function Pow10(k: nat): nat {
    if k == 0 then 1 else 10 * Pow10(k - 1)
  }

  /** The `width` lowest decimal digits of `n`, zero-padded on the left. */
  function PadDigits(n: nat, width: nat): (r: string)
    requires n < Pow10(width)
    ensures |r| == width && IsDigits(r)
    ensures DigitsValue(r) == n
  {
    if width == 0 then ""
    else
      var prefix := PadDigits(n / 10, width - 1);
      var r := prefix + [DigitChar(n % 10)];
      assert r[..|r| - 1] == prefix;
      r
  }

  /** Appending a digit `d` to a number `q` and taking it off again. */
  lemma DivModLastDigit(q: int, d: int)
    requires 0 <= d < 10
    ensures (10 * q + d) / 10 == q && (10 * q + d) % 10 == d
  {
  }

  /** Padding a digit string's value to its own width gives back the string. */
  lemma {:induction false} PadDigitsOfValue(s: string)
    requires IsDigits(s)
    ensures DigitsValue(s) < Pow10(|s|)
    ensures PadDigits(DigitsValue(s), |s|) == s
  {
    if s != [] {
      var prefix := s[..|s| - 1];
      var last := s[|s| - 1];
      PadDigitsOfValue(prefix);
      var d := last as int - '0' as int;
      var v := DigitsValue(s);
      assert v == 10 * DigitsValue(prefix) + d;
      DivModLastDigit(DigitsValue(prefix), d);
      assert DigitChar(d) == last;
      assert PadDigits(v, |s|) == PadDigits(DigitsValue(prefix), |s| - 1) + [last];
      assert s == prefix + [last];
    }
  }

  /** The three fields of a `full-date` and its two dashes, at their fixed positions. */
  lemma FullDateSlices(year: string, month: string, day: string)
    requires |year| == 4 && |month| == 2 && |day| == 2
    ensures var r := year + "-" + month + "-" + day;
      && |r| == 10 && r[4] == '-' && r[7] == '-'
      && r[..4] == year && r[5..7] == month && r[8..] == day
  {
    var r := year + "-" + month + "-" + day;
    assert r[..4] == year;
    assert r[5..7] == month;
    assert r[8..] == day;
  }

  /** `d.ToString("yyyy-MM-dd")` */
  function FullDate(d: CalendarDate): (r: string)
    ensures |r| == 10 && r[4] == '-' && r[7] == '-'
    ensures IsDigits(r[..4]) && IsDigits(r[5..7]) && IsDigits(r[8..])
  {
    var year, month, day := PadDigits(d.year, 4), PadDigits(d.month, 2), PadDigits(d.day, 2);
    FullDateSlices(year, month, day);
    year + "-" + month + "-" + day
  }

  /** Reads a `full-date` (section 5.6 of RFC 3339) back; `None` for anything else. */
  function ParseFullDate(s: string): Option<CalendarDate> {
    if |s| == 10 && s[4] == '-' && s[7] == '-'
       && IsDigits(s[..4]) && IsDigits(s[5..7]) && IsDigits(s[8..])
    then
      var d := Date(DigitsValue(s[..4]), DigitsValue(s[5..7]), DigitsValue(s[8..]));
      if ValidDate(d) then Some(d) else None
    else None
  }

  /** Every date has exactly one `yyyy-MM-dd` rendering, and it reads back as that date. */
  lemma FullDateRoundTrip(d: CalendarDate, s: string)
    ensures ParseFullDate(FullDate(d)) == Some(d)
    ensures ParseFullDate(s) == Some(d) <==> s == FullDate(d)
  {
    FullDateSlices(PadDigits(d.year, 4), PadDigits(d.month, 2), PadDigits(d.day, 2));
    if ParseFullDate(s) == Some(d) {
      PadDigitsOfValue(s[..4]);
      PadDigitsOfValue(s[5..7]);
      PadDigitsOfValue(s[8..]);
      assert s == s[..4] + "-" + s[5..7] + "-" + s[8..];
    }
  }

  /** `t?.ToString("yyyy-MM-dd") ?? ""`: empty exactly when absent, a `full-date` otherwise. */
  function FullDateOrEmpty(t: Option<DateTime>): (r: string)
    ensures t.None? <==> r == ""
    ensures t.Some? ==> |r| == 10 && r[4] == '-' && r[7] == '-'
  {
    if t.None? then "" else FullDate(t.value.date)
  }

  /** A present date is sent as its own `full-date`, which reads back as that date. */
  lemma FullDateOrEmptyReadsBack(t: Option<DateTime>)
    requires t.Some?
    ensures ParseFullDate(FullDateOrEmpty(t)) == Some(t.value.date)
  {
    FullDateRoundTrip(t.value.date, "");
  }

  /** The rendering ignores the time of day, so truncating first changes nothing. */
  lemma FullDateIgnoresTimeOfDay(t: Option<DateTime>)
    ensures FullDateOrEmpty(DatePartOf(t)) == FullDateOrEmpty(t)
  {
  }
}
