// Go's time.Parse with the layout "2006-01-02T15:04" (events-service/handlers.go),
// as far as that layout exercises it: a four-digit year, a two-digit month,
// day and minute, an hour of one or two digits, the literal separators, no
// trailing text, and the range checks on every field including the day of the
// month.  The result is a UTC wall-clock reading; instants compare in the
// order of their fields.

module TimeLayout {
  import opened Base
  import opened Text

  const Layout := "2006-01-02T15:04"

  datatype DateTime = DateTime(year: int, month: int, day: int, hour: int, minute: int)

  predicate IsLeap(year: int)
  {
    year % 4 == 0 && (year % 100 != 0 || year % 400 == 0)
  }

  function DaysIn(month: int, year: int): int
    requires 1 <= month <= 12
  {
    if month == 2 then (if IsLeap(year) then 29 else 28)
    else if month == 4 || month == 6 || month == 9 || month == 11 then 30
    else 31
  }

  /** A reading time.Parse can return: every field in its range. */
  predicate ValidDateTime(d: DateTime)
  {
    && 0 <= d.year <= 9999
    && 1 <= d.month <= 12
    && 1 <= d.day <= DaysIn(d.month, d.year)
    && 0 <= d.hour < 24
    && 0 <= d.minute < 60
  }

  function TwoDigitValue(a: char, b: char): nat
    requires IsDigit(a) && IsDigit(b)
  {
    10 * DigitValue(a) + DigitValue(b)
  }

  /** Everything after the 'T': the hour takes a second digit when one follows, then ":MM" must end the text. */
  function ParseClock(t: string): Option<(int, int)>
  {
    if |t| == 0 || !IsDigit(t[0]) then None
    else
      var twoDigits := |t| > 1 && IsDigit(t[1]);
      var hour := if twoDigits then TwoDigitValue(t[0], t[1]) else DigitValue(t[0]);
      var rest := if twoDigits then t[2..] else t[1..];
      if |rest| != 3 || rest[0] != ':' || !IsDigit(rest[1]) || !IsDigit(rest[2]) then None
      else if hour >= 24 || TwoDigitValue(rest[1], rest[2]) >= 60 then None
      else Some((hour, TwoDigitValue(rest[1], rest[2])))
  }

  function Parse(s: string): (r: Option<DateTime>)
    ensures r.Some? ==> ValidDateTime(r.value)
    ensures r.Some? ==> |s| == 16 || (|s| == 15 && r.value.hour < 10)
  {
    if |s| < 11 || !AllDigits(s[..4]) || s[4] != '-' || !IsDigit(s[5]) || !IsDigit(s[6])
       || s[7] != '-' || !IsDigit(s[8]) || !IsDigit(s[9]) || s[10] != 'T'
    then None
    else
      var year, month, day := DecimalValue(s[..4]), TwoDigitValue(s[5], s[6]), TwoDigitValue(s[8], s[9]);
      var clock := ParseClock(s[11..]);
      if clock.None? || month < 1 || month > 12 || day < 1 || day > DaysIn(month, year) then None
      else
        DecimalBound(s[..4]);
        Some(DateTime(year, month, day, clock.value.0, clock.value.1))
  }

  lemma {:induction false} DecimalBound(s: string)
    requires AllDigits(s)
    ensures DecimalValue(s) < Pow10(|s|)
  {
    if s != [] {
      DecimalBound(s[..|s| - 1]);
    }
  }

  /** Text written in the layout: digits and separators in place, 16 characters. */
  predicate InLayout(s: string)
  {
    && |s| == 16 && AllDigits(s[..4]) && s[4] == '-' && IsDigit(s[5]) && IsDigit(s[6]) && s[7] == '-'
    && IsDigit(s[8]) && IsDigit(s[9]) && s[10] == 'T' && IsDigit(s[11]) && IsDigit(s[12]) && s[13] == ':'
    && IsDigit(s[14]) && IsDigit(s[15])
  }

  /** The fields such text spells, before any range check. */
  function Fields(s: string): DateTime
    requires InLayout(s)
  {
    DateTime(DecimalValue(s[..4]), TwoDigitValue(s[5], s[6]), TwoDigitValue(s[8], s[9]),
             TwoDigitValue(s[11], s[12]), TwoDigitValue(s[14], s[15]))
  }

  /** Text in the layout is accepted exactly when the fields it spells form a valid reading, and then it is that reading. */
  lemma ParseInLayout(s: string)
    requires InLayout(s)
    ensures Parse(s) == if ValidDateTime(Fields(s)) then Some(Fields(s)) else None
  {
    DecimalBound(s[..4]);
    assert Pow10(4) == 10000 by { assert Pow10(2) == 100; }
    var t := s[11..];
    assert t[0] == s[11] && t[1] == s[12] && t[2..] == s[13..];
    assert ParseClock(t) == if TwoDigitValue(s[11], s[12]) < 24 && TwoDigitValue(s[14], s[15]) < 60
      then Some((TwoDigitValue(s[11], s[12]), TwoDigitValue(s[14], s[15]))) else None;
  }

  /** time.Time.Before on two parsed readings. */
  predicate Before(a: DateTime, b: DateTime)
  {
    || a.year < b.year
    || (a.year == b.year && a.month < b.month)
    || (a.year == b.year && a.month == b.month && a.day < b.day)
    || (a.year == b.year && a.month == b.month && a.day == b.day && a.hour < b.hour)
    || (a.year == b.year && a.month == b.month && a.day == b.day && a.hour == b.hour && a.minute < b.minute)
  }

  /** Before is a strict total order on readings. */
  lemma BeforeIsStrictTotalOrder(a: DateTime, b: DateTime, c: DateTime)
    ensures !Before(a, a)
    ensures Before(a, b) ==> !Before(b, a)
    ensures Before(a, b) && Before(b, c) ==> Before(a, c)
    ensures a == b || Before(a, b) || Before(b, a)
  {
  }
}
