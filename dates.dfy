/** Local calendar arithmetic as JavaScript's Date performs it: proleptic Gregorian
    dates with 0-based months, day-of-month overflow carried into neighbouring
    months, weekdays with 0 = Sunday, and the ISO text of a timestamp. */
module Dates {
  import opened Text

  /** A calendar date; `month` is JavaScript's getMonth() value, 0 = January. */
  datatype CivilDate = CivilDate(year: int, month: int, day: int)

  /** A local date with a time of day in seconds after midnight. */
  datatype Timestamp = Timestamp(date: CivilDate, seconds: int)

  const SecondsPerDay: int := 86400

  predicate IsLeapYear(y: int) { y % 4 == 0 && (y % 100 != 0 || y % 400 == 0) }

  function YearLength(y: int): int { if IsLeapYear(y) then 366 else 365 }

  function DaysInMonth(y: int, m: int): (n: int)
    requires 0 <= m < 12
    ensures 28 <= n <= 31
  {
    if m == 1 then (if IsLeapYear(y) then 29 else 28)
    else if m == 3 || m == 5 || m == 8 || m == 10 then 30
    else 31
  }

  predicate ValidDate(d: CivilDate) { 0 <= d.month < 12 && 1 <= d.day <= DaysInMonth(d.year, d.month) }

  predicate ValidTimestamp(t: Timestamp) { ValidDate(t.date) && 0 <= t.seconds < SecondsPerDay }

  /** What a Date object holds: a real calendar date and a time of day. */
  type Moment = t: Timestamp | ValidTimestamp(t) witness Timestamp(CivilDate(1970, 0, 1), 0)

  /** A calendar date that exists. */
  type Day = d: CivilDate | ValidDate(d) witness CivilDate(1970, 0, 1)

  /** Days from 0001-01-01 to January 1 of year `y`. */
  function DaysBeforeYear(y: int): int
  {
    var p := y - 1;
    365 * p + p / 4 - p / 100 + p / 400
  }

  /** Days from January 1 to the first of month `m` in year `y`. */
  function DaysBeforeMonth(y: int, m: int): int
    requires 0 <= m < 12
  {
    var leapDay := if m >= 2 && IsLeapYear(y) then 1 else 0;
    leapDay + (
      if m == 0 then 0 else if m == 1 then 31 else if m == 2 then 59 else if m == 3 then 90
      else if m == 4 then 120 else if m == 5 then 151 else if m == 6 then 181 else if m == 7 then 212
      else if m == 8 then 243 else if m == 9 then 273 else if m == 10 then 304 else 334)
  }

  /** Days from 0001-01-01 (a Monday) to `d`. */
  function DayNumber(d: CivilDate): int
    requires 0 <= d.month < 12
  {
    DaysBeforeYear(d.year) + DaysBeforeMonth(d.year, d.month) + d.day - 1
  }

  /** getDay(): 0 = Sunday, 1 = Monday, ..., 6 = Saturday. */
  function Weekday(d: CivilDate): (w: int)
    requires 0 <= d.month < 12
    ensures 0 <= w < 7
  {
    (DayNumber(d) + 1) % 7
  }

  /** The time value of a timestamp, in seconds. */
  function Instant(t: Timestamp): int
    requires 0 <= t.date.month < 12
  {
    DayNumber(t.date) * SecondsPerDay + t.seconds
  }

  lemma YearStep(y: int)
    ensures DaysBeforeYear(y + 1) == DaysBeforeYear(y) + YearLength(y)
  {
    QuotientStep4(y);
    QuotientStep100(y);
    QuotientStep400(y);
  }

  lemma QuotientStep4(y: int)
    ensures y / 4 - (y - 1) / 4 == if y % 4 == 0 then 1 else 0
  {
  }

  lemma QuotientStep100(y: int)
    ensures y / 100 - (y - 1) / 100 == if y % 100 == 0 then 1 else 0
  {
  }

  lemma QuotientStep400(y: int)
    ensures y / 400 - (y - 1) / 400 == if y % 400 == 0 then 1 else 0
  {
  }

  lemma MonthStep(y: int, m: int)
    requires 0 <= m < 12
    ensures m < 11 ==> DaysBeforeMonth(y, m + 1) == DaysBeforeMonth(y, m) + DaysInMonth(y, m)
    ensures m == 11 ==> DaysBeforeMonth(y, m) + DaysInMonth(y, m) == YearLength(y)
  {
  }

  lemma DaysBeforeMonthMonotone(y: int, m1: int, m2: int)
    requires 0 <= m1 < m2 < 12
    ensures DaysBeforeMonth(y, m1) + DaysInMonth(y, m1) <= DaysBeforeMonth(y, m2)
  {
  }

  lemma {:induction false} DaysBeforeYearMonotone(a: int, b: int)
    requires a <= b
    ensures DaysBeforeYear(a) + 365 * (b - a) <= DaysBeforeYear(b)
    decreases b - a
  {
    if a < b {
      DaysBeforeYearMonotone(a, b - 1);
      YearStep(b - 1);
    }
  }

  /** A valid date's day number lies within its year. */
  lemma DayNumberInYear(d: CivilDate)
    requires ValidDate(d)
    ensures DaysBeforeYear(d.year) <= DayNumber(d) < DaysBeforeYear(d.year + 1)
  {
    YearStep(d.year);
    if d.month < 11 {
      DaysBeforeMonthMonotone(d.year, d.month, 11);
    }
    MonthStep(d.year, 11);
  }

  /** Calendar order of dates, year first, then month, then day. */
  predicate DateBefore(a: CivilDate, b: CivilDate)
  {
    a.year < b.year
    || (a.year == b.year && a.month < b.month)
    || (a.year == b.year && a.month == b.month && a.day < b.day)
  }

  /** Day numbers order valid dates exactly as the calendar does. */
  lemma DayNumberOrder(a: CivilDate, b: CivilDate)
    requires ValidDate(a) && ValidDate(b)
    ensures DateBefore(a, b) <==> DayNumber(a) < DayNumber(b)
    ensures a == b <==> DayNumber(a) == DayNumber(b)
  {
    if DateBefore(a, b) {
      DayNumberIncreasing(a, b);
    } else if DateBefore(b, a) {
      DayNumberIncreasing(b, a);
    }
  }

  /** A date earlier in the calendar has a smaller day number. */
  lemma DayNumberIncreasing(a: CivilDate, b: CivilDate)
    requires ValidDate(a) && ValidDate(b) && DateBefore(a, b)
    ensures DayNumber(a) < DayNumber(b)
  {
    if a.year < b.year {
      DayNumberInYear(a);
      DayNumberInYear(b);
      DaysBeforeYearMonotone(a.year + 1, b.year);
    } else if a.month < b.month {
      DaysBeforeMonthMonotone(a.year, a.month, b.month);
    }
  }

  function NextMonth(y: int, m: int): (r: (int, int))
  {
    if m == 11 then (y + 1, 0) else (y, m + 1)
  }

  function PreviousMonth(y: int, m: int): (r: (int, int))
  {
    if m == 0 then (y - 1, 11) else (y, m - 1)
  }

  /** The first of the next month comes DaysInMonth days after the first of this one. */
  lemma NextMonthStart(y: int, m: int)
    requires 0 <= m < 12
    ensures var (ny, nm) := NextMonth(y, m);
      0 <= nm < 12 && DayNumber(CivilDate(ny, nm, 1)) == DayNumber(CivilDate(y, m, 1)) + DaysInMonth(y, m)
  {
    MonthStep(y, m);
    YearStep(y);
  }

  /** The first of the previous month comes its DaysInMonth days before the first of this one. */
  lemma PreviousMonthStart(y: int, m: int)
    requires 0 <= m < 12
    ensures var p := PreviousMonth(y, m);
      0 <= p.1 < 12 && DayNumber(CivilDate(p.0, p.1, 1)) + DaysInMonth(p.0, p.1) == DayNumber(CivilDate(y, m, 1))
  {
    var p := PreviousMonth(y, m);
    assert NextMonth(p.0, p.1) == (y, m);
    NextMonthStart(p.0, p.1);
  }

  /** The date `d - 1` days after the first of month `m` of year `y`, for any
      integer `d`: the carrying that Date performs for an out-of-range day. */
  function NormalizeDay(y: int, m: int, d: int): (r: CivilDate)
    requires 0 <= m < 12
    ensures ValidDate(r)
    ensures DayNumber(r) == DayNumber(CivilDate(y, m, 1)) + d - 1
    decreases if d < 1 then 1 else 0, if d < 1 then 1 - d else d
  {
    if d < 1 then
      var p := PreviousMonth(y, m);
      PreviousMonthStart(y, m);
      NormalizeDay(p.0, p.1, d + DaysInMonth(p.0, p.1))
    else if d > DaysInMonth(y, m) then
      var n := NextMonth(y, m);
      NextMonthStart(y, m);
      NormalizeDay(n.0, n.1, d - DaysInMonth(y, m))
    else
      CivilDate(y, m, d)
  }

  /** `new Date(y, m, d)` at midnight: the month carries into the year, then the day into the month. */
  function MakeDate(y: int, m: int, d: int): (r: CivilDate)
    ensures ValidDate(r)
    ensures DayNumber(r) == DayNumber(CivilDate(y + m / 12, m % 12, 1)) + d - 1
  {
    NormalizeDay(y + m / 12, m % 12, d)
  }

  /** `date.setDate(d)`: the day of month set to `d` (carrying as needed), the time of day kept. */
  function SetDate(t: Timestamp, d: int): (r: Timestamp)
    requires 0 <= t.date.month < 12
    ensures ValidDate(r.date) && r.seconds == t.seconds
    ensures DayNumber(r.date) == DayNumber(t.date) - t.date.day + d
  {
    Timestamp(NormalizeDay(t.date.year, t.date.month, d), t.seconds)
  }

  /** Normalising a day already in range leaves the date as it is. */
  lemma NormalizeInRange(y: int, m: int, d: int)
    requires ValidDate(CivilDate(y, m, d))
    ensures NormalizeDay(y, m, d) == CivilDate(y, m, d)
  {
  }

  /** `new Date(y, m, d)` for a date already in range is that date. */
  lemma MakeDateInRange(y: int, m: int, d: int)
    requires ValidDate(CivilDate(y, m, d))
    ensures MakeDate(y, m, d) == CivilDate(y, m, d)
  {
    assert y + m / 12 == y && m % 12 == m;
    NormalizeInRange(y, m, d);
  }

  /** getDate(), getMonth() and getFullYear() all agree. */
  predicate SameCalendarDay(a: CivilDate, b: CivilDate)
  {
    a.day == b.day && a.month == b.month && a.year == b.year
  }

  /** Timestamps are ordered by day number first and time of day second. */
  lemma InstantOrder(a: Timestamp, b: Timestamp)
    requires ValidTimestamp(a) && ValidTimestamp(b)
    ensures Instant(a) <= Instant(b) <==>
      DayNumber(a.date) < DayNumber(b.date) || (DayNumber(a.date) == DayNumber(b.date) && a.seconds <= b.seconds)
  {
  }

  // ---- ISO text ------------------------------------------------------------

  /** Characters that can occur in the date part of an ISO string. */
  predicate DateChars(s: string)
  {
    forall i :: 0 <= i < |s| ==> IsDigit(s[i]) || s[i] == '-' || s[i] == '+'
  }

  /** Years 0 to 9999 as four digits, others as a sign and six digits, as toISOString writes them. */
  function YearText(y: int): (s: string)
    ensures DateChars(s)
  {
    if 0 <= y <= 9999 then PadZeros(NatToString(y), 4)
    else if y < 0 then "-" + PadZeros(NatToString(-y), 6)
    else "+" + PadZeros(NatToString(y), 6)
  }

  function TwoDigits(n: nat): (s: string)
    ensures AllDigits(s)
  {
    PadZeros(NatToString(n), 2)
  }

  /** The date part of an ISO string: `YYYY-MM-DD`. */
  function DateText(d: CivilDate): (s: string)
    requires ValidDate(d)
    ensures DateChars(s)
  {
    YearText(d.year) + "-" + TwoDigits(d.month + 1) + "-" + TwoDigits(d.day)
  }

  /** `HH:MM:SS.000Z` for a time of day in seconds. */
  function TimeText(seconds: int): string
    requires 0 <= seconds < SecondsPerDay
  {
    TwoDigits(seconds / 3600) + ":" + TwoDigits(seconds % 3600 / 60) + ":" + TwoDigits(seconds % 60) + ".000Z"
  }

  /** The ISO string a transaction's date is stored as. */
  function IsoString(t: Timestamp): string
    requires ValidTimestamp(t)
  {
    DateText(t.date) + "T" + TimeText(t.seconds)
  }

  /** `iso.split('T')[0]` recovers the date part of an ISO string. */
  lemma IsoDatePart(t: Timestamp)
    requires ValidTimestamp(t)
    ensures Before(IsoString(t), 'T') == DateText(t.date)
  {
    var date := DateText(t.date);
    assert 'T' !in date;
    assert IsoString(t) == date + ['T'] + TimeText(t.seconds);
  }
}
