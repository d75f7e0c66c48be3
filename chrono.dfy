/**
 * Python's `datetime` arithmetic on the proleptic Gregorian calendar: valid dates, ordinals,
 * weekdays, `+ timedelta(days=n)` and `+ timedelta(minutes=n)` with rollover, comparisons and
 * the `strftime`/`isoformat` renderings the stores use.
 */
module Chrono {
  import opened Wrappers
  import opened Text

  datatype Date = Date(year: int, month: int, day: int)

  /** A naive `datetime`: no time zone. */
  datatype DateTime = DateTime(date: Date, hour: int, minute: int, second: int, micro: int)

  const MinYear := 1
  const MaxYear := 9999

  predicate IsLeapYear(y: int) {
    y % 4 == 0 && (y % 100 != 0 || y % 400 == 0)
  }

  function DaysInMonth(y: int, m: int): (n: int)
    requires 1 <= m <= 12
    ensures 28 <= n <= 31
    ensures m == 2 ==> (n == 29 <==> IsLeapYear(y))
  {
    if m == 2 then (if IsLeapYear(y) then 29 else 28)
    else if m == 4 || m == 6 || m == 9 || m == 11 then 30
    else 31
  }

  function DaysInYear(y: int): int {
    if IsLeapYear(y) then 366 else 365
  }

  /** A date `datetime.date` accepts: year 1..9999, a real month, a day that month has. */
  predicate ValidDate(d: Date) {
    MinYear <= d.year <= MaxYear && 1 <= d.month <= 12 && 1 <= d.day <= DaysInMonth(d.year, d.month)
  }

  predicate ValidClockTime(h: int, m: int) {
    0 <= h < 24 && 0 <= m < 60
  }

  predicate ValidDateTime(t: DateTime) {
    ValidDate(t.date) && ValidClockTime(t.hour, t.minute) && 0 <= t.second < 60 && 0 <= t.micro < 1000000
  }

  /** The value `datetime.now()` is assumed to return: a valid instant before the last representable year. */
  predicate ValidClock(now: DateTime) {
    ValidDateTime(now) && now.date.year < MaxYear
  }

  function DaysBeforeYear(y: int): int
    requires y >= 1
  {
    var p := y - 1;
    365 * p + p / 4 - p / 100 + p / 400
  }

  function DaysBeforeMonth(y: int, m: int): int
    requires 1 <= m <= 12
  {
    var common :=
      if m == 1 then 0 else if m == 2 then 31 else if m == 3 then 59 else if m == 4 then 90
      else if m == 5 then 120 else if m == 6 then 151 else if m == 7 then 181 else if m == 8 then 212
      else if m == 9 then 243 else if m == 10 then 273 else if m == 11 then 304 else 334;
    common + (if m > 2 && IsLeapYear(y) then 1 else 0)
  }

  /** `date.toordinal()`: 0001-01-01 is day 1. */
  function Ordinal(d: Date): int
    requires ValidDate(d)
  {
    DaysBeforeYear(d.year) + DaysBeforeMonth(d.year, d.month) + d.day
  }

  /** `date.weekday()`: Monday is 0 and Sunday is 6. */
  function Weekday(d: Date): (w: int)
    requires ValidDate(d)
    ensures 0 <= w < 7
  {
    (Ordinal(d) + 6) % 7
  }

  function NextDay(d: Date): (r: Date)
    requires ValidDate(d)
    ensures d != Date(MaxYear, 12, 31) ==> ValidDate(r)
  {
    if d.day < DaysInMonth(d.year, d.month) then Date(d.year, d.month, d.day + 1)
    else if d.month < 12 then Date(d.year, d.month + 1, 1)
    else Date(d.year + 1, 1, 1)
  }

  lemma DaysBeforeYearStep(y: int)
    requires y >= 1
    ensures DaysBeforeYear(y + 1) == DaysBeforeYear(y) + DaysInYear(y)
  {
    var p := y - 1;
    assert y / 4 - p / 4 == (if y % 4 == 0 then 1 else 0);
    assert y / 100 - p / 100 == (if y % 100 == 0 then 1 else 0);
    assert y / 400 - p / 400 == (if y % 400 == 0 then 1 else 0);
  }

  lemma MonthsFillYear(y: int, m: int)
    requires 1 <= m <= 12
    ensures m < 12 ==> DaysBeforeMonth(y, m + 1) == DaysBeforeMonth(y, m) + DaysInMonth(y, m)
    ensures DaysBeforeMonth(y, m) + DaysInMonth(y, m) <= DaysInYear(y)
    ensures m == 12 ==> DaysBeforeMonth(y, m) + DaysInMonth(y, m) == DaysInYear(y)
  {
  }

  /** The day after a valid date is the next ordinal. */
  lemma NextDayOrdinal(d: Date)
    requires ValidDate(d) && d != Date(MaxYear, 12, 31)
    ensures ValidDate(NextDay(d)) && Ordinal(NextDay(d)) == Ordinal(d) + 1
  {
    MonthsFillYear(d.year, d.month);
    if d.day == DaysInMonth(d.year, d.month) && d.month == 12 {
      DaysBeforeYearStep(d.year);
    }
  }

  /** `d + timedelta(days=n)`; `None` where Python raises OverflowError (past 9999-12-31). */
  function AddDays(d: Date, n: nat): (r: Option<Date>)
    requires ValidDate(d)
    ensures r.Some? ==> ValidDate(r.value)
    decreases n
  {
    if n == 0 then Some(d)
    else if d == Date(MaxYear, 12, 31) then None
    else AddDays(NextDay(d), n - 1)
  }

  /** Adding `n` days moves the ordinal by exactly `n`, and fails only past the last representable date. */
  lemma {:induction false} AddDaysOrdinal(d: Date, n: nat)
    requires ValidDate(d)
    ensures AddDays(d, n).Some? ==> Ordinal(AddDays(d, n).value) == Ordinal(d) + n
    ensures AddDays(d, n).None? <==> Ordinal(d) + n > Ordinal(Date(MaxYear, 12, 31))
    decreases n
  {
    if n > 0 && d != Date(MaxYear, 12, 31) {
      NextDayOrdinal(d);
      AddDaysOrdinal(NextDay(d), n - 1);
    } else if n > 0 {
    } else {
      LastDateIsLast(d);
    }
  }

  lemma LastDateIsLast(d: Date)
    requires ValidDate(d)
    ensures Ordinal(d) <= Ordinal(Date(MaxYear, 12, 31))
    ensures Ordinal(d) == Ordinal(Date(MaxYear, 12, 31)) ==> d == Date(MaxYear, 12, 31)
  {
    var last := Date(MaxYear, 12, 31);
    if d != last {
      assert DateBefore(d, last);
      OrdinalOrder(d, last);
    }
  }

  /** A date before the last representable year can move up to 365 days forward without overflow. */
  lemma AddDaysNoOverflow(d: Date, n: nat)
    requires ValidDate(d) && d.year < MaxYear && n <= 365
    ensures AddDays(d, n).Some?
  {
    AddDaysOrdinal(d, n);
    MonthsFillYear(d.year, d.month);
    DaysBeforeYearGrows(d.year, MaxYear);
    assert Ordinal(Date(MaxYear, 12, 31)) == DaysBeforeYear(MaxYear) + 365;
  }

  /** Python's comparison of `date` objects: by (year, month, day). */
  predicate DateBefore(a: Date, b: Date) {
    a.year < b.year || (a.year == b.year && (a.month < b.month || (a.month == b.month && a.day < b.day)))
  }

  predicate DateAtMost(a: Date, b: Date) {
    a == b || DateBefore(a, b)
  }

  lemma {:induction false} DaysBeforeYearGrows(y1: int, y2: int)
    requires 1 <= y1 < y2
    ensures DaysBeforeYear(y1) + DaysInYear(y1) <= DaysBeforeYear(y2)
    decreases y2 - y1
  {
    DaysBeforeYearStep(y1);
    if y1 + 1 < y2 {
      DaysBeforeYearGrows(y1 + 1, y2);
    }
  }

  /** Calendar order and ordinal order agree. */
  lemma OrdinalOrder(a: Date, b: Date)
    requires ValidDate(a) && ValidDate(b)
    ensures DateBefore(a, b) <==> Ordinal(a) < Ordinal(b)
    ensures a == b <==> Ordinal(a) == Ordinal(b)
  {
    MonthsFillYear(a.year, a.month);
    MonthsFillYear(b.year, b.month);
    if a.year < b.year {
      DaysBeforeYearGrows(a.year, b.year);
    } else if b.year < a.year {
      DaysBeforeYearGrows(b.year, a.year);
    } else if a.month < b.month {
      MonthsOrdered(a.year, a.month, b.month);
    } else if b.month < a.month {
      MonthsOrdered(a.year, b.month, a.month);
    }
  }

  lemma MonthsOrdered(y: int, m1: int, m2: int)
    requires 1 <= m1 < m2 <= 12
    ensures DaysBeforeMonth(y, m1) + DaysInMonth(y, m1) <= DaysBeforeMonth(y, m2)
  {
  }

  /** Python's comparison of naive `datetime` objects. */
  predicate DateTimeBefore(a: DateTime, b: DateTime) {
    || DateBefore(a.date, b.date)
    || (a.date == b.date && TimeBefore(a, b))
  }

  predicate TimeBefore(a: DateTime, b: DateTime) {
    || a.hour < b.hour
    || (a.hour == b.hour && (a.minute < b.minute || (a.minute == b.minute && (a.second < b.second || (a.second == b.second && a.micro < b.micro)))))
  }

  /** Minutes since 0001-01-01 00:00 (plus one day), the quantity `timedelta(minutes=...)` moves. */
  function MinuteStamp(t: DateTime): int
    requires ValidDate(t.date)
  {
    Ordinal(t.date) * 1440 + t.hour * 60 + t.minute
  }

  /** `t + timedelta(minutes=n)`; `None` where Python raises OverflowError. */
  function AddMinutes(t: DateTime, n: nat): (r: Option<DateTime>)
    requires ValidDateTime(t)
    ensures r.Some? ==> ValidDateTime(r.value) && r.value.second == t.second && r.value.micro == t.micro
  {
    var total := t.hour * 60 + t.minute + n;
    var d := AddDays(t.date, total / 1440);
    if d.None? then None
    else Some(DateTime(d.value, total % 1440 / 60, total % 1440 % 60, t.second, t.micro))
  }

  /** Adding minutes moves the minute stamp by exactly that amount. */
  lemma AddMinutesStamp(t: DateTime, n: nat)
    requires ValidDateTime(t)
    ensures AddMinutes(t, n).Some? ==> MinuteStamp(AddMinutes(t, n).value) == MinuteStamp(t) + n
  {
    var total := t.hour * 60 + t.minute + n;
    AddDaysOrdinal(t.date, total / 1440);
  }

  /** One hour later: the same day and hour + 1, or hour 0 of the next day from 23:xx on. */
  lemma AddHourRollover(t: DateTime)
    requires ValidDateTime(t)
    ensures t.hour < 23 ==> AddMinutes(t, 60) == Some(t.(hour := t.hour + 1))
    ensures t.hour == 23 && t.date != Date(MaxYear, 12, 31) ==>
              AddMinutes(t, 60) == Some(t.(date := NextDay(t.date), hour := 0))
    ensures t.hour == 23 && t.date == Date(MaxYear, 12, 31) ==> AddMinutes(t, 60).None?
  {
    if t.hour == 23 && t.date != Date(MaxYear, 12, 31) {
      assert AddDays(NextDay(t.date), 0) == Some(NextDay(t.date));
    }
  }

  /** `strftime("%Y-%m-%d")`. */
  function FormatDate(d: Date): (r: string)
    requires ValidDate(d)
    ensures |r| == 10 && r[4] == '-' && r[7] == '-'
  {
    Pad4(d.year) + "-" + Pad2(d.month) + "-" + Pad2(d.day)
  }

  /** `strftime("%H:%M")`. */
  function FormatHM(h: int, m: int): (r: string)
    requires ValidClockTime(h, m)
    ensures |r| == 5 && r[2] == ':'
  {
    Pad2(h) + ":" + Pad2(m)
  }

  function FormatHMS(h: int, m: int, s: int): (r: string)
    requires ValidClockTime(h, m) && 0 <= s < 60
    ensures |r| == 8
  {
    FormatHM(h, m) + ":" + Pad2(s)
  }

  /** `strftime("%Y-%m-%dT%H:%M:%S")`. */
  function FormatSeconds(t: DateTime): (r: string)
    requires ValidDateTime(t)
    ensures |r| == 19 && r[10] == 'T'
  {
    FormatDate(t.date) + "T" + FormatHMS(t.hour, t.minute, t.second)
  }

  /** On the minute, "%Y-%m-%dT%H:%M:%S" is the date, a `T`, "%H:%M" and ":00". */
  lemma FormatSecondsOnMinute(d: Date, h: int, m: int)
    requires ValidDate(d) && ValidClockTime(h, m)
    ensures FormatSeconds(DateTime(d, h, m, 0, 0)) == FormatDate(d) + "T" + FormatHM(h, m) + ":00"
  {
    assert Pad2(0) == "00";
  }

  /** `datetime.isoformat()`: the microseconds appear only when they are not zero. */
  function IsoFormat(t: DateTime): (r: string)
    requires ValidDateTime(t)
    ensures t.micro == 0 ==> r == FormatSeconds(t)
    ensures t.micro != 0 ==> |r| == 26 && r[..19] == FormatSeconds(t) && r[19] == '.'
  {
    FormatSeconds(t) + (if t.micro == 0 then "" else "." + Pad6(t.micro))
  }

  /** `strftime("%Y%m%d%H%M%S")`, the stamp in generated ids and confirmation codes. */
  function CompactStamp(t: DateTime): (r: string)
    requires ValidDateTime(t)
    ensures |r| == 14 && AllDigits(r)
  {
    Pad4(t.date.year) + Pad2(t.date.month) + Pad2(t.date.day) + Pad2(t.hour) + Pad2(t.minute) + Pad2(t.second)
  }

  function WeekdayName(w: int): string
    requires 0 <= w < 7
  {
    ["Monday", "Tuesday", "Wednesday", "Thursday", "Friday", "Saturday", "Sunday"][w]
  }

  function MonthName(m: int): string
    requires 1 <= m <= 12
  {
    ["January", "February", "March", "April", "May", "June", "July", "August", "September",
     "October", "November", "December"][m - 1]
  }

  /** `strftime("%A, %B %d, %Y")`. */
  function LongDate(d: Date): string
    requires ValidDate(d)
  {
    WeekdayName(Weekday(d)) + ", " + MonthName(d.month) + " " + Pad2(d.day) + ", " + Pad4(d.year)
  }
}
