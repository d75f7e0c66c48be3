/**
 * The relative date filters shared by the schedule listing and the calendar query:
 * 'today', 'tomorrow', 'week' (today up to seven days ahead) and 'month' (the current calendar month).
 */
module DateFilter {
  import opened Wrappers
  import opened Chrono

  predicate IsFilter(f: Option<string>, name: string) {
    f == Some(name)
  }

  /** One of the four filters both stores recognise. */
  predicate Recognised(f: Option<string>) {
    IsFilter(f, "today") || IsFilter(f, "tomorrow") || IsFilter(f, "week") || IsFilter(f, "month")
  }

  function Tomorrow(now: DateTime): (d: Date)
    requires ValidClock(now)
    ensures ValidDate(d)
  {
    AddDaysNoOverflow(now.date, 1);
    AddDays(now.date, 1).value
  }

  function WeekEnd(now: DateTime): (d: Date)
    requires ValidClock(now)
    ensures ValidDate(d)
  {
    AddDaysNoOverflow(now.date, 7);
    AddDays(now.date, 7).value
  }

  /** Whether a day passes a recognised filter, relative to `now`. */
  predicate DayInWindow(d: Date, f: Option<string>, now: DateTime)
    requires ValidClock(now)
  {
    if IsFilter(f, "today") then d == now.date
    else if IsFilter(f, "tomorrow") then d == Tomorrow(now)
    else if IsFilter(f, "week") then DateAtMost(now.date, d) && DateAtMost(d, WeekEnd(now))
    else d.month == now.date.month && d.year == now.date.year
  }

  /** The 'week' window is today and the seven days after it. */
  lemma WeekDay(d: Date, now: DateTime)
    requires ValidClock(now) && ValidDate(d)
    ensures DayInWindow(d, Some("week"), now) <==> Ordinal(now.date) <= Ordinal(d) <= Ordinal(now.date) + 7
  {
    var w := WeekEnd(now);
    WeekEndOrdinal(now);
    OrdinalOrder(now.date, d);
    OrdinalOrder(d, w);
  }

  lemma WeekEndOrdinal(now: DateTime)
    requires ValidClock(now)
    ensures Ordinal(WeekEnd(now)) == Ordinal(now.date) + 7
  {
    AddDaysOrdinal(now.date, 7);
  }
}
