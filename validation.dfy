/**
 * The input validators: calendar-date and clock-time checks through `strptime`, relative dates,
 * spoken time expressions, the booking and cancellation field checks, description sanitising and
 * the check and clean-up of a language-model reply. "Now" is a parameter throughout.
 */
module Validation {
  import opened Wrappers
  import opened Text
  import opened Chrono
  import opened Strptime

  // ----- DateValidator -----

  /** `validate_date_format`: `strptime(s, "%Y-%m-%d")` succeeds. */
  predicate ValidateDateFormat(s: string) {
    ParseDate(s).Some?
  }

  /** `is_future_date`: a parsable date that is today or later. */
  predicate IsFutureDate(s: string, today: Date) {
    ParseDate(s).Some? && DateAtMost(today, ParseDate(s).value)
  }

  /** A "YYYY-MM-DD" string of in-pattern fields is accepted exactly when it names a real Gregorian date. */
  lemma DateFormatIff(y: nat, mo: nat, dd: nat)
    requires y < 10000 && 1 <= mo <= 12 && 1 <= dd <= 31
    ensures ValidateDateFormat(Pad4(y) + "-" + Pad2(mo) + "-" + Pad2(dd)) <==> ValidDate(Date(y, mo, dd))
  {
    ParseDateFields(y, mo, dd);
  }

  /** February 29 is accepted in a leap year and refused in the year before. */
  lemma LeapDay()
    ensures ValidateDateFormat(Pad4(2024) + "-" + Pad2(2) + "-" + Pad2(29))
    ensures !ValidateDateFormat(Pad4(2023) + "-" + Pad2(2) + "-" + Pad2(29))
  {
    DateFormatIff(2024, 2, 29);
    DateFormatIff(2023, 2, 29);
  }

  /** A rendered date is today or later exactly when it does not lie before today. */
  lemma FutureDateIff(d: Date, today: Date)
    requires ValidDate(d) && ValidDate(today)
    ensures IsFutureDate(FormatDate(d), today) <==> Ordinal(today) <= Ordinal(d)
  {
    ParseFormatDate(d);
    OrdinalOrder(today, d);
  }

  /** The day-name table of `parse_relative_date`, in its iteration order. */
  const WeekdayNames: seq<string> := ["monday", "tuesday", "wednesday", "thursday", "friday", "saturday", "sunday"]

  /** The first table entry from `k` on whose "next <name>" occurs in the text. */
  function FirstNamed(t: string, k: nat): (r: Option<nat>)
    requires k <= 7
    ensures r.Some? ==> k <= r.value < 7 && Contains(t, "next " + WeekdayNames[r.value])
    ensures r.Some? ==> forall j :: k <= j < r.value ==> !Contains(t, "next " + WeekdayNames[j])
    ensures r.None? ==> forall j :: k <= j < 7 ==> !Contains(t, "next " + WeekdayNames[j])
    decreases 7 - k
  {
    if k == 7 then None
    else if Contains(t, "next " + WeekdayNames[k]) then Some(k)
    else FirstNamed(t, k + 1)
  }

  /** `day_num - now.weekday()`, moved into the next week when it is not ahead. */
  function DaysAhead(target: int, today: int): (n: nat)
    requires 0 <= target < 7 && 0 <= today < 7
    ensures 1 <= n <= 7 && (today + n) % 7 == target
  {
    var a := target - today;
    if a <= 0 then a + 7 else a
  }

  /** `now + timedelta(days=n)` as a date. */
  function Shift(now: DateTime, n: nat): (d: Date)
    requires ValidClock(now) && n <= 30
    ensures ValidDate(d) && Ordinal(d) == Ordinal(now.date) + n
  {
    AddDaysNoOverflow(now.date, n);
    AddDaysOrdinal(now.date, n);
    AddDays(now.date, n).value
  }

  /** `parse_relative_date` on the lower-cased, stripped text. */
  function RelativeDateOf(t: string, now: DateTime): Option<string>
    requires ValidClock(now)
  {
    if t == "today" then Some(FormatDate(now.date))
    else if t == "tomorrow" then Some(FormatDate(Shift(now, 1)))
    else if t == "next week" then Some(FormatDate(Shift(now, 7)))
    else if t == "next month" then Some(FormatDate(Shift(now, 30)))
    else
      match FirstNamed(t, 0)
      case Some(k) => Some(FormatDate(Shift(now, DaysAhead(k, Weekday(now.date)))))
      case None => None
  }

  function RelativeDate(rel: string, now: DateTime): Option<string>
    requires ValidClock(now)
  {
    RelativeDateOf(Strip(Lower(rel)), now)
  }

  /** `parse_relative_date`, with the loop over the day-name table. */
  method ParseRelativeDate(rel: string, now: DateTime) returns (r: Option<string>)
    requires ValidClock(now)
    ensures r == RelativeDate(rel, now)
  {
    var t := Strip(Lower(rel));
    if t == "today" {
      return Some(FormatDate(now.date));
    } else if t == "tomorrow" {
      return Some(FormatDate(Shift(now, 1)));
    } else if t == "next week" {
      return Some(FormatDate(Shift(now, 7)));
    } else if t == "next month" {
      return Some(FormatDate(Shift(now, 30)));
    }
    var k := 0;
    while k < 7
      invariant 0 <= k <= 7 && FirstNamed(t, 0) == FirstNamed(t, k)
    {
      if Contains(t, "next " + WeekdayNames[k]) {
        return Some(FormatDate(Shift(now, DaysAhead(k, Weekday(now.date)))));
      }
      k := k + 1;
    }
    return None;
  }

  /** The fixed words move the date by 0, 1, 7 and 30 days. */
  lemma FixedOffsets(now: DateTime, t: string, n: nat)
    requires ValidClock(now)
    requires (t, n) in {("today", 0), ("tomorrow", 1), ("next week", 7), ("next month", 30)}
    ensures exists d :: ValidDate(d) && Ordinal(d) == Ordinal(now.date) + n && RelativeDateOf(t, now) == Some(FormatDate(d))
  {
    if n == 0 {
      assert ValidDate(now.date) && RelativeDateOf(t, now) == Some(FormatDate(now.date));
    } else {
      assert RelativeDateOf(t, now) == Some(FormatDate(Shift(now, n)));
    }
  }

  /**
   * "next <day>" gives the first date after today falling on that day, one to seven days ahead and
   * never today; the first day name of the table that occurs wins.
   */
  lemma NextWeekday(t: string, now: DateTime, k: nat)
    requires ValidClock(now)
    requires t !in {"today", "tomorrow", "next week", "next month"}
    requires k < 7 && Contains(t, "next " + WeekdayNames[k])
    requires forall j :: 0 <= j < k ==> !Contains(t, "next " + WeekdayNames[j])
    ensures exists d :: (ValidDate(d) && RelativeDateOf(t, now) == Some(FormatDate(d))
      && Weekday(d) == k && Ordinal(now.date) < Ordinal(d) <= Ordinal(now.date) + 7)
  {
    FirstNamedIs(t, 0, k);
    var n := DaysAhead(k, Weekday(now.date));
    var d := Shift(now, n);
    WeekdayAdvance(now.date, d, n);
    assert RelativeDateOf(t, now) == Some(FormatDate(d));
  }

  lemma {:induction false} FirstNamedIs(t: string, j: nat, k: nat)
    requires j <= k < 7 && Contains(t, "next " + WeekdayNames[k])
    requires forall i :: j <= i < k ==> !Contains(t, "next " + WeekdayNames[i])
    ensures FirstNamed(t, j) == Some(k)
    decreases k - j
  {
    if j < k {
      FirstNamedIs(t, j + 1, k);
    }
  }

  /** Moving `n` days forward moves the weekday by `n`, modulo 7. */
  lemma WeekdayAdvance(a: Date, b: Date, n: nat)
    requires ValidDate(a) && ValidDate(b) && Ordinal(b) == Ordinal(a) + n
    ensures Weekday(b) == (Weekday(a) + n) % 7
  {
    ModShift(Ordinal(a) + 6, n);
  }

  lemma {:induction false} ModShift(o: int, n: nat)
    requires o >= 0
    ensures (o % 7 + n) % 7 == (o + n) % 7
  {
    if n > 0 {
      ModShift(o, n - 1);
    }
  }

  /** Without one of the fixed words or a "next <day>", there is no date. */
  lemma NoRelativeDate(t: string, now: DateTime)
    requires ValidClock(now)
    requires t !in {"today", "tomorrow", "next week", "next month"}
    requires forall j :: 0 <= j < 7 ==> !Contains(t, "next " + WeekdayNames[j])
    ensures RelativeDateOf(t, now) == None
  {
  }

  // ----- TimeValidator -----

  /** `validate_time_format`: `strptime(s, "%H:%M")` succeeds. */
  predicate ValidateTimeFormat(s: string) {
    ParseTime(s).Some?
  }

  lemma TimeFormatExamples()
    ensures ValidateTimeFormat("14:30")
    ensures !ValidateTimeFormat("25:00")
  {
    ParseFormatHM(14, 30);
    assert FormatHM(14, 30) == "14:30";
    HourOutOfRangeRejected();
  }

  /** `(am|pm)` after `\s*` at position `j`: whether it is "pm". */
  function PeriodAt(t: string, j: nat): Option<bool>
    requires j <= |t|
  {
    var k := j + SpaceRun(t, j);
    if k + 2 <= |t| && t[k..k + 2] == "am" then Some(false)
    else if k + 2 <= |t| && t[k..k + 2] == "pm" then Some(true)
    else None
  }

  /** `(\d{1,2})\s*(am|pm)` tried at position `i`: two digits first, then one. */
  function HourPeriodAt(t: string, i: nat): Option<(nat, bool)>
    requires i <= |t|
  {
    if i < |t| && IsDigit(t[i]) then
      var two := if i + 1 < |t| && IsDigit(t[i + 1]) then PeriodAt(t, i + 2) else None;
      if two.Some? then Some((10 * DigitValue(t[i]) + DigitValue(t[i + 1]), two.value))
      else
        var one := PeriodAt(t, i + 1);
        if one.Some? then Some((DigitValue(t[i]), one.value)) else None
    else None
  }

  /** `re.search`: the leftmost position from `i` on where the pattern matches. */
  function HourPeriodSearch(t: string, i: nat): Option<(nat, bool)>
    requires i <= |t|
    decreases |t| - i
  {
    if i == |t| then None
    else
      var m := HourPeriodAt(t, i);
      if m.Some? then m else HourPeriodSearch(t, i + 1)
  }

  /** The 12-hour rule: "pm" adds 12 except to 12, and "12 am" is midnight. */
  function To24Hour(h: nat, pm: bool): (r: nat)
    ensures 1 <= h <= 12 && pm ==> 12 <= r <= 23 && r % 12 == h % 12
    ensures 1 <= h <= 12 && !pm ==> 0 <= r <= 11 && r % 12 == h % 12
  {
    if pm && h != 12 then h + 12 else if !pm && h == 12 then 0 else h
  }

  /** `^\d{1,2}:\d{2}$`. */
  predicate ClockShaped(t: string) {
    || (|t| == 4 && IsDigit(t[0]) && t[1] == ':' && IsDigit(t[2]) && IsDigit(t[3]))
    || (|t| == 5 && IsDigit(t[0]) && IsDigit(t[1]) && t[2] == ':' && IsDigit(t[3]) && IsDigit(t[4]))
  }

  /** `parse_time_expression` on the lower-cased, stripped text. */
  function TimeExpressionOf(t: string): Option<string> {
    var m := HourPeriodSearch(t, 0);
    if m.Some? then Some(Pad2AtLeast(To24Hour(m.value.0, m.value.1)) + ":00")
    else if Contains(t, "morning") then Some("09:00")
    else if Contains(t, "afternoon") then Some("14:00")
    else if Contains(t, "evening") then Some("18:00")
    else if Contains(t, "night") then Some("20:00")
    else if ClockShaped(t) then Some(t)
    else None
  }

  function ParseTimeExpression(s: string): Option<string> {
    TimeExpressionOf(Strip(Lower(s)))
  }

  /** "<h> am" or "<h> pm" at the start decides the time, whatever follows (a "night" included). */
  lemma HourPeriodFirst(h: nat, period: string, rest: string)
    requires h < 100 && (period == "am" || period == "pm")
    ensures TimeExpressionOf(NatToString(h) + " " + period + rest) == Some(Pad2AtLeast(To24Hour(h, period == "pm")) + ":00")
  {
    if h < 10 {
      OneDigitHourPeriod(h, period, rest);
    } else {
      TwoDigitHourPeriod(h, period, rest);
    }
  }

  lemma OneDigitHourPeriod(h: nat, period: string, rest: string)
    requires h < 10 && (period == "am" || period == "pm")
    ensures HourPeriodAt(NatToString(h) + " " + period + rest, 0) == Some((h, period == "pm"))
  {
    var t := NatToString(h) + " " + period + rest;
    assert NatToString(h) == [DigitChar(h)];
    assert t[1] == ' ' && !IsSpace(t[2]);
    assert SpaceRun(t, 2) == 0;
    assert t[2..4] == period;
    assert PeriodAt(t, 1) == Some(period == "pm");
  }

  lemma TwoDigitHourPeriod(h: nat, period: string, rest: string)
    requires 10 <= h < 100 && (period == "am" || period == "pm")
    ensures HourPeriodAt(NatToString(h) + " " + period + rest, 0) == Some((h, period == "pm"))
  {
    var t := NatToString(h) + " " + period + rest;
    assert NatToString(h) == NatToString(h / 10) + [DigitChar(h % 10)];
    assert NatToString(h / 10) == [DigitChar(h / 10)];
    assert t[2] == ' ' && !IsSpace(t[3]);
    assert SpaceRun(t, 3) == 0;
    assert t[3..5] == period;
    assert PeriodAt(t, 2) == Some(period == "pm");
  }

  /** With the hour in 1..12, the result is the 24-hour clock reading. */
  lemma TwelveHourClock(h: nat, period: string)
    requires 1 <= h <= 12 && (period == "am" || period == "pm")
    ensures var r := TimeExpressionOf(NatToString(h) + " " + period);
      r.Some? && ValidateTimeFormat(r.value)
      && r.value == FormatHM(if period == "pm" then (if h == 12 then 12 else h + 12) else (if h == 12 then 0 else h), 0)
  {
    HourPeriodFirst(h, period, "");
    assert NatToString(h) + " " + period + "" == NatToString(h) + " " + period;
    var c := To24Hour(h, period == "pm");
    assert Pad2(0) == "00";
    assert Pad2AtLeast(c) + ":00" == FormatHM(c, 0);
    ParseFormatHM(c, 0);
  }

  /** Past 12 the rule still adds 12: "13 pm" gives "25:00", which is no clock time. */
  lemma ThirteenPm()
    ensures TimeExpressionOf("13 pm") == Some("25:00")
    ensures !ValidateTimeFormat("25:00")
  {
    HourPeriodFirst(13, "pm", "");
    assert NatToString(13) == "13";
    assert NatToString(13) + " " + "pm" + "" == "13 pm";
    assert To24Hour(13, true) == 25;
    assert Pad2(25) == "25";
    assert Pad2AtLeast(25) + ":00" == "25:00";
    HourOutOfRangeRejected();
  }

  lemma {:induction false} NoDigitNoHour(t: string, i: nat)
    requires i <= |t| && forall k :: 0 <= k < |t| ==> !IsDigit(t[k])
    ensures HourPeriodSearch(t, i) == None
    decreases |t| - i
  {
    if i < |t| {
      NoDigitNoHour(t, i + 1);
    }
  }

  lemma {:induction false} NoPeriodLetterNoHour(t: string, i: nat)
    requires i <= |t| && forall k :: 0 <= k < |t| ==> t[k] != 'a' && t[k] != 'p'
    ensures HourPeriodSearch(t, i) == None
    decreases |t| - i
  {
    if i < |t| {
      forall j | i <= j <= |t| ensures PeriodAt(t, j) == None {
        var k := j + SpaceRun(t, j);
        if k + 2 <= |t| {
          assert t[k..k + 2][0] == t[k];
        }
      }
      NoPeriodLetterNoHour(t, i + 1);
    }
  }

  /** Without digits the keywords decide, in the order morning, afternoon, evening, night; otherwise nothing. */
  lemma KeywordOrder(t: string)
    requires forall k :: 0 <= k < |t| ==> !IsDigit(t[k])
    ensures TimeExpressionOf(t) ==
      if Contains(t, "morning") then Some("09:00")
      else if Contains(t, "afternoon") then Some("14:00")
      else if Contains(t, "evening") then Some("18:00")
      else if Contains(t, "night") then Some("20:00")
      else None
  {
    NoDigitNoHour(t, 0);
  }

  /** A clock-shaped reading comes back as it was, and a rendered "HH:MM" does so from the raw input too. */
  lemma ClockPassesThrough(t: string)
    requires ClockShaped(t)
    ensures TimeExpressionOf(t) == Some(t)
  {
    assert forall k :: 0 <= k < |t| ==> IsDigit(t[k]) || t[k] == ':';
    NoPeriodLetterNoHour(t, 0);
    FirstAbsent(t, "morning");
    FirstAbsent(t, "afternoon");
    FirstAbsent(t, "evening");
    FirstAbsent(t, "night");
  }

  lemma RenderedClockPassesThrough(h: int, m: int)
    requires ValidClockTime(h, m)
    ensures ParseTimeExpression(FormatHM(h, m)) == Some(FormatHM(h, m))
  {
    var s := FormatHM(h, m);
    assert s == Pad2(h) + ":" + Pad2(m);
    assert forall k :: 0 <= k < |s| ==> IsDigit(s[k]) || s[k] == ':';
    LowerIdentity(s);
    StripIdentity(s);
    ClockPassesThrough(s);
  }

  // ----- InputValidator -----

  /** A JSON value as the validators see it: `null`, an integer or a string; a missing key is `None`. */
  datatype JsonValue = Null | Number(n: int) | Str(s: string)

  /** Python truthiness of `data.get(key)`. */
  predicate Truthy(v: Option<JsonValue>) {
    match v
    case None => false
    case Some(Null) => false
    case Some(Number(n)) => n != 0
    case Some(Str(s)) => s != ""
  }

  /** The fields of an intent the validators read. */
  datatype IntentData = IntentData(
    intent: Option<JsonValue>, id: Option<JsonValue>,
    date: Option<string>, time: Option<string>, description: Option<string>)

  function DateErrors(date: Option<string>, today: Date): (r: seq<string>)
    ensures |r| <= 1
  {
    if !Present(date) then ["Date is required for booking"]
    else if !ValidateDateFormat(date.value) then ["Invalid date format (use YYYY-MM-DD)"]
    else if !IsFutureDate(date.value, today) then ["Date must be in the future"]
    else []
  }

  function TimeErrors(time: Option<string>): (r: seq<string>)
    ensures |r| <= 1
  {
    if !Present(time) then ["Time is required for booking"]
    else if !ValidateTimeFormat(time.value) then ["Invalid time format (use HH:MM)"]
    else []
  }

  function DescriptionErrors(description: Option<string>): (r: seq<string>)
    ensures |r| <= 1
  {
    if !Present(description) then ["Description is required for booking"]
    else if |Strip(description.value)| < 3 then ["Description must be at least 3 characters"]
    else []
  }

  /** The `errors` list of `validate_appointment_data`, in the order the checks run. */
  function AppointmentErrors(d: IntentData, today: Date): seq<string> {
    (if !Truthy(d.intent) then ["Intent is required"] else [])
    + (if d.intent == Some(Str("book_schedule"))
       then DateErrors(d.date, today) + TimeErrors(d.time) + DescriptionErrors(d.description)
       else [])
  }

  /** `validate_appointment_data`: valid when no check failed, and the failures joined by "; ". */
  function ValidateAppointmentData(d: IntentData, today: Date): (bool, string) {
    var errors := AppointmentErrors(d, today);
    (errors == [], Join(errors, "; "))
  }

  /** What a valid booking intent needs, stated field by field. */
  predicate BookingAcceptable(d: IntentData, today: Date) {
    && Truthy(d.intent)
    && (d.intent == Some(Str("book_schedule")) ==>
          && Present(d.date) && IsFutureDate(d.date.value, today)
          && Present(d.time) && ValidateTimeFormat(d.time.value)
          && Present(d.description) && |Strip(d.description.value)| >= 3)
  }

  /** The data is valid exactly when every rule holds, and the message is empty exactly then. */
  lemma AppointmentValidIff(d: IntentData, today: Date)
    ensures ValidateAppointmentData(d, today).0 <==> BookingAcceptable(d, today)
    ensures ValidateAppointmentData(d, today).1 == "" <==> ValidateAppointmentData(d, today).0
  {
    var errors := AppointmentErrors(d, today);
    if errors != [] {
      assert errors[0] != "";
      JoinNonEmpty(errors, "; ");
    }
  }

  /** For any other intent only its presence is checked. */
  lemma OtherIntentsOnlyNeedIntent(d: IntentData, today: Date)
    requires d.intent != Some(Str("book_schedule"))
    ensures ValidateAppointmentData(d, today) == (Truthy(d.intent), if Truthy(d.intent) then "" else "Intent is required")
  {
  }

  /** A description that is blank but for one or two characters is refused with its own message. */
  lemma ShortDescriptionRefused(d: IntentData, today: Date)
    requires d.intent == Some(Str("book_schedule")) && Present(d.description) && |Strip(d.description.value)| < 3
    ensures "Description must be at least 3 characters" in AppointmentErrors(d, today)
    ensures !ValidateAppointmentData(d, today).0
  {
  }

  /** `validate_cancel_data`'s errors. */
  function CancelErrors(d: IntentData): seq<string> {
    (if !Truthy(d.id) && !Present(d.description) then ["Either appointment ID or description is required for cancellation"] else [])
    + (if Truthy(d.id) && !d.id.value.Number? then ["Appointment ID must be a number"] else [])
  }

  function ValidateCancelData(d: IntentData): (bool, string) {
    var errors := CancelErrors(d);
    (errors == [], Join(errors, "; "))
  }

  /**
   * A cancellation is valid exactly when it has a (truthy) number id, or no truthy id and a
   * description; an id 0 counts as no id.
   */
  lemma CancelValidIff(d: IntentData)
    ensures ValidateCancelData(d).0 <==>
      (Truthy(d.id) && d.id.value.Number?) || (!Truthy(d.id) && Present(d.description))
    ensures |CancelErrors(d)| <= 1
  {
  }

  const Harmful: set<char> := {'<', '>', '"', '\''}

  /**
   * The cleaning steps of `sanitize_description` before the length limit: stripped, whitespace runs
   * collapsed, `<>"'` removed. What is left is the text's other non-whitespace characters, in order,
   * with blanks as its only whitespace.
   */
  function Cleaned(s: string): (c: string)
    ensures NonSpace(c) == RemoveChars(NonSpace(s), Harmful)
    ensures forall i :: 0 <= i < |c| ==> c[i] !in Harmful && (IsSpace(c[i]) ==> c[i] == ' ')
    ensures s == "" ==> c == ""
  {
    var t := CollapseSpaces(Strip(s));
    StripNonSpace(s);
    RemoveCharsNonSpace(t, Harmful);
    RemovedBlanks(t, Harmful);
    RemoveChars(t, Harmful)
  }

  /** Removing characters from text whose only whitespace is blanks leaves only blanks as whitespace. */
  lemma RemovedBlanks(t: string, bad: set<char>)
    requires SingleBlanks(t)
    ensures forall i :: 0 <= i < |RemoveChars(t, bad)| ==> (IsSpace(RemoveChars(t, bad)[i]) ==> RemoveChars(t, bad)[i] == ' ')
  {
    RemoveCharsFrom(t, bad);
  }

  /**
   * `sanitize_description`: the cleaned text, cut to its first 197 characters plus "..." when it is
   * longer than 200.
   */
  function SanitizeDescription(s: string): (r: string)
    ensures forall i :: 0 <= i < |r| ==> r[i] !in Harmful
    ensures |r| <= 200
    ensures s == "" ==> r == ""
    ensures |Cleaned(s)| <= 200 ==> r == Cleaned(s) && NonSpace(r) == RemoveChars(NonSpace(s), Harmful)
    ensures |Cleaned(s)| > 200 ==> |r| == 200 && r[..197] == Cleaned(s)[..197] && r[197..] == "..."
  {
    if s == "" then ""
    else
      var c := Cleaned(s);
      if |c| > 200 then c[..197] + "..." else c
  }

  /** Text already in sanitised form passes the three cleaning steps unchanged. */
  lemma CleanFixed(s: string)
    requires s == [] || (!IsSpace(s[0]) && !IsSpace(s[|s| - 1]))
    requires SingleBlanks(s) && forall i :: 0 <= i < |s| ==> s[i] !in Harmful
    ensures Cleaned(s) == s
  {
    StripIdentity(s);
    CollapseIdentity(s);
    RemoveCharsNone(s, Harmful);
  }

  /** Text already in sanitised form is left alone. */
  lemma SanitizeKeepsClean(s: string)
    requires s == [] || (!IsSpace(s[0]) && !IsSpace(s[|s| - 1]))
    requires SingleBlanks(s) && forall i :: 0 <= i < |s| ==> s[i] !in Harmful
    requires |s| <= 200
    ensures SanitizeDescription(s) == s
  {
    CleanFixed(s);
  }

  /** Clean text over 200 characters keeps its first 197 and gains "...". */
  lemma SanitizeTruncates(s: string)
    requires s == [] || (!IsSpace(s[0]) && !IsSpace(s[|s| - 1]))
    requires SingleBlanks(s) && forall i :: 0 <= i < |s| ==> s[i] !in Harmful
    requires |s| > 200
    ensures SanitizeDescription(s) == s[..197] + "..."
  {
    CleanFixed(s);
  }

  /** A mark before a blank is removed only after the blank was kept. */
  lemma MarkThenBlankCleaned(x: string)
    requires x != [] && !IsSpace(x[0]) && !IsSpace(x[|x| - 1])
    requires SingleBlanks(x) && forall i :: 0 <= i < |x| ==> x[i] !in Harmful
    ensures Cleaned("< " + x) == " " + x
  {
    assert "< " + x == ['<', ' '] + x && " " + x == [' '] + x;
    MarkThenBlankStripped(x);
    MarkThenBlankCollapsed(x);
    MarkThenBlankRemoved(x, Harmful);
  }

  lemma MarkThenBlankStripped(x: string)
    requires x != [] && !IsSpace(x[|x| - 1])
    ensures Strip(['<', ' '] + x) == ['<', ' '] + x
  {
    var s := ['<', ' '] + x;
    assert s[0] == '<' && s[|s| - 1] == x[|x| - 1];
    assert !IsSpace('<');
    StripIdentity(s);
  }

  lemma MarkThenBlankCollapsed(x: string)
    requires x != [] && !IsSpace(x[0]) && SingleBlanks(x)
    ensures CollapseSpaces(['<', ' '] + x) == ['<', ' '] + x
  {
    assert !IsSpace('<');
    CollapseIdentity(x);
    CollapseGlyphBlank('<', x);
  }

  lemma MarkThenBlankRemoved(x: string, bad: set<char>)
    requires '<' in bad && ' ' !in bad
    requires forall i :: 0 <= i < |x| ==> x[i] !in bad
    ensures RemoveChars(['<', ' '] + x, bad) == [' '] + x
  {
    var b := [' '] + x;
    assert (['<'] + b)[1..] == b && b[1..] == x;
    assert ['<'] + b == ['<', ' '] + x;
    RemoveCharsNone(x, bad);
  }

  /** A leading blank is stripped before anything else. */
  lemma BlankThenCleanCleaned(x: string)
    requires x != [] && !IsSpace(x[0]) && !IsSpace(x[|x| - 1])
    requires SingleBlanks(x) && forall i :: 0 <= i < |x| ==> x[i] !in Harmful
    ensures Cleaned(" " + x) == x
  {
    var b := " " + x;
    assert b[1..] == x;
    assert TrimLeft(b) == x;
    StripIdentity(x);
    CleanFixed(x);
  }

  /**
   * The characters are removed after the blanks are collapsed, so a removed one can leave a
   * leading blank, which a second pass strips: sanitising is not idempotent.
   */
  lemma SanitizeCanLeaveLeadingBlank(x: string)
    requires x != [] && !IsSpace(x[0]) && !IsSpace(x[|x| - 1])
    requires SingleBlanks(x) && forall i :: 0 <= i < |x| ==> x[i] !in Harmful
    requires |x| < 199
    ensures SanitizeDescription("< " + x) == " " + x
    ensures SanitizeDescription(" " + x) == x
  {
    var s, b := "< " + x, " " + x;
    assert s[0] == '<' && b[0] == ' ';
    MarkThenBlankCleaned(x);
    BlankThenCleanCleaned(x);
    assert |Cleaned(s)| <= 200;
    assert |Cleaned(b)| <= 200;
  }

  // ----- LLMResponseValidator -----

  /** A reply that is a JSON object, or something else. */
  datatype Response = NotAMap | Fields(data: IntentData)

  const ValidIntents: seq<string> := ["book_schedule", "cancel_schedule", "get_schedule", "unknown"]

  /** `str(value)` of a JSON value, as the error message prints it. */
  function Show(v: JsonValue): string {
    match v
    case Null => "None"
    case Number(n) => IntToString(n)
    case Str(s) => s
  }

  /** `validate_llm_response`. */
  function ValidateLlmResponse(r: Response): (bool, string) {
    match r
    case NotAMap => (false, "Response must be a dictionary")
    case Fields(d) =>
      if d.intent.None? then (false, "Missing required field: intent")
      else if d.intent.value.Str? && d.intent.value.s in ValidIntents then (true, "")
      else (false, "Invalid intent: " + Show(d.intent.value))
  }

  /** Accepted exactly when the reply is an object whose intent is one of the four names. */
  lemma LlmResponseValidIff(r: Response)
    ensures ValidateLlmResponse(r).0 <==>
      r.Fields? && r.data.intent.Some? && r.data.intent.value.Str?
      && r.data.intent.value.s in {"book_schedule", "cancel_schedule", "get_schedule", "unknown"}
    ensures ValidateLlmResponse(r).0 <==> ValidateLlmResponse(r).1 == ""
  {
  }

  /** The "fallback" marker the model client returns for a reply that is not JSON is refused. */
  lemma FallbackMarkerRefused(d: IntentData)
    requires d.intent == Some(Str("fallback"))
    ensures ValidateLlmResponse(Fields(d)) == (false, "Invalid intent: fallback")
  {
    assert "fallback" != "book_schedule" by { assert |"fallback"| != |"book_schedule"|; }
    assert "fallback" != "cancel_schedule" by { assert |"fallback"| != |"cancel_schedule"|; }
    assert "fallback" != "get_schedule" by { assert |"fallback"| != |"get_schedule"|; }
    assert "fallback" != "unknown" by { assert |"fallback"| != |"unknown"|; }
    assert "fallback" !in ValidIntents;
    assert Show(Str("fallback")) == "fallback";
    assert "Invalid intent: " + "fallback" == "Invalid intent: fallback";
  }

  /** `process_llm_response`: the description sanitised, relative dates and spoken times resolved. */
  function ProcessLlmResponse(d: IntentData, now: DateTime): IntentData
    requires ValidClock(now)
  {
    var description := if Present(d.description) then Some(SanitizeDescription(d.description.value)) else d.description;
    var date :=
      if !Present(d.date) then d.date
      else
        var rel := RelativeDate(d.date.value, now);
        if rel.Some? && rel.value != "" then rel
        else if !ValidateDateFormat(d.date.value) then None
        else d.date;
    d.(description := description, date := date, time := ProcessTime(d.time))
  }

  /** The time branch of `process_llm_response`: a spoken time is resolved, anything else unreadable is dropped. */
  function ProcessTime(time: Option<string>): Option<string> {
    if !Present(time) then time
    else
      var parsed := ParseTimeExpression(time.value);
      if parsed.Some? && parsed.value != "" then parsed
      else if !ValidateTimeFormat(time.value) then None
      else time
  }

  /**
   * After processing, a present description is free of `<>"'`, a present date is a real calendar
   * date, and the intent and id are untouched.
   */
  lemma ProcessedFields(d: IntentData, now: DateTime)
    requires ValidClock(now)
    ensures var p := ProcessLlmResponse(d, now);
      && p.intent == d.intent && p.id == d.id
      && (Present(d.description) ==>
            (p.description.Some? && |p.description.value| <= 200
             && forall i :: 0 <= i < |p.description.value| ==> p.description.value[i] !in Harmful))
      && (!Present(d.description) ==> p.description == d.description)
      && (Present(p.date) ==> ValidateDateFormat(p.date.value))
  {
    var p := ProcessLlmResponse(d, now);
    if Present(d.date) {
      var rel := RelativeDate(d.date.value, now);
      if rel.Some? && rel.value != "" {
        RelativeDateValid(Strip(Lower(d.date.value)), now);
      }
    }
  }

  /** Every date `parse_relative_date` produces is accepted by `validate_date_format`. */
  lemma RelativeDateValid(t: string, now: DateTime)
    requires ValidClock(now) && RelativeDateOf(t, now).Some?
    ensures ValidateDateFormat(RelativeDateOf(t, now).value)
  {
    if t == "today" {
      ParseFormatDate(now.date);
    } else if t == "tomorrow" {
      ParseFormatDate(Shift(now, 1));
    } else if t == "next week" {
      ParseFormatDate(Shift(now, 7));
    } else if t == "next month" {
      ParseFormatDate(Shift(now, 30));
    } else {
      var k := FirstNamed(t, 0).value;
      ParseFormatDate(Shift(now, DaysAhead(k, Weekday(now.date))));
    }
  }

  /** A processed time need not be a clock time: "13 pm" becomes "25:00". */
  lemma ProcessedTimeCanBeInvalid(d: IntentData, now: DateTime)
    requires ValidClock(now) && d.time == Some("13 pm")
    ensures ProcessLlmResponse(d, now).time == Some("25:00")
    ensures !ValidateTimeFormat("25:00")
  {
    var s := "13 pm";
    assert forall k :: 0 <= k < |s| ==> !('A' <= s[k] <= 'Z');
    LowerIdentity(s);
    StripIdentity(s);
    ThirteenPm();
    assert ProcessTime(d.time) == Some("25:00");
  }
}
