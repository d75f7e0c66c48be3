/**
 * `datetime.strptime` for the formats the stores use ("%Y-%m-%d", "%H:%M", "%Y-%m-%d %H:%M").
 * Python compiles a format to a regular expression, one alternation per directive:
 *   %Y  \d\d\d\d          %m  1[0-2]|0[1-9]|[1-9]
 *   %d  3[01]|[12]\d|0[1-9]|[1-9]| [1-9]
 *   %H  2[0-3]|[0-1]\d|\d   %M  [0-5]\d|\d
 * and a blank in the format becomes \s+. It takes the first match in backtracking order
 * (anchored at the start only), raises "unconverted data remains" when that match stops short
 * of the end, and finally raises when the fields do not form a real date.
 */
module Strptime {
  import opened Wrappers
  import opened Text
  import opened Chrono

  datatype Token = Year | Month | Day | Hour | Minute | Lit(c: char) | Spaces

  /** Each alternative found at a position: the captured value and where the match continues. */
  type Alt = (int, nat)

  predicate Ends(alts: seq<Alt>, s: string) {
    forall k :: 0 <= k < |alts| ==> alts[k].1 <= |s|
  }

  /** A two-character alternative `[lo1-hi1][lo2-hi2]` over digits. */
  function Two(s: string, i: nat, lo1: char, hi1: char, lo2: char, hi2: char): (r: seq<Alt>)
    requires '0' <= lo1 && hi1 <= '9' && '0' <= lo2 && hi2 <= '9'
    ensures Ends(r, s) && |r| <= 1
  {
    if i + 2 <= |s| && lo1 <= s[i] <= hi1 && lo2 <= s[i + 1] <= hi2
    then [(10 * DigitValue(s[i]) + DigitValue(s[i + 1]), i + 2)]
    else []
  }

  /** A one-character alternative `[lo-hi]` over digits. */
  function One(s: string, i: nat, lo: char, hi: char): (r: seq<Alt>)
    requires '0' <= lo && hi <= '9'
    ensures Ends(r, s) && |r| <= 1
  {
    if i + 1 <= |s| && lo <= s[i] <= hi then [(DigitValue(s[i]), i + 1)] else []
  }

  /** The alternative ` [1-9]` of %d: a blank, then a digit. */
  function BlankDigit(s: string, i: nat): (r: seq<Alt>)
    ensures Ends(r, s) && |r| <= 1
  {
    if i + 2 <= |s| && s[i] == ' ' && '1' <= s[i + 1] <= '9' then [(DigitValue(s[i + 1]), i + 2)] else []
  }

  /** How many whitespace characters start at position `i`. */
  function SpaceRun(s: string, i: nat): (n: nat)
    requires i <= |s|
    ensures i + n <= |s|
    ensures forall k :: i <= k < i + n ==> IsSpace(s[k])
    ensures i + n == |s| || !IsSpace(s[i + n])
    decreases |s| - i
  {
    if i < |s| && IsSpace(s[i]) then 1 + SpaceRun(s, i + 1) else 0
  }

  /** The ways `\s+` (greedy) can end: longest first. */
  function SpaceEnds(i: nat, n: nat): (r: seq<Alt>)
    ensures |r| == n
    ensures forall k :: 0 <= k < n ==> r[k] == (0, i + n - k)
  {
    if n == 0 then [] else [(0, i + n)] + SpaceEnds(i, n - 1)
  }

  /** The alternatives of one token at position `i`, in the order the regular expression tries them. */
  function Alternatives(t: Token, s: string, i: nat): (r: seq<Alt>)
    requires i <= |s|
    ensures Ends(r, s)
  {
    match t
    case Year =>
      if i + 4 <= |s| && AllDigits(s[i..i + 4]) then [(DigitsValue(s[i..i + 4]), i + 4)] else []
    case Month => Two(s, i, '1', '1', '0', '2') + Two(s, i, '0', '0', '1', '9') + One(s, i, '1', '9')
    case Day =>
      Two(s, i, '3', '3', '0', '1') + Two(s, i, '1', '2', '0', '9') + Two(s, i, '0', '0', '1', '9')
      + One(s, i, '1', '9') + BlankDigit(s, i)
    case Hour => Two(s, i, '2', '2', '0', '3') + Two(s, i, '0', '1', '0', '9') + One(s, i, '0', '9')
    case Minute => Two(s, i, '0', '5', '0', '9') + One(s, i, '0', '9')
    case Lit(c) => if i < |s| && s[i] == c then [(0, i + 1)] else []
    case Spaces => SpaceEnds(i, SpaceRun(s, i))
  }

  /** The first match of the token sequence at position `i`: the captured values (one per token) and its end. */
  function Match(ts: seq<Token>, s: string, i: nat): (r: Option<(seq<int>, nat)>)
    requires i <= |s|
    ensures r.Some? ==> |r.value.0| == |ts| && r.value.1 <= |s|
    decreases |ts|, 0
  {
    if ts == [] then Some(([], i)) else TryEach(Alternatives(ts[0], s, i), ts[1..], s)
  }

  /** Backtracking: the first alternative after which the rest of the tokens match. */
  function TryEach(alts: seq<Alt>, rest: seq<Token>, s: string): (r: Option<(seq<int>, nat)>)
    requires Ends(alts, s)
    ensures r.Some? ==> |r.value.0| == |rest| + 1 && r.value.1 <= |s|
    decreases |rest|, |alts| + 1
  {
    if alts == [] then None
    else
      match Match(rest, s, alts[0].1)
      case Some((vs, e)) => Some(([alts[0].0] + vs, e))
      case None => TryEach(alts[1..], rest, s)
  }

  /** The captured values when the first match covers the whole string; `None` where Python raises ValueError. */
  function FullMatch(ts: seq<Token>, s: string): (r: Option<seq<int>>)
    ensures r.Some? ==> |r.value| == |ts|
  {
    match Match(ts, s, 0)
    case Some((vs, e)) => if e == |s| then Some(vs) else None
    case None => None
  }

  const DateFormat: seq<Token> := [Year, Lit('-'), Month, Lit('-'), Day]
  const TimeFormat: seq<Token> := [Hour, Lit(':'), Minute]
  const DateTimeFormat: seq<Token> := [Year, Lit('-'), Month, Lit('-'), Day, Spaces, Hour, Lit(':'), Minute]

  function MakeDate(y: int, m: int, d: int): (r: Option<Date>)
    ensures r.Some? <==> ValidDate(Date(y, m, d))
    ensures r.Some? ==> r.value == Date(y, m, d)
  {
    if MinYear <= y <= MaxYear && 1 <= m <= 12 && 1 <= d <= DaysInMonth(y, m) then Some(Date(y, m, d)) else None
  }

  /** `datetime.strptime(s, "%Y-%m-%d")`; `None` where it raises ValueError. */
  function ParseDate(s: string): (r: Option<Date>)
    ensures r.Some? ==> ValidDate(r.value)
  {
    var vs :- FullMatch(DateFormat, s);
    MakeDate(vs[0], vs[2], vs[4])
  }

  /** `datetime.strptime(s, "%H:%M")` as (hour, minute); `None` where it raises ValueError. */
  function ParseTime(s: string): (r: Option<(int, int)>)
    ensures r.Some? ==> ValidClockTime(r.value.0, r.value.1)
  {
    var vs :- FullMatch(TimeFormat, s);
    if ValidClockTime(vs[0], vs[2]) then Some((vs[0], vs[2])) else None
  }

  /** `datetime.strptime(s, "%Y-%m-%d %H:%M")`; `None` where it raises ValueError. */
  function ParseDateTime(s: string): (r: Option<DateTime>)
    ensures r.Some? ==> ValidDateTime(r.value) && r.value.second == 0 && r.value.micro == 0
  {
    var vs :- FullMatch(DateTimeFormat, s);
    var d :- MakeDate(vs[0], vs[2], vs[4]);
    if ValidClockTime(vs[6], vs[8]) then Some(DateTime(d, vs[6], vs[8], 0, 0)) else None
  }

  // ----- the canonical renderings parse back -----

  /** When the first alternative of the first token leads to a match of the rest, that is the match. */
  lemma MatchStep(ts: seq<Token>, s: string, i: nat, v: int, j: nat, vs: seq<int>, e: nat)
    requires i <= |s| && ts != []
    requires Alternatives(ts[0], s, i) != [] && Alternatives(ts[0], s, i)[0] == (v, j)
    requires j <= |s| && Match(ts[1..], s, j) == Some((vs, e))
    ensures Match(ts, s, i) == Some(([v] + vs, e))
  {
  }

  /** `n < 100` is written at position `i` as two digits. */
  predicate Pad2At(s: string, i: nat, n: nat)
    requires n < 100
  {
    i + 2 <= |s| && s[i] == DigitChar(n / 10) && s[i + 1] == DigitChar(n % 10)
  }

  lemma YearAlt(s: string, i: nat, y: nat)
    requires y < 10000 && Pad2At(s, i, y / 100) && Pad2At(s, i + 2, y % 100)
    ensures Alternatives(Year, s, i) == [(y, i + 4)]
  {
    DigitsValue4(s[i..i + 4]);
  }

  /** A digit pair written inside `t` is still there once `t` is placed at position `i` of `s`. */
  lemma Pad2AtShift(s: string, i: nat, t: string, j: nat, n: nat)
    requires n < 100 && i + |t| <= |s| && s[i..i + |t|] == t && Pad2At(t, j, n)
    ensures Pad2At(s, i + j, n)
  {
    assert s[i + j] == s[i..i + |t|][j];
    assert s[i + j + 1] == s[i..i + |t|][j + 1];
  }

  lemma FormatDateDigits(d: Date)
    requires ValidDate(d)
    ensures var f := FormatDate(d);
      && Pad2At(f, 0, d.year / 100) && Pad2At(f, 2, d.year % 100) && f[4] == '-'
      && Pad2At(f, 5, d.month) && f[7] == '-' && Pad2At(f, 8, d.day)
  {
    assert FormatDate(d) == Pad2(d.year / 100) + Pad2(d.year % 100) + "-" + Pad2(d.month) + "-" + Pad2(d.day);
  }

  lemma FormatHMDigits(h: int, m: int)
    requires ValidClockTime(h, m)
    ensures var f := FormatHM(h, m); Pad2At(f, 0, h) && f[2] == ':' && Pad2At(f, 3, m)
  {
  }

  lemma MonthAlt(s: string, i: nat, m: nat)
    requires 1 <= m <= 12 && Pad2At(s, i, m)
    ensures Alternatives(Month, s, i) != [] && Alternatives(Month, s, i)[0] == (m, i + 2)
  {
  }

  lemma DayAlt(s: string, i: nat, d: nat)
    requires 1 <= d <= 31 && Pad2At(s, i, d)
    ensures Alternatives(Day, s, i) != [] && Alternatives(Day, s, i)[0] == (d, i + 2)
  {
  }

  lemma HourAlt(s: string, i: nat, h: nat)
    requires h < 24 && Pad2At(s, i, h)
    ensures Alternatives(Hour, s, i) != [] && Alternatives(Hour, s, i)[0] == (h, i + 2)
  {
  }

  lemma MinuteAlt(s: string, i: nat, m: nat)
    requires m < 60 && Pad2At(s, i, m)
    ensures Alternatives(Minute, s, i) != [] && Alternatives(Minute, s, i)[0] == (m, i + 2)
  {
  }

  lemma LitAlt(s: string, i: nat, c: char)
    requires i < |s| && s[i] == c
    ensures Alternatives(Lit(c), s, i) == [(0, i + 1)]
  {
  }

  /** Matching a token in front of others: its first alternative, when the rest match after it. */
  lemma MatchCons(t: Token, rest: seq<Token>, s: string, i: nat, v: int, j: nat, vs: seq<int>, e: nat)
    requires i <= |s| && Alternatives(t, s, i) != [] && Alternatives(t, s, i)[0] == (v, j)
    requires j <= |s| && Match(rest, s, j) == Some((vs, e))
    ensures Match([t] + rest, s, i) == Some(([v] + vs, e))
  {
    MatchStep([t] + rest, s, i, v, j, vs, e);
  }

  /** "-DD" at position 7 matches a dash and the day. */
  lemma DashDayMatch(s: string, dd: nat, tail: seq<Token>, vs: seq<int>, e: nat)
    requires 1 <= dd <= 31 && Pad2At(s, 8, dd) && s[7] == '-'
    requires Match(tail, s, 10) == Some((vs, e))
    ensures Match([Lit('-'), Day] + tail, s, 7) == Some(([0, dd] + vs, e))
  {
    DayAlt(s, 8, dd);
    MatchCons(Day, tail, s, 8, dd, 10, vs, e);
    LitAlt(s, 7, '-');
    MatchCons(Lit('-'), [Day] + tail, s, 7, 0, 8, [dd] + vs, e);
    assert [Lit('-')] + ([Day] + tail) == [Lit('-'), Day] + tail;
    assert [0] + ([dd] + vs) == [0, dd] + vs;
  }

  /** "-MM-DD" at position 4 matches the month and day with their dashes. */
  lemma MonthDayMatch(s: string, mo: nat, dd: nat, tail: seq<Token>, vs: seq<int>, e: nat)
    requires 1 <= mo <= 12 && 1 <= dd <= 31 && Pad2At(s, 5, mo) && Pad2At(s, 8, dd)
    requires s[4] == '-' && s[7] == '-'
    requires Match(tail, s, 10) == Some((vs, e))
    ensures Match([Lit('-'), Month, Lit('-'), Day] + tail, s, 4) == Some(([0, mo, 0, dd] + vs, e))
  {
    DashDayMatch(s, dd, tail, vs, e);
    var rest := [Lit('-'), Day] + tail;
    MonthAlt(s, 5, mo);
    MatchCons(Month, rest, s, 5, mo, 7, [0, dd] + vs, e);
    LitAlt(s, 4, '-');
    MatchCons(Lit('-'), [Month] + rest, s, 4, 0, 5, [mo] + ([0, dd] + vs), e);
    assert [Lit('-')] + ([Month] + rest) == [Lit('-'), Month, Lit('-'), Day] + tail;
    assert [0] + ([mo] + ([0, dd] + vs)) == [0, mo, 0, dd] + vs;
  }

  /** The fields of a "%Y-%m-%d" written with two-digit groups match, leaving the match at position 10. */
  lemma DateDigitsMatch(s: string, y: nat, mo: nat, dd: nat, tail: seq<Token>, vs: seq<int>, e: nat)
    requires y < 10000 && 1 <= mo <= 12 && 1 <= dd <= 31
    requires Pad2At(s, 0, y / 100) && Pad2At(s, 2, y % 100) && Pad2At(s, 5, mo) && Pad2At(s, 8, dd)
    requires s[4] == '-' && s[7] == '-'
    requires Match(tail, s, 10) == Some((vs, e))
    ensures Match(DateFormat + tail, s, 0) == Some(([y, 0, mo, 0, dd] + vs, e))
  {
    MonthDayMatch(s, mo, dd, tail, vs, e);
    YearAlt(s, 0, y);
    MatchCons(Year, [Lit('-'), Month, Lit('-'), Day] + tail, s, 0, y, 4, [0, mo, 0, dd] + vs, e);
    assert [Year] + ([Lit('-'), Month, Lit('-'), Day] + tail) == DateFormat + tail;
    assert [y] + ([0, mo, 0, dd] + vs) == [y, 0, mo, 0, dd] + vs;
  }

  /** The date fields of a "YYYY-MM-DD" prefix match, leaving the match at position 10. */
  lemma DateFieldsMatch(s: string, d: Date, tail: seq<Token>, vs: seq<int>, e: nat)
    requires ValidDate(d) && |s| >= 10 && s[..10] == FormatDate(d)
    requires Match(tail, s, 10) == Some((vs, e))
    ensures Match(DateFormat + tail, s, 0) == Some(([d.year, 0, d.month, 0, d.day] + vs, e))
  {
    var fd := FormatDate(d);
    FormatDateDigits(d);
    assert s[0..10] == fd;
    Pad2AtShift(s, 0, fd, 0, d.year / 100);
    Pad2AtShift(s, 0, fd, 2, d.year % 100);
    Pad2AtShift(s, 0, fd, 5, d.month);
    Pad2AtShift(s, 0, fd, 8, d.day);
    assert s[4] == fd[4] && s[7] == fd[7];
    DateDigitsMatch(s, d.year, d.month, d.day, tail, vs, e);
  }

  /** ":MM" at position `i` matches the colon and the minute. */
  lemma ColonMinuteMatch(s: string, i: nat, m: nat, tail: seq<Token>, vs: seq<int>, e: nat)
    requires m < 60 && Pad2At(s, i + 1, m) && s[i] == ':'
    requires Match(tail, s, i + 3) == Some((vs, e))
    ensures Match([Lit(':'), Minute] + tail, s, i) == Some(([0, m] + vs, e))
  {
    MinuteAlt(s, i + 1, m);
    MatchCons(Minute, tail, s, i + 1, m, i + 3, vs, e);
    LitAlt(s, i, ':');
    MatchCons(Lit(':'), [Minute] + tail, s, i, 0, i + 1, [m] + vs, e);
    assert [Lit(':')] + ([Minute] + tail) == [Lit(':'), Minute] + tail;
    assert [0] + ([m] + vs) == [0, m] + vs;
  }

  /** The fields of a "%H:%M" written with two-digit groups at position `i` match, up to `i + 5`. */
  lemma TimeDigitsMatch(s: string, i: nat, h: nat, m: nat, tail: seq<Token>, vs: seq<int>, e: nat)
    requires h < 24 && m < 60 && i + 5 <= |s| && Pad2At(s, i, h) && s[i + 2] == ':' && Pad2At(s, i + 3, m)
    requires Match(tail, s, i + 5) == Some((vs, e))
    ensures Match(TimeFormat + tail, s, i) == Some(([h, 0, m] + vs, e))
  {
    ColonMinuteMatch(s, i + 2, m, tail, vs, e);
    HourAlt(s, i, h);
    MatchCons(Hour, [Lit(':'), Minute] + tail, s, i, h, i + 2, [0, m] + vs, e);
    assert [Hour] + ([Lit(':'), Minute] + tail) == TimeFormat + tail;
    assert [h] + ([0, m] + vs) == [h, 0, m] + vs;
  }

  /** The time fields of an "HH:MM" at position `i` match, leaving the match at `i + 5`. */
  lemma TimeFieldsMatch(s: string, i: nat, h: int, m: int, tail: seq<Token>, vs: seq<int>, e: nat)
    requires ValidClockTime(h, m) && i + 5 <= |s| && s[i..i + 5] == FormatHM(h, m)
    requires Match(tail, s, i + 5) == Some((vs, e))
    ensures Match(TimeFormat + tail, s, i) == Some(([h, 0, m] + vs, e))
  {
    var ft := FormatHM(h, m);
    FormatHMDigits(h, m);
    Pad2AtShift(s, i, ft, 0, h);
    Pad2AtShift(s, i, ft, 3, m);
    assert s[i + 2] == s[i..i + 5][2];
    TimeDigitsMatch(s, i, h, m, tail, vs, e);
  }

  /** `strptime(d.strftime("%Y-%m-%d"), "%Y-%m-%d")` gives back `d`. */
  lemma ParseFormatDate(d: Date)
    requires ValidDate(d)
    ensures ParseDate(FormatDate(d)) == Some(d)
  {
    var s := FormatDate(d);
    assert s[..10] == s;
    DateFieldsMatch(s, d, [], [], 10);
    assert DateFormat + [] == DateFormat;
  }

  /** `strptime(t.strftime("%H:%M"), "%H:%M")` gives back the hour and minute. */
  lemma ParseFormatHM(h: int, m: int)
    requires ValidClockTime(h, m)
    ensures ParseTime(FormatHM(h, m)) == Some((h, m))
  {
    var s := FormatHM(h, m);
    assert s[0..5] == s;
    TimeFieldsMatch(s, 0, h, m, [], [], 5);
    assert TimeFormat + [] == TimeFormat;
  }

  lemma SpaceAlt(s: string, i: nat)
    requires i + 1 < |s| && IsSpace(s[i]) && !IsSpace(s[i + 1])
    ensures Alternatives(Spaces, s, i) == [(0, i + 1)]
  {
    assert SpaceRun(s, i + 1) == 0;
  }

  /** A blank at position 10 and an "HH:MM" after it match the rest of the date-and-time format. */
  lemma SpaceTimeMatch(s: string, h: int, m: int)
    requires ValidClockTime(h, m) && |s| == 16 && s[10] == ' ' && s[11..16] == FormatHM(h, m)
    ensures Match([Spaces] + TimeFormat, s, 10) == Some(([0, h, 0, m], 16))
  {
    var ft := FormatHM(h, m);
    assert Match([], s, 16) == Some(([], 16));
    TimeFieldsMatch(s, 11, h, m, [], [], 16);
    FormatHMDigits(h, m);
    assert s[11] == ft[0];
    SpaceAlt(s, 10);
    assert TimeFormat + [] == TimeFormat && [h, 0, m] + [] == [h, 0, m];
    MatchCons(Spaces, TimeFormat, s, 10, 0, 11, [h, 0, m], 16);
    assert [0] + [h, 0, m] == [0, h, 0, m];
  }

  lemma DateTimeFieldsMatch(d: Date, h: int, m: int)
    requires ValidDate(d) && ValidClockTime(h, m)
    ensures var s := FormatDate(d) + " " + FormatHM(h, m);
      Match(DateTimeFormat, s, 0) == Some(([d.year, 0, d.month, 0, d.day, 0, h, 0, m], 16))
  {
    var fd, ft := FormatDate(d), FormatHM(h, m);
    var s := fd + " " + ft;
    assert s[11..16] == ft;
    SpaceTimeMatch(s, h, m);
    assert s[..10] == fd;
    DateFieldsMatch(s, d, [Spaces] + TimeFormat, [0, h, 0, m], 16);
    assert DateFormat + ([Spaces] + TimeFormat) == DateTimeFormat;
    assert [d.year, 0, d.month, 0, d.day] + [0, h, 0, m] == [d.year, 0, d.month, 0, d.day, 0, h, 0, m];
  }

  /** `strptime(date + " " + time, "%Y-%m-%d %H:%M")` on canonical renderings recovers the instant. */
  lemma ParseFormatDateTime(d: Date, h: int, m: int)
    requires ValidDate(d) && ValidClockTime(h, m)
    ensures ParseDateTime(FormatDate(d) + " " + FormatHM(h, m)) == Some(DateTime(d, h, m, 0, 0))
  {
    DateTimeFieldsMatch(d, h, m);
  }

  /**
   * A "YYYY-MM-DD" string of in-pattern fields parses exactly when the fields form a real date:
   * year 0000, February 29 outside leap years and April 31 are refused after the pattern matched.
   */
  lemma ParseDateFields(y: nat, mo: nat, dd: nat)
    requires y < 10000 && 1 <= mo <= 12 && 1 <= dd <= 31
    ensures ParseDate(Pad4(y) + "-" + Pad2(mo) + "-" + Pad2(dd)) == MakeDate(y, mo, dd)
  {
    var s := Pad4(y) + "-" + Pad2(mo) + "-" + Pad2(dd);
    assert s == Pad2(y / 100) + Pad2(y % 100) + "-" + Pad2(mo) + "-" + Pad2(dd);
    assert Pad2At(s, 0, y / 100) && Pad2At(s, 2, y % 100) && Pad2At(s, 5, mo) && Pad2At(s, 8, dd);
    assert Match([], s, 10) == Some(([], 10));
    DateDigitsMatch(s, y, mo, dd, [], [], 10);
    assert DateFormat + [] == DateFormat && [y, 0, mo, 0, dd] + [] == [y, 0, mo, 0, dd];
  }

  /** A string that does not start with four digits is not a date. */
  lemma ParseDateNeedsYear(s: string)
    requires |s| < 4 || !AllDigits(s[..4])
    ensures ParseDate(s) == None
  {
    assert |s| >= 4 ==> s[0..4] == s[..4];
    assert Alternatives(Year, s, 0) == [];
  }

  // ----- what the patterns accept beyond the canonical forms -----

  /** One-digit hours are accepted: "9:05" is 09:05. */
  lemma SingleDigitHourAccepted()
    ensures ParseTime("9:05") == Some((9, 5))
  {
    var s := "9:05";
    assert Alternatives(Hour, s, 0) == [(9, 1)];
    assert Alternatives(Lit(':'), s, 1) == [(0, 2)];
    assert Alternatives(Minute, s, 2) == [(5, 4), (0, 3)];
    assert Match([], s, 4) == Some(([], 4));
    MatchStep([Minute], s, 2, 5, 4, [], 4);
    assert [Lit(':'), Minute][1..] == [Minute];
    MatchStep([Lit(':'), Minute], s, 1, 0, 2, [5] + [], 4);
    assert TimeFormat[1..] == [Lit(':'), Minute];
    MatchStep(TimeFormat, s, 0, 9, 1, [0] + ([5] + []), 4);
    assert [9] + ([0] + ([5] + [])) == [9, 0, 5];
  }

  /** "9:00" at the end of `s` matches the time fields as nine o'clock. */
  lemma OneDigitHourMatch(s: string, i: nat)
    requires i + 4 == |s| && s[i..] == "9:00"
    ensures Match(TimeFormat, s, i) == Some(([9, 0, 0], |s|))
  {
    assert s[i] == '9' && s[i + 1] == ':' && s[i + 2] == '0' && s[i + 3] == '0' by {
      assert s[i..][0] == s[i] && s[i..][1] == s[i + 1] && s[i..][2] == s[i + 2] && s[i..][3] == s[i + 3];
    }
    assert Alternatives(Minute, s, i + 2)[0] == (0, i + 4);
    MatchStep([Minute], s, i + 2, 0, i + 4, [], i + 4);
    assert [0] + [] == [0] && [Lit(':'), Minute][1..] == [Minute];
    LitAlt(s, i + 1, ':');
    MatchStep([Lit(':'), Minute], s, i + 1, 0, i + 2, [0], i + 4);
    assert Alternatives(Hour, s, i) == [(9, i + 1)];
    assert TimeFormat[1..] == [Lit(':'), Minute];
    MatchStep(TimeFormat, s, i, 9, i + 1, [0] + [0], i + 4);
    assert [9] + ([0] + [0]) == [9, 0, 0];
  }

  /** The date-and-time format takes a one-digit hour too: "YYYY-MM-DD 9:00" is nine o'clock. */
  lemma ParseOneDigitHour(d: Date)
    requires ValidDate(d)
    ensures ParseDateTime(FormatDate(d) + " 9:00") == Some(DateTime(d, 9, 0, 0, 0))
  {
    var fd := FormatDate(d);
    var s := fd + " 9:00";
    assert s[11..] == "9:00";
    OneDigitHourMatch(s, 11);
    SpaceAlt(s, 10);
    MatchCons(Spaces, TimeFormat, s, 10, 0, 11, [9, 0, 0], 15);
    assert s[..10] == fd;
    DateFieldsMatch(s, d, [Spaces] + TimeFormat, [0] + [9, 0, 0], 15);
    assert DateFormat + ([Spaces] + TimeFormat) == DateTimeFormat;
    assert [d.year, 0, d.month, 0, d.day] + ([0] + [9, 0, 0]) == [d.year, 0, d.month, 0, d.day, 0, 9, 0, 0];
  }

  /** Hour 25 is rejected: the hour pattern takes "2" and the colon does not follow. */
  lemma HourOutOfRangeRejected()
    ensures ParseTime("25:00") == None
  {
    var s := "25:00";
    assert Alternatives(Hour, s, 0) == [(2, 1)];
    assert Alternatives(Lit(':'), s, 1) == [];
    assert Match([Lit(':'), Minute], s, 1) == None;
    assert TimeFormat[1..] == [Lit(':'), Minute];
    assert Match(TimeFormat, s, 0) == None;
  }
}
