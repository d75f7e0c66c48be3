/**
 * `datetime.fromisoformat` for the forms the stores write:
 *   YYYY-MM-DD[?HH[:MM[:SS[.fff|.ffffff]]][(+|-)HH:MM]]
 * where `?` is any single separator character. Python 3.7 to 3.10 also accept UTC offsets with
 * seconds (`+HH:MM:SS`, `+HH:MM:SS.ffffff`); those are refused here. Also the comparison of the
 * values it returns:
 * naive values compare by their fields, aware ones by the instant they denote, and a naive
 * value cannot be compared with an aware one (TypeError).
 */
module IsoParse {
  import opened Wrappers
  import opened Text
  import opened Chrono

  /** A parsed value: the local date and time, and the UTC offset in minutes when one was given. */
  datatype Stamp = Stamp(local: DateTime, offset: Option<int>)

  predicate ValidStamp(st: Stamp) {
    ValidDateTime(st.local) && (st.offset.Some? ==> -1440 < st.offset.value < 1440)
  }

  /** Exactly `n` decimal digits at position `i`. */
  function DigitsAt(s: string, i: nat, n: nat): (r: Option<nat>)
    ensures r.Some? ==> i + n <= |s| && AllDigits(s[i..i + n]) && r.value == DigitsValue(s[i..i + n])
  {
    if i + n <= |s| && AllDigits(s[i..i + n]) then Some(DigitsValue(s[i..i + n])) else None
  }

  /** The clock part `HH[:MM[:SS[.fff|.ffffff]]]` as (hour, minute, second, microsecond). */
  function ParseClock(t: string): (r: Option<(nat, nat, nat, nat)>)
  {
    var h :- DigitsAt(t, 0, 2);
    if |t| == 2 then Some((h, 0, 0, 0))
    else if t[2] == '.' then
      var us :- ParseFraction(t[3..]);
      Some((h, 0, 0, us))
    else if t[2] != ':' then None
    else
      var m :- DigitsAt(t, 3, 2);
      if |t| == 5 then Some((h, m, 0, 0))
      else if t[5] == '.' then
        var us :- ParseFraction(t[6..]);
        Some((h, m, 0, us))
      else if t[5] != ':' then None
      else
        var sec :- DigitsAt(t, 6, 2);
        if |t| == 8 then Some((h, m, sec, 0))
        else if t[8] != '.' then None
        else
          var us :- ParseFraction(t[9..]);
          Some((h, m, sec, us))
  }

  /** Three digits are milliseconds, six are microseconds; any other length is refused. */
  function ParseFraction(f: string): (r: Option<nat>)
    ensures r.Some? ==> r.value < 1000000
  {
    if |f| == 6 then
      var v :- DigitsAt(f, 0, 6);
      assert f[0..6] == f && Pow10(6) == 1000000;
      DigitsBound(f, 6);
      Some(v)
    else if |f| == 3 then
      var v :- DigitsAt(f, 0, 3);
      assert f[0..3] == f && Pow10(3) == 1000;
      DigitsBound(f, 3);
      Some(v * 1000)
    else None
  }

  function Pow10(n: nat): (r: nat)
    ensures r >= 1
  {
    if n == 0 then 1 else 10 * Pow10(n - 1)
  }

  lemma {:induction false} DigitsBound(f: string, n: nat)
    requires |f| == n && AllDigits(f)
    ensures DigitsValue(f) < Pow10(n)
  {
    if n > 0 {
      DigitsBound(f[..n - 1], n - 1);
    }
  }

  /** The first position holding '+' or '-', where the UTC offset begins. */
  function SignPos(t: string): (k: nat)
    ensures k <= |t|
    ensures forall j :: 0 <= j < k ==> t[j] != '+' && t[j] != '-'
    ensures k < |t| ==> t[k] == '+' || t[k] == '-'
  {
    if t == [] || t[0] == '+' || t[0] == '-' then 0 else 1 + SignPos(t[1..])
  }

  /** The text after the date's separator. */
  function ParseTimePart(t: string): (r: Option<(nat, nat, nat, nat, Option<int>)>)
  {
    var k := SignPos(t);
    var (h, m, sec, us) :- ParseClock(t[..k]);
    if k == |t| then Some((h, m, sec, us, None))
    else
      var z := t[k + 1..];
      if |z| != 5 || z[2] != ':' then None
      else
        var zh :- DigitsAt(z, 0, 2);
        var zm :- DigitsAt(z, 3, 2);
        var sign := if t[k] == '-' then -1 else 1;
        Some((h, m, sec, us, Some(sign * (zh * 60 + zm))))
  }

  /** `datetime.fromisoformat(s)`; `None` where it raises ValueError. */
  function ParseIso(s: string): (r: Option<Stamp>)
    ensures r.Some? ==> ValidStamp(r.value)
  {
    if |s| < 10 then None
    else
    var y :- DigitsAt(s, 0, 4);
    if s[4] != '-' then None
    else
      var mo :- DigitsAt(s, 5, 2);
      if s[7] != '-' then None
      else
        var d :- DigitsAt(s, 8, 2);
        var (h, mi, sec, us, off) :-
          if |s| == 10 then Some((0, 0, 0, 0, None)) else ParseTimePart(s[11..]);
        var st := Stamp(DateTime(Date(y, mo, d), h, mi, sec, us), off);
        if ValidStamp(st) then Some(st) else None
  }

  /** Microseconds since 0001-01-01T00:00 of the local fields, shifted to UTC for an aware value. */
  function Instant(st: Stamp): int
    requires ValidStamp(st)
  {
    var t := st.local;
    var minutes := MinuteStamp(t) - st.offset.GetOr(0);
    (minutes * 60 + t.second) * 1000000 + t.micro
  }

  /** Python's `a < b` on two values of `fromisoformat`; `Err` for a naive and an aware value. */
  function Less(a: Stamp, b: Stamp): (r: Result<bool>)
    requires ValidStamp(a) && ValidStamp(b)
    ensures r.Err? <==> a.offset.Some? != b.offset.Some?
  {
    if a.offset.Some? != b.offset.Some? then Err("can't compare offset-naive and offset-aware datetimes")
    else Ok(Instant(a) < Instant(b))
  }

  // ----- partners -----

  /** Digits written by `%02d` read back. */
  lemma DigitsAtPad2(s: string, i: nat, n: nat)
    requires n < 100 && i + 2 <= |s| && s[i..i + 2] == Pad2(n)
    ensures DigitsAt(s, i, 2) == Some(n)
  {
    Pad2Value(n);
  }

  lemma DigitsAtPad4(s: string, i: nat, n: nat)
    requires n < 10000 && i + 4 <= |s| && s[i..i + 4] == Pad4(n)
    ensures DigitsAt(s, i, 4) == Some(n)
  {
    Pad2Value(n / 100);
    Pad2Value(n % 100);
    DigitsValueAppend2(Pad2(n / 100), Pad2(n % 100));
  }

  lemma DigitsAtPad6(s: string, i: nat, n: nat)
    requires n < 1000000 && i + 6 <= |s| && s[i..i + 6] == Pad6(n)
    ensures DigitsAt(s, i, 6) == Some(n)
  {
    var x, y, z := Pad2(n / 10000), Pad2(n / 100 % 100), Pad2(n % 100);
    Pad2Value(n / 10000);
    Pad2Value(n / 100 % 100);
    Pad2Value(n % 100);
    DigitsValueAppend2(x, y);
    DigitsValueAppend2(x + y, z);
    assert 100 * (100 * (n / 10000) + n / 100 % 100) + n % 100 == n;
  }

  /** `fromisoformat(t.isoformat())` gives back `t`, as a naive value. */
  lemma ParseIsoFormat(t: DateTime)
    requires ValidDateTime(t)
    ensures ParseIso(IsoFormat(t)) == Some(Stamp(t, None))
  {
    var s := IsoFormat(t);
    var d := t.date;
    var fd := FormatDate(d);
    var hms := FormatHMS(t.hour, t.minute, t.second);
    assert s[..19] == fd + "T" + hms;
    assert fd == Pad4(d.year) + "-" + Pad2(d.month) + "-" + Pad2(d.day);
    assert hms == Pad2(t.hour) + ":" + Pad2(t.minute) + ":" + Pad2(t.second);
    assert s[0..4] == Pad4(d.year);
    DigitsAtPad4(s, 0, d.year);
    assert s[5..7] == Pad2(d.month);
    DigitsAtPad2(s, 5, d.month);
    assert s[8..10] == Pad2(d.day);
    DigitsAtPad2(s, 8, d.day);
    var rest := s[11..];
    ClockRoundTrip(t, rest);
  }

  /** The clock part written by `isoformat` (no '+' or '-' in it) reads back. */
  lemma ClockRoundTrip(t: DateTime, rest: string)
    requires ValidDateTime(t)
    requires rest == IsoFormat(t)[11..]
    ensures ParseTimePart(rest) == Some((t.hour, t.minute, t.second, t.micro, None))
  {
    var hms := Pad2(t.hour) + ":" + Pad2(t.minute) + ":" + Pad2(t.second);
    if t.micro == 0 {
      assert rest == hms;
    } else {
      assert rest == hms + "." + Pad6(t.micro);
    }
    assert forall j :: 0 <= j < |rest| ==> rest[j] != '+' && rest[j] != '-';
    assert SignPos(rest) == |rest| by { SignPosNone(rest); }
    assert rest[..|rest|] == rest;
    DigitsAtPad2(rest, 0, t.hour);
    DigitsAtPad2(rest, 3, t.minute);
    DigitsAtPad2(rest, 6, t.second);
    if t.micro != 0 {
      var f := rest[9..];
      assert f[0..6] == Pad6(t.micro);
      DigitsAtPad6(f, 0, t.micro);
    }
  }

  lemma {:induction false} SignPosNone(t: string)
    requires forall j :: 0 <= j < |t| ==> t[j] != '+' && t[j] != '-'
    ensures SignPos(t) == |t|
  {
    if t != [] {
      SignPosNone(t[1..]);
    }
  }

  /** The start a calendar event is given, `date + "T" + time + ":00"`, reads back on canonical date and time. */
  lemma ParseEventStart(d: Date, h: int, m: int)
    requires ValidDate(d) && ValidClockTime(h, m)
    ensures ParseIso(FormatDate(d) + "T" + FormatHM(h, m) + ":00") == Some(Stamp(DateTime(d, h, m, 0, 0), None))
  {
    var t := DateTime(d, h, m, 0, 0);
    assert IsoFormat(t) == FormatDate(d) + "T" + FormatHM(h, m) + ":00" by {
      assert Pad2(0) == "00";
    }
    ParseIsoFormat(t);
  }

  /** A one-digit hour, which `strptime("%H:%M")` accepts, is refused here: "…T9:00:00" is not ISO 8601. */
  lemma OneDigitHourRefused(d: Date)
    requires ValidDate(d)
    ensures ParseIso(FormatDate(d) + "T9:00:00") == None
  {
    var s := FormatDate(d) + "T9:00:00";
    var rest := s[11..];
    assert rest == "9:00:00";
    assert SignPos(rest) == |rest| by { SignPosNone(rest); }
    assert rest[..|rest|] == rest;
    assert !AllDigits(rest[0..2]) by { assert rest[0..2][1] == ':'; }
  }

  /** Aware values compare by instant: the same clock reading an hour further east is earlier. */
  lemma OffsetShiftsInstant(t: DateTime, off: int)
    requires ValidDateTime(t) && -1440 < off && off + 60 < 1440
    ensures Instant(Stamp(t, Some(off + 60))) == Instant(Stamp(t, Some(off))) - 3600000000
  {
  }

  /** `Less` is a strict order on values of the same kind. */
  lemma LessStrictOrder(a: Stamp, b: Stamp, c: Stamp)
    requires ValidStamp(a) && ValidStamp(b) && ValidStamp(c)
    requires a.offset.Some? == b.offset.Some? == c.offset.Some?
    ensures !(Less(a, b).value && Less(b, a).value)
    ensures Less(a, b).value && Less(b, c).value ==> Less(a, c).value
  {
  }
}
