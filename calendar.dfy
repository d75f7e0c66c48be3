/**
 * The calendar store (data/calendar_events.json): events with a fixed 60-minute length,
 * removal by id, the relative-date query and the iCalendar export.
 */
module Calendar {
  import opened Wrappers
  import opened Filters
  import opened Text
  import opened Chrono
  import opened Strptime
  import opened IsoParse
  import opened DateFilter

  /** An `id` as JSON holds it: the stores write integers and strings; a missing request id is null. */
  datatype Id = IntId(n: int) | StrId(s: string) | NullId

  /** `str(id)`. */
  function IdText(id: Id): (r: string)
    ensures id.IntId? && id.n >= 0 ==> AllDigits(r) && DigitsValue(r) == id.n
  {
    match id
    case IntId(n) => (if n >= 0 then NatToStringValue(n); IntToString(n) else IntToString(n))
    case StrId(s) => s
    case NullId => "None"
  }

  /** An event; a `None` field is a key the stored object lacks. */
  datatype CalendarEvent = CalendarEvent(
    id: Id, title: Option<string>, start: Option<string>, end: string,
    description: Option<string>, status: string, createdAt: string, calendarType: string)

  /** The fields `add_calendar_event` reads from the appointment it is given. */
  datatype EventRequest = EventRequest(id: Id, date: string, time: string, description: string)

  /** `_calculate_end_time`: the start parsed with "%Y-%m-%d %H:%M", plus 60 minutes, as "%Y-%m-%dT%H:%M:%S". */
  function CalculateEndTime(date: string, time: string): (r: Result<string>)
    ensures r.Ok? ==> ParseDateTime(date + " " + time).Some?
  {
    var start :- ParseDateTime(date + " " + time).ToResult("time data does not match format '%Y-%m-%d %H:%M'");
    var end :- AddMinutes(start, 60).ToResult("date value out of range");
    Ok(FormatSeconds(end))
  }

  /** The end is exactly sixty minutes after the start, and reads back with `fromisoformat`. */
  lemma EndTimeOneHourLater(date: string, time: string)
    requires CalculateEndTime(date, time).Ok?
    ensures var start := ParseDateTime(date + " " + time).value;
      exists end: DateTime :: ValidDateTime(end) && CalculateEndTime(date, time).value == FormatSeconds(end)
        && MinuteStamp(end) == MinuteStamp(start) + 60 && end.second == 0 && end.micro == 0
        && ParseIso(FormatSeconds(end)) == Some(Stamp(end, None))
  {
    var start := ParseDateTime(date + " " + time).value;
    var end := AddMinutes(start, 60).value;
    AddMinutesStamp(start, 60);
    ParseIsoFormat(end);
  }

  /** On canonical strings the end is the next hour of the same day, or midnight-hour of the next day. */
  lemma EndTimeRollover(d: Date, h: int, m: int)
    requires ValidDate(d) && ValidClockTime(h, m)
    ensures h < 23 ==> CalculateEndTime(FormatDate(d), FormatHM(h, m)) == Ok(FormatSeconds(DateTime(d, h + 1, m, 0, 0)))
    ensures h == 23 && d != Date(MaxYear, 12, 31) ==>
      CalculateEndTime(FormatDate(d), FormatHM(h, m)) == Ok(FormatSeconds(DateTime(NextDay(d), 0, m, 0, 0)))
    ensures h == 23 && d == Date(MaxYear, 12, 31) ==> CalculateEndTime(FormatDate(d), FormatHM(h, m)).Err?
  {
    ParseFormatDateTime(d, h, m);
    AddHourRollover(DateTime(d, h, m, 0, 0));
  }

  /** The DATE-TIME basic form of section 3.3.5 of RFC 5545: the separators of an ISO value removed. */
  function BasicForm(s: string): string {
    RemoveChars(s, {'-', ':'})
  }

  lemma BasicFormOfDate(d: Date)
    requires ValidDate(d)
    ensures BasicForm(FormatDate(d)) == Pad4(d.year) + Pad2(d.month) + Pad2(d.day)
  {
    var bad := {'-', ':'};
    var y, mo, dd := Pad4(d.year), Pad2(d.month), Pad2(d.day);
    RemoveCharsSep(y, '-', mo, bad);
    RemoveCharsDrop(y + "-" + mo, '-', bad);
    RemoveCharsKeep(y + "-" + mo + "-", dd, bad);
  }

  lemma BasicFormOfHMS(h: int, m: int, sec: int)
    requires ValidClockTime(h, m) && 0 <= sec < 60
    ensures BasicForm(FormatHMS(h, m, sec)) == Pad2(h) + Pad2(m) + Pad2(sec)
  {
    var bad := {'-', ':'};
    RemoveCharsSep(Pad2(h), ':', Pad2(m), bad);
    RemoveCharsDrop(FormatHM(h, m), ':', bad);
    RemoveCharsKeep(FormatHM(h, m) + ":", Pad2(sec), bad);
  }

  /** A local DATE-TIME in the basic form, "YYYYMMDDTHHMMSS". */
  function BasicStamp(t: DateTime): string
    requires ValidDateTime(t)
  {
    Pad4(t.date.year) + Pad2(t.date.month) + Pad2(t.date.day) + "T" + Pad2(t.hour) + Pad2(t.minute) + Pad2(t.second)
  }

  /** "YYYY-MM-DDTHH:MM:SS" loses its dashes and colons and becomes "YYYYMMDDTHHMMSS". */
  lemma BasicFormOfSeconds(t: DateTime)
    requires ValidDateTime(t)
    ensures BasicForm(FormatSeconds(t)) == BasicStamp(t)
  {
    var bad := {'-', ':'};
    var fd, hms := FormatDate(t.date), FormatHMS(t.hour, t.minute, t.second);
    BasicFormOfDate(t.date);
    BasicFormOfHMS(t.hour, t.minute, t.second);
    RemoveCharsKeep(fd, "T", bad);
    RemoveCharsConcat(fd + "T", hms, bad);
  }

  const IcsHeader := "BEGIN:VCALENDAR\nVERSION:2.0\nPRODID:-//Voice Automation Agent//Calendar//EN\n"
  const IcsFooter := "END:VCALENDAR\n"

  /** One VEVENT component (section 3.6.1 of RFC 5545); `Err` for an event lacking a key it prints. */
  function VEvent(e: CalendarEvent): (r: Result<string>)
    ensures r.Ok? <==> e.start.Some? && e.title.Some? && e.description.Some?
    ensures r.Ok? ==> StartsWith(r.value, "BEGIN:VEVENT\n")
  {
    var start :- e.start.ToResult("KeyError: 'start'");
    var title :- e.title.ToResult("KeyError: 'title'");
    var description :- e.description.ToResult("KeyError: 'description'");
    var text := "BEGIN:VEVENT\n"
      + "UID:" + IdText(e.id) + "@voice-automation.local\n"
      + "DTSTART:" + BasicForm(start) + "\n"
      + "DTEND:" + BasicForm(e.end) + "\n"
      + "SUMMARY:" + title + "\n"
      + "DESCRIPTION:" + description + "\n"
      + "STATUS:CONFIRMED\n"
      + "END:VEVENT\n";
    assert text[..13] == "BEGIN:VEVENT\n";
    Ok(text)
  }

  predicate Printable(e: CalendarEvent) {
    e.start.Some? && e.title.Some? && e.description.Some?
  }

  /** The VEVENT components of all events, in store order. */
  function Components(events: seq<CalendarEvent>): (r: Result<string>)
    ensures r.Ok? <==> forall k :: 0 <= k < |events| ==> Printable(events[k])
  {
    if events == [] then Ok("")
    else
      var front := events[..|events| - 1];
      assert forall k :: 0 <= k < |front| ==> front[k] == events[k];
      var c :- Components(front);
      var v :- VEvent(events[|events| - 1]);
      Ok(c + v)
  }

  /** The text `export_calendar_ics` writes. */
  function Ics(events: seq<CalendarEvent>): Result<string> {
    var c :- Components(events);
    Ok(IcsHeader + c + IcsFooter)
  }

  /** The components of a prefix one event longer. */
  lemma ComponentsStep(es: seq<CalendarEvent>, i: nat)
    requires i < |es|
    ensures Components(es[..i]).Err? ==> Components(es[..i + 1]) == Components(es[..i])
    ensures Components(es[..i]).Ok? && VEvent(es[i]).Err? ==> Components(es[..i + 1]) == Err(VEvent(es[i]).error)
    ensures Components(es[..i]).Ok? && VEvent(es[i]).Ok? ==>
      Components(es[..i + 1]) == Ok(Components(es[..i]).value + VEvent(es[i]).value)
  {
    var p := es[..i + 1];
    assert p[..|p| - 1] == es[..i] && p[|p| - 1] == es[i];
  }

  /** The first event that cannot be printed decides the error. */
  lemma {:induction false} ComponentsErrStays(es: seq<CalendarEvent>, i: nat)
    requires i <= |es| && Components(es[..i]).Err?
    ensures Components(es) == Components(es[..i])
    decreases |es| - i
  {
    if i < |es| {
      ComponentsStep(es, i);
      ComponentsErrStays(es, i + 1);
    } else {
      assert es[..i] == es;
    }
  }

  /** The components are one VEVENT per event, in store order. */
  lemma {:induction false} ComponentsShape(events: seq<CalendarEvent>) returns (blocks: seq<string>)
    requires forall k :: 0 <= k < |events| ==> Printable(events[k])
    ensures |blocks| == |events|
    ensures forall k :: 0 <= k < |events| ==> VEvent(events[k]) == Ok(blocks[k])
    ensures Components(events) == Ok(Concat(blocks))
  {
    if events == [] {
      blocks := [];
    } else {
      var n := |events| - 1;
      var front := events[..n];
      assert forall k :: 0 <= k < |front| ==> front[k] == events[k];
      var fb := ComponentsShape(front);
      var last := VEvent(events[n]).value;
      blocks := fb + [last];
      forall k | 0 <= k < |events| ensures VEvent(events[k]) == Ok(blocks[k]) {
        if k < n {
          assert blocks[k] == fb[k] && events[k] == front[k];
        }
      }
      ConcatSnoc(fb, last);
    }
  }

  /** The export is one VCALENDAR object: its header lines, one component per event in order, its end line. */
  lemma IcsShape(events: seq<CalendarEvent>) returns (blocks: seq<string>)
    requires forall k :: 0 <= k < |events| ==> Printable(events[k])
    ensures |blocks| == |events|
    ensures forall k :: 0 <= k < |events| ==> VEvent(events[k]) == Ok(blocks[k])
    ensures Ics(events) == Ok(IcsHeader + Concat(blocks) + IcsFooter)
  {
    blocks := ComponentsShape(events);
  }

  /** The date an event starts on, read with `fromisoformat` (its offset, if any, is ignored). */
  function EventDay(e: CalendarEvent): Result<Date> {
    var s :- e.start.ToResult("KeyError: 'start'");
    var st :- ParseIso(s).ToResult("Invalid isoformat string");
    Ok(st.local.date)
  }

  /** `get_calendar_events(date_filter)`: every stored start is parsed once a filter is given. */
  function EventsInWindow(events: seq<CalendarEvent>, f: Option<string>, now: DateTime): (r: Result<seq<CalendarEvent>>)
    requires ValidClock(now)
    ensures !Present(f) ==> r == Ok(events)
  {
    if !Present(f) || events == [] then Ok(events)
    else
      var front := events[..|events| - 1];
      var last := events[|events| - 1];
      var kept :- EventsInWindow(front, f, now);
      var d :- EventDay(last);
      Ok(kept + (if Recognised(f) && DayInWindow(d, f, now) then [last] else []))
  }

  /** Whether an event's start reads as ISO 8601 and its day lies in the window of a filter the query knows. */
  function EventInWindow(f: Option<string>, now: DateTime): CalendarEvent -> bool
    requires ValidClock(now)
  {
    (e: CalendarEvent) => EventDay(e).Ok? && Recognised(f) && DayInWindow(EventDay(e).value, f, now)
  }

  /** With a filter, a successful query is the generic filter with `EventInWindow`. */
  lemma {:induction false} EventsInWindowIsKeep(events: seq<CalendarEvent>, f: Option<string>, now: DateTime)
    requires ValidClock(now) && Present(f) && EventsInWindow(events, f, now).Ok?
    ensures EventsInWindow(events, f, now).value == Keep(events, EventInWindow(f, now))
  {
    if events != [] {
      EventsInWindowIsKeep(events[..|events| - 1], f, now);
    }
  }

  /** With a filter, the query succeeds exactly when every start reads as ISO 8601. */
  lemma {:induction false} EventsInWindowReads(events: seq<CalendarEvent>, f: Option<string>, now: DateTime)
    requires ValidClock(now) && Present(f)
    ensures EventsInWindow(events, f, now).Ok? <==> forall k :: 0 <= k < |events| ==> EventDay(events[k]).Ok?
  {
    if events != [] {
      var front := events[..|events| - 1];
      var last := events[|events| - 1];
      EventsInWindowReads(front, f, now);
      assert EventsInWindow(events, f, now).Ok? <==> EventsInWindow(front, f, now).Ok? && EventDay(last).Ok?;
      assert forall k :: 0 <= k < |front| ==> front[k] == events[k];
      assert (forall k :: 0 <= k < |events| ==> EventDay(events[k]).Ok?) <==>
             (forall k :: 0 <= k < |front| ==> EventDay(front[k]).Ok?) && EventDay(last).Ok?;
    }
  }

  /**
   * With a filter, the query succeeds exactly when every start reads as ISO 8601; it then keeps
   * the events whose day is in the window, in stored order and each as often as stored, and no
   * event for a filter it does not know.
   */
  lemma EventsInWindowMembers(events: seq<CalendarEvent>, f: Option<string>, now: DateTime)
    requires ValidClock(now) && Present(f)
    ensures EventsInWindow(events, f, now).Ok? <==> forall k :: 0 <= k < |events| ==> EventDay(events[k]).Ok?
    ensures EventsInWindow(events, f, now).Ok? ==> forall x :: x in EventsInWindow(events, f, now).value <==>
      x in events && Recognised(f) && DayInWindow(EventDay(x).value, f, now)
    ensures EventsInWindow(events, f, now).Ok? ==> EventsInWindow(events, f, now).value == Keep(events, EventInWindow(f, now))
    ensures EventsInWindow(events, f, now).Ok? ==>
      forall x :: multiset(EventsInWindow(events, f, now).value)[x] ==
        if x in events && Recognised(f) && DayInWindow(EventDay(x).value, f, now) then multiset(events)[x] else 0
  {
    EventsInWindowReads(events, f, now);
    if EventsInWindow(events, f, now).Ok? {
      EventsInWindowIsKeep(events, f, now);
      KeepMembers(events, EventInWindow(f, now));
      forall x | x in events
        ensures EventInWindow(f, now)(x) == (Recognised(f) && DayInWindow(EventDay(x).value, f, now))
      {
        var k :| 0 <= k < |events| && events[k] == x;
      }
    }
  }

  /** The filtered events of a prefix one event longer. */
  lemma EventsInWindowStep(es: seq<CalendarEvent>, i: nat, f: Option<string>, now: DateTime)
    requires ValidClock(now) && Present(f) && i < |es|
    ensures EventsInWindow(es[..i], f, now).Err? ==> EventsInWindow(es[..i + 1], f, now) == EventsInWindow(es[..i], f, now)
    ensures EventsInWindow(es[..i], f, now).Ok? && EventDay(es[i]).Err? ==>
      EventsInWindow(es[..i + 1], f, now) == Err(EventDay(es[i]).error)
    ensures EventsInWindow(es[..i], f, now).Ok? && EventDay(es[i]).Ok? ==>
      EventsInWindow(es[..i + 1], f, now) == Ok(EventsInWindow(es[..i], f, now).value
        + (if Recognised(f) && DayInWindow(EventDay(es[i]).value, f, now) then [es[i]] else []))
  {
    var p := es[..i + 1];
    assert p[..|p| - 1] == es[..i] && p[|p| - 1] == es[i];
  }

  /** The first unreadable start decides the error. */
  lemma {:induction false} EventsInWindowErrStays(es: seq<CalendarEvent>, i: nat, f: Option<string>, now: DateTime)
    requires ValidClock(now) && Present(f) && i <= |es| && EventsInWindow(es[..i], f, now).Err?
    ensures EventsInWindow(es, f, now) == EventsInWindow(es[..i], f, now)
    decreases |es| - i
  {
    if i < |es| {
      EventsInWindowStep(es, i, f, now);
      EventsInWindowErrStays(es, i + 1, f, now);
    } else {
      assert es[..i] == es;
    }
  }

  /** The events without those whose id equals `id` (no conversion between numbers and strings). */
  function WithoutEvent(events: seq<CalendarEvent>, id: Id): (r: seq<CalendarEvent>)
    ensures |r| <= |events|
    ensures forall x :: x in r <==> x in events && x.id != id
    ensures |r| < |events| <==> exists k :: 0 <= k < |events| && events[k].id == id
  {
    if events == [] then []
    else
      var front := events[..|events| - 1];
      var last := events[|events| - 1];
      assert events == front + [last];
      assert forall k :: 0 <= k < |front| ==> front[k] == events[k];
      WithoutEvent(front, id) + (if last.id != id then [last] else [])
  }

  lemma WithoutEventStep(es: seq<CalendarEvent>, i: nat, id: Id)
    requires i < |es|
    ensures WithoutEvent(es[..i + 1], id) == WithoutEvent(es[..i], id) + (if es[i].id != id then [es[i]] else [])
  {
    var p := es[..i + 1];
    assert p[..|p| - 1] == es[..i] && p[|p| - 1] == es[i];
  }

  /** The events `remove_calendar_event` keeps: those with another id. */
  function OtherEvent(id: Id): CalendarEvent -> bool {
    (e: CalendarEvent) => e.id != id
  }

  /** `WithoutEvent` is the generic filter with `OtherEvent`. */
  lemma {:induction false} WithoutEventIsKeep(events: seq<CalendarEvent>, id: Id)
    ensures WithoutEvent(events, id) == Keep(events, OtherEvent(id))
  {
    if events != [] {
      WithoutEventIsKeep(events[..|events| - 1], id);
    }
  }

  /**
   * The events left are exactly those with another id, each as often as it is stored, in
   * stored order (the filter of a list is the filter of its two halves, for every cut).
   */
  lemma WithoutEventMembers(events: seq<CalendarEvent>, id: Id)
    ensures forall x :: x in WithoutEvent(events, id) <==> x in events && x.id != id
    ensures forall x :: multiset(WithoutEvent(events, id))[x] == if x.id != id then multiset(events)[x] else 0
    ensures forall k :: 0 <= k <= |events| ==>
      WithoutEvent(events, id) == WithoutEvent(events[..k], id) + WithoutEvent(events[k..], id)
    ensures |WithoutEvent(events, id)| < |events| <==> exists k :: 0 <= k < |events| && events[k].id == id
  {
    WithoutEventIsKeep(events, id);
    KeepMembers(events, OtherEvent(id));
    forall k | 0 <= k <= |events|
      ensures WithoutEvent(events, id) == WithoutEvent(events[..k], id) + WithoutEvent(events[k..], id)
    {
      WithoutEventIsKeep(events[..k], id);
      WithoutEventIsKeep(events[k..], id);
    }
  }

  lemma {:induction false} WithoutAbsentEvent(events: seq<CalendarEvent>, id: Id)
    requires forall k :: 0 <= k < |events| ==> events[k].id != id
    ensures WithoutEvent(events, id) == events
  {
    if events != [] {
      WithoutAbsentEvent(events[..|events| - 1], id);
      assert events == events[..|events| - 1] + [events[|events| - 1]];
    }
  }

  /** The filter drops an event exactly when one carries the id, and otherwise gives the list back. */
  lemma WithoutEventOutcome(events: seq<CalendarEvent>, id: Id)
    ensures |WithoutEvent(events, id)| < |events| <==> exists k :: 0 <= k < |events| && events[k].id == id
    ensures |WithoutEvent(events, id)| >= |events| ==> WithoutEvent(events, id) == events
  {
    if |WithoutEvent(events, id)| >= |events| {
      WithoutAbsentEvent(events, id);
    }
  }

  /** A number id and its decimal string are different ids: removing one leaves the other. */
  lemma NoIdCoercion(e: CalendarEvent, n: nat)
    requires e.id == IntId(n)
    ensures WithoutEvent([e], StrId(IdText(IntId(n)))) == [e]
  {
  }

  /** The list comprehension of `remove_calendar_event`, as the loop that builds it. */
  method KeepOtherEvents(es: seq<CalendarEvent>, id: Id) returns (kept: seq<CalendarEvent>)
    ensures kept == WithoutEvent(es, id)
  {
    kept := [];
    var i := 0;
    while i < |es|
      invariant 0 <= i <= |es|
      invariant kept == WithoutEvent(es[..i], id)
    {
      WithoutEventStep(es, i, id);
      if es[i].id != id {
        kept := kept + [es[i]];
      }
      i := i + 1;
    }
    assert es[..i] == es;
  }

  /** The event `add_calendar_event` builds from a request, given its computed end. */
  function NewEvent(req: EventRequest, end: string, now: DateTime): (e: CalendarEvent)
    requires ValidDateTime(now)
    ensures Printable(e) && e.id == req.id && e.title == e.description == Some(req.description)
    ensures e.start == Some(req.date + "T" + req.time + ":00") && e.end == end
    ensures e.status == "confirmed" && e.calendarType == "voice_automation" && e.createdAt == IsoFormat(now)
  {
    CalendarEvent(req.id, Some(req.description), Some(req.date + "T" + req.time + ":00"),
                  end, Some(req.description), "confirmed", IsoFormat(now), "voice_automation")
  }

  class CalendarIntegration {
    var events: seq<CalendarEvent>

    constructor (initial: seq<CalendarEvent>)
      ensures events == initial
    {
      events := initial;
    }

    /**
     * `add_calendar_event`: the end is computed before anything is stored, so a bad date or time
     * leaves the events as they were; otherwise exactly one event is appended.
     */
    method AddCalendarEvent(req: EventRequest, now: DateTime) returns (r: Result<CalendarEvent>)
      requires ValidDateTime(now)
      modifies this
      ensures CalculateEndTime(req.date, req.time).Err? ==> r.Err? && events == old(events)
      ensures CalculateEndTime(req.date, req.time).Ok? ==>
        && r == Ok(NewEvent(req, CalculateEndTime(req.date, req.time).value, now))
        && r.value.status == "confirmed" && r.value.createdAt == IsoFormat(now)
        && events == old(events) + [r.value]
      ensures (forall k :: 0 <= k < |old(events)| ==> Printable(old(events)[k])) ==>
        forall k :: 0 <= k < |events| ==> Printable(events[k])
    {
      var end :- CalculateEndTime(req.date, req.time);
      var event := NewEvent(req, end, now);
      events := events + [event];
      r := Ok(event);
    }

    /** `remove_calendar_event`: drops every event with this id; true iff one was dropped. */
    method RemoveCalendarEvent(id: Id) returns (removed: bool)
      modifies this
      ensures events == WithoutEvent(old(events), id)
      ensures removed <==> exists k :: 0 <= k < |old(events)| && old(events)[k].id == id
      ensures !removed ==> events == old(events)
    {
      var kept := KeepOtherEvents(events, id);
      removed := |kept| < |events|;
      if removed {
        events := kept;
      } else {
        WithoutEventOutcome(events, id);
      }
    }

    /** `get_calendar_events(date_filter)` with `now` given. */
    method GetCalendarEvents(f: Option<string>, now: DateTime) returns (r: Result<seq<CalendarEvent>>)
      requires ValidClock(now)
      ensures r == EventsInWindow(events, f, now)
    {
      var es := events;
      if !Present(f) {
        return Ok(es);
      }
      var filtered: seq<CalendarEvent> := [];
      var i := 0;
      while i < |es|
        invariant 0 <= i <= |es|
        invariant EventsInWindow(es[..i], f, now) == Ok(filtered)
      {
        EventsInWindowStep(es, i, f, now);
        var d := EventDay(es[i]);
        if d.Err? {
          EventsInWindowErrStays(es, i + 1, f, now);
          return Err(d.error);
        }
        var keep := Recognised(f) && DayInWindow(d.value, f, now);
        assert EventsInWindow(es[..i + 1], f, now) == Ok(filtered + (if keep then [es[i]] else []));
        if keep {
          filtered := filtered + [es[i]];
        } else {
          assert filtered + [] == filtered;
        }
        i := i + 1;
      }
      assert es[..i] == es;
      r := Ok(filtered);
    }

    /** `export_calendar_ics`: the iCalendar text, grown one component at a time. */
    method ExportIcs() returns (r: Result<string>)
      ensures r == Ics(events)
    {
      var es := events;
      var content := "";
      var i := 0;
      while i < |es|
        invariant 0 <= i <= |es|
        invariant Components(es[..i]) == Ok(content)
      {
        ComponentsStep(es, i);
        var v := VEvent(es[i]);
        if v.Err? {
          ComponentsErrStays(es, i + 1);
          return Err(v.error);
        }
        content := content + v.value;
        i := i + 1;
      }
      assert es[..i] == es;
      r := Ok(IcsHeader + content + IcsFooter);
    }
  }

  /** An event added from a canonical date and time is found again by the date filters. */
  lemma AddedEventReadable(req: EventRequest, end: string, d: Date, h: int, m: int, now: DateTime)
    requires ValidDate(d) && ValidClockTime(h, m) && ValidDateTime(now)
    requires req.date == FormatDate(d) && req.time == FormatHM(h, m)
    ensures EventDay(NewEvent(req, end, now)) == Ok(d)
  {
    ParseEventStart(d, h, m);
  }

  /**
   * The component exported for an event added from a canonical date and time: its DTSTART is the
   * start in the basic form of section 3.3.5 of RFC 5545, its DTEND the instant sixty minutes later.
   */
  lemma AddedEventComponent(req: EventRequest, d: Date, h: int, m: int, now: DateTime)
    requires ValidDate(d) && ValidClockTime(h, m) && ValidDateTime(now)
    requires req.date == FormatDate(d) && req.time == FormatHM(h, m)
    requires CalculateEndTime(req.date, req.time).Ok?
    ensures AddMinutes(DateTime(d, h, m, 0, 0), 60).Some?
    ensures var start := DateTime(d, h, m, 0, 0);
      var end := AddMinutes(start, 60).value;
      && MinuteStamp(end) == MinuteStamp(start) + 60 && end.second == 0
      && VEvent(NewEvent(req, CalculateEndTime(req.date, req.time).value, now)) ==
         Ok("BEGIN:VEVENT\n" + "UID:" + IdText(req.id) + "@voice-automation.local\n"
            + "DTSTART:" + BasicStamp(start) + "\n"
            + "DTEND:" + BasicStamp(end) + "\n"
            + "SUMMARY:" + req.description + "\n" + "DESCRIPTION:" + req.description + "\n"
            + "STATUS:CONFIRMED\n" + "END:VEVENT\n")
  {
    var start := DateTime(d, h, m, 0, 0);
    AddedEventTimes(req.date, req.time, d, h, m);
    AddMinutesStamp(start, 60);
    NewEventComponent(req, start, AddMinutes(start, 60).value, now);
  }

  /** A canonical start and the end `_calculate_end_time` gives it, as `isoformat()` strings of two instants. */
  lemma AddedEventTimes(date: string, time: string, d: Date, h: int, m: int)
    requires ValidDate(d) && ValidClockTime(h, m)
    requires date == FormatDate(d) && time == FormatHM(h, m)
    requires CalculateEndTime(date, time).Ok?
    ensures date + "T" + time + ":00" == FormatSeconds(DateTime(d, h, m, 0, 0))
    ensures AddMinutes(DateTime(d, h, m, 0, 0), 60).Some?
    ensures CalculateEndTime(date, time).value == FormatSeconds(AddMinutes(DateTime(d, h, m, 0, 0), 60).value)
  {
    FormatSecondsOnMinute(d, h, m);
    ParseFormatDateTime(d, h, m);
  }

  /** The component of a new event whose start and end are the `isoformat()` of two instants. */
  lemma NewEventComponent(req: EventRequest, start: DateTime, end: DateTime, now: DateTime)
    requires ValidDateTime(start) && ValidDateTime(end) && ValidDateTime(now)
    requires req.date + "T" + req.time + ":00" == FormatSeconds(start)
    ensures VEvent(NewEvent(req, FormatSeconds(end), now)) ==
            Ok("BEGIN:VEVENT\n" + "UID:" + IdText(req.id) + "@voice-automation.local\n"
               + "DTSTART:" + BasicStamp(start) + "\n"
               + "DTEND:" + BasicStamp(end) + "\n"
               + "SUMMARY:" + req.description + "\n" + "DESCRIPTION:" + req.description + "\n"
               + "STATUS:CONFIRMED\n" + "END:VEVENT\n")
  {
    BasicFormOfSeconds(start);
    BasicFormOfSeconds(end);
  }

  /** "9:00" passes `strptime`, so `add_calendar_event` stores the event and computes its end. */
  lemma OneDigitHourEventAdded(d: Date)
    requires ValidDate(d)
    ensures CalculateEndTime(FormatDate(d), "9:00") == Ok(FormatSeconds(DateTime(d, 10, 0, 0, 0)))
  {
    assert FormatDate(d) + " " + "9:00" == FormatDate(d) + " 9:00";
    ParseOneDigitHour(d);
    AddHourRollover(DateTime(d, 9, 0, 0, 0));
  }

  /** ... but its start "…T9:00:00" is not ISO 8601, so every filtered query fails from then on. */
  lemma OneDigitHourEventUnreadable(req: EventRequest, end: string, d: Date, f: Option<string>, now: DateTime)
    requires ValidDate(d) && ValidClock(now) && Present(f)
    requires req.date == FormatDate(d) && req.time == "9:00"
    ensures EventDay(NewEvent(req, end, now)).Err?
    ensures EventsInWindow([NewEvent(req, end, now)], f, now).Err?
  {
    assert req.date + "T" + req.time + ":00" == FormatDate(d) + "T9:00:00";
    OneDigitHourRefused(d);
  }
}
