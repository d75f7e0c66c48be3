/**
 * The reconciliation manager over the three stores: a unified record, the adapters to and from
 * each store's records, the fan-out add and remove, the conflict pass keyed by
 * "date_time_description", the sorted summary and the export snapshot.
 */
module DataIntegration {
  import opened Wrappers
  import opened Text
  import opened Chrono
  import opened IsoParse
  import opened Sorting
  import opened Filters
  import Scheduler
  import Calendar
  import ApiServer

  type ScheduleRecord = Scheduler.ScheduleRecord
  type CalendarEvent = Calendar.CalendarEvent
  type ApiRecord = ApiServer.ApiRecord

  /** `UnifiedAppointment`; the adapters always give `created_at` a string. */
  datatype UnifiedAppointment = UnifiedAppointment(
    id: string, date: string, time: string, description: string,
    patientName: Option<string>, contactInfo: Option<string>, status: string, source: string,
    externalId: Option<string>, createdAt: string, updatedAt: Option<string>)

  /** The three store tags an adapter is selected by. */
  datatype Source = Schedules | CalendarEvents | ApiAppointments

  /** A record as one of the stores holds it. */
  datatype StoredRecord = InSchedules(rec: ScheduleRecord) | InCalendar(event: CalendarEvent) | InApi(appt: ApiRecord)

  function SourceOf(r: StoredRecord): Source {
    match r
    case InSchedules(_) => Schedules
    case InCalendar(_) => CalendarEvents
    case InApi(_) => ApiAppointments
  }

  /** The tag strings "schedules", "calendar" and "api"; any other raises ValueError(`unknown` + tag). */
  function ParseSource(tag: string, unknown: string): (r: Result<Source>)
    ensures r.Ok? <==> tag == "schedules" || tag == "calendar" || tag == "api"
    ensures r.Err? ==> r.error == unknown + tag
  {
    if tag == "schedules" then Ok(Schedules)
    else if tag == "calendar" then Ok(CalendarEvents)
    else if tag == "api" then Ok(ApiAppointments)
    else Err(unknown + tag)
  }

  /** The tags name the sources one to one. */
  lemma ParseSourceInjective(a: string, b: string, unknown: string)
    requires ParseSource(a, unknown).Ok? && ParseSource(a, unknown) == ParseSource(b, unknown)
    ensures a == b
  {
  }

  // ----- store records to unified -----

  function ScheduleToUnified(r: ScheduleRecord): UnifiedAppointment {
    UnifiedAppointment(IntToString(r.id), r.date, r.time, r.description, None, None, "confirmed", "local",
                       None, r.timestamp, None)
  }

  /** The date and time parts of a calendar `start`: "" and "" when it is missing or empty. */
  function StartFields(start: Option<string>): Result<(string, string)> {
    if !Present(start) then Ok(("", ""))
    else
      var st :- ParseIso(ReplaceChar(start.value, 'Z', "+00:00")).ToResult("Invalid isoformat string: " + start.value);
      Ok((FormatDate(st.local.date), FormatHM(st.local.hour, st.local.minute)))
  }

  function CalendarToUnified(e: CalendarEvent): Result<UnifiedAppointment> {
    var (date, time) :- StartFields(e.start);
    var description := if e.description.Some? then e.description.value else e.title.GetOr("");
    Ok(UnifiedAppointment(Calendar.IdText(e.id), date, time, description, None, None, "confirmed", "calendar",
                          None, e.createdAt, None))
  }

  function ApiToUnified(a: ApiRecord): UnifiedAppointment {
    UnifiedAppointment(a.id, a.date, a.time, a.description, a.patientName, a.contactInfo, a.status.GetOr("confirmed"),
                       "api", a.appointmentId, a.bookingTimestamp.GetOr(""), None)
  }

  /** `_convert_to_unified(record, source)`; a record of another store than the tag names is refused. */
  function ConvertToUnified(r: StoredRecord, source: string): (u: Result<UnifiedAppointment>)
    ensures ParseSource(source, "Unknown source: ").Err? ==> u == Err("Unknown source: " + source)
    ensures u.Ok? ==> ParseSource(source, "Unknown source: ") == Ok(SourceOf(r))
    ensures u.Ok? ==> u.value.source == (match SourceOf(r) case Schedules => "local" case CalendarEvents => "calendar" case ApiAppointments => "api")
  {
    var src :- ParseSource(source, "Unknown source: ");
    if src != SourceOf(r) then Err("not a record of " + source)
    else
      match r
      case InSchedules(rec) => Ok(ScheduleToUnified(rec))
      case InCalendar(e) => CalendarToUnified(e)
      case InApi(a) => Ok(ApiToUnified(a))
  }

  // ----- unified to store records -----

  /** `str.isdigit()` on ASCII: non-empty and all digits. */
  predicate IsDigitString(s: string) {
    s != [] && AllDigits(s)
  }

  /** The integer id the schedule and calendar copies get: `int(id)` for a digit string, otherwise 1. */
  function NumericId(id: string): int {
    if IsDigitString(id) then DigitsValue(id) else 1
  }

  /** `created_at or datetime.now().isoformat()`. */
  function CreatedOrNow(u: UnifiedAppointment, now: DateTime): string
    requires ValidDateTime(now)
  {
    if u.createdAt != "" then u.createdAt else IsoFormat(now)
  }

  function ToScheduleRecord(u: UnifiedAppointment, now: DateTime): ScheduleRecord
    requires ValidDateTime(now)
  {
    Scheduler.ScheduleRecord(NumericId(u.id), u.date, u.time, u.description, CreatedOrNow(u, now))
  }

  function ToCalendarEvent(u: UnifiedAppointment, now: DateTime): (r: Result<CalendarEvent>)
    requires ValidDateTime(now)
    ensures r.Ok? <==> Calendar.CalculateEndTime(u.date, u.time).Ok?
    ensures r.Ok? ==> && r.value.id == Calendar.IntId(NumericId(u.id))
                      && r.value.start == Some(u.date + "T" + u.time + ":00")
                      && r.value.end == Calendar.CalculateEndTime(u.date, u.time).value
                      && r.value.title == r.value.description == Some(u.description)
                      && r.value.calendarType == "voice_automation"
  {
    var end :- Calendar.CalculateEndTime(u.date, u.time);
    Ok(Calendar.CalendarEvent(Calendar.IntId(NumericId(u.id)), Some(u.description), Some(u.date + "T" + u.time + ":00"),
                              end, Some(u.description), u.status, CreatedOrNow(u, now), "voice_automation"))
  }

  function ToApiRecord(u: UnifiedAppointment, now: DateTime): ApiRecord
    requires ValidDateTime(now)
  {
    ApiServer.ApiRecord(u.id, u.date, u.time, u.description,
                        Some(ApiServer.OrDefault(u.patientName, "Voice User")),
                        Some(ApiServer.OrDefault(u.contactInfo, "voice@example.com")),
                        Some(u.status), Some(CreatedOrNow(u, now)), Some("CONF_" + CompactStamp(now)), None)
  }

  /** `_convert_from_unified(u, target)`, with the clock reading given. */
  function ConvertFromUnified(u: UnifiedAppointment, target: string, now: DateTime): (r: Result<StoredRecord>)
    requires ValidDateTime(now)
    ensures ParseSource(target, "Unknown target format: ").Err? ==> r == Err("Unknown target format: " + target)
    ensures r.Ok? ==> ParseSource(target, "Unknown target format: ") == Ok(SourceOf(r.value))
    ensures target == "schedules" || target == "api" ==> r.Ok?
    ensures target == "calendar" ==> (r.Ok? <==> Calendar.CalculateEndTime(u.date, u.time).Ok?)
  {
    var dst :- ParseSource(target, "Unknown target format: ");
    match dst
    case Schedules => Ok(InSchedules(ToScheduleRecord(u, now)))
    case CalendarEvents =>
      var e :- ToCalendarEvent(u, now);
      Ok(InCalendar(e))
    case ApiAppointments => Ok(InApi(ToApiRecord(u, now)))
  }

  // ----- adapter properties -----

  /** A schedule record with a non-negative id and a timestamp survives the trip to unified form and back. */
  lemma ScheduleRoundTrip(r: ScheduleRecord, now: DateTime)
    requires ValidDateTime(now) && r.id >= 0 && r.timestamp != ""
    ensures ConvertToUnified(InSchedules(r), "schedules") == Ok(ScheduleToUnified(r))
    ensures ConvertFromUnified(ScheduleToUnified(r), "schedules", now) == Ok(InSchedules(r))
  {
    NatToStringValue(r.id);
  }

  /** Unified to schedule record and back keeps the date, time and description, and a creation stamp. */
  lemma UnifiedScheduleRoundTrip(u: UnifiedAppointment, now: DateTime)
    requires ValidDateTime(now)
    ensures var v := ScheduleToUnified(ToScheduleRecord(u, now));
      v.date == u.date && v.time == u.time && v.description == u.description && v.source == "local"
      && (u.createdAt != "" ==> v.createdAt == u.createdAt)
      && (IsDigitString(u.id) ==> v.id == IntToString(DigitsValue(u.id)))
  {
  }

  /** Any two ids that are not digit strings collapse to the same copy id 1. */
  lemma NonDigitIdsCollide(u1: UnifiedAppointment, u2: UnifiedAppointment, now: DateTime)
    requires ValidDateTime(now) && !IsDigitString(u1.id) && !IsDigitString(u2.id)
    ensures ToScheduleRecord(u1, now).id == ToScheduleRecord(u2, now).id == 1
    ensures Calendar.CalculateEndTime(u1.date, u1.time).Ok? && Calendar.CalculateEndTime(u2.date, u2.time).Ok? ==>
      ToCalendarEvent(u1, now).value.id == ToCalendarEvent(u2, now).value.id == Calendar.IntId(1)
  {
  }

  lemma DigitsHaveNoZ(s: string)
    requires AllDigits(s)
    ensures 'Z' !in s
  {
    assert forall k :: 0 <= k < |s| ==> s[k] != 'Z';
  }

  /** The start a calendar copy is written with has no 'Z' for the reader to replace. */
  lemma StartHasNoZ(d: Date, time: string)
    requires ValidDate(d) && 'Z' !in time
    ensures 'Z' !in FormatDate(d) + "T" + time + ":00"
  {
    DigitsHaveNoZ(Pad4(d.year));
    DigitsHaveNoZ(Pad2(d.month));
    DigitsHaveNoZ(Pad2(d.day));
    assert FormatDate(d) + "T" + time + ":00" == Pad4(d.year) + "-" + Pad2(d.month) + "-" + Pad2(d.day) + "T" + time + ":00";
  }

  /** The start a calendar copy gets reads back, on canonical strings, as its date and time. */
  lemma UnifiedCalendarRoundTrip(u: UnifiedAppointment, now: DateTime, d: Date, h: int, m: int)
    requires ValidDateTime(now) && ValidDate(d) && ValidClockTime(h, m)
    requires u.date == FormatDate(d) && u.time == FormatHM(h, m)
    requires Calendar.CalculateEndTime(u.date, u.time).Ok?
    ensures var v := CalendarToUnified(ToCalendarEvent(u, now).value);
      v.Ok? && v.value.date == u.date && v.value.time == u.time && v.value.description == u.description
      && v.value.source == "calendar"
  {
    var s := u.date + "T" + u.time + ":00";
    ParseEventStart(d, h, m);
    DigitsHaveNoZ(Pad2(h));
    DigitsHaveNoZ(Pad2(m));
    StartHasNoZ(d, u.time);
    ReplaceAbsent(s, 'Z', "+00:00");
  }

  /** A calendar copy whose time has a one-digit hour is written but cannot be read back. */
  lemma OneDigitHourCopyUnreadable(u: UnifiedAppointment, now: DateTime, d: Date)
    requires ValidDateTime(now) && ValidDate(d) && u.date == FormatDate(d) && u.time == "9:00"
    ensures ToCalendarEvent(u, now).Ok?
    ensures CalendarToUnified(ToCalendarEvent(u, now).value).Err?
  {
    Calendar.OneDigitHourEventAdded(d);
    var s := u.date + "T" + u.time + ":00";
    assert s == FormatDate(d) + "T9:00:00";
    StartHasNoZ(d, u.time);
    ReplaceAbsent(s, 'Z', "+00:00");
    OneDigitHourRefused(d);
  }

  /** A calendar event without a start converts with an empty date and time; its title stands in for a missing description. */
  lemma CalendarWithoutStart(e: CalendarEvent)
    requires !Present(e.start)
    ensures CalendarToUnified(e).Ok?
    ensures CalendarToUnified(e).value.date == "" && CalendarToUnified(e).value.time == ""
    ensures e.description.None? ==> CalendarToUnified(e).value.description == e.title.GetOr("")
  {
  }

  /** API to unified keeps what the adapter reads, with `external_id` from "appointment_id". */
  lemma ApiRoundTrip(a: ApiRecord, now: DateTime)
    requires ValidDateTime(now)
    ensures var b := ToApiRecord(ApiToUnified(a), now);
      b.id == a.id && b.date == a.date && b.time == a.time && b.description == a.description
      && (Present(a.patientName) ==> b.patientName == a.patientName)
      && b.status == Some(a.status.GetOr("confirmed")) && b.appointmentId.None?
    ensures ApiToUnified(a).externalId == a.appointmentId
  {
  }

  // ----- the unified view -----

  function SchedulesUnified(rs: seq<ScheduleRecord>): (r: seq<UnifiedAppointment>)
    ensures |r| == |rs|
    ensures forall k :: 0 <= k < |rs| ==> r[k] == ScheduleToUnified(rs[k])
  {
    if rs == [] then [] else SchedulesUnified(rs[..|rs| - 1]) + [ScheduleToUnified(rs[|rs| - 1])]
  }

  /** The results of the conversions that succeed, in order; a conversion that fails is skipped. */
  function Converted<A, B>(xs: seq<A>, f: A -> Result<B>): (r: seq<B>)
    ensures |r| <= |xs|
  {
    if xs == [] then []
    else
      var c := f(xs[|xs| - 1]);
      Converted(xs[..|xs| - 1], f) + (if c.Ok? then [c.value] else [])
  }

  /** The calendar events that convert, in stored order; the others are skipped. */
  function EventsUnified(es: seq<CalendarEvent>): seq<UnifiedAppointment> {
    Converted(es, CalendarToUnified)
  }

  function ApisUnified(xs: seq<ApiRecord>): (r: seq<UnifiedAppointment>)
    ensures |r| == |xs|
    ensures forall k :: 0 <= k < |xs| ==> r[k] == ApiToUnified(xs[k])
  {
    if xs == [] then [] else ApisUnified(xs[..|xs| - 1]) + [ApiToUnified(xs[|xs| - 1])]
  }

  /** `get_all_appointments`: the schedules, then the calendar, then the API, each in stored order. */
  function AllUnified(rs: seq<ScheduleRecord>, es: seq<CalendarEvent>, xs: seq<ApiRecord>): seq<UnifiedAppointment> {
    SchedulesUnified(rs) + EventsUnified(es) + ApisUnified(xs)
  }

  lemma {:induction false} ConvertedMembers<A(!new), B(!new)>(xs: seq<A>, f: A -> Result<B>)
    ensures forall y :: y in Converted(xs, f) <==> exists k :: 0 <= k < |xs| && f(xs[k]) == Ok(y)
    ensures (forall k :: 0 <= k < |xs| ==> f(xs[k]).Ok?) ==> |Converted(xs, f)| == |xs|
  {
    if xs != [] {
      var front := xs[..|xs| - 1];
      assert forall k :: 0 <= k < |front| ==> front[k] == xs[k];
      ConvertedMembers(front, f);
      var c := f(xs[|xs| - 1]);
      forall y ensures y in Converted(xs, f) <==> exists k :: 0 <= k < |xs| && f(xs[k]) == Ok(y) {
        if y in Converted(xs, f) && y !in Converted(front, f) {
          assert c == Ok(y);
        }
        if exists k :: 0 <= k < |xs| && f(xs[k]) == Ok(y) {
          var k :| 0 <= k < |xs| && f(xs[k]) == Ok(y);
          if k < |front| {
            assert f(front[k]) == Ok(y);
          }
        }
      }
    }
  }

  /** Converting a list converts its two parts one after the other. */
  lemma {:induction false} ConvertedConcat<A, B>(a: seq<A>, b: seq<A>, f: A -> Result<B>)
    ensures Converted(a + b, f) == Converted(a, f) + Converted(b, f)
    decreases |b|
  {
    if b != [] {
      var front := b[..|b| - 1];
      assert (a + b)[..|a + b| - 1] == a + front;
      ConvertedConcat(a, front, f);
    } else {
      assert a + b == a;
    }
  }

  lemma ConvertedCut<A, B>(xs: seq<A>, k: nat, f: A -> Result<B>)
    requires k <= |xs|
    ensures Converted(xs, f) == Converted(xs[..k], f) + Converted(xs[k..], f)
  {
    assert xs[..k] + xs[k..] == xs;
    ConvertedConcat(xs[..k], xs[k..], f);
  }

  /**
   * A calendar event is in the unified view exactly when it converts; nothing else is dropped.
   * The view of one event is its conversion or nothing, and the view of a list is the views of
   * its two halves, for every cut: events appear once each, in stored order.
   */
  lemma EventsUnifiedMembers(es: seq<CalendarEvent>)
    ensures forall u :: u in EventsUnified(es) <==> exists k :: 0 <= k < |es| && CalendarToUnified(es[k]) == Ok(u)
    ensures (forall k :: 0 <= k < |es| ==> CalendarToUnified(es[k]).Ok?) ==> |EventsUnified(es)| == |es|
    ensures forall e :: EventsUnified([e]) == if CalendarToUnified(e).Ok? then [CalendarToUnified(e).value] else []
    ensures forall k :: 0 <= k <= |es| ==> EventsUnified(es) == EventsUnified(es[..k]) + EventsUnified(es[k..])
  {
    ConvertedMembers(es, CalendarToUnified);
    forall e ensures EventsUnified([e]) == if CalendarToUnified(e).Ok? then [CalendarToUnified(e).value] else [] {
      assert [e][..0] == [];
    }
    forall k | 0 <= k <= |es| ensures EventsUnified(es) == EventsUnified(es[..k]) + EventsUnified(es[k..]) {
      ConvertedCut(es, k, CalendarToUnified);
    }
  }

  lemma SchedulesStep(rs: seq<ScheduleRecord>, i: nat)
    requires i < |rs|
    ensures SchedulesUnified(rs[..i + 1]) == SchedulesUnified(rs[..i]) + [ScheduleToUnified(rs[i])]
  {
    var p := rs[..i + 1];
    assert p[..|p| - 1] == rs[..i] && p[|p| - 1] == rs[i];
  }

  lemma EventsStep(es: seq<CalendarEvent>, i: nat)
    requires i < |es|
    ensures EventsUnified(es[..i + 1]) == EventsUnified(es[..i])
      + (if CalendarToUnified(es[i]).Ok? then [CalendarToUnified(es[i]).value] else [])
  {
    var p := es[..i + 1];
    assert p[..|p| - 1] == es[..i] && p[|p| - 1] == es[i];
  }

  lemma ApisStep(xs: seq<ApiRecord>, i: nat)
    requires i < |xs|
    ensures ApisUnified(xs[..i + 1]) == ApisUnified(xs[..i]) + [ApiToUnified(xs[i])]
  {
    var p := xs[..i + 1];
    assert p[..|p| - 1] == xs[..i] && p[|p| - 1] == xs[i];
  }

  // ----- filters for the fan-out remove -----

  /** The schedule and calendar ids are compared as `str(id)`, the API ids as they are. */
  function ScheduleIdDiffers(id: string): ScheduleRecord -> bool {
    (r: ScheduleRecord) => IntToString(r.id) != id
  }

  function EventIdDiffers(id: string): CalendarEvent -> bool {
    (e: CalendarEvent) => Calendar.IdText(e.id) != id
  }

  function ApiIdDiffers(id: string): ApiRecord -> bool {
    (a: ApiRecord) => a.id != id
  }

  /** The fan-out remove by "5" takes the calendar event with the number id 5, which `remove_calendar_event("5")` keeps. */
  lemma StringifiedRemoval(e: CalendarEvent)
    requires e.id == Calendar.IntId(5)
    ensures Keep([e], EventIdDiffers("5")) == []
    ensures Calendar.WithoutEvent([e], Calendar.StrId("5")) == [e]
  {
    assert Calendar.IdText(e.id) == "5";
  }

  // ----- the conflict pass -----

  /** The grouping key: date, time and description joined by '_', with no normalisation. */
  function Key(u: UnifiedAppointment): string {
    u.date + "_" + u.time + "_" + u.description
  }

  /** Case and surrounding blanks make keys differ. */
  lemma KeyNotNormalised(u: UnifiedAppointment)
    requires u.description == "Checkup"
    ensures Key(u) != Key(u.(description := "checkup"))
    ensures Key(u) != Key(u.(description := "Checkup "))
  {
    var a, b := Key(u), Key(u.(description := "checkup"));
    var n := |u.date| + 1 + |u.time| + 1;
    assert a[n] == 'C' && b[n] == 'c';
    assert |Key(u.(description := "Checkup "))| == |a| + 1;
  }

  /** On the canonical widths the key decides date, time and description. */
  lemma KeyInjectiveOnCanonical(u: UnifiedAppointment, v: UnifiedAppointment)
    requires |u.date| == |v.date| == 10 && |u.time| == |v.time| == 5 && Key(u) == Key(v)
    ensures u.date == v.date && u.time == v.time && u.description == v.description
  {
    assert u.date == Key(u)[..10] && v.date == Key(v)[..10];
    assert u.time == Key(u)[11..16] && v.time == Key(v)[11..16];
    assert u.description == Key(u)[17..] && v.description == Key(v)[17..];
  }

  /** Otherwise two different slots can share a key. */
  lemma KeyCollision(u: UnifiedAppointment)
    requires u.date == "d" && u.time == "t_x" && u.description == "y"
    ensures Key(u) == Key(u.(date := "d_t", time := "x")) && u.(date := "d_t", time := "x") != u
  {
  }

  /** The distinct keys in order of first appearance (the insertion order of the grouping dict). */
  function KeysOf(us: seq<UnifiedAppointment>): seq<string> {
    if us == [] then []
    else
      var ks := KeysOf(us[..|us| - 1]);
      if Key(us[|us| - 1]) in ks then ks else ks + [Key(us[|us| - 1])]
  }

  /** The keys are listed once each, and they are exactly the keys of the appointments. */
  lemma {:induction false} KeysOfMembers(us: seq<UnifiedAppointment>)
    ensures forall i, j :: 0 <= i < j < |KeysOf(us)| ==> KeysOf(us)[i] != KeysOf(us)[j]
    ensures forall k :: k in KeysOf(us) <==> exists u :: u in us && Key(u) == k
  {
    if us != [] {
      var front := us[..|us| - 1];
      var last := us[|us| - 1];
      assert us == front + [last];
      KeysOfMembers(front);
    }
  }

  lemma KeysStep(us: seq<UnifiedAppointment>, i: nat)
    requires i < |us|
    ensures KeysOf(us[..i + 1]) ==
      if Key(us[i]) in KeysOf(us[..i]) then KeysOf(us[..i]) else KeysOf(us[..i]) + [Key(us[i])]
  {
    var q := us[..i + 1];
    assert q[..|q| - 1] == us[..i] && q[|q| - 1] == us[i];
  }

  /** The position of the first appointment with this key, or `|us|` when none has it. */
  function FirstAt(us: seq<UnifiedAppointment>, key: string): (p: nat)
    ensures p <= |us|
    ensures p < |us| ==> Key(us[p]) == key
    ensures forall q :: 0 <= q < p ==> Key(us[q]) != key
  {
    if us == [] then 0
    else if Key(us[0]) == key then 0
    else 1 + FirstAt(us[1..], key)
  }

  /** A key already seen in a prefix is first seen where it was first seen in the prefix. */
  lemma FirstAtExtend(us: seq<UnifiedAppointment>, n: nat, key: string)
    requires n <= |us| && FirstAt(us[..n], key) < n
    ensures FirstAt(us, key) == FirstAt(us[..n], key)
  {
    var p := FirstAt(us[..n], key);
    assert us[..n][p] == us[p];
    assert forall q :: 0 <= q < p ==> us[..n][q] == us[q];
  }

  /** The dict lists the keys in the order in which they are first seen in the unified view. */
  lemma {:induction false} KeysFirstSeen(us: seq<UnifiedAppointment>)
    ensures forall i :: 0 <= i < |KeysOf(us)| ==> FirstAt(us, KeysOf(us)[i]) < |us|
    ensures forall i, j :: 0 <= i < j < |KeysOf(us)| ==> FirstAt(us, KeysOf(us)[i]) < FirstAt(us, KeysOf(us)[j])
  {
    if us != [] {
      var n := |us| - 1;
      var front, last := us[..n], us[n];
      assert us == front + [last];
      KeysFirstSeen(front);
      KeysOfMembers(front);
      var ks := KeysOf(front);
      forall i | 0 <= i < |ks| ensures FirstAt(us, ks[i]) == FirstAt(front, ks[i]) {
        FirstAtExtend(us, n, ks[i]);
      }
      if Key(last) !in ks {
        var k := Key(last);
        assert forall q :: 0 <= q < n ==> Key(front[q]) != k by {
          forall q | 0 <= q < n ensures Key(front[q]) != k {
            assert front[q] in front;
          }
        }
        assert forall q :: 0 <= q < n ==> Key(us[q]) != k by {
          forall q | 0 <= q < n ensures Key(us[q]) != k {
            assert us[q] == front[q];
          }
        }
        assert FirstAt(us, k) == n;
        assert KeysOf(us) == ks + [k];
      }
    }
  }

  function HasKey(key: string): UnifiedAppointment -> bool {
    (u: UnifiedAppointment) => Key(u) == key
  }

  /** The appointments grouped under one key, in order. */
  function GroupOf(us: seq<UnifiedAppointment>, key: string): seq<UnifiedAppointment> {
    Keep(us, HasKey(key))
  }

  lemma GroupStep(us: seq<UnifiedAppointment>, i: nat, key: string)
    requires i < |us|
    ensures GroupOf(us[..i + 1], key) == GroupOf(us[..i], key) + (if Key(us[i]) == key then [us[i]] else [])
  {
    KeepStep(us, i, HasKey(key));
  }

  /** A key not seen yet has no group. */
  lemma GroupNew(us: seq<UnifiedAppointment>, i: nat, key: string)
    requires i <= |us| && key !in KeysOf(us[..i])
    ensures GroupOf(us[..i], key) == []
  {
    KeysOfMembers(us[..i]);
    assert forall k :: 0 <= k < i ==> us[..i][k] in us[..i];
    KeepNone(us[..i], HasKey(key));
  }

  datatype Conflict = Conflict(key: string, appointments: seq<UnifiedAppointment>)

  /** The groups with more than one member, for the keys in this order. */
  function ConflictsOf(us: seq<UnifiedAppointment>, keys: seq<string>): (r: seq<Conflict>)
    ensures forall c :: c in r <==> c.key in keys && c.appointments == GroupOf(us, c.key) && |c.appointments| > 1
  {
    if keys == [] then []
    else
      var front := keys[..|keys| - 1];
      var last := keys[|keys| - 1];
      assert keys == front + [last];
      var g := GroupOf(us, last);
      ConflictsOf(us, front) + (if |g| > 1 then [Conflict(last, g)] else [])
  }

  lemma ConflictsStep(us: seq<UnifiedAppointment>, keys: seq<string>, j: nat)
    requires j < |keys|
    ensures ConflictsOf(us, keys[..j + 1]) == ConflictsOf(us, keys[..j])
      + (if |GroupOf(us, keys[j])| > 1 then [Conflict(keys[j], GroupOf(us, keys[j]))] else [])
  {
    var q := keys[..j + 1];
    assert q[..|q| - 1] == keys[..j] && q[|q| - 1] == keys[j];
  }

  /** `x` is listed at an earlier position of `keys` than `y`. */
  predicate ListedBefore(keys: seq<string>, x: string, y: string) {
    exists a, b :: 0 <= a < b < |keys| && keys[a] == x && keys[b] == y
  }

  lemma ListedBeforeExtend(keys: seq<string>, x: string, y: string, last: string)
    requires ListedBefore(keys, x, y)
    ensures ListedBefore(keys + [last], x, y)
  {
    var a, b :| 0 <= a < b < |keys| && keys[a] == x && keys[b] == y;
    assert (keys + [last])[a] == x && (keys + [last])[b] == y;
  }

  lemma ListedBeforeLast(keys: seq<string>, x: string, last: string)
    requires x in keys
    ensures ListedBefore(keys + [last], x, last)
  {
    var a :| 0 <= a < |keys| && keys[a] == x;
    assert (keys + [last])[a] == x && (keys + [last])[|keys|] == last;
  }

  /** The conflicts follow the order of the keys they are listed for. */
  lemma {:induction false} ConflictsInKeyOrder(us: seq<UnifiedAppointment>, keys: seq<string>)
    ensures forall i, j :: 0 <= i < j < |ConflictsOf(us, keys)| ==>
      ListedBefore(keys, ConflictsOf(us, keys)[i].key, ConflictsOf(us, keys)[j].key)
  {
    if keys == [] {
      assert ConflictsOf(us, keys) == [];
    } else {
      var n := |keys| - 1;
      var front, last := keys[..n], keys[n];
      assert keys == front + [last];
      ConflictsInKeyOrder(us, front);
      var cf := ConflictsOf(us, front);
      var c := ConflictsOf(us, keys);
      var g := GroupOf(us, last);
      assert c == cf + (if |g| > 1 then [Conflict(last, g)] else []);
      forall i, j | 0 <= i < j < |c| ensures ListedBefore(keys, c[i].key, c[j].key) {
        assert c[i] == cf[i];
        if j < |cf| {
          assert c[j] == cf[j];
          ListedBeforeExtend(front, c[i].key, c[j].key, last);
        } else {
          assert cf[i] in cf;
          ListedBeforeLast(front, c[i].key, last);
        }
      }
    }
  }

  datatype SyncResult = SyncResult(totalUniqueAppointments: nat, conflicts: seq<Conflict>, syncStatus: string)

  /** `sync_all_systems` on a unified view. */
  function Sync(us: seq<UnifiedAppointment>): SyncResult {
    SyncResult(|KeysOf(us)|, ConflictsOf(us, KeysOf(us)), "completed")
  }

  /** A sequence without repetitions has as many elements as its set. */
  lemma {:induction false} DistinctCard(s: seq<string>)
    requires forall i, j :: 0 <= i < j < |s| ==> s[i] != s[j]
    ensures |set x | x in s| == |s|
  {
    if s != [] {
      var front := s[..|s| - 1];
      DistinctCard(front);
      assert s == front + [s[|s| - 1]];
      assert s[|s| - 1] !in front;
      assert (set x | x in s) == (set x | x in front) + {s[|s| - 1]};
    }
  }

  /**
   * The count is the number of distinct keys, and the conflicts are exactly the keys shared by two
   * or more appointments, each with its whole group, each key once, in the order the keys are first
   * seen in the unified view.
   */
  lemma SyncCounts(us: seq<UnifiedAppointment>)
    ensures Sync(us).totalUniqueAppointments == |set u | u in us :: Key(u)|
    ensures forall c :: c in Sync(us).conflicts <==>
      (exists u :: u in us && Key(u) == c.key) && c.appointments == GroupOf(us, c.key) && |c.appointments| >= 2
    ensures forall i, j :: 0 <= i < j < |Sync(us).conflicts| ==>
      FirstAt(us, Sync(us).conflicts[i].key) < FirstAt(us, Sync(us).conflicts[j].key)
  {
    var ks := KeysOf(us);
    KeysOfMembers(us);
    DistinctCard(ks);
    assert (set x | x in ks) == (set u | u in us :: Key(u));
    KeysFirstSeen(us);
    ConflictsInKeyOrder(us, ks);
    var c := ConflictsOf(us, ks);
    forall i, j | 0 <= i < j < |c| ensures FirstAt(us, c[i].key) < FirstAt(us, c[j].key) {
      assert ListedBefore(ks, c[i].key, c[j].key);
      var a, b :| 0 <= a < b < |ks| && ks[a] == c[i].key && ks[b] == c[j].key;
    }
  }

  // ----- the summary text -----

  function SummaryKey(u: UnifiedAppointment): string {
    u.date + " " + u.time
  }

  lemma StrLeOrder()
    ensures TotalPreorder(StrLe)
  {
    forall a, b ensures StrLe(a, b) || StrLe(b, a) {
      StrLeTotal(a, b);
    }
    forall a, b, c | StrLe(a, b) && StrLe(b, c) ensures StrLe(a, c) {
      StrLeTransitive(a, b, c);
    }
  }

  function SummaryLine(u: UnifiedAppointment): string {
    "- " + u.description + " on " + u.date + " at " + u.time + " (Source: " + u.source + ")\n"
  }

  function SummaryLines(us: seq<UnifiedAppointment>): seq<string>
    ensures |SummaryLines(us)| == |us|
  {
    if us == [] then [] else SummaryLines(us[..|us| - 1]) + [SummaryLine(us[|us| - 1])]
  }

  /** The appointments in the order the summary lists them. */
  function SummaryOrder(us: seq<UnifiedAppointment>): seq<UnifiedAppointment> {
    SortBy(us, SummaryKey, StrLe)
  }

  /** `get_unified_appointments_summary` on a unified view. */
  function Summary(us: seq<UnifiedAppointment>): string {
    if us == [] then "No appointments found across all systems."
    else
      "Found " + NatToString(|us|) + " appointments across all systems:\n\n" + Concat(SummaryLines(SummaryOrder(us)))
  }

  /**
   * The summary lists every appointment once, ordered by the text "date time"; appointments with
   * the same "date time" (the copies of one booking in several stores) keep their unified-view order.
   */
  lemma SummaryOrdered(us: seq<UnifiedAppointment>)
    ensures multiset(SummaryOrder(us)) == multiset(us)
    ensures SortedBy(SummaryOrder(us), SummaryKey, StrLe)
    ensures |SummaryLines(SummaryOrder(us))| == |us|
    ensures forall k :: KeyClass(SummaryOrder(us), SummaryKey, StrLe, k) == KeyClass(us, SummaryKey, StrLe, k)
  {
    StrLeOrder();
    SortBySorted(us, SummaryKey, StrLe);
    forall k ensures KeyClass(SummaryOrder(us), SummaryKey, StrLe, k) == KeyClass(us, SummaryKey, StrLe, k) {
      SortByStable(us, SummaryKey, StrLe, k);
    }
  }

  /** The export snapshot; `exportTimestamp` is the clock reading given. */
  datatype Export = Export(
    schedules: seq<ScheduleRecord>, calendarEvents: seq<CalendarEvent>, apiAppointments: seq<ApiRecord>,
    unifiedAppointments: seq<UnifiedAppointment>, exportTimestamp: string)

  /** The grouping loop of `sync_all_systems`: the dict from each key to its appointments, in first-seen order. */
  method GroupByKey(all: seq<UnifiedAppointment>) returns (keys: seq<string>, groups: map<string, seq<UnifiedAppointment>>)
    ensures keys == KeysOf(all)
    ensures forall k :: k in groups <==> k in keys
    ensures forall k :: k in groups ==> groups[k] == GroupOf(all, k)
  {
    keys := [];
    groups := map[];
    var i := 0;
    while i < |all|
      invariant 0 <= i <= |all|
      invariant keys == KeysOf(all[..i])
      invariant forall k :: k in groups <==> k in keys
      invariant forall k :: k in groups ==> groups[k] == GroupOf(all[..i], k)
    {
      var key := Key(all[i]);
      KeysStep(all, i);
      ghost var g0 := groups;
      if key !in groups {
        GroupNew(all, i, key);
        keys := keys + [key];
        groups := groups[key := [all[i]]];
      } else {
        groups := groups[key := groups[key] + [all[i]]];
      }
      forall k | k in groups ensures groups[k] == GroupOf(all[..i + 1], k) {
        GroupStep(all, i, k);
        if k != key {
          assert groups[k] == g0[k];
        }
      }
      i := i + 1;
    }
    assert all[..i] == all;
  }

  /** The conflict loop of `sync_all_systems`, over the keys in dict order. */
  method CollectConflicts(all: seq<UnifiedAppointment>, keys: seq<string>, groups: map<string, seq<UnifiedAppointment>>)
    returns (conflicts: seq<Conflict>)
    requires forall k :: k in keys ==> k in groups && groups[k] == GroupOf(all, k)
    ensures conflicts == ConflictsOf(all, keys)
  {
    conflicts := [];
    var j := 0;
    while j < |keys|
      invariant 0 <= j <= |keys|
      invariant conflicts == ConflictsOf(all, keys[..j])
    {
      ConflictsStep(all, keys, j);
      if |groups[keys[j]]| > 1 {
        conflicts := conflicts + [Conflict(keys[j], groups[keys[j]])];
      }
      j := j + 1;
    }
    assert keys[..j] == keys;
  }

  /** The manager over the three stores; it writes into the same store objects the other components use. */
  class DataIntegrationManager {
    const schedules: Scheduler.ScheduleStore
    const calendar: Calendar.CalendarIntegration
    const api: ApiServer.ApiStore

    constructor (s: Scheduler.ScheduleStore, c: Calendar.CalendarIntegration, a: ApiServer.ApiStore)
      ensures schedules == s && calendar == c && api == a
    {
      schedules := s;
      calendar := c;
      api := a;
    }

    /** `get_all_appointments`, the three conversion loops. */
    method GetAllAppointments() returns (all: seq<UnifiedAppointment>)
      ensures all == AllUnified(schedules.records, calendar.events, api.appointments)
    {
      var rs, es, xs := schedules.records, calendar.events, api.appointments;
      var s: seq<UnifiedAppointment> := [];
      var i := 0;
      while i < |rs|
        invariant 0 <= i <= |rs| && s == SchedulesUnified(rs[..i])
      {
        SchedulesStep(rs, i);
        s := s + [ScheduleToUnified(rs[i])];
        i := i + 1;
      }
      assert rs[..i] == rs;
      var c: seq<UnifiedAppointment> := [];
      i := 0;
      while i < |es|
        invariant 0 <= i <= |es| && c == EventsUnified(es[..i])
      {
        EventsStep(es, i);
        var u := CalendarToUnified(es[i]);
        if u.Ok? {
          c := c + [u.value];
        }
        i := i + 1;
      }
      assert es[..i] == es;
      var a: seq<UnifiedAppointment> := [];
      i := 0;
      while i < |xs|
        invariant 0 <= i <= |xs| && a == ApisUnified(xs[..i])
      {
        ApisStep(xs, i);
        a := a + [ApiToUnified(xs[i])];
        i := i + 1;
      }
      assert xs[..i] == xs;
      all := s + c + a;
    }

    /**
     * `add_appointment_to_all_systems`: the request gets the id "UNIFIED_<stamp>"; each store is
     * tried in turn, a failure in one leaving it unchanged and the next still tried.
     */
    method AddToAllSystems(request: ApiRecord, now: DateTime) returns (results: map<string, string>)
      requires ValidDateTime(now)
      modifies schedules, calendar, api
      ensures var data := request.(id := "UNIFIED_" + CompactStamp(now));
        && results.Keys == {"schedules", "calendar", "api"}
        && results["schedules"] == "success"
        && schedules.records == old(schedules.records) + [ToScheduleRecord(ApiToUnified(data), now)]
        && (match ToCalendarEvent(ApiToUnified(data), now)
            case Ok(e) => results["calendar"] == "success" && calendar.events == old(calendar.events) + [e]
            case Err(m) => results["calendar"] == "error: " + m && calendar.events == old(calendar.events))
        && results["api"] == "success"
        && api.appointments == old(api.appointments) + [data]
    {
      var data := request.(id := "UNIFIED_" + CompactStamp(now));
      results := map[];
      var rec := ToScheduleRecord(ApiToUnified(data), now);
      schedules.records := schedules.records + [rec];
      results := results["schedules" := "success"];
      var e := ToCalendarEvent(ApiToUnified(data), now);
      if e.Ok? {
        calendar.events := calendar.events + [e.value];
        results := results["calendar" := "success"];
      } else {
        results := results["calendar" := "error: " + e.error];
      }
      api.appointments := api.appointments + [data];
      results := results["api" := "success"];
    }

    /**
     * `remove_appointment_from_all_systems`: every record with the id goes; a store reports
     * "removed" when it lost one and is otherwise left as it was.
     */
    method RemoveFromAllSystems(id: string) returns (results: map<string, string>)
      modifies schedules, calendar, api
      ensures results.Keys == {"schedules", "calendar", "api"}
      ensures schedules.records == Keep(old(schedules.records), ScheduleIdDiffers(id))
      ensures results["schedules"] == (if |schedules.records| < |old(schedules.records)| then "removed" else "not_found")
      ensures results["schedules"] == "not_found" ==> schedules.records == old(schedules.records)
      ensures calendar.events == Keep(old(calendar.events), EventIdDiffers(id))
      ensures results["calendar"] == (if |calendar.events| < |old(calendar.events)| then "removed" else "not_found")
      ensures results["calendar"] == "not_found" ==> calendar.events == old(calendar.events)
      ensures api.appointments == Keep(old(api.appointments), ApiIdDiffers(id))
      ensures results["api"] == (if |api.appointments| < |old(api.appointments)| then "removed" else "not_found")
      ensures results["api"] == "not_found" ==> api.appointments == old(api.appointments)
    {
      var r1 := RemoveSchedules(id);
      var r2 := RemoveEvents(id);
      var r3 := RemoveApi(id);
      results := map["schedules" := r1, "calendar" := r2, "api" := r3];
    }

    method RemoveSchedules(id: string) returns (status: string)
      modifies schedules
      ensures schedules.records == Keep(old(schedules.records), ScheduleIdDiffers(id))
      ensures status == (if |schedules.records| < |old(schedules.records)| then "removed" else "not_found")
      ensures status == "not_found" ==> schedules.records == old(schedules.records)
    {
      var kept := Filter(schedules.records, ScheduleIdDiffers(id));
      if |kept| < |schedules.records| {
        schedules.records := kept;
        status := "removed";
      } else {
        KeepSame(schedules.records, ScheduleIdDiffers(id));
        status := "not_found";
      }
    }

    method RemoveEvents(id: string) returns (status: string)
      modifies calendar
      ensures calendar.events == Keep(old(calendar.events), EventIdDiffers(id))
      ensures status == (if |calendar.events| < |old(calendar.events)| then "removed" else "not_found")
      ensures status == "not_found" ==> calendar.events == old(calendar.events)
    {
      var kept := Filter(calendar.events, EventIdDiffers(id));
      if |kept| < |calendar.events| {
        calendar.events := kept;
        status := "removed";
      } else {
        KeepSame(calendar.events, EventIdDiffers(id));
        status := "not_found";
      }
    }

    method RemoveApi(id: string) returns (status: string)
      modifies api
      ensures api.appointments == Keep(old(api.appointments), ApiIdDiffers(id))
      ensures status == (if |api.appointments| < |old(api.appointments)| then "removed" else "not_found")
      ensures status == "not_found" ==> api.appointments == old(api.appointments)
    {
      var kept := Filter(api.appointments, ApiIdDiffers(id));
      if |kept| < |api.appointments| {
        api.appointments := kept;
        status := "removed";
      } else {
        KeepSame(api.appointments, ApiIdDiffers(id));
        status := "not_found";
      }
    }

    /** `sync_all_systems`: groups the unified view by key; it writes no store. */
    method SyncAllSystems() returns (r: SyncResult)
      ensures r == Sync(AllUnified(schedules.records, calendar.events, api.appointments))
    {
      var all := GetAllAppointments();
      var keys, groups := GroupByKey(all);
      var conflicts := CollectConflicts(all, keys, groups);
      r := SyncResult(|keys|, conflicts, "completed");
    }

    /** `get_unified_appointments_summary`. */
    method GetUnifiedSummary() returns (summary: string)
      ensures summary == Summary(AllUnified(schedules.records, calendar.events, api.appointments))
    {
      var all := GetAllAppointments();
      if all == [] {
        return "No appointments found across all systems.";
      }
      var sorted := SummaryOrder(all);
      var header := "Found " + NatToString(|all|) + " appointments across all systems:\n\n";
      var body := "";
      var i := 0;
      while i < |sorted|
        invariant 0 <= i <= |sorted| && body == Concat(SummaryLines(sorted[..i]))
      {
        var q := sorted[..i + 1];
        assert q[..|q| - 1] == sorted[..i] && q[|q| - 1] == sorted[i];
        ConcatSnoc(SummaryLines(sorted[..i]), SummaryLine(sorted[i]));
        body := body + SummaryLine(sorted[i]);
        i := i + 1;
      }
      assert sorted[..i] == sorted;
      summary := header + body;
    }

    /** `export_all_data`: a snapshot of the three stores and their unified view; nothing is written. */
    method ExportAllData(now: DateTime) returns (r: Export)
      requires ValidDateTime(now)
      ensures r == Export(schedules.records, calendar.events, api.appointments,
                          AllUnified(schedules.records, calendar.events, api.appointments), IsoFormat(now))
    {
      var all := GetAllAppointments();
      r := Export(schedules.records, calendar.events, api.appointments, all, IsoFormat(now));
    }
  }

  /** The id the fan-out add assigns is not a digit string, so both numbered copies get id 1. */
  lemma UnifiedIdNotCopied(request: ApiRecord, now: DateTime)
    requires ValidDateTime(now)
    ensures var data := request.(id := "UNIFIED_" + CompactStamp(now));
      ToScheduleRecord(ApiToUnified(data), now).id == 1
      && (ToCalendarEvent(ApiToUnified(data), now).Ok? ==> ToCalendarEvent(ApiToUnified(data), now).value.id == Calendar.IntId(1))
  {
    var id := "UNIFIED_" + CompactStamp(now);
    assert !IsDigit(id[0]);
  }

  /** The fan-out add skips the slot check of the booking endpoint: it can store a second booking of a slot. */
  lemma AddToAllBreaksDistinctSlots(store: seq<ApiRecord>, request: ApiRecord, now: DateTime)
    requires ValidDateTime(now) && ApiServer.SlotTaken(store, request.date, request.time)
    ensures !ApiServer.DistinctSlots(store + [request.(id := "UNIFIED_" + CompactStamp(now))])
  {
    var k :| 0 <= k < |store| && store[k].date == request.date && store[k].time == request.time;
    var s := store + [request.(id := "UNIFIED_" + CompactStamp(now))];
    assert s[k] == store[k] && s[|store|].date == request.date && s[|store|].time == request.time;
  }
}
