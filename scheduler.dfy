/**
 * The local schedule store (data/schedules.json): records with integer ids allocated as max + 1,
 * adding with date/time validation, searching, cancelling and the spoken listing.
 */
module Scheduler {
  import opened Wrappers
  import opened Filters
  import opened Text
  import opened Chrono
  import opened Strptime
  import opened IsoParse
  import opened Sorting
  import opened DateFilter

  datatype ScheduleRecord = ScheduleRecord(id: int, date: string, time: string, description: string, timestamp: string)

  // ----- ids -----

  function MaxId(rs: seq<ScheduleRecord>): (m: int)
    requires rs != []
    ensures forall k :: 0 <= k < |rs| ==> rs[k].id <= m
    ensures exists k :: 0 <= k < |rs| && rs[k].id == m
  {
    if |rs| == 1 then rs[0].id
    else
      var rest := MaxId(rs[1..]);
      assert forall k :: 1 <= k < |rs| ==> rs[k] == rs[1..][k - 1];
      if rs[0].id >= rest then rs[0].id else rest
  }

  /** `_get_next_id`: 1 for an empty store, otherwise one more than the largest id. */
  function NextId(rs: seq<ScheduleRecord>): (n: int)
    ensures rs == [] ==> n == 1
    ensures forall k :: 0 <= k < |rs| ==> rs[k].id < n
    ensures rs != [] ==> exists k :: 0 <= k < |rs| && rs[k].id == n - 1
  {
    if rs == [] then 1 else MaxId(rs) + 1
  }

  predicate UniqueIds(rs: seq<ScheduleRecord>) {
    forall i, j :: 0 <= i < j < |rs| ==> rs[i].id != rs[j].id
  }

  /** A record given the next id keeps the ids unique. */
  lemma NextIdKeepsUnique(rs: seq<ScheduleRecord>, rec: ScheduleRecord)
    requires UniqueIds(rs) && rec.id == NextId(rs)
    ensures UniqueIds(rs + [rec])
  {
    var rs' := rs + [rec];
    forall i, j | 0 <= i < j < |rs'| ensures rs'[i].id != rs'[j].id {
      if j == |rs| {
        assert rs'[i] == rs[i];
      } else {
        assert rs'[i] == rs[i] && rs'[j] == rs[j];
      }
    }
  }

  // ----- searching -----

  /** The `query_date` argument: absent, a string (matched as a substring) or a `datetime` (matched by day). */
  datatype DateQuery = NoDate | DateText(text: string) | DateValue(day: Date)

  predicate DateMatches(rec: ScheduleRecord, q: DateQuery) {
    match q
    case NoDate => true
    case DateText(t) => t == "" || (ParseDate(rec.date).Some? && Contains(rec.date, t))
    case DateValue(d) => ParseDate(rec.date) == Some(d)
  }

  predicate DescriptionMatches(rec: ScheduleRecord, q: Option<string>, fuzzy: bool) {
    !Present(q)
    || (fuzzy && Contains(Lower(rec.description), Lower(q.value)))
    || (!fuzzy && Lower(q.value) == Lower(rec.description))
  }

  predicate Matches(rec: ScheduleRecord, qd: DateQuery, qs: Option<string>, fuzzy: bool) {
    DateMatches(rec, qd) && DescriptionMatches(rec, qs, fuzzy)
  }

  /** The records a search keeps, in store order. */
  function Matching(rs: seq<ScheduleRecord>, qd: DateQuery, qs: Option<string>, fuzzy: bool): (r: seq<ScheduleRecord>)
    ensures |r| <= |rs|
  {
    if rs == [] then []
    else
      var last := rs[|rs| - 1];
      Matching(rs[..|rs| - 1], qd, qs, fuzzy) + (if Matches(last, qd, qs, fuzzy) then [last] else [])
  }

  lemma MatchingStep(rs: seq<ScheduleRecord>, i: nat, qd: DateQuery, qs: Option<string>, fuzzy: bool)
    requires i < |rs|
    ensures Matching(rs[..i + 1], qd, qs, fuzzy) ==
      Matching(rs[..i], qd, qs, fuzzy) + (if Matches(rs[i], qd, qs, fuzzy) then [rs[i]] else [])
  {
    assert rs[..i + 1][..i] == rs[..i];
  }

  /** A search keeps each matching record as often as the store holds it, and no other record. */
  lemma {:induction false} MatchingCounts(rs: seq<ScheduleRecord>, qd: DateQuery, qs: Option<string>, fuzzy: bool)
    ensures forall x :: x in Matching(rs, qd, qs, fuzzy) <==> x in rs && Matches(x, qd, qs, fuzzy)
    ensures forall x :: multiset(Matching(rs, qd, qs, fuzzy))[x] == if Matches(x, qd, qs, fuzzy) then multiset(rs)[x] else 0
  {
    if rs != [] {
      var front, last := rs[..|rs| - 1], rs[|rs| - 1];
      MatchingCounts(front, qd, qs, fuzzy);
      assert rs == front + [last];
      assert multiset(rs) == multiset(front) + multiset{last};
      var tail := if Matches(last, qd, qs, fuzzy) then [last] else [];
      assert Matching(rs, qd, qs, fuzzy) == Matching(front, qd, qs, fuzzy) + tail;
      assert multiset(Matching(rs, qd, qs, fuzzy)) == multiset(Matching(front, qd, qs, fuzzy)) + multiset(tail);
    }
  }

  /** The value `fromisoformat(timestamp)` sorts by; only consulted when every timestamp parses. */
  function StampKey(rec: ScheduleRecord): int {
    match ParseIso(rec.timestamp)
    case Some(st) => Instant(st)
    case None => 0
  }

  predicate TimestampsParse(rs: seq<ScheduleRecord>) {
    forall k :: 0 <= k < |rs| ==> ParseIso(rs[k].timestamp).Some?
  }

  predicate Aware(rec: ScheduleRecord) {
    ParseIso(rec.timestamp).Some? && ParseIso(rec.timestamp).value.offset.Some?
  }

  /** Both a naive and an aware timestamp occur, so the sort must compare the two. */
  predicate MixedAwareness(rs: seq<ScheduleRecord>) {
    exists i, j :: 0 <= i < |rs| && 0 <= j < |rs| && Aware(rs[i]) && !Aware(rs[j])
  }

  function IntLe(a: int, b: int): bool { a <= b }

  /** `rs.sort(key=lambda x: datetime.fromisoformat(x['timestamp']))`. */
  function SortByTimestamp(rs: seq<ScheduleRecord>): (r: Result<seq<ScheduleRecord>>)
    ensures r.Ok? <==> TimestampsParse(rs) && !MixedAwareness(rs)
    ensures r.Ok? ==> multiset(r.value) == multiset(rs)
  {
    if !TimestampsParse(rs) then Err("Invalid isoformat string")
    else if MixedAwareness(rs) then Err("can't compare offset-naive and offset-aware datetimes")
    else Ok(SortBy(rs, StampKey, IntLe))
  }

  /** `find_appointments` on a store holding `rs`. */
  function Find(rs: seq<ScheduleRecord>, qd: DateQuery, qs: Option<string>, fuzzy: bool): Result<seq<ScheduleRecord>> {
    SortByTimestamp(Matching(rs, qd, qs, fuzzy))
  }

  lemma IntLeTotal()
    ensures TotalPreorder(IntLe)
  {
  }

  /** A search returns exactly the matching records, each once per occurrence, ordered by timestamp. */
  lemma FindExact(rs: seq<ScheduleRecord>, qd: DateQuery, qs: Option<string>, fuzzy: bool)
    requires Find(rs, qd, qs, fuzzy).Ok?
    ensures var r := Find(rs, qd, qs, fuzzy).value;
      && multiset(r) == multiset(Matching(rs, qd, qs, fuzzy))
      && (forall x :: x in r <==> x in rs && Matches(x, qd, qs, fuzzy))
      && SortedBy(r, StampKey, IntLe)
  {
    var m := Matching(rs, qd, qs, fuzzy);
    var r := Find(rs, qd, qs, fuzzy).value;
    MatchingCounts(rs, qd, qs, fuzzy);
    forall x ensures x in r <==> x in m {
      assert x in r <==> x in multiset(r);
      assert x in m <==> x in multiset(m);
    }
    IntLeTotal();
    SortBySorted(m, StampKey, IntLe);
  }

  /** With no criteria every record is returned. */
  lemma {:induction false} NoCriteriaMatchesAll(rs: seq<ScheduleRecord>, fuzzy: bool)
    ensures Matching(rs, NoDate, None, fuzzy) == rs
  {
    if rs != [] {
      NoCriteriaMatchesAll(rs[..|rs| - 1], fuzzy);
      assert rs == rs[..|rs| - 1] + [rs[|rs| - 1]];
    }
  }

  /** A stored date that fails `%Y-%m-%d` never matches a non-empty date query. */
  lemma UnparsableDateNeverMatches(rec: ScheduleRecord, qd: DateQuery, qs: Option<string>, fuzzy: bool)
    requires ParseDate(rec.date).None?
    requires qd.DateValue? || (qd.DateText? && qd.text != "")
    ensures !Matches(rec, qd, qs, fuzzy)
  {
  }

  /** Fuzzy matching is a case-insensitive substring test, so an exact match is also a fuzzy one. */
  lemma ExactImpliesFuzzy(rec: ScheduleRecord, qd: DateQuery, qs: Option<string>)
    requires Matches(rec, qd, qs, false)
    ensures Matches(rec, qd, qs, true)
  {
    if Present(qs) {
      assert OccursAt(Lower(rec.description), Lower(qs.value), 0);
      ContainsAt(Lower(rec.description), Lower(qs.value), 0);
    }
  }

  // ----- cancelling -----

  datatype CancelOutcome = CancelledById | Cancelled(record: ScheduleRecord) | NotCancelled

  /** The store without the records carrying `id`, in their order. */
  function WithoutId(rs: seq<ScheduleRecord>, id: int): (r: seq<ScheduleRecord>)
    ensures |r| <= |rs|
  {
    if rs == [] then []
    else
      var last := rs[|rs| - 1];
      var front := rs[..|rs| - 1];
      WithoutId(front, id) + (if last.id != id then [last] else [])
  }

  /** The records `cancel_appointment` keeps: those with another id. */
  function OtherId(id: int): ScheduleRecord -> bool {
    (x: ScheduleRecord) => x.id != id
  }

  /** `WithoutId` is the generic filter with `OtherId`. */
  lemma {:induction false} WithoutIdIsKeep(rs: seq<ScheduleRecord>, id: int)
    ensures WithoutId(rs, id) == Keep(rs, OtherId(id))
  {
    if rs != [] {
      WithoutIdIsKeep(rs[..|rs| - 1], id);
    }
  }

  /**
   * The survivors are exactly the records with another id, each as often as it is stored,
   * in store order (the filter of a list is the filter of its two halves, for every cut);
   * some record goes iff one had the id.
   */
  lemma WithoutIdMembers(rs: seq<ScheduleRecord>, id: int)
    ensures forall x :: x in WithoutId(rs, id) <==> x in rs && x.id != id
    ensures forall x :: multiset(WithoutId(rs, id))[x] == if x.id != id then multiset(rs)[x] else 0
    ensures forall k :: 0 <= k <= |rs| ==> WithoutId(rs, id) == WithoutId(rs[..k], id) + WithoutId(rs[k..], id)
    ensures |WithoutId(rs, id)| < |rs| <==> exists k :: 0 <= k < |rs| && rs[k].id == id
  {
    WithoutIdIsKeep(rs, id);
    KeepMembers(rs, OtherId(id));
    forall k | 0 <= k <= |rs|
      ensures WithoutId(rs, id) == WithoutId(rs[..k], id) + WithoutId(rs[k..], id)
    {
      WithoutIdIsKeep(rs[..k], id);
      WithoutIdIsKeep(rs[k..], id);
    }
  }

  lemma WithoutIdStep(rs: seq<ScheduleRecord>, i: nat, id: int)
    requires i < |rs|
    ensures WithoutId(rs[..i + 1], id) == WithoutId(rs[..i], id) + (if rs[i].id != id then [rs[i]] else [])
  {
    assert rs[..i + 1][..i] == rs[..i];
  }

  /** The list comprehension of `cancel_appointment`, as the loop that builds it. */
  method KeepOtherIds(rs: seq<ScheduleRecord>, id: int) returns (kept: seq<ScheduleRecord>)
    ensures kept == WithoutId(rs, id)
  {
    kept := [];
    var i := 0;
    while i < |rs|
      invariant 0 <= i <= |rs|
      invariant kept == WithoutId(rs[..i], id)
    {
      WithoutIdStep(rs, i, id);
      if rs[i].id != id {
        kept := kept + [rs[i]];
      }
      i := i + 1;
    }
    assert rs[..i] == rs;
  }

  predicate CancelMatch(rec: ScheduleRecord, description: string, date: string) {
    Lower(rec.description) == Lower(description) && rec.date == date
  }

  /** Position of the first record with this description (any case) on this date. */
  function FirstMatch(rs: seq<ScheduleRecord>, description: string, date: string): (r: Option<nat>)
    ensures r.Some? ==> r.value < |rs| && CancelMatch(rs[r.value], description, date)
    ensures r.Some? ==> forall j :: 0 <= j < r.value ==> !CancelMatch(rs[j], description, date)
    ensures r.None? ==> forall j :: 0 <= j < |rs| ==> !CancelMatch(rs[j], description, date)
  {
    if rs == [] then None
    else if CancelMatch(rs[0], description, date) then Some(0)
    else
      match FirstMatch(rs[1..], description, date)
      case None => None
      case Some(k) => Some(k + 1)
  }

  class ScheduleStore {
    var records: seq<ScheduleRecord>

    /** A store over the list read from the file (an absent or empty file reads as the empty list). */
    constructor (initial: seq<ScheduleRecord>)
      ensures records == initial
    {
      records := initial;
    }

    /** `add_appointment`: validates "%Y-%m-%d %H:%M" and appends one record with the next id. */
    method AddAppointment(date: string, time: string, description: string) returns (r: Option<ScheduleRecord>)
      modifies this
      ensures ParseDateTime(date + " " + time).None? ==> r.None? && records == old(records)
      ensures ParseDateTime(date + " " + time).Some? ==>
        && r == Some(ScheduleRecord(NextId(old(records)), date, time, description,
                                    IsoFormat(ParseDateTime(date + " " + time).value)))
        && records == old(records) + [r.value]
      ensures UniqueIds(old(records)) ==> UniqueIds(records)
    {
      var parsed := ParseDateTime(date + " " + time);
      if parsed.None? {
        return None;
      }
      var rec := ScheduleRecord(NextId(records), date, time, description, IsoFormat(parsed.value));
      if UniqueIds(records) {
        NextIdKeepsUnique(records, rec);
      }
      records := records + [rec];
      r := Some(rec);
    }

    /** `find_appointments`: the matching records sorted by timestamp; `Err` when the sort raises. */
    method FindAppointments(qd: DateQuery, qs: Option<string>, fuzzy: bool) returns (r: Result<seq<ScheduleRecord>>)
      ensures r == Find(records, qd, qs, fuzzy)
    {
      var rs := records;
      var found: seq<ScheduleRecord> := [];
      var i := 0;
      while i < |rs|
        invariant 0 <= i <= |rs|
        invariant found == Matching(rs[..i], qd, qs, fuzzy)
      {
        MatchingStep(rs, i, qd, qs, fuzzy);
        if Matches(rs[i], qd, qs, fuzzy) {
          found := found + [rs[i]];
        }
        i := i + 1;
      }
      assert rs[..i] == rs;
      r := SortByTimestamp(found);
    }

    /**
     * `cancel_appointment`: by a non-zero id every record with that id goes; otherwise by a non-empty
     * description and date the first match goes and is returned; otherwise nothing happens.
     */
    method CancelAppointment(id: Option<int>, description: Option<string>, date: Option<string>) returns (r: CancelOutcome)
      modifies this
      ensures id.Some? && id.value != 0 ==>
        && records == WithoutId(old(records), id.value)
        && (r == CancelledById <==> |records| < |old(records)|)
        && (r != CancelledById ==> r == NotCancelled && records == old(records))
      ensures !(id.Some? && id.value != 0) && Present(description) && Present(date) ==>
        match FirstMatch(old(records), description.value, date.value)
        case Some(k) => r == Cancelled(old(records)[k]) && records == old(records)[..k] + old(records)[k + 1..]
        case None => r == NotCancelled && records == old(records)
      ensures !(id.Some? && id.value != 0) && !(Present(description) && Present(date)) ==>
        r == NotCancelled && records == old(records)
    {
      if id.Some? && id.value != 0 {
        var kept := KeepOtherIds(records, id.value);
        if |kept| < |records| {
          records := kept;
          r := CancelledById;
        } else {
          WithoutIdMembers(records, id.value);
          WithoutIdAll(records, id.value);
          r := NotCancelled;
        }
      } else if Present(description) && Present(date) {
        var k := FirstMatch(records, description.value, date.value);
        if k.Some? {
          r := Cancelled(records[k.value]);
          records := records[..k.value] + records[k.value + 1..];
        } else {
          r := NotCancelled;
        }
      } else {
        r := NotCancelled;
      }
    }

    /** `list_appointments(date_filter)` with `now` given: the spoken summary, or `Err` where it raises. */
    method ListAppointments(dateFilter: Option<string>, now: DateTime) returns (r: Result<string>)
      requires ValidClock(now)
      ensures r == Listing(records, dateFilter, now)
    {
      var filtered :- InWindow(records, dateFilter, now);
      if filtered == [] {
        return Ok(EmptyListing(dateFilter));
      }
      var sorted :- SortByDateTime(filtered);
      var summary := SummaryLines(sorted, now);
      r := Ok(ListingHeader(dateFilter) + Join(summary, "\n"));
    }
  }

  /** When nothing carries the id, filtering it out leaves the store as it was. */
  lemma {:induction false} WithoutIdAll(rs: seq<ScheduleRecord>, id: int)
    requires forall k :: 0 <= k < |rs| ==> rs[k].id != id
    ensures WithoutId(rs, id) == rs
  {
    if rs != [] {
      WithoutIdAll(rs[..|rs| - 1], id);
      assert rs == rs[..|rs| - 1] + [rs[|rs| - 1]];
    }
  }

  /** Cancelling by id keeps the remaining ids unique. */
  lemma {:induction false} WithoutIdKeepsUnique(rs: seq<ScheduleRecord>, id: int)
    requires UniqueIds(rs)
    ensures UniqueIds(WithoutId(rs, id))
    ensures forall k :: 0 <= k < |WithoutId(rs, id)| ==> WithoutId(rs, id)[k].id != id
  {
    if rs != [] {
      var front := rs[..|rs| - 1];
      var last := rs[|rs| - 1];
      assert UniqueIds(front) by {
        forall i, j | 0 <= i < j < |front| ensures front[i].id != front[j].id {
          assert front[i] == rs[i] && front[j] == rs[j];
        }
      }
      WithoutIdKeepsUnique(front, id);
      var kept := WithoutId(front, id);
      var r := WithoutId(rs, id);
      assert r == kept + (if last.id != id then [last] else []);
      forall k | 0 <= k < |kept| ensures kept[k].id != last.id {
        WithoutIdIsKeep(front, id);
        KeepIn(front, OtherId(id));
        assert kept[k] in front;
        var j :| 0 <= j < |front| && front[j] == kept[k];
        assert rs[j] == front[j];
      }
    }
  }

  // ----- listing -----

  /** Whether a record's date parses and lies in the filter's window. */
  function RecordInWindow(f: Option<string>, now: DateTime): ScheduleRecord -> bool
    requires ValidClock(now)
  {
    (x: ScheduleRecord) => ParseDate(x.date).Some? && DayInWindow(ParseDate(x.date).value, f, now)
  }

  /** The records a filter keeps, in store order; with a recognised filter every stored date must parse. */
  function InWindow(rs: seq<ScheduleRecord>, f: Option<string>, now: DateTime): (r: Result<seq<ScheduleRecord>>)
    requires ValidClock(now)
    ensures !Recognised(f) ==> r == Ok(rs)
    ensures r.Ok? && Recognised(f) ==> forall x :: x in r.value <==>
      x in rs && ParseDate(x.date).Some? && DayInWindow(ParseDate(x.date).value, f, now)
    ensures Recognised(f) ==> (r.Err? <==> exists k :: 0 <= k < |rs| && ParseDate(rs[k].date).None?)
    ensures r.Ok? && Recognised(f) ==> r.value == Keep(rs, RecordInWindow(f, now))
  {
    if !Recognised(f) then Ok(rs)
    else if rs == [] then Ok([])
    else
      var last := rs[|rs| - 1];
      var front := rs[..|rs| - 1];
      assert rs == front + [last];
      assert forall k :: 0 <= k < |front| ==> front[k] == rs[k];
      var kept :- InWindow(front, f, now);
      var d :- ParseDate(last.date).ToResult("time data does not match format '%Y-%m-%d'");
      Ok(kept + (if DayInWindow(d, f, now) then [last] else []))
  }

  /** A recognised filter keeps each record in its window exactly as often as it is stored. */
  lemma InWindowCounts(rs: seq<ScheduleRecord>, f: Option<string>, now: DateTime)
    requires ValidClock(now) && Recognised(f) && InWindow(rs, f, now).Ok?
    ensures forall x :: multiset(InWindow(rs, f, now).value)[x] ==
                        if ParseDate(x.date).Some? && DayInWindow(ParseDate(x.date).value, f, now)
                        then multiset(rs)[x] else 0
  {
    KeepMembers(rs, RecordInWindow(f, now));
  }

  function DateTimeKey(rec: ScheduleRecord): int {
    match ParseDateTime(rec.date + " " + rec.time)
    case Some(t) => MinuteStamp(t)
    case None => 0
  }

  predicate DateTimesParse(rs: seq<ScheduleRecord>) {
    forall k :: 0 <= k < |rs| ==> ParseDateTime(rs[k].date + " " + rs[k].time).Some?
  }

  /** `rs.sort(key=lambda x: datetime.strptime(f"{x['date']} {x['time']}", "%Y-%m-%d %H:%M"))`. */
  function SortByDateTime(rs: seq<ScheduleRecord>): (r: Result<seq<ScheduleRecord>>)
    ensures r.Ok? <==> DateTimesParse(rs)
    ensures r.Ok? ==> multiset(r.value) == multiset(rs) && DateTimesParse(r.value)
  {
    if !DateTimesParse(rs) then Err("time data does not match format '%Y-%m-%d %H:%M'")
    else
      var s := SortBy(rs, DateTimeKey, IntLe);
      assert forall k :: 0 <= k < |s| ==> s[k] in multiset(rs);
      Ok(s)
  }

  function DateDisplay(d: Date, now: DateTime): string
    requires ValidDate(d) && ValidClock(now)
  {
    if d == now.date then "today" else if d == Tomorrow(now) then "tomorrow" else LongDate(d)
  }

  function Line(rec: ScheduleRecord, at: DateTime, now: DateTime): string
    requires ValidDate(at.date) && ValidClock(now)
  {
    "- ID " + IntToString(rec.id) + ": '" + rec.description + "' on " + DateDisplay(at.date, now) + " at " + rec.time + "."
  }

  function Lines(rs: seq<ScheduleRecord>, now: DateTime): (r: seq<string>)
    requires DateTimesParse(rs) && ValidClock(now)
    ensures |r| == |rs|
  {
    if rs == [] then []
    else
      var last := rs[|rs| - 1];
      var front := rs[..|rs| - 1];
      assert forall k :: 0 <= k < |front| ==> front[k] == rs[k];
      Lines(front, now) + [Line(last, ParseDateTime(last.date + " " + last.time).value, now)]
  }

  /** The loop of `list_appointments` that formats one line per sorted record. */
  method SummaryLines(rs: seq<ScheduleRecord>, now: DateTime) returns (summary: seq<string>)
    requires DateTimesParse(rs) && ValidClock(now)
    ensures summary == Lines(rs, now)
  {
    summary := [];
    var i := 0;
    while i < |rs|
      invariant 0 <= i <= |rs|
      invariant summary == Lines(rs[..i], now)
    {
      LinesStep(rs, i, now);
      var dt := ParseDateTime(rs[i].date + " " + rs[i].time);
      summary := summary + [Line(rs[i], dt.value, now)];
      i := i + 1;
    }
    assert rs[..i] == rs;
  }

  lemma LinesStep(rs: seq<ScheduleRecord>, i: nat, now: DateTime)
    requires DateTimesParse(rs) && ValidClock(now) && i < |rs|
    ensures DateTimesParse(rs[..i]) && DateTimesParse(rs[..i + 1])
    ensures Lines(rs[..i + 1], now) ==
      Lines(rs[..i], now) + [Line(rs[i], ParseDateTime(rs[i].date + " " + rs[i].time).value, now)]
  {
    assert rs[..i + 1][..i] == rs[..i];
  }

  function EmptyListing(f: Option<string>): string {
    if Present(f) then "You have no appointments scheduled." else "You have no upcoming appointments."
  }

  function ListingHeader(f: Option<string>): string {
    if IsFilter(f, "today") then "Here are your appointments for today:\n"
    else if IsFilter(f, "tomorrow") then "Here are your appointments for tomorrow:\n"
    else if IsFilter(f, "week") then "Here are your appointments for the coming week:\n"
    else if IsFilter(f, "month") then "Here are your appointments for this month:\n"
    else "Here are all your scheduled appointments:\n"
  }

  /** The records a listing shows, in the order it shows them. */
  function Listed(rs: seq<ScheduleRecord>, f: Option<string>, now: DateTime): Result<seq<ScheduleRecord>>
    requires ValidClock(now)
  {
    var filtered :- InWindow(rs, f, now);
    SortByDateTime(filtered)
  }

  /** The text `list_appointments` returns. */
  function Listing(rs: seq<ScheduleRecord>, f: Option<string>, now: DateTime): Result<string>
    requires ValidClock(now)
  {
    var filtered :- InWindow(rs, f, now);
    if filtered == [] then Ok(EmptyListing(f))
    else
      var sorted :- SortByDateTime(filtered);
      Ok(ListingHeader(f) + Join(Lines(sorted, now), "\n"))
  }

  /** The listing is ordered by date and time, and shows each kept record once per occurrence. */
  lemma ListedOrdered(rs: seq<ScheduleRecord>, f: Option<string>, now: DateTime)
    requires ValidClock(now) && Listed(rs, f, now).Ok?
    ensures SortedBy(Listed(rs, f, now).value, DateTimeKey, IntLe)
    ensures multiset(Listed(rs, f, now).value) == multiset(InWindow(rs, f, now).value)
  {
    IntLeTotal();
    SortBySorted(InWindow(rs, f, now).value, DateTimeKey, IntLe);
  }

  /** The sort key orders records as Python orders the parsed `datetime` values. */
  lemma DateTimeKeyOrder(a: ScheduleRecord, b: ScheduleRecord)
    requires ParseDateTime(a.date + " " + a.time).Some? && ParseDateTime(b.date + " " + b.time).Some?
    ensures var ta, tb := ParseDateTime(a.date + " " + a.time).value, ParseDateTime(b.date + " " + b.time).value;
      DateTimeKey(a) < DateTimeKey(b) <==> DateTimeBefore(ta, tb)
  {
    var ta, tb := ParseDateTime(a.date + " " + a.time).value, ParseDateTime(b.date + " " + b.time).value;
    OrdinalOrder(ta.date, tb.date);
  }

  /** 'week' keeps exactly the records dated from today up to seven days ahead. */
  lemma WeekWindow(rs: seq<ScheduleRecord>, now: DateTime, x: ScheduleRecord)
    requires ValidClock(now) && InWindow(rs, Some("week"), now).Ok?
    ensures x in InWindow(rs, Some("week"), now).value <==>
      x in rs && ParseDate(x.date).Some?
      && Ordinal(now.date) <= Ordinal(ParseDate(x.date).value) <= Ordinal(now.date) + 7
  {
    assert Recognised(Some("week"));
    if x in rs && ParseDate(x.date).Some? {
      WeekDay(ParseDate(x.date).value, now);
    }
  }

  /** An empty listing answers differently with and without a filter. */
  lemma EmptyListingMessages(rs: seq<ScheduleRecord>, f: Option<string>, now: DateTime)
    requires ValidClock(now) && InWindow(rs, f, now) == Ok([])
    ensures Listing(rs, f, now) == Ok(if Present(f) then "You have no appointments scheduled."
                                      else "You have no upcoming appointments.")
  {
  }

  /** An unrecognised filter lists everything, under the "all" heading but with the filtered empty message. */
  lemma UnknownFilterListsAll(rs: seq<ScheduleRecord>, name: string, now: DateTime)
    requires ValidClock(now) && name !in {"today", "tomorrow", "week", "month"}
    ensures InWindow(rs, Some(name), now) == Ok(rs)
    ensures rs == [] ==> Listing(rs, Some(name), now) == Ok(if name == "" then "You have no upcoming appointments."
                                                              else "You have no appointments scheduled.")
    ensures rs != [] && DateTimesParse(rs) ==>
      Listing(rs, Some(name), now).Ok? && StartsWith(Listing(rs, Some(name), now).value, "Here are all your scheduled appointments:\n")
  {
    if rs != [] && DateTimesParse(rs) {
      var s := "Here are all your scheduled appointments:\n";
      var body := Join(Lines(SortByDateTime(rs).value, now), "\n");
      assert (s + body)[..|s|] == s;
    }
  }
}
