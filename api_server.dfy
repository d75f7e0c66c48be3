/**
 * The booking endpoints of the appointment API over the list held in data/api_appointments.json:
 * book (400 for a bad or past slot, 409 for a taken one), list with a date filter, get by id
 * and cancel by id (404 when no record has it).
 */
module ApiServer {
  import opened Wrappers
  import opened Filters
  import opened Text
  import opened Chrono
  import opened Strptime

  /**
   * A record of the API store. The booking endpoint writes every key; the reconciliation add
   * stores its request as it is, so the keys after `description` may be missing (`None`).
   */
  datatype ApiRecord = ApiRecord(
    id: string, date: string, time: string, description: string,
    patientName: Option<string>, contactInfo: Option<string>, status: Option<string>,
    bookingTimestamp: Option<string>, confirmationCode: Option<string>, appointmentId: Option<string>)

  /** The body of a booking request; the two contact fields are optional. */
  datatype BookingRequest = BookingRequest(
    date: string, time: string, description: string, patientName: Option<string>, contactInfo: Option<string>)

  /** A handler's answer: its value, or the HTTP status and detail of the HTTPException it raises. */
  datatype Reply<T> = Accepted(value: T) | Rejected(code: int, detail: string)

  const BadFormat := "Invalid date or time format. Use YYYY-MM-DD for date and HH:MM for time."
  const PastSlot := "Cannot book appointments in the past"

  /** Some stored record has this date and this time. */
  predicate SlotTaken(store: seq<ApiRecord>, date: string, time: string) {
    exists k :: 0 <= k < |store| && store[k].date == date && store[k].time == time
  }

  /** No two records share a (date, time) pair. */
  predicate DistinctSlots(store: seq<ApiRecord>) {
    forall i, j :: 0 <= i < j < |store| ==> !(store[i].date == store[j].date && store[i].time == store[j].time)
  }

  /** `x or default` on an optional string. */
  function OrDefault(x: Option<string>, default: string): (r: string)
    ensures Present(x) ==> r == x.value
    ensures !Present(x) ==> r == default
  {
    if Present(x) then x.value else default
  }

  /** The record a successful booking stores; `uuid8` stands for `str(uuid.uuid4())[:8]`. */
  function NewBooking(req: BookingRequest, now: DateTime, uuid8: string): ApiRecord
    requires ValidDateTime(now)
  {
    ApiRecord("EXT_" + CompactStamp(now) + "_" + uuid8, req.date, req.time, req.description,
              Some(OrDefault(req.patientName, "Voice User")), Some(OrDefault(req.contactInfo, "voice@example.com")),
              Some("confirmed"), Some(IsoFormat(now)), Some("CONF_" + CompactStamp(now)), None)
  }

  /** `book_appointment`: its reply and the store afterwards. */
  function Booking(store: seq<ApiRecord>, req: BookingRequest, now: DateTime, uuid8: string): (r: (Reply<ApiRecord>, seq<ApiRecord>))
    requires ValidDateTime(now)
    ensures ParseDateTime(req.date + " " + req.time).None? ==> r == (Rejected(400, BadFormat), store)
    ensures ParseDateTime(req.date + " " + req.time).Some? && DateTimeBefore(ParseDateTime(req.date + " " + req.time).value, now) ==>
      r == (Rejected(400, PastSlot), store)
    ensures SlotTaken(store, req.date, req.time) ==> r.0.Rejected? && r.1 == store
    ensures (ParseDateTime(req.date + " " + req.time).Some? && !DateTimeBefore(ParseDateTime(req.date + " " + req.time).value, now)
             && SlotTaken(store, req.date, req.time)) ==>
      r.0 == Rejected(409, "Appointment slot " + req.date + " " + req.time + " is already booked")
    ensures (ParseDateTime(req.date + " " + req.time).Some? && !DateTimeBefore(ParseDateTime(req.date + " " + req.time).value, now)
             && !SlotTaken(store, req.date, req.time)) ==>
      r.0.Accepted?
    ensures r.0.Rejected? ==> r.1 == store && r.0.code in {400, 409}
    ensures r.0.Accepted? ==>
      && !SlotTaken(store, req.date, req.time)
      && r.1 == store + [r.0.value]
      && r.0.value.date == req.date && r.0.value.time == req.time && r.0.value.description == req.description
      && r.0.value.patientName == Some(OrDefault(req.patientName, "Voice User"))
      && r.0.value.contactInfo == Some(OrDefault(req.contactInfo, "voice@example.com"))
      && r.0.value.status == Some("confirmed")
      && r.0.value.id == "EXT_" + CompactStamp(now) + "_" + uuid8
      && r.0.value.bookingTimestamp == Some(IsoFormat(now))
      && r.0.value.confirmationCode == Some("CONF_" + CompactStamp(now))
      && r.0.value.appointmentId.None?
  {
    var slot := ParseDateTime(req.date + " " + req.time);
    if slot.None? then (Rejected(400, BadFormat), store)
    else if DateTimeBefore(slot.value, now) then (Rejected(400, PastSlot), store)
    else if SlotTaken(store, req.date, req.time) then
      (Rejected(409, "Appointment slot " + req.date + " " + req.time + " is already booked"), store)
    else
      var a := NewBooking(req, now, uuid8);
      (Accepted(a), store + [a])
  }

  /** A booking never creates a second record for a slot. */
  lemma BookingKeepsSlotsDistinct(store: seq<ApiRecord>, req: BookingRequest, now: DateTime, uuid8: string)
    requires ValidDateTime(now) && DistinctSlots(store)
    ensures DistinctSlots(Booking(store, req, now, uuid8).1)
  {
    var r := Booking(store, req, now, uuid8);
    if r.0.Accepted? {
      var s := r.1;
      forall i, j | 0 <= i < j < |s| ensures !(s[i].date == s[j].date && s[i].time == s[j].time) {
        if j == |store| {
          assert s[i] == store[i] && s[j] == r.0.value;
        } else {
          assert s[i] == store[i] && s[j] == store[j];
        }
      }
    }
  }

  /** One booking call: the request, the clock reading and the uuid prefix it sees. */
  datatype Call = Call(req: BookingRequest, now: DateTime, uuid8: string)

  predicate ValidCalls(calls: seq<Call>) {
    forall k :: 0 <= k < |calls| ==> ValidDateTime(calls[k].now)
  }

  /** The store after a sequence of booking calls, in order. */
  function AfterBookings(store: seq<ApiRecord>, calls: seq<Call>): seq<ApiRecord>
    requires ValidCalls(calls)
    decreases |calls|
  {
    if calls == [] then store
    else AfterBookings(Booking(store, calls[0].req, calls[0].now, calls[0].uuid8).1, calls[1..])
  }

  /** A store with no two bookings in one slot keeps none, whatever bookings follow. */
  lemma {:induction false} BookingsKeepSlotsDistinct(store: seq<ApiRecord>, calls: seq<Call>)
    requires ValidCalls(calls) && DistinctSlots(store)
    ensures DistinctSlots(AfterBookings(store, calls))
    decreases |calls|
  {
    if calls != [] {
      BookingKeepsSlotsDistinct(store, calls[0].req, calls[0].now, calls[0].uuid8);
      assert ValidCalls(calls[1..]) by {
        forall k | 0 <= k < |calls[1..]| ensures ValidDateTime(calls[1..][k].now) {
          assert calls[1..][k] == calls[k + 1];
        }
      }
      BookingsKeepSlotsDistinct(Booking(store, calls[0].req, calls[0].now, calls[0].uuid8).1, calls[1..]);
    }
  }

  /** Booking the same slot again is refused with 409, whatever the request says otherwise. */
  lemma DoubleBookingRefused(store: seq<ApiRecord>, req: BookingRequest, other: BookingRequest,
                             now: DateTime, later: DateTime, uuid8: string, uuid8b: string)
    requires ValidDateTime(now) && ValidDateTime(later)
    requires Booking(store, req, now, uuid8).0.Accepted?
    requires other.date == req.date && other.time == req.time && !DateTimeBefore(ParseDateTime(req.date + " " + req.time).value, later)
    ensures Booking(Booking(store, req, now, uuid8).1, other, later, uuid8b).0 ==
      Rejected(409, "Appointment slot " + req.date + " " + req.time + " is already booked")
  {
    var s := Booking(store, req, now, uuid8).1;
    assert s[|s| - 1].date == req.date && s[|s| - 1].time == req.time;
  }

  /** `get_appointments(date_filter)`: the records whose date contains the filter, ignoring case. */
  function Listed(store: seq<ApiRecord>, f: Option<string>): (r: seq<ApiRecord>)
    ensures |r| <= |store|
    ensures !Present(f) ==> r == store
    ensures Present(f) ==> forall x :: x in r <==> x in store && Contains(Lower(x.date), Lower(f.value))
  {
    if !Present(f) || store == [] then store
    else
      var front := store[..|store| - 1];
      var last := store[|store| - 1];
      assert store == front + [last];
      Listed(front, f) + (if Contains(Lower(last.date), Lower(f.value)) then [last] else [])
  }

  /** The records a date filter keeps: those whose date contains it, ignoring case. */
  function DateHas(needle: string): ApiRecord -> bool {
    (x: ApiRecord) => Contains(Lower(x.date), Lower(needle))
  }

  /** With a filter, `Listed` is the generic filter with `DateHas`. */
  lemma {:induction false} ListedIsKeep(store: seq<ApiRecord>, f: Option<string>)
    requires Present(f)
    ensures Listed(store, f) == Keep(store, DateHas(f.value))
  {
    if store != [] {
      ListedIsKeep(store[..|store| - 1], f);
    }
  }

  /**
   * Without a filter the listing is the store; with one it holds exactly the records whose date
   * contains the filter, each as often as it is stored, in stored order (the listing of a list
   * is the listing of its two halves, for every cut).
   */
  lemma ListedMembers(store: seq<ApiRecord>, f: Option<string>)
    ensures !Present(f) ==> Listed(store, f) == store
    ensures Present(f) ==> forall x :: x in Listed(store, f) <==> x in store && Contains(Lower(x.date), Lower(f.value))
    ensures Present(f) ==> forall x :: multiset(Listed(store, f))[x] ==
                                       if Contains(Lower(x.date), Lower(f.value)) then multiset(store)[x] else 0
    ensures forall k :: 0 <= k <= |store| ==> Listed(store, f) == Listed(store[..k], f) + Listed(store[k..], f)
  {
    if Present(f) {
      ListedIsKeep(store, f);
      KeepCounts(store, DateHas(f.value));
    }
    forall k | 0 <= k <= |store|
      ensures Listed(store, f) == Listed(store[..k], f) + Listed(store[k..], f)
    {
      ListedCut(store, k, f);
    }
  }

  lemma ListedCut(store: seq<ApiRecord>, k: nat, f: Option<string>)
    requires k <= |store|
    ensures Listed(store, f) == Listed(store[..k], f) + Listed(store[k..], f)
  {
    if Present(f) {
      ListedIsKeep(store, f);
      ListedIsKeep(store[..k], f);
      ListedIsKeep(store[k..], f);
      KeepCut(store, k, DateHas(f.value));
    } else {
      assert store == store[..k] + store[k..];
    }
  }

  lemma ListedStep(store: seq<ApiRecord>, i: nat, f: Option<string>)
    requires i < |store| && Present(f)
    ensures Listed(store[..i + 1], f) ==
      Listed(store[..i], f) + (if Contains(Lower(store[i].date), Lower(f.value)) then [store[i]] else [])
  {
    var p := store[..i + 1];
    assert p[..|p| - 1] == store[..i] && p[|p| - 1] == store[i];
  }

  /** Position of the first record with this id. */
  function FirstWithId(store: seq<ApiRecord>, id: string): (r: Option<nat>)
    ensures r.Some? ==> r.value < |store| && store[r.value].id == id
    ensures r.Some? ==> forall j :: 0 <= j < r.value ==> store[j].id != id
    ensures r.None? ==> forall k :: 0 <= k < |store| ==> store[k].id != id
  {
    if store == [] then None
    else if store[0].id == id then Some(0)
    else
      match FirstWithId(store[1..], id)
      case Some(k) => Some(k + 1)
      case None => None
  }

  /** Removing one record keeps the slots distinct. */
  lemma CancelKeepsSlotsDistinct(store: seq<ApiRecord>, k: nat)
    requires k < |store| && DistinctSlots(store)
    ensures DistinctSlots(store[..k] + store[k + 1..])
  {
    var s := store[..k] + store[k + 1..];
    forall i, j | 0 <= i < j < |s| ensures !(s[i].date == s[j].date && s[i].time == s[j].time) {
      var i' := if i < k then i else i + 1;
      var j' := if j < k then j else j + 1;
      assert s[i] == store[i'] && s[j] == store[j'];
    }
  }

  class ApiStore {
    var appointments: seq<ApiRecord>

    constructor (initial: seq<ApiRecord>)
      ensures appointments == initial
    {
      appointments := initial;
    }

    /** `book_appointment` with the clock reading and the uuid prefix given. */
    method BookAppointment(req: BookingRequest, now: DateTime, uuid8: string) returns (r: Reply<ApiRecord>)
      requires ValidDateTime(now)
      modifies this
      ensures (r, appointments) == Booking(old(appointments), req, now, uuid8)
      ensures DistinctSlots(old(appointments)) ==> DistinctSlots(appointments)
    {
      var store := appointments;
      var slot := ParseDateTime(req.date + " " + req.time);
      if slot.None? {
        return Rejected(400, BadFormat);
      }
      if DateTimeBefore(slot.value, now) {
        return Rejected(400, PastSlot);
      }
      var i := 0;
      while i < |store|
        invariant 0 <= i <= |store| && appointments == store
        invariant forall k :: 0 <= k < i ==> !(store[k].date == req.date && store[k].time == req.time)
      {
        if store[i].date == req.date && store[i].time == req.time {
          return Rejected(409, "Appointment slot " + req.date + " " + req.time + " is already booked");
        }
        i := i + 1;
      }
      var a := NewBooking(req, now, uuid8);
      appointments := store + [a];
      r := Accepted(a);
      if DistinctSlots(store) {
        BookingKeepsSlotsDistinct(store, req, now, uuid8);
      }
    }

    /** `get_appointments(date_filter)`: the list and its `total_count`. */
    method GetAppointments(f: Option<string>) returns (r: seq<ApiRecord>, total: nat)
      ensures r == Listed(appointments, f)
      ensures total == |r|
    {
      if !Present(f) {
        return appointments, |appointments|;
      }
      r := [];
      var i := 0;
      while i < |appointments|
        invariant 0 <= i <= |appointments|
        invariant r == Listed(appointments[..i], f)
      {
        ListedStep(appointments, i, f);
        if Contains(Lower(appointments[i].date), Lower(f.value)) {
          r := r + [appointments[i]];
        }
        i := i + 1;
      }
      assert appointments[..i] == appointments;
      total := |r|;
    }

    /** `get_appointment(appointment_id)`: the first record with the id, or 404. */
    method GetAppointment(id: string) returns (r: Reply<ApiRecord>)
      ensures match FirstWithId(appointments, id)
        case Some(k) => r == Accepted(appointments[k])
        case None => r == Rejected(404, "Appointment with ID " + id + " not found")
    {
      var i := 0;
      while i < |appointments|
        invariant 0 <= i <= |appointments|
        invariant forall j :: 0 <= j < i ==> appointments[j].id != id
      {
        if appointments[i].id == id {
          FirstWithIdAt(appointments, id, i);
          return Accepted(appointments[i]);
        }
        i := i + 1;
      }
      r := Rejected(404, "Appointment with ID " + id + " not found");
    }

    /** `cancel_appointment(appointment_id)`: pops the first record with the id, or answers 404. */
    method CancelAppointment(id: string) returns (r: Reply<string>)
      modifies this
      ensures match FirstWithId(old(appointments), id)
        case Some(k) => r == Accepted(id) && appointments == old(appointments)[..k] + old(appointments)[k + 1..]
        case None => r == Rejected(404, "Appointment with ID " + id + " not found") && appointments == old(appointments)
      ensures DistinctSlots(old(appointments)) ==> DistinctSlots(appointments)
    {
      var store := appointments;
      var i := 0;
      while i < |store|
        invariant 0 <= i <= |store| && appointments == store
        invariant forall j :: 0 <= j < i ==> store[j].id != id
      {
        if store[i].id == id {
          FirstWithIdAt(store, id, i);
          appointments := store[..i] + store[i + 1..];
          if DistinctSlots(store) {
            CancelKeepsSlotsDistinct(store, i);
          }
          return Accepted(id);
        }
        i := i + 1;
      }
      r := Rejected(404, "Appointment with ID " + id + " not found");
    }
  }

  /** The first match a scan finds is the one `FirstWithId` names. */
  lemma {:induction false} FirstWithIdAt(store: seq<ApiRecord>, id: string, i: nat)
    requires i < |store| && store[i].id == id
    requires forall j :: 0 <= j < i ==> store[j].id != id
    ensures FirstWithId(store, id) == Some(i)
  {
    if i > 0 {
      FirstWithIdAt(store[1..], id, i - 1);
    }
  }
}
