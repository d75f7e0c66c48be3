# Voice Automation Agent: appointment stores and their reconciliation, in Dafny

The voice agent keeps appointments in three JSON-array stores:
- the local schedule (`data/schedules.json`, `utils/scheduler.py`);
- the calendar events (`data/calendar_events.json`, `utils/calendar_integration.py`);
- the HTTP booking API (`data/api_appointments.json`, `api_server.py`).

A reconciliation manager (`utils/data_integration.py`) does five things:
- converts records of each store to a `UnifiedAppointment` and back;
- fans additions and removals out to all three stores;
- groups the unified view by a `date_time_description` key to report conflicts;
- prints a summary;
- takes a snapshot of the three stores.

Around these sit the input validators (`utils/validation.py`) and the keyword intent classifier (`keyword_fallback_parser` in `utils/llm_interface.py`).

Each store is a class whose field is the sequence of records its file holds. Its methods change that field as the Python functions change the loaded list before saving it.
- Pure code (the adapters, `_get_next_id`, `_calculate_end_time`, the validators, the classifier) becomes functions.
- Loops that build lists, dicts or strings become methods with loop invariants. Each method is proved equal to a specification function.
- The properties are proved about those functions.

The clock (`datetime.now()`) is a parameter. So are the uuid prefix and the timestamp-based ids and codes.

Modules, in dependency order:

- `Wrappers`: `Option` and `Result`.
- `Text`: the string operations the program uses:
  - `lower()`, `strip()`, `in`, `str(int)`;
  - `re.sub(r"\s+", " ", …)`;
  - character removal, `join`;
  - Python's ordering of strings.
- `Chrono`: proleptic Gregorian dates and times.
  - `toordinal`, `weekday`;
  - `+ timedelta(days=…)` and `+ timedelta(minutes=…)` with overflow as an error;
  - the `strftime` formats used.
- `IsoParse`: `datetime.fromisoformat` for the forms that `isoformat()` and the stores produce. Also `<` on naive versus aware values, which raises `TypeError`.
- `Strptime`: `datetime.strptime` for `%Y-%m-%d`, `%H:%M` and `%Y-%m-%d %H:%M` as CPython implements them. Each directive is a regular expression matched with backtracking, the whole string must be consumed, and then the calendar is checked. So "9:05" is accepted, "25:00" is refused, and 2023-02-29 is refused.
- `Sorting`: Python's stable `sort(key=…)` as an insertion sort, with its permutation, order and stability lemmas.
- `Filters`: the filtering comprehension `[x for x in xs if p(x)]` as the generic `Keep`, with its membership, count and order lemma. The stores' own filters are proved equal to it.
- `DateFilter`: the `today`, `tomorrow`, `week` and `month` windows both stores use.
- `Scheduler`, `Calendar`, `ApiServer`: the three stores.
- `DataIntegration`: the reconciliation manager over references to the three store objects. A write through the manager is a write to the store it refers to, as two processes writing one file would be.
- `Validation`, `LlmInterface`: the validators and the keyword classifier.

`_calculate_end_time` in `utils/data_integration.py:149-153` is the same computation as in `utils/calendar_integration.py:60-66`. Both are `Calendar.CalculateEndTime`.

Two behaviours of the code a reader may not expect are modelled as written:
- The conflict key of `sync_all_systems` (`utils/data_integration.py:286`) joins the raw date, time and description. It does not trim or case-fold them, so `DataIntegration.Key` and `KeyNotNormalised` state the raw join.
- The numeric-id fallback collapses every non-digit id to `1`. It is modelled as written, with lemmas that exhibit the collision (`NonDigitIdsCollide`, `UnifiedIdNotCopied`).

The other quirks of the code are modelled as written, each with a lemma that shows it:
- `ThirteenPm`, `ProcessedTimeCanBeInvalid`: "13 pm" becomes "25:00".
- `SanitizeCanLeaveLeadingBlank`: sanitising is not idempotent.
- `OneDigitHourCopyUnreadable`, `OneDigitHourEventUnreadable`: a "9:00" time is stored but cannot be read back by `fromisoformat`.
- `AddToAllBreaksDistinctSlots`: the fan-out add bypasses the API's slot check.
- `StringifiedRemoval`: the stores disagree on whether an id is compared as `str(id)`.
- `SeeMyScheduleIsBooking`: "see my schedule" is classified as a booking.

## Model

| member | source | states |
|---|---|---|
| Scheduler.NextId | utils/scheduler.py:23-27 | 1 for an empty store; otherwise strictly above every stored id and equal to the largest plus one |
| Scheduler.NextIdKeepsUnique | utils/scheduler.py:44-52 | appending a record that carries the next id keeps the ids unique |
| Scheduler.ScheduleStore.constructor | utils/scheduler.py:7-16 | the store holds the records read from the file |
| Scheduler.ScheduleStore.AddAppointment | utils/scheduler.py:29-54 | when "%Y-%m-%d %H:%M" fails: returns None and leaves the store unchanged; otherwise appends exactly one record (next id, verbatim date/time/description, isoformat timestamp) and returns it; unique ids stay unique |
| Scheduler.MatchingCounts | utils/scheduler.py:65-88 | the kept records are exactly the stored ones that match, each as often as the store holds it |
| Scheduler.SortByTimestamp | utils/scheduler.py:91 | the sort succeeds iff every timestamp parses and naive and aware ones are not mixed; the result is then a permutation |
| Scheduler.ScheduleStore.FindAppointments | utils/scheduler.py:56-92 | the result of the match-flag loop and sort is the search function's value |
| Scheduler.FindExact | utils/scheduler.py:56-92 | a successful search returns exactly the matching records, each as often as stored, sorted by timestamp |
| Scheduler.NoCriteriaMatchesAll | utils/scheduler.py:66-67 | with no date and no description every record is returned, in order |
| Scheduler.UnparsableDateNeverMatches | utils/scheduler.py:69-79 | a stored date that fails "%Y-%m-%d" never matches a date query |
| Scheduler.ExactImpliesFuzzy | utils/scheduler.py:81-85 | a case-insensitive equal description also passes the substring test |
| Scheduler.WithoutIdIsKeep | utils/scheduler.py:103 | removing by id is the filtering comprehension with the test "another id" |
| Scheduler.WithoutIdMembers | utils/scheduler.py:103 | the survivors of `WithoutId` are exactly the records with another id, each as often as the store holds it, in store order (for every cut, the survivors of the list are those of the front followed by those of the back); the store shrinks iff some record had the id |
| Scheduler.KeepOtherIds | utils/scheduler.py:103 | the comprehension's loop keeps exactly the records with another id, in order |
| Scheduler.WithoutIdKeepsUnique | utils/scheduler.py:103 | removing by id keeps ids unique and leaves no record with that id |
| Scheduler.FirstMatch | utils/scheduler.py:111-117 | the position of the first record with equal description (any case) and equal date, or none when no record matches |
| Scheduler.ScheduleStore.CancelAppointment | utils/scheduler.py:94-123 | a truthy id removes every record with it and reports success iff one went; otherwise a description and a date remove only the first match and return it, keeping the others in order; otherwise nothing changes |
| Scheduler.InWindow | utils/scheduler.py:136-162 | an unknown filter keeps everything; a known filter fails iff some stored date does not parse, and otherwise keeps exactly the records whose day is in the window, as the filtering comprehension with `RecordInWindow`, so in store order |
| Scheduler.InWindowCounts | utils/scheduler.py:136-162 | a known filter that succeeds keeps each record in its window exactly as often as the store holds it, and no other |
| Scheduler.WeekWindow | utils/scheduler.py:147-153 | 'week' keeps exactly the records dated from today to today + 7 |
| Scheduler.SortByDateTime | utils/scheduler.py:168 | succeeds iff every date and time parses; the result is then a permutation |
| Scheduler.DateTimeKeyOrder | utils/scheduler.py:168 | the sort key orders two records as Python orders their parsed datetimes |
| Scheduler.ListedOrdered | utils/scheduler.py:164-176 | the listed records are ordered by date-time and are a permutation of those the filter keeps |
| Scheduler.EmptyListingMessages | utils/scheduler.py:164-165 | an empty window gives "You have no appointments scheduled." with a filter and "You have no upcoming appointments." without |
| Scheduler.UnknownFilterListsAll | utils/scheduler.py:161-187 | an unknown filter lists every record, under the "all" heading, with the filtered empty message when nothing is stored |
| Scheduler.SummaryLines | utils/scheduler.py:170-176 | the loop appends one formatted line per sorted record, in order |
| Scheduler.ScheduleStore.ListAppointments | utils/scheduler.py:125-187 | the summary built by the loop is the listing function's text |
| DateFilter.WeekDay | utils/calendar_integration.py:99-102 | a day is in the 'week' window iff its ordinal lies between today's and today's + 7 |
| Calendar.CalculateEndTime | utils/calendar_integration.py:60-66 | succeeds only when date and time parse as "%Y-%m-%d %H:%M" |
| Calendar.EndTimeOneHourLater | utils/calendar_integration.py:60-66 | the end is an instant exactly sixty minutes after the start, with seconds 00, written as "%Y-%m-%dT%H:%M:%S", and it reads back with fromisoformat |
| Calendar.EndTimeRollover | utils/calendar_integration.py:64-66 | the end is the next hour of the same day, or hour 0 of the next day from 23:xx on; past 9999-12-31 it fails |
| Calendar.NewEvent | utils/calendar_integration.py:44-53 | the event carries the request id, title = description = the given description, start = date+"T"+time+":00", status "confirmed", calendar_type "voice_automation" |
| Calendar.CalendarIntegration.constructor | utils/calendar_integration.py:24-30 | the store holds the events read from the file |
| Calendar.CalendarIntegration.AddCalendarEvent | utils/calendar_integration.py:37-58 | a date or time that fails leaves the events unchanged; otherwise exactly the new event is appended and returned; printable events stay printable |
| Calendar.AddedEventReadable | utils/calendar_integration.py:93 | an event added from a canonical date and time reads back on its own day |
| Calendar.OneDigitHourEventAdded | utils/calendar_integration.py:60-66 | "9:00" passes strptime, so the event is stored with end 10:00 |
| Calendar.OneDigitHourEventUnreadable | utils/calendar_integration.py:93 | the resulting start "…T9:00:00" is not ISO 8601, so each filtered query fails on it |
| Calendar.WithoutEventIsKeep | utils/calendar_integration.py:75 | removing by id is the filtering comprehension with the test "another id" |
| Calendar.WithoutEventMembers | utils/calendar_integration.py:75 | the survivors are exactly the events with another id, each as often as the list holds it, in stored order (for every cut, the survivors of the list are those of the front followed by those of the back); the list shrinks iff some event had the id |
| Calendar.KeepOtherEvents | utils/calendar_integration.py:75 | the comprehension's loop keeps exactly the events with another id, in order |
| Calendar.NoIdCoercion | utils/calendar_integration.py:75 | a number id is not equal to its decimal string, so removing by the string keeps the event |
| Calendar.CalendarIntegration.RemoveCalendarEvent | utils/calendar_integration.py:68-80 | every event with the id goes; returns true iff one went; otherwise the events are unchanged |
| Calendar.EventsInWindow | utils/calendar_integration.py:82-108 | without a filter every event is returned |
| Calendar.EventsInWindowIsKeep | utils/calendar_integration.py:88-106 | with a filter, a successful query is the filtering comprehension with `EventInWindow` |
| Calendar.EventsInWindowMembers | utils/calendar_integration.py:88-106 | with a filter the query succeeds iff every start reads as ISO 8601; it then keeps exactly the events whose day is in the window, none for an unknown filter, each kept event as often as stored and in stored order |
| Calendar.CalendarIntegration.GetCalendarEvents | utils/calendar_integration.py:82-108 | the filtering loop's result is the window function's value |
| Calendar.BasicFormOfSeconds | utils/calendar_integration.py:141-142 | removing '-' and ':' from "YYYY-MM-DDTHH:MM:SS" gives the basic form "YYYYMMDDTHHMMSS" of section 3.3.5 of RFC 5545 |
| Calendar.VEvent | utils/calendar_integration.py:139-146 | a component is printed iff the event has start, title and description; it begins with BEGIN:VEVENT |
| Calendar.AddedEventTimes | utils/calendar_integration.py:60-66 | for a canonical date and time, the stored start is the `isoformat()` of the start instant and the computed end that of the instant sixty minutes later |
| Calendar.AddedEventComponent | utils/calendar_integration.py:139-146 | an event added from a canonical date and time exports with its UID line, DTSTART the start in basic form, and DTEND the instant sixty minutes later (its minute stamp is the start's plus 60, seconds 00) in basic form |
| Calendar.Components | utils/calendar_integration.py:138-146 | the components are printed iff every event is printable |
| Calendar.IcsShape | utils/calendar_integration.py:134-148 | the export is the VCALENDAR header lines, one VEVENT per event in store order, then END:VCALENDAR |
| Calendar.CalendarIntegration.ExportIcs | utils/calendar_integration.py:128-148 | the text grown by `+=` in the loop is the export function's value |
| ApiServer.OrDefault | api_server.py:141-142 | `x or default`: the value when present and non-empty, the default otherwise |
| ApiServer.Booking | api_server.py:100-166 | unparsable date/time: 400 and store unchanged; past slot: 400 and store unchanged; taken future slot: 409 "Appointment slot <date> <time> is already booked" and store unchanged; free future slot: accepted; success: exactly one record appended with the request's date/time/description, patient name "Voice User" and contact "voice@example.com" by default, status "confirmed", id "EXT_<compact stamp>_<uuid prefix>", booking_timestamp the isoformat of the clock reading, confirmation_code "CONF_<compact stamp>", and no appointment_id |
| ApiServer.BookingKeepsSlotsDistinct | api_server.py:123-130 | a booking never creates a second record for a (date, time) pair |
| ApiServer.BookingsKeepSlotsDistinct | api_server.py:123-130 | a store without duplicate slots keeps none after any sequence of bookings |
| ApiServer.DoubleBookingRefused | api_server.py:123-130 | booking a booked slot again is refused with 409 and the "already booked" message |
| ApiServer.ApiStore.constructor | api_server.py:60-69 | the store holds the records read from the file |
| ApiServer.ApiStore.BookAppointment | api_server.py:100-166 | the reply and new store are the booking function's; distinct slots stay distinct |
| ApiServer.ListedIsKeep | api_server.py:178-189 | with a filter, the listing is the filtering comprehension with `DateHas` |
| ApiServer.ListedMembers | api_server.py:178-189 | no filter: all records; otherwise exactly those whose date contains the filter, ignoring case, each as often as stored, in stored order (for every cut, the listing of the list is that of the front followed by that of the back) |
| ApiServer.ApiStore.GetAppointments | api_server.py:172-195 | the loop's list is the listing function's value, and total_count is its length |
| ApiServer.FirstWithId | api_server.py:205-215 | the position of the first record with the id, or none when no record has it |
| ApiServer.ApiStore.GetAppointment | api_server.py:200-223 | the first record with the id, or 404 with its message |
| ApiServer.CancelKeepsSlotsDistinct | api_server.py:235-249 | removing one record keeps the slots distinct |
| ApiServer.ApiStore.CancelAppointment | api_server.py:229-257 | pops only the first record with the id and keeps the rest in order; otherwise 404 and the store unchanged |
| DataIntegration.ParseSource | utils/data_integration.py:64-108 | succeeds iff the tag is "schedules", "calendar" or "api"; any other tag gives the ValueError text |
| DataIntegration.ParseSourceInjective | utils/data_integration.py:64-108 | the three tags name the three stores one to one |
| DataIntegration.ConvertToUnified | utils/data_integration.py:64-108 | an unknown tag raises "Unknown source: …"; a conversion names the tag's store and sets source local/calendar/api |
| DataIntegration.ScheduleRoundTrip | utils/data_integration.py:67-75 | a schedule record with id ≥ 0 and a timestamp converts to unified form with its fields verbatim and comes back unchanged |
| DataIntegration.CalendarWithoutStart | utils/data_integration.py:76-93 | a missing or empty start gives empty date and time; a missing description falls back to the title |
| DataIntegration.ApiRoundTrip | utils/data_integration.py:94-106 | API to unified and back keeps id, date, time, description and a present patient name; external_id comes from "appointment_id" |
| DataIntegration.ToCalendarEvent | utils/data_integration.py:120-133 | the calendar copy exists iff the end time computes; it has start = date+"T"+time+":00", the end sixty minutes on, calendar_type "voice_automation", and the numeric id |
| DataIntegration.ConvertFromUnified | utils/data_integration.py:110-147 | an unknown target raises "Unknown target format: …"; schedules and api always convert; calendar converts iff the end time computes |
| DataIntegration.UnifiedScheduleRoundTrip | utils/data_integration.py:112-119 | unified→schedule→unified keeps date, time and description, the creation stamp when present, and a digit id |
| DataIntegration.UnifiedCalendarRoundTrip | utils/data_integration.py:120-133 | on canonical date and time, unified→calendar→unified keeps date, time and description |
| DataIntegration.NonDigitIdsCollide | utils/data_integration.py:112-133 | any two non-digit ids become the same id 1 in the schedule and calendar copies |
| DataIntegration.OneDigitHourCopyUnreadable | utils/data_integration.py:76-93 | a "9:00" calendar copy is written but cannot be converted back |
| DataIntegration.ConvertedConcat | utils/data_integration.py:166-175 | converting a list converts its two parts one after the other |
| DataIntegration.EventsUnifiedMembers | utils/data_integration.py:166-175 | a calendar event is in the unified view iff it converts; when every event converts none is dropped; one event's view is its conversion or nothing, and for every cut the view of the list is that of the front followed by that of the back, so each event contributes once, in stored order |
| DataIntegration.DataIntegrationManager.constructor | utils/data_integration.py:36-40 | the manager refers to the three stores |
| DataIntegration.DataIntegrationManager.GetAllAppointments | utils/data_integration.py:155-186 | the three loops give the schedules, then the calendar events that convert, then the API records, each in stored order |
| DataIntegration.UnifiedIdNotCopied | utils/data_integration.py:191-213 | the "UNIFIED_<stamp>" id is not a digit string, so both numbered copies get id 1 |
| DataIntegration.DataIntegrationManager.AddToAllSystems | utils/data_integration.py:188-229 | the results have exactly the keys schedules/calendar/api; each store that succeeds gains exactly one record; a calendar failure reports "error: …", leaves the calendar unchanged and the API is still written; the API gets the request with id "UNIFIED_<stamp>" |
| DataIntegration.AddToAllBreaksDistinctSlots | utils/data_integration.py:221-223 | the fan-out add skips the booking endpoint's slot check and can store a second record for a slot |
| Filters.KeepMembers | utils/data_integration.py:239-265 | a filtering comprehension keeps exactly the elements that pass, each as often as the input holds it, in input order (for every cut, the filter of the list is that of the front followed by that of the back), and shrinks iff one fails |
| Filters.KeepConcat | utils/data_integration.py:239-265 | filtering a list filters its two parts one after the other |
| Filters.Filter | utils/data_integration.py:239-265 | the comprehension's loop gives the filter's value |
| DataIntegration.StringifiedRemoval | utils/data_integration.py:252 | removal by "5" through the manager takes a calendar event with number id 5, which the store's own removal keeps |
| DataIntegration.DataIntegrationManager.RemoveFromAllSystems | utils/data_integration.py:231-274 | every record with the id goes (stringified for schedules and calendar, raw for the API); a store reports "removed" iff it lost one, otherwise "not_found" and it is unchanged |
| DataIntegration.KeyNotNormalised | utils/data_integration.py:286 | keys differing only in case or trailing blanks are different |
| DataIntegration.KeyInjectiveOnCanonical | utils/data_integration.py:286 | on ten-character dates and five-character times, equal keys mean equal date, time and description |
| DataIntegration.KeyCollision | utils/data_integration.py:286 | otherwise two different slots can share a key |
| DataIntegration.KeysOfMembers | utils/data_integration.py:284-289 | the grouping dict's keys are listed once each and are exactly the keys of the appointments |
| DataIntegration.FirstAt | utils/data_integration.py:284-289 | the position of the first appointment with a key, or the length of the view when none has it |
| DataIntegration.KeysFirstSeen | utils/data_integration.py:284-289 | the dict lists the keys in the order in which they first occur in the unified view |
| DataIntegration.ConflictsInKeyOrder | utils/data_integration.py:298-303 | the conflicts come in the order of the dict keys they are listed for |
| DataIntegration.ConflictsOf | utils/data_integration.py:298-303 | the conflicts are exactly the listed keys whose group has more than one member, with that group |
| DataIntegration.SyncCounts | utils/data_integration.py:276-306 | total_unique_appointments is the number of distinct keys; the conflicts are exactly the keys shared by two or more appointments, each with its whole group, each key once, in the order the keys are first seen |
| DataIntegration.DataIntegrationManager.GroupByKey | utils/data_integration.py:284-289 | the loop's dict maps each key, in first-seen order, to its appointments in order |
| DataIntegration.DataIntegrationManager.CollectConflicts | utils/data_integration.py:298-303 | the loop's list is the conflicts in dict order |
| DataIntegration.DataIntegrationManager.SyncAllSystems | utils/data_integration.py:276-306 | the report is the grouping of the unified view; no store is written |
| DataIntegration.SummaryOrdered | utils/data_integration.py:308-323 | the summary lists every appointment once, ordered by the text "date time"; appointments with the same "date time" keep their unified-view order |
| DataIntegration.DataIntegrationManager.GetUnifiedSummary | utils/data_integration.py:308-323 | the loop's text is the summary of the unified view |
| DataIntegration.DataIntegrationManager.ExportAllData | utils/data_integration.py:325-333 | a snapshot of the three stores, their unified view and the clock reading; nothing is written |
| Validation.DateFormatIff | utils/validation.py:19-25 | a "YYYY-MM-DD" string of in-pattern fields is accepted iff it names a real Gregorian date |
| Validation.LeapDay | utils/validation.py:19-25 | February 29 is accepted in 2024 and refused in 2023 |
| Validation.FutureDateIff | utils/validation.py:28-34 | a rendered date counts as future iff it is today or later |
| Validation.DaysAhead | utils/validation.py:59-61 | the days to the named weekday are between 1 and 7 and land on it |
| Validation.ParseRelativeDate | utils/validation.py:37-64 | the weekday-table loop returns the relative-date function's value |
| Validation.FixedOffsets | utils/validation.py:42-49 | "today", "tomorrow", "next week" and "next month" move the date by 0, 1, 7 and 30 days |
| Validation.NextWeekday | utils/validation.py:51-62 | "next <day>" gives the first date after today on that weekday, 1 to 7 days ahead and never today; the first name in the table wins |
| Validation.NoRelativeDate | utils/validation.py:64 | without a fixed word or "next <day>" there is no date |
| Validation.RelativeDateValid | utils/validation.py:42-62 | every date produced passes validate_date_format |
| Validation.TimeFormatExamples | utils/validation.py:70-76 | "14:30" is accepted and "25:00" refused |
| Validation.To24Hour | utils/validation.py:89-92 | for hours 1..12, pm gives 12..23 and am gives 0..11, congruent modulo 12 |
| Validation.HourPeriodFirst | utils/validation.py:84-94 | "<h> am/pm" at the start decides the result whatever follows, keywords included |
| Validation.TwelveHourClock | utils/validation.py:84-94 | for hours 1..12 the result is the 24-hour reading "HH:00" and is a valid time |
| Validation.ThirteenPm | utils/validation.py:89-94 | "13 pm" gives "25:00", which validate_time_format refuses |
| Validation.KeywordOrder | utils/validation.py:96-110 | without digits, morning/afternoon/evening/night give 09:00/14:00/18:00/20:00 in that order, else None |
| Validation.ClockPassesThrough | utils/validation.py:106-108 | a string shaped like `\d{1,2}:\d{2}` is returned unchanged |
| Validation.RenderedClockPassesThrough | utils/validation.py:79-108 | a rendered "HH:MM" comes back unchanged |
| Validation.AppointmentValidIff | utils/validation.py:116-142 | valid iff every rule holds, and the message is empty iff valid |
| Validation.OtherIntentsOnlyNeedIntent | utils/validation.py:121-124 | for intents other than book_schedule only a truthy intent is checked |
| Validation.ShortDescriptionRefused | utils/validation.py:137-140 | a description shorter than 3 characters after strip is refused with its own message |
| Validation.CancelValidIff | utils/validation.py:145-155 | valid iff the id is a truthy number, or there is no truthy id and a description is given |
| Validation.SanitizeDescription | utils/validation.py:158-173 | the result has none of `<>"'` and at most 200 characters, and is "" for ""; the cleaned text is returned as it is when it has at most 200 characters, otherwise its first 197 plus "..." |
| Validation.Cleaned | utils/validation.py:163-167 | stripping, collapsing and removal keep exactly the non-whitespace characters of the input other than `<>"'`, in order, with blanks as the only whitespace |
| Validation.SanitizeKeepsClean | utils/validation.py:158-173 | text already in sanitised form comes back unchanged |
| Validation.SanitizeTruncates | utils/validation.py:170-171 | clean text over 200 characters becomes its first 197 plus "..." |
| Validation.SanitizeCanLeaveLeadingBlank | utils/validation.py:164-167 | removing a character after collapsing can leave a leading blank that a second pass strips |
| Validation.LlmResponseValidIff | utils/validation.py:179-193 | accepted iff an object whose intent is one of the four names, and the message is empty iff accepted |
| Validation.FallbackMarkerRefused | utils/llm_interface.py:67 | the "fallback" marker of a non-JSON reply is refused with "Invalid intent: fallback" |
| Validation.ProcessedFields | utils/validation.py:196-221 | intent and id are untouched; a present description comes out harmless and at most 200 long; a present date is a real date |
| Validation.ProcessedTimeCanBeInvalid | utils/validation.py:214-219 | a processed time can be "25:00" |
| LlmInterface.KeywordFallback | utils/llm_interface.py:75-87 | the reply's description is the original text; it has a string intent and no other field |
| LlmInterface.FallbackIntentIff | utils/llm_interface.py:79-87 | book_schedule iff a booking word occurs; cancel_schedule iff none but a cancelling word; get_schedule iff neither but a listing word; unknown otherwise |
| LlmInterface.FallbackAccepted | utils/llm_interface.py:81-87 | every fallback reply passes validate_llm_response |
| LlmInterface.BookWordAnywhere | utils/llm_interface.py:80-81 | a booking word anywhere, in any case, makes the reply a booking whatever else the text says |
| LlmInterface.CancelWordAnywhere | utils/llm_interface.py:82-83 | a cancelling word makes it a cancellation unless a booking word is present |
| LlmInterface.SeeMyScheduleIsBooking | utils/llm_interface.py:103-105 | "I want to see my schedule." is classified as a booking |
| Strptime.ParseDate | utils/validation.py:22 | a parse yields a real date |
| Strptime.ParseFormatDateTime | utils/scheduler.py:38-39 | strptime of a canonical "YYYY-MM-DD HH:MM" recovers the instant |
| Strptime.ParseDateFields | utils/validation.py:22 | in-pattern fields parse iff they form a date |
| Strptime.ParseOneDigitHour | utils/calendar_integration.py:64 | "YYYY-MM-DD 9:00" parses as nine o'clock |
| Strptime.HourOutOfRangeRejected | utils/validation.py:73 | "25:00" is refused by "%H:%M" |
| IsoParse.ParseIso | utils/scheduler.py:91 | every value fromisoformat yields is a valid stamp |
| IsoParse.ParseIsoFormat | utils/scheduler.py:91 | fromisoformat reads back what isoformat wrote |
| IsoParse.OneDigitHourRefused | utils/calendar_integration.py:93 | "…T9:00:00" is not accepted by fromisoformat |
| IsoParse.Less | utils/scheduler.py:91 | comparing fails iff exactly one of the values is aware |
| IsoParse.LessStrictOrder | utils/scheduler.py:91 | `<` is a strict order on values of the same kind |
| Sorting.SortBy | utils/scheduler.py:91 | the sorted list is a permutation of its input |
| Sorting.SortBySorted | utils/scheduler.py:168 | the result is ordered by its keys |
| Sorting.SortByStable | utils/data_integration.py:316 | the sort is stable: for every key, the elements whose keys are equivalent to it come out in the order they went in |
| Sorting.SortByOrderedUnchanged | utils/scheduler.py:91 | a list already in key order is left as it is |
| Chrono.AddDaysOrdinal | utils/validation.py:45-49 | adding n days moves the ordinal by n, and fails only past 9999-12-31 |
| Chrono.AddHourRollover | utils/calendar_integration.py:65 | sixty minutes on is the next hour or hour 0 of the next day |
| Chrono.OrdinalOrder | utils/validation.py:32 | date comparison agrees with ordinal comparison |
| Text.CollapseSpaces | utils/validation.py:164 | no longer than the input, its only whitespace is single blanks, its other characters are those of the input in order, and it starts with a blank iff the input starts with whitespace |
| Text.CollapseRun | utils/validation.py:164 | a non-empty whitespace run collapses to one blank |
| Text.CollapseSplit | utils/validation.py:164 | text cut where no whitespace run crosses the cut collapses as its two pieces do, so the collapse works run by run |
| Text.RemoveCharsNonSpace | utils/validation.py:167 | removing characters and keeping the non-whitespace ones can be done in either order |
| Text.CollapseIdentity | utils/validation.py:164 | text whose only whitespace is single blanks is its own collapse |
| Text.RemoveChars | utils/validation.py:167 | no removed character remains and every other character is kept |
| Text.RemoveCharsFrom | utils/validation.py:167 | every character left after the removal was in the text |
| Text.LeadingSpaces | utils/validation.py:164 | the count of whitespace characters the text starts with: all of them whitespace, and the next one not |
| Text.Strip | utils/validation.py:164 | the result is the window of the input that starts right after its leading whitespace and has only whitespace after it; it neither starts nor ends with whitespace |
| Text.StripNonSpace | utils/validation.py:164 | stripping removes only whitespace |
| Text.ContainsIff | utils/llm_interface.py:80 | `sub in s` iff sub occurs at some position of s |
| Text.LowerConcat | utils/llm_interface.py:79 | lower() distributes over concatenation |

## Left out

- File I/O: loading and saving the JSON files, creating directories and reading a corrupt file as the empty list. Each store starts from the sequence its file holds, given to its constructor.
- `datetime.now()`, `uuid.uuid4()` and the timestamp-based confirmation codes are parameters. Each operation reads the clock once, where the source may call `now()` several times.
- ValidClock: the clock reading is assumed to lie before year 9999, so that `now + timedelta(days=30)` never overflows. Overflow caused by stored data (an end time past 9999-12-31) is modelled as an error.
- Exceptions are `Err` values with a short description. Their texts are verbatim only where the program shows them or puts them in a reply (the 400/404/409 details, "Unknown source: …", "Unknown target format: …").
- The 500 paths of the API handlers: they catch every other exception. Failures from reading or writing the file have no counterpart here.
- For the `intent` and `id` of a parsed reply, JSON `null` is told apart from a missing key: a `JsonValue` may be `Null`, so a missing intent gives "Missing required field: intent" and a `null` one "Invalid intent: None". The other fields (`date`, `time`, `description`) are optional strings, so `null` and a missing key read alike there. Calendar ids are an `Id`, with a `NullId` case. JSON booleans are not modelled, so a boolean id in `validate_cancel_data` (which Python would accept as an `int`) has no counterpart. Numbers are integers (`Number(n: int)`): a JSON float id has no counterpart either, so `validate_cancel_data` refusing a truthy float such as `5.0` (not an `int`) and letting a falsy `0.0` through is not modelled.
- Calendar.EventRequest: a request always carries a description string; a request without one, which the source stores with a `null` title and description and exports as "SUMMARY:None", is not modelled.
- DataIntegration.ConvertToUnified: a record of a store other than the tag names is refused. Python would instead read the keys it finds by the other store's names.
- DataIntegration.DataIntegrationManager.AddToAllSystems: the dict that Python shares between the request and the stored API record is a value here. A later change to one is not seen in the other.
- `str.lower()`, `str.isdigit()`, `\d` and `\s` are modelled on ASCII, with Python's whitespace set. No Unicode case mapping or Unicode digits.
- `datetime.fromisoformat` is modelled for `YYYY-MM-DD[?HH[:MM[:SS[.fff|.ffffff]]][±HH:MM]]`, where `?` is any one separator character. These are the forms the stores write. Python 3.7 to 3.10 also accept offsets with seconds (`±HH:MM:SS`, `±HH:MM:SS.ffffff`); the model refuses them. Newer Python versions accept further forms, which the model refuses too.
- `strftime("%Y")` is modelled as four zero-padded digits. Some C libraries print years below 1000 unpadded.
- The export writes LF line ends, as the source does. Section 3.1 of RFC 5545 requires CRLF.
- `sync_with_external_calendar` prints and returns true. The HTTP model client `get_llm_response` is out of scope, apart from its "fallback" marker. Also out of scope: `validate_environment` (environment variables and files), `utils/api_client.py`, `utils/managers.py`, `utils/speech_io.py`, `utils/logger.py`, `voice_agent.py` and the module-level wrapper functions.
- Concurrency: nothing locks the read-modify-write of a file, and interleavings are not modelled.
