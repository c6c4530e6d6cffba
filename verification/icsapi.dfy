/**
 * The authenticated REST API (supabase/functions/ics_api/index.ts): the route
 * split, the status normalisers, the validation and construction of every row
 * and patch the routes write, the sync route and the account clean-up, and the
 * answer the outer `catch` gives to a thrown error.
 *
 * Request bodies are JSON values (`JsValue.Json`); a field missing from the
 * body is `None`. The storage calls of the calendar, booking and subscription
 * routes are not modelled: the model stops at the row or patch handed to them.
 */
module Api {
  import opened JsText
  import opened JsNumber
  import opened JsValue
  import opened CivilDate
  import Net
  import opened Sync
  import opened RoutePath

  /** A validated value, or the message of the 400 answer. */
  datatype Checked<T> = Accept(value: T) | Reject(message: string)

  datatype Body =
    | Error(error: string)
    | SyncFailed(error: string)
    | SyncReport(httpStatus: Option<int>, bytes: Option<nat>, veventCount: Option<nat>)
    | Done

  datatype Reply = Reply(status: int, body: Body)

  /** The outer `catch`: the message of a thrown error, with 401 for "Unauthorized" and 500 otherwise. */
  function Thrown(message: string): (r: Reply)
    ensures r.body == Error(message)
    ensures r.status == 401 <==> message == UnauthorizedMessage
    ensures r.status == 401 || r.status == 500
  {
    Reply(if message == UnauthorizedMessage then 401 else 500, Error(message))
  }

  // ---------------------------------------------------------------- routes

  /** `idx >= 0 ? parts.slice(idx + 1) : parts` with `idx = parts.indexOf(name)`. */
  function AfterName(segs: seq<string>, name: string): (r: seq<string>)
    ensures |r| <= |segs| && r == segs[|segs| - |r|..]
    ensures name !in segs ==> r == segs
    ensures name in segs ==> |r| < |segs| && segs[|segs| - |r| - 1] == name && name !in segs[..|segs| - |r| - 1]
  {
    var idx := SegmentIndex(segs, name);
    if idx >= 0 then
      assert |segs| - |segs[idx + 1..]| - 1 == idx;
      segs[idx + 1..]
    else segs
  }

  /**
   * `routeParts`: the path segments after the first segment equal to the
   * function's name, or all of them when the name does not occur.
   */
  function RouteParts(pathname: string, name: string): (r: seq<string>)
    ensures forall i :: 0 <= i < |r| ==> r[i] != []
  {
    AfterName(Segments(Split(pathname, '/')), name)
  }

  /**
   * Whatever precedes the function's name in the path (for instance
   * `/functions/v1`), the route is what follows the name.
   */
  lemma RouteAfterName(prefix: seq<string>, name: string, rest: seq<string>)
    requires PlainSegments(prefix) && PlainSegments(rest) && PlainSegments([name])
    requires name !in prefix
    ensures RouteParts(PathOf(prefix + [name] + rest), name) == rest
  {
    var segs := prefix + [name] + rest;
    PlainJoined(prefix, name, rest);
    PathSegments(segs);
    assert segs[..|prefix|] == prefix;
    SegmentIndexAt(segs, name, |prefix|);
    assert segs[|prefix| + 1..] == rest;
  }

  /** The handler a request reaches. */
  datatype Handler =
    | ListCalendars | CreateCalendar | PatchCalendar(id: string) | DeleteCalendar(id: string)
    | ListBookings | CreateBooking | PatchBooking(id: string) | DeleteBooking(id: string)
    | ListSubscriptions | CreateSubscription | PatchSubscription(id: string) | DeleteSubscription(id: string)
    | SyncSubscription(id: string)
    | ListImportedEvents | ListSyncLogs | AccountDeletion
    | NotFound

  /** The handlers of one row, named by the route's second part. */
  predicate Targeted(h: Handler)
  {
    h.PatchCalendar? || h.DeleteCalendar? || h.PatchBooking? || h.DeleteBooking?
    || h.PatchSubscription? || h.DeleteSubscription? || h.SyncSubscription?
  }

  /** `parts[i]`, undefined past the end. */
  function Part(parts: seq<string>, i: nat): (r: Option<string>)
    ensures r.Some? <==> i < |parts|
    ensures r.Some? ==> r.value == parts[i]
  {
    if i < |parts| then Some(parts[i]) else None
  }

  /**
   * The handler's chain of route tests, in source order. The subscription
   * create test looks at the first part only; with `exactCreate` it also
   * requires that no second part follows, which is what the list of routes
   * documented at the head of the handler implies.
   */
  function Dispatch(verb: string, parts: seq<string>, exactCreate: bool): (r: Handler)
    ensures Targeted(r) ==> |parts| >= 2 && parts[1] != [] && r.id == parts[1]
    ensures r.SyncSubscription? ==> exactCreate && |parts| >= 3 && parts[2] == "sync" && verb == "POST"
    ensures r == CreateSubscription ==> verb == "POST" && |parts| >= 1 && parts[0] == "subscriptions"
  {
    var p0, p1, p2 := Part(parts, 0), Part(parts, 1), Part(parts, 2);
    if verb == "GET" && p0 == Some("calendars") then ListCalendars
    else if verb == "POST" && p0 == Some("calendars") then CreateCalendar
    else if p0 == Some("calendars") && Truthy(p1) && verb == "PATCH" then PatchCalendar(p1.value)
    else if p0 == Some("calendars") && Truthy(p1) && verb == "DELETE" then DeleteCalendar(p1.value)
    else if verb == "GET" && p0 == Some("manual-events") then ListBookings
    else if verb == "POST" && p0 == Some("manual-events") then CreateBooking
    else if p0 == Some("manual-events") && Truthy(p1) && verb == "PATCH" then PatchBooking(p1.value)
    else if p0 == Some("manual-events") && Truthy(p1) && verb == "DELETE" then DeleteBooking(p1.value)
    else if verb == "GET" && p0 == Some("subscriptions") then ListSubscriptions
    else if verb == "POST" && p0 == Some("subscriptions") && !(exactCreate && Truthy(p1)) then CreateSubscription
    else if p0 == Some("subscriptions") && Truthy(p1) && verb == "PATCH" then PatchSubscription(p1.value)
    else if p0 == Some("subscriptions") && Truthy(p1) && verb == "DELETE" then DeleteSubscription(p1.value)
    else if p0 == Some("subscriptions") && Truthy(p1) && verb == "POST" && p2 == Some("sync")
    then SyncSubscription(p1.value)
    else if verb == "GET" && p0 == Some("imported-events") then ListImportedEvents
    else if verb == "GET" && p0 == Some("sync-logs") then ListSyncLogs
    else if verb == "DELETE" && p0 == Some("account") then AccountDeletion
    else NotFound
  }

  /** The route tests as the handler writes them. */
  function Route(verb: string, parts: seq<string>): (r: Handler)
    ensures Targeted(r) ==> |parts| >= 2 && parts[1] != [] && r.id == parts[1]
    ensures !r.SyncSubscription?
  {
    Dispatch(verb, parts, false)
  }

  /**
   * As written, `POST /subscriptions/:id/sync` is taken by the subscription
   * create test, which looks at the first part only: the sync branch is never
   * reached, and a request without a body is refused for missing fields.
   */
  lemma PostSyncIsCreate(id: string, allowHttp: bool, parse: string -> Option<Net.Url>, now: int)
    requires id != []
    ensures Route("POST", ["subscriptions", id, "sync"]) == CreateSubscription
    ensures NewSubscription(SubscriptionBody(None, None, None, None, None), allowHttp, parse, now)
      == Reject(SubscriptionFieldsRequired)
  {
  }

  /** The route tests with the subscription create test limited to `/subscriptions` itself. */
  function IntendedRoute(verb: string, parts: seq<string>): (r: Handler)
    ensures Targeted(r) ==> |parts| >= 2 && parts[1] != [] && r.id == parts[1]
    ensures r == CreateSubscription ==> !Truthy(Part(parts, 1))
  {
    Dispatch(verb, parts, true)
  }

  /** The intended tests reach every documented subscription route, the sync route among them. */
  lemma IntendedRouteDocumented(id: string)
    requires id != []
    ensures IntendedRoute("GET", ["subscriptions"]) == ListSubscriptions
    ensures IntendedRoute("POST", ["subscriptions"]) == CreateSubscription
    ensures IntendedRoute("PATCH", ["subscriptions", id]) == PatchSubscription(id)
    ensures IntendedRoute("POST", ["subscriptions", id, "sync"]) == SyncSubscription(id)
  {
  }

  /** The intended tests reach every other documented route. */
  lemma IntendedRouteOthers(id: string)
    requires id != []
    ensures IntendedRoute("GET", ["calendars"]) == ListCalendars
    ensures IntendedRoute("POST", ["calendars"]) == CreateCalendar
    ensures IntendedRoute("PATCH", ["calendars", id]) == PatchCalendar(id)
    ensures IntendedRoute("GET", ["manual-events"]) == ListBookings
    ensures IntendedRoute("POST", ["manual-events"]) == CreateBooking
    ensures IntendedRoute("PATCH", ["manual-events", id]) == PatchBooking(id)
    ensures IntendedRoute("DELETE", ["manual-events", id]) == DeleteBooking(id)
    ensures IntendedRoute("GET", ["imported-events"]) == ListImportedEvents
    ensures IntendedRoute("GET", ["sync-logs"]) == ListSyncLogs
    ensures IntendedRoute("DELETE", ["account"]) == AccountDeletion
  {
  }

  /** The intended tests agree with the written ones on every request except a POST below `/subscriptions/:id`. */
  lemma IntendedRouteAgrees(verb: string, parts: seq<string>)
    ensures !(verb == "POST" && |parts| >= 2 && parts[0] == "subscriptions" && parts[1] != []) ==>
      IntendedRoute(verb, parts) == Route(verb, parts)
  {
  }

  // ---------------------------------------------------------------- statuses

  predicate IsBookingStatus(s: string)
  {
    s == "confirmed" || s == "cancelled" || s == "tentative" || s == "pending"
  }

  /** `normalizeStatus`: a known status in any letter case, or "confirmed". */
  function NormalizeStatus(status: Option<Json>): (r: string)
    ensures IsBookingStatus(r)
    ensures IsBookingStatus(Lower(StrOr(status, ""))) ==> r == Lower(StrOr(status, ""))
    ensures !IsBookingStatus(Lower(StrOr(status, ""))) ==> r == "confirmed"
  {
    var value := Lower(StrOr(status, ""));
    if value == "cancelled" then "cancelled"
    else if value == "tentative" then "tentative"
    else if value == "pending" then "pending"
    else "confirmed"
  }

  /** A status written by the API normalises to itself. */
  lemma NormalizeStatusIdempotent(status: Option<Json>)
    ensures NormalizeStatus(Some(JString(NormalizeStatus(status)))) == NormalizeStatus(status)
  {
    var r := NormalizeStatus(status);
    assert StrOr(Some(JString(r)), "") == r;
    StatusLowerCase(r);
  }

  lemma StatusLowerCase(s: string)
    requires IsBookingStatus(s)
    ensures Lower(s) == s
  {
    assert Net.LowerAscii(s);
    Net.LowerAsciiFixed(s);
  }

  /** Letter case does not matter to `normalizeStatus`. */
  lemma NormalizeStatusIgnoresCase(s: string)
    ensures NormalizeStatus(Some(JString(Lower(s)))) == NormalizeStatus(Some(JString(s)))
  {
    Net.LowerIdempotent(s);
  }

  /** `normalizeDefaultStatus`: pending, tentative or confirmed in any letter case, else null. */
  function NormalizeDefaultStatus(status: Option<Json>): (r: Option<string>)
    ensures r.Some? <==> IsBookingStatus(Lower(StrOr(status, ""))) && Lower(StrOr(status, "")) != "cancelled"
    ensures r.Some? ==> r.value == Lower(StrOr(status, ""))
  {
    var value := Lower(StrOr(status, ""));
    if value == "pending" || value == "tentative" || value == "confirmed" then Some(value) else None
  }

  /**
   * The two normalisers agree wherever a default status is accepted, and a
   * calendar's default can never be "cancelled".
   */
  lemma DefaultStatusAgrees(status: Option<Json>)
    ensures NormalizeDefaultStatus(status).Some? ==>
      NormalizeStatus(status) == NormalizeDefaultStatus(status).value != "cancelled"
  {
  }

  // ---------------------------------------------------------------- calendars

  const NameRequired := "name required"
  const PollMinutesMessage := "poll_interval_minutes must be positive"
  const DefaultStatusMessage := "default_booking_status must be pending, tentative, or confirmed"

  /** A text made of white space only, the empty text included. */
  predicate Blank(s: string) { forall i :: 0 <= i < |s| ==> IsJsSpace(s[i]) }

  /** `String(v ?? "").trim()`, refused when nothing but white space is left. */
  function CalendarName(name: Option<Json>): (r: Checked<string>)
    ensures r.Reject? <==> Blank(StrOr(name, ""))
    ensures r.Accept? ==> r.value != [] && !IsJsSpace(r.value[0]) && !IsJsSpace(r.value[|r.value| - 1])
    ensures r.Reject? ==> r.message == NameRequired
    ensures name.None? ==> r.Reject?
  {
    var text := StrOr(name, "");
    var trimmed := Trim(text);
    assert trimmed == [] <==> Blank(text);
    if trimmed == [] then Reject(NameRequired) else Accept(trimmed)
  }

  /** A stored calendar name is accepted again unchanged. */
  lemma CalendarNameStable(name: Option<Json>)
    requires CalendarName(name).Accept?
    ensures CalendarName(Some(JString(CalendarName(name).value))) == CalendarName(name)
  {
    TrimUnspaced(CalendarName(name).value);
  }

  /** `String([])` is empty, so an empty array is no name. */
  lemma EmptyArrayName()
    ensures CalendarName(Some(JArray([]))) == Reject(NameRequired)
  {
    assert StrOr(Some(JArray([])), "") == [];
  }

  /** `Number` reads a one-element array through its rendering: `[5]` and `["5"]` are 5. */
  lemma ArrayOfDigits(digits: string)
    requires digits != [] && AllDigits(digits)
    ensures var n := DigitsValue(digits) as real;
      && ToNumber(JArray([JNumber(Finite(n), digits)])) == Finite(n)
      && ToNumber(JArray([JString(digits)])) == Finite(n)
      && (n > 0.0 ==> PositiveNumber(ToNumber(JArray([JNumber(Finite(n), digits)]))))
  {
    var n := DigitsValue(digits) as real;
    assert ToStr(JArray([JNumber(Finite(n), digits)])) == digits;
    assert ToStr(JArray([JString(digits)])) == digits;
    DigitsToNumber(digits);
  }

  /** The fields of a calendar PATCH body. */
  datatype CalendarBody = CalendarBody(name: Option<Json>, pollIntervalMinutes: Option<Json>,
                                       includeImportedInExport: Option<Json>, defaultBookingStatus: Option<Json>)

  /** The update a calendar PATCH sends; `None` leaves the column alone. */
  datatype CalendarPatch = CalendarPatch(updatedAt: int, name: Option<string>, pollIntervalMinutes: Option<real>,
                                         includeImportedInExport: Option<bool>, defaultBookingStatus: Option<string>)

  predicate PositiveNumber(n: JsNum) { n.Finite? && n.v > 0.0 }

  /**
   * The calendar PATCH route builds its update field by field and answers 400
   * at the first field it refuses, in the order name, poll interval, default status.
   */
  method BuildCalendarPatch(body: CalendarBody, now: int) returns (r: Checked<CalendarPatch>)
    ensures r.Reject? <==>
      || (body.name.Some? && CalendarName(body.name).Reject?)
      || (body.pollIntervalMinutes.Some? && !PositiveNumber(ToNumber(body.pollIntervalMinutes.value)))
      || (body.defaultBookingStatus.Some? && NormalizeDefaultStatus(body.defaultBookingStatus).None?)
    ensures body.name.Some? && CalendarName(body.name).Reject? ==> r == Reject(NameRequired)
    ensures ((body.name.None? || CalendarName(body.name).Accept?) && body.pollIntervalMinutes.Some? &&
             !PositiveNumber(ToNumber(body.pollIntervalMinutes.value))) ==> r == Reject(PollMinutesMessage)
    ensures r.Reject? ==> r.message in {NameRequired, PollMinutesMessage, DefaultStatusMessage}
    ensures r.Accept? ==>
      var p := r.value;
      && p.updatedAt == now
      && p.name == (if body.name.Some? then Some(CalendarName(body.name).value) else None)
      && p.pollIntervalMinutes
         == (if body.pollIntervalMinutes.Some? then Some(ToNumber(body.pollIntervalMinutes.value).v) else None)
      && p.includeImportedInExport
         == (if body.includeImportedInExport.Some? then Some(JsTruthy(body.includeImportedInExport.value)) else None)
      && p.defaultBookingStatus
         == (if body.defaultBookingStatus.Some? then NormalizeDefaultStatus(body.defaultBookingStatus) else None)
    ensures r.Accept? ==>
      && (r.value.pollIntervalMinutes.Some? ==> r.value.pollIntervalMinutes.value > 0.0)
      && (r.value.defaultBookingStatus.Some? ==>
            r.value.defaultBookingStatus.value in {"pending", "tentative", "confirmed"})
  {
    var patch := CalendarPatch(now, None, None, None, None);
    if body.name.Some? {
      var name := CalendarName(body.name);
      if name.Reject? {
        return Reject(NameRequired);
      }
      patch := patch.(name := Some(name.value));
    }
    if body.pollIntervalMinutes.Some? {
      var poll := ToNumber(body.pollIntervalMinutes.value);
      if !PositiveNumber(poll) {
        return Reject(PollMinutesMessage);
      }
      patch := patch.(pollIntervalMinutes := Some(poll.v));
    }
    if body.includeImportedInExport.Some? {
      patch := patch.(includeImportedInExport := Some(JsTruthy(body.includeImportedInExport.value)));
    }
    if body.defaultBookingStatus.Some? {
      var normalized := NormalizeDefaultStatus(body.defaultBookingStatus);
      if normalized.None? {
        return Reject(DefaultStatusMessage);
      }
      patch := patch.(defaultBookingStatus := normalized);
    }
    return Accept(patch);
  }

  // ---------------------------------------------------------------- manual events

  const BookingFieldsRequired := "calendar_id/start_date/end_date required"
  const ExclusiveEndMessage := "end_date must be after start_date (exclusive)"
  const EndAfterStartMessage := "end_date must be after start_date"
  const ManualSource := "manual"

  /** The fields of a booking POST or PATCH body. */
  datatype BookingBody = BookingBody(calendarId: Option<Json>, startDate: Option<Json>, endDate: Option<Json>,
                                     summary: Option<Json>, uid: Option<Json>, status: Option<Json>)

  /** The row a booking POST inserts. */
  datatype BookingInsert = BookingInsert(calendarId: string, uid: string, startDate: string, endDate: string,
                                         summary: string, status: string, source: string)

  /** `body.uid ? String(body.uid) : generateUid()`, with the fresh UID as a parameter. */
  function BookingUid(uid: Option<Json>, freshUid: string): (r: string)
    ensures uid.None? ==> r == freshUid
    ensures uid.Some? && uid.value.JString? && uid.value.s != [] ==> r == uid.value.s
  {
    if uid.Some? && JsTruthy(uid.value) then ToStr(uid.value) else freshUid
  }

  /**
   * The booking POST route: the calendar and both dates are required, the end
   * (exclusive) must sort after the start, the summary defaults to "Blocked" and
   * the row is always a manual one.
   */
  function NewBooking(body: BookingBody, freshUid: string): (r: Checked<BookingInsert>)
    ensures r.Accept? <==>
      && StrOr(body.calendarId, "") != [] && StrOr(body.startDate, "") != [] && StrOr(body.endDate, "") != []
      && LexLess(StrOr(body.startDate, ""), StrOr(body.endDate, ""))
    ensures r.Reject? ==> r.message in {BookingFieldsRequired, ExclusiveEndMessage}
    ensures r.Accept? ==>
      && r.value.calendarId == StrOr(body.calendarId, "")
      && r.value.startDate == StrOr(body.startDate, "") && r.value.endDate == StrOr(body.endDate, "")
      && r.value.summary == StrOr(body.summary, "Blocked")
      && r.value.uid == BookingUid(body.uid, freshUid)
      && r.value.status == NormalizeStatus(body.status) && IsBookingStatus(r.value.status)
      && r.value.source == ManualSource
  {
    var calendarId := StrOr(body.calendarId, "");
    var start := StrOr(body.startDate, "");
    var end := StrOr(body.endDate, "");
    if calendarId == [] || start == [] || end == [] then Reject(BookingFieldsRequired)
    else
      LexTrichotomy(start, end);
      if LexLessEq(end, start) then Reject(ExclusiveEndMessage)
      else Accept(BookingInsert(calendarId, BookingUid(body.uid, freshUid), start, end,
                                StrOr(body.summary, "Blocked"), NormalizeStatus(body.status), ManualSource))
  }

  /** A summary that is absent or null becomes "Blocked". */
  lemma BlockedByDefault(body: BookingBody, freshUid: string)
    requires body.summary.None? || body.summary == Some(JNull)
    requires NewBooking(body, freshUid).Accept?
    ensures NewBooking(body, freshUid).value.summary == "Blocked"
  {
  }

  /** Calendar order of days. */
  predicate DayBefore(t: Ymd, u: Ymd)
  {
    t.year < u.year || (t.year == u.year && (t.month < u.month || (t.month == u.month && t.day < u.day)))
  }

  /** On valid days of four-digit years the ISO texts sort as the days do. */
  lemma IsoOrder(t: Ymd, u: Ymd)
    requires Valid(t) && Valid(u) && 1000 <= t.year <= 9999 && 1000 <= u.year <= 9999
    ensures LexLess(ToIsoDateUtc(t), ToIsoDateUtc(u)) <==> DayBefore(t, u)
  {
    LexTrichotomy(ToIsoDateUtc(t), ToIsoDateUtc(u));
    if DayBefore(t, u) {
      if t.year < u.year { LaterYearFormatsLater(t, u); }
      else if t.month < u.month { LaterMonthFormatsLater(t, u); }
      else { LaterDayFormatsLater(t, u); }
    } else if t != u {
      if u.year < t.year { LaterYearFormatsLater(u, t); }
      else if u.month < t.month { LaterMonthFormatsLater(u, t); }
      else { LaterDayFormatsLater(u, t); }
    }
  }

  /**
   * For ISO dates the string test of the booking POST is the calendar test: a
   * booking is accepted exactly when its end day is after its start day, so
   * every manual booking covers at least one night.
   */
  lemma BookingCoversANight(body: BookingBody, freshUid: string, t: Ymd, u: Ymd)
    requires Valid(t) && Valid(u) && 1000 <= t.year <= 9999 && 1000 <= u.year <= 9999
    requires StrOr(body.calendarId, "") != []
    requires body.startDate == Some(JString(ToIsoDateUtc(t))) && body.endDate == Some(JString(ToIsoDateUtc(u)))
    ensures NewBooking(body, freshUid).Accept? <==> DayBefore(t, u)
  {
    IsoOrder(t, u);
  }

  /** The update a booking PATCH sends; `None` leaves the column alone. */
  datatype BookingUpdate = BookingUpdate(updatedAt: int, status: Option<string>, summary: Option<string>,
                                         startDate: Option<string>, endDate: Option<string>)

  /** The PATCH date check: both dates given and non-empty, and the end not after the start. */
  predicate DatesClash(body: BookingBody)
  {
    && body.startDate.Some? && body.endDate.Some?
    && ToStr(body.startDate.value) != [] && ToStr(body.endDate.value) != []
    && !LexLess(ToStr(body.startDate.value), ToStr(body.endDate.value))
  }

  /**
   * The booking PATCH route sets only the fields the body holds (`String(null)`
   * is "null") and refuses the update only when both dates are given and the
   * end does not sort after the start.
   */
  method BuildBookingUpdate(body: BookingBody, now: int) returns (r: Checked<BookingUpdate>)
    ensures r.Reject? <==> DatesClash(body)
    ensures r.Reject? ==> r.message == EndAfterStartMessage
    ensures r.Accept? ==>
      var u := r.value;
      && u.updatedAt == now
      && u.status == (if body.status.Some? then Some(NormalizeStatus(body.status)) else None)
      && u.summary == (if body.summary.Some? then Some(ToStr(body.summary.value)) else None)
      && u.startDate == (if body.startDate.Some? then Some(ToStr(body.startDate.value)) else None)
      && u.endDate == (if body.endDate.Some? then Some(ToStr(body.endDate.value)) else None)
    ensures r.Accept? && r.value.startDate.Some? && r.value.endDate.Some? &&
            r.value.startDate.value != [] && r.value.endDate.value != [] ==>
      LexLess(r.value.startDate.value, r.value.endDate.value)
  {
    var updates := BookingUpdate(now, None, None, None, None);
    if body.status.Some? {
      updates := updates.(status := Some(NormalizeStatus(body.status)));
    }
    if body.summary.Some? {
      updates := updates.(summary := Some(ToStr(body.summary.value)));
    }
    if body.startDate.Some? {
      updates := updates.(startDate := Some(ToStr(body.startDate.value)));
    }
    if body.endDate.Some? {
      updates := updates.(endDate := Some(ToStr(body.endDate.value)));
    }
    if updates.startDate.Some? && updates.endDate.Some? && updates.startDate.value != [] &&
       updates.endDate.value != [] {
      LexTrichotomy(updates.startDate.value, updates.endDate.value);
      if LexLessEq(updates.endDate.value, updates.startDate.value) {
        return Reject(EndAfterStartMessage);
      }
    }
    return Accept(updates);
  }

  // ---------------------------------------------------------------- subscriptions

  const SubscriptionFieldsRequired := "calendar_id/name/ical_url required"
  const PollNumberMessage := "poll_interval_sec must be a number"
  const PollNonNegativeMessage := "poll_interval_sec must be a non-negative number"
  const NameEmptyMessage := "name cannot be empty"
  const UrlEmptyMessage := "ical_url cannot be empty"
  const NothingToUpdate := "No valid fields to update"

  /** The fields of a subscription POST or PATCH body. */
  datatype SubscriptionBody = SubscriptionBody(calendarId: Option<Json>, name: Option<Json>, icalUrl: Option<Json>,
                                               pollIntervalSec: Option<Json>, enabled: Option<Json>)

  /** The row a subscription POST inserts. */
  datatype SubscriptionInsert = SubscriptionInsert(calendarId: string, name: string, icalUrl: string, enabled: bool,
                                                   pollIntervalSec: real, nextDueAt: int)

  /** `Math.max(60, n)`: NaN stays NaN, everything else is raised to at least 60. */
  function AtLeast60(n: JsNum): (r: JsNum)
    ensures r.NaN? <==> n.NaN?
    ensures r.Finite? <==> n.Finite? || n.NegInf?
    ensures r.Finite? ==> r.v >= 60.0
    ensures r.Finite? && n.Finite? ==> r.v == n.v || (r.v == 60.0 && n.v < 60.0)
  {
    match n
    case NaN => NaN
    case PosInf => PosInf
    case NegInf => Finite(60.0)
    case Finite(v) => Finite(if v < 60.0 then 60.0 else v)
  }

  /** `Math.max(60, Number(body.poll_interval_sec ?? 300))`. */
  function NewPoll(poll: Option<Json>): (r: JsNum)
    ensures poll.None? ==> r == Finite(300.0)
  {
    AtLeast60(ToNumber(OrElse(poll, JNumber(Finite(300.0), "300"))))
  }

  /**
   * The subscription POST route: calendar, name and URL are required, the
   * interval is raised to at least 60 s and must be finite, the URL must pass the
   * outbound URL policy, and the new subscription is enabled and due at once.
   */
  function NewSubscription(body: SubscriptionBody, allowHttp: bool, parse: string -> Option<Net.Url>, now: int)
    : (r: Checked<SubscriptionInsert>)
    ensures r.Accept? <==>
      && StrOr(body.calendarId, "") != [] && StrOr(body.icalUrl, "") != [] && !Blank(StrOr(body.name, ""))
      && NewPoll(body.pollIntervalSec).Finite?
      && Net.ValidateOutboundUrl(StrOr(body.icalUrl, ""), HandlerUrlOptions(allowHttp), parse).Accepted?
    ensures r.Accept? ==>
      && r.value.calendarId == StrOr(body.calendarId, "")
      && r.value.name == Trim(StrOr(body.name, "")) && r.value.name != []
      && r.value.icalUrl == StrOr(body.icalUrl, "")
      && r.value.enabled && r.value.nextDueAt == now
      && r.value.pollIntervalSec == NewPoll(body.pollIntervalSec).v && r.value.pollIntervalSec >= 60.0
    ensures (StrOr(body.calendarId, "") == [] || StrOr(body.icalUrl, "") == [] || Blank(StrOr(body.name, ""))) ==>
      r == Reject(SubscriptionFieldsRequired)
    ensures r.Reject? && r.message != SubscriptionFieldsRequired && r.message != PollNumberMessage ==>
      var v := Net.ValidateOutboundUrl(StrOr(body.icalUrl, ""), HandlerUrlOptions(allowHttp), parse);
      v.Rejected? && r.message == "ical_url invalid: " + v.reason
  {
    var calendarId := StrOr(body.calendarId, "");
    var name := Trim(StrOr(body.name, ""));
    var icalUrl := StrOr(body.icalUrl, "");
    var poll := NewPoll(body.pollIntervalSec);
    if calendarId == [] || icalUrl == [] || name == [] then Reject(SubscriptionFieldsRequired)
    else if !poll.Finite? then Reject(PollNumberMessage)
    else
      match Net.ValidateOutboundUrl(icalUrl, HandlerUrlOptions(allowHttp), parse)
      case Rejected(reason) => Reject("ical_url invalid: " + reason)
      case Accepted(_) => Accept(SubscriptionInsert(calendarId, name, icalUrl, true, poll.v, now))
  }

  /** `poll === 0 ? 0 : Math.max(60, poll)` for a finite, non-negative `poll`, else a refusal. */
  function PatchedPoll(n: JsNum): (r: Option<real>)
    ensures r.Some? <==> n.Finite? && n.v >= 0.0
    ensures r.Some? ==> r.value == 0.0 || r.value >= 60.0
    ensures r.Some? ==> (r.value == 0.0 <==> n.v == 0.0)
    ensures r.Some? && n.v >= 60.0 ==> r.value == n.v
  {
    if !n.Finite? || n.v < 0.0 then None
    else if n.v == 0.0 then Some(0.0)
    else Some(AtLeast60(n).v)
  }

  /** The update a subscription PATCH sends; `None` leaves the column alone. */
  datatype SubscriptionPatch = SubscriptionPatch(enabled: Option<bool>, pollIntervalSec: Option<real>,
                                                 name: Option<string>, icalUrl: Option<string>)

  /** A URL a subscription PATCH accepts: trimmed, non-empty and allowed by the outbound policy. */
  predicate PatchUrlOk(v: Json, allowHttp: bool, parse: string -> Option<Net.Url>)
  {
    Trim(ToStr(v)) != [] && Net.ValidateOutboundUrl(Trim(ToStr(v)), HandlerUrlOptions(allowHttp), parse).Accepted?
  }

  /**
   * The subscription PATCH route: `enabled` by truthiness, an interval of 0 kept
   * and any other raised to at least 60 s, a trimmed non-empty name, a trimmed
   * URL that passes the outbound policy; a body with none of these is refused.
   */
  method BuildSubscriptionPatch(body: SubscriptionBody, allowHttp: bool, parse: string -> Option<Net.Url>)
    returns (r: Checked<SubscriptionPatch>)
    ensures r.Reject? <==>
      || (body.pollIntervalSec.Some? && PatchedPoll(ToNumber(body.pollIntervalSec.value)).None?)
      || (body.name.Some? && Trim(ToStr(body.name.value)) == [])
      || (body.icalUrl.Some? && !PatchUrlOk(body.icalUrl.value, allowHttp, parse))
      || (body.enabled.None? && body.pollIntervalSec.None? && body.name.None? && body.icalUrl.None?)
    ensures body.pollIntervalSec.Some? && PatchedPoll(ToNumber(body.pollIntervalSec.value)).None? ==>
      r == Reject(PollNonNegativeMessage)
    ensures r.Accept? ==>
      var p := r.value;
      && p.enabled == (if body.enabled.Some? then Some(JsTruthy(body.enabled.value)) else None)
      && p.pollIntervalSec
         == (if body.pollIntervalSec.Some? then PatchedPoll(ToNumber(body.pollIntervalSec.value)) else None)
      && p.name == (if body.name.Some? then Some(Trim(ToStr(body.name.value))) else None)
      && p.icalUrl == (if body.icalUrl.Some? then Some(Trim(ToStr(body.icalUrl.value))) else None)
    ensures r.Accept? ==>
      && (r.value.enabled.Some? || r.value.pollIntervalSec.Some? || r.value.name.Some? || r.value.icalUrl.Some?)
      && (r.value.pollIntervalSec.Some? ==> r.value.pollIntervalSec.value == 0.0 || r.value.pollIntervalSec.value >= 60.0)
      && (r.value.icalUrl.Some? ==>
            Net.ValidateOutboundUrl(r.value.icalUrl.value, HandlerUrlOptions(allowHttp), parse).Accepted?)
  {
    var patch := SubscriptionPatch(None, None, None, None);
    if body.enabled.Some? {
      patch := patch.(enabled := Some(JsTruthy(body.enabled.value)));
    }
    if body.pollIntervalSec.Some? {
      var poll := PatchedPoll(ToNumber(body.pollIntervalSec.value));
      if poll.None? {
        return Reject(PollNonNegativeMessage);
      }
      patch := patch.(pollIntervalSec := poll);
    }
    if body.name.Some? {
      var name := Trim(ToStr(body.name.value));
      if name == [] {
        return Reject(NameEmptyMessage);
      }
      patch := patch.(name := Some(name));
    }
    if body.icalUrl.Some? {
      var icalUrl := Trim(ToStr(body.icalUrl.value));
      if icalUrl == [] {
        return Reject(UrlEmptyMessage);
      }
      var check := Net.ValidateOutboundUrl(icalUrl, HandlerUrlOptions(allowHttp), parse);
      if check.Rejected? {
        return Reject("ical_url invalid: " + check.reason);
      }
      patch := patch.(icalUrl := Some(icalUrl));
    }
    if patch == SubscriptionPatch(None, None, None, None) {
      return Reject(NothingToUpdate);
    }
    return Accept(patch);
  }

  // ---------------------------------------------------------------- sync route

  /** `{ ok: false, error }` with 500 when the attempt failed, else the fetch telemetry. */
  function SyncReply(a: Attempt): (r: Reply)
    ensures r.status == 200 || r.status == 500
    ensures r.status == 500 <==> Truthy(a.lastError)
    ensures r.status == 500 <==> LogStatus(a.lastError) == "error"
    ensures r.status == 200 ==> r.body == SyncReport(a.httpStatus, a.bytes, a.veventCount)
  {
    if Truthy(a.lastError) then Reply(500, SyncFailed(a.lastError.value))
    else Reply(200, SyncReport(a.httpStatus, a.bytes, a.veventCount))
  }

  /**
   * `POST /subscriptions/:id/sync`. A failed lookup throws (its message is
   * `lookupError`) and writes nothing. Otherwise one attempt runs with the
   * handler limits and no pre-check, so a URL the outbound policy refuses is
   * recorded as a failed attempt with a log row rather than refused up front.
   */
  method SyncRoute(store: Store, userId: string, subId: string, lookupError: string, allowHttp: bool,
                   w: Net.World, today: Ymd, faults: Faults, now: int)
    returns (reply: Reply, ghost attempt: Option<Attempt>)
    requires Valid(today)
    modifies store
    ensures FindSubscription(old(store.subscriptions), subId).None? ==>
      && reply == Thrown(lookupError) && attempt.None?
      && store.imported == old(store.imported) && store.logs == old(store.logs)
      && store.subscriptions == old(store.subscriptions)
    ensures FindSubscription(old(store.subscriptions), subId).Some? ==>
      var sub := FindSubscription(old(store.subscriptions), subId).value;
      && attempt.Some?
      && reply == SyncReply(attempt.value)
      && store.logs == old(store.logs) + [LogOf(sub, subId, attempt.value, now)]
      && store.subscriptions
         == Rescheduled(old(store.subscriptions), subId, now, attempt.value.httpStatus, attempt.value.lastError,
                        NextDue(now, sub))
      && (forall k: Key :: k.subscriptionId != subId ==> (k in store.imported <==> k in old(store.imported)))
      && (forall k :: k in old(store.imported) && k.subscriptionId != subId ==> store.imported[k] == old(store.imported)[k])
      && (EarlyStop(sub, None, HandlerLimits(allowHttp), w, faults).Some? ==>
          attempt.value == EarlyStop(sub, None, HandlerLimits(allowHttp), w, faults).value
          && store.imported == old(store.imported))
      && (attempt.value.lastError.None? <==>
          Synced(old(store.imported), sub, None, HandlerLimits(allowHttp), w, faults, today))
      && (attempt.value.lastError.None? ==>
          SyncedAs(attempt.value, old(store.imported), store.imported, sub, userId,
                   HandlerLimits(allowHttp), w, today, now))
      && store.imported
         == AfterAttempt(old(store.imported), sub, userId, None, HandlerLimits(allowHttp), w, faults, today, now)
  {
    var found := FindSubscription(store.subscriptions, subId);
    if found.None? {
      return Thrown(lookupError), None;
    }
    var a := SyncAttempt(store, found.value, subId, userId, None, HandlerLimits(allowHttp), w, today, faults, now);
    reply := SyncReply(a);
    attempt := Some(a);
  }

  /**
   * Where the manual sync handler answers 400 to a URL the outbound policy
   * refuses, the sync route records an attempt whose error is the policy's reason.
   */
  lemma RefusedUrlBecomesAttempt(sub: Subscription, allowHttp: bool, w: Net.World, faults: Faults)
    requires faults.existing.None?
    requires Net.ValidateOutboundUrl(sub.icalUrl, HandlerUrlOptions(allowHttp), w.parse).Rejected?
    ensures EarlyStop(sub, None, HandlerLimits(allowHttp), w, faults)
      == Some(Attempt(Some(Net.ValidateOutboundUrl(sub.icalUrl, HandlerUrlOptions(allowHttp), w.parse).reason),
                      0, 0, 0, None, None, None))
  {
  }

  // ---------------------------------------------------------------- account deletion

  /** A table and the column that holds the user's id. */
  datatype CleanupStep = CleanupStep(table: string, column: string)

  /** The clean-up order, leaf tables first. */
  const CleanupSteps: seq<CleanupStep> := [
    CleanupStep("sync_logs", "user_id"),
    CleanupStep("imported_events", "user_id"),
    CleanupStep("subscriptions", "user_id"),
    CleanupStep("bookings", "user_id"),
    CleanupStep("calendars", "user_id"),
    CleanupStep("user_roles", "user_id"),
    CleanupStep("profiles", "id")
  ]

  const CleanupFailedMessage := "Account cleanup failed"

  /** `error.message || "Account cleanup failed"`. */
  function CleanupMessage(message: string): (r: string)
    ensures r != []
    ensures message != [] ==> r == message
  {
    if message != [] then message else CleanupFailedMessage
  }

  /** The first clean-up step, from `from` on, whose delete fails, or the number of steps. */
  function FirstFailure(stepErrors: nat -> Option<string>, from: nat): (r: nat)
    requires from <= |CleanupSteps|
    ensures from <= r <= |CleanupSteps|
    ensures forall j :: from <= j < r ==> stepErrors(j).None?
    ensures r < |CleanupSteps| ==> stepErrors(r).Some?
    decreases |CleanupSteps| - from
  {
    if from == |CleanupSteps| || stepErrors(from).Some? then from else FirstFailure(stepErrors, from + 1)
  }

  /**
   * `DELETE /account`: the tables are cleared in order and the first failing
   * delete stops the clean-up with its message; the sign-in account is deleted
   * only once every table is cleared. `stepErrors(i)` is the error of the i-th
   * delete, `authError` that of the account deletion.
   */
  method DeleteAccount(stepErrors: nat -> Option<string>, authError: Option<string>)
    returns (reply: Reply, cleared: seq<CleanupStep>, accountDeleted: bool)
    ensures var k := FirstFailure(stepErrors, 0);
      && cleared == CleanupSteps[..k]
      && (k < |CleanupSteps| ==> reply == Thrown(CleanupMessage(stepErrors(k).value)) && !accountDeleted)
      && (k == |CleanupSteps| ==> accountDeleted == authError.None?)
      && (k == |CleanupSteps| && authError.Some? ==> reply == Thrown(authError.value))
    ensures accountDeleted ==> cleared == CleanupSteps
    ensures reply.status == 200 <==> accountDeleted
    ensures reply.status == 200 ==> reply.body == Done
  {
    cleared := [];
    var i := 0;
    while i < |CleanupSteps|
      invariant 0 <= i <= |CleanupSteps|
      invariant cleared == CleanupSteps[..i]
      invariant forall j :: 0 <= j < i ==> stepErrors(j).None?
      invariant FirstFailure(stepErrors, 0) == FirstFailure(stepErrors, i)
    {
      var error := stepErrors(i);
      if error.Some? {
        return Thrown(CleanupMessage(error.value)), cleared, false;
      }
      cleared := cleared + [CleanupSteps[i]];
      i := i + 1;
    }
    if authError.Some? {
      return Thrown(authError.value), cleared, false;
    }
    return Reply(200, Done), cleared, true;
  }
}
