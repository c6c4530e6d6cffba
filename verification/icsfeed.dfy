/**
 * The public feed (supabase/functions/ics-feed/index.ts): the token taken
 * from the path, the lower-case hex encoding of the token's digest, the hourly
 * rate-limit decision, the audit rows, and the event list handed to the
 * calendar builder.
 *
 * The digest, the rate-limit counter and the table reads are parameters
 * (`FeedWorld`); the audit table is the class `AuditLog`.
 */
module Feed {
  import opened JsText
  import opened JsNumber
  import opened JsValue
  import opened RoutePath
  import opened IcsText
  import opened IcsCodec

  const FunctionName := "ics-feed"
  const RateLimitPerHour := 100
  const TokenPrefixLength := 8
  const HourMs := 3600000

  // ---------------------------------------------------------------- token

  /**
   * The path segment right after `ics-feed`, or None when the name is missing
   * or is the last segment (the 400 "Feed token required").
   */
  function FeedToken(pathname: string): (r: Option<string>)
    ensures var parts := Segments(Split(pathname, '/'));
      r.Some? <==> FunctionName in parts && SegmentIndex(parts, FunctionName) < |parts| - 1
    ensures r.Some? ==> r.value != [] && '/' !in r.value
  {
    var parts := Segments(Split(pathname, '/'));
    var idx := SegmentIndex(parts, FunctionName);
    if idx == -1 || idx == |parts| - 1 then None
    else
      assert parts[idx + 1] in Split(pathname, '/');
      Some(parts[idx + 1])
  }

  /** Whatever precedes `ics-feed` in the path, the token is the segment after it. */
  lemma FeedTokenOfPath(prefix: seq<string>, token: string, rest: seq<string>)
    requires PlainSegments(prefix) && PlainSegments([token]) && PlainSegments(rest)
    requires FunctionName !in prefix
    ensures FeedToken(PathOf(prefix + [FunctionName] + ([token] + rest))) == Some(token)
  {
    var segs := prefix + [FunctionName] + ([token] + rest);
    assert PlainSegments([FunctionName]);
    PlainJoined(prefix, FunctionName, [token] + rest) by {
      assert PlainSegments([token] + rest) by {
        forall i | 0 <= i < |[token] + rest|
          ensures ([token] + rest)[i] != [] && '/' !in ([token] + rest)[i]
        {
          if i > 0 { assert ([token] + rest)[i] == rest[i - 1]; }
        }
      }
    }
    PathSegments(segs);
    assert segs[..|prefix|] == prefix;
    SegmentIndexAt(segs, FunctionName, |prefix|);
    assert segs[|prefix| + 1] == token;
  }

  // ---------------------------------------------------------------- client address

  lemma TrimKeepsOut(s: string, c: char)
    requires c !in s
    ensures c !in Trim(s)
  {
    var e := TrimEnd(s);
    PrefixKeepsOut(e, s, c);
    SuffixKeepsOut(e, |e| - |TrimStart(e)|, c);
  }

  lemma PrefixKeepsOut(p: string, s: string, c: char)
    requires p <= s && c !in s
    ensures c !in p
  {
    forall i | 0 <= i < |p|
      ensures p[i] != c
    {
      assert p[i] == s[i];
    }
  }

  lemma SuffixKeepsOut(s: string, lo: nat, c: char)
    requires lo <= |s| && c !in s
    ensures c !in s[lo..]
  {
    forall i | 0 <= i < |s| - lo
      ensures s[lo..][i] != c
    {
      assert s[lo..][i] == s[lo + i];
    }
  }

  /**
   * `getClientIp`: the first comma-separated entry of `x-forwarded-for`,
   * trimmed, when that header is non-empty, else `cf-connecting-ip`.
   */
  function ClientIp(forwardedFor: Option<string>, cfConnectingIp: Option<string>): (r: Option<string>)
    ensures Truthy(forwardedFor) ==> r.Some? && ',' !in r.value
    ensures !Truthy(forwardedFor) ==> r == cfConnectingIp
  {
    if Truthy(forwardedFor) then
      var first := Split(forwardedFor.value, ',')[0];
      TrimKeepsOut(first, ',');
      Some(Trim(first))
    else cfConnectingIp
  }

  /** The client is the first hop of the forwarding chain. */
  lemma ClientIpFirstHop(hop: string, rest: string, cfConnectingIp: Option<string>)
    requires ',' !in hop
    ensures ClientIp(Some(hop + "," + rest), cfConnectingIp) == Some(Trim(hop))
  {
    SplitConcat(hop, ',', rest);
    assert hop + "," + rest == hop + [','] + rest;
  }

  // ---------------------------------------------------------------- hex digest

  type Byte = b: int | 0 <= b < 256

  function HexDigit(d: nat): (c: char)
    requires d < 16
    ensures IsLowerHexDigit(c)
  {
    if d < 10 then ('0' as int + d) as char else ('a' as int + d - 10) as char
  }

  /** `n.toString(16)`. */
  function ToBase16(n: nat): (r: string)
    ensures r != []
    ensures n < 16 ==> r == [HexDigit(n)]
    ensures 16 <= n < 256 ==> r == [HexDigit(n / 16), HexDigit(n % 16)]
    decreases n
  {
    if n < 16 then [HexDigit(n)] else ToBase16(n / 16) + [HexDigit(n % 16)]
  }

  /** `s.padStart(2, "0")`. */
  function PadStart2(s: string): (r: string)
    ensures |s| >= 2 ==> r == s
    ensures |s| < 2 ==> |r| == 2 && r[2 - |s|..] == s
  {
    if |s| >= 2 then s else if |s| == 1 then "0" + s else "00"
  }

  /** `b.toString(16).padStart(2, "0")`: two lower-case hex digits, high nibble first. */
  function HexByte(b: Byte): (r: string)
    ensures r == [HexDigit(b / 16), HexDigit(b % 16)]
  {
    PadStart2(ToBase16(b))
  }

  predicate IsLowerHexDigit(c: char) { '0' <= c <= '9' || 'a' <= c <= 'f' }

  /** `hashArray.map(...).join("")`. */
  function HexEncode(bytes: seq<Byte>): (r: string)
    ensures |r| == 2 * |bytes|
    ensures forall i :: 0 <= i < |r| ==> IsLowerHexDigit(r[i])
  {
    if bytes == [] then ""
    else
      var h := HexByte(bytes[0]);
      var t := HexEncode(bytes[1..]);
      assert forall i :: 2 <= i < |h + t| ==> (h + t)[i] == t[i - 2];
      h + t
  }

  function HexValue(c: char): (d: nat)
    requires IsLowerHexDigit(c)
    ensures d < 16 && HexDigit(d) == c
  {
    if c <= '9' then c as int - '0' as int else c as int - 'a' as int + 10
  }

  /** The bytes a lower-case hex text of even length spells. */
  function HexDecode(s: string): (r: seq<Byte>)
    requires |s| % 2 == 0 && forall i :: 0 <= i < |s| ==> IsLowerHexDigit(s[i])
    ensures |r| * 2 == |s|
  {
    if s == [] then [] else [HexValue(s[0]) * 16 + HexValue(s[1])] + HexDecode(s[2..])
  }

  lemma HexValueOfDigit(d: nat)
    requires d < 16
    ensures IsLowerHexDigit(HexDigit(d)) && HexValue(HexDigit(d)) == d
  {
  }

  /** Decoding the hex text gives the digest back: the encoding loses nothing. */
  lemma {:induction false} HexRoundTrip(bytes: seq<Byte>)
    ensures HexDecode(HexEncode(bytes)) == bytes
  {
    if bytes != [] {
      var b := bytes[0];
      HexValueOfDigit(b / 16);
      HexValueOfDigit(b % 16);
      var s := HexEncode(bytes);
      assert s[2..] == HexEncode(bytes[1..]);
      HexRoundTrip(bytes[1..]);
      assert bytes == [b] + bytes[1..];
    }
  }

  /** The first `2k` hex digits encode the first `k` bytes. */
  lemma {:induction false} HexEncodePrefix(bytes: seq<Byte>, k: nat)
    requires k <= |bytes|
    ensures HexEncode(bytes)[..2 * k] == HexEncode(bytes[..k])
  {
    if k > 0 {
      HexEncodePrefix(bytes[1..], k - 1);
      var h := HexByte(bytes[0]);
      assert bytes[..k][0] == bytes[0] && bytes[..k][1..] == bytes[1..][..k - 1];
      assert HexEncode(bytes[..k]) == h + HexEncode(bytes[1..][..k - 1]);
      assert HexEncode(bytes) == h + HexEncode(bytes[1..]);
      assert (h + HexEncode(bytes[1..]))[..2 * k] == h + HexEncode(bytes[1..])[..2 * (k - 1)];
    }
  }

  /** `tokenHash.slice(0, 8)`. */
  function TokenPrefix(hash: string): (r: string)
    ensures |r| == if |hash| < TokenPrefixLength then |hash| else TokenPrefixLength
    ensures r <= hash
  {
    if |hash| < TokenPrefixLength then hash else hash[..TokenPrefixLength]
  }

  /** For a digest of at least 4 bytes (SHA-256 has 32) the audit keeps the hex of its first 4 bytes. */
  lemma AuditPrefixOfDigest(digest: seq<Byte>)
    requires |digest| >= 4
    ensures TokenPrefix(HexEncode(digest)) == HexEncode(digest[..4])
    ensures |TokenPrefix(HexEncode(digest))| == 8
  {
    HexEncodePrefix(digest, 4);
  }

  // ---------------------------------------------------------------- rate limit

  /** `windowStart.setMinutes(0, 0, 0)` on a UTC clock: the start of the current hour. */
  function WindowStart(nowMs: int): (r: int)
    ensures r % HourMs == 0 && r <= nowMs < r + HourMs
  {
    nowMs - nowMs % HourMs
  }

  /** Every instant of an hour counts against the same window. */
  lemma SameHourSameWindow(a: int, b: int)
    requires WindowStart(a) <= b < WindowStart(a) + HourMs
    ensures WindowStart(b) == WindowStart(a)
  {
    var w := WindowStart(a);
    var q := w / HourMs;
    assert w == q * HourMs;
    assert b == q * HourMs + (b - w);
    assert b % HourMs == b - w;
  }

  /** `typeof countData === "number" ? countData : 0`. */
  function RateCount(data: Json): (r: JsNum)
    ensures !data.JNumber? ==> r == Finite(0.0)
  {
    if data.JNumber? then data.n else Finite(0.0)
  }

  /** `count > 100`. */
  predicate OverLimit(count: JsNum)
  {
    count.PosInf? || (count.Finite? && count.v > RateLimitPerHour as real)
  }

  /** A count that is not a number, a numeric string included, never limits. */
  lemma NonNumericCountPasses(data: Json)
    requires !data.JNumber?
    ensures !OverLimit(RateCount(data))
  {
  }

  // ---------------------------------------------------------------- events

  /** A manual booking as the feed reads it. */
  datatype FeedBooking = FeedBooking(id: string, uid: Option<string>, startDate: string, endDate: string,
                                     summary: string, status: string)

  /** An imported event as the feed reads it. */
  datatype FeedImported = FeedImported(subscriptionId: string, sourceUid: string, startDate: string, endDate: string,
                                       summary: string, status: string)

  /** `booking.uid || \`m-${booking.id}@icaltester\``. */
  function ManualUid(b: FeedBooking): (r: string)
    ensures Truthy(b.uid) ==> r == b.uid.value
    ensures r != [] && (!Truthy(b.uid) ==> r[0] == 'm')
  {
    if Truthy(b.uid) then b.uid.value else "m-" + b.id + "@icaltester"
  }

  /** `i-${subscription_id}-${source_uid}@icaltester`. */
  function ImportedUid(e: FeedImported): (r: string)
    ensures r != [] && r[0] == 'i'
  {
    "i-" + e.subscriptionId + "-" + e.sourceUid + "@icaltester"
  }

  /**
   * Imported UIDs of subscriptions whose ids have one length (UUIDs) identify
   * the subscription and the source UID: events of two subscriptions never merge.
   */
  lemma ImportedUidInjective(a: FeedImported, b: FeedImported)
    requires |a.subscriptionId| == |b.subscriptionId|
    requires ImportedUid(a) == ImportedUid(b)
    ensures a.subscriptionId == b.subscriptionId && a.sourceUid == b.sourceUid
  {
    var n := |a.subscriptionId|;
    var ua := ImportedUid(a);
    var ub := ImportedUid(b);
    assert ua[2..2 + n] == a.subscriptionId;
    assert ub[2..2 + n] == b.subscriptionId;
    assert |ua| == n + |a.sourceUid| + 14 && |ub| == n + |b.sourceUid| + 14;
    assert ua[3 + n..|ua| - 11] == a.sourceUid;
    assert ub[3 + n..|ub| - 11] == b.sourceUid;
  }

  /** A generated manual UID never equals an imported one. */
  lemma GeneratedUidsDiffer(b: FeedBooking, e: FeedImported)
    requires !Truthy(b.uid)
    ensures ManualUid(b) != ImportedUid(e)
  {
  }

  function ManualEntry(b: FeedBooking): CalendarEntry
  {
    CalendarEntry(ManualUid(b), b.startDate, b.endDate, b.summary, Some(b.status))
  }

  function ImportedEntry(e: FeedImported): CalendarEntry
  {
    CalendarEntry(ImportedUid(e), e.startDate, e.endDate, e.summary, Some(e.status))
  }

  function ManualEntries(bookings: seq<FeedBooking>): (r: seq<CalendarEntry>)
    ensures |r| == |bookings|
    ensures forall i :: 0 <= i < |bookings| ==> r[i] == ManualEntry(bookings[i])
  {
    if bookings == [] then [] else [ManualEntry(bookings[0])] + ManualEntries(bookings[1..])
  }

  function ImportedEntries(events: seq<FeedImported>): (r: seq<CalendarEntry>)
    ensures |r| == |events|
    ensures forall i :: 0 <= i < |events| ==> r[i] == ImportedEntry(events[i])
  {
    if events == [] then [] else [ImportedEntry(events[0])] + ImportedEntries(events[1..])
  }

  /**
   * The `events` list: every manual booking, in order, then the imported
   * events when the calendar exports them.
   */
  function FeedEvents(bookings: seq<FeedBooking>, imported: seq<FeedImported>, includeImported: bool)
    : (r: seq<CalendarEntry>)
    ensures |r| == |bookings| + (if includeImported then |imported| else 0)
    ensures forall i :: 0 <= i < |bookings| ==> r[i] == ManualEntry(bookings[i])
    ensures includeImported ==> forall j :: 0 <= j < |imported| ==> r[|bookings| + j] == ImportedEntry(imported[j])
  {
    ManualEntries(bookings) + (if includeImported then ImportedEntries(imported) else [])
  }

  // ---------------------------------------------------------------- handler

  /** A row of `feed_access_audit`. */
  datatype AuditRow = AuditRow(tokenHashPrefix: string, ip: Option<string>, statusCode: int, isRateLimited: bool)

  class AuditLog {
    var rows: seq<AuditRow>

    constructor()
      ensures rows == []
    {
      rows := [];
    }

    /** `logAccess`: a failed insert is caught and only reported on the console. */
    method Record(row: AuditRow, insertOk: bool)
      modifies this
      ensures rows == if insertOk then old(rows) + [row] else old(rows)
    {
      if insertOk {
        rows := rows + [row];
      }
    }
  }

  datatype RateReply = RateCounted(data: Json) | RateFailed(message: string)

  datatype FeedCalendar = FeedCalendar(id: string, name: string, includeImportedInExport: bool)

  datatype CalendarLookup = CalendarFound(calendar: Option<FeedCalendar>) | CalendarFailed

  datatype Rows<T> = Rows(rows: seq<T>) | RowsFailed

  /**
   * What the handler reads: the digest of a token, the counter the rate-limit
   * call returns for a hash and window start, the calendar of a token hash,
   * and the manual bookings and imported events of a calendar id.
   */
  datatype FeedWorld = FeedWorld(digest: string -> seq<Byte>, rate: (string, int) -> RateReply,
                                 calendarByHash: string -> CalendarLookup,
                                 bookingsOf: string -> Rows<FeedBooking>,
                                 importedOf: string -> Rows<FeedImported>)

  datatype FeedRequest = FeedRequest(pathname: string, forwardedFor: Option<string>, cfConnectingIp: Option<string>)

  /** The outcome of a request: a plain-text answer with the audit row it writes, or the calendar to serve. */
  datatype Decision = Answer(status: int, message: string, audit: Option<AuditRow>)
                    | Serve(name: string, events: seq<CalendarEntry>)

  function TokenHash(req: FeedRequest, w: FeedWorld): string
    requires FeedToken(req.pathname).Some?
  {
    HexEncode(w.digest(FeedToken(req.pathname).value))
  }

  function AuditOf(req: FeedRequest, hash: string, status: int, limited: bool): AuditRow
  {
    AuditRow(TokenPrefix(hash), ClientIp(req.forwardedFor, req.cfConnectingIp), status, limited)
  }

  /**
   * The decisions of the handler in their order: token, rate limit, calendar,
   * bookings, imported events. Every 500 and the 429 are audited; the 400,
   * the 404 and a served feed are not.
   */
  function Decide(req: FeedRequest, w: FeedWorld, nowMs: int): (r: Decision)
    ensures FeedToken(req.pathname).None? ==> r == Answer(400, "Feed token required", None)
    ensures r.Answer? ==> (r.audit.Some? <==> r.status == 500 || r.status == 429)
    ensures r.Answer? && r.audit.Some? ==>
      && r.audit.value.statusCode == r.status
      && r.audit.value.tokenHashPrefix == TokenPrefix(TokenHash(req, w))
      && r.audit.value.ip == ClientIp(req.forwardedFor, req.cfConnectingIp)
      && (r.audit.value.isRateLimited <==> r.status == 429)
    ensures r.Answer? && r.status == 429 ==>
      var hash := TokenHash(req, w);
      w.rate(hash, WindowStart(nowMs)).RateCounted? && OverLimit(RateCount(w.rate(hash, WindowStart(nowMs)).data))
    ensures r.Serve? ==>
      var hash := TokenHash(req, w);
      && w.rate(hash, WindowStart(nowMs)).RateCounted?
      && !OverLimit(RateCount(w.rate(hash, WindowStart(nowMs)).data))
      && w.calendarByHash(hash).CalendarFound? && w.calendarByHash(hash).calendar.Some?
      && var cal := w.calendarByHash(hash).calendar.value;
      && r.name == cal.name
      && w.bookingsOf(cal.id).Rows?
      && (cal.includeImportedInExport ==> w.importedOf(cal.id).Rows?)
      && r.events == FeedEvents(w.bookingsOf(cal.id).rows,
                                if cal.includeImportedInExport then w.importedOf(cal.id).rows else [],
                                cal.includeImportedInExport)
  {
    match FeedToken(req.pathname)
    case None => Answer(400, "Feed token required", None)
    case Some(token) =>
      var hash := HexEncode(w.digest(token));
      match w.rate(hash, WindowStart(nowMs))
      case RateFailed(message) =>
        Answer(500, "Error checking rate limit: " + (if message != [] then message else "Unknown error"),
               Some(AuditOf(req, hash, 500, false)))
      case RateCounted(data) =>
        if OverLimit(RateCount(data)) then Answer(429, "Rate limit exceeded", Some(AuditOf(req, hash, 429, true)))
        else
          match w.calendarByHash(hash)
          case CalendarFailed => Answer(500, "Error fetching calendar", Some(AuditOf(req, hash, 500, false)))
          case CalendarFound(None) => Answer(404, "Calendar not found", None)
          case CalendarFound(Some(cal)) =>
            match w.bookingsOf(cal.id)
            case RowsFailed => Answer(500, "Error fetching bookings", Some(AuditOf(req, hash, 500, false)))
            case Rows(bookings) =>
              if !cal.includeImportedInExport then Serve(cal.name, FeedEvents(bookings, [], false))
              else
                match w.importedOf(cal.id)
                case RowsFailed =>
                  Answer(500, "Error fetching imported events", Some(AuditOf(req, hash, 500, false)))
                case Rows(imported) => Serve(cal.name, FeedEvents(bookings, imported, true))
  }

  datatype FeedReply = FeedReply(status: int, body: string)

  /**
   * The handler: answers as `Decide` says, appends the audit row of an audited
   * answer (unless the insert fails), and serves a decided calendar as the
   * text of `buildIcsCalendar`.
   */
  method ServeFeed(audit: AuditLog, req: FeedRequest, w: FeedWorld, insertOk: bool, nowMs: int, clock: UtcClock)
    returns (reply: FeedReply)
    requires ClockValid(clock)
    modifies audit
    ensures Decide(req, w, nowMs).Answer? ==>
      var d := Decide(req, w, nowMs);
      && reply == FeedReply(d.status, d.message)
      && audit.rows == if d.audit.Some? && insertOk then old(audit.rows) + [d.audit.value] else old(audit.rows)
    ensures Decide(req, w, nowMs).Serve? ==>
      var d := Decide(req, w, nowMs);
      && reply == FeedReply(200, Serialize(CalendarLines(d.name, None, d.events, NowDtstamp(clock))))
      && audit.rows == old(audit.rows)
  {
    var token := FeedToken(req.pathname);
    if token.None? {
      return FeedReply(400, "Feed token required");
    }
    var hash := HexEncode(w.digest(token.value));
    var rate := w.rate(hash, WindowStart(nowMs));
    if rate.RateFailed? {
      audit.Record(AuditOf(req, hash, 500, false), insertOk);
      var detail := if rate.message != [] then rate.message else "Unknown error";
      return FeedReply(500, "Error checking rate limit: " + detail);
    }
    if OverLimit(RateCount(rate.data)) {
      audit.Record(AuditOf(req, hash, 429, true), insertOk);
      return FeedReply(429, "Rate limit exceeded");
    }
    var calendar := w.calendarByHash(hash);
    if calendar.CalendarFailed? {
      audit.Record(AuditOf(req, hash, 500, false), insertOk);
      return FeedReply(500, "Error fetching calendar");
    }
    if calendar.calendar.None? {
      return FeedReply(404, "Calendar not found");
    }
    var cal := calendar.calendar.value;
    var bookings := w.bookingsOf(cal.id);
    if bookings.RowsFailed? {
      audit.Record(AuditOf(req, hash, 500, false), insertOk);
      return FeedReply(500, "Error fetching bookings");
    }
    var importedEvents: seq<FeedImported> := [];
    if cal.includeImportedInExport {
      var imported := w.importedOf(cal.id);
      if imported.RowsFailed? {
        audit.Record(AuditOf(req, hash, 500, false), insertOk);
        return FeedReply(500, "Error fetching imported events");
      }
      importedEvents := imported.rows;
    }
    var ical := BuildIcsCalendar(cal.name, None, FeedEvents(bookings.rows, importedEvents, cal.includeImportedInExport),
                                 clock);
    return FeedReply(200, ical);
  }
}
