/**
 * The iCalendar codec of supabase/functions/_shared/ics.ts: `parseIcs`, which scans
 * the unfolded lines of a feed and emits one event per complete VEVENT block, and
 * `buildIcsCalendar`, which writes a VCALENDAR of all-day events. The parser is
 * proved to read back what the builder writes.
 */
module IcsCodec {
  import opened JsText
  import opened JsNumber
  import opened CivilDate
  import opened IcsTypes
  import opened IcsText

  // ================================================================ parsing

  /** The `Partial<IcsEvent>` of an open VEVENT block. */
  datatype Draft = Draft(uid: Option<string>, summary: Option<string>, status: Option<IcsStatus>)

  /** The scanner's variables: the open block, the raw DTSTART / DTEND values and the output. */
  datatype ScanState = ScanState(cur: Option<Draft>, dtstartRaw: Option<string>,
                                 dtendRaw: Option<string>, events: seq<IcsEvent>)

  /** No block open and no date seen. */
  function Idle(events: seq<IcsEvent>): ScanState
  {
    ScanState(None, None, None, events)
  }

  /**
   * The end of an event starting at `start`: the parsed DTEND when one is present,
   * else the next day; an end not after the start is replaced by the next day.
   */
  function EventEnd(start: string, dtendRaw: Option<string>, today: Ymd): (r: string)
    requires Valid(today)
    ensures LexLess(start, r) || r == AddDays(start, 1)
  {
    var end := if Truthy(dtendRaw) then ParseToIsoDate(dtendRaw.value, today) else AddDays(start, 1);
    LexTrichotomy(start, end);
    if LexLessEq(end, start) then AddDays(start, 1) else end
  }

  /** The event an `END:VEVENT` line emits: only for a block with a UID and a DTSTART. */
  function CloseBlock(st: ScanState, today: Ymd): (r: seq<IcsEvent>)
    requires Valid(today)
    ensures |r| <= 1
    ensures r != [] <==> st.cur.Some? && Truthy(st.cur.value.uid) && Truthy(st.dtstartRaw)
    ensures r != [] ==> r[0].uid == st.cur.value.uid.value
                        && r[0].start == ParseToIsoDate(st.dtstartRaw.value, today)
                        && r[0].end == EventEnd(r[0].start, st.dtendRaw, today)
  {
    if st.cur.Some? && Truthy(st.cur.value.uid) && Truthy(st.dtstartRaw) then
      var d := st.cur.value;
      var start := ParseToIsoDate(st.dtstartRaw.value, today);
      [IcsEvent(d.uid.value, start, EventEnd(start, st.dtendRaw, today),
                if d.summary.Some? then d.summary.value else "Imported",
                if d.status.Some? then d.status.value else Confirmed)]
    else []
  }

  /** The effect of a `KEY:value` line inside an open block. */
  function Assign(st: ScanState, key: string, value: string): (r: ScanState)
    requires st.cur.Some?
    ensures r.events == st.events && r.cur.Some?
  {
    var d := st.cur.value;
    if key == "UID" then st.(cur := Some(d.(uid := Some(value))))
    else if key == "SUMMARY" then st.(cur := Some(d.(summary := Some(value))))
    else if key == "STATUS" then
      st.(cur := Some(d.(status := Some(if Upper(value) == "CANCELLED" then Cancelled else Confirmed))))
    else if key == "DTSTART" then st.(dtstartRaw := Some(value))
    else if key == "DTEND" then st.(dtendRaw := Some(value))
    else st
  }

  /** One iteration of the scanning loop on the raw line `raw`. */
  function Step(st: ScanState, raw: string, today: Ymd): (r: ScanState)
    requires Valid(today)
    ensures r.events == st.events || r.events == st.events + CloseBlock(st, today)
  {
    var line := TrimEnd(raw);
    if line == [] then st
    else if line == "BEGIN:VEVENT" then ScanState(Some(Draft(None, None, None)), None, None, st.events)
    else if line == "END:VEVENT" then Idle(st.events + CloseBlock(st, today))
    else if st.cur.None? then st
    else
      var cl := SplitIcsLine(line);
      if cl.key.None? || cl.key.value == [] then st
      else Assign(st, cl.key.value, cl.value)
  }

  /** The scanning loop run over `lines` from state `st`. */
  function ScanLines(st: ScanState, lines: seq<string>, today: Ymd): ScanState
    requires Valid(today)
    decreases |lines|
  {
    if lines == [] then st else ScanLines(Step(st, lines[0], today), lines[1..], today)
  }

  /** What `parseIcs(text)` returns, with `today` the clock's current UTC day. */
  function ParseSpec(text: string, today: Ymd): seq<IcsEvent>
    requires Valid(today)
  {
    ScanLines(Idle([]), SplitLines(Unfold(text)), today).events
  }

  /** `parseIcs`: unfold, split into lines, and scan them with the loop of the source. */
  method ParseIcs(text: string, today: Ymd) returns (events: seq<IcsEvent>)
    requires Valid(today)
    ensures events == ParseSpec(text, today)
  {
    var unfolded := Unfold(text);
    var lines := SplitLines(unfolded);
    events := [];
    var cur: Option<Draft> := None;
    var dtstartRaw: Option<string> := None;
    var dtendRaw: Option<string> := None;
    var i := 0;
    while i < |lines|
      invariant 0 <= i <= |lines|
      invariant ScanLines(ScanState(cur, dtstartRaw, dtendRaw, events), lines[i..], today)
                == ScanLines(Idle([]), lines, today)
    {
      ghost var before := ScanState(cur, dtstartRaw, dtendRaw, events);
      var line := TrimEnd(lines[i]);
      if line == [] {
      } else if line == "BEGIN:VEVENT" {
        cur := Some(Draft(None, None, None));
        dtstartRaw := None;
        dtendRaw := None;
      } else if line == "END:VEVENT" {
        if cur.Some? && Truthy(cur.value.uid) && Truthy(dtstartRaw) {
          var start := ParseToIsoDate(dtstartRaw.value, today);
          var end := if Truthy(dtendRaw) then ParseToIsoDate(dtendRaw.value, today) else AddDays(start, 1);
          if LexLessEq(end, start) {
            end := AddDays(start, 1);
          }
          var summary := if cur.value.summary.Some? then cur.value.summary.value else "Imported";
          var status := if cur.value.status.Some? then cur.value.status.value else Confirmed;
          events := events + [IcsEvent(cur.value.uid.value, start, end, summary, status)];
        }
        assert events == before.events + CloseBlock(before, today);
        cur := None;
        dtstartRaw := None;
        dtendRaw := None;
      } else if cur.Some? {
        var cl := SplitIcsLine(line);
        if cl.key.Some? && cl.key.value != [] {
          var key, value := cl.key.value, cl.value;
          if key == "UID" {
            cur := Some(cur.value.(uid := Some(value)));
          }
          if key == "SUMMARY" {
            cur := Some(cur.value.(summary := Some(value)));
          }
          if key == "STATUS" {
            cur := Some(cur.value.(status := Some(if Upper(value) == "CANCELLED" then Cancelled else Confirmed)));
          }
          if key == "DTSTART" {
            dtstartRaw := Some(value);
          }
          if key == "DTEND" {
            dtendRaw := Some(value);
          }
          assert ScanState(cur, dtstartRaw, dtendRaw, events) == Assign(before, key, value);
        }
      }
      assert ScanState(cur, dtstartRaw, dtendRaw, events) == Step(before, lines[i], today);
      assert lines[i..][1..] == lines[i + 1..];
      i := i + 1;
    }
    assert lines[i..] == [];
  }

  lemma {:induction false} ScanLinesConcat(st: ScanState, a: seq<string>, b: seq<string>, today: Ymd)
    requires Valid(today)
    ensures ScanLines(st, a + b, today) == ScanLines(ScanLines(st, a, today), b, today)
    decreases |a|
  {
    if a == [] {
      assert a + b == b;
    } else {
      assert (a + b)[0] == a[0] && (a + b)[1..] == a[1..] + b;
      ScanLinesConcat(Step(st, a[0], today), a[1..], b, today);
    }
  }

  lemma ScanLinesFrom(st: ScanState, lines: seq<string>, k: nat, today: Ymd)
    requires Valid(today) && k < |lines|
    ensures ScanLines(st, lines[k..], today) == ScanLines(Step(st, lines[k], today), lines[k + 1..], today)
  {
    assert lines[k..][1..] == lines[k + 1..];
  }

  // ---------------------------------------------------------------- end after start

  /** The calendar fields of a `YYYY-MM-DD` text. */
  function IsoFields(s: string): Ymd
    requires IsIsoDate(s)
  {
    Ymd(DigitsValue(s[..4]), DigitsValue(s[5..7]), DigitsValue(s[8..]))
  }

  /**
   * A `YYYY-MM-DD` text naming a real day of a four-digit year, and not the last
   * day 9999-12-31 (whose successor no longer has four digits).
   */
  predicate Canonical(s: string)
  {
    IsIsoDate(s) && s[0] != '0' && Valid(IsoFields(s)) && IsoFields(s) != Ymd(9999, 12, 31)
  }

  /** A canonical text is the formatted form of its own fields. */
  lemma CanonicalIsFormatted(s: string)
    requires Canonical(s)
    ensures 1000 <= IsoFields(s).year <= 9999 && Next(IsoFields(s)).year <= 9999
    ensures s == ToIsoDateUtc(IsoFields(s))
  {
    var y, m, d := s[..4], s[5..7], s[8..];
    var t := IsoFields(s);
    assert y == [y[0]] + y[1..];
    DigitsValueCons(y[0], y[1..]);
    assert Pow10(3) == 1000 by { assert Pow10(1) == 10 && Pow10(2) == 100; }
    DigitsValueBound(y);
    assert Pow10(4) == 10000 by { assert Pow10(3) == 1000; }
    NatToStringOfDigits(y);
    Pad2OfDigits(m);
    Pad2OfDigits(d);
    assert s == y + "-" + m + "-" + d;
  }

  /** Whenever the start is canonical, the end the parser picks is strictly later. */
  lemma EventEndAfterStart(start: string, dtendRaw: Option<string>, today: Ymd)
    requires Valid(today) && Canonical(start)
    ensures LexLess(start, EventEnd(start, dtendRaw, today))
  {
    var t := IsoFields(start);
    CanonicalIsFormatted(start);
    AddOneDay(t);
    NextFormatsLater(t);
  }

  /** Every emitted event has a UID, and a canonical start comes before the end. */
  predicate WellFormed(e: IcsEvent)
  {
    e.uid != [] && (Canonical(e.start) ==> LexLess(e.start, e.end))
  }

  predicate AllWellFormed(es: seq<IcsEvent>)
  {
    forall i :: 0 <= i < |es| ==> WellFormed(es[i])
  }

  lemma CloseBlockWellFormed(st: ScanState, today: Ymd)
    requires Valid(today)
    ensures AllWellFormed(CloseBlock(st, today))
  {
    var c := CloseBlock(st, today);
    if c != [] && Canonical(c[0].start) {
      EventEndAfterStart(c[0].start, st.dtendRaw, today);
    }
  }

  lemma {:induction false} ScanWellFormed(st: ScanState, lines: seq<string>, today: Ymd)
    requires Valid(today) && AllWellFormed(st.events)
    ensures AllWellFormed(ScanLines(st, lines, today).events)
    decreases |lines|
  {
    if lines != [] {
      CloseBlockWellFormed(st, today);
      var next := Step(st, lines[0], today);
      assert AllWellFormed(next.events) by {
        var c := CloseBlock(st, today);
        assert next.events == st.events || next.events == st.events + c;
      }
      ScanWellFormed(next, lines[1..], today);
    }
  }

  /** Every event `parseIcs` returns has a non-empty UID and, for a canonical start, a later end. */
  lemma ParsedEventsWellFormed(text: string, today: Ymd)
    requires Valid(today)
    ensures AllWellFormed(ParseSpec(text, today))
  {
    ScanWellFormed(Idle([]), SplitLines(Unfold(text)), today);
  }

  /**
   * Without the canonical-start condition the end can come first: a DATE value
   * `YYYY0000` gives the start `YYYY-00-00`, and the next-day fallback then lands on
   * the first of December of the year before, which sorts earlier.
   */
  lemma ZeroMonthEndsBeforeStart(y: string, today: Ymd)
    requires Valid(today)
    requires |y| == 4 && AllDigits(y) && DigitsValue(y) > 1000
    ensures ParseToIsoDate(y + "0000", today) == y + "-00-00"
    ensures EventEnd(y + "-00-00", None, today) == ToIsoDateUtc(Ymd(DigitsValue(y) - 1, 12, 1))
    ensures LexLess(EventEnd(y + "-00-00", None, today), y + "-00-00")
  {
    ZeroMonthStart(y, today);
    ZeroMonthEnd(y, today);
    ZeroMonthOrder(y);
  }

  lemma ZeroMonthEnd(y: string, today: Ymd)
    requires Valid(today)
    requires |y| == 4 && AllDigits(y) && DigitsValue(y) > 1000
    ensures EventEnd(y + "-00-00", None, today) == ToIsoDateUtc(Ymd(DigitsValue(y) - 1, 12, 1))
  {
    ZeroMonthFields(y);
    ZeroMonthFallback(y + "-00-00", y, "00", "00");
  }

  lemma ZeroMonthFields(y: string)
    requires AllDigits(y)
    ensures Split(y + "-00-00", '-') == [y, "00", "00"]
    ensures AllDigits("00") && DigitsValue("00") == 0
  {
    assert "00"[..1] == "0" && "0"[..0] == [];
    assert y + "-" + "00" + "-" + "00" == y + "-00-00";
    SplitDashed(y, "00", "00");
  }

  lemma ZeroMonthStart(y: string, today: Ymd)
    requires Valid(today) && |y| == 4 && AllDigits(y)
    ensures ParseToIsoDate(y + "0000", today) == y + "-00-00"
  {
    var v := y + "0000";
    assert AllDigits(v) by {
      assert forall k :: 0 <= k < 8 ==> v[k] == (if k < 4 then y[k] else '0');
    }
    assert IsDateDigits(v);
    assert v[..4] == y && v[4..6] == "00" && v[6..8] == "00";
    assert DashDate(v) == y + "-" + "00" + "-" + "00";
  }

  /** `addDays` of a zero month and day is the first of December of the year before. */
  lemma ZeroMonthFallback(iso: string, y: string, m: string, d: string)
    requires Split(iso, '-') == [y, m, d]
    requires |y| == 4 && AllDigits(y) && DigitsValue(y) > 1000
    requires m != [] && d != [] && AllDigits(m) && AllDigits(d) && DigitsValue(m) == 0 && DigitsValue(d) == 0
    ensures AddDays(iso, 1) == ToIsoDateUtc(Ymd(DigitsValue(y) - 1, 12, 1))
  {
    AddDaysOfDigitFields(iso, y, m, d, 1);
    ZeroMonthDate(DigitsValue(y));
  }

  lemma ZeroMonthDate(yv: int)
    requires yv > 1000
    ensures AddDaysOfNumbers(Finite(yv as real), Finite(0 as real), Finite(0 as real), 1)
            == ToIsoDateUtc(Ymd(yv - 1, 12, 1))
  {
    AddDaysOfIntegers(yv, 0, 0, 1);
    assert UtcDate(yv, 0 - 1, 0 + 1, 0) == Ymd(yv - 1, 12, 1);
  }

  lemma ZeroMonthOrder(y: string)
    requires |y| == 4 && AllDigits(y) && DigitsValue(y) > 1000
    ensures LexLess(ToIsoDateUtc(Ymd(DigitsValue(y) - 1, 12, 1)), y + "-00-00")
  {
    var yv := DigitsValue(y);
    var prev := NatToString(yv - 1);
    var tail := "-" + Pad2(12) + "-" + Pad2(1);
    assert ToIsoDateUtc(Ymd(yv - 1, 12, 1)) == prev + tail;
    DigitsValueBound(y);
    assert Pow10(4) == 10000 by { assert Pow10(2) == 100; }
    NatToStringLength4(yv - 1);
    DigitsLexOrder(prev, y);
    LexLessAppend(prev, y, tail, "-00-00");
  }

  // ================================================================ building

  /** The PRODID written when the caller gives none. */
  const DefaultProdId: string := "-//StayManager ICS Mock//EN"

  /** One event handed to `buildIcsCalendar`; `status` is optional. */
  datatype CalendarEntry = CalendarEntry(uid: string, start: string, end: string, summary: string,
                                         status: Option<string>)

  /** A UTC instant as the clock reports it. */
  datatype UtcClock = UtcClock(date: Ymd, hour: nat, minute: nat, second: nat)

  predicate ClockValid(c: UtcClock) { Valid(c.date) && c.hour < 24 && c.minute < 60 && c.second < 60 }

  /** `nowDtstamp`: the instant as an RFC 5545 UTC DATE-TIME `YYYYMMDDTHHMMSSZ`. */
  function NowDtstamp(now: UtcClock): string
    requires ClockValid(now)
  {
    IntToString(now.date.year) + Pad2(now.date.month) + Pad2(now.date.day) + "T"
    + Pad2(now.hour) + Pad2(now.minute) + Pad2(now.second) + "Z"
  }

  /** A DTSTAMP of a four-digit year has the UTC date-time shape and its fields read back. */
  lemma DtstampFields(now: UtcClock)
    requires ClockValid(now) && 1000 <= now.date.year <= 9999
    ensures IsDateTimeDigits(NowDtstamp(now), true) && !IsDateDigits(NowDtstamp(now))
    ensures DateTimeDay(NowDtstamp(now)) ==
            UtcDate(now.date.year, now.date.month - 1, now.date.day, now.hour * 3600 + now.minute * 60 + now.second)
  {
    var v := NowDtstamp(now);
    DtstampDigits(now);
    DateTimeDayOfValues(v, now.date.year, now.date.month, now.date.day, now.hour, now.minute, now.second);
  }

  /** The six digit fields of a DTSTAMP read back as the clock's fields. */
  lemma DtstampDigits(now: UtcClock)
    requires ClockValid(now) && 1000 <= now.date.year <= 9999
    ensures var v := NowDtstamp(now);
      && IsDateTimeDigits(v, true) && !IsDateDigits(v)
      && AllDigits(v[..4]) && AllDigits(v[4..6]) && AllDigits(v[6..8])
      && AllDigits(v[9..11]) && AllDigits(v[11..13]) && AllDigits(v[13..15])
      && DigitsValue(v[..4]) == now.date.year && DigitsValue(v[4..6]) == now.date.month
      && DigitsValue(v[6..8]) == now.date.day && DigitsValue(v[9..11]) == now.hour
      && DigitsValue(v[11..13]) == now.minute && DigitsValue(v[13..15]) == now.second
  {
    var t := now.date;
    NatToStringLength4(t.year);
    var y, m, d := NatToString(t.year), Pad2(t.month), Pad2(t.day);
    var h, mi, se := Pad2(now.hour), Pad2(now.minute), Pad2(now.second);
    var v := NowDtstamp(now);
    assert v == y + m + d + "T" + h + mi + se + "Z";
    DateTimeShape(y, m, d, h, mi, se);
  }

  /** A DTSTAMP of a four-digit year is a UTC date-time that reads back as its own day. */
  lemma DtstampReadsBack(now: UtcClock, today: Ymd)
    requires ClockValid(now) && Valid(today) && 1000 <= now.date.year <= 9999
    ensures IsDateTimeDigits(NowDtstamp(now), true)
    ensures ParseToIsoDate(NowDtstamp(now), today) == ToIsoDateUtc(now.date)
  {
    DtstampFields(now);
    UtcDateWithinDay(now.date.year, now.date.month - 1, now.date.day, now.hour * 3600 + now.minute * 60 + now.second);
    UtcDateOfValid(now.date);
  }

  /** The STATUS line written for an optional status text. */
  function StatusLine(status: Option<string>): string
  {
    var lower := Lower(if status.Some? then status.value else "confirmed");
    if lower == "cancelled" then "STATUS:CANCELLED"
    else if lower == "tentative" || lower == "pending" then "STATUS:TENTATIVE"
    else "STATUS:CONFIRMED"
  }

  /** The six lines that open the calendar. */
  function HeaderLines(name: string, prodId: string): seq<string>
  {
    ["BEGIN:VCALENDAR", "VERSION:2.0", "PRODID:" + prodId, "CALSCALE:GREGORIAN", "METHOD:PUBLISH",
     "X-WR-CALNAME:" + EscapeIcsText(name)]
  }

  /** The summary written for an entry: its own, or `Blocked` when empty. */
  function SummaryOrBlocked(summary: string): string
  {
    if summary == [] then "Blocked" else summary
  }

  /** The eight lines of one VEVENT. */
  function EventLines(e: CalendarEntry, dtstamp: string): seq<string>
  {
    ["BEGIN:VEVENT", "UID:" + e.uid, "DTSTAMP:" + dtstamp,
     "DTSTART;VALUE=DATE:" + IsoToIcsDate(e.start), "DTEND;VALUE=DATE:" + IsoToIcsDate(e.end),
     "SUMMARY:" + EscapeIcsText(SummaryOrBlocked(e.summary)), StatusLine(e.status),
     "END:VEVENT"]
  }

  function EntriesLines(es: seq<CalendarEntry>, dtstamp: string): seq<string>
  {
    if es == [] then [] else EntriesLines(es[..|es| - 1], dtstamp) + EventLines(es[|es| - 1], dtstamp)
  }

  /** All lines of the calendar, in order. */
  function CalendarLines(name: string, prodId: Option<string>, es: seq<CalendarEntry>, dtstamp: string): seq<string>
  {
    HeaderLines(name, if prodId.Some? then prodId.value else DefaultProdId)
    + EntriesLines(es, dtstamp) + ["END:VCALENDAR"]
  }

  lemma EntriesLinesSnoc(es: seq<CalendarEntry>, i: nat, dtstamp: string)
    requires i < |es|
    ensures EntriesLines(es[..i + 1], dtstamp) == EntriesLines(es[..i], dtstamp) + EventLines(es[i], dtstamp)
  {
    assert es[..i + 1][..i] == es[..i];
  }

  /** Eight single pushes append the eight lines in order. */
  lemma PushEight(lines: seq<string>, a: string, b: string, c: string, d: string,
                  e: string, f: string, g: string, h: string)
    ensures lines + [a] + [b] + [c] + [d] + [e] + [f] + [g] + [h] == lines + [a, b, c, d, e, f, g, h]
  {
  }

  lemma AppendAssoc(a: seq<string>, b: seq<string>, c: seq<string>)
    ensures (a + b) + c == a + (b + c)
  {
  }

  /** Six single pushes onto an empty list give the six lines in order. */
  lemma PushSix(a: string, b: string, c: string, d: string, e: string, f: string)
    ensures [] + [a] + [b] + [c] + [d] + [e] + [f] == [a, b, c, d, e, f]
  {
  }

  /** The six header lines of `buildIcsCalendar`, pushed in order. */
  method PushHeader(name: string, prodId: string) returns (lines: seq<string>)
    ensures lines == HeaderLines(name, prodId)
  {
    lines := [];
    lines := lines + ["BEGIN:VCALENDAR"];
    lines := lines + ["VERSION:2.0"];
    lines := lines + ["PRODID:" + prodId];
    lines := lines + ["CALSCALE:GREGORIAN"];
    lines := lines + ["METHOD:PUBLISH"];
    lines := lines + ["X-WR-CALNAME:" + EscapeIcsText(name)];
    PushSix("BEGIN:VCALENDAR", "VERSION:2.0", "PRODID:" + prodId, "CALSCALE:GREGORIAN", "METHOD:PUBLISH",
            "X-WR-CALNAME:" + EscapeIcsText(name));
  }

  /** The body of the event loop of `buildIcsCalendar`: the eight lines of one event pushed in order. */
  method PushEvent(lines: seq<string>, ev: CalendarEntry, dtstamp: string) returns (out: seq<string>)
    ensures out == lines + EventLines(ev, dtstamp)
  {
    var statusLower := Lower(if ev.status.Some? then ev.status.value else "confirmed");
    var statusLine: string;
    if statusLower == "cancelled" {
      statusLine := "STATUS:CANCELLED";
    } else if statusLower == "tentative" || statusLower == "pending" {
      statusLine := "STATUS:TENTATIVE";
    } else {
      statusLine := "STATUS:CONFIRMED";
    }
    assert statusLine == StatusLine(ev.status);
    var summaryLine := "SUMMARY:" + EscapeIcsText(SummaryOrBlocked(ev.summary));
    out := lines + ["BEGIN:VEVENT"];
    out := out + ["UID:" + ev.uid];
    out := out + ["DTSTAMP:" + dtstamp];
    out := out + ["DTSTART;VALUE=DATE:" + IsoToIcsDate(ev.start)];
    out := out + ["DTEND;VALUE=DATE:" + IsoToIcsDate(ev.end)];
    out := out + [summaryLine];
    out := out + [statusLine];
    out := out + ["END:VEVENT"];
    PushEight(lines, "BEGIN:VEVENT", "UID:" + ev.uid, "DTSTAMP:" + dtstamp,
              "DTSTART;VALUE=DATE:" + IsoToIcsDate(ev.start), "DTEND;VALUE=DATE:" + IsoToIcsDate(ev.end),
              summaryLine, statusLine, "END:VEVENT");
  }

  /**
   * `buildIcsCalendar`: the lines are pushed one by one and joined with CRLF, with a
   * final CRLF; the result is every calendar line terminated by CRLF.
   */
  method BuildIcsCalendar(name: string, prodId: Option<string>, events: seq<CalendarEntry>, now: UtcClock)
    returns (text: string)
    requires ClockValid(now)
    ensures text == Serialize(CalendarLines(name, prodId, events, NowDtstamp(now)))
  {
    var pid := if prodId.Some? then prodId.value else DefaultProdId;
    var dtstamp := NowDtstamp(now);
    var lines := PushHeader(name, pid);
    assert events[..0] == [];
    var i := 0;
    while i < |events|
      invariant 0 <= i <= |events|
      invariant lines == HeaderLines(name, pid) + EntriesLines(events[..i], dtstamp)
    {
      lines := PushEvent(lines, events[i], dtstamp);
      EntriesLinesSnoc(events, i, dtstamp);
      AppendAssoc(HeaderLines(name, pid), EntriesLines(events[..i], dtstamp), EventLines(events[i], dtstamp));
      i := i + 1;
    }
    lines := lines + ["END:VCALENDAR"];
    assert lines == CalendarLines(name, prodId, events, dtstamp) by {
      assert events[..i] == events;
    }
    text := Join(lines, "\r\n") + "\r\n";
    JoinCrlf(lines);
  }
}
