/**
 * What `parseIcs` reads back from a calendar written by `buildIcsCalendar`
 * (supabase/functions/_shared/ics.ts): every entry with ISO dates in order and a
 * UID and summary without line breaks or trailing white space comes back with the
 * same UID and dates, its summary in escaped form (the parser does not unescape)
 * and its status reduced to CANCELLED or CONFIRMED.
 */
module IcsRoundTrip {
  import opened JsText
  import opened CivilDate
  import opened IcsTypes
  import opened IcsText
  import opened IcsCodec

  /** The conditions under which an entry survives the round trip. */
  predicate Exportable(e: CalendarEntry)
  {
    e.uid != [] && '\n' !in e.uid && !IsJsSpace(e.uid[|e.uid| - 1])
    && IsIsoDate(e.start) && IsIsoDate(e.end) && LexLess(e.start, e.end)
    && (e.summary == [] || !IsJsSpace(e.summary[|e.summary| - 1]))
  }

  predicate AllExportable(es: seq<CalendarEntry>)
  {
    forall i :: 0 <= i < |es| ==> Exportable(es[i])
  }

  /** The status an entry's STATUS line is read back as: only a cancelled entry stays cancelled. */
  function ImportedStatus(status: Option<string>): IcsStatus
  {
    if Lower(if status.Some? then status.value else "confirmed") == "cancelled" then Cancelled else Confirmed
  }

  /** The event the parser produces for a written entry. */
  function Imported(e: CalendarEntry): IcsEvent
  {
    IcsEvent(e.uid, e.start, e.end, EscapeIcsText(SummaryOrBlocked(e.summary)), ImportedStatus(e.status))
  }

  function ImportedAll(es: seq<CalendarEntry>): seq<IcsEvent>
  {
    if es == [] then [] else ImportedAll(es[..|es| - 1]) + [Imported(es[|es| - 1])]
  }

  // ---------------------------------------------------------------- text facts

  lemma TrimEndKeeps(s: string)
    requires s != [] && !IsJsSpace(s[|s| - 1])
    ensures TrimEnd(s) == s
  {
  }

  /** A text that starts with a non-space character keeps that character first when trimmed. */
  lemma TrimEndFirst(s: string)
    requires s != [] && !IsJsSpace(s[0])
    ensures TrimEnd(s) != [] && TrimEnd(s)[0] == s[0]
  {
  }

  lemma {:induction false} EscapeEachSnoc(s: string)
    requires s != []
    ensures EscapeEach(s) == EscapeEach(s[..|s| - 1]) + EscapeChar(s[|s| - 1])
    decreases |s|
  {
    if |s| == 1 {
      assert s[..0] == [];
      assert EscapeEach(s) == EscapeChar(s[0]) + EscapeEach([]);
    } else {
      var init := s[..|s| - 1];
      EscapeEachSnoc(s[1..]);
      assert s[1..][..|s| - 2] == init[1..];
      assert EscapeEach(init) == EscapeChar(init[0]) + EscapeEach(init[1..]);
    }
  }

  /** An escaped text ends in the last character of the original unless that was a line feed. */
  lemma EscapeCharLast(c: char)
    requires c != '\n'
    ensures EscapeChar(c) != [] && EscapeChar(c)[|EscapeChar(c)| - 1] == c
  {
    if c == '\\' {
      assert EscapeChar(c) == ['\\', '\\'];
    } else if c == ',' {
      assert EscapeChar(c) == ['\\', ','];
    } else if c == ';' {
      assert EscapeChar(c) == ['\\', ';'];
    }
  }

  lemma EscapedLast(s: string)
    requires s != [] && s[|s| - 1] != '\n'
    ensures var r := EscapeIcsText(s); r != [] && r[|r| - 1] == s[|s| - 1]
  {
    EscapeIsPerCharacter(s);
    EscapeEachSnoc(s);
    EscapeCharLast(s[|s| - 1]);
  }

  /** The value the builder writes for an entry's summary: never empty, no line feed, no trailing space. */
  lemma SummaryValue(e: CalendarEntry)
    requires Exportable(e)
    ensures var v := EscapeIcsText(SummaryOrBlocked(e.summary));
      v != [] && '\n' !in v && !IsJsSpace(v[|v| - 1])
  {
    EscapedLast(SummaryOrBlocked(e.summary));
    EscapeHasNoLineFeed(SummaryOrBlocked(e.summary));
  }

  // ---------------------------------------------------------------- scanning steps

  /** Outside a block, a line that is neither `BEGIN:VEVENT` nor `END:VEVENT` changes nothing. */
  lemma StepIdle(evs: seq<IcsEvent>, line: string, today: Ymd)
    requires Valid(today)
    requires TrimEnd(line) != "BEGIN:VEVENT" && TrimEnd(line) != "END:VEVENT"
    ensures Step(Idle(evs), line, today) == Idle(evs)
  {
  }

  /** A line beginning with a character other than `B`, `E` or white space is not a block delimiter. */
  lemma NotDelimiter(line: string)
    requires line != [] && !IsJsSpace(line[0]) && line[0] != 'B' && line[0] != 'E'
    ensures TrimEnd(line) != [] && TrimEnd(line) != "BEGIN:VEVENT" && TrimEnd(line) != "END:VEVENT"
  {
    TrimEndFirst(line);
  }

  lemma {:induction false} ScanIdle(evs: seq<IcsEvent>, lines: seq<string>, today: Ymd)
    requires Valid(today)
    requires forall i :: 0 <= i < |lines| ==> TrimEnd(lines[i]) != "BEGIN:VEVENT" && TrimEnd(lines[i]) != "END:VEVENT"
    ensures ScanLines(Idle(evs), lines, today) == Idle(evs)
    decreases |lines|
  {
    if lines != [] {
      StepIdle(evs, lines[0], today);
      ScanIdle(evs, lines[1..], today);
    }
  }

  /**
   * `head` is the part of a content line before its colon, `key` the key the parser
   * reads from it, and the line does not begin like a block delimiter.
   */
  predicate HeadOf(head: string, key: string)
  {
    head != [] && ':' !in head && !IsJsSpace(head[0]) && head[0] != 'B' && head[0] != 'E'
    && key != [] && Upper(Split(head, ';')[0]) == key
  }

  /** Inside a block, a `head:value` line assigns the value, trimmed, to the key of `head`. */
  lemma StepKeyed(st: ScanState, head: string, key: string, value: string, today: Ymd)
    requires Valid(today) && st.cur.Some? && HeadOf(head, key)
    ensures Step(st, head + ":" + value, today) == Assign(st, key, TrimEnd(value))
  {
    var a := head + ":";
    TrimEndAfter(a, value);
    var line := a + TrimEnd(value);
    assert line[0] == head[0];
    NotDelimiter(line);
    TrimEndKeeps(line);
    SplitIcsLineOf(head, TrimEnd(value));
  }

  /** A key the builder writes: upper-case letters, not starting like `BEGIN` or `END`. */
  /** A non-empty word of upper-case ASCII letters. */
  predicate UpperWord(w: string)
  {
    w != [] && forall i :: 0 <= i < |w| ==> 'A' <= w[i] <= 'Z'
  }

  lemma UpperWordLacks(w: string, c: char)
    requires UpperWord(w) && !('A' <= c <= 'Z')
    ensures c !in w
  {
  }

  predicate IsKeyName(k: string)
  {
    UpperWord(k) && k[0] != 'B' && k[0] != 'E'
  }

  lemma KeyHead(key: string)
    requires IsKeyName(key)
    ensures HeadOf(key, key)
  {
    SplitNone(key, ';');
    UpperOfUpperAscii(key);
  }

  lemma KeyParamFirst(key: string, params: string)
    requires IsKeyName(key)
    ensures Split(key + ";" + params, ';')[0] == key
  {
    UpperWordLacks(key, ';');
    assert key + ";" + params == key + [';'] + params;
    SplitConcat(key, ';', params);
  }

  lemma KeyParamHead(key: string, params: string)
    requires IsKeyName(key) && ':' !in params
    ensures HeadOf(key + ";" + params, key)
  {
    var h := key + ";" + params;
    UpperWordLacks(key, ':');
    assert h[0] == key[0];
    KeyParamFirst(key, params);
    UpperOfUpperAscii(key);
  }

  /** Inside a block, `key:value` assigns the trimmed value to `key`. */
  lemma StepPlain(st: ScanState, key: string, value: string, today: Ymd)
    requires Valid(today) && st.cur.Some? && IsKeyName(key)
    ensures Step(st, key + ":" + value, today) == Assign(st, key, TrimEnd(value))
  {
    KeyHead(key);
    StepKeyed(st, key, key, value, today);
  }

  /** Inside a block, `key;params:value` assigns the trimmed value to `key`. */
  lemma StepParam(st: ScanState, key: string, params: string, value: string, today: Ymd)
    requires Valid(today) && st.cur.Some? && IsKeyName(key) && ':' !in params
    ensures Step(st, key + ";" + params + ":" + value, today) == Assign(st, key, TrimEnd(value))
  {
    KeyParamHead(key, params);
    StepKeyed(st, key + ";" + params, key, value, today);
  }

  /** The effect of each key the builder writes, inside a block. */
  lemma AssignByKey(st: ScanState, v: string)
    requires st.cur.Some?
    ensures Assign(st, "UID", v) == st.(cur := Some(st.cur.value.(uid := Some(v))))
    ensures Assign(st, "DTSTAMP", v) == st
    ensures Assign(st, "DTSTART", v) == st.(dtstartRaw := Some(v))
    ensures Assign(st, "DTEND", v) == st.(dtendRaw := Some(v))
    ensures Assign(st, "SUMMARY", v) == st.(cur := Some(st.cur.value.(summary := Some(v))))
    ensures Assign(st, "STATUS", v) ==
            st.(cur := Some(st.cur.value.(status := Some(if Upper(v) == "CANCELLED" then Cancelled else Confirmed))))
  {
  }

  /** The state right after `BEGIN:VEVENT`: an empty block and no dates. */
  function Opened(evs: seq<IcsEvent>): ScanState
  {
    ScanState(Some(Draft(None, None, None)), None, None, evs)
  }

  lemma StepBegin(st: ScanState, today: Ymd)
    requires Valid(today)
    ensures Step(st, "BEGIN:VEVENT", today) == Opened(st.events)
  {
    TrimEndKeeps("BEGIN:VEVENT");
  }

  lemma StepUid(st: ScanState, uid: string, today: Ymd)
    requires Valid(today) && st.cur.Some? && uid != [] && !IsJsSpace(uid[|uid| - 1])
    ensures Step(st, "UID:" + uid, today) == st.(cur := Some(st.cur.value.(uid := Some(uid))))
  {
    assert "UID:" + uid == "UID" + ":" + uid;
    StepPlain(st, "UID", uid, today);
    TrimEndKeeps(uid);
    AssignByKey(st, uid);
  }

  lemma StepDtstamp(st: ScanState, dtstamp: string, today: Ymd)
    requires Valid(today) && st.cur.Some?
    ensures Step(st, "DTSTAMP:" + dtstamp, today) == st
  {
    assert "DTSTAMP:" + dtstamp == "DTSTAMP" + ":" + dtstamp;
    StepPlain(st, "DTSTAMP", dtstamp, today);
    AssignByKey(st, TrimEnd(dtstamp));
  }

  lemma StepDtstart(st: ScanState, iso: string, today: Ymd)
    requires Valid(today) && st.cur.Some? && IsIsoDate(iso)
    ensures Step(st, "DTSTART;VALUE=DATE:" + IsoToIcsDate(iso), today) == st.(dtstartRaw := Some(IsoToIcsDate(iso)))
  {
    var v := IsoToIcsDate(iso);
    assert "DTSTART;VALUE=DATE:" + v == "DTSTART" + ";" + "VALUE=DATE" + ":" + v;
    StepParam(st, "DTSTART", "VALUE=DATE", v, today);
    IsoToIcsDateDigits(iso);
    TrimEndKeeps(v);
    AssignByKey(st, v);
  }

  lemma StepDtend(st: ScanState, iso: string, today: Ymd)
    requires Valid(today) && st.cur.Some? && IsIsoDate(iso)
    ensures Step(st, "DTEND;VALUE=DATE:" + IsoToIcsDate(iso), today) == st.(dtendRaw := Some(IsoToIcsDate(iso)))
  {
    var v := IsoToIcsDate(iso);
    assert "DTEND;VALUE=DATE:" + v == "DTEND" + ";" + "VALUE=DATE" + ":" + v;
    StepParam(st, "DTEND", "VALUE=DATE", v, today);
    IsoToIcsDateDigits(iso);
    TrimEndKeeps(v);
    AssignByKey(st, v);
  }

  lemma StepSummary(st: ScanState, v: string, today: Ymd)
    requires Valid(today) && st.cur.Some? && v != [] && !IsJsSpace(v[|v| - 1])
    ensures Step(st, "SUMMARY:" + v, today) == st.(cur := Some(st.cur.value.(summary := Some(v))))
  {
    assert "SUMMARY:" + v == "SUMMARY" + ":" + v;
    StepPlain(st, "SUMMARY", v, today);
    TrimEndKeeps(v);
    AssignByKey(st, v);
  }

  /** A `STATUS` line with an upper-case word: only `CANCELLED` reads as cancelled. */
  lemma StepStatusWord(st: ScanState, word: string, today: Ymd)
    requires Valid(today) && st.cur.Some? && UpperWord(word)
    ensures Step(st, "STATUS" + ":" + word, today) ==
            st.(cur := Some(st.cur.value.(status := Some(if word == "CANCELLED" then Cancelled else Confirmed))))
  {
    StepPlain(st, "STATUS", word, today);
    TrimEndKeeps(word);
    UpperOfUpperAscii(word);
    AssignByKey(st, word);
  }

  lemma StatusLineTexts()
    ensures "STATUS:CANCELLED" == "STATUS" + ":" + "CANCELLED"
    ensures "STATUS:TENTATIVE" == "STATUS" + ":" + "TENTATIVE"
    ensures "STATUS:CONFIRMED" == "STATUS" + ":" + "CONFIRMED"
  {
  }

  lemma StatusWords()
    ensures UpperWord("CANCELLED") && UpperWord("TENTATIVE") && UpperWord("CONFIRMED")
    ensures "TENTATIVE" != "CANCELLED" && "CONFIRMED" != "CANCELLED"
  {
    assert "TENTATIVE"[0] != "CANCELLED"[0];
    assert "CONFIRMED"[1] != "CANCELLED"[1];
  }

  lemma StatusLinesPlain()
    ensures PlainLine("STATUS:CANCELLED") && PlainLine("STATUS:TENTATIVE") && PlainLine("STATUS:CONFIRMED")
  {
  }

  /** The builder writes one of three STATUS lines, the cancelled one exactly for a cancelled entry. */
  lemma StatusLineCases(status: Option<string>)
    ensures StatusLine(status) == "STATUS:CANCELLED" || StatusLine(status) == "STATUS:TENTATIVE"
            || StatusLine(status) == "STATUS:CONFIRMED"
    ensures StatusLine(status) == "STATUS:CANCELLED" <==> ImportedStatus(status) == Cancelled
  {
  }

  lemma StepStatus(st: ScanState, status: Option<string>, today: Ymd)
    requires Valid(today) && st.cur.Some?
    ensures Step(st, StatusLine(status), today) == st.(cur := Some(st.cur.value.(status := Some(ImportedStatus(status)))))
  {
    StatusLineCases(status);
    StatusLineTexts();
    StatusWords();
    var line := StatusLine(status);
    if line == "STATUS:CANCELLED" {
      StepStatusWord(st, "CANCELLED", today);
    } else if line == "STATUS:TENTATIVE" {
      StepStatusWord(st, "TENTATIVE", today);
    } else {
      StepStatusWord(st, "CONFIRMED", today);
    }
  }

  /** The state right before `END:VEVENT` once every line of an entry has been read. */
  function Filled(evs: seq<IcsEvent>, e: CalendarEntry): ScanState
  {
    ScanState(Some(Draft(Some(e.uid), Some(EscapeIcsText(SummaryOrBlocked(e.summary))), Some(ImportedStatus(e.status)))),
              Some(IsoToIcsDate(e.start)), Some(IsoToIcsDate(e.end)), evs)
  }

  /** A written DTEND later than the DTSTART is read back as the event's end. */
  lemma EndReadBack(e: CalendarEntry, today: Ymd)
    requires Valid(today) && Exportable(e)
    ensures EventEnd(e.start, Some(IsoToIcsDate(e.end)), today) == e.end
  {
    IsoToIcsDateDigits(e.end);
    IsoDateRoundTrip(e.end, today);
    LexTrichotomy(e.start, e.end);
  }

  /** Closing a filled block emits the imported entry. */
  lemma CloseFilled(evs: seq<IcsEvent>, e: CalendarEntry, today: Ymd)
    requires Valid(today) && Exportable(e)
    ensures CloseBlock(Filled(evs, e), today) == [Imported(e)]
  {
    IsoToIcsDateDigits(e.start);
    IsoDateRoundTrip(e.start, today);
    EndReadBack(e, today);
  }

  /** `END:VEVENT` emits the entry with its own dates: the end read back is later than the start. */
  lemma StepEnd(evs: seq<IcsEvent>, e: CalendarEntry, today: Ymd)
    requires Valid(today) && Exportable(e)
    ensures Step(Filled(evs, e), "END:VEVENT", today) == Idle(evs + [Imported(e)])
  {
    TrimEndKeeps("END:VEVENT");
    CloseFilled(evs, e, today);
  }

  lemma ScanCons(st: ScanState, line: string, rest: seq<string>, today: Ymd)
    requires Valid(today)
    ensures ScanLines(st, [line] + rest, today) == ScanLines(Step(st, line, today), rest, today)
  {
    assert ([line] + rest)[1..] == rest;
  }

  /** Four lines whose steps are known are scanned to the last of those states. */
  lemma ScanFour(st: ScanState, a: string, b: string, c: string, d: string,
                 s1: ScanState, s2: ScanState, s3: ScanState, s4: ScanState, today: Ymd)
    requires Valid(today)
    requires Step(st, a, today) == s1 && Step(s1, b, today) == s2
    requires Step(s2, c, today) == s3 && Step(s3, d, today) == s4
    ensures ScanLines(st, [a, b, c, d], today) == s4
  {
    assert [a, b, c, d] == [a] + ([b] + ([c] + ([d] + [])));
    ScanCons(st, a, [b] + ([c] + ([d] + [])), today);
    ScanCons(s1, b, [c] + ([d] + []), today);
    ScanCons(s2, c, [d] + [], today);
    ScanCons(s3, d, [], today);
  }

  /** The state once `BEGIN`, `UID`, `DTSTAMP` and `DTSTART` of an entry have been read. */
  function Started(evs: seq<IcsEvent>, e: CalendarEntry): ScanState
  {
    ScanState(Some(Draft(Some(e.uid), None, None)), Some(IsoToIcsDate(e.start)), None, evs)
  }

  lemma EightHalves(a: string, b: string, c: string, d: string, e: string, f: string, g: string, h: string)
    ensures [a, b, c, d, e, f, g, h] == [a, b, c, d] + [e, f, g, h]
  {
  }

  /** The first four lines of an entry's VEVENT. */
  function OpenLines(e: CalendarEntry, dtstamp: string): seq<string>
  {
    ["BEGIN:VEVENT", "UID:" + e.uid, "DTSTAMP:" + dtstamp, "DTSTART;VALUE=DATE:" + IsoToIcsDate(e.start)]
  }

  /** The last four lines of an entry's VEVENT. */
  function CloseLines(e: CalendarEntry): seq<string>
  {
    ["DTEND;VALUE=DATE:" + IsoToIcsDate(e.end), "SUMMARY:" + EscapeIcsText(SummaryOrBlocked(e.summary)),
     StatusLine(e.status), "END:VEVENT"]
  }

  lemma ScanEventOpen(evs: seq<IcsEvent>, e: CalendarEntry, dtstamp: string, today: Ymd)
    requires Valid(today) && Exportable(e)
    ensures ScanLines(Idle(evs), OpenLines(e, dtstamp), today) == Started(evs, e)
  {
    var s1 := Opened(evs);
    var s2 := s1.(cur := Some(s1.cur.value.(uid := Some(e.uid))));
    StepBegin(Idle(evs), today);
    StepUid(s1, e.uid, today);
    StepDtstamp(s2, dtstamp, today);
    StepDtstart(s2, e.start, today);
    ScanFour(Idle(evs), "BEGIN:VEVENT", "UID:" + e.uid, "DTSTAMP:" + dtstamp,
             "DTSTART;VALUE=DATE:" + IsoToIcsDate(e.start), s1, s2, s2, Started(evs, e), today);
  }

  lemma ScanEventClose(evs: seq<IcsEvent>, e: CalendarEntry, today: Ymd)
    requires Valid(today) && Exportable(e)
    ensures ScanLines(Started(evs, e), CloseLines(e), today) == Idle(evs + [Imported(e)])
  {
    var summary := EscapeIcsText(SummaryOrBlocked(e.summary));
    SummaryValue(e);
    var s4 := Started(evs, e);
    var s5 := s4.(dtendRaw := Some(IsoToIcsDate(e.end)));
    var s6 := s5.(cur := Some(s5.cur.value.(summary := Some(summary))));
    StepDtend(s4, e.end, today);
    StepSummary(s5, summary, today);
    StepStatus(s6, e.status, today);
    StepEnd(evs, e, today);
    ScanFour(s4, "DTEND;VALUE=DATE:" + IsoToIcsDate(e.end), "SUMMARY:" + summary, StatusLine(e.status),
             "END:VEVENT", s5, s6, Filled(evs, e), Idle(evs + [Imported(e)]), today);
  }

  /** The eight lines of an exportable entry, read from outside any block, append its imported event. */
  lemma ScanEvent(evs: seq<IcsEvent>, e: CalendarEntry, dtstamp: string, today: Ymd)
    requires Valid(today) && Exportable(e)
    ensures ScanLines(Idle(evs), EventLines(e, dtstamp), today) == Idle(evs + [Imported(e)])
  {
    EightHalves("BEGIN:VEVENT", "UID:" + e.uid, "DTSTAMP:" + dtstamp,
                "DTSTART;VALUE=DATE:" + IsoToIcsDate(e.start), "DTEND;VALUE=DATE:" + IsoToIcsDate(e.end),
                "SUMMARY:" + EscapeIcsText(SummaryOrBlocked(e.summary)), StatusLine(e.status), "END:VEVENT");
    ScanLinesConcat(Idle(evs), OpenLines(e, dtstamp), CloseLines(e), today);
    ScanEventOpen(evs, e, dtstamp, today);
    ScanEventClose(evs, e, today);
  }

  lemma ScanAppendEvent(st: ScanState, before: seq<string>, evs: seq<IcsEvent>, e: CalendarEntry,
                        dtstamp: string, today: Ymd)
    requires Valid(today) && Exportable(e) && ScanLines(st, before, today) == Idle(evs)
    ensures ScanLines(st, before + EventLines(e, dtstamp), today) == Idle(evs + [Imported(e)])
  {
    ScanLinesConcat(st, before, EventLines(e, dtstamp), today);
    ScanEvent(evs, e, dtstamp, today);
  }

  lemma ImportedAllSnoc(evs: seq<IcsEvent>, init: seq<CalendarEntry>, last: CalendarEntry)
    ensures evs + ImportedAll(init + [last]) == evs + ImportedAll(init) + [Imported(last)]
  {
    var es := init + [last];
    assert es[..|es| - 1] == init;
  }

  lemma EntriesLinesAppend(init: seq<CalendarEntry>, last: CalendarEntry, dtstamp: string)
    ensures EntriesLines(init + [last], dtstamp) == EntriesLines(init, dtstamp) + EventLines(last, dtstamp)
  {
    var es := init + [last];
    assert es[..|es| - 1] == init;
  }

  lemma ScanEntriesSnoc(evs: seq<IcsEvent>, init: seq<CalendarEntry>, last: CalendarEntry, dtstamp: string, today: Ymd)
    requires Valid(today) && Exportable(last)
    requires ScanLines(Idle(evs), EntriesLines(init, dtstamp), today) == Idle(evs + ImportedAll(init))
    ensures ScanLines(Idle(evs), EntriesLines(init + [last], dtstamp), today) == Idle(evs + ImportedAll(init + [last]))
  {
    ScanAppendEvent(Idle(evs), EntriesLines(init, dtstamp), evs + ImportedAll(init), last, dtstamp, today);
    ImportedAllSnoc(evs, init, last);
    EntriesLinesAppend(init, last, dtstamp);
  }

  /** The VEVENTs of all exportable entries, read from outside any block, append their imported events in order. */
  lemma {:induction false} ScanEntries(evs: seq<IcsEvent>, es: seq<CalendarEntry>, dtstamp: string, today: Ymd)
    requires Valid(today) && AllExportable(es)
    ensures ScanLines(Idle(evs), EntriesLines(es, dtstamp), today) == Idle(evs + ImportedAll(es))
    decreases |es|
  {
    if es == [] {
      assert evs + [] == evs;
    } else {
      var init, last := es[..|es| - 1], es[|es| - 1];
      assert es == init + [last];
      ScanEntries(evs, init, dtstamp, today);
      ScanEntriesSnoc(evs, init, last, dtstamp, today);
    }
  }

  /** The six header lines change nothing. */
  lemma ScanHeader(name: string, prodId: string, today: Ymd)
    requires Valid(today)
    ensures ScanLines(Idle([]), HeaderLines(name, prodId), today) == Idle([])
  {
    var h := HeaderLines(name, prodId);
    TrimEndKeeps("BEGIN:VCALENDAR");
    forall i | 1 <= i < |h|
      ensures TrimEnd(h[i]) != "BEGIN:VEVENT" && TrimEnd(h[i]) != "END:VEVENT"
    {
      NotDelimiter(h[i]);
    }
    ScanIdle([], h, today);
  }

  /** `END:VCALENDAR` and the empty text after the last CRLF change nothing. */
  lemma ScanFooter(evs: seq<IcsEvent>, today: Ymd)
    requires Valid(today)
    ensures ScanLines(Idle(evs), ["END:VCALENDAR", ""], today) == Idle(evs)
  {
    TrimEndKeeps("END:VCALENDAR");
    ScanIdle(evs, ["END:VCALENDAR", ""], today);
  }

  // ---------------------------------------------------------------- the written text

  lemma DigitsNoLineFeed(s: string)
    requires AllDigits(s)
    ensures '\n' !in s
  {
    assert forall i :: 0 <= i < |s| ==> IsDigit(s[i]);
  }

  lemma PrefixedPlain(prefix: string, v: string)
    requires prefix != [] && !IsFoldSpace(prefix[0]) && '\n' !in prefix && '\n' !in v
    ensures PlainLine(prefix + v)
  {
    assert (prefix + v)[0] == prefix[0];
  }

  lemma DateLinesPlain(e: CalendarEntry)
    requires Exportable(e)
    ensures PlainLine("DTSTART;VALUE=DATE:" + IsoToIcsDate(e.start))
    ensures PlainLine("DTEND;VALUE=DATE:" + IsoToIcsDate(e.end))
  {
    IsoToIcsDateDigits(e.start);
    IsoToIcsDateDigits(e.end);
    DigitsNoLineFeed(IsoToIcsDate(e.start));
    DigitsNoLineFeed(IsoToIcsDate(e.end));
    PrefixedPlain("DTSTART;VALUE=DATE:", IsoToIcsDate(e.start));
    PrefixedPlain("DTEND;VALUE=DATE:", IsoToIcsDate(e.end));
  }

  lemma TextLinesPlain(e: CalendarEntry, dtstamp: string)
    requires Exportable(e) && '\n' !in dtstamp
    ensures PlainLine("UID:" + e.uid) && PlainLine("DTSTAMP:" + dtstamp)
  {
    PrefixedPlain("UID:", e.uid);
    PrefixedPlain("DTSTAMP:", dtstamp);
  }

  lemma SummaryPlain(e: CalendarEntry)
    requires Exportable(e)
    ensures PlainLine("SUMMARY:" + EscapeIcsText(SummaryOrBlocked(e.summary)))
  {
    SummaryValue(e);
    PrefixedPlain("SUMMARY:", EscapeIcsText(SummaryOrBlocked(e.summary)));
  }

  lemma StatusPlain(status: Option<string>)
    ensures PlainLine(StatusLine(status))
  {
    StatusLineCases(status);
    StatusLinesPlain();
  }

  lemma AllPlainEight(a: string, b: string, c: string, d: string, e: string, f: string, g: string, h: string)
    requires PlainLine(a) && PlainLine(b) && PlainLine(c) && PlainLine(d)
    requires PlainLine(e) && PlainLine(f) && PlainLine(g) && PlainLine(h)
    ensures forall i :: 0 <= i < 8 ==> PlainLine([a, b, c, d, e, f, g, h][i])
  {
  }

  /** Every line written for an exportable entry is a plain line. */
  lemma EventLinesPlain(e: CalendarEntry, dtstamp: string)
    requires Exportable(e) && '\n' !in dtstamp
    ensures forall i :: 0 <= i < |EventLines(e, dtstamp)| ==> PlainLine(EventLines(e, dtstamp)[i])
  {
    DateLinesPlain(e);
    TextLinesPlain(e, dtstamp);
    SummaryPlain(e);
    StatusPlain(e.status);
    assert PlainLine("BEGIN:VEVENT") && PlainLine("END:VEVENT");
    AllPlainEight("BEGIN:VEVENT", "UID:" + e.uid, "DTSTAMP:" + dtstamp,
                  "DTSTART;VALUE=DATE:" + IsoToIcsDate(e.start), "DTEND;VALUE=DATE:" + IsoToIcsDate(e.end),
                  "SUMMARY:" + EscapeIcsText(SummaryOrBlocked(e.summary)), StatusLine(e.status), "END:VEVENT");
  }

  lemma {:induction false} EntriesLinesPlain(es: seq<CalendarEntry>, dtstamp: string)
    requires '\n' !in dtstamp && AllExportable(es)
    ensures forall i :: 0 <= i < |EntriesLines(es, dtstamp)| ==> PlainLine(EntriesLines(es, dtstamp)[i])
    decreases |es|
  {
    if es != [] {
      var init, last := es[..|es| - 1], es[|es| - 1];
      EntriesLinesPlain(init, dtstamp);
      EventLinesPlain(last, dtstamp);
    }
  }

  lemma HeaderLinesPlain(name: string, prodId: string)
    requires '\n' !in prodId
    ensures forall i :: 0 <= i < |HeaderLines(name, prodId)| ==> PlainLine(HeaderLines(name, prodId)[i])
  {
    EscapeHasNoLineFeed(name);
    PrefixedPlain("PRODID:", prodId);
    PrefixedPlain("X-WR-CALNAME:", EscapeIcsText(name));
  }

  /** The whole calendar is written as plain lines when the product id and the DTSTAMP have no line feed. */
  lemma CalendarLinesPlain(name: string, prodId: Option<string>, es: seq<CalendarEntry>, dtstamp: string)
    requires '\n' !in dtstamp && (prodId.Some? ==> '\n' !in prodId.value)
    requires AllExportable(es)
    ensures forall i :: 0 <= i < |CalendarLines(name, prodId, es, dtstamp)| ==>
              PlainLine(CalendarLines(name, prodId, es, dtstamp)[i])
  {
    EntriesLinesPlain(es, dtstamp);
    HeaderLinesPlain(name, if prodId.Some? then prodId.value else DefaultProdId);
    PlainFrame(HeaderLines(name, if prodId.Some? then prodId.value else DefaultProdId), EntriesLines(es, dtstamp));
  }

  lemma PlainFrame(a: seq<string>, b: seq<string>)
    requires forall i :: 0 <= i < |a| ==> PlainLine(a[i])
    requires forall i :: 0 <= i < |b| ==> PlainLine(b[i])
    ensures forall i :: 0 <= i < |a + b + ["END:VCALENDAR"]| ==> PlainLine((a + b + ["END:VCALENDAR"])[i])
  {
    assert PlainLine("END:VCALENDAR");
  }

  /** Parsing serialized plain lines scans exactly those lines and the empty text after the last CRLF. */
  lemma ParseSerialized(lines: seq<string>, evs: seq<IcsEvent>, today: Ymd)
    requires Valid(today) && forall i :: 0 <= i < |lines| ==> PlainLine(lines[i])
    requires ScanLines(Idle([]), lines + [""], today).events == evs
    ensures ParseSpec(Serialize(lines), today) == evs
  {
    SerializeNoContinuation(lines);
    UnfoldPlain(Serialize(lines));
    SplitSerialized(lines);
  }

  /** Scanning the calendar lines, plus the empty text after the final CRLF, yields the imported entries. */
  lemma FrameRegroup(h: seq<string>, body: seq<string>, x: string, y: string)
    ensures h + body + [x] + [y] == h + (body + [x, y])
  {
  }

  lemma EmptyConcat<T>(s: seq<T>)
    ensures [] + s == s
  {
  }

  lemma ScanCalendar(name: string, prodId: Option<string>, es: seq<CalendarEntry>, dtstamp: string, today: Ymd)
    requires Valid(today) && AllExportable(es)
    ensures ScanLines(Idle([]), CalendarLines(name, prodId, es, dtstamp) + [""], today).events == ImportedAll(es)
  {
    var h := HeaderLines(name, if prodId.Some? then prodId.value else DefaultProdId);
    var body := EntriesLines(es, dtstamp);
    FrameRegroup(h, body, "END:VCALENDAR", "");
    ScanLinesConcat(Idle([]), h, body + ["END:VCALENDAR", ""], today);
    ScanHeader(name, if prodId.Some? then prodId.value else DefaultProdId, today);
    ScanLinesConcat(Idle([]), body, ["END:VCALENDAR", ""], today);
    ScanEntries([], es, dtstamp, today);
    EmptyConcat(ImportedAll(es));
    ScanFooter(ImportedAll(es), today);
  }

  lemma CalendarFacts(name: string, prodId: Option<string>, es: seq<CalendarEntry>, dtstamp: string, today: Ymd)
    requires Valid(today) && '\n' !in dtstamp && (prodId.Some? ==> '\n' !in prodId.value)
    requires AllExportable(es)
    ensures forall i :: 0 <= i < |CalendarLines(name, prodId, es, dtstamp)| ==>
              PlainLine(CalendarLines(name, prodId, es, dtstamp)[i])
    ensures ScanLines(Idle([]), CalendarLines(name, prodId, es, dtstamp) + [""], today).events == ImportedAll(es)
  {
    CalendarLinesPlain(name, prodId, es, dtstamp);
    ScanCalendar(name, prodId, es, dtstamp, today);
  }

  /**
   * The round trip: parsing the text the builder writes gives back every entry, with
   * its UID and dates unchanged, its summary (or `Blocked`) in escaped form, and its
   * status reduced to cancelled or confirmed.
   */
  lemma RoundTrip(name: string, prodId: Option<string>, es: seq<CalendarEntry>, dtstamp: string, today: Ymd)
    requires Valid(today) && '\n' !in dtstamp && (prodId.Some? ==> '\n' !in prodId.value)
    requires AllExportable(es)
    ensures ParseSpec(Serialize(CalendarLines(name, prodId, es, dtstamp)), today) == ImportedAll(es)
  {
    CalendarFacts(name, prodId, es, dtstamp, today);
    ParseSerialized(CalendarLines(name, prodId, es, dtstamp), ImportedAll(es), today);
  }
}
