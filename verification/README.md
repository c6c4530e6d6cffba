# icaltester — a Dafny model of the iCal interchange core

icaltester lets a host keep booking calendars. Each calendar holds manual
bookings and imports events from external iCal feeds ("subscriptions"). It
publishes its own bookings as a public `.ics` feed reached by a secret token.
The server is a set of Deno edge functions over a Supabase database. The
client is a React application.

This project models the logic at the centre of that system and proves what
the code promises about it:

- **iCal codec** (`IcsText`, `IcsCodec`, `IcsRoundTrip`, `IcsTypes`,
  `CivilDate`): line unfolding, the content-line split, the VEVENT block
  scanner with its exclusive-end repair, the date readers, TEXT escaping and
  the calendar builder. `IcsRoundTrip.RoundTrip` proves that parsing a built
  calendar gives its events back.
- **Outbound fetch guard** (`Net`): the ordered SSRF checks on a parsed URL,
  the IPv4 ranges as CIDR blocks, the byte-capped body reader and the
  redirect loop that re-validates every hop.
- **Subscription sync** (`Sync`, `ManualSync`, `Cron`, `Api`): the delta
  between stored and parsed UIDs, the upsert and stale delete over a store
  keyed by (subscription, UID), the sync log and reschedule written on every
  path, the cron secret gate and due batch, and the REST API's validation
  rules and account clean-up.
- **Public feed** (`Feed`, `FeedLinks`, `RoutePath`): token extraction, the
  client address, the digest's hex text, the hourly rate window, the audit
  rows, the merged event list, and the links the client builds to the feed.
- **Client date logic** (`Days`, `Booking`, `CalendarDetail`,
  `TimelineRows`, `TimelineLayout`, `TimelinePage`): the booking selection
  state machine, blocked-day expansion, the timeline rows, block placement
  and colours, per-day overlap counting, and the page's range and
  visible-calendar state.

JavaScript semantics are written out where the code depends on them:
`Number()` results including NaN and infinities (`JsNumber`), JSON body
values (`JsValue`), and string order, `trim`, `split` and case mapping
(`JsText`). Server dates are strings, as in the code. Client dates are
integer day numbers. The database, the network, the clock and randomness
are parameters or classes over plain values.

## Model

| member | source | states |
|---|---|---|
| JsText.Pad2 | supabase/functions/_shared/ics.ts:3-5 | `pad2` gives exactly two digits for a number below 100, and they read back as that number |
| JsText.Pad2OfDigits | supabase/functions/_shared/ics.ts:3-5 | two digits passed through `pad2` of their value come back unchanged |
| JsText.NatToStringOfDigits | supabase/functions/_shared/ics.ts:200 | formatting a number and reading its digits back are inverse on canonical digit strings |
| JsText.DigitsLexOrder | supabase/functions/_shared/ics.ts:104 | for digit strings of one length, numeric order is string order, which the `end <= start` string comparison relies on |
| JsText.LexTrichotomy | supabase/functions/_shared/ics.ts:104 | string `<` is a strict total order: exactly one of a < b, a == b, b < a |
| JsText.LexPrefix | supabase/functions/_shared/ics.ts:104 | a proper prefix sorts first |
| JsText.LexLessAt | supabase/functions/_shared/ics.ts:104 | equal-length texts that first differ at i compare by the characters at i |
| JsText.Trim | supabase/functions/ics-feed/index.ts:20 | `trim` leaves no white space at either end, and gives "" exactly when the text is all white space |
| JsText.TrimEnd | supabase/functions/_shared/ics.ts:90 | `trimEnd` keeps the longest prefix that does not end in white space; everything dropped is white space |
| JsText.TrimStart | supabase/functions/_shared/ics.ts:90 | `trimStart` keeps the longest suffix that does not start with white space; everything dropped is white space |
| JsText.UpperChar | supabase/functions/_shared/ics.ts:126 | `toUpperCase` of one ASCII character moves a–z up to A–Z and keeps every other ASCII character |
| JsText.UpperOfUpperAscii | supabase/functions/_shared/ics.ts:146 | ASCII text with no lower-case letter is its own `toUpperCase` |
| JsText.Lower | supabase/functions/_shared/ics.ts:58 | `toLowerCase` keeps the length and maps each character through the ASCII-exact lower-case table |
| JsText.IndexOf | supabase/functions/_shared/ics.ts:140 | `indexOf` is -1 exactly when the character is absent, else the first position holding it |
| JsText.Split | supabase/functions/_shared/ics.ts:146 | `split` on one character: the pieces hold no separator, and joining them with it gives the text back |
| JsText.SplitConcat | supabase/functions/_shared/ics.ts:146 | splitting `a + sep + b`, with no separator in `a`, gives `a` followed by the pieces of `b` |
| JsText.NatToString | supabase/functions/_shared/ics.ts:15 | `String(n)` of a non-negative integer is its decimal digits without leading zeros |
| CivilDate.NextPrevInverse | supabase/functions/_shared/ics.ts:203-206 | one calendar day forward then back, or back then forward, returns the same day |
| CivilDate.ShiftSucc | supabase/functions/_shared/ics.ts:205 | a shift by n + 1 days is one day past the shift by n days |
| CivilDate.ShiftFromFirst | supabase/functions/_shared/ics.ts:205 | counting k days from the first of a month stays in that month while k is shorter than the month |
| CivilDate.UtcDate | supabase/functions/_shared/ics.ts:160-169 | `Date.UTC` over integer fields always lands on a real calendar day, whatever the month index or day overflow |
| CivilDate.UtcDateWithinDay | supabase/functions/_shared/ics.ts:160-170 | a time of day short of 24 hours does not change the UTC day |
| CivilDate.UtcDateOfValid | supabase/functions/_shared/ics.ts:205 | the fields of a real day outside the two-digit years give that day back, and the day after gives the next day |
| CivilDate.UtcDateInYear | supabase/functions/_shared/ics.ts:205 | for month indexes 0..11 and years outside 0..99 the day field counts days from the first of the month |
| CivilDate.ToIsoDateUtc | supabase/functions/_shared/ics.ts:199-201 | a four-digit year formats as ten characters with dashes at positions 4 and 7 |
| CivilDate.UtcDayOfReals | supabase/functions/_shared/ics.ts:204-205 | `Date.UTC(y, m - 1, d + days)` over finite numbers, each truncated, is always a real day |
| CivilDate.UtcDayOfIntegers | supabase/functions/_shared/ics.ts:204-205 | on integral numbers the truncating `Date.UTC` agrees with the integer calendar |
| CivilDate.AddDaysOfIntegers | supabase/functions/_shared/ics.ts:203-206 | `addDays` over integral field values formats the integer calendar's day |
| CivilDate.SplitDashed | supabase/functions/_shared/ics.ts:204 | three digit fields joined by dashes split back into the three fields |
| CivilDate.FormatSplit | supabase/functions/_shared/ics.ts:199-201 | a formatted four-digit-year date splits at `-` into its year, padded month and padded day |
| CivilDate.AddDaysOfDigitFields | supabase/functions/_shared/ics.ts:203-206 | `addDays` on three digit fields is `Date.UTC` on their decimal values |
| CivilDate.AddDaysOfFormatted | supabase/functions/_shared/ics.ts:203-206 | `addDays` on a formatted four-digit-year date works on the date's own field values |
| CivilDate.AddOneDay | supabase/functions/_shared/ics.ts:102 | `addDays(iso, 1)` of a formatted real day with a four-digit year is the next day's text |
| CivilDate.LaterYearFormatsLater | supabase/functions/_shared/ics.ts:104 | a day of a later four-digit year formats to a later string |
| CivilDate.LaterMonthFormatsLater | supabase/functions/_shared/ics.ts:104 | within a four-digit year, a day of a later month formats to a later string |
| CivilDate.LaterDayFormatsLater | supabase/functions/_shared/ics.ts:104 | within a month, a later day formats to a later string |
| CivilDate.NextFormatsLater | supabase/functions/_shared/ics.ts:104 | the next day's text sorts strictly after the day's own text while the year keeps four digits |
| IcsTypes.StatusText | supabase/functions/_shared/types.ts:8 | the stored status text is one of the two values the event type allows |
| IcsTypes.DashDate | supabase/functions/_shared/ics.ts:157 | eight digits sliced 4 + 2 + 2 with dashes keep their digits in place and pass the `isIsoDate` shape check |
| IcsTypes.IsIsoDateNoRangeCheck | supabase/functions/_shared/types.ts:13-15 | `isIsoDate` accepts any two digits as month and day, out-of-range ones included |
| JsNumber.DigitRun | supabase/functions/_shared/ics.ts:162 | the digit run at the front of a text is all digits and is followed by the end or a non-digit |
| JsNumber.RadixRun | src/components/calendar/TimelineBookingBlock.tsx:97-99 | the run of base-16 digits `parseInt` reads is all digits of that base and stops at the end or a non-digit |
| JsNumber.DigitsToNumber | supabase/functions/_shared/ics.ts:162-167 | `Number` of a non-empty digit string is its decimal value |
| JsNumber.UnsignedDigits | supabase/functions/_shared/ics.ts:162-167 | an all-digit text is read as an unsigned decimal of its value |
| JsNumber.DecimalLead | supabase/functions/_shared/ics.ts:204 | digits carry no sign and no radix prefix, so `Number` reads them in base 10 |
| JsNumber.TrimUnspaced | supabase/functions/ics_api/index.ts:139 | `Number` trims nothing from a text without white space at its ends |
| JsNumber.HexPairValue | src/components/calendar/TimelineBookingBlock.tsx:97-99 | `parseInt(s, 16)` of two hexadecimal digits is their value |
| JsNumber.HexNaN | src/components/calendar/TimelineBookingBlock.tsx:97-100 | `parseInt(s, 16)` of a text starting with a non-hex, non-space, unsigned character is NaN |
| JsValue.ToNumber | supabase/functions/ics_api/index.ts:139 | `Number(v)` of a JSON string reads the string; of an array it reads the array's `String(v)` rendering, so `[]` is 0; of an object it is NaN; of null it is 0 |
| JsValue.ToStr | supabase/functions/ics_api/index.ts:106 | `String(v)` of a string is the string itself; `[]` and `[null]` render as the empty string and a one-element array as its element; null, booleans and objects render as non-empty text |
| JsValue.StrOr | supabase/functions/ics_api/index.ts:196-199 | `String(v ?? d)` is the default for an absent or null field and the string itself for a string |
| IcsText.ReplaceAll | supabase/functions/_shared/ics.ts:9 | `replaceAll` changes nothing in a text that does not hold the pattern |
| IcsText.ReplaceAllConcat | supabase/functions/_shared/ics.ts:9 | `replaceAll` of a one-character pattern works piece by piece over a concatenation |
| IcsText.EscapeIsPerCharacter | supabase/functions/_shared/ics.ts:26-32 | the chain of four `replaceAll`s escapes each character on its own, backslash first |
| IcsText.EscapeCharChain | supabase/functions/_shared/ics.ts:26-32 | on one character the four replacements give that character's escape |
| IcsText.EscapeHasNoLineFeed | supabase/functions/_shared/ics.ts:26-32 | escaped text never holds a raw line feed, so a written SUMMARY or X-WR-CALNAME stays on one line |
| IcsText.UnescapeEscape | supabase/functions/_shared/ics.ts:26-32 | undoing the RFC 5545 TEXT escapes after `escapeIcsText` gives the original text back |
| IcsText.UnescapeFront | supabase/functions/_shared/ics.ts:26-32 | an escaped character at the front unescapes to that character |
| IcsText.PlainTextUnescaped | supabase/functions/_shared/ics.ts:26-32 | text without backslash, line feed, comma or semicolon is left unchanged |
| IcsText.Unfold | supabase/functions/_shared/ics.ts:134-137 | unfolding never lengthens the text |
| IcsText.UnfoldPlain | supabase/functions/_shared/ics.ts:134-137 | text without continuation lines is left unchanged |
| IcsText.UnfoldPrefix | supabase/functions/_shared/ics.ts:134-137 | a prefix without CR or LF passes through unfolding untouched |
| IcsText.UnfoldJoinsContinuations | supabase/functions/_shared/ics.ts:134-137 | pieces joined by fold breaks (CRLF or LF, then a space or tab) come back concatenated |
| IcsText.UnfoldBreak | supabase/functions/_shared/ics.ts:136 | a fold break at the front is deleted |
| IcsText.SplitLines | supabase/functions/_shared/ics.ts:82 | splitting at `\r?\n` gives at least one line and no line holds a line feed |
| IcsText.JoinCrlf | supabase/functions/_shared/ics.ts:70 | `lines.join("\r\n") + "\r\n"` is every line followed by CRLF |
| IcsText.SplitSerialized | supabase/functions/_shared/ics.ts:70-82 | splitting the written calendar at line breaks gives its lines back, plus the empty text after the last CRLF |
| IcsText.SerializeNoContinuation | supabase/functions/_shared/ics.ts:70 | written lines that do not start with space or tab contain no fold break |
| IcsText.SplitLinesFront | supabase/functions/_shared/ics.ts:82 | a line ended by CRLF is split off the front |
| IcsText.SplitIcsLine | supabase/functions/_shared/ics.ts:139-148 | no key exactly when there is no colon, and then the value is ""; otherwise the value is everything after the first colon |
| IcsText.SplitIcsLineOf | supabase/functions/_shared/ics.ts:139-148 | for `left:value` with no colon in `left`, the key is `left` cut at its first `;` and upper-cased, and the value is `value` |
| IcsText.FirstEightDigits | supabase/functions/_shared/ics.ts:189 | `/(\d{8})/` finds the leftmost run of eight digits, or none when there is no such run |
| IcsText.DateTimeDay | supabase/functions/_shared/ics.ts:159-170 | `Date.UTC` over the six digit fields of a date-time is a real calendar day |
| IcsText.DateTimeShape | supabase/functions/_shared/ics.ts:12-24 | a text assembled from digit fields as `YYYYMMDDTHHMMSSZ` matches the UTC date-time pattern, not the DATE pattern, and its slices are its fields |
| IcsText.DateTimeDayOfValues | supabase/functions/_shared/ics.ts:159-170 | the day a date-time reads as is `Date.UTC` of its fields' decimal values |
| IcsText.ParseToIsoDate | supabase/functions/_shared/ics.ts:150-197 | eight digits become `YYYY-MM-DD`; a date-time with or without `Z` becomes its UTC calendar day |
| IcsText.ParseWithoutDigitsIsToday | supabase/functions/_shared/ics.ts:195-196 | text with no run of eight digits falls back to the current UTC day |
| IcsText.IsoToIcsDateDigits | supabase/functions/_shared/ics.ts:7-10 | removing the dashes of a `YYYY-MM-DD` text leaves its eight digits, which match the DATE pattern |
| IcsText.DropSeparators | supabase/functions/_shared/ics.ts:9 | removing two separators between separator-free fields joins the fields |
| IcsText.IsoDateRoundTrip | supabase/functions/_shared/ics.ts:157 | reading back the DATE value written for a `YYYY-MM-DD` date gives the same date |
| IcsCodec.EventEnd | supabase/functions/_shared/ics.ts:102-104 | the end is either strictly after the start in string order or the next-day fallback `addDays(start, 1)` |
| IcsCodec.CloseBlock | supabase/functions/_shared/ics.ts:99-113 | `END:VEVENT` emits at most one event, exactly when a block is open with a truthy UID and DTSTART, with the parsed start and the chosen end |
| IcsCodec.Assign | supabase/functions/_shared/ics.ts:121-128 | a `KEY:value` line inside a block never emits an event and keeps the block open |
| IcsCodec.Step | supabase/functions/_shared/ics.ts:89-129 | one loop iteration either leaves the event list alone or appends what closing the block emits |
| IcsCodec.ParseIcs | supabase/functions/_shared/ics.ts:80-132 | the loop over the unfolded, split lines returns exactly the events of the line-by-line scan |
| IcsCodec.ScanLinesConcat | supabase/functions/_shared/ics.ts:89-129 | scanning two runs of lines is scanning the first, then the second from the state it leaves |
| IcsCodec.CanonicalIsFormatted | supabase/functions/_shared/ics.ts:199-201 | a canonical `YYYY-MM-DD` text of a real day is the formatted form of its own fields |
| IcsCodec.EventEndAfterStart | supabase/functions/_shared/ics.ts:102-104 | for a canonical start the end the parser picks is strictly later, as the end-exclusive model requires |
| IcsCodec.CloseBlockWellFormed | supabase/functions/_shared/ics.ts:99-113 | an emitted event has a non-empty UID and, for a canonical start, a later end |
| IcsCodec.ScanWellFormed | supabase/functions/_shared/ics.ts:89-129 | the scan keeps every collected event well formed |
| IcsCodec.ParsedEventsWellFormed | supabase/functions/_shared/ics.ts:73-80 | every event `parseIcs` returns has a non-empty UID and, for a canonical start, an end after its start |
| IcsCodec.ZeroMonthEndsBeforeStart | supabase/functions/_shared/ics.ts:102-104 | a DATE value `YYYY0000` gives the start `YYYY-00-00` whose next-day fallback, the first of December of the year before, sorts before it |
| IcsCodec.ZeroMonthFallback | supabase/functions/_shared/ics.ts:203-206 | `addDays` of month 0, day 0 is the first of December of the previous year |
| IcsCodec.DtstampFields | supabase/functions/_shared/ics.ts:12-24 | a DTSTAMP of a four-digit year matches the UTC date-time pattern and reads as `Date.UTC` of the clock's fields |
| IcsCodec.DtstampDigits | supabase/functions/_shared/ics.ts:12-24 | the six digit fields of a DTSTAMP read back as the clock's year, month, day, hour, minute and second |
| IcsCodec.DtstampReadsBack | supabase/functions/_shared/ics.ts:159-170 | parsing a DTSTAMP gives back the clock's own UTC day |
| IcsCodec.PushHeader | supabase/functions/_shared/ics.ts:42-48 | the six header pushes give the VCALENDAR, VERSION, PRODID, CALSCALE, METHOD and escaped X-WR-CALNAME lines in order |
| IcsCodec.PushEvent | supabase/functions/_shared/ics.ts:50-66 | one loop iteration appends the event's eight lines: BEGIN, UID, DTSTAMP, DTSTART, DTEND, escaped SUMMARY, mapped STATUS, END |
| IcsCodec.BuildIcsCalendar | supabase/functions/_shared/ics.ts:34-71 | the built text is the header, every event's lines in input order and END:VCALENDAR, each terminated by CRLF |
| IcsRoundTrip.SummaryValue | supabase/functions/_shared/ics.ts:56 | the written SUMMARY value of an exportable entry is non-empty, on one line, and does not end in white space |
| IcsRoundTrip.StepIdle | supabase/functions/_shared/ics.ts:119 | outside a VEVENT block every line other than BEGIN and END is ignored |
| IcsRoundTrip.ScanIdle | supabase/functions/_shared/ics.ts:89-129 | a run of such lines leaves the scan state unchanged |
| IcsRoundTrip.StepKeyed | supabase/functions/_shared/ics.ts:121-128 | inside a block a `head:value` line assigns the trimmed value to the key its head names |
| IcsRoundTrip.StepPlain | supabase/functions/_shared/ics.ts:139-148 | a `KEY:value` line with an upper-case key assigns the trimmed value to that key |
| IcsRoundTrip.StepParam | supabase/functions/_shared/ics.ts:146 | parameters after `;` are dropped from the key |
| IcsRoundTrip.AssignByKey | supabase/functions/_shared/ics.ts:124-128 | UID, SUMMARY and STATUS fill the open block, DTSTART and DTEND set the raw dates, DTSTAMP changes nothing; STATUS becomes CANCELLED only for an upper-cased CANCELLED |
| IcsRoundTrip.StepBegin | supabase/functions/_shared/ics.ts:93-98 | `BEGIN:VEVENT` opens an empty block and clears both raw dates, keeping the events |
| IcsRoundTrip.StepUid | supabase/functions/_shared/ics.ts:124 | the written UID line sets the block's UID |
| IcsRoundTrip.StepDtstamp | supabase/functions/_shared/ics.ts:53 | the written DTSTAMP line leaves the scan state unchanged |
| IcsRoundTrip.StepDtstart | supabase/functions/_shared/ics.ts:127 | the written `DTSTART;VALUE=DATE` line sets the raw start to the date's eight digits |
| IcsRoundTrip.StepDtend | supabase/functions/_shared/ics.ts:128 | the written `DTEND;VALUE=DATE` line sets the raw end to the date's eight digits |
| IcsRoundTrip.StepSummary | supabase/functions/_shared/ics.ts:125 | the written SUMMARY line sets the block's summary to the escaped text |
| IcsRoundTrip.StepStatusWord | supabase/functions/_shared/ics.ts:126 | a STATUS word in upper case reads back as CANCELLED exactly when it is CANCELLED |
| IcsRoundTrip.StatusLineCases | supabase/functions/_shared/ics.ts:57-65 | the written STATUS line is one of the three RFC 5545 values, and CANCELLED exactly when the entry's status lower-cases to "cancelled" |
| IcsRoundTrip.StepStatus | supabase/functions/_shared/ics.ts:57-65 | the written STATUS line reads back as CANCELLED or CONFIRMED: TENTATIVE collapses to CONFIRMED |
| IcsRoundTrip.EndReadBack | supabase/functions/_shared/ics.ts:102-104 | for an entry whose start sorts before its end the parser keeps the written end |
| IcsRoundTrip.CloseFilled | supabase/functions/_shared/ics.ts:99-113 | closing a block filled from an exportable entry emits exactly that entry's imported event |
| IcsRoundTrip.StepEnd | supabase/functions/_shared/ics.ts:99-117 | `END:VEVENT` after a filled block appends the event and leaves no block open |
| IcsRoundTrip.ScanEvent | supabase/functions/_shared/ics.ts:89-129 | scanning one written event's eight lines appends exactly its imported event |
| IcsRoundTrip.ScanEntries | supabase/functions/_shared/ics.ts:89-129 | scanning every written event appends their imported events in order |
| IcsRoundTrip.ScanHeader | supabase/functions/_shared/ics.ts:42-48 | the header lines produce no event |
| IcsRoundTrip.ScanFooter | supabase/functions/_shared/ics.ts:69-70 | `END:VCALENDAR` and the empty text after the last CRLF produce no event |
| IcsRoundTrip.EventLinesPlain | supabase/functions/_shared/ics.ts:50-66 | no written event line contains a line feed or starts with space or tab |
| IcsRoundTrip.CalendarLinesPlain | supabase/functions/_shared/ics.ts:42-70 | no written calendar line contains a line feed or starts with space or tab, so unfolding leaves the text alone |
| IcsRoundTrip.ParseSerialized | supabase/functions/_shared/ics.ts:70-82 | parsing the CRLF-joined text of plain lines is scanning those lines and the final empty line |
| IcsRoundTrip.ScanCalendar | supabase/functions/_shared/ics.ts:34-71 | scanning the written calendar's lines yields the imported form of every entry, in order |
| IcsRoundTrip.RoundTrip | supabase/functions/_shared/ics.ts:34-132 | `parseIcs(buildIcsCalendar(...))` gives back every exportable entry, in order, with its UID and dates, its escaped summary, and its status reduced to CANCELLED or CONFIRMED |
| Net.NormalizeOptions | supabase/functions/_shared/net.ts:21-26 | http is allowed only when `allowHttp` is true; a missing or empty port list falls back to [443] |
| Net.ParseIpv4 | supabase/functions/_shared/net.ts:38-44 | a hostname parses exactly when it has four dot-separated parts that are integers 0..255, and then gives those four values |
| Net.OctetValue | supabase/functions/_shared/net.ts:41-42 | an accepted part's value lies in 0..255 and is what `Number` reads from it |
| Net.BlockedByOctets | supabase/functions/_shared/net.ts:46-60 | an address is in one of the blocked ranges (0/8, 10/8, 127/8, 169.254/16, 172.16/12, 192.168/16, 100.64/10, 224/3 and above) exactly when its octets pass the source's tests |
| Net.WholeOctetRanges | supabase/functions/_shared/net.ts:51-56 | the ranges on whole octets match the tests on `a` and `b` |
| Net.PartialOctetRanges | supabase/functions/_shared/net.ts:55-58 | the /12, /10 and /3 ranges match the range tests on `b` and `a` |
| Net.PrivateIpv4IsBlockedRange | supabase/functions/_shared/net.ts:46-60 | `isPrivateIpv4` holds exactly for a parsed IPv4 address inside a blocked CIDR range |
| Net.DottedBlockedIffInRange | supabase/functions/_shared/net.ts:38-60 | for a dotted-quad spelling of four octets, `isPrivateIpv4` holds exactly when the address is in a blocked range |
| Net.ParseDotted | supabase/functions/_shared/net.ts:38-44 | a dotted-quad spelling of four octets parses back to those octets |
| Net.ParseOfOctets | supabase/functions/_shared/net.ts:38-44 | four accepted parts parse to their values |
| Net.SplitDotted | supabase/functions/_shared/net.ts:39 | a dotted quad splits at the dots into its four decimal texts |
| Net.OctetText | supabase/functions/_shared/net.ts:41-42 | the decimal text of a number up to 255 is an accepted part worth that number |
| Net.ValidateOutboundUrl | supabase/functions/_shared/net.ts:79-129 | an accepted URL is the parsed input itself; a rejection carries one of the ten messages the guard defines |
| Net.AcceptedIsSafe | supabase/functions/_shared/net.ts:79-129 | a URL is accepted exactly when it parses and passes every check: no userinfo, https (or http when allowed), a hostname that is not numeric, local, private IPv4 or private IPv6, and an allowed positive integer port if one is given |
| Net.RejectionIsNotLoopFailure | supabase/functions/_shared/net.ts:79-129 | validation never rejects with a reason the redirect loop uses |
| Net.LocalIgnoresCase | supabase/functions/_shared/net.ts:28-29 | `isLocalHostname` ignores letter case |
| Net.LowerIdempotent | supabase/functions/_shared/net.ts:29 | lower-casing twice is lower-casing once |
| Net.LocalSuffixBlocked | supabase/functions/_shared/net.ts:31-34 | every name under .localhost, .local, .internal or .lan is local |
| Net.LinkLocalSpellingMissed | supabase/functions/_shared/net.ts:62-73 | `fe90::1`, inside the link-local block fe80::/10, is an IPv6 host the private test lets through, since it only checks the prefix `fe80` |
| Net.BracketedLoopbackMissed | supabase/functions/_shared/net.ts:62-73 | the bracketed loopback `[::1]` is not recognised as private, since the test compares the text with `::1` |
| Net.IntendedIpv6Stronger | supabase/functions/_shared/net.ts:66-73 | the intended IPv6 test, on the host without brackets and over the whole of fe80::/10, refuses every host the written test refuses |
| Net.IntendedIpv6Catches | supabase/functions/_shared/net.ts:66-73 | the intended IPv6 test refuses `[::1]`, `[fc00::1]` and `fe90::1` |
| Net.Present | supabase/functions/_shared/net.ts:146-156 | the chunks kept are the present values of the stream, never more than it has |
| Net.Flatten | supabase/functions/_shared/net.ts:158-163 | the combined buffer's length is the total of the chunk lengths |
| Net.TotalPrefix | supabase/functions/_shared/net.ts:150 | the running total of a prefix never exceeds the whole total |
| Net.SetAt | supabase/functions/_shared/net.ts:161 | `combined.set(chunk, offset)` writes the chunk at the offset and leaves every other byte as it was |
| Net.ReadChunks | supabase/functions/_shared/net.ts:146-156 | the read loop throws "Response too large" exactly when some running total exceeds the limit, and otherwise keeps every present chunk with their total as `received` |
| Net.ReadStep | supabase/functions/_shared/net.ts:147-155 | one loop iteration: an empty read is skipped, a chunk over the limit overflows the stream, another chunk is appended and counted |
| Net.Combine | supabase/functions/_shared/net.ts:158-163 | the copy loop produces a fresh buffer holding the chunks' bytes in order |
| Net.OverflowsSnoc | supabase/functions/_shared/net.ts:150-151 | a longer stream overflows exactly when its prefix did or the new chunk takes the total over the limit |
| Net.OverflowIffTotal | supabase/functions/_shared/net.ts:150-151 | for a non-negative limit the read overflows exactly when the total of all chunks exceeds the limit |
| Net.ReadBodyWithLimit | supabase/functions/_shared/net.ts:131-167 | reading a body gives the content-length rejection, the empty body, the stream overflow or the decoded bytes as the body specification says |
| Net.BodyWithinLimit | supabase/functions/_shared/net.ts:131-167 | an accepted body never exceeds a non-negative limit, and its text and size are the decoding and length of the chunks read |
| Net.RedirectChainSafe | supabase/functions/_shared/net.ts:181-207 | every URL the loop requests has passed the outbound-URL validation |
| Net.RedirectChainStep | supabase/functions/_shared/net.ts:200-209 | following a validated redirect extends the chain of requested URLs |
| Net.FetchTextWithLimits | supabase/functions/_shared/net.ts:173-215 | the loop returns the fetch specification's result; it requests nothing for a rejected input, only validated URLs otherwise, at most maxRedirects + 1 of them, and all of them when it stops for too many redirects |
| Net.FollowFetchedIsFinal | supabase/functions/_shared/net.ts:187-214 | a returned response is never a redirect, and its size is within a non-negative limit |
| Net.FetchedIsFinal | supabase/functions/_shared/net.ts:173-215 | a fetched result is never a redirect status and stays within a non-negative byte limit |
| Net.NonRedirectReturned | supabase/functions/_shared/net.ts:200-213 | an accepted URL answered without a redirect and with a readable body is returned with that status |
| Net.LoopFailuresDiffer | supabase/functions/_shared/net.ts:202-203 | the loop's failure reasons are distinct texts |
| RoutePath.Segments | supabase/functions/ics-feed/index.ts:50 | `filter(Boolean)` keeps exactly the non-empty pieces, and only those |
| RoutePath.SegmentIndex | supabase/functions/ics-feed/index.ts:56 | `indexOf` gives -1 exactly when the name is absent, and otherwise the first position holding it |
| RoutePath.SegmentIndexAt | supabase/functions/ics-feed/index.ts:56 | a position holding the name with no earlier occurrence is what `indexOf` returns |
| RoutePath.SplitJoin | supabase/functions/ics-feed/index.ts:50 | splitting a slash-joined path of plain segments gives the segments back |
| RoutePath.SegmentsKeepPlain | supabase/functions/ics-feed/index.ts:50 | filtering leaves a list of non-empty segments unchanged |
| RoutePath.PathSegments | supabase/functions/ics-feed/index.ts:50 | the segments of a path built from plain segments are those segments |
| RoutePath.PlainJoined | supabase/functions/ics-feed/index.ts:50 | joining plain segment lists keeps them plain |
| Feed.FeedToken | supabase/functions/ics-feed/index.ts:49-67 | a token exists exactly when `ics-feed` is a segment that is not the last one; the token is then a non-empty text without a slash |
| Feed.FeedTokenOfPath | supabase/functions/ics-feed/index.ts:52-63 | on any prefix of segments without `ics-feed`, the segment right after `ics-feed` is the token, whatever follows it |
| Feed.ClientIp | supabase/functions/ics-feed/index.ts:17-23 | with a non-empty forwarded header the address is a single hop without a comma; otherwise it is the `cf-connecting-ip` header |
| Feed.ClientIpFirstHop | supabase/functions/ics-feed/index.ts:19-20 | the address is the first hop of the forwarded list, trimmed |
| Feed.TrimKeepsOut | supabase/functions/ics-feed/index.ts:20 | trimming adds no character, so a hop without a comma stays without one |
| Feed.HexDigit | supabase/functions/ics-feed/index.ts:14 | a value below 16 gives one lower-case hex digit |
| Feed.ToBase16 | supabase/functions/ics-feed/index.ts:14 | `toString(16)` gives one digit below 16 and two digits from 16 to 255 |
| Feed.PadStart2 | supabase/functions/ics-feed/index.ts:14 | `padStart(2, "0")` leaves a text of two or more characters alone and otherwise pads it on the left to two characters |
| Feed.HexByte | supabase/functions/ics-feed/index.ts:14 | every byte becomes its two hex digits, high nibble first |
| Feed.HexEncode | supabase/functions/ics-feed/index.ts:9-15 | the digest's text is two lower-case hex digits per byte |
| Feed.HexValue | supabase/functions/ics-feed/index.ts:14 | every lower-case hex digit reads back as the value that writes it |
| Feed.HexDecode | supabase/functions/ics-feed/index.ts:14 | reading hex gives one byte per two digits |
| Feed.HexValueOfDigit | supabase/functions/ics-feed/index.ts:14 | a digit's value is the value it was written from |
| Feed.HexRoundTrip | supabase/functions/ics-feed/index.ts:9-15 | the hex text of a digest reads back to the digest, so the text identifies the hash |
| Feed.HexEncodePrefix | supabase/functions/ics-feed/index.ts:14 | the first 2k hex digits are the hex of the first k bytes |
| Feed.TokenPrefix | supabase/functions/ics-feed/index.ts:34 | the logged prefix is the first eight characters of the hash, or all of a shorter one |
| Feed.AuditPrefixOfDigest | supabase/functions/ics-feed/index.ts:34 | the audit prefix of a SHA-256 hex text is the hex of the digest's first four bytes, eight characters |
| Feed.WindowStart | supabase/functions/ics-feed/index.ts:76-77 | the rate window is the whole hour that contains the present instant |
| Feed.SameHourSameWindow | supabase/functions/ics-feed/index.ts:76-77 | two requests in the same hour share one rate window |
| Feed.RateCount | supabase/functions/ics-feed/index.ts:99 | a non-numeric counter counts as 0 |
| Feed.NonNumericCountPasses | supabase/functions/ics-feed/index.ts:99-100 | a non-numeric counter never triggers the limit |
| Feed.ManualUid | supabase/functions/ics-feed/index.ts:167 | a booking's own UID is kept when it is non-empty; otherwise a generated `m-` UID is used |
| Feed.ImportedUid | supabase/functions/ics-feed/index.ts:174 | an imported event's UID is the generated `i-` UID |
| Feed.ImportedUidInjective | supabase/functions/ics-feed/index.ts:174 | for subscription ids of one length, different imported events get different UIDs |
| Feed.GeneratedUidsDiffer | supabase/functions/ics-feed/index.ts:167-174 | a generated manual UID never equals an imported UID |
| Feed.ManualEntries | supabase/functions/ics-feed/index.ts:166-172 | one feed entry per manual booking, in order |
| Feed.ImportedEntries | supabase/functions/ics-feed/index.ts:173-179 | one feed entry per imported event, in order |
| Feed.FeedEvents | supabase/functions/ics-feed/index.ts:151-180 | the manual bookings come first, then the imported events only when the calendar includes them in its export |
| Feed.AuditLog.constructor | supabase/functions/ics-feed/index.ts:25-42 | the audit table starts empty |
| Feed.AuditLog.Record | supabase/functions/ics-feed/index.ts:32-41 | a successful insert appends the row; a failed one is swallowed and leaves the table unchanged |
| Feed.Decide | supabase/functions/ics-feed/index.ts:44-196 | a missing token gives 400; an audit row is written exactly for the 500 and 429 answers, with the status, the hash prefix, the client address and the rate flag; 429 means the counted requests are over 100; a served feed has passed the rate limit, found its calendar and holds its name and the feed events |
| Feed.ServeFeed | supabase/functions/ics-feed/index.ts:44-197 | the handler answers what the decision says, records the audit row of an audited answer when the insert succeeds, and otherwise serves the built calendar without touching the audit table |
| FeedLinks.PublicFeedBase | src/lib/functionsClient.ts:5-6 | an empty or missing variable falls back to https://icaltester.com; otherwise the variable is used |
| FeedLinks.FoldAscii | src/lib/functionsClient.ts:7 | the `i` flag folds a character exactly as `toLowerCase` does, except the Kelvin sign, and keeps ASCII and non-ASCII apart |
| FeedLinks.HttpsSchemeIsLowerPrefix | src/lib/functionsClient.ts:7 | the case-insensitive `https://` test accepts exactly the texts whose lower-case form starts with `https://` |
| FeedLinks.StripTrailingSlashes | src/lib/functionsClient.ts:10 | the result is a prefix of the text, does not end with a slash, and only slashes were removed |
| FeedLinks.StripTrailingSlashesUnique | src/lib/functionsClient.ts:10 | any prefix without a final slash followed only by slashes is the result |
| FeedLinks.StripTrailingSlashesIdempotent | src/lib/functionsClient.ts:10 | stripping twice is stripping once |
| FeedLinks.StripAddedSlashes | src/lib/functionsClient.ts:10 | slashes appended to a base are all removed again |
| FeedLinks.NormalizedPublicFeedBase | src/lib/functionsClient.ts:5-10 | loading fails with the https message exactly in production with a base not starting with `https://` in any case; otherwise the base is its prefix without trailing slashes |
| FeedLinks.DefaultBaseAccepted | src/lib/functionsClient.ts:5-10 | without configuration every build uses https://icaltester.com |
| FeedLinks.ProductionBaseKeepsScheme | src/lib/functionsClient.ts:7-10 | in production the normalized base still starts with `https:` |
| FeedLinks.PublicIcsPath | src/lib/functionsClient.ts:68-70 | the path is `/ics-feed/` followed by the token |
| FeedLinks.OneSlashAfterBase | src/lib/functionsClient.ts:64-66 | base and path are joined by exactly one slash |
| FeedLinks.PublicIcsPathRoundTrip | src/lib/functionsClient.ts:68-70 | the feed function reads a one-segment token back from the path the client builds |
| Sync.DeleteAll | supabase/functions/ics-sync/index.ts:123-131 | the delete removes exactly the rows of the subscription whose UID is stale and keeps every other row as it was |
| Sync.Rescheduled | supabase/functions/ics-sync/index.ts:151-157 | the update changes the sync fields of the rows with the subscription's id and no other row |
| Sync.Store.constructor | supabase/functions/ics-sync/index.ts:72-157 | the store holds the given tables |
| Sync.Store.Upsert | supabase/functions/ics-sync/index.ts:112-118 | a batch in which two rows share a (subscription, UID) key is rejected with the database's error and changes nothing; any other batch stores each row under its key; no other table changes |
| Sync.Store.Delete | supabase/functions/ics-sync/index.ts:123-131 | the delete removes the stale rows of the subscription and touches no other table |
| Sync.Store.InsertLog | supabase/functions/ics-sync/index.ts:136-149 | a sync log is appended and nothing else changes |
| Sync.Store.Reschedule | supabase/functions/ics-sync/index.ts:151-157 | the subscription is rescheduled and nothing else changes |
| Sync.NewCount | supabase/functions/ics-sync/index.ts:97-98 | the added count never exceeds the number of parsed events, so the updated count is never negative |
| Sync.NothingNewWhenKnown | supabase/functions/ics-sync/index.ts:97-98 | when every parsed UID is already stored nothing counts as added |
| Sync.AllNewWhenUnknown | supabase/functions/ics-sync/index.ts:97-98 | when no parsed UID is stored every event counts as added |
| Sync.ResyncIsStable | supabase/functions/ics-sync/index.ts:97-122 | syncing a feed whose UIDs are exactly the stored ones adds nothing, updates every event and finds nothing stale |
| Sync.UpsertAllKeys | supabase/functions/ics-sync/index.ts:112-118 | the upsert adds exactly the keys of its rows and keeps the value of every other key |
| Sync.UpsertRowKeys | supabase/functions/ics-sync/index.ts:100-115 | the upsert touches exactly the keys (subscription, UID) of the parsed events |
| Sync.UpsertKeepsOthers | supabase/functions/ics-sync/index.ts:112-118 | the upsert leaves other subscriptions' rows unchanged |
| Sync.ReconcileUids | supabase/functions/ics-sync/index.ts:112-131 | upserting the parsed rows and deleting the stale UIDs leaves exactly the parsed UIDs stored for the subscription |
| Sync.ReconcileExact | supabase/functions/ics-sync/index.ts:100-131 | a successful sync stores exactly the feed's UIDs for the subscription and leaves every other subscription's rows as they were |
| Sync.UpsertRowsDistinct | supabase/functions/ics-sync/index.ts:100-110 | the upsert rows of a feed repeat a key exactly when the feed repeats a UID |
| Sync.LastPerKeyUpsert | supabase/functions/ics-sync/index.ts:100-118 | keeping only the last row of each key gives a batch without repeated keys, with the same keys, that stores what applying every row in order would store |
| Sync.UpsertAllAt | supabase/functions/ics-sync/index.ts:112-115 | when no two rows share a key, the upsert stores each row under its key |
| Sync.ReconciledRows | supabase/functions/ics-sync/index.ts:89-131 | after a completed sync of a feed without repeated UIDs, each parsed event is stored under its UID with the given owner and calendar, its dates and summary, its status lowered to "cancelled" or "confirmed", and `now` as its update time |
| Sync.ReconciledAll | supabase/functions/ics-sync/index.ts:89-131 | every parsed event is stored as its upsert row after a completed sync |
| Sync.ReconciledOnlyParsed | supabase/functions/ics-sync/index.ts:89-131 | after a completed sync every row of the subscription is the upsert row of a parsed event with its UID |
| Sync.RepeatedUidNeverSyncs | supabase/functions/ics-sync/index.ts:100-118 | a feed whose parsed events repeat a UID never syncs: every attempt on it ends with an error |
| Sync.HandlerUrlOptions | supabase/functions/ics-sync/index.ts:25-26 | http and port 80 are allowed exactly when `ALLOW_HTTP_ICAL_URLS` is "true"; 443 always is |
| Sync.HandlerLimits | supabase/functions/ics-sync/index.ts:27-33 | the fetch is limited to 2000000 bytes and 3 redirects, so at most 4 requests |
| Sync.FindSubscription | supabase/functions/ics-sync/index.ts:50-58 | the lookup finds a subscription with the requested id exactly when one exists |
| Sync.EarlyStop | supabase/functions/ics-sync/index.ts:71-95 | a sync stops with an error and no counts on a failed check, a failed read of the stored UIDs, a failed fetch or a non-2xx status; otherwise the fetch returned a response |
| Sync.FetchFailedLogsError | supabase/functions/ics-sync/index.ts:84 | a non-2xx fetch is logged as an error with its HTTP status and the "Fetch failed" message |
| Sync.TrySync | supabase/functions/ics-sync/index.ts:71-134 | a sync attempt changes only the subscription's imported rows, and leaves them as `Sync.AfterAttempt` says: unchanged when it stops before parsing or the upsert fails, upserted but not pruned when the delete fails, and otherwise `Sync.Reconciled`; it succeeds exactly when the fetch, parse, upsert and delete succeed, and then the counts are those of the parsed feed and the subscription holds one row per parsed UID, the upsert row of that event |
| Sync.SyncFeed | supabase/functions/ics-sync/index.ts:86-134 | after a 2xx response the attempt records the status and size, succeeds exactly when the storage batches do, and leaves the imported rows as `Sync.AfterAttempt` says |
| Sync.Persist | supabase/functions/ics-sync/index.ts:100-131 | the upsert and delete succeed exactly when neither store call fails where it runs and the feed repeats no UID; a failed upsert leaves the rows unchanged, a failed delete leaves the upsert applied, and success leaves `Sync.Reconciled`: every parsed row upserted and the stale UIDs deleted, so the stored UIDs are the feed's; `removed` counts the stale UIDs unless the upsert failed |
| Sync.UpsertPhase | supabase/functions/ics-sync/index.ts:112-118 | the upsert runs only for a non-empty list; it fails with the store's error, or with the duplicate-key rejection when two rows share a key, and then changes nothing; otherwise it applies every row |
| Sync.DeletePhase | supabase/functions/ics-sync/index.ts:123-131 | the delete runs only for a non-empty stale set and either applies it or fails with the store's error, changing nothing |
| Sync.SyncAttempt | supabase/functions/ics-sync/index.ts:62-157 | one attempt appends its sync log, reschedules the subscription with its status, error and next due time, changes no other subscription's rows, and has the outcome and imported rows of `Sync.TrySync` |
| ManualSync.Admission | supabase/functions/ics-sync/index.ts:36-60 | a sync is admitted exactly for an authenticated user asking for `sync-subscription` with a non-empty id of an existing subscription whose URL validates; an anonymous request gets 401 and other refusals 400 or 404 |
| ManualSync.ReplyOf | supabase/functions/ics-sync/index.ts:159-160 | the reply is 500 exactly when the attempt failed, which is when its log says "error", and otherwise 200 with the three counts |
| ManualSync.HandleSync | supabase/functions/ics-sync/index.ts:20-166 | a refused request changes nothing and gets its refusal; an admitted one runs one attempt, logs and reschedules it, replies with its outcome and changes only that subscription's rows, as `Sync.AfterAttempt` says; on success the subscription holds one upsert row per parsed event, owned by the requesting user |
| Cron.SecretGate | supabase/functions/ics_cron/index.ts:33-46 | the cron runs exactly when the settings read succeeded or the table is missing, the effective secret is non-empty and the header equals it; otherwise it answers 403 or 500 |
| Cron.StoredSecretOverridesEnv | supabase/functions/ics_cron/index.ts:42-46 | with a stored secret the environment does not matter, and the stored secret alone opens the gate |
| Cron.MissingTableFallsBack | supabase/functions/ics_cron/index.ts:41 | a missing settings table behaves like an empty settings row |
| Cron.DueOf | supabase/functions/ics_cron/index.ts:49-53 | the selected subscriptions are exactly the enabled, owned ones due by now |
| Cron.InsertByDue | supabase/functions/ics_cron/index.ts:54 | inserting one subscription into a due-ordered list |
| Cron.InsertSorted | supabase/functions/ics_cron/index.ts:54 | inserting into a due-ordered list keeps it ordered |
| Cron.InsertPermutes | supabase/functions/ics_cron/index.ts:54 | inserting adds exactly that subscription |
| Cron.SortByDue | supabase/functions/ics_cron/index.ts:54 | the ordering is ascending by next due time and is a permutation |
| Cron.Batch | supabase/functions/ics_cron/index.ts:49-55 | the batch holds at most 25 due subscriptions in ascending due order |
| Cron.BatchIsEarliest | supabase/functions/ics_cron/index.ts:49-55 | a due subscription left out of the batch means the batch is full of subscriptions due no later than it |
| Cron.Precheck | supabase/functions/ics_cron/index.ts:77-81 | an item fails before any store call exactly when it has no owner or its URL does not validate, and a missing owner gives "Missing calendar owner" |
| Cron.BatchLogs | supabase/functions/ics_cron/index.ts:148-161 | one sync log per processed subscription |
| Cron.BatchLogsAt | supabase/functions/ics_cron/index.ts:148-161 | the i-th log is the i-th subscription's attempt |
| Cron.RescheduleAll | supabase/functions/ics_cron/index.ts:163-169 | every subscription row is kept, and the processed ones are rescheduled in order |
| Cron.CountOk | supabase/functions/ics_cron/index.ts:142-145 | the success count never exceeds the number of attempts |
| Cron.Prechecks | supabase/functions/ics_cron/index.ts:77-81 | one check per batch item |
| Cron.RunItem | supabase/functions/ics_cron/index.ts:65-169 | one loop item logs its attempt, reschedules its subscription, changes only that subscription's rows, and stops when its check failed; otherwise it is one sync attempt with the handler limits and the calendar owner's rows: it succeeds exactly when `Sync.Synced` holds, then `Sync.SyncedAs` holds, and its imported rows are `Sync.AfterAttempt` |
| Cron.RunBatch | supabase/functions/ics_cron/index.ts:60-170 | the loop processes every batch item once, counts successes and failures that add up, appends one log per item, reschedules each, and changes only the batch's rows; `maps` holds the imported rows before each item, and item j succeeded exactly when `Sync.Synced` held on `maps[j]` and turned it into `maps[j + 1]` as one attempt does (`Cron.ItemOutcome`) |
| Cron.Step | supabase/functions/ics_cron/index.ts:64-170 | one turn of the loop extends the logs, schedules and per-item outcomes of the items before it by one item |
| Cron.RunCron | supabase/functions/ics_cron/index.ts:16-177 | a closed gate answers its refusal and changes nothing; a failed listing answers 500; otherwise the due batch is processed, each item's outcome is recorded as in `Cron.RunBatch`, and the reply reports nothing due or the processed, ok and failed counts |
| Cron.ZeroPollDueAgain | supabase/functions/ics_cron/index.ts:163-169 | a subscription polled every 0 seconds is due again at any later time |
| Api.AfterName | supabase/functions/ics_api/index.ts:23-25 | the route is what follows the first occurrence of the function name, or the whole path when the name is absent |
| Api.RouteParts | supabase/functions/ics_api/index.ts:20-26 | every route part is a non-empty segment |
| Api.RouteAfterName | supabase/functions/ics_api/index.ts:20-26 | on a path whose prefix does not contain `ics_api`, the route parts are exactly the segments after it |
| Api.Dispatch | supabase/functions/ics_api/index.ts:91-514 | the route tests in source order: a handler for one row names the second route part as its id, the sync handler needs a POST with `sync` third and the exact create test, and the subscription create handler needs a POST on `subscriptions` |
| Api.Route | supabase/functions/ics_api/index.ts:276 | as written, the create test checks the first part only, so no request reaches the sync handler |
| Api.PostSyncIsCreate | supabase/functions/ics_api/index.ts:276-282 | `POST /subscriptions/:id/sync` reaches the create handler, which refuses a request without a body for missing fields |
| Api.IntendedRoute | supabase/functions/ics_api/index.ts:74-88 | with the create test limited to `/subscriptions` itself, the create handler is reached only without a second part |
| Api.IntendedRouteDocumented | supabase/functions/ics_api/index.ts:74-88 | the intended tests reach every documented subscription route, `POST /subscriptions/:id/sync` included |
| Api.IntendedRouteOthers | supabase/functions/ics_api/index.ts:74-88 | the intended tests reach every other documented route |
| Api.IntendedRouteAgrees | supabase/functions/ics_api/index.ts:276 | the intended tests agree with the written ones on every request except a POST below `/subscriptions/:id` |
| Api.NormalizeStatus | supabase/functions/ics_api/index.ts:35-41 | the status is always one of the four booking statuses: the lower-cased input when it is one, "confirmed" otherwise |
| Api.NormalizeStatusIdempotent | supabase/functions/ics_api/index.ts:35-41 | normalising a normalised status changes nothing |
| Api.StatusLowerCase | supabase/functions/ics_api/index.ts:35-41 | the four booking statuses are already lower case |
| Api.NormalizeStatusIgnoresCase | supabase/functions/ics_api/index.ts:36 | normalising ignores the letter case of the input |
| Api.NormalizeDefaultStatus | supabase/functions/ics_api/index.ts:43-51 | a default status is accepted exactly when its lower-cased text is pending, tentative or confirmed, and is then that text |
| Api.DefaultStatusAgrees | supabase/functions/ics_api/index.ts:35-51 | an accepted default status is what the booking normaliser gives too, and is never "cancelled" |
| Api.CalendarName | supabase/functions/ics_api/index.ts:132-135 | a name is rejected with "name required" exactly when it is blank; otherwise it is trimmed and neither starts nor ends with white space |
| Api.CalendarNameStable | supabase/functions/ics_api/index.ts:106 | an accepted name is accepted again unchanged |
| Api.BuildCalendarPatch | supabase/functions/ics_api/index.ts:128-154 | the patch is rejected exactly for a blank name, a non-positive or non-finite poll interval, or an unknown default status, with the first failing field's message; an accepted patch sets the time stamp and exactly the fields the body gives, with a positive interval and a non-cancelled default status |
| Api.BookingUid | supabase/functions/ics_api/index.ts:207 | a missing UID is replaced by a fresh one; a non-empty text UID is kept |
| Api.NewBooking | supabase/functions/ics_api/index.ts:194-213 | a booking is created exactly when calendar, start and end are non-empty and the end sorts after the start; it then holds those fields, the summary or "Blocked", the UID, a normalised status and the manual source |
| Api.BlockedByDefault | supabase/functions/ics_api/index.ts:199 | a booking without a summary is "Blocked" |
| Api.IsoOrder | supabase/functions/ics_api/index.ts:201 | for four-digit years, ISO date texts sort as the days they name |
| Api.BookingCoversANight | supabase/functions/ics_api/index.ts:200-201 | for ISO dates the exclusive-end check accepts exactly the bookings that end on a later day |
| Api.BuildBookingUpdate | supabase/functions/ics_api/index.ts:224-237 | the update is rejected exactly when both dates are given, non-empty and out of order; otherwise it sets the time stamp and exactly the given fields, and two non-empty dates are in order |
| Api.AtLeast60 | supabase/functions/ics_api/index.ts:281 | `Math.max(60, ·)` keeps NaN, raises everything below 60 to 60 and keeps larger values |
| Api.NewPoll | supabase/functions/ics_api/index.ts:281 | a missing interval means 300 seconds |
| Api.NewSubscription | supabase/functions/ics_api/index.ts:276-300 | a subscription is created exactly when calendar, URL and a non-blank name are given, the interval is a number and the URL validates; it is enabled, due now, has the trimmed name and an interval of at least 60 seconds; missing fields and invalid URLs give their messages |
| Api.PatchedPoll | supabase/functions/ics_api/index.ts:316-322 | an interval is accepted exactly when it is a non-negative finite number; 0 stays 0 and anything else becomes at least 60 |
| Api.BuildSubscriptionPatch | supabase/functions/ics_api/index.ts:309-338 | the patch is rejected exactly for a bad interval, a blank name, a blank or invalid URL, or an empty patch; an accepted patch holds exactly the given fields, trimmed, with a valid URL and an interval of 0 or at least 60 |
| Api.SyncReply | supabase/functions/ics_api/index.ts:465-466 | the sync route answers 500 exactly when the attempt failed, which is when its log says "error", and otherwise reports the status, size and event count |
| Api.EmptyArrayName | supabase/functions/ics_api/index.ts:106-107 | a name given as `[]` renders as the empty string and is refused |
| Api.ArrayOfDigits | supabase/functions/ics_api/index.ts:139-140 | an interval given as `[5]` or `["5"]` is the number 5, so a positive one is accepted |
| Api.SyncRoute | supabase/functions/ics_api/index.ts:359-467 | the body of the sync branch, which only `Api.IntendedRoute` reaches: an unknown subscription is a thrown error, answered as the outer `catch` does, that changes nothing; otherwise one attempt is logged under the requested id, the subscription is rescheduled, only its rows change, as `Sync.AfterAttempt` says, with one upsert row per parsed event owned by the caller on success, and the reply reports the attempt |
| Api.RefusedUrlBecomesAttempt | supabase/functions/ics_api/index.ts:386 | the sync route does not pre-validate the stored URL: a rejected URL fails inside the fetch and is logged as an attempt with the rejection reason |
| Api.CleanupMessage | supabase/functions/ics_api/index.ts:530 | an empty error message becomes "Account cleanup failed" |
| Api.FirstFailure | supabase/functions/ics_api/index.ts:528-531 | the first step from which the clean-up fails, every earlier step having succeeded |
| Api.DeleteAccount | supabase/functions/ics_api/index.ts:514-537 | the tables are cleared leaf to root up to the first failing step, whose message is thrown; the account is deleted only after every step succeeded and the auth deletion did too, and only then is the answer 200 |
| Days.EachDay | src/components/booking/useBookingDateRangeSelection.ts:101 | the days from start to end inclusive, one per step, walked backwards when the end comes first |
| Days.EachDayMember | src/components/booking/useBookingDateRangeSelection.ts:101-102 | a day is in the interval exactly when it lies between its ends |
| Booking.DateSelect | src/components/booking/useBookingDateRangeSelection.ts:59-138 | no date changes nothing; a blocked or too-distant date only sets its error; the first click, or a click after a full selection, starts a new check-in; clicking the check-in again clears; a second click whose range spans a blocked day, or whose later day passes the horizon, restarts from the clicked day with that error; otherwise the two days are stored in order, with the minimum- or maximum-stay error when the night count is out of bounds and no error exactly when it is within them |
| Booking.DateSelectAccepts | src/components/booking/useBookingDateRangeSelection.ts:118-137 | a selection completed without an error is an accepted stay |
| Booking.DateSelectWellformed | src/components/booking/useBookingDateRangeSelection.ts:59-138 | a click keeps the selection well formed: a check-out only after a check-in, and selecting a check-out only when none is chosen |
| Booking.DateRangeSelection.constructor | src/components/booking/useBookingDateRangeSelection.ts:17-27 | the hook starts with the parent's dates, not selecting a check-out and without an error |
| Booking.DateRangeSelection.DatesChange | src/components/booking/useBookingDateRangeSelection.ts:78-136 | the parent's new dates replace the selected ones and keep the hook's own state |
| Booking.DateRangeSelection.ClearDates | src/components/booking/useBookingDateRangeSelection.ts:53-57 | clearing removes both dates, the check-out mode and the error |
| Booking.DateRangeSelection.HandleDateSelect | src/components/booking/useBookingDateRangeSelection.ts:59-138 | the state after a click is what the click specification gives for the state before it |
| Booking.SelectedNights | src/components/booking/DateSelector.tsx:72 | without both dates the stay is 0 nights; an ordered pair is a positive number of nights |
| Booking.RangeSelect | src/components/booking/DateSelector.tsx:88-123 | a range without a start clears the selection; a complete range is the hook's click on its end day |
| Booking.FirstClickIffEnabled | src/components/booking/DateSelector.tsx:96-116 | a first click sets the check-in exactly when the day is enabled in the picker, and a disabled day only sets an error |
| Booking.RangeSelectWellformed | src/components/booking/DateSelector.tsx:88-123 | a range selection keeps the selection well formed |
| Booking.ContinueAgreesWithHook | src/components/booking/DateSelector.tsx:72-73 | for a new check-out the picker's valid-stay flag agrees with the hook having no error |
| Booking.HookIgnoresPickerHorizon | src/components/booking/DateSelector.tsx:63-70 | with a 30-day picker horizon, a check-out 40 days out is disabled in the picker yet accepted by the hook |
| Booking.HandleRangeSelect | src/components/booking/DateSelector.tsx:88-123 | the state after a range selection is what the range specification gives |
| CalendarDetail.StayDaysMember | src/pages/CalendarDetail.tsx:153-156 | a stay blocks the days from check-in up to the day before check-out; a stay that does not end after it starts is walked backwards |
| CalendarDetail.StayDaysCount | src/pages/CalendarDetail.tsx:155-156 | a stay that ends after it starts blocks one day per night |
| CalendarDetail.BookingDaysStep | src/pages/CalendarDetail.tsx:149-158 | each booking adds its stay days after those of the earlier bookings, unless it is excluded or cancelled |
| CalendarDetail.ImportedDaysStep | src/pages/CalendarDetail.tsx:161-168 | each imported event adds its stay days after those of the earlier events, unless its status is cancelled in any case |
| CalendarDetail.AddBookingDays | src/pages/CalendarDetail.tsx:149-158 | the booking loop appends the blocking bookings' days, in order, to what it started with |
| CalendarDetail.AddImportedDays | src/pages/CalendarDetail.tsx:161-168 | the imported-event loop appends the blocking events' days, in order, to what it started with |
| CalendarDetail.GetBlockedDates | src/pages/CalendarDetail.tsx:141-171 | the blocked days are those of the blocking bookings followed by those of the blocking imported events |
| CalendarDetail.BookingDaysMember | src/pages/CalendarDetail.tsx:149-158 | a day is blocked by the bookings exactly when some booking that is neither excluded nor "cancelled" covers it |
| CalendarDetail.ImportedDaysMember | src/pages/CalendarDetail.tsx:161-168 | a day is blocked by the imported events exactly when some event whose status is not "cancelled" in any case covers it |
| CalendarDetail.CurrentTab | src/pages/CalendarDetail.tsx:188-193 | the tab is always one of the four tabs: the requested one when it is valid, "bookings" otherwise |
| CalendarDetail.CurrentTabStable | src/pages/CalendarDetail.tsx:188-193 | a chosen tab, requested again, stays chosen |
| CalendarDetail.FindOption | src/pages/CalendarDetail.tsx:764 | `find` gives an option with the requested seconds exactly when one exists |
| CalendarDetail.OptionSecondsDistinct | src/pages/CalendarDetail.tsx:658-667 | no two sync interval options share a number of seconds |
| CalendarDetail.IntervalLabels | src/pages/CalendarDetail.tsx:763-766 | an interval listed as an option shows its caption; any other shows its seconds followed by "s" |
| CalendarDetail.FindOptionAt | src/pages/CalendarDetail.tsx:764 | with distinct seconds the option found is the one holding them |
| CalendarDetail.CanSaveName | src/pages/CalendarDetail.tsx:997 | a name can be saved only when its trimmed text is non-empty and differs from the stored name |
| CalendarDetail.SavedNameSettles | src/pages/CalendarDetail.tsx:997-1006 | the saved name is the trimmed text, which the API stores unchanged, after which there is nothing left to save |
| CalendarDetail.DefaultStatusSetting.constructor | src/pages/CalendarDetail.tsx:354 | the select starts at "tentative" |
| CalendarDetail.DefaultStatusSetting.SyncFromDb | src/pages/CalendarDetail.tsx:356-361 | a stored default of pending, tentative or confirmed replaces the shown value; anything else leaves it |
| CalendarDetail.DefaultStatusSetting.Change | src/pages/CalendarDetail.tsx:366-377 | the new value is shown at once and kept when the save succeeds; a failed save shows the previous value again |
| CalendarDetail.DefaultStatusAccepted | src/pages/CalendarDetail.tsx:366-370 | every value the select offers is one the API accepts unchanged as a default status |
| TimelineRows.TagAll | src/hooks/useAllCalendarsBookings.ts:62-80 | every listed event is tagged, in order |
| TimelineRows.DataAt | src/hooks/useAllCalendarsBookings.ts:59-60 | a missing query or a query without data gives no events |
| TimelineRows.RowOf | src/hooks/useAllCalendarsBookings.ts:61-87 | a row holds its calendar, then its manual events followed by its imported events |
| TimelineRows.RowEventsTagged | src/hooks/useAllCalendarsBookings.ts:61-82 | every event of a row has the row's calendar colour, and an event is manual exactly when it comes before the imported ones |
| TimelineRows.RowsTagged | src/hooks/useAllCalendarsBookings.ts:56-90 | the i-th row belongs to the i-th calendar and lists that calendar's manual events, then its imported events, in query order and in the calendar's colour; a query without data adds nothing |
| TimelineLayout.Place | src/components/calendar/TimelineBookingBlock.tsx:22-35 | a block is drawn exactly when the event shows on some day of the range, and it then covers exactly the days the event shows on, with a non-negative offset and a span of at least one day |
| TimelineLayout.StatusClass | src/components/calendar/TimelineBookingBlock.tsx:37-43 | cancelled events are struck through and tentative or pending ones dashed, in any letter case |
| TimelineLayout.StatusClassOfNormalized | src/components/calendar/TimelineBookingBlock.tsx:37-43 | a status stored by the API is drawn as its raw text would be |
| TimelineLayout.ExpandShortHex | src/components/calendar/TimelineBookingBlock.tsx:90-95 | a three-digit colour widens to six digits, position i holding digit i / 2; other lengths are kept |
| TimelineLayout.ToRgba | src/components/calendar/TimelineBookingBlock.tsx:87-102 | a colour converts only when it starts with # and its trimmed digits expand to six |
| TimelineLayout.ToRgbaLong | src/components/calendar/TimelineBookingBlock.tsx:87-102 | a six-digit hex colour converts to the values of its three digit pairs |
| TimelineLayout.HexRgbaDigits | src/components/calendar/TimelineBookingBlock.tsx:96-101 | six hex digits give the values of their three pairs |
| TimelineLayout.ToRgbaShort | src/components/calendar/TimelineBookingBlock.tsx:90-95 | a three-digit colour converts like its doubled six-digit form |
| TimelineLayout.CalendarTintOfHex | src/components/calendar/TimelineBookingBlock.tsx:78-102 | a six-digit hex colour tints the background with the values of its three digit pairs and the border with the colour itself |
| TimelineLayout.CalendarTintOfName | src/components/calendar/TimelineBookingBlock.tsx:78-88 | a colour that does not start with # colours only the border |
| TimelineLayout.BookingBlock | src/components/calendar/TimelineBookingBlock.tsx:14-76 | a block is drawn exactly when the event shows in the range; it is placed as its days say and is tinted only when it does not overlap |
| TimelineLayout.RowsCountOutside | src/components/calendar/TimelineView.tsx:29-31 | no day outside the range is counted |
| TimelineLayout.EventsCountOutside | src/components/calendar/TimelineView.tsx:29-31 | no event counts a day outside the range |
| TimelineLayout.AddDays | src/components/calendar/TimelineView.tsx:33-38 | the day loop adds one to each day from first to last and changes no other count |
| TimelineLayout.BuildOverlapLookup | src/components/calendar/TimelineView.tsx:22-42 | each day's count is the number of events, over all rows, shown on it in the range, and only counted days are keys |
| TimelineLayout.HasEventOverlap | src/components/calendar/TimelineRow.tsx:37-47 | the loop finds a day with a count above one exactly when one lies between first and last |
| TimelineLayout.CrowdedMeansShared | src/components/calendar/TimelineRow.tsx:37-47 | a block is marked overlapping exactly when some day it shows on, within the range, has at least two events |
| TimelineLayout.RenderRow | src/components/calendar/TimelineRow.tsx:13-35 | one block per event, each with the overlap flag of its own displayed days |
| TimelineLayout.TotalWidth | src/components/calendar/TimelineView.tsx:16 | the width is the larger of 400 and one day width per shown day |
| TimelineLayout.ViewDaysOrdered | src/components/calendar/TimelineView.tsx:15 | the axis shows every day of an ordered range once, in order |
| TimelinePage.TotalDays | src/pages/Timeline.tsx:74 | the range is at least one day long, and an ordered range counts its days inclusively |
| TimelinePage.PagingTiles | src/pages/Timeline.tsx:128-131 | Prev and Next move by the range's own length, so the new range ends right before or starts right after the old one and keeps its length |
| TimelinePage.DistinctIdSetSize | src/pages/Timeline.tsx:76 | distinct calendar ids make a set of the same size |
| TimelinePage.SubsetSameSize | src/pages/Timeline.tsx:76 | a subset of the same finite size is the whole set |
| TimelinePage.AllSelectedIff | src/pages/Timeline.tsx:76 | with the visible set inside the calendar ids, the size test says exactly that every calendar is visible |
| TimelinePage.VisibleRows | src/pages/Timeline.tsx:78-81 | a row is visible exactly when it is one of the rows and its calendar is visible |
| TimelinePage.KeptFrom | src/pages/Timeline.tsx:79 | the positions of the visible rows, strictly increasing, every visible position included |
| TimelinePage.VisibleRowsInOrder | src/pages/Timeline.tsx:79 | the visible rows are the rows at the visible positions, in order and with their repetitions, as `filter` keeps them |
| TimelinePage.VisibleRowsAll | src/pages/Timeline.tsx:78-81 | when every calendar is visible all rows are kept |
| TimelinePage.AboveAdd | src/pages/Timeline.tsx:103-106 | counting the crowded days of one more key adds it exactly when its count is above one |
| TimelinePage.AboveIsCrowded | src/pages/Timeline.tsx:83-106 | the days the lookup counts above one are the days with two or more visible events |
| TimelinePage.CountAbove | src/pages/Timeline.tsx:103-106 | the loop counts the lookup's keys whose value is above one |
| TimelinePage.OverlapDays | src/pages/Timeline.tsx:83-108 | the overlap figure is the number of days in the range shared by at least two visible events |
| TimelinePage.AddIds | src/pages/Timeline.tsx:56-61 | every calendar id is added, and the change flag says whether one was missing |
| TimelinePage.KeepIds | src/pages/Timeline.tsx:63-68 | ids without a calendar are removed, and the change flag says whether one was there |
| TimelinePage.TimelineState.constructor | src/pages/Timeline.tsx:42-44 | the page starts with an ordered range and no visible calendar |
| TimelinePage.TimelineState.SetRangeStart | src/pages/Timeline.tsx:110-117 | an empty value changes nothing; a new start moves the end along when it passes it |
| TimelinePage.TimelineState.SetRangeEnd | src/pages/Timeline.tsx:119-126 | an empty value changes nothing; a new end moves the start along when it precedes it |
| TimelinePage.TimelineState.ShiftRange | src/pages/Timeline.tsx:128-131 | both ends move by the same number of days |
| TimelinePage.TimelineState.Next | src/pages/Timeline.tsx:233 | Next starts right after the old range and keeps its length |
| TimelinePage.TimelineState.Prev | src/pages/Timeline.tsx:229 | Prev ends right before the old range and keeps its length |
| TimelinePage.TimelineState.ResetToToday | src/pages/Timeline.tsx:133-137 | the range becomes this month through the end of next month |
| TimelinePage.TimelineState.SyncVisible | src/pages/Timeline.tsx:46-72 | after the effect exactly the current calendars are visible, and the set is replaced only when it changed or no calendar is left |
| TimelinePage.TimelineState.ToggleCalendar | src/pages/Timeline.tsx:145-155 | checking adds the calendar and unchecking removes it, nothing else |
| TimelinePage.TimelineState.ToggleAllCalendars | src/pages/Timeline.tsx:157-163 | with every calendar visible the toggle hides all; otherwise it shows all |

## Left out

- Network I/O is a parameter (`Net.World`). The world gives URL parsing, relative resolution, one response per request and UTF-8 decoding as functions. `fetch`, the stream reader and `TextDecoder` are not modelled themselves.
- The 10-second `AbortController` timeout of a request is not modelled. A timeout appears only as a network failure from the world.
- Whether a URL parser keeps the brackets of an IPv6 hostname or blanks a default port is the parser's behaviour. The model takes the parsed record as given.
- Net.Follow: when `new URL(location, currentUrl)` throws on a redirect target, the code records the run-time's own `TypeError` message. The model records "Invalid URL" in its place. Either way the fetch fails.
- Supabase storage is the class `Sync.Store`. It holds the imported events as a map keyed by (subscription, UID), the sync logs as a sequence and the subscription rows. A failure of each storage call is an input. The calendar, booking and subscription routes stop at the row or patch they would write, and their list (GET) routes, which only read, are not modelled.
- The feed's rate counter RPC, calendar lookup and queries are inputs (`Feed.FeedWorld`). SHA-256 is a parameter (the digest bytes). Only their hex encoding is modelled.
- `crypto.randomUUID` and `Math.random` in UID generation become a fresh UID given as a parameter.
- The clock is a parameter: `now` in milliseconds, today's date, and the UTC clock fields of the DTSTAMP.
- The last-resort "today" result of the date reader, for a value with no eight-digit run, takes today's date as a parameter.
- Floating point: `JsNumber` keeps finite values as exact reals. Rounding, overflow to infinity and underflow of real JavaScript numbers are not modelled. The poll intervals and hour arithmetic the code does are exact in that domain.
- Case mapping covers the characters whose mapping reaches ASCII: `JsText.Lower` maps A–Z and the Kelvin sign, and `JsText.UpperChar` maps a–z, ß, dotless ı, long ſ and the ligatures U+FB00–U+FB06. Every other character is kept as is, so other Unicode case pairs are not modelled. None of the compared keywords holds a letter they affect.
- Client dates are integer day numbers. The mix of local-time `setDate` with UTC `toISOString` keys in the timeline loops is not modelled, and neither are time zones. So `CalendarDetail.GetBlockedDates` keeps the last night of a stay whose last night is the spring-forward day, which the code drops: there `end - 86400000` ms falls on the evening before that day.
- `Days.EachDay` follows date-fns 3, which walks an interval whose end precedes its start backwards. date-fns 2 would throw for such an interval instead. This matters only for a stay that ends on or before its start day in `CalendarDetail.GetBlockedDates`.
- `TimelinePage.CountAbove` visits the lookup's keys in an order the proof chooses. The code iterates a JavaScript `Map` in insertion order. The count does not depend on the order.
- Cron ties: `Cron.SortByDue` orders subscriptions with equal `next_due_at` stably in table order. The database leaves that order unspecified.
- Concurrency: overlapping syncs of one subscription and concurrent cron runs have no mutual exclusion in the code. The model runs every handler on its own and claims nothing about interleavings.
- Authentication (`requireUserId`) is an input: the user id or its absence. Row-level security is not modelled.
- CORS preflight handling, response headers and the JSON serialisation of replies are not modelled. Replies are a status and a body value.
- React rendering, toasts, navigation and query plumbing are not modelled. Each hook or component's state is a class or a value, and a callback is a method.
- Display strings produced by date-fns `format` are not modelled.
- The sync, cron and API handlers each carry a copy of one sync algorithm. It is modelled once in `Sync` and shared by `ManualSync.HandleSync`, `Cron.RunCron` and `Api.SyncRoute`. `Api.SyncRoute` models the body of the API's sync branch, which the route tests as written never reach (`Api.PostSyncIsCreate`).
- Feed.ServeFeed: the catch-all answer 500 "Internal server error" for an exception thrown outside the modelled calls is not modelled.
- Sync.Store.Upsert: a batch that repeats a key is rejected with the database's message. The handler's `catch` records that message when the client library throws an `Error`, and "sync failed" otherwise. The model always records the message; either way the attempt fails.

## Findings

The handlers are modelled as the code is written. Each corrected member is stated beside the as-written one, with the intended property proved about it.

| source | as written | input that shows it | evidently intended | confidence | as-written member | corrected member |
|---|---|---|---|---|---|---|
| supabase/functions/_shared/net.ts:66-73 | the private IPv6 test compares the host name, brackets included, with `::` and `::1` and its prefixes | `https://[::1]/` and `https://[fc00::1]/`: the URL parser keeps the brackets in `hostname`, so neither is refused | test the address inside the brackets | high, not executed | Net.BracketedLoopbackMissed | Net.IntendedIpv6Catches |
| supabase/functions/_shared/net.ts:71 | the link-local test checks the prefix `fe80` only | the host `fe90::1`, which lies inside fe80::/10 | refuse the whole of fe80::/10, that is `fe8`, `fe9`, `fea` and `feb` | medium, not executed | Net.LinkLocalSpellingMissed | Net.IntendedIpv6Stronger |
| supabase/functions/ics_api/index.ts:276 | the subscription create test checks only that the first route part is `subscriptions` | `POST /subscriptions/abc/sync` is answered 400 "calendar_id/name/ical_url required"; the sync branch at line 359 never runs | take the create branch only for `/subscriptions` itself, as the route list at lines 74-88 documents | high, not executed | Api.PostSyncIsCreate | Api.IntendedRouteDocumented |
| supabase/functions/ics-sync/index.ts:100-117 | one upsert row per parsed event, with repeated UIDs kept, in a single `ON CONFLICT` batch | a feed with two VEVENTs sharing a UID, such as a recurring event with an overridden instance: the database rejects the batch and the sync fails every time | upsert one row per UID | medium, not executed | Sync.RepeatedUidNeverSyncs | Sync.LastPerKeyUpsert |
