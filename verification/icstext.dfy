/**
 * The text-level pieces of the iCalendar codec (supabase/functions/_shared/ics.ts):
 * TEXT escaping (RFC 5545 section 3.3.11), line unfolding (section 3.1), the split
 * of the unfolded text into lines, the `NAME;params:value` content-line split and
 * the DATE / DATE-TIME readings of `parseToIsoDate`.
 */
module IcsText {
  import opened JsText
  import opened CivilDate
  import opened IcsTypes

  function Concat(parts: seq<string>): string
  {
    if parts == [] then "" else parts[0] + Concat(parts[1..])
  }

  /** `s.replaceAll(c, rep)` for a one-character pattern. */
  function ReplaceAll(s: string, c: char, rep: string): (r: string)
    ensures c !in s ==> r == s
  {
    if s == [] then []
    else (if s[0] == c then rep else [s[0]]) + ReplaceAll(s[1..], c, rep)
  }

  lemma {:induction false} ReplaceAllConcat(a: string, b: string, c: char, rep: string)
    ensures ReplaceAll(a + b, c, rep) == ReplaceAll(a, c, rep) + ReplaceAll(b, c, rep)
  {
    if a != [] {
      var h := if a[0] == c then rep else [a[0]];
      assert (a + b)[0] == a[0] && (a + b)[1..] == a[1..] + b;
      ReplaceAllConcat(a[1..], b, c, rep);
      assert ReplaceAll(a + b, c, rep) == h + ReplaceAll(a[1..] + b, c, rep);
    } else {
      assert a + b == b;
    }
  }

  // ---------------------------------------------------------------- escaping

  /** `escapeIcsText`: backslash first, then newline, comma and semicolon. */
  function EscapeIcsText(s: string): string
  {
    ReplaceAll(ReplaceAll(ReplaceAll(ReplaceAll(s, '\\', "\\\\"), '\n', "\\n"), ',', "\\,"), ';', "\\;")
  }

  /** The escape of one character, as RFC 5545 section 3.3.11 writes TEXT. */
  function EscapeChar(c: char): string
  {
    if c == '\\' then "\\\\"
    else if c == '\n' then "\\n"
    else if c == ',' then "\\,"
    else if c == ';' then "\\;"
    else [c]
  }

  /** Reference definition: every character escaped on its own. */
  function EscapeEach(s: string): string
  {
    if s == [] then "" else EscapeChar(s[0]) + EscapeEach(s[1..])
  }

  /** TEXT unescaping (RFC 5545 section 3.3.11): `\\`, `\;`, `\,`, `\n`, `\N`. */
  function Unescape(s: string): string
  {
    if s == [] then ""
    else if s[0] == '\\' && |s| >= 2 then
      (if s[1] == 'n' || s[1] == 'N' then "\n" else [s[1]]) + Unescape(s[2..])
    else [s[0]] + Unescape(s[1..])
  }

  /** The chain of four `replaceAll`s escapes each character independently. */
  lemma {:induction false} EscapeIsPerCharacter(s: string)
    ensures EscapeIcsText(s) == EscapeEach(s)
  {
    if s != [] {
      var c, rest := s[0], s[1..];
      assert s == [c] + rest;
      ReplaceAllConcat([c], rest, '\\', "\\\\");
      var s1a, s1b := ReplaceAll([c], '\\', "\\\\"), ReplaceAll(rest, '\\', "\\\\");
      ReplaceAllConcat(s1a, s1b, '\n', "\\n");
      var s2a, s2b := ReplaceAll(s1a, '\n', "\\n"), ReplaceAll(s1b, '\n', "\\n");
      ReplaceAllConcat(s2a, s2b, ',', "\\,");
      var s3a, s3b := ReplaceAll(s2a, ',', "\\,"), ReplaceAll(s2b, ',', "\\,");
      ReplaceAllConcat(s3a, s3b, ';', "\\;");
      EscapeCharChain(c);
      EscapeIsPerCharacter(rest);
    }
  }

  lemma EscapeCharChain(c: char)
    ensures EscapeIcsText([c]) == EscapeChar(c)
  {
    assert ReplaceAll([c], '\\', "\\\\") == (if c == '\\' then "\\\\" else [c]);
    if c == '\\' {
      assert ReplaceAll("\\\\", '\n', "\\n") == "\\\\";
      assert ReplaceAll("\\\\", ',', "\\,") == "\\\\";
      assert ReplaceAll("\\\\", ';', "\\;") == "\\\\";
    } else if c == '\n' {
      assert ReplaceAll("\\n", ',', "\\,") == "\\n";
      assert ReplaceAll("\\n", ';', "\\;") == "\\n";
    } else if c == ',' {
      assert ReplaceAll("\\,", ';', "\\;") == "\\,";
    }
  }

  /** An escaped text never holds a raw line feed. */
  lemma {:induction false} EscapeHasNoLineFeed(s: string)
    ensures '\n' !in EscapeIcsText(s)
  {
    EscapeIsPerCharacter(s);
    EscapeEachNoLineFeed(s);
  }

  lemma {:induction false} EscapeEachNoLineFeed(s: string)
    ensures '\n' !in EscapeEach(s)
  {
    if s != [] { EscapeEachNoLineFeed(s[1..]); }
  }

  /** Unescaping an escaped text gives the original text back. */
  lemma {:induction false} UnescapeEscape(s: string)
    ensures Unescape(EscapeIcsText(s)) == s
  {
    EscapeIsPerCharacter(s);
    UnescapeEach(s);
  }

  lemma {:induction false} UnescapeEach(s: string)
    ensures Unescape(EscapeEach(s)) == s
  {
    if s != [] {
      assert EscapeEach(s) == EscapeChar(s[0]) + EscapeEach(s[1..]);
      UnescapeFront(s[0], EscapeEach(s[1..]));
      UnescapeEach(s[1..]);
      assert s == [s[0]] + s[1..];
    }
  }

  /** An escaped character at the front unescapes to that character. */
  lemma UnescapeFront(c: char, rest: string)
    ensures Unescape(EscapeChar(c) + rest) == [c] + Unescape(rest)
  {
    var e := EscapeChar(c);
    if |e| == 2 {
      assert (e + rest)[2..] == rest;
    } else {
      assert (e + rest)[1..] == rest;
    }
  }

  /** Text without `\`, newline, `,` or `;` is left unchanged. */
  lemma PlainTextUnescaped(s: string)
    requires '\\' !in s && '\n' !in s && ',' !in s && ';' !in s
    ensures EscapeIcsText(s) == s
  {
  }

  // ---------------------------------------------------------------- unfolding

  predicate IsFoldSpace(c: char) { c == ' ' || c == '\t' }

  /**
   * `text.replace(/\r?\n[ \t]/g, "")`: scanning left to right, every CRLF or LF
   * followed by one space or tab is deleted together with that space or tab.
   */
  function Unfold(s: string): (r: string)
    ensures |r| <= |s|
    decreases |s|
  {
    if |s| >= 3 && s[0] == '\r' && s[1] == '\n' && IsFoldSpace(s[2]) then Unfold(s[3..])
    else if |s| >= 2 && s[0] == '\n' && IsFoldSpace(s[1]) then Unfold(s[2..])
    else if s == [] then []
    else [s[0]] + Unfold(s[1..])
  }

  /** No line break is followed by a space or tab. */
  predicate NoContinuation(s: string)
  {
    forall i :: 0 <= i < |s| - 1 && s[i] == '\n' ==> !IsFoldSpace(s[i + 1])
  }

  /** Text without continuation lines is left unchanged. */
  lemma {:induction false} UnfoldPlain(s: string)
    requires NoContinuation(s)
    ensures Unfold(s) == s
    decreases |s|
  {
    if s != [] {
      assert |s| >= 3 && s[0] == '\r' && s[1] == '\n' ==> !IsFoldSpace(s[2]);
      assert NoContinuation(s[1..]) by {
        forall i | 0 <= i < |s[1..]| - 1 && s[1..][i] == '\n' ensures !IsFoldSpace(s[1..][i + 1]) {
          assert s[i + 1] == '\n';
        }
      }
      UnfoldPlain(s[1..]);
      assert s == [s[0]] + s[1..];
    }
  }

  /** A prefix without CR or LF passes through unfolding untouched. */
  lemma {:induction false} UnfoldPrefix(a: string, b: string)
    requires '\r' !in a && '\n' !in a
    ensures Unfold(a + b) == a + Unfold(b)
    decreases |a|
  {
    if a != [] {
      assert (a + b)[0] == a[0] && (a + b)[1..] == a[1..] + b;
      UnfoldPrefix(a[1..], b);
    } else {
      assert a + b == b;
    }
  }

  /** The four folding separators: CRLF or LF, then a space or a tab. */
  predicate IsFoldBreak(sep: string)
  {
    sep == "\r\n " || sep == "\r\n\t" || sep == "\n " || sep == "\n\t"
  }

  /** Unfolding undoes folding: pieces joined by fold breaks come back concatenated. */
  lemma {:induction false} UnfoldJoinsContinuations(parts: seq<string>, sep: string)
    requires IsFoldBreak(sep)
    requires forall i :: 0 <= i < |parts| ==> '\r' !in parts[i] && '\n' !in parts[i]
    ensures Unfold(Join(parts, sep)) == Concat(parts)
  {
    if |parts| == 1 {
      UnfoldPrefix(parts[0], "");
      assert parts[0] + "" == parts[0];
      assert Concat(parts) == parts[0] + Concat([]);
    } else if |parts| > 1 {
      var rest := Join(parts[1..], sep);
      assert Join(parts, sep) == parts[0] + (sep + rest);
      UnfoldPrefix(parts[0], sep + rest);
      UnfoldBreak(sep, rest);
      UnfoldJoinsContinuations(parts[1..], sep);
    }
  }

  /** A fold break at the front is deleted. */
  lemma UnfoldBreak(sep: string, rest: string)
    requires IsFoldBreak(sep)
    ensures Unfold(sep + rest) == Unfold(rest)
  {
    var s := sep + rest;
    if |sep| == 3 {
      assert s[3..] == rest;
    } else {
      assert s[2..] == rest;
    }
  }

  // ---------------------------------------------------------------- lines

  /** `text.split(/\r?\n/)`: split at every LF, dropping one CR right before it. */
  function SplitLines(s: string): (r: seq<string>)
    ensures |r| >= 1
    ensures forall i :: 0 <= i < |r| ==> '\n' !in r[i]
    decreases |s|
  {
    var k := IndexOf(s, '\n');
    if k == -1 then [s]
    else
      var piece := if k > 0 && s[k - 1] == '\r' then s[..k - 1] else s[..k];
      assert '\n' !in piece by { assert piece <= s[..k]; }
      [piece] + SplitLines(s[k + 1..])
  }

  /** Every line followed by CRLF. */
  function Serialize(lines: seq<string>): string
  {
    if lines == [] then "" else lines[0] + "\r\n" + Serialize(lines[1..])
  }

  /** `lines.join("\r\n") + "\r\n"` is every line followed by CRLF. */
  lemma {:induction false} JoinCrlf(lines: seq<string>)
    requires |lines| >= 1
    ensures Join(lines, "\r\n") + "\r\n" == Serialize(lines)
  {
    if |lines| > 1 {
      JoinCrlf(lines[1..]);
    }
  }

  lemma SplitLinesEmpty()
    ensures SplitLines("") == [""]
  {
  }

  lemma ConsSnoc(xs: seq<string>, y: string)
    requires xs != []
    ensures [xs[0]] + (xs[1..] + [y]) == xs + [y]
  {
  }

  /** Splitting serialized lines gives them back, plus the empty text after the last CRLF. */
  lemma {:induction false} SplitSerialized(lines: seq<string>)
    requires forall i :: 0 <= i < |lines| ==> '\n' !in lines[i]
    ensures SplitLines(Serialize(lines)) == lines + [""]
  {
    if lines == [] {
      SplitLinesEmpty();
    } else {
      SplitLinesFront(lines[0], Serialize(lines[1..]));
      SplitSerialized(lines[1..]);
      ConsSnoc(lines, "");
    }
  }

  /** A line the builder writes: non-empty, not starting with a fold space, without a line feed. */
  predicate PlainLine(l: string)
  {
    l != [] && !IsFoldSpace(l[0]) && '\n' !in l
  }

  /** Serialized plain lines contain no continuation, so unfolding leaves them alone. */
  lemma {:induction false} SerializeNoContinuation(lines: seq<string>)
    requires forall i :: 0 <= i < |lines| ==> PlainLine(lines[i])
    ensures NoContinuation(Serialize(lines))
  {
    if lines != [] {
      var rest := Serialize(lines[1..]);
      SerializeNoContinuation(lines[1..]);
      var s := Serialize(lines);
      var n := |lines[0]|;
      assert s == lines[0] + "\r\n" + rest;
      forall i | 0 <= i < |s| - 1 && s[i] == '\n'
        ensures !IsFoldSpace(s[i + 1])
      {
        if i >= n + 2 {
          assert s[i] == rest[i - n - 2] && s[i + 1] == rest[i - n - 1];
        } else if i == n + 1 {
          assert lines[1..] != [];
          assert rest == lines[1] + "\r\n" + Serialize(lines[1..][1..]);
          assert s[i + 1] == lines[1][0];
        }
      }
    }
  }

  /** A line ended by CRLF is split off the front. */
  lemma SplitLinesFront(l: string, rest: string)
    requires '\n' !in l
    ensures SplitLines(l + "\r\n" + rest) == [l] + SplitLines(rest)
  {
    var s := l + "\r\n" + rest;
    assert s[|l| + 1] == '\n';
    assert s[..|l| + 1] == l + "\r";
    IndexOfAt(s, '\n', |l| + 1);
    assert s[..|l|] == l;
    assert s[|l| + 2..] == rest;
  }

  // ---------------------------------------------------------------- content lines

  /** The result of `splitIcsLine`: the key is absent when the line has no colon. */
  datatype ContentLine = ContentLine(key: Option<string>, value: string)

  /**
   * `splitIcsLine`: the value is everything after the first colon; the key is the
   * part before the first colon, cut at its first `;` (parameters) and upper-cased.
   */
  function SplitIcsLine(line: string): (r: ContentLine)
    ensures r.key.None? <==> ':' !in line
    ensures r.key.None? ==> r.value == ""
    ensures r.key.Some? ==> |r.value| < |line| && r.value == line[|line| - |r.value|..]
  {
    var idx := IndexOf(line, ':');
    if idx == -1 then ContentLine(None, "")
    else ContentLine(Some(Upper(Split(line[..idx], ';')[0])), line[idx + 1..])
  }

  /** A line `left:value` with no colon in `left` splits at that colon. */
  lemma SplitIcsLineOf(left: string, value: string)
    requires ':' !in left
    ensures SplitIcsLine(left + ":" + value) == ContentLine(Some(Upper(Split(left, ';')[0])), value)
  {
    var line := left + ":" + value;
    assert line[..|left|] == left;
    IndexOfAt(line, ':', |left|);
    assert line[|left| + 1..] == value;
  }

  // ---------------------------------------------------------------- dates

  /** `^\d{8}$`. */
  predicate IsDateDigits(v: string) { |v| == 8 && AllDigits(v) }

  /** `^\d{8}T\d{6}Z$` when `zulu`, `^\d{8}T\d{6}$` otherwise. */
  predicate IsDateTimeDigits(v: string, zulu: bool)
  {
    |v| == (if zulu then 16 else 15) && AllDigits(v[..8]) && v[8] == 'T' && AllDigits(v[9..15])
    && (zulu ==> v[15] == 'Z')
  }

  /** Eight digits start at position `j` of `v`. */
  predicate DigitsAt(v: string, j: int)
  {
    0 <= j && j + 8 <= |v| && AllDigits(v[j..j + 8])
  }

  /** The position of the leftmost run of eight digits (`/(\d{8})/`), if any. */
  function FirstEightDigits(v: string): (r: Option<nat>)
    ensures r.Some? ==> DigitsAt(v, r.value)
    ensures r.Some? ==> forall j :: 0 <= j < r.value ==> !DigitsAt(v, j)
    ensures r.None? ==> forall j :: !DigitsAt(v, j)
    decreases |v|
  {
    if |v| < 8 then None
    else if AllDigits(v[..8]) then (assert v[0..8] == v[..8]; Some(0))
    else
      assert !DigitsAt(v, 0) by { assert v[0..8] == v[..8]; }
      match FirstEightDigits(v[1..])
      case None =>
        assert forall j :: 1 <= j ==> DigitsAt(v, j) == DigitsAt(v[1..], j - 1) by {
          forall j | 1 <= j ensures DigitsAt(v, j) == DigitsAt(v[1..], j - 1) {
            if j + 8 <= |v| { assert v[j..j + 8] == v[1..][j - 1..j + 7]; }
          }
        }
        assert forall j :: !DigitsAt(v, j) by {
          forall j ensures !DigitsAt(v, j) {
            if j >= 1 { assert !DigitsAt(v[1..], j - 1); }
          }
        }
        None
      case Some(k) =>
        assert forall j :: 1 <= j ==> DigitsAt(v, j) == DigitsAt(v[1..], j - 1) by {
          forall j | 1 <= j ensures DigitsAt(v, j) == DigitsAt(v[1..], j - 1) {
            if j + 8 <= |v| { assert v[j..j + 8] == v[1..][j - 1..j + 7]; }
          }
        }
        assert DigitsAt(v[1..], k);
        assert forall j :: 0 <= j < k + 1 ==> !DigitsAt(v, j) by {
          forall j | 0 <= j < k + 1 ensures !DigitsAt(v, j) {
            if j >= 1 { assert !DigitsAt(v[1..], j - 1); }
          }
        }
        Some(k + 1)
  }

  /**
   * The UTC day of `Date.UTC(Number(v[0..4]), Number(v[4..6]) - 1, Number(v[6..8]),
   * Number(v[9..11]), Number(v[11..13]), Number(v[13..15]))`; each slice is all digits,
   * so `Number` gives its decimal value.
   */
  function DateTimeDay(v: string): (r: Ymd)
    requires |v| >= 15 && AllDigits(v[..8]) && AllDigits(v[9..15])
    ensures Valid(r)
  {
    assert v[..8] == v[0..8];
    AllDigitsSlice(v, 0, 8, 0, 4);
    AllDigitsSlice(v, 0, 8, 4, 6);
    AllDigitsSlice(v, 0, 8, 6, 8);
    AllDigitsSlice(v, 9, 15, 9, 11);
    AllDigitsSlice(v, 9, 15, 11, 13);
    AllDigitsSlice(v, 9, 15, 13, 15);
    assert v[0..4] == v[..4];
    UtcDate(DigitsValue(v[..4]), DigitsValue(v[4..6]) - 1, DigitsValue(v[6..8]),
            DigitsValue(v[9..11]) * 3600 + DigitsValue(v[11..13]) * 60 + DigitsValue(v[13..15]))
  }

  /** A UTC date-time assembled from digit fields has the `YYYYMMDDTHHMMSSZ` shape. */
  lemma DateTimeShape(y: string, m: string, d: string, h: string, mi: string, se: string)
    requires |y| == 4 && |m| == 2 && |d| == 2 && |h| == 2 && |mi| == 2 && |se| == 2
    requires AllDigits(y) && AllDigits(m) && AllDigits(d) && AllDigits(h) && AllDigits(mi) && AllDigits(se)
    ensures var v := y + m + d + "T" + h + mi + se + "Z";
      IsDateTimeDigits(v, true) && !IsDateDigits(v) &&
      v[..4] == y && v[4..6] == m && v[6..8] == d && v[9..11] == h && v[11..13] == mi && v[13..15] == se
  {
    var a, b := y + m + d, h + mi + se;
    AllDigitsConcat(y, m);
    AllDigitsConcat(y + m, d);
    AllDigitsConcat(h, mi);
    AllDigitsConcat(h + mi, se);
    var v := y + m + d + "T" + h + mi + se + "Z";
    assert v == a + "T" + b + "Z";
    assert v[..8] == a && v[9..15] == b;
    assert v[..4] == y && v[4..6] == m && v[6..8] == d;
    assert v[9..11] == h && v[11..13] == mi && v[13..15] == se;
  }

  /** The day a date-time reads as, in terms of its six digit fields. */
  lemma DateTimeDayFields(v: string)
    requires |v| >= 15 && AllDigits(v[..8]) && AllDigits(v[9..15])
    requires AllDigits(v[..4]) && AllDigits(v[4..6]) && AllDigits(v[6..8])
    requires AllDigits(v[9..11]) && AllDigits(v[11..13]) && AllDigits(v[13..15])
    ensures DateTimeDay(v) == UtcDate(DigitsValue(v[..4]), DigitsValue(v[4..6]) - 1, DigitsValue(v[6..8]),
                                      DigitsValue(v[9..11]) * 3600 + DigitsValue(v[11..13]) * 60 + DigitsValue(v[13..15]))
  {
  }

  /** The day a date-time reads as, given the values of its six digit fields. */
  lemma DateTimeDayOfValues(v: string, year: nat, month: nat, day: nat, hour: nat, minute: nat, second: nat)
    requires |v| >= 15 && AllDigits(v[..8]) && AllDigits(v[9..15])
    requires AllDigits(v[..4]) && AllDigits(v[4..6]) && AllDigits(v[6..8])
    requires AllDigits(v[9..11]) && AllDigits(v[11..13]) && AllDigits(v[13..15])
    requires DigitsValue(v[..4]) == year && DigitsValue(v[4..6]) == month && DigitsValue(v[6..8]) == day
    requires DigitsValue(v[9..11]) == hour && DigitsValue(v[11..13]) == minute && DigitsValue(v[13..15]) == second
    ensures DateTimeDay(v) == UtcDate(year, month - 1, day, hour * 3600 + minute * 60 + second)
  {
    DateTimeDayFields(v);
  }

  /**
   * `parseToIsoDate(v)`: eight digits are sliced into `YYYY-MM-DD`; a date-time with
   * or without `Z` is read as UTC and its calendar day formatted; otherwise the first
   * run of eight digits is sliced; otherwise the clock's current day `today`.
   */
  function ParseToIsoDate(v: string, today: Ymd): (r: string)
    requires Valid(today)
    ensures IsDateDigits(v) ==> r == DashDate(v) && IsIsoDate(r)
    ensures !IsDateDigits(v) && (IsDateTimeDigits(v, true) || IsDateTimeDigits(v, false)) ==>
              r == ToIsoDateUtc(DateTimeDay(v))
  {
    if IsDateDigits(v) then DashDate(v)
    else if IsDateTimeDigits(v, true) then ToIsoDateUtc(DateTimeDay(v))
    else if IsDateTimeDigits(v, false) then ToIsoDateUtc(DateTimeDay(v))
    else match FirstEightDigits(v)
      case Some(i) => DashDate(v[i..i + 8])
      case None => ToIsoDateUtc(today)
  }

  /** Text with no run of eight digits falls back to the clock's current day. */
  lemma ParseWithoutDigitsIsToday(v: string, today: Ymd)
    requires Valid(today)
    requires forall j :: !DigitsAt(v, j)
    ensures ParseToIsoDate(v, today) == ToIsoDateUtc(today)
  {
    assert !DigitsAt(v, 0);
    if |v| >= 8 { assert v[0..8] == v[..8]; }
  }

  /** `isoToIcsDate`: the dashes removed. */
  function IsoToIcsDate(iso: string): string
  {
    ReplaceAll(iso, '-', "")
  }

  /** On a `YYYY-MM-DD` text, removing the dashes leaves its eight digits. */
  lemma IsoToIcsDateDigits(iso: string)
    requires IsIsoDate(iso)
    ensures IsoToIcsDate(iso) == iso[..4] + iso[5..7] + iso[8..]
    ensures IsDateDigits(IsoToIcsDate(iso))
  {
    var y, m, d := iso[..4], iso[5..7], iso[8..];
    assert iso == y + ['-'] + m + ['-'] + d;
    DigitsHaveNoDash(y);
    DigitsHaveNoDash(m);
    DigitsHaveNoDash(d);
    DropSeparators(y, m, d, '-');
    AllDigitsConcat(y, m);
    AllDigitsConcat(y + m, d);
  }

  lemma DigitsHaveNoDash(s: string)
    requires AllDigits(s)
    ensures '-' !in s
  {
    assert forall i :: 0 <= i < |s| ==> IsDigit(s[i]);
  }

  /** Removing the two separators between three separator-free fields joins the fields. */
  lemma DropSeparators(y: string, m: string, d: string, c: char)
    requires c !in y && c !in m && c !in d
    ensures ReplaceAll(y + [c] + m + [c] + d, c, "") == y + m + d
  {
    DropSeparator(y + [c] + m, d, c);
    DropSeparator(y, m, c);
  }

  lemma DropOne(c: char)
    ensures ReplaceAll([c], c, "") == []
  {
    assert [c][1..] == [];
  }

  lemma DropSeparator(a: string, b: string, c: char)
    ensures ReplaceAll(a + [c] + b, c, "") == ReplaceAll(a, c, "") + ReplaceAll(b, c, "")
  {
    ReplaceAllConcat(a + [c], b, c, "");
    ReplaceAllConcat(a, [c], c, "");
    DropOne(c);
  }

  /** Reading back the DATE value written for a `YYYY-MM-DD` date gives the same date. */
  lemma IsoDateRoundTrip(iso: string, today: Ymd)
    requires IsIsoDate(iso) && Valid(today)
    ensures ParseToIsoDate(IsoToIcsDate(iso), today) == iso
  {
    IsoToIcsDateDigits(iso);
    var r := DashDate(IsoToIcsDate(iso));
    assert r[..4] == iso[..4] && r[5..7] == iso[5..7] && r[8..] == iso[8..];
    assert r[4] == iso[4] && r[7] == iso[7];
    assert r == r[..4] + [r[4]] + r[5..7] + [r[7]] + r[8..];
    assert iso == iso[..4] + [iso[4]] + iso[5..7] + [iso[7]] + iso[8..];
  }
}
