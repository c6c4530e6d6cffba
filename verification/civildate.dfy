/**
 * Calendar dates of the proleptic Gregorian calendar and the two JavaScript `Date`
 * computations the iCalendar codec performs: `Date.UTC(y, monthIndex, day, h, mi, s)`
 * read back as a UTC calendar day, and `addDays` on a `YYYY-MM-DD` string.
 */
module CivilDate {
  import opened JsText
  import opened JsNumber

  datatype Ymd = Ymd(year: int, month: int, day: int)

  predicate IsLeapYear(y: int) { (y % 4 == 0 && y % 100 != 0) || y % 400 == 0 }

  function DaysInMonth(y: int, m: int): (n: int)
    requires 1 <= m <= 12
    ensures 28 <= n <= 31
  {
    if m == 2 then (if IsLeapYear(y) then 29 else 28)
    else if m == 4 || m == 6 || m == 9 || m == 11 then 30
    else 31
  }

  /** A real calendar day. */
  predicate Valid(t: Ymd) { 1 <= t.month <= 12 && 1 <= t.day <= DaysInMonth(t.year, t.month) }

  /** The following calendar day. */
  function Next(t: Ymd): (r: Ymd)
    requires Valid(t)
    ensures Valid(r)
    ensures r.year == t.year || (r.year == t.year + 1 && t.month == 12 && r.month == 1 && r.day == 1)
  {
    if t.day < DaysInMonth(t.year, t.month) then Ymd(t.year, t.month, t.day + 1)
    else if t.month < 12 then Ymd(t.year, t.month + 1, 1)
    else Ymd(t.year + 1, 1, 1)
  }

  /** The preceding calendar day. */
  function Prev(t: Ymd): (r: Ymd)
    requires Valid(t)
    ensures Valid(r)
  {
    if t.day > 1 then Ymd(t.year, t.month, t.day - 1)
    else if t.month > 1 then Ymd(t.year, t.month - 1, DaysInMonth(t.year, t.month - 1))
    else Ymd(t.year - 1, 12, 31)
  }

  /** Stepping forward then back, or back then forward, returns to the same day. */
  lemma NextPrevInverse(t: Ymd)
    requires Valid(t)
    ensures Prev(Next(t)) == t && Next(Prev(t)) == t
  {
  }

  /** The day `n` days after (or, for negative `n`, before) `t`. */
  function Shift(t: Ymd, n: int): (r: Ymd)
    requires Valid(t)
    ensures Valid(r)
    decreases if n >= 0 then n else -n
  {
    if n == 0 then t
    else if n > 0 then Shift(Next(t), n - 1)
    else Shift(Prev(t), n + 1)
  }

  lemma {:induction false} ShiftSucc(t: Ymd, n: nat)
    requires Valid(t)
    ensures Shift(t, n + 1) == Next(Shift(t, n))
    decreases n
  {
    if n > 0 {
      ShiftSucc(Next(t), n - 1);
    }
  }

  /** Counting `k` days from the first of a month stays in the month while `k` is small. */
  lemma {:induction false} ShiftFromFirst(y: int, m: int, k: nat)
    requires 1 <= m <= 12 && k < DaysInMonth(y, m)
    ensures Shift(Ymd(y, m, 1), k) == Ymd(y, m, k + 1)
  {
    if k > 0 {
      ShiftFromFirst(y, m, k - 1);
      ShiftSucc(Ymd(y, m, 1), k - 1);
    }
  }

  /** `Date.UTC` reads a year in 0..99 as 1900 + year. */
  function MakeFullYear(y: int): int
  {
    if 0 <= y <= 99 then 1900 + y else y
  }

  /**
   * The UTC calendar day of `Date.UTC(y, monthIndex, day, h, mi, s)` for integer
   * arguments, `seconds` being `h * 3600 + mi * 60 + s`: the month index and the day
   * overflow into the neighbouring months and years, the time of day into later days.
   */
  function UtcDate(y: int, monthIndex: int, day: int, seconds: nat): (r: Ymd)
    ensures Valid(r)
  {
    var ym := MakeFullYear(y) + monthIndex / 12;
    var mn := monthIndex % 12;
    Shift(Ymd(ym, mn + 1, 1), day - 1 + seconds / 86400)
  }

  /** A time of day short of 24 hours does not move the date. */
  lemma UtcDateWithinDay(y: int, monthIndex: int, day: int, seconds: nat)
    requires seconds < 86400
    ensures UtcDate(y, monthIndex, day, seconds) == UtcDate(y, monthIndex, day, 0)
  {
  }

  /** Components of a real day come back unchanged, outside the two-digit years. */
  lemma UtcDateOfValid(t: Ymd)
    requires Valid(t) && !(0 <= t.year <= 99)
    ensures UtcDate(t.year, t.month - 1, t.day, 0) == t
    ensures UtcDate(t.year, t.month - 1, t.day + 1, 0) == Next(t)
  {
    UtcDateInYear(t.year, t.month, t.day);
    UtcDateInYear(t.year, t.month, t.day + 1);
    ShiftFromFirst(t.year, t.month, t.day - 1);
    ShiftSucc(Ymd(t.year, t.month, 1), t.day - 1);
  }

  /** A month index 0..11 of a year outside 0..99 counts days from the first of that month. */
  lemma UtcDateInYear(y: int, m: int, day: int)
    requires 1 <= m <= 12 && !(0 <= y <= 99)
    ensures UtcDate(y, m - 1, day, 0) == Shift(Ymd(y, m, 1), day - 1)
  {
    assert (m - 1) / 12 == 0 && (m - 1) % 12 == m - 1;
  }

  /** `${getUTCFullYear()}-${pad2(getUTCMonth() + 1)}-${pad2(getUTCDate())}`. */
  function ToIsoDateUtc(t: Ymd): (s: string)
    requires Valid(t)
    ensures 1000 <= t.year <= 9999 ==> |s| == 10 && s[4] == '-' && s[7] == '-'
  {
    NatToStringLength4(t.year);
    IntToString(t.year) + "-" + Pad2(t.month) + "-" + Pad2(t.day)
  }

  /** The text an invalid `Date` formats to. */
  const InvalidDateText: string := "NaN-NaN-NaN"

  /** `Math.trunc`, what `Date.UTC` applies to each argument. */
  function Trunc(r: real): int
  {
    if r >= 0.0 then r.Floor else -((-r).Floor)
  }

  lemma TruncInt(i: int)
    ensures Trunc(i as real) == i
  {
  }

  /**
   * `addDays(iso, days)`: the first three `-`-separated fields are converted with
   * `Number` (a missing field is `undefined`, hence NaN) and passed to `Date.UTC`
   * as year, month - 1 and day + days.
   */
  function AddDays(iso: string, days: int): (r: string)
  {
    var parts := Split(iso, '-');
    AddDaysOfNumbers(StrToNumber(parts[0]),
                     if |parts| > 1 then StrToNumber(parts[1]) else NaN,
                     if |parts| > 2 then StrToNumber(parts[2]) else NaN, days)
  }

  /** `Date.UTC(y, m - 1, d + days)` formatted; any non-finite field gives an invalid date. */
  function AddDaysOfNumbers(y: JsNum, m: JsNum, d: JsNum, days: int): string
  {
    if y.Finite? && m.Finite? && d.Finite? then ToIsoDateUtc(UtcDayOfReals(y.v, m.v, d.v, days))
    else InvalidDateText
  }

  /** The day of `Date.UTC(y, m - 1, d + days)` for finite arguments, each truncated. */
  function UtcDayOfReals(y: real, m: real, d: real, days: int): (r: Ymd)
    ensures Valid(r)
  {
    UtcDate(Trunc(y), Trunc(m - 1.0), Trunc(d + days as real), 0)
  }

  lemma UtcDayOfIntegers(y: int, m: int, d: int, days: int)
    ensures UtcDayOfReals(y as real, m as real, d as real, days) == UtcDate(y, m - 1, d + days, 0)
  {
    TruncInt(y);
    assert m as real - 1.0 == (m - 1) as real;
    TruncInt(m - 1);
    assert d as real + days as real == (d + days) as real;
    TruncInt(d + days);
  }

  lemma AddDaysOfIntegers(y: int, m: int, d: int, days: int)
    ensures AddDaysOfNumbers(Finite(y as real), Finite(m as real), Finite(d as real), days)
            == ToIsoDateUtc(UtcDate(y, m - 1, d + days, 0))
  {
    UtcDayOfIntegers(y, m, d, days);
  }

  /** Three digit fields joined by dashes split back into the three fields. */
  lemma SplitDashed(ys: string, ms: string, ds: string)
    requires AllDigits(ys) && AllDigits(ms) && AllDigits(ds)
    ensures Split(ys + "-" + ms + "-" + ds, '-') == [ys, ms, ds]
  {
    assert '-' !in ys by { assert forall i :: 0 <= i < |ys| ==> IsDigit(ys[i]); }
    assert '-' !in ms by { assert forall i :: 0 <= i < |ms| ==> IsDigit(ms[i]); }
    assert '-' !in ds by { assert forall i :: 0 <= i < |ds| ==> IsDigit(ds[i]); }
    assert ys + "-" + ms + "-" + ds == ys + ['-'] + (ms + ['-'] + ds);
    SplitConcat(ys, '-', ms + ['-'] + ds);
    SplitConcat(ms, '-', ds);
    assert Split(ds, '-') == [ds];
  }

  /** A four-digit-year date is formatted as three `-`-separated digit fields. */
  lemma FormatSplit(t: Ymd)
    requires Valid(t) && 1000 <= t.year <= 9999
    ensures Split(ToIsoDateUtc(t), '-') == [NatToString(t.year), Pad2(t.month), Pad2(t.day)]
  {
    SplitDashed(NatToString(t.year), Pad2(t.month), Pad2(t.day));
  }

  /** `addDays` on three digit fields is `Date.UTC` on their values. */
  lemma AddDaysOfDigitFields(iso: string, ys: string, ms: string, ds: string, days: int)
    requires Split(iso, '-') == [ys, ms, ds]
    requires ys != [] && ms != [] && ds != [] && AllDigits(ys) && AllDigits(ms) && AllDigits(ds)
    ensures AddDays(iso, days) == AddDaysOfNumbers(Finite(DigitsValue(ys) as real),
              Finite(DigitsValue(ms) as real), Finite(DigitsValue(ds) as real), days)
  {
    DigitsToNumber(ys);
    DigitsToNumber(ms);
    DigitsToNumber(ds);
  }

  lemma AddDaysOfFormatted(t: Ymd, days: int)
    requires Valid(t) && 1000 <= t.year <= 9999
    ensures AddDays(ToIsoDateUtc(t), days) ==
            AddDaysOfNumbers(Finite(t.year as real), Finite(t.month as real), Finite(t.day as real), days)
  {
    var ys, ms, ds := NatToString(t.year), Pad2(t.month), Pad2(t.day);
    FormatSplit(t);
    AddDaysOfDigitFields(ToIsoDateUtc(t), ys, ms, ds, days);
  }

  /** For a real day with a four-digit year, `addDays(iso, 1)` is the next day's text. */
  lemma AddOneDay(t: Ymd)
    requires Valid(t) && 1000 <= t.year <= 9999
    ensures AddDays(ToIsoDateUtc(t), 1) == ToIsoDateUtc(Next(t))
  {
    AddDaysOfFormatted(t, 1);
    AddDaysOfIntegers(t.year, t.month, t.day, 1);
    UtcDateOfValid(t);
  }

  /** Days of a later four-digit year format later. */
  lemma LaterYearFormatsLater(t: Ymd, u: Ymd)
    requires Valid(t) && Valid(u) && 1000 <= t.year < u.year <= 9999
    ensures LexLess(ToIsoDateUtc(t), ToIsoDateUtc(u))
  {
    NatToStringLength4(t.year);
    NatToStringLength4(u.year);
    var rt := "-" + Pad2(t.month) + "-" + Pad2(t.day);
    var ru := "-" + Pad2(u.month) + "-" + Pad2(u.day);
    DigitsLexOrder(NatToString(t.year), NatToString(u.year));
    LexLessAppend(NatToString(t.year), NatToString(u.year), rt, ru);
    assert ToIsoDateUtc(t) == NatToString(t.year) + rt;
    assert ToIsoDateUtc(u) == NatToString(u.year) + ru;
  }

  /** Within a four-digit year, days of a later month format later. */
  lemma LaterMonthFormatsLater(t: Ymd, u: Ymd)
    requires Valid(t) && Valid(u) && 1000 <= t.year <= 9999 && t.year == u.year && t.month < u.month
    ensures LexLess(ToIsoDateUtc(t), ToIsoDateUtc(u))
  {
    var p := NatToString(t.year) + "-";
    var rt := "-" + Pad2(t.day);
    var ru := "-" + Pad2(u.day);
    DigitsLexOrder(Pad2(t.month), Pad2(u.month));
    LexLessAppend(Pad2(t.month), Pad2(u.month), rt, ru);
    LexLessCommonPrefix(p, Pad2(t.month) + rt, Pad2(u.month) + ru);
    assert ToIsoDateUtc(t) == p + (Pad2(t.month) + rt);
    assert ToIsoDateUtc(u) == p + (Pad2(u.month) + ru);
  }

  /** Within a month of a four-digit year, later days format later. */
  lemma LaterDayFormatsLater(t: Ymd, u: Ymd)
    requires Valid(t) && Valid(u) && 1000 <= t.year <= 9999
    requires t.year == u.year && t.month == u.month && t.day < u.day
    ensures LexLess(ToIsoDateUtc(t), ToIsoDateUtc(u))
  {
    var p := NatToString(t.year) + "-" + Pad2(t.month) + "-";
    DigitsLexOrder(Pad2(t.day), Pad2(u.day));
    LexLessCommonPrefix(p, Pad2(t.day), Pad2(u.day));
    assert ToIsoDateUtc(t) == p + Pad2(t.day);
    assert ToIsoDateUtc(u) == p + Pad2(u.day);
  }

  /** The next day's text sorts after the day's own text while the year keeps four digits. */
  lemma NextFormatsLater(t: Ymd)
    requires Valid(t) && 1000 <= t.year && Next(t).year <= 9999
    ensures LexLess(ToIsoDateUtc(t), ToIsoDateUtc(Next(t)))
  {
    var u := Next(t);
    if u.year != t.year {
      LaterYearFormatsLater(t, u);
    } else if u.month != t.month {
      LaterMonthFormatsLater(t, u);
    } else {
      LaterDayFormatsLater(t, u);
    }
  }
}
