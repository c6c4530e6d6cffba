/**
 * The timeline grid (src/components/calendar/TimelineView.tsx, TimelineRow.tsx
 * and TimelineBookingBlock.tsx): the per-day event counts, the overlap flag of
 * each event, and the placement, status style and calendar tint of each
 * block. Days are day numbers and the visible range is `[rangeStart, rangeEnd]`.
 */
module TimelineLayout {
  import opened JsText
  import opened JsNumber
  import opened JsValue
  import opened Days
  import opened TimelineRows
  import Api

  /** The last day an event is drawn on: the day before its end, but never before its start. */
  function DisplayEnd(startDate: int, endDate: int): int
  {
    if endDate - 1 < startDate then startDate else endDate - 1
  }

  /** The event is drawn on day `d` of the visible range. */
  predicate Shows(startDate: int, endDate: int, rangeStart: int, rangeEnd: int, d: int)
  {
    rangeStart <= d <= rangeEnd && startDate <= d <= DisplayEnd(startDate, endDate)
  }

  /** Where a block sits, in days from the range start, and how many days it spans. */
  datatype Placement = Placement(offsetDays: int, spanDays: int)

  /**
   * The clamped interval of a block. It is empty exactly when the event shows
   * on no visible day; otherwise the block spans exactly the visible days the
   * event is drawn on.
   */
  function Place(startDate: int, endDate: int, rangeStart: int, rangeEnd: int): (r: Option<Placement>)
    ensures r.None? <==> forall d :: !Shows(startDate, endDate, rangeStart, rangeEnd, d)
    ensures r.Some? ==> r.value.offsetDays >= 0 && r.value.spanDays >= 1
    ensures r.Some? ==> forall d ::
      (rangeStart + r.value.offsetDays <= d < rangeStart + r.value.offsetDays + r.value.spanDays
       <==> Shows(startDate, endDate, rangeStart, rangeEnd, d))
  {
    var displayEnd := DisplayEnd(startDate, endDate);
    var clampedStart := if startDate < rangeStart then rangeStart else startDate;
    var clampedEnd := if displayEnd > rangeEnd then rangeEnd else displayEnd;
    if clampedStart > clampedEnd then
      None
    else
      assert Shows(startDate, endDate, rangeStart, rangeEnd, clampedStart);
      Some(Placement(Max(0, clampedStart - rangeStart), Max(1, clampedEnd - clampedStart + 1)))
  }

  const CancelledClass := "opacity-50 line-through"
  const TentativeClass := "border-dashed"

  /** `statusClass` of the lower-cased status. */
  function StatusClass(status: string): (r: string)
    ensures r == CancelledClass <==> Lower(status) == "cancelled"
    ensures r == TentativeClass <==> Lower(status) == "tentative" || Lower(status) == "pending"
  {
    var s := Lower(status);
    if s == "cancelled" then CancelledClass
    else if s == "tentative" || s == "pending" then TentativeClass
    else ""
  }

  /**
   * The block styles a status the way the API would store it: normalising
   * the status first changes nothing.
   */
  lemma StatusClassOfNormalized(status: Option<Json>)
    ensures StatusClass(Api.NormalizeStatus(status)) == StatusClass(StrOr(status, ""))
  {
    Api.StatusLowerCase(Api.NormalizeStatus(status));
  }

  /** The tint alpha of imported and of manual events, as `String(alpha)` renders it. */
  const ImportedAlpha := "0.16"
  const ManualAlpha := "0.22"

  function AlphaOf(source: Source): string
  {
    if source == Imported then ImportedAlpha else ManualAlpha
  }

  /** Three digits are widened by doubling each one. */
  function ExpandShortHex(hex: string): (r: string)
    ensures |hex| == 3 ==> |r| == 6 && forall i :: 0 <= i < 6 ==> r[i] == hex[i / 2]
    ensures |hex| != 3 ==> r == hex
  {
    if |hex| == 3 then [hex[0], hex[0], hex[1], hex[1], hex[2], hex[2]] else hex
  }

  function Rgba(red: int, green: int, blue: int, alpha: string): string
  {
    "rgba(" + IntToString(red) + ", " + IntToString(green) + ", " + IntToString(blue) + ", " + alpha + ")"
  }

  /**
   * `toRgba`: a colour `#` followed (after trimming) by three or six digits,
   * each pair read by `parseInt(pair, 16)`.
   */
  function ToRgba(color: string, alpha: string): (r: Option<string>)
    ensures r.Some? ==> StartsWith(color, "#") && |ExpandShortHex(Trim(color[1..]))| == 6
  {
    if !StartsWith(color, "#") then None
    else
      var hex := ExpandShortHex(Trim(color[1..]));
      if |hex| != 6 then None else HexRgba(hex, alpha)
  }

  /** The three channels of six digits; NaN in any channel gives no colour. */
  function HexRgba(hex: string, alpha: string): Option<string>
    requires |hex| == 6
  {
    var red := ParseIntHex(hex[0..2]);
    var green := ParseIntHex(hex[2..4]);
    var blue := ParseIntHex(hex[4..6]);
    if red.None? || green.None? || blue.None? then None
    else Some(Rgba(red.value, green.value, blue.value, alpha))
  }

  /** A six-digit colour gives the values of its three digit pairs. */
  lemma ToRgbaLong(hex: string, alpha: string)
    requires |hex| == 6 && forall i :: 0 <= i < 6 ==> IsHexDigit(hex[i])
    ensures ToRgba("#" + hex, alpha) ==
      Some(Rgba(PairValue(hex[0], hex[1]), PairValue(hex[2], hex[3]), PairValue(hex[4], hex[5]), alpha))
  {
    assert ("#" + hex)[1..] == hex;
    assert !IsJsSpace(hex[0]) && !IsJsSpace(hex[5]);
    TrimUnspaced(hex);
    HexRgbaDigits(hex, alpha);
  }

  lemma HexRgbaDigits(hex: string, alpha: string)
    requires |hex| == 6 && forall i :: 0 <= i < 6 ==> IsHexDigit(hex[i])
    ensures HexRgba(hex, alpha) ==
      Some(Rgba(PairValue(hex[0], hex[1]), PairValue(hex[2], hex[3]), PairValue(hex[4], hex[5]), alpha))
  {
    HexPairAt(hex, 0);
    HexPairAt(hex, 2);
    HexPairAt(hex, 4);
    var red, green, blue := PairValue(hex[0], hex[1]), PairValue(hex[2], hex[3]), PairValue(hex[4], hex[5]);
    assert ParseIntHex(hex[0..2]) == Some(red) && ParseIntHex(hex[2..4]) == Some(green) && ParseIntHex(hex[4..6]) == Some(blue);
  }

  lemma HexPairAt(hex: string, i: nat)
    requires i + 2 <= |hex| && IsHexDigit(hex[i]) && IsHexDigit(hex[i + 1])
    ensures ParseIntHex(hex[i..i + 2]) == Some(PairValue(hex[i], hex[i + 1]))
  {
    assert hex[i..i + 2] == [hex[i], hex[i + 1]];
    HexPairValue([hex[i], hex[i + 1]]);
  }

  /** A three-digit colour is its six-digit form with every digit doubled. */
  lemma ToRgbaShort(a: char, b: char, c: char, alpha: string)
    requires IsHexDigit(a) && IsHexDigit(b) && IsHexDigit(c)
    ensures ToRgba("#" + [a, b, c], alpha) == ToRgba("#" + [a, a, b, b, c, c], alpha)
  {
    var short, long := [a, b, c], [a, a, b, b, c, c];
    ToRgbaUnspaced(short, alpha);
    ToRgbaUnspaced(long, alpha);
    assert ExpandShortHex(short) == long;
  }

  lemma ToRgbaUnspaced(body: string, alpha: string)
    requires body != [] && !IsJsSpace(body[0]) && !IsJsSpace(body[|body| - 1])
    ensures |ExpandShortHex(body)| == 6 ==> ToRgba("#" + body, alpha) == HexRgba(ExpandShortHex(body), alpha)
  {
    assert ("#" + body)[1..] == body;
    TrimUnspaced(body);
  }

  /** The inline style a block may take from its calendar's colour. */
  datatype Tint = Tint(backgroundColor: Option<string>, borderColor: string)

  /** `getCalendarTint`: none without a colour; the border always; a background only for a hex colour. */
  function CalendarTint(color: Option<string>, alpha: string): (r: Option<Tint>)
    ensures r.None? <==> !Truthy(color)
    ensures r.Some? ==> r.value.borderColor == color.value && r.value.backgroundColor == ToRgba(color.value, alpha)
  {
    if !Truthy(color) then None
    else
      var rgba := ToRgba(color.value, alpha);
      if rgba.Some? then Some(Tint(rgba, color.value)) else Some(Tint(None, color.value))
  }

  /** A six-digit colour tints the background with its three channel values and the border with itself. */
  lemma CalendarTintOfHex(hex: string, alpha: string)
    requires |hex| == 6 && forall i :: 0 <= i < 6 ==> IsHexDigit(hex[i])
    ensures CalendarTint(Some("#" + hex), alpha) ==
      Some(Tint(Some(Rgba(PairValue(hex[0], hex[1]), PairValue(hex[2], hex[3]), PairValue(hex[4], hex[5]), alpha)),
                "#" + hex))
  {
    ToRgbaLong(hex, alpha);
  }

  /** A colour given by name, without `#`, only colours the border. */
  lemma CalendarTintOfName(color: string, alpha: string)
    requires color != [] && color[0] != '#'
    ensures CalendarTint(Some(color), alpha) == Some(Tint(None, color))
  {
  }

  /** A drawn block. */
  datatype Block = Block(placement: Placement, statusClass: string, hasOverlap: bool, style: Option<Tint>)

  /** `TimelineBookingBlock`: nothing when the event shows on no visible day. */
  function BookingBlock(e: TimelineEvent, rangeStart: int, rangeEnd: int, hasOverlap: bool): (r: Option<Block>)
    ensures r.None? <==> forall d :: !Shows(e.startDate, e.endDate, rangeStart, rangeEnd, d)
    ensures r.Some? ==> r.value.placement == Place(e.startDate, e.endDate, rangeStart, rangeEnd).value
    ensures r.Some? ==> r.value.style == (if hasOverlap then None else CalendarTint(e.calendarColor, AlphaOf(e.source)))
  {
    var p := Place(e.startDate, e.endDate, rangeStart, rangeEnd);
    if p.None? then None
    else
      var tint := CalendarTint(e.calendarColor, AlphaOf(e.source));
      Some(Block(p.value, StatusClass(e.status), hasOverlap, if !hasOverlap && tint.Some? then tint else None))
  }

  /** A day missing from the lookup counts 0. */
  function Get(lookup: map<int, int>, d: int): int
  {
    if d in lookup then lookup[d] else 0
  }

  /** The number of `events` drawn on day `d`. */
  function EventsCount(events: seq<TimelineEvent>, rangeStart: int, rangeEnd: int, d: int): nat
  {
    if events == [] then 0
    else
      var e := events[|events| - 1];
      EventsCount(events[..|events| - 1], rangeStart, rangeEnd, d)
        + (if Shows(e.startDate, e.endDate, rangeStart, rangeEnd, d) then 1 else 0)
  }

  /** The number of events of all `rows` drawn on day `d`. */
  function RowsCount(rows: seq<Row>, rangeStart: int, rangeEnd: int, d: int): nat
  {
    if rows == [] then 0
    else
      RowsCount(rows[..|rows| - 1], rangeStart, rangeEnd, d)
        + EventsCount(rows[|rows| - 1].events, rangeStart, rangeEnd, d)
  }

  /** No event is counted outside the visible range. */
  lemma {:induction false} RowsCountOutside(rows: seq<Row>, rangeStart: int, rangeEnd: int, d: int)
    requires !(rangeStart <= d <= rangeEnd)
    ensures RowsCount(rows, rangeStart, rangeEnd, d) == 0
  {
    if rows != [] {
      RowsCountOutside(rows[..|rows| - 1], rangeStart, rangeEnd, d);
      EventsCountOutside(rows[|rows| - 1].events, rangeStart, rangeEnd, d);
    }
  }

  lemma {:induction false} EventsCountOutside(events: seq<TimelineEvent>, rangeStart: int, rangeEnd: int, d: int)
    requires !(rangeStart <= d <= rangeEnd)
    ensures EventsCount(events, rangeStart, rangeEnd, d) == 0
  {
    if events != [] {
      EventsCountOutside(events[..|events| - 1], rangeStart, rangeEnd, d);
    }
  }

  /** The lookup holds a positive count for exactly its keys. */
  predicate PositiveKeys(lookup: map<int, int>)
  {
    forall d :: d in lookup ==> lookup[d] > 0
  }

  /** The cursor loop: one more on every day from `first` to `last`. */
  method AddDays(lookup: map<int, int>, first: int, last: int) returns (next: map<int, int>)
    requires PositiveKeys(lookup)
    ensures PositiveKeys(next)
    ensures forall d :: Get(next, d) == Get(lookup, d) + (if first <= d <= last then 1 else 0)
  {
    next := lookup;
    var cursor := first;
    while cursor <= last
      invariant first <= last ==> first <= cursor <= last + 1
      invariant first > last ==> cursor == first
      invariant PositiveKeys(next)
      invariant forall d :: Get(next, d) == Get(lookup, d) + (if first <= d < cursor then 1 else 0)
      decreases last - cursor
    {
      next := next[cursor := Get(next, cursor) + 1];
      cursor := cursor + 1;
    }
  }

  /**
   * `overlapLookup`: for every visible day, the number of events drawn on it;
   * only days with at least one event are keys.
   */
  method BuildOverlapLookup(rows: seq<Row>, rangeStart: int, rangeEnd: int) returns (lookup: map<int, int>)
    ensures forall d :: Get(lookup, d) == RowsCount(rows, rangeStart, rangeEnd, d)
    ensures forall d :: d in lookup <==> RowsCount(rows, rangeStart, rangeEnd, d) > 0
  {
    lookup := map[];
    for i := 0 to |rows|
      invariant PositiveKeys(lookup)
      invariant forall d :: Get(lookup, d) == RowsCount(rows[..i], rangeStart, rangeEnd, d)
    {
      assert rows[..i + 1][..i] == rows[..i];
      var events := rows[i].events;
      for j := 0 to |events|
        invariant PositiveKeys(lookup)
        invariant forall d ::
          Get(lookup, d) == RowsCount(rows[..i], rangeStart, rangeEnd, d) + EventsCount(events[..j], rangeStart, rangeEnd, d)
      {
        assert events[..j + 1][..j] == events[..j];
        var e := events[j];
        var displayEnd := if e.endDate - 1 < e.startDate then e.startDate else e.endDate - 1;
        var clampedStart := if e.startDate < rangeStart then rangeStart else e.startDate;
        var clampedEnd := if displayEnd > rangeEnd then rangeEnd else displayEnd;
        if clampedStart > clampedEnd {
          continue;
        }
        lookup := AddDays(lookup, clampedStart, clampedEnd);
      }
      assert events[..|events|] == events;
    }
    assert rows[..|rows|] == rows;
  }

  /** Some day from `first` to `last` has more than one event. */
  predicate Crowded(lookup: map<int, int>, first: int, last: int)
  {
    exists d :: first <= d <= last && Get(lookup, d) > 1
  }

  /** `hasEventOverlap`: walks the days of the event and stops at the first crowded one. */
  method HasEventOverlap(first: int, last: int, lookup: map<int, int>) returns (b: bool)
    ensures b <==> Crowded(lookup, first, last)
  {
    var cursor := first;
    while cursor <= last
      invariant first <= last ==> first <= cursor <= last + 1
      invariant forall d :: first <= d < cursor ==> Get(lookup, d) <= 1
      decreases last - cursor
    {
      if Get(lookup, cursor) > 1 {
        return true;
      }
      cursor := cursor + 1;
    }
    return false;
  }

  /**
   * With the view's lookup, an event is flagged exactly when one of its
   * visible days carries at least two events; days outside the range never count.
   */
  lemma CrowdedMeansShared(rows: seq<Row>, rangeStart: int, rangeEnd: int, lookup: map<int, int>, first: int, last: int)
    requires forall d :: Get(lookup, d) == RowsCount(rows, rangeStart, rangeEnd, d)
    ensures Crowded(lookup, first, last) <==>
      exists d :: first <= d <= last && rangeStart <= d <= rangeEnd && RowsCount(rows, rangeStart, rangeEnd, d) >= 2
  {
    if Crowded(lookup, first, last) {
      var d :| first <= d <= last && Get(lookup, d) > 1;
      if !(rangeStart <= d <= rangeEnd) {
        RowsCountOutside(rows, rangeStart, rangeEnd, d);
      }
      assert rangeStart <= d <= rangeEnd && RowsCount(rows, rangeStart, rangeEnd, d) >= 2;
    }
    if exists d :: first <= d <= last && rangeStart <= d <= rangeEnd && RowsCount(rows, rangeStart, rangeEnd, d) >= 2 {
      var d :| first <= d <= last && rangeStart <= d <= rangeEnd && RowsCount(rows, rangeStart, rangeEnd, d) >= 2;
      assert Get(lookup, d) > 1;
    }
  }

  /** `TimelineRow`: one block per event, in order, each with its own overlap flag. */
  method RenderRow(events: seq<TimelineEvent>, rangeStart: int, rangeEnd: int, lookup: map<int, int>)
    returns (blocks: seq<Option<Block>>)
    ensures |blocks| == |events|
    ensures forall i :: 0 <= i < |events| ==>
      blocks[i] == BookingBlock(events[i], rangeStart, rangeEnd,
                                Crowded(lookup, events[i].startDate, DisplayEnd(events[i].startDate, events[i].endDate)))
  {
    blocks := [];
    for i := 0 to |events|
      invariant |blocks| == i
      invariant forall k :: 0 <= k < i ==>
        blocks[k] == BookingBlock(events[k], rangeStart, rangeEnd,
                                  Crowded(lookup, events[k].startDate, DisplayEnd(events[k].startDate, events[k].endDate)))
    {
      var e := events[i];
      var hasOverlap := HasEventOverlap(e.startDate, DisplayEnd(e.startDate, e.endDate), lookup);
      blocks := blocks + [BookingBlock(e, rangeStart, rangeEnd, hasOverlap)];
    }
  }

  /** `days`: every day of the range. */
  function ViewDays(rangeStart: int, rangeEnd: int): seq<int>
  {
    EachDay(rangeStart, rangeEnd)
  }

  /** `totalWidth`: the width of all day columns, but at least 400 pixels. */
  function TotalWidth(rangeStart: int, rangeEnd: int, dayWidth: int): (w: int)
    ensures w >= 400 && w >= |ViewDays(rangeStart, rangeEnd)| * dayWidth
    ensures w == 400 || w == |ViewDays(rangeStart, rangeEnd)| * dayWidth
  {
    Max(|ViewDays(rangeStart, rangeEnd)| * dayWidth, 400)
  }

  /** For an ordered range there is one column per day from start to end. */
  lemma ViewDaysOrdered(rangeStart: int, rangeEnd: int)
    requires rangeStart <= rangeEnd
    ensures |ViewDays(rangeStart, rangeEnd)| == rangeEnd - rangeStart + 1
    ensures forall i :: 0 <= i < |ViewDays(rangeStart, rangeEnd)| ==> ViewDays(rangeStart, rangeEnd)[i] == rangeStart + i
  {
  }
}
