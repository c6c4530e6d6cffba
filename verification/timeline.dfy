/**
 * The timeline page (src/pages/Timeline.tsx): the visible date range and its
 * handlers, the set of calendars shown, the rows kept for display and the
 * number of crowded days. The initial and "Today" ranges come from the clock
 * and are parameters.
 */
module TimelinePage {
  import opened JsText
  import opened Days
  import opened TimelineRows
  import opened TimelineLayout

  /** `totalDays`: the calendar days of the range, at least one. */
  function TotalDays(rangeStart: int, rangeEnd: int): (n: int)
    ensures n >= 1
    ensures rangeStart <= rangeEnd ==> n == rangeEnd - rangeStart + 1
  {
    Max(1, rangeEnd - rangeStart + 1)
  }

  /**
   * Paging by `totalDays` tiles the calendar: the next range starts the day
   * after the current one ends, the previous one ends the day before it
   * starts, and both are as long as the current one.
   */
  lemma PagingTiles(rangeStart: int, rangeEnd: int)
    requires rangeStart <= rangeEnd
    ensures var n := TotalDays(rangeStart, rangeEnd);
      && rangeStart + n == rangeEnd + 1
      && rangeEnd - n == rangeStart - 1
      && TotalDays(rangeStart + n, rangeEnd + n) == n
      && TotalDays(rangeStart - n, rangeEnd - n) == n
  {
  }

  /** The ids of a calendar list, as a set. */
  function IdSet(ids: seq<string>): set<string>
  {
    set id | id in ids
  }

  predicate Distinct(ids: seq<string>)
  {
    forall i, j :: 0 <= i < j < |ids| ==> ids[i] != ids[j]
  }

  /** `allSelected`: there are calendars and as many are visible as there are calendars. */
  predicate AllSelected(visible: set<string>, ids: seq<string>)
  {
    |ids| > 0 && |visible| == |ids|
  }

  lemma {:induction false} DistinctIdSetSize(ids: seq<string>)
    requires Distinct(ids)
    ensures |IdSet(ids)| == |ids|
  {
    if ids != [] {
      var init := ids[..|ids| - 1];
      var last := ids[|ids| - 1];
      assert Distinct(init);
      DistinctIdSetSize(init);
      assert IdSet(ids) == IdSet(init) + {last};
      assert last !in IdSet(init);
    }
  }

  lemma SubsetSameSize<T>(a: set<T>, b: set<T>)
    requires a <= b && |a| == |b|
    ensures a == b
  {
    assert b == a + (b - a);
    assert |b - a| == 0;
  }

  /**
   * With distinct calendar ids and only calendar ids visible, "all
   * selected" means exactly that every calendar is visible.
   */
  lemma AllSelectedIff(visible: set<string>, ids: seq<string>)
    requires Distinct(ids) && visible <= IdSet(ids)
    ensures AllSelected(visible, ids) <==> |ids| > 0 && visible == IdSet(ids)
  {
    DistinctIdSetSize(ids);
    if AllSelected(visible, ids) {
      SubsetSameSize(visible, IdSet(ids));
    }
  }

  /** `visibleRows`: the rows of visible calendars, in row order. */
  function VisibleRows(rows: seq<Row>, visible: set<string>): (r: seq<Row>)
    ensures |r| <= |rows|
    ensures forall row :: row in r <==> row in rows && row.calendar.id in visible
  {
    if rows == [] then []
    else if rows[0].calendar.id in visible then [rows[0]] + VisibleRows(rows[1..], visible)
    else VisibleRows(rows[1..], visible)
  }

  /** The positions, from `i` on, of the rows whose calendar is visible, in increasing order. */
  function KeptFrom(rows: seq<Row>, visible: set<string>, i: nat): (ks: seq<nat>)
    requires i <= |rows|
    ensures forall k :: 0 <= k < |ks| ==> i <= ks[k] < |rows| && rows[ks[k]].calendar.id in visible
    ensures forall k, l :: 0 <= k < l < |ks| ==> ks[k] < ks[l]
    ensures forall j :: i <= j < |rows| && rows[j].calendar.id in visible ==> j in ks
    decreases |rows| - i
  {
    if i == |rows| then []
    else if rows[i].calendar.id in visible then [i] + KeptFrom(rows, visible, i + 1)
    else KeptFrom(rows, visible, i + 1)
  }

  /**
   * `rows.filter(...)`: the visible rows are the rows at the kept positions, in
   * the order of the rows, each as often as it occurs there.
   */
  lemma VisibleRowsInOrder(rows: seq<Row>, visible: set<string>)
    ensures var r := VisibleRows(rows, visible);
      var ks := KeptFrom(rows, visible, 0);
      |r| == |ks| && forall k :: 0 <= k < |r| ==> r[k] == rows[ks[k]]
  {
    VisibleRowsFrom(rows, visible, 0);
    assert rows[0..] == rows;
  }

  /** `r` holds the rows of `rows` at the positions `ks`, one for one. */
  ghost predicate Picks(rows: seq<Row>, r: seq<Row>, ks: seq<nat>)
  {
    |r| == |ks| && forall k :: 0 <= k < |r| ==> ks[k] < |rows| && r[k] == rows[ks[k]]
  }

  lemma PicksCons(rows: seq<Row>, i: nat, tail: seq<Row>, kt: seq<nat>)
    requires i < |rows| && Picks(rows, tail, kt)
    ensures Picks(rows, [rows[i]] + tail, [i] + kt)
  {
    var r, ks := [rows[i]] + tail, [i] + kt;
    forall k | 0 < k < |r|
      ensures ks[k] < |rows| && r[k] == rows[ks[k]]
    {
      assert r[k] == tail[k - 1] && ks[k] == kt[k - 1];
    }
  }

  lemma {:induction false} VisibleRowsFrom(rows: seq<Row>, visible: set<string>, i: nat)
    requires i <= |rows|
    ensures Picks(rows, VisibleRows(rows[i..], visible), KeptFrom(rows, visible, i))
    decreases |rows| - i
  {
    if i < |rows| {
      VisibleRowsFrom(rows, visible, i + 1);
      var tail := VisibleRows(rows[i + 1..], visible);
      var kt := KeptFrom(rows, visible, i + 1);
      assert rows[i..][0] == rows[i];
      assert rows[i..][1..] == rows[i + 1..];
      if rows[i].calendar.id in visible {
        assert VisibleRows(rows[i..], visible) == [rows[i]] + tail;
        assert KeptFrom(rows, visible, i) == [i] + kt;
        PicksCons(rows, i, tail, kt);
      } else {
        assert VisibleRows(rows[i..], visible) == tail;
        assert KeptFrom(rows, visible, i) == kt;
      }
    }
  }

  /** With every calendar visible, every row is kept in order. */
  lemma {:induction false} VisibleRowsAll(rows: seq<Row>, visible: set<string>)
    requires forall row :: row in rows ==> row.calendar.id in visible
    ensures VisibleRows(rows, visible) == rows
  {
    if rows != [] {
      assert rows[0] in rows;
      VisibleRowsAll(rows[1..], visible);
    }
  }

  /** The in-range days on which more than one event of `rows` is drawn. */
  ghost function CrowdedDays(rows: seq<Row>, rangeStart: int, rangeEnd: int): set<int>
  {
    set d | rangeStart <= d <= rangeEnd && RowsCount(rows, rangeStart, rangeEnd, d) > 1
  }

  /** The days of `days` whose count in the lookup is above one. */
  ghost function Above(lookup: map<int, int>, days: set<int>): set<int>
  {
    set d | d in days && d in lookup && lookup[d] > 1
  }

  lemma AboveAdd(lookup: map<int, int>, days: set<int>, d: int)
    ensures Above(lookup, days + {d}) == Above(lookup, days) + (if d in lookup && lookup[d] > 1 then {d} else {})
  {
  }

  /** Counting the lookup's entries above one counts the crowded days. */
  lemma AboveIsCrowded(rows: seq<Row>, rangeStart: int, rangeEnd: int, lookup: map<int, int>)
    requires forall d :: Get(lookup, d) == RowsCount(rows, rangeStart, rangeEnd, d)
    ensures Above(lookup, lookup.Keys) == CrowdedDays(rows, rangeStart, rangeEnd)
  {
    forall d | d in Above(lookup, lookup.Keys) ensures d in CrowdedDays(rows, rangeStart, rangeEnd) {
      if !(rangeStart <= d <= rangeEnd) {
        RowsCountOutside(rows, rangeStart, rangeEnd, d);
      }
    }
    forall d | d in CrowdedDays(rows, rangeStart, rangeEnd) ensures d in Above(lookup, lookup.Keys) {
      assert Get(lookup, d) > 1;
    }
  }

  /** Some member of a non-empty set. */
  ghost function Member<T>(s: set<T>): (x: T)
    requires |s| > 0
    ensures x in s
  {
    var x :| x in s; x
  }

  /** The number of entries of the lookup above one. */
  method CountAbove(lookup: map<int, int>) returns (count: nat)
    ensures count == |Above(lookup, lookup.Keys)|
  {
    var pending := lookup.Keys;
    count := 0;
    while |pending| > 0
      invariant pending <= lookup.Keys
      invariant count == |Above(lookup, lookup.Keys - pending)|
      decreases |pending|
    {
      ghost var some := Member(pending);
      var d :| d in pending;
      ghost var done := lookup.Keys - pending;
      assert lookup.Keys - (pending - {d}) == done + {d};
      AboveAdd(lookup, done, d);
      if lookup[d] > 1 {
        count := count + 1;
      }
      pending := pending - {d};
    }
    assert pending == {};
    assert lookup.Keys - pending == lookup.Keys;
  }

  /** `overlapDays`: the number of in-range days on which more than one event is drawn. */
  method OverlapDays(rows: seq<Row>, rangeStart: int, rangeEnd: int) returns (count: nat)
    ensures count == |CrowdedDays(rows, rangeStart, rangeEnd)|
  {
    var lookup := BuildOverlapLookup(rows, rangeStart, rangeEnd);
    count := CountAbove(lookup);
    AboveIsCrowded(rows, rangeStart, rangeEnd, lookup);
  }

  /** Adds the listed ids to `base`, telling whether any was missing. */
  method AddIds(base: set<string>, ids: seq<string>) returns (next: set<string>, added: bool)
    ensures next == base + IdSet(ids)
    ensures added <==> !(IdSet(ids) <= base)
  {
    next := base;
    added := false;
    for i := 0 to |ids|
      invariant next == base + IdSet(ids[..i])
      invariant added <==> !(IdSet(ids[..i]) <= base)
    {
      assert IdSet(ids[..i + 1]) == IdSet(ids[..i]) + {ids[i]};
      if ids[i] !in next {
        next := next + {ids[i]};
        added := true;
      }
    }
    assert ids[..|ids|] == ids;
  }

  /** Drops from `grown` the ids that are not listed, telling whether any was dropped. */
  method KeepIds(grown: set<string>, ids: seq<string>) returns (next: set<string>, dropped: bool)
    requires IdSet(ids) <= grown
    ensures next == IdSet(ids)
    ensures dropped <==> !(grown <= IdSet(ids))
  {
    next := grown;
    dropped := false;
    var pending := grown;
    while |pending| > 0
      invariant pending <= grown
      invariant forall x :: x in next <==> x in ids || x in pending
      invariant dropped <==> !(grown - pending <= IdSet(ids))
      decreases |pending|
    {
      ghost var some := Member(pending);
      var id :| id in pending;
      ghost var done := grown - pending;
      if id !in ids {
        assert id !in IdSet(ids);
        next := next - {id};
        dropped := true;
      }
      pending := pending - {id};
      assert grown - pending == done + {id};
    }
    assert grown - pending == grown;
    assert next == IdSet(ids);
  }

  /** The page's range and visible calendars. */
  class TimelineState {
    var rangeStart: int
    var rangeEnd: int
    var visible: set<string>

    predicate Ordered()
      reads this
    {
      rangeStart <= rangeEnd
    }

    /** The page opens on the range the clock gives and with no calendar visible. */
    constructor (rangeStart: int, rangeEnd: int)
      requires rangeStart <= rangeEnd
      ensures Ordered() && this.rangeStart == rangeStart && this.rangeEnd == rangeEnd && visible == {}
    {
      this.rangeStart := rangeStart;
      this.rangeEnd := rangeEnd;
      visible := {};
    }

    /** `handleRangeStartChange`: an empty field is ignored; a start after the end drags the end along. */
    method SetRangeStart(value: Option<int>)
      requires Ordered()
      modifies this
      ensures Ordered() && visible == old(visible)
      ensures value.None? ==> rangeStart == old(rangeStart) && rangeEnd == old(rangeEnd)
      ensures value.Some? ==> rangeStart == value.value && rangeEnd == Max(old(rangeEnd), value.value)
    {
      if value.None? {
        return;
      }
      var nextStart := value.value;
      rangeStart := nextStart;
      if nextStart > rangeEnd {
        rangeEnd := nextStart;
      }
    }

    /** `handleRangeEndChange`: an empty field is ignored; an end before the start drags the start along. */
    method SetRangeEnd(value: Option<int>)
      requires Ordered()
      modifies this
      ensures Ordered() && visible == old(visible)
      ensures value.None? ==> rangeStart == old(rangeStart) && rangeEnd == old(rangeEnd)
      ensures value.Some? ==> rangeEnd == value.value && rangeStart == Min(old(rangeStart), value.value)
    {
      if value.None? {
        return;
      }
      var nextEnd := value.value;
      if rangeStart > nextEnd {
        rangeStart := nextEnd;
      }
      rangeEnd := nextEnd;
    }

    /** `shiftRange(days)`: both ends move by the same number of days. */
    method ShiftRange(days: int)
      requires Ordered()
      modifies this
      ensures Ordered() && visible == old(visible)
      ensures rangeStart == old(rangeStart) + days && rangeEnd == old(rangeEnd) + days
    {
      rangeStart := rangeStart + days;
      rangeEnd := rangeEnd + days;
    }

    /** The Next button: the range that follows the current one. */
    method Next()
      requires Ordered()
      modifies this
      ensures Ordered() && visible == old(visible)
      ensures rangeStart == old(rangeEnd) + 1
      ensures TotalDays(rangeStart, rangeEnd) == TotalDays(old(rangeStart), old(rangeEnd))
    {
      PagingTiles(rangeStart, rangeEnd);
      ShiftRange(TotalDays(rangeStart, rangeEnd));
    }

    /** The Prev button: the range that precedes the current one. */
    method Prev()
      requires Ordered()
      modifies this
      ensures Ordered() && visible == old(visible)
      ensures rangeEnd == old(rangeStart) - 1
      ensures TotalDays(rangeStart, rangeEnd) == TotalDays(old(rangeStart), old(rangeEnd))
    {
      PagingTiles(rangeStart, rangeEnd);
      ShiftRange(-TotalDays(rangeStart, rangeEnd));
    }

    /** The "Today" button: the range the clock gives. */
    method ResetToToday(monthStart: int, nextMonthEnd: int)
      requires monthStart <= nextMonthEnd
      modifies this
      ensures Ordered() && visible == old(visible)
      ensures rangeStart == monthStart && rangeEnd == nextMonthEnd
    {
      rangeStart := monthStart;
      rangeEnd := nextMonthEnd;
    }

    /**
     * The effect run when the calendar list changes: afterwards exactly the
     * listed calendars are visible. `replaced` tells whether a new set was
     * installed; the previous set is kept when nothing changed.
     */
    method SyncVisible(ids: seq<string>) returns (replaced: bool)
      modifies this
      ensures rangeStart == old(rangeStart) && rangeEnd == old(rangeEnd)
      ensures visible == IdSet(ids)
      ensures |ids| == 0 ==> replaced
      ensures |ids| > 0 ==> (replaced <==> old(visible) != IdSet(ids))
    {
      if |ids| == 0 {
        visible := {};
        return true;
      }
      var grown, added := AddIds(visible, ids);
      var next, dropped := KeepIds(grown, ids);
      var changed := added || dropped;
      if changed {
        visible := next;
      }
      replaced := changed;
    }

    /** A calendar's checkbox. */
    method ToggleCalendar(id: string, checked: bool)
      modifies this
      ensures rangeStart == old(rangeStart) && rangeEnd == old(rangeEnd)
      ensures visible == if checked then old(visible) + {id} else old(visible) - {id}
    {
      if checked {
        visible := visible + {id};
      } else {
        visible := visible - {id};
      }
    }

    /** The "all calendars" checkbox: clears the set when all are selected, else selects all. */
    method ToggleAllCalendars(ids: seq<string>)
      modifies this
      ensures rangeStart == old(rangeStart) && rangeEnd == old(rangeEnd)
      ensures visible == if AllSelected(old(visible), ids) then {} else IdSet(ids)
    {
      if AllSelected(visible, ids) {
        visible := {};
        return;
      }
      visible := IdSet(ids);
    }
  }
}
