/**
 * The calendar page (src/pages/CalendarDetail.tsx): the days a new or edited
 * booking may not use, the tab chosen by the `tab` query parameter, the
 * labels of the sync intervals, the rename button, and the default booking
 * status setting with its optimistic update.
 */
module CalendarDetail {
  import opened JsText
  import opened JsValue
  import opened Days
  import Api

  /** A manual booking as far as blocking goes. */
  datatype BookingSpan = BookingSpan(id: string, status: string, startDate: int, endDate: int)

  /** An imported event as far as blocking goes; its status may be absent. */
  datatype ImportedSpan = ImportedSpan(status: Option<string>, startDate: int, endDate: int)

  /** The days a stay occupies: from its first day through the day before its end. */
  function StayDays(startDate: int, endDate: int): seq<int>
  {
    EachDay(startDate, endDate - 1)
  }

  /**
   * The days `StayDays` lists: `[start, end)` for a stay that ends after it
   * starts; a stay that does not is walked backwards down to `end - 1`.
   */
  predicate Covers(startDate: int, endDate: int, d: int)
  {
    if startDate < endDate then startDate <= d < endDate else endDate - 1 <= d <= startDate
  }

  lemma StayDaysMember(startDate: int, endDate: int, d: int)
    ensures d in StayDays(startDate, endDate) <==> Covers(startDate, endDate, d)
  {
    EachDayMember(startDate, endDate - 1, d);
  }

  /** A stay that ends after it starts blocks one day per night. */
  lemma StayDaysCount(startDate: int, endDate: int)
    requires startDate < endDate
    ensures |StayDays(startDate, endDate)| == endDate - startDate
  {
  }

  /** A booking counts unless it is the one being edited or its status is exactly "cancelled". */
  predicate BookingBlocks(b: BookingSpan, excludeId: Option<string>)
  {
    !(Truthy(excludeId) && b.id == excludeId.value) && b.status != "cancelled"
  }

  /** An imported event counts unless its status, lower-cased, is "cancelled". */
  predicate ImportedBlocks(e: ImportedSpan)
  {
    !(e.status.Some? && Lower(e.status.value) == "cancelled")
  }

  /** The days of the blocking bookings, in booking order. */
  function BookingDays(bookings: seq<BookingSpan>, excludeId: Option<string>): seq<int>
  {
    if bookings == [] then []
    else
      var b := bookings[|bookings| - 1];
      BookingDays(bookings[..|bookings| - 1], excludeId)
        + (if BookingBlocks(b, excludeId) then StayDays(b.startDate, b.endDate) else [])
  }

  /** The days of the blocking imported events, in event order. */
  function ImportedDays(events: seq<ImportedSpan>): seq<int>
  {
    if events == [] then []
    else
      var e := events[|events| - 1];
      ImportedDays(events[..|events| - 1]) + (if ImportedBlocks(e) then StayDays(e.startDate, e.endDate) else [])
  }

  lemma AppendAssoc(a: seq<int>, b: seq<int>, c: seq<int>)
    ensures (a + b) + c == a + (b + c)
  {
  }

  lemma BookingDaysStep(bookings: seq<BookingSpan>, excludeId: Option<string>, i: nat)
    requires i < |bookings|
    ensures BookingDays(bookings[..i + 1], excludeId) == BookingDays(bookings[..i], excludeId)
      + (if BookingBlocks(bookings[i], excludeId) then StayDays(bookings[i].startDate, bookings[i].endDate) else [])
  {
    assert bookings[..i + 1][..i] == bookings[..i];
  }

  lemma ImportedDaysStep(events: seq<ImportedSpan>, j: nat)
    requires j < |events|
    ensures ImportedDays(events[..j + 1]) == ImportedDays(events[..j])
      + (if ImportedBlocks(events[j]) then StayDays(events[j].startDate, events[j].endDate) else [])
  {
    assert events[..j + 1][..j] == events[..j];
  }

  /** The first loop of `getBlockedDates`: appends the days of each blocking booking. */
  method AddBookingDays(bookings: seq<BookingSpan>, excludeId: Option<string>, start: seq<int>)
    returns (blocked: seq<int>)
    ensures blocked == start + BookingDays(bookings, excludeId)
  {
    blocked := start;
    for i := 0 to |bookings|
      invariant blocked == start + BookingDays(bookings[..i], excludeId)
    {
      BookingDaysStep(bookings, excludeId, i);
      ghost var prev := BookingDays(bookings[..i], excludeId);
      var b := bookings[i];
      if Truthy(excludeId) && b.id == excludeId.value {
        assert prev + [] == prev;
        continue;
      }
      if b.status == "cancelled" {
        assert prev + [] == prev;
        continue;
      }
      var days := EachDay(b.startDate, b.endDate - 1);
      AppendAssoc(start, prev, days);
      blocked := blocked + days;
    }
    assert bookings[..|bookings|] == bookings;
  }

  /** The second loop of `getBlockedDates`: appends the days of each blocking imported event. */
  method AddImportedDays(events: seq<ImportedSpan>, start: seq<int>) returns (blocked: seq<int>)
    ensures blocked == start + ImportedDays(events)
  {
    blocked := start;
    for j := 0 to |events|
      invariant blocked == start + ImportedDays(events[..j])
    {
      ImportedDaysStep(events, j);
      ghost var prev := ImportedDays(events[..j]);
      var e := events[j];
      if e.status.Some? && Lower(e.status.value) == "cancelled" {
        assert prev + [] == prev;
        continue;
      }
      var days := EachDay(e.startDate, e.endDate - 1);
      AppendAssoc(start, prev, days);
      blocked := blocked + days;
    }
    assert events[..|events|] == events;
  }

  /** `getBlockedDates`: booking days first, then imported days, duplicates kept. */
  method GetBlockedDates(bookings: seq<BookingSpan>, events: seq<ImportedSpan>, excludeId: Option<string>)
    returns (blocked: seq<int>)
    ensures blocked == BookingDays(bookings, excludeId) + ImportedDays(events)
  {
    blocked := AddBookingDays(bookings, excludeId, []);
    assert blocked == BookingDays(bookings, excludeId);
    blocked := AddImportedDays(events, blocked);
  }

  /** A day is among the booking days exactly when some blocking booking covers it. */
  lemma {:induction false} BookingDaysMember(bookings: seq<BookingSpan>, excludeId: Option<string>, d: int)
    ensures d in BookingDays(bookings, excludeId) <==>
      exists i :: 0 <= i < |bookings| && BookingBlocks(bookings[i], excludeId) && Covers(bookings[i].startDate, bookings[i].endDate, d)
  {
    if bookings != [] {
      var init := bookings[..|bookings| - 1];
      var b := bookings[|bookings| - 1];
      BookingDaysMember(init, excludeId, d);
      StayDaysMember(b.startDate, b.endDate, d);
      if d in BookingDays(bookings, excludeId) {
        if d in BookingDays(init, excludeId) {
          var i :| 0 <= i < |init| && BookingBlocks(init[i], excludeId) && Covers(init[i].startDate, init[i].endDate, d);
          assert bookings[i] == init[i];
        } else {
          assert BookingBlocks(bookings[|bookings| - 1], excludeId);
        }
      } else {
        forall i | 0 <= i < |bookings| && BookingBlocks(bookings[i], excludeId)
          ensures !Covers(bookings[i].startDate, bookings[i].endDate, d)
        {
          if i < |init| { assert bookings[i] == init[i]; }
        }
      }
    }
  }

  /** A day is among the imported days exactly when some blocking imported event covers it. */
  lemma {:induction false} ImportedDaysMember(events: seq<ImportedSpan>, d: int)
    ensures d in ImportedDays(events) <==>
      exists j :: 0 <= j < |events| && ImportedBlocks(events[j]) && Covers(events[j].startDate, events[j].endDate, d)
  {
    if events != [] {
      var init := events[..|events| - 1];
      var e := events[|events| - 1];
      ImportedDaysMember(init, d);
      StayDaysMember(e.startDate, e.endDate, d);
      if d in ImportedDays(events) {
        if d in ImportedDays(init) {
          var j :| 0 <= j < |init| && ImportedBlocks(init[j]) && Covers(init[j].startDate, init[j].endDate, d);
          assert events[j] == init[j];
        } else {
          assert ImportedBlocks(events[|events| - 1]);
        }
      } else {
        forall j | 0 <= j < |events| && ImportedBlocks(events[j])
          ensures !Covers(events[j].startDate, events[j].endDate, d)
        {
          if j < |init| { assert events[j] == init[j]; }
        }
      }
    }
  }

  /** The tabs of the page. */
  predicate IsTab(t: string)
  {
    t == "bookings" || t == "subscriptions" || t == "logs" || t == "settings"
  }

  /** `currentTab`: the `tab` query parameter when it names a tab, else "bookings". */
  function CurrentTab(rawTab: Option<string>): (r: string)
    ensures IsTab(r)
    ensures rawTab.Some? && IsTab(rawTab.value) <==> rawTab == Some(r)
  {
    if rawTab.Some? && IsTab(rawTab.value) then rawTab.value else "bookings"
  }

  /** Linking to the tab shown opens the same tab. */
  lemma CurrentTabStable(rawTab: Option<string>)
    ensures CurrentTab(Some(CurrentTab(rawTab))) == CurrentTab(rawTab)
  {
  }

  /** One entry of the sync interval picker. */
  datatype IntervalOption = IntervalOption(seconds: int, caption: string)

  const SyncIntervalOptions: seq<IntervalOption> := [
    IntervalOption(900, "15 minutes"),
    IntervalOption(1800, "30 minutes"),
    IntervalOption(3600, "1 hour"),
    IntervalOption(10800, "3 hours"),
    IntervalOption(21600, "6 hours"),
    IntervalOption(43200, "12 hours"),
    IntervalOption(86400, "24 hours"),
    IntervalOption(0, "None (manual only)")
  ]

  /** `options.find(o => o.value === sec)`: the first option with that interval. */
  function FindOption(options: seq<IntervalOption>, sec: int): (r: Option<IntervalOption>)
    ensures r.None? <==> forall k :: 0 <= k < |options| ==> options[k].seconds != sec
    ensures r.Some? ==> r.value in options && r.value.seconds == sec
  {
    if options == [] then None
    else if options[0].seconds == sec then Some(options[0])
    else FindOption(options[1..], sec)
  }

  /** `getIntervalLabel`. */
  function IntervalLabel(sec: int): string
  {
    var opt := FindOption(SyncIntervalOptions, sec);
    if opt.Some? then opt.value.caption else IntToString(sec) + "s"
  }

  /** No two options share an interval. */
  lemma OptionSecondsDistinct()
    ensures forall k, m :: 0 <= k < m < |SyncIntervalOptions| ==> SyncIntervalOptions[k].seconds != SyncIntervalOptions[m].seconds
  {
  }

  /** Every option shows its own label, and any other interval its seconds. */
  lemma IntervalLabels(sec: int)
    ensures forall k :: 0 <= k < |SyncIntervalOptions| && SyncIntervalOptions[k].seconds == sec ==>
      IntervalLabel(sec) == SyncIntervalOptions[k].caption
    ensures (forall k :: 0 <= k < |SyncIntervalOptions| ==> SyncIntervalOptions[k].seconds != sec) ==>
      IntervalLabel(sec) == IntToString(sec) + "s"
  {
    OptionSecondsDistinct();
    forall k | 0 <= k < |SyncIntervalOptions| && SyncIntervalOptions[k].seconds == sec
      ensures IntervalLabel(sec) == SyncIntervalOptions[k].caption
    {
      FindOptionAt(SyncIntervalOptions, sec, k);
    }
  }

  /** With distinct intervals, the option found for an interval is the one that has it. */
  lemma {:induction false} FindOptionAt(options: seq<IntervalOption>, sec: int, k: nat)
    requires forall i, j :: 0 <= i < j < |options| ==> options[i].seconds != options[j].seconds
    requires k < |options| && options[k].seconds == sec
    ensures FindOption(options, sec) == Some(options[k])
  {
    if k > 0 {
      assert options[0].seconds != options[k].seconds;
      FindOptionAt(options[1..], sec, k - 1);
    }
  }

  /** `canSaveName`: the trimmed name is not empty and differs from the stored one. */
  function CanSaveName(name: string, current: string): (r: bool)
    ensures r ==> Trim(name) != [] && Trim(name) != current
  {
    |Trim(name)| > 0 && Trim(name) != current
  }

  /**
   * Saving sends the trimmed name, which the API stores as it is; afterwards
   * the stored name leaves nothing to save.
   */
  lemma SavedNameSettles(name: string, current: string)
    requires CanSaveName(name, current)
    ensures var stored := Api.CalendarName(Some(JString(Trim(name))));
      stored == Api.Checked.Accept(Trim(name)) && !CanSaveName(name, stored.value)
  {
    var first := Api.CalendarName(Some(JString(name)));
    assert first == Api.Checked.Accept(Trim(name));
    Api.CalendarNameStable(Some(JString(name)));
  }

  /** The statuses a calendar's default may take. */
  predicate IsDefaultStatus(s: string)
  {
    s == "pending" || s == "tentative" || s == "confirmed"
  }

  /**
   * The default booking status select. `shown` records every value the select
   * displayed, in order.
   */
  class DefaultStatusSetting {
    var defaultStatus: string
    ghost var shown: seq<string>

    predicate Valid()
      reads this
    {
      IsDefaultStatus(defaultStatus)
    }

    /** The page starts from "tentative" until the stored value arrives. */
    constructor ()
      ensures Valid() && defaultStatus == "tentative" && shown == ["tentative"]
    {
      defaultStatus := "tentative";
      shown := ["tentative"];
    }

    /** The effect that copies the stored default once it is one of the three statuses. */
    method SyncFromDb(dbDefaultStatus: Option<string>)
      requires Valid()
      modifies this
      ensures Valid()
      ensures dbDefaultStatus.Some? && IsDefaultStatus(dbDefaultStatus.value) ==> defaultStatus == dbDefaultStatus.value
      ensures !(dbDefaultStatus.Some? && IsDefaultStatus(dbDefaultStatus.value)) ==> defaultStatus == old(defaultStatus)
      ensures shown == old(shown) + (if defaultStatus != old(defaultStatus) then [defaultStatus] else [])
    {
      if dbDefaultStatus.Some? && IsDefaultStatus(dbDefaultStatus.value) {
        if dbDefaultStatus.value != defaultStatus {
          shown := shown + [dbDefaultStatus.value];
        }
        defaultStatus := dbDefaultStatus.value;
      }
    }

    /**
     * `handleDefaultStatusChange`: the new value is shown at once, and put
     * back to the previous one when the save fails.
     */
    method Change(value: string, saveSucceeded: bool)
      requires Valid() && IsDefaultStatus(value)
      modifies this
      ensures Valid()
      ensures defaultStatus == (if saveSucceeded then value else old(defaultStatus))
      ensures shown == old(shown) + [value] + (if saveSucceeded then [] else [old(defaultStatus)])
    {
      var previous := defaultStatus;
      defaultStatus := value;
      shown := shown + [value];
      if !saveSucceeded {
        defaultStatus := previous;
        shown := shown + [previous];
      }
    }
  }

  /** The API accepts every default the select offers, unchanged. */
  lemma DefaultStatusAccepted(value: string)
    requires IsDefaultStatus(value)
    ensures Api.NormalizeDefaultStatus(Some(JString(value))) == Some(value)
  {
    Api.StatusLowerCase(value);
  }
}
