/**
 * The booking date picker: the check-in/check-out state machine of the
 * `useBookingDateRangeSelection` hook and the `DateSelector` component that
 * drives it. Days are integer day numbers; `today` is the local day the
 * component was mounted on.
 */
module Booking {
  import opened JsText

  /** The hook's default booking horizon, in days after today. */
  const DefaultHorizonDays := 730
  const DefaultMinNights := 1
  const DefaultMaxNights := 30

  const DateUnavailable := "This date is unavailable"
  const RangeUnavailable := "Selected range contains unavailable dates"
  const PastDate := "Cannot select past dates"

  function AdvanceMessage(horizonDays: int): string
  {
    "Bookings can only be made up to " + IntToString(horizonDays) + " days in advance"
  }

  function CheckoutHorizonMessage(horizonDays: int): string
  {
    "Check-out date exceeds maximum booking horizon of " + IntToString(horizonDays) + " days"
  }

  function MinStayMessage(minNights: int): string
  {
    "Minimum stay is " + IntToString(minNights) + " night" + (if minNights > 1 then "s" else "")
  }

  function MaxStayMessage(maxNights: int): string
  {
    "Maximum stay is " + IntToString(maxNights) + " nights"
  }

  /** The hook's parameters; a hook given no blocking callback has no blocked days. */
  datatype HookConfig = HookConfig(today: int, horizonDays: int, minNights: int, maxNights: int, blocked: seq<int>)

  /** The selected dates (owned by the parent) and the hook's own state. */
  datatype Selection = Selection(checkIn: Option<int>, checkOut: Option<int>, selectingCheckout: bool, stayError: Option<string>)

  const Cleared := Selection(None, None, false, None)

  /** `isDateBlocked`: the day equals one of the blocked days. */
  predicate IsBlocked(blocked: seq<int>, d: int) { d in blocked }

  predicate BeyondHorizon(h: HookConfig, d: int) { d > h.today + h.horizonDays }

  /** Some day of the inclusive range `[start, end]` is blocked. */
  predicate RangeHasBlocked(blocked: seq<int>, start: int, end: int)
  {
    exists d :: start <= d <= end && IsBlocked(blocked, d)
  }

  /**
   * The state of a stay that the hook accepts without complaint: ordered dates,
   * no blocked day from check-in through check-out, check-out within the
   * horizon, and a night count within bounds.
   */
  predicate AcceptedStay(h: HookConfig, s: Selection)
  {
    && s.checkIn.Some? && s.checkOut.Some?
    && s.checkIn.value < s.checkOut.value
    && !RangeHasBlocked(h.blocked, s.checkIn.value, s.checkOut.value)
    && !BeyondHorizon(h, s.checkOut.value)
    && h.minNights <= s.checkOut.value - s.checkIn.value <= h.maxNights
    && s.stayError.None? && !s.selectingCheckout
  }

  /**
   * The shape every reachable state has: a check-out only after an earlier
   * check-in, and `selectingCheckout` only while a check-in waits for its check-out.
   */
  predicate Wellformed(s: Selection)
  {
    && (s.checkOut.Some? ==> s.checkIn.Some? && s.checkIn.value < s.checkOut.value)
    && (s.selectingCheckout ==> s.checkIn.Some? && s.checkOut.None?)
  }

  /** The dates do not change, and the error is set. */
  predicate KeepsDates(s: Selection, r: Selection)
  {
    r.checkIn == s.checkIn && r.checkOut == s.checkOut && r.selectingCheckout == s.selectingCheckout && r.stayError.Some?
  }

  /** `handleDateSelect(date)` on state `s`. */
  function DateSelect(h: HookConfig, s: Selection, date: Option<int>): (r: Selection)
    ensures date.None? ==> r == s
    ensures date.Some? && (IsBlocked(h.blocked, date.value) || BeyondHorizon(h, date.value)) ==> KeepsDates(s, r)
    ensures date.Some? && IsBlocked(h.blocked, date.value) ==> r.stayError == Some(DateUnavailable)
    ensures date.Some? && !IsBlocked(h.blocked, date.value) && BeyondHorizon(h, date.value) ==>
      r.stayError == Some(AdvanceMessage(h.horizonDays))
    ensures date.Some? && !IsBlocked(h.blocked, date.value) && !BeyondHorizon(h, date.value) && (s.checkIn.None? || s.checkOut.Some?) ==>
      r == Selection(date, None, true, None)
    ensures date.Some? && s.checkIn == date && s.checkOut.None? && !IsBlocked(h.blocked, date.value) && !BeyondHorizon(h, date.value) ==>
      r == Cleared
    ensures date.Some? && r.checkOut.Some? && r.checkOut != s.checkOut ==>
      && s.checkIn.Some? && s.checkOut.None?
      && r.checkIn.Some? && r.checkIn.value < r.checkOut.value
      && {r.checkIn.value, r.checkOut.value} == {s.checkIn.value, date.value}
      && !RangeHasBlocked(h.blocked, r.checkIn.value, r.checkOut.value)
      && !BeyondHorizon(h, r.checkOut.value)
      && !r.selectingCheckout
      && (r.stayError.None? <==> h.minNights <= r.checkOut.value - r.checkIn.value <= h.maxNights)
    ensures date.Some? && !IsBlocked(h.blocked, date.value) && !BeyondHorizon(h, date.value)
            && s.checkIn.Some? && s.checkOut.None? && date != s.checkIn ==>
      var lo := if date.value > s.checkIn.value then s.checkIn.value else date.value;
      var hi := if date.value > s.checkIn.value then date.value else s.checkIn.value;
      && (RangeHasBlocked(h.blocked, lo, hi) ==> r == Selection(date, None, true, Some(RangeUnavailable)))
      && (!RangeHasBlocked(h.blocked, lo, hi) && BeyondHorizon(h, hi) ==>
            r == Selection(date, None, true, Some(CheckoutHorizonMessage(h.horizonDays))))
      && (!RangeHasBlocked(h.blocked, lo, hi) && !BeyondHorizon(h, hi) ==>
            && r.checkIn == Some(lo) && r.checkOut == Some(hi) && !r.selectingCheckout
            && (hi - lo < h.minNights ==> r.stayError == Some(MinStayMessage(h.minNights)))
            && (h.minNights <= hi - lo && hi - lo > h.maxNights ==> r.stayError == Some(MaxStayMessage(h.maxNights))))
  {
    if date.None? then s
    else
      var d := date.value;
      if IsBlocked(h.blocked, d) then s.(stayError := Some(DateUnavailable))
      else if BeyondHorizon(h, d) then s.(stayError := Some(AdvanceMessage(h.horizonDays)))
      else if s.checkIn.None? || s.checkOut.Some? then Selection(Some(d), None, true, None)
      else if d == s.checkIn.value then Cleared
      else
        var start := if d > s.checkIn.value then s.checkIn.value else d;
        var end := if d > s.checkIn.value then d else s.checkIn.value;
        if RangeHasBlocked(h.blocked, start, end) then Selection(Some(d), None, true, Some(RangeUnavailable))
        else if BeyondHorizon(h, end) then Selection(Some(d), None, true, Some(CheckoutHorizonMessage(h.horizonDays)))
        else if end - start < h.minNights then Selection(Some(start), Some(end), false, Some(MinStayMessage(h.minNights)))
        else if end - start > h.maxNights then Selection(Some(start), Some(end), false, Some(MaxStayMessage(h.maxNights)))
        else Selection(Some(start), Some(end), false, None)
  }

  /** A click that leaves the hook without an error and with both dates stores an accepted stay. */
  lemma DateSelectAccepts(h: HookConfig, s: Selection, d: int)
    ensures var r := DateSelect(h, s, Some(d));
      r.checkOut.Some? && r.stayError.None? ==> AcceptedStay(h, r)
  {
  }

  /** Every transition of the hook keeps a well-formed state well-formed. */
  lemma DateSelectWellformed(h: HookConfig, s: Selection, date: Option<int>)
    requires Wellformed(s)
    ensures Wellformed(DateSelect(h, s, date))
  {
  }

  /**
   * The hook's state. `checkIn` and `checkOut` belong to the parent, which
   * stores whatever `onDatesChange` reports; `selectingCheckout` and
   * `stayError` are the hook's own.
   */
  class DateRangeSelection {
    const hook: HookConfig
    var checkIn: Option<int>
    var checkOut: Option<int>
    var selectingCheckout: bool
    var stayError: Option<string>

    function State(): Selection
      reads this
    {
      Selection(checkIn, checkOut, selectingCheckout, stayError)
    }

    constructor (hook: HookConfig, checkIn: Option<int>, checkOut: Option<int>)
      ensures this.hook == hook
      ensures State() == Selection(checkIn, checkOut, false, None)
    {
      this.hook := hook;
      this.checkIn := checkIn;
      this.checkOut := checkOut;
      selectingCheckout := false;
      stayError := None;
    }

    /** `onDatesChange(checkIn, checkOut)`. */
    method DatesChange(newCheckIn: Option<int>, newCheckOut: Option<int>)
      modifies this
      ensures State() == old(State()).(checkIn := newCheckIn, checkOut := newCheckOut)
    {
      checkIn := newCheckIn;
      checkOut := newCheckOut;
    }

    /** `clearDates`. */
    method ClearDates()
      modifies this
      ensures State() == Cleared
    {
      DatesChange(None, None);
      selectingCheckout := false;
      stayError := None;
    }

    /** `handleDateSelect(date)`. */
    method HandleDateSelect(date: Option<int>)
      modifies this
      ensures State() == DateSelect(hook, old(State()), date)
    {
      if date.None? {
        return;
      }
      var d := date.value;
      if d in hook.blocked {
        stayError := Some(DateUnavailable);
        return;
      }
      if d > hook.today + hook.horizonDays {
        stayError := Some(AdvanceMessage(hook.horizonDays));
        return;
      }
      stayError := None;
      if checkIn.None? {
        DatesChange(Some(d), None);
        selectingCheckout := true;
        return;
      }
      if checkOut.Some? {
        DatesChange(Some(d), None);
        selectingCheckout := true;
        return;
      }
      if d == checkIn.value {
        ClearDates();
        return;
      }
      var start, end := if d > checkIn.value then checkIn.value else d, if d > checkIn.value then d else checkIn.value;
      var hasBlocked := exists day | start <= day <= end :: IsBlocked(hook.blocked, day);
      if hasBlocked {
        stayError := Some(RangeUnavailable);
        DatesChange(Some(d), None);
        selectingCheckout := true;
        return;
      }
      if end > hook.today + hook.horizonDays {
        stayError := Some(CheckoutHorizonMessage(hook.horizonDays));
        DatesChange(Some(d), None);
        selectingCheckout := true;
        return;
      }
      var nights := end - start;
      if nights < hook.minNights {
        stayError := Some(MinStayMessage(hook.minNights));
        DatesChange(Some(start), Some(end));
        selectingCheckout := false;
        return;
      }
      if nights > hook.maxNights {
        stayError := Some(MaxStayMessage(hook.maxNights));
        DatesChange(Some(start), Some(end));
        selectingCheckout := false;
        return;
      }
      DatesChange(Some(start), Some(end));
      selectingCheckout := false;
    }
  }

  /** The `DateSelector` component's parameters. */
  datatype PickerConfig = PickerConfig(today: int, horizonDays: int, minNights: int, maxNights: int, blocked: seq<int>)

  /**
   * The hook as the component sets it up: the component hands over its
   * blocked days and night bounds but not its horizon, so the hook keeps its
   * default of 730 days.
   */
  function HookOf(p: PickerConfig): (h: HookConfig)
    ensures h.horizonDays == DefaultHorizonDays
    ensures h.today == p.today && h.blocked == p.blocked
    ensures h.minNights == p.minNights && h.maxNights == p.maxNights
  {
    HookConfig(p.today, DefaultHorizonDays, p.minNights, p.maxNights, p.blocked)
  }

  /** `isDateDisabled`: in the past, beyond the component's horizon, or blocked. */
  predicate IsDateDisabled(p: PickerConfig, d: int)
  {
    d < p.today || d > p.today + p.horizonDays || IsBlocked(p.blocked, d)
  }

  /** `selectedNights`. */
  function SelectedNights(checkIn: Option<int>, checkOut: Option<int>): (n: int)
    ensures checkIn.None? || checkOut.None? ==> n == 0
    ensures checkIn.Some? && checkOut.Some? && checkIn.value < checkOut.value ==> n > 0
  {
    if checkIn.Some? && checkOut.Some? then checkOut.value - checkIn.value else 0
  }

  /** `isValidStay`, which enables the Continue button. */
  predicate IsValidStay(p: PickerConfig, nights: int)
  {
    p.minNights <= nights <= p.maxNights
  }

  /** The range react-day-picker reports; an absent range is `None`. */
  datatype PickedRange = PickedRange(from: Option<int>, to: Option<int>)

  /** `handleRangeSelect(range)` on state `s`. */
  function RangeSelect(p: PickerConfig, s: Selection, range: Option<PickedRange>): (r: Selection)
    ensures range.None? || range.value.from.None? ==> r == Cleared
    ensures range.Some? && range.value.from.Some? && range.value.to.Some? ==>
      r == DateSelect(HookOf(p), s, range.value.to)
  {
    if range.None? || range.value.from.None? then Cleared
    else if range.value.to.None? then
      var d := range.value.from.value;
      if IsBlocked(p.blocked, d) then s.(stayError := Some(DateUnavailable))
      else if d < p.today then s.(stayError := Some(PastDate))
      else if d > p.today + p.horizonDays then s.(stayError := Some(AdvanceMessage(p.horizonDays)))
      else Selection(Some(d), None, true, None)
    else DateSelect(HookOf(p), s, range.value.to)
  }

  /**
   * A first click is taken as the check-in exactly when the calendar shows
   * that day enabled; otherwise the dates stay as they were and an error is set.
   */
  lemma FirstClickIffEnabled(p: PickerConfig, s: Selection, d: int)
    ensures var r := RangeSelect(p, s, Some(PickedRange(Some(d), None)));
      && (r == Selection(Some(d), None, true, None) <==> !IsDateDisabled(p, d))
      && (IsDateDisabled(p, d) ==> KeepsDates(s, r))
  {
  }

  /** Range selection keeps a well-formed state well-formed. */
  lemma RangeSelectWellformed(p: PickerConfig, s: Selection, range: Option<PickedRange>)
    requires Wellformed(s)
    ensures Wellformed(RangeSelect(p, s, range))
  {
    if range.Some? && range.value.from.Some? && range.value.to.Some? {
      DateSelectWellformed(HookOf(p), s, range.value.to);
    }
  }

  /**
   * The Continue button agrees with the hook: once a click stores a new
   * range, the button is enabled exactly when the hook reports no error.
   */
  lemma ContinueAgreesWithHook(p: PickerConfig, s: Selection, d: int)
    ensures var r := DateSelect(HookOf(p), s, Some(d));
      r.checkOut.Some? && r.checkOut != s.checkOut ==>
        (IsValidStay(p, SelectedNights(r.checkIn, r.checkOut)) <==> r.stayError.None?)
  {
  }

  /**
   * The two horizons differ: with a 30-day component horizon the hook still
   * accepts a check-out 40 days ahead, a day the calendar shows disabled.
   */
  lemma HookIgnoresPickerHorizon()
    ensures var p := PickerConfig(0, 30, 1, 60, []);
      var s := Selection(Some(1), None, true, None);
      var r := RangeSelect(p, s, Some(PickedRange(Some(1), Some(40))));
      && IsDateDisabled(p, 40)
      && r == Selection(Some(1), Some(40), false, None)
  {
    var h := HookOf(PickerConfig(0, 30, 1, 60, []));
    assert !RangeHasBlocked(h.blocked, 1, 40);
  }

  /** `handleRangeSelect`, driving the hook object `sel`. */
  method HandleRangeSelect(p: PickerConfig, sel: DateRangeSelection, range: Option<PickedRange>)
    requires sel.hook == HookOf(p)
    modifies sel
    ensures sel.State() == RangeSelect(p, old(sel.State()), range)
  {
    if range.None? || range.value.from.None? {
      sel.DatesChange(None, None);
      sel.selectingCheckout := false;
      sel.stayError := None;
      return;
    }
    var from := range.value.from.value;
    if range.value.to.None? {
      if from in p.blocked {
        sel.stayError := Some(DateUnavailable);
        return;
      }
      if from < p.today {
        sel.stayError := Some(PastDate);
        return;
      }
      if from > p.today + p.horizonDays {
        sel.stayError := Some(AdvanceMessage(p.horizonDays));
        return;
      }
      sel.DatesChange(Some(from), None);
      sel.selectingCheckout := true;
      sel.stayError := None;
      return;
    }
    sel.HandleDateSelect(range.value.to);
  }
}
