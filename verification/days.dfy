/**
 * Calendar days as integer day numbers, and date-fns `eachDayOfInterval` on
 * them. The client only ever builds day-aligned dates, so one day is one step.
 */
module Days {
  function Min(a: int, b: int): int { if a <= b then a else b }

  function Max(a: int, b: int): int { if a <= b then b else a }

  /**
   * `eachDayOfInterval({ start, end })`: the days from `start` to `end`. As in
   * date-fns 3, an interval whose end lies before its start is walked
   * backwards rather than rejected.
   */
  function EachDay(start: int, end: int): (r: seq<int>)
    ensures |r| == Max(start, end) - Min(start, end) + 1
    ensures r[0] == start && r[|r| - 1] == end
    ensures forall i :: 0 <= i < |r| ==> r[i] == (if start <= end then start + i else start - i)
  {
    if start <= end then seq(end - start + 1, i => start + i)
    else seq(start - end + 1, i => start - i)
  }

  /** A day is listed exactly when it lies between the two ends. */
  lemma EachDayMember(start: int, end: int, d: int)
    ensures d in EachDay(start, end) <==> Min(start, end) <= d <= Max(start, end)
  {
    var r := EachDay(start, end);
    if Min(start, end) <= d <= Max(start, end) {
      var i := if start <= end then d - start else start - d;
      assert r[i] == d;
    }
  }
}
