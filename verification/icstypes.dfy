/**
 * The record the iCalendar codec produces for each VEVENT, and the `YYYY-MM-DD`
 * shape check used on dates (supabase/functions/_shared/types.ts).
 */
module IcsTypes {
  import opened JsText

  /** The two status values an imported event can carry. */
  datatype IcsStatus = Confirmed | Cancelled

  function StatusText(s: IcsStatus): (r: string)
    ensures r == "CONFIRMED" || r == "CANCELLED"
  {
    match s
    case Confirmed => "CONFIRMED"
    case Cancelled => "CANCELLED"
  }

  /** One parsed VEVENT; `start` and `end` are `YYYY-MM-DD` texts, `end` exclusive. */
  datatype IcsEvent = IcsEvent(uid: string, start: string, end: string, summary: string, status: IcsStatus)

  /** `^\d{4}-\d{2}-\d{2}$`: the shape only, with no range check on month or day. */
  predicate IsIsoDate(s: string)
  {
    |s| == 10 && AllDigits(s[..4]) && s[4] == '-' && AllDigits(s[5..7]) && s[7] == '-' && AllDigits(s[8..])
  }

  /** `YYYY-MM-DD` built from eight digits by slicing them 4 + 2 + 2. */
  function DashDate(d: string): (r: string)
    requires |d| == 8
    ensures |r| == 10 && r[..4] == d[..4] && r[5..7] == d[4..6] && r[8..] == d[6..]
    ensures AllDigits(d) ==> IsIsoDate(r)
  {
    d[..4] + "-" + d[4..6] + "-" + d[6..8]
  }

  /** The shape check accepts any two digits as month and day, out-of-range ones included. */
  lemma IsIsoDateNoRangeCheck(y: string, m: string, d: string)
    requires |y| == 4 && |m| == 2 && |d| == 2 && AllDigits(y) && AllDigits(m) && AllDigits(d)
    ensures IsIsoDate(y + "-" + m + "-" + d)
  {
    var s := y + "-" + m + "-" + d;
    assert s[..4] == y && s[5..7] == m && s[8..] == d;
  }
}
