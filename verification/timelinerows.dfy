/**
 * The rows of the cross-calendar timeline (src/hooks/useAllCalendarsBookings.ts):
 * one row per calendar, holding its manual bookings and then its imported
 * events, each tagged with its source and the calendar's colour. The
 * per-calendar queries are inputs: a query without data is `None`.
 */
module TimelineRows {
  import opened JsText

  datatype Source = Manual | Imported

  datatype Calendar = Calendar(id: string, name: string, color: Option<string>)

  /** A manual booking or an imported event as the API lists it; days are day numbers. */
  datatype EventRecord = EventRecord(id: string, calendarId: string, summary: string,
                                     startDate: int, endDate: int, status: string)

  datatype TimelineEvent = TimelineEvent(id: string, calendarId: string, calendarColor: Option<string>,
                                         summary: string, startDate: int, endDate: int, status: string,
                                         source: Source)

  datatype Row = Row(calendar: Calendar, events: seq<TimelineEvent>)

  /** One listed event as a timeline event of `calendar`. */
  function Tag(calendar: Calendar, e: EventRecord, source: Source): (t: TimelineEvent)
    ensures t.source == source && t.calendarColor == calendar.color
    ensures t.id == e.id && t.calendarId == e.calendarId && t.summary == e.summary
    ensures t.startDate == e.startDate && t.endDate == e.endDate && t.status == e.status
  {
    TimelineEvent(e.id, e.calendarId, calendar.color, e.summary, e.startDate, e.endDate, e.status, source)
  }

  function TagAll(calendar: Calendar, es: seq<EventRecord>, source: Source): (r: seq<TimelineEvent>)
    ensures |r| == |es|
    ensures forall k :: 0 <= k < |es| ==> r[k] == Tag(calendar, es[k], source)
  {
    if es == [] then [] else [Tag(calendar, es[0], source)] + TagAll(calendar, es[1..], source)
  }

  /** `queries[index]?.data ?? []`. */
  function DataAt(data: seq<Option<seq<EventRecord>>>, index: int): (r: seq<EventRecord>)
    ensures !(0 <= index < |data|) || data[index].None? ==> r == []
  {
    if 0 <= index < |data| && data[index].Some? then data[index].value else []
  }

  /** A calendar's row: its manual events, then its imported events. */
  function RowOf(calendar: Calendar, manual: seq<EventRecord>, imported: seq<EventRecord>): (r: Row)
    ensures r.calendar == calendar
    ensures |r.events| == |manual| + |imported|
    ensures forall k :: 0 <= k < |manual| ==> r.events[k] == Tag(calendar, manual[k], Manual)
    ensures forall k :: 0 <= k < |imported| ==> r.events[|manual| + k] == Tag(calendar, imported[k], Imported)
  {
    Row(calendar, TagAll(calendar, manual, Manual) + TagAll(calendar, imported, Imported))
  }

  /** `rows`: one row per calendar, in calendar order. */
  function Rows(calendars: seq<Calendar>, manualData: seq<Option<seq<EventRecord>>>,
                importedData: seq<Option<seq<EventRecord>>>): (r: seq<Row>)
    ensures |r| == |calendars|
    ensures forall i :: 0 <= i < |calendars| ==>
      r[i] == RowOf(calendars[i], DataAt(manualData, i), DataAt(importedData, i))
  {
    seq(|calendars|, i requires 0 <= i < |calendars| =>
      RowOf(calendars[i], DataAt(manualData, i), DataAt(importedData, i)))
  }

  /** Every event of a row carries the row's calendar colour, and manual events come first. */
  lemma RowEventsTagged(calendar: Calendar, manual: seq<EventRecord>, imported: seq<EventRecord>)
    ensures var r := RowOf(calendar, manual, imported);
      && (forall e :: e in r.events ==> e.calendarColor == calendar.color)
      && (forall k :: 0 <= k < |r.events| ==> (r.events[k].source == Manual <==> k < |manual|))
  {
    var r := RowOf(calendar, manual, imported);
    forall e | e in r.events ensures e.calendarColor == calendar.color {
      var k :| 0 <= k < |r.events| && r.events[k] == e;
      if k >= |manual| { assert r.events[|manual| + (k - |manual|)] == e; }
    }
    forall k | 0 <= k < |r.events| ensures r.events[k].source == Manual <==> k < |manual| {
      if k >= |manual| { assert r.events[|manual| + (k - |manual|)] == r.events[k]; }
    }
  }

  /**
   * The i-th row belongs to the i-th calendar and holds its manual events, then
   * its imported events, each in query order and in the calendar's colour; a
   * query without data contributes nothing.
   */
  lemma RowsTagged(calendars: seq<Calendar>, manualData: seq<Option<seq<EventRecord>>>,
                   importedData: seq<Option<seq<EventRecord>>>, i: int)
    requires 0 <= i < |calendars|
    ensures var row := Rows(calendars, manualData, importedData)[i];
      var manual := DataAt(manualData, i);
      var imported := DataAt(importedData, i);
      && row.calendar == calendars[i]
      && |row.events| == |manual| + |imported|
      && (forall e :: e in row.events ==> e.calendarColor == calendars[i].color)
      && (forall k :: 0 <= k < |manual| ==> row.events[k].id == manual[k].id && row.events[k].source == Manual)
      && (forall k :: 0 <= k < |imported| ==>
            row.events[|manual| + k].id == imported[k].id && row.events[|manual| + k].source == Imported)
      && (i >= |manualData| || manualData[i].None? ==> forall e :: e in row.events ==> e.source == Imported)
  {
    var manual := DataAt(manualData, i);
    var imported := DataAt(importedData, i);
    RowEventsTagged(calendars[i], manual, imported);
  }

  /** `isLoading`: the calendar list or any per-calendar query is loading. */
  predicate IsLoading(calendarsLoading: bool, bookingLoading: seq<bool>, importedLoading: seq<bool>)
  {
    calendarsLoading || true in bookingLoading || true in importedLoading
  }
}
