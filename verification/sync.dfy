/**
 * Subscription reconciliation, the algorithm the manual sync handler
 * (supabase/functions/ics-sync/index.ts), the cron driver
 * (supabase/functions/ics_cron/index.ts) and the sync route of the API
 * (supabase/functions/ics_api/index.ts) each carry a copy of: the delta between
 * the stored UIDs of a subscription and a freshly parsed feed, the upsert and
 * stale-delete batches, the sync log row and the rescheduling.
 *
 * Storage is the class `Store`: the `imported_events` table as a map keyed by
 * (subscription_id, source_uid), the append-only `sync_logs` table and the
 * `subscriptions` table. Whether a storage call fails is an input (`Faults`).
 * Timestamps are milliseconds since the epoch; one `now` stands for every
 * clock reading of an attempt.
 */
module Sync {
  import opened JsText
  import opened CivilDate
  import opened IcsTypes
  import IcsCodec
  import Net

  datatype Key = Key(subscriptionId: string, sourceUid: string)

  /** A row of `imported_events`. */
  datatype ImportedRow = ImportedRow(userId: string, calendarId: string, subscriptionId: string,
                                     sourceUid: string, startDate: string, endDate: string,
                                     summary: string, status: string, updatedAt: int)

  function RowKey(r: ImportedRow): Key { Key(r.subscriptionId, r.sourceUid) }

  /** A row of `sync_logs`; the direction is always "import". */
  datatype SyncLog = SyncLog(calendarId: string, subscriptionId: string, direction: string,
                             status: string, message: Option<string>, added: nat, updated: nat,
                             removed: nat, ranAt: int, httpStatus: Option<int>, bytes: Option<nat>,
                             veventCount: Option<nat>)

  /** A row of `subscriptions`; `owner` is the `user_id` of its calendar, if that calendar exists. */
  datatype Subscription = Subscription(id: string, calendarId: string, icalUrl: string,
                                       pollIntervalSec: int, enabled: bool, owner: Option<string>,
                                       nextDueAt: int, lastSyncedAt: Option<int>,
                                       lastStatus: Option<int>, lastError: Option<string>)

  /** The message of the error each storage call of an attempt throws, if it fails. */
  datatype Faults = Faults(existing: Option<string>, upsert: Option<string>, delete: Option<string>)

  /** The telemetry of one attempt: what was computed before the first error, if any. */
  datatype Attempt = Attempt(lastError: Option<string>, added: nat, updated: nat, removed: nat,
                             httpStatus: Option<int>, bytes: Option<nat>, veventCount: Option<nat>)

  // ---------------------------------------------------------------- storage

  /**
   * The message of the error Postgres raises for an `INSERT ... ON CONFLICT DO
   * UPDATE` batch in which two rows carry the same conflict key.
   */
  const DuplicateKeyMessage := "ON CONFLICT DO UPDATE command cannot affect row a second time"

  /** No two rows of the batch share a (subscription_id, source_uid) key. */
  predicate DistinctKeys(rows: seq<ImportedRow>)
  {
    forall i, j :: 0 <= i < j < |rows| ==> RowKey(rows[i]) != RowKey(rows[j])
  }

  /** The effect of an accepted `upsert(rows, { onConflict: "subscription_id,source_uid" })`, row by row. */
  function UpsertAll(m: map<Key, ImportedRow>, rows: seq<ImportedRow>): map<Key, ImportedRow>
    decreases |rows|
  {
    if rows == [] then m else UpsertAll(m[RowKey(rows[0]) := rows[0]], rows[1..])
  }

  /** `delete().eq("subscription_id", sub).in("source_uid", uids)`. */
  function DeleteAll(m: map<Key, ImportedRow>, subscriptionId: string, uids: set<string>): (r: map<Key, ImportedRow>)
    ensures forall k :: k in r <==> k in m && !(k.subscriptionId == subscriptionId && k.sourceUid in uids)
    ensures forall k :: k in r ==> r[k] == m[k]
  {
    map k | k in m && !(k.subscriptionId == subscriptionId && k.sourceUid in uids) :: m[k]
  }

  /** The UIDs stored for one subscription. */
  function UidsIn(m: map<Key, ImportedRow>, subscriptionId: string): set<string>
  {
    set k | k in m && k.subscriptionId == subscriptionId :: k.sourceUid
  }

  /** `update({ last_synced_at, last_status, last_error, next_due_at }).eq("id", id)`. */
  function Rescheduled(subs: seq<Subscription>, id: string, syncedAt: int, status: Option<int>,
                       error: Option<string>, nextDue: int): (r: seq<Subscription>)
    ensures |r| == |subs|
    ensures forall i :: 0 <= i < |subs| && subs[i].id != id ==> r[i] == subs[i]
    ensures forall i :: 0 <= i < |subs| && subs[i].id == id ==>
      r[i] == subs[i].(lastSyncedAt := Some(syncedAt), lastStatus := status, lastError := error, nextDueAt := nextDue)
  {
    seq(|subs|, i requires 0 <= i < |subs| =>
      if subs[i].id == id
      then subs[i].(lastSyncedAt := Some(syncedAt), lastStatus := status, lastError := error, nextDueAt := nextDue)
      else subs[i])
  }

  class Store {
    var imported: map<Key, ImportedRow>
    var logs: seq<SyncLog>
    var subscriptions: seq<Subscription>

    constructor (imported: map<Key, ImportedRow>, logs: seq<SyncLog>, subscriptions: seq<Subscription>)
      ensures this.imported == imported && this.logs == logs && this.subscriptions == subscriptions
    {
      this.imported := imported;
      this.logs := logs;
      this.subscriptions := subscriptions;
    }

    function UidsOf(subscriptionId: string): set<string>
      reads this
    {
      UidsIn(imported, subscriptionId)
    }

    /** The upsert batch: a batch that repeats a key is rejected as a whole and changes nothing. */
    method Upsert(rows: seq<ImportedRow>) returns (error: Option<string>)
      modifies this
      ensures error.Some? <==> !DistinctKeys(rows)
      ensures error.Some? ==> error.value == DuplicateKeyMessage
      ensures imported == if error.Some? then old(imported) else UpsertAll(old(imported), rows)
      ensures logs == old(logs) && subscriptions == old(subscriptions)
    {
      if !DistinctKeys(rows) {
        return Some(DuplicateKeyMessage);
      }
      imported := UpsertAll(imported, rows);
      error := None;
    }

    method Delete(subscriptionId: string, uids: set<string>)
      modifies this
      ensures imported == DeleteAll(old(imported), subscriptionId, uids)
      ensures logs == old(logs) && subscriptions == old(subscriptions)
    {
      imported := DeleteAll(imported, subscriptionId, uids);
    }

    method InsertLog(entry: SyncLog)
      modifies this
      ensures logs == old(logs) + [entry]
      ensures imported == old(imported) && subscriptions == old(subscriptions)
    {
      logs := logs + [entry];
    }

    method Reschedule(id: string, syncedAt: int, status: Option<int>, error: Option<string>, nextDue: int)
      modifies this
      ensures subscriptions == Rescheduled(old(subscriptions), id, syncedAt, status, error, nextDue)
      ensures imported == old(imported) && logs == old(logs)
    {
      subscriptions := Rescheduled(subscriptions, id, syncedAt, status, error, nextDue);
    }
  }

  // ---------------------------------------------------------------- the delta

  /** The stored status: "cancelled" for a cancelled event, "confirmed" otherwise. */
  function RowStatus(s: IcsStatus): string
  {
    if s == Cancelled then "cancelled" else "confirmed"
  }

  /** The number of parsed events, counted with repetition, whose UID is not stored yet. */
  function NewCount(existing: set<string>, events: seq<IcsEvent>): (r: nat)
    ensures r <= |events|
  {
    if events == [] then 0
    else (if events[0].uid in existing then 0 else 1) + NewCount(existing, events[1..])
  }

  function Uids(events: seq<IcsEvent>): set<string>
  {
    set i | 0 <= i < |events| :: events[i].uid
  }

  /** The upsert row of a parsed event. */
  function UpsertRow(e: IcsEvent, userId: string, calendarId: string, subscriptionId: string, now: int): ImportedRow
  {
    ImportedRow(userId, calendarId, subscriptionId, e.uid, e.start, e.end, e.summary, RowStatus(e.status), now)
  }

  /** One upsert row per parsed event, in order. */
  function UpsertRows(events: seq<IcsEvent>, userId: string, calendarId: string, subscriptionId: string,
                      now: int): (r: seq<ImportedRow>)
    ensures |r| == |events|
    ensures forall i :: 0 <= i < |events| ==> r[i] == UpsertRow(events[i], userId, calendarId, subscriptionId, now)
  {
    seq(|events|, i requires 0 <= i < |events| => UpsertRow(events[i], userId, calendarId, subscriptionId, now))
  }

  /** No UID occurs twice in the parsed feed. */
  predicate DistinctUids(events: seq<IcsEvent>)
  {
    forall i, j :: 0 <= i < j < |events| ==> events[i].uid != events[j].uid
  }

  /** The upsert rows of a feed repeat a key exactly when the feed repeats a UID. */
  lemma UpsertRowsDistinct(events: seq<IcsEvent>, userId: string, calendarId: string, subscriptionId: string,
                           now: int)
    ensures DistinctKeys(UpsertRows(events, userId, calendarId, subscriptionId, now)) <==> DistinctUids(events)
  {
    var rows := UpsertRows(events, userId, calendarId, subscriptionId, now);
    assert forall i :: 0 <= i < |rows| ==> RowKey(rows[i]) == Key(subscriptionId, events[i].uid);
  }

  /** The stored UIDs the feed no longer carries. */
  function Stale(existing: set<string>, events: seq<IcsEvent>): set<string>
  {
    existing - Uids(events)
  }

  /** A re-run over the same feed finds nothing new. */
  lemma {:induction false} NothingNewWhenKnown(existing: set<string>, events: seq<IcsEvent>)
    requires Uids(events) <= existing
    ensures NewCount(existing, events) == 0
  {
    if events != [] {
      assert events[0].uid in Uids(events);
      assert Uids(events[1..]) <= Uids(events) by {
        forall u | u in Uids(events[1..]) ensures u in Uids(events) {
          var i :| 0 <= i < |events[1..]| && events[1..][i].uid == u;
          assert events[i + 1].uid == u;
        }
      }
      NothingNewWhenKnown(existing, events[1..]);
    }
  }

  /** Against an empty store every parsed event counts as added. */
  lemma {:induction false} AllNewWhenUnknown(existing: set<string>, events: seq<IcsEvent>)
    requires existing !! Uids(events)
    ensures NewCount(existing, events) == |events|
  {
    if events != [] {
      assert events[0].uid in Uids(events);
      assert Uids(events[1..]) <= Uids(events) by {
        forall u | u in Uids(events[1..]) ensures u in Uids(events) {
          var i :| 0 <= i < |events[1..]| && events[1..][i].uid == u;
          assert events[i + 1].uid == u;
        }
      }
      AllNewWhenUnknown(existing, events[1..]);
    }
  }

  /**
   * Re-running a sync whose stored UIDs are exactly those of an unchanged feed
   * adds nothing, removes nothing and updates every parsed event.
   */
  lemma ResyncIsStable(existing: set<string>, events: seq<IcsEvent>)
    requires existing == Uids(events)
    ensures NewCount(existing, events) == 0
    ensures |events| - NewCount(existing, events) == |events|
    ensures Stale(existing, events) == {}
  {
    NothingNewWhenKnown(existing, events);
  }

  function RowKeys(rows: seq<ImportedRow>): set<Key>
  {
    set i | 0 <= i < |rows| :: RowKey(rows[i])
  }

  lemma RowKeysCons(rows: seq<ImportedRow>)
    requires rows != []
    ensures RowKeys(rows) == {RowKey(rows[0])} + RowKeys(rows[1..])
  {
    forall k | k in RowKeys(rows) ensures k in {RowKey(rows[0])} + RowKeys(rows[1..]) {
      var i :| 0 <= i < |rows| && RowKey(rows[i]) == k;
      if i > 0 {
        assert RowKey(rows[1..][i - 1]) == k;
      }
    }
    forall k | k in RowKeys(rows[1..]) ensures k in RowKeys(rows) {
      var i :| 0 <= i < |rows[1..]| && RowKey(rows[1..][i]) == k;
      assert RowKey(rows[i + 1]) == k;
    }
  }

  /** The upsert adds exactly the keys of its rows and leaves every other row as it was. */
  lemma {:induction false} UpsertAllKeys(m: map<Key, ImportedRow>, rows: seq<ImportedRow>)
    ensures UpsertAll(m, rows).Keys == m.Keys + RowKeys(rows)
    ensures forall k :: k in m && k !in RowKeys(rows) ==> UpsertAll(m, rows)[k] == m[k]
    decreases |rows|
  {
    if rows != [] {
      RowKeysCons(rows);
      UpsertAllKeys(m[RowKey(rows[0]) := rows[0]], rows[1..]);
    }
  }

  /**
   * The batch with only the last row of every key, in order: what the upsert
   * would need to be handed for a feed that repeats a UID to sync.
   */
  function LastPerKey(rows: seq<ImportedRow>): (r: seq<ImportedRow>)
    ensures |r| <= |rows|
  {
    if rows == [] then []
    else if RowKey(rows[0]) in RowKeys(rows[1..]) then LastPerKey(rows[1..])
    else [rows[0]] + LastPerKey(rows[1..])
  }

  /**
   * Keeping the last row of every key gives a batch the database accepts, with
   * the same keys, that stores what applying every row in order would store.
   */
  lemma {:induction false} LastPerKeyUpsert(m: map<Key, ImportedRow>, rows: seq<ImportedRow>)
    ensures DistinctKeys(LastPerKey(rows))
    ensures RowKeys(LastPerKey(rows)) == RowKeys(rows)
    ensures UpsertAll(m, LastPerKey(rows)) == UpsertAll(m, rows)
    decreases |rows|
  {
    if rows != [] {
      var k := RowKey(rows[0]);
      var tail := LastPerKey(rows[1..]);
      RowKeysCons(rows);
      if k in RowKeys(rows[1..]) {
        LastPerKeyUpsert(m, rows[1..]);
        UpsertOverwritten(m, k, rows[0], rows[1..]);
      } else {
        LastPerKeyUpsert(m[k := rows[0]], rows[1..]);
        var r := [rows[0]] + tail;
        assert r[1..] == tail;
        RowKeysCons(r);
        forall j | 0 < j < |r| ensures RowKey(r[j]) != k {
          assert RowKey(tail[j - 1]) in RowKeys(tail);
        }
        forall i, j | 0 <= i < j < |r| ensures RowKey(r[i]) != RowKey(r[j]) {
          if i > 0 {
            assert r[i] == tail[i - 1] && r[j] == tail[j - 1];
          }
        }
      }
    }
  }

  /** A value written under a key that a later row of the batch writes again is overwritten. */
  lemma {:induction false} UpsertOverwritten(m: map<Key, ImportedRow>, k: Key, v: ImportedRow, rows: seq<ImportedRow>)
    requires k in RowKeys(rows)
    ensures UpsertAll(m[k := v], rows) == UpsertAll(m, rows)
    decreases |rows|
  {
    var k0 := RowKey(rows[0]);
    RowKeysCons(rows);
    if k0 == k {
      assert m[k := v][k0 := rows[0]] == m[k0 := rows[0]];
    } else {
      assert m[k := v][k0 := rows[0]] == m[k0 := rows[0]][k := v];
      UpsertOverwritten(m[k0 := rows[0]], k, v, rows[1..]);
    }
  }

  /**
   * After the upsert of one row per parsed event and the delete of the stale
   * UIDs, the subscription holds exactly the parsed UIDs, and the rows of every
   * other subscription are untouched.
   */
  lemma ReconcileExact(m: map<Key, ImportedRow>, events: seq<IcsEvent>, userId: string, calendarId: string,
                       subscriptionId: string, now: int)
    ensures var after := DeleteAll(UpsertAll(m, UpsertRows(events, userId, calendarId, subscriptionId, now)),
                                   subscriptionId, Stale(UidsIn(m, subscriptionId), events));
      UidsIn(after, subscriptionId) == Uids(events)
      && (forall k: Key :: k.subscriptionId != subscriptionId ==> (k in after <==> k in m))
      && (forall k :: k in m && k.subscriptionId != subscriptionId ==> after[k] == m[k])
  {
    var rows := UpsertRows(events, userId, calendarId, subscriptionId, now);
    UpsertAllKeys(m, rows);
    UpsertRowKeys(events, userId, calendarId, subscriptionId, now);
    ReconcileUids(m, rows, events, subscriptionId);
  }

  /** The upsert rows of a feed are keyed by exactly its UIDs under the subscription. */
  lemma UpsertRowKeys(events: seq<IcsEvent>, userId: string, calendarId: string, subscriptionId: string, now: int)
    ensures forall k :: k in RowKeys(UpsertRows(events, userId, calendarId, subscriptionId, now)) <==>
      k.subscriptionId == subscriptionId && k.sourceUid in Uids(events)
  {
    var rows := UpsertRows(events, userId, calendarId, subscriptionId, now);
    forall k | k in RowKeys(rows) ensures k.subscriptionId == subscriptionId && k.sourceUid in Uids(events) {
      var i :| 0 <= i < |rows| && RowKey(rows[i]) == k;
      assert events[i].uid == k.sourceUid;
    }
    forall k: Key | k.subscriptionId == subscriptionId && k.sourceUid in Uids(events) ensures k in RowKeys(rows) {
      var i :| 0 <= i < |events| && events[i].uid == k.sourceUid;
      assert RowKey(rows[i]) == k;
    }
  }

  /** The upsert of a feed's rows leaves every other subscription's rows as they were. */
  lemma UpsertKeepsOthers(m: map<Key, ImportedRow>, events: seq<IcsEvent>, userId: string, calendarId: string,
                          subscriptionId: string, now: int)
    ensures var up := UpsertAll(m, UpsertRows(events, userId, calendarId, subscriptionId, now));
      && (forall k: Key :: k.subscriptionId != subscriptionId ==> (k in up <==> k in m))
      && (forall k :: k in m && k.subscriptionId != subscriptionId ==> up[k] == m[k])
  {
    var rows := UpsertRows(events, userId, calendarId, subscriptionId, now);
    UpsertAllKeys(m, rows);
    UpsertRowKeys(events, userId, calendarId, subscriptionId, now);
  }

  lemma ReconcileUids(m: map<Key, ImportedRow>, rows: seq<ImportedRow>, events: seq<IcsEvent>, subscriptionId: string)
    requires forall k :: k in RowKeys(rows) <==> k.subscriptionId == subscriptionId && k.sourceUid in Uids(events)
    requires UpsertAll(m, rows).Keys == m.Keys + RowKeys(rows)
    ensures UidsIn(DeleteAll(UpsertAll(m, rows), subscriptionId, Stale(UidsIn(m, subscriptionId), events)),
                   subscriptionId) == Uids(events)
  {
    var after := DeleteAll(UpsertAll(m, rows), subscriptionId, Stale(UidsIn(m, subscriptionId), events));
    forall u | u in Uids(events) ensures u in UidsIn(after, subscriptionId) {
      assert Key(subscriptionId, u) in RowKeys(rows);
      assert Key(subscriptionId, u) in after;
    }
    forall u | u in UidsIn(after, subscriptionId) ensures u in Uids(events) {
      var k :| k in after && k.subscriptionId == subscriptionId && k.sourceUid == u;
      if k in m {
        assert u in UidsIn(m, subscriptionId);
      }
    }
  }

  /**
   * The imported rows after both storage batches of a sync succeed: one row
   * upserted per parsed event, then the subscription's stale UIDs deleted.
   */
  function Reconciled(m: map<Key, ImportedRow>, sub: Subscription, userId: string, events: seq<IcsEvent>,
                      now: int): map<Key, ImportedRow>
  {
    DeleteAll(UpsertAll(m, UpsertRows(events, userId, sub.calendarId, sub.id, now)), sub.id,
              Stale(UidsIn(m, sub.id), events))
  }

  lemma DistinctKeysTail(rows: seq<ImportedRow>)
    requires rows != [] && DistinctKeys(rows)
    ensures DistinctKeys(rows[1..]) && RowKey(rows[0]) !in RowKeys(rows[1..])
  {
    forall a, b | 0 <= a < b < |rows[1..]| ensures RowKey(rows[1..][a]) != RowKey(rows[1..][b]) {
      assert rows[1..][a] == rows[a + 1] && rows[1..][b] == rows[b + 1];
    }
    forall j | 0 <= j < |rows[1..]| ensures RowKey(rows[1..][j]) != RowKey(rows[0]) {
      assert rows[1..][j] == rows[j + 1];
    }
  }

  /** When no two rows share a key, each row of the batch is what the upsert leaves under its key. */
  lemma {:induction false} UpsertAllAt(m: map<Key, ImportedRow>, rows: seq<ImportedRow>, i: int)
    requires DistinctKeys(rows) && 0 <= i < |rows|
    ensures RowKey(rows[i]) in UpsertAll(m, rows) && UpsertAll(m, rows)[RowKey(rows[i])] == rows[i]
    decreases |rows|
  {
    var m1 := m[RowKey(rows[0]) := rows[0]];
    DistinctKeysTail(rows);
    if i == 0 {
      UpsertAllKeys(m1, rows[1..]);
    } else {
      UpsertAllAt(m1, rows[1..], i - 1);
      assert rows[1..][i - 1] == rows[i];
    }
  }

  /**
   * After a completed sync of a feed without repeated UIDs, every parsed event
   * is stored under its UID as the row the upsert writes: the owner and
   * calendar given, its dates and summary, its status lowered to "cancelled"
   * or "confirmed", and `now` as its `synced_at`.
   */
  lemma ReconciledRows(m: map<Key, ImportedRow>, sub: Subscription, userId: string, events: seq<IcsEvent>,
                       now: int, i: int)
    requires DistinctUids(events) && 0 <= i < |events|
    ensures var r := Reconciled(m, sub, userId, events, now);
      var k := Key(sub.id, events[i].uid);
      && k in r
      && r[k] == ImportedRow(userId, sub.calendarId, sub.id, events[i].uid, events[i].start, events[i].end,
                             events[i].summary, RowStatus(events[i].status), now)
      && (r[k].status == "cancelled" || r[k].status == "confirmed")
      && (r[k].status == "cancelled" <==> events[i].status == Cancelled)
  {
    var rows := UpsertRows(events, userId, sub.calendarId, sub.id, now);
    UpsertRowsDistinct(events, userId, sub.calendarId, sub.id, now);
    UpsertAllAt(m, rows, i);
    assert events[i].uid in Uids(events);
  }

  /** ReconciledRows for every parsed event at once. */
  lemma ReconciledAll(m: map<Key, ImportedRow>, sub: Subscription, userId: string, events: seq<IcsEvent>, now: int)
    requires DistinctUids(events)
    ensures var r := Reconciled(m, sub, userId, events, now);
      forall i :: 0 <= i < |events| ==>
        && Key(sub.id, events[i].uid) in r
        && r[Key(sub.id, events[i].uid)] == UpsertRow(events[i], userId, sub.calendarId, sub.id, now)
  {
    forall i | 0 <= i < |events|
      ensures Key(sub.id, events[i].uid) in Reconciled(m, sub, userId, events, now)
      ensures Reconciled(m, sub, userId, events, now)[Key(sub.id, events[i].uid)]
        == UpsertRow(events[i], userId, sub.calendarId, sub.id, now)
    {
      ReconciledRows(m, sub, userId, events, now, i);
    }
  }

  /**
   * Conversely, every row the subscription holds after a completed sync is
   * the upsert row of a parsed event with its UID.
   */
  lemma ReconciledOnlyParsed(m: map<Key, ImportedRow>, sub: Subscription, userId: string, events: seq<IcsEvent>,
                             now: int, k: Key)
    requires DistinctUids(events)
    requires k in Reconciled(m, sub, userId, events, now) && k.subscriptionId == sub.id
    ensures exists i ::
      && 0 <= i < |events| && events[i].uid == k.sourceUid
      && Reconciled(m, sub, userId, events, now)[k] == UpsertRow(events[i], userId, sub.calendarId, sub.id, now)
  {
    ReconcileExact(m, events, userId, sub.calendarId, sub.id, now);
    assert k.sourceUid in UidsIn(Reconciled(m, sub, userId, events, now), sub.id);
    var i :| 0 <= i < |events| && events[i].uid == k.sourceUid;
    ReconciledRows(m, sub, userId, events, now, i);
  }

  // ---------------------------------------------------------------- one attempt

  /** `status: lastError ? "error" : "success"`. */
  function LogStatus(lastError: Option<string>): string
  {
    if Truthy(lastError) then "error" else "success"
  }

  /** The log row an attempt writes. */
  function LogOf(sub: Subscription, logSubscriptionId: string, a: Attempt, startedAt: int): SyncLog
  {
    SyncLog(sub.calendarId, logSubscriptionId, "import", LogStatus(a.lastError), a.lastError,
            a.added, a.updated, a.removed, startedAt, a.httpStatus, a.bytes, a.veventCount)
  }

  /** `new Date(Date.now() + Number(sub.poll_interval_sec) * 1000)`. */
  function NextDue(now: int, sub: Subscription): int
  {
    now + sub.pollIntervalSec * 1000
  }

  /** `Fetch failed: <status>`. */
  function FetchFailedMessage(status: int): string
  {
    "Fetch failed: " + IntToString(status)
  }

  predicate IsOk(status: int) { 200 <= status < 300 }

  /** The message recorded for an error the fetch throws. */
  function FetchError(r: Net.FetchResult): string
    requires !r.Fetched?
  {
    if r.Failed? then r.reason else r.message
  }

  /** The message `requireUserId` throws, answered with 401 by the handlers. */
  const UnauthorizedMessage := "Unauthorized"

  /** The URL options of the handlers: port 80 joins 443 only when plain http is allowed. */
  function HandlerUrlOptions(allowHttp: bool): (r: Net.UrlOptions)
    ensures Net.NormalizeOptions(r).allowHttp == allowHttp
    ensures 443 in Net.NormalizeOptions(r).allowedPorts
    ensures 80 in Net.NormalizeOptions(r).allowedPorts <==> allowHttp
  {
    Net.UrlOptions(Some(allowHttp), Some(if allowHttp then [80, 443] else [443]))
  }

  /** `fetchLimits` of the handlers: 10 s, 2 000 000 bytes, 3 redirects. */
  function HandlerLimits(allowHttp: bool): (r: Net.FetchLimits)
    ensures r.url == HandlerUrlOptions(allowHttp)
    ensures Net.MaxBytes(r) == 2000000 && Net.MaxRedirects(r) == 3 && Net.RequestCap(r) == 4
  {
    Net.FetchLimits(HandlerUrlOptions(allowHttp), Some(10000), Some(2000000), Some(3))
  }

  /** `.from("subscriptions").select(...).eq("id", id).single()`: the row with that id, if any. */
  function FindSubscription(subs: seq<Subscription>, id: string): (r: Option<Subscription>)
    ensures r.Some? ==> r.value in subs && r.value.id == id
    ensures r.None? <==> forall i :: 0 <= i < |subs| ==> subs[i].id != id
  {
    if subs == [] then None
    else if subs[0].id == id then Some(subs[0])
    else FindSubscription(subs[1..], id)
  }

  /**
   * The attempt of a sync that stops before the feed is parsed: an error thrown at
   * the head of the block, a failed read of the stored UIDs, a fetch that throws,
   * or a status outside 2xx. None when the sync goes on to parse the feed.
   */
  function EarlyStop(sub: Subscription, precheck: Option<string>, limits: Net.FetchLimits, w: Net.World,
                     faults: Faults): (r: Option<Attempt>)
    ensures r.Some? ==> r.value.lastError.Some? && r.value.added == r.value.updated == r.value.removed == 0
    ensures r.Some? ==> r.value.veventCount.None?
    ensures r.None? ==> precheck.None? && Net.Fetch(sub.icalUrl, limits, w).Fetched?
  {
    if precheck.Some? then Some(Attempt(precheck, 0, 0, 0, None, None, None))
    else if faults.existing.Some? then Some(Attempt(faults.existing, 0, 0, 0, None, None, None))
    else
      var fetched := Net.Fetch(sub.icalUrl, limits, w);
      if !fetched.Fetched? then Some(Attempt(Some(FetchError(fetched)), 0, 0, 0, None, None, None))
      else if !IsOk(fetched.status) then
        Some(Attempt(Some(FetchFailedMessage(fetched.status)), 0, 0, 0, Some(fetched.status), Some(fetched.bytes), None))
      else None
  }

  /** A status outside 2xx is logged as an error, with the status as its message. */
  lemma FetchFailedLogsError(sub: Subscription, precheck: Option<string>, limits: Net.FetchLimits, w: Net.World,
                             faults: Faults, logSubscriptionId: string, now: int)
    requires precheck.None? && faults.existing.None?
    requires Net.Fetch(sub.icalUrl, limits, w).Fetched? && !IsOk(Net.Fetch(sub.icalUrl, limits, w).status)
    ensures EarlyStop(sub, precheck, limits, w, faults).Some?
    ensures var a := EarlyStop(sub, precheck, limits, w, faults).value;
      var log := LogOf(sub, logSubscriptionId, a, now);
      log.status == "error" && log.httpStatus == Some(Net.Fetch(sub.icalUrl, limits, w).status)
      && log.message == Some(FetchFailedMessage(Net.Fetch(sub.icalUrl, limits, w).status))
  {
  }

  /**
   * The `try` block of a sync with its `catch`: `precheck` is an error thrown at
   * the head of the block (the cron driver's owner and URL checks) and `userId`
   * owns the upserted rows. Only the imported rows of `sub` can change.
   */
  method TrySync(store: Store, sub: Subscription, userId: string, precheck: Option<string>,
                 limits: Net.FetchLimits, w: Net.World, today: Ymd, faults: Faults, now: int) returns (a: Attempt)
    requires Valid(today)
    modifies store
    ensures store.logs == old(store.logs) && store.subscriptions == old(store.subscriptions)
    ensures forall k: Key :: k.subscriptionId != sub.id ==> (k in store.imported <==> k in old(store.imported))
    ensures forall k :: k in old(store.imported) && k.subscriptionId != sub.id ==> store.imported[k] == old(store.imported)[k]
    ensures EarlyStop(sub, precheck, limits, w, faults).Some? ==>
      a == EarlyStop(sub, precheck, limits, w, faults).value && store.imported == old(store.imported)
    ensures a.lastError.None? <==> Synced(old(store.imported), sub, precheck, limits, w, faults, today)
    ensures a.lastError.None? ==> SyncedAs(a, old(store.imported), store.imported, sub, userId, limits, w, today, now)
    ensures store.imported == AfterAttempt(old(store.imported), sub, userId, precheck, limits, w, faults, today, now)
  {
    a := Attempt(None, 0, 0, 0, None, None, None);
    if precheck.Some? {
      a := a.(lastError := precheck);
      return;
    }
    if faults.existing.Some? {
      a := a.(lastError := faults.existing);
      return;
    }
    var existing := store.UidsOf(sub.id);
    var fetched, _ := Net.FetchTextWithLimits(sub.icalUrl, limits, w);
    if !fetched.Fetched? {
      a := a.(lastError := Some(FetchError(fetched)));
      return;
    }
    if !IsOk(fetched.status) {
      a := a.(lastError := Some(FetchFailedMessage(fetched.status)), httpStatus := Some(fetched.status),
              bytes := Some(fetched.bytes));
      return;
    }
    a := SyncFeed(store, sub, userId, precheck, limits, w, today, faults, now, existing, fetched);
  }

  /** The rest of the `try` block once the feed answered 2xx: parse, count, then the storage batches. */
  method SyncFeed(store: Store, sub: Subscription, userId: string, precheck: Option<string>,
                  limits: Net.FetchLimits, w: Net.World, today: Ymd, faults: Faults, now: int,
                  existing: set<string>, fetched: Net.FetchResult) returns (a: Attempt)
    requires Valid(today)
    requires precheck.None? && faults.existing.None?
    requires fetched == Net.Fetch(sub.icalUrl, limits, w) && fetched.Fetched? && IsOk(fetched.status)
    requires existing == store.UidsOf(sub.id)
    modifies store
    ensures store.logs == old(store.logs) && store.subscriptions == old(store.subscriptions)
    ensures forall k: Key :: k.subscriptionId != sub.id ==> (k in store.imported <==> k in old(store.imported))
    ensures forall k :: k in old(store.imported) && k.subscriptionId != sub.id ==> store.imported[k] == old(store.imported)[k]
    ensures a.httpStatus == Some(fetched.status) && a.bytes == Some(fetched.bytes)
    ensures a.lastError.None? <==> Synced(old(store.imported), sub, precheck, limits, w, faults, today)
    ensures a.lastError.None? ==> SyncedAs(a, old(store.imported), store.imported, sub, userId, limits, w, today, now)
    ensures store.imported == AfterAttempt(old(store.imported), sub, userId, precheck, limits, w, faults, today, now)
  {
    var events := IcsCodec.ParseIcs(fetched.text, today);
    var added := NewCount(existing, events);
    ghost var before := store.imported;
    var lastError, removed := Persist(store, sub, userId, existing, events, faults, now);
    a := Attempt(lastError, added, |events| - added, removed, Some(fetched.status), Some(fetched.bytes),
                 Some(|events|));
    if lastError.None? {
      assert DistinctUids(events);
      ReconciledAll(before, sub, userId, events, now);
    }
  }

  /**
   * The two storage batches of a sync: the upsert of one row per parsed event,
   * skipped when there are none, then the delete of the stale UIDs, skipped
   * when there are none. An error in the upsert stops before the delete.
   */
  method Persist(store: Store, sub: Subscription, userId: string, existing: set<string>,
                 events: seq<IcsEvent>, faults: Faults, now: int) returns (lastError: Option<string>, removed: nat)
    requires existing == store.UidsOf(sub.id)
    modifies store
    ensures store.logs == old(store.logs) && store.subscriptions == old(store.subscriptions)
    ensures forall k: Key :: k.subscriptionId != sub.id ==> (k in store.imported <==> k in old(store.imported))
    ensures forall k :: k in old(store.imported) && k.subscriptionId != sub.id ==> store.imported[k] == old(store.imported)[k]
    ensures lastError.None? <==>
      && (events == [] || (faults.upsert.None? && DistinctUids(events)))
      && (Stale(existing, events) == {} || faults.delete.None?)
    ensures lastError.None? ==> UidsIn(store.imported, sub.id) == Uids(events)
    ensures events != [] && (faults.upsert.Some? || !DistinctUids(events)) ==> store.imported == old(store.imported)
    ensures (events == [] || (faults.upsert.None? && DistinctUids(events))) &&
            Stale(existing, events) != {} && faults.delete.Some? ==>
      store.imported == UpsertAll(old(store.imported), UpsertRows(events, userId, sub.calendarId, sub.id, now))
    ensures lastError.None? ==> store.imported == Reconciled(old(store.imported), sub, userId, events, now)
    ensures removed == if events != [] && (faults.upsert.Some? || !DistinctUids(events)) then 0
                       else |Stale(existing, events)|
  {
    var rows := UpsertRows(events, userId, sub.calendarId, sub.id, now);
    ghost var before := store.imported;
    UpsertRowsDistinct(events, userId, sub.calendarId, sub.id, now);
    lastError := UpsertPhase(store, rows, faults.upsert);
    if lastError.Some? {
      return lastError, 0;
    }
    var stale := Stale(existing, events);
    removed := |stale|;
    UpsertKeepsOthers(before, events, userId, sub.calendarId, sub.id, now);
    lastError := DeletePhase(store, sub.id, stale, faults.delete);
    if lastError.None? {
      ReconcileExact(before, events, userId, sub.calendarId, sub.id, now);
    }
  }

  /**
   * The upsert batch, skipped when there are no rows. It fails with the injected
   * fault, or with the database's rejection when two rows share a key; a failed
   * batch changes nothing.
   */
  method UpsertPhase(store: Store, rows: seq<ImportedRow>, fault: Option<string>) returns (lastError: Option<string>)
    modifies store
    ensures store.logs == old(store.logs) && store.subscriptions == old(store.subscriptions)
    ensures lastError ==
      if rows == [] then None
      else if fault.Some? then fault
      else if !DistinctKeys(rows) then Some(DuplicateKeyMessage)
      else None
    ensures store.imported == if lastError.Some? then old(store.imported) else UpsertAll(old(store.imported), rows)
  {
    if |rows| > 0 {
      if fault.Some? {
        return fault;
      }
      lastError := store.Upsert(rows);
      return;
    } else {
      assert UpsertAll(store.imported, rows) == store.imported;
    }
    lastError := None;
  }

  /** The delete batch of the stale UIDs, skipped when there are none; a failed batch changes nothing. */
  method DeletePhase(store: Store, subscriptionId: string, stale: set<string>, fault: Option<string>)
    returns (lastError: Option<string>)
    modifies store
    ensures store.logs == old(store.logs) && store.subscriptions == old(store.subscriptions)
    ensures lastError == if stale != {} then fault else None
    ensures store.imported ==
      if lastError.Some? then old(store.imported) else DeleteAll(old(store.imported), subscriptionId, stale)
  {
    if |stale| > 0 {
      if fault.Some? {
        return fault;
      }
      store.Delete(subscriptionId, stale);
    } else {
      assert DeleteAll(store.imported, subscriptionId, stale) == store.imported;
    }
    lastError := None;
  }

  /**
   * The telemetry and the stored rows of a successful attempt: the feed has no
   * repeated UID, the subscription holds exactly its UIDs, and each parsed
   * event is stored as its upsert row.
   */
  predicate SyncedAs(a: Attempt, before: map<Key, ImportedRow>, after: map<Key, ImportedRow>, sub: Subscription,
                     userId: string, limits: Net.FetchLimits, w: Net.World, today: Ymd, now: int)
    requires Valid(today)
  {
    && Net.Fetch(sub.icalUrl, limits, w).Fetched?
    && var events := IcsCodec.ParseSpec(Net.Fetch(sub.icalUrl, limits, w).text, today);
    && a.veventCount == Some(|events|)
    && a.added == NewCount(UidsIn(before, sub.id), events)
    && a.added + a.updated == |events|
    && a.removed == |Stale(UidsIn(before, sub.id), events)|
    && UidsIn(after, sub.id) == Uids(events)
    && DistinctUids(events)
    && after == Reconciled(before, sub, userId, events, now)
    && (forall i :: 0 <= i < |events| ==>
          && Key(sub.id, events[i].uid) in after
          && after[Key(sub.id, events[i].uid)] == UpsertRow(events[i], userId, sub.calendarId, sub.id, now))
  }

  /**
   * The imported rows after the storage batches: unchanged when the upsert
   * fails, upserted but not pruned when the delete fails, reconciled otherwise.
   */
  function Persisted(m: map<Key, ImportedRow>, sub: Subscription, userId: string, events: seq<IcsEvent>,
                     faults: Faults, now: int): map<Key, ImportedRow>
  {
    if events != [] && (faults.upsert.Some? || !DistinctUids(events)) then m
    else if Stale(UidsIn(m, sub.id), events) != {} && faults.delete.Some?
    then UpsertAll(m, UpsertRows(events, userId, sub.calendarId, sub.id, now))
    else Reconciled(m, sub, userId, events, now)
  }

  /** The imported rows after one attempt: unchanged when it stops before parsing. */
  function AfterAttempt(m: map<Key, ImportedRow>, sub: Subscription, userId: string, precheck: Option<string>,
                        limits: Net.FetchLimits, w: Net.World, faults: Faults, today: Ymd, now: int)
    : map<Key, ImportedRow>
    requires Valid(today)
  {
    if EarlyStop(sub, precheck, limits, w, faults).Some? then m
    else Persisted(m, sub, userId, IcsCodec.ParseSpec(Net.Fetch(sub.icalUrl, limits, w).text, today), faults, now)
  }

  /**
   * One attempt of a sync: the `try` block, then exactly one log row and the
   * schedule update, whatever happened in the block.
   */
  method SyncAttempt(store: Store, sub: Subscription, logSubscriptionId: string, userId: string,
                     precheck: Option<string>, limits: Net.FetchLimits, w: Net.World, today: Ymd,
                     faults: Faults, now: int) returns (a: Attempt)
    requires Valid(today)
    modifies store
    ensures store.logs == old(store.logs) + [LogOf(sub, logSubscriptionId, a, now)]
    ensures store.subscriptions
      == Rescheduled(old(store.subscriptions), sub.id, now, a.httpStatus, a.lastError, NextDue(now, sub))
    ensures forall k: Key :: k.subscriptionId != sub.id ==> (k in store.imported <==> k in old(store.imported))
    ensures forall k :: k in old(store.imported) && k.subscriptionId != sub.id ==> store.imported[k] == old(store.imported)[k]
    ensures EarlyStop(sub, precheck, limits, w, faults).Some? ==>
      a == EarlyStop(sub, precheck, limits, w, faults).value && store.imported == old(store.imported)
    ensures a.lastError.None? <==> Synced(old(store.imported), sub, precheck, limits, w, faults, today)
    ensures a.lastError.None? ==> SyncedAs(a, old(store.imported), store.imported, sub, userId, limits, w, today, now)
    ensures store.imported == AfterAttempt(old(store.imported), sub, userId, precheck, limits, w, faults, today, now)
  {
    a := TrySync(store, sub, userId, precheck, limits, w, today, faults, now);
    store.InsertLog(LogOf(sub, logSubscriptionId, a, now));
    store.Reschedule(sub.id, now, a.httpStatus, a.lastError, NextDue(now, sub));
  }

  /**
   * An attempt ends without error exactly when nothing is thrown at its head,
   * the stored UIDs can be read, the fetch returns a 2xx response and each
   * storage batch that has rows to write succeeds.
   */
  predicate Synced(m: map<Key, ImportedRow>, sub: Subscription, precheck: Option<string>,
                   limits: Net.FetchLimits, w: Net.World, faults: Faults, today: Ymd)
    requires Valid(today)
  {
    && precheck.None? && faults.existing.None?
    && Net.Fetch(sub.icalUrl, limits, w).Fetched?
    && IsOk(Net.Fetch(sub.icalUrl, limits, w).status)
    && var events := IcsCodec.ParseSpec(Net.Fetch(sub.icalUrl, limits, w).text, today);
    && (events == [] || (faults.upsert.None? && DistinctUids(events)))
    && (Stale(UidsIn(m, sub.id), events) == {} || faults.delete.None?)
  }

  /**
   * A feed that repeats a UID, such as a recurring event with an overridden
   * instance, never syncs: every attempt on it ends with an error.
   */
  lemma RepeatedUidNeverSyncs(m: map<Key, ImportedRow>, sub: Subscription, precheck: Option<string>,
                              limits: Net.FetchLimits, w: Net.World, faults: Faults, today: Ymd, i: int, j: int)
    requires Valid(today)
    requires Net.Fetch(sub.icalUrl, limits, w).Fetched?
    requires var events := IcsCodec.ParseSpec(Net.Fetch(sub.icalUrl, limits, w).text, today);
      0 <= i < j < |events| && events[i].uid == events[j].uid
    ensures !Synced(m, sub, precheck, limits, w, faults, today)
  {
  }
}
