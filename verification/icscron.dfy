/**
 * The batch driver (supabase/functions/ics_cron/index.ts): the shared-secret
 * gate, the selection of due subscriptions, and the loop that runs one sync
 * attempt per selected subscription and counts the outcomes.
 */
module Cron {
  import opened JsText
  import opened CivilDate
  import Net
  import opened Sync

  /** The Postgres error code of a missing table, which the secret lookup tolerates. */
  const MissingTableCode := "42P01"
  const ForbiddenMessage := "Forbidden"
  const MissingOwnerMessage := "Missing calendar owner"
  /** `.limit(25)`. */
  const BatchLimit: nat := 25

  datatype CronBody = CronError(error: string) | NothingDue | Summary(processed: nat, okCount: nat, failedCount: nat)

  datatype Reply = Reply(status: int, body: CronBody)

  // ---------------------------------------------------------------- the secret gate

  /** The result of reading `ics_cron_settings` row 1: the row's secret, if any, or the error. */
  datatype SecretQuery = SecretRow(cronSecret: Option<string>) | SecretFailed(code: string, message: string)

  /** The env secret (empty when unset), replaced by a non-empty secret read without error. */
  function EffectiveSecret(env: Option<string>, q: SecretQuery): (r: string)
    ensures q.SecretRow? && Truthy(q.cronSecret) ==> r == q.cronSecret.value
    ensures !(q.SecretRow? && Truthy(q.cronSecret)) ==> r == (if env.Some? then env.value else "")
  {
    if q.SecretRow? && Truthy(q.cronSecret) then q.cronSecret.value
    else if env.Some? then env.value else ""
  }

  /**
   * The gate: an error other than a missing table is thrown (500 with its
   * message); otherwise the run goes on only when the effective secret is
   * non-empty and the `x-cron-secret` header equals it.
   */
  function SecretGate(header: Option<string>, env: Option<string>, q: SecretQuery): (r: Option<Reply>)
    ensures r.None? <==>
      && (q.SecretRow? || q.code == MissingTableCode)
      && EffectiveSecret(env, q) != []
      && header == Some(EffectiveSecret(env, q))
    ensures r.Some? ==> r.value.status in {403, 500}
  {
    if q.SecretFailed? && q.code != MissingTableCode then Some(Reply(500, CronError(q.message)))
    else
      var secret := EffectiveSecret(env, q);
      var provided := if header.Some? then header.value else "";
      if secret == [] || provided != secret then Some(Reply(403, CronError(ForbiddenMessage)))
      else None
  }

  /** A non-empty secret stored in the settings row decides alone: the env secret plays no part. */
  lemma StoredSecretOverridesEnv(header: Option<string>, env1: Option<string>, env2: Option<string>, s: string)
    requires s != []
    ensures SecretGate(header, env1, SecretRow(Some(s))) == SecretGate(header, env2, SecretRow(Some(s)))
    ensures SecretGate(header, env1, SecretRow(Some(s))).None? <==> header == Some(s)
  {
  }

  /** A missing settings table is the same as a missing row: the env secret decides. */
  lemma MissingTableFallsBack(header: Option<string>, env: Option<string>, message: string)
    ensures SecretGate(header, env, SecretFailed(MissingTableCode, message)) == SecretGate(header, env, SecretRow(None))
  {
  }

  // ---------------------------------------------------------------- due selection

  /**
   * `.eq("enabled", true).lte("next_due_at", now)` over the inner join with
   * `calendars`, which drops a subscription whose calendar is gone.
   */
  predicate IsDue(s: Subscription, now: int)
  {
    s.enabled && s.nextDueAt <= now && s.owner.Some?
  }

  function DueOf(subs: seq<Subscription>, now: int): (r: seq<Subscription>)
    ensures forall x :: x in r ==> IsDue(x, now) && x in subs
    ensures forall s :: s in subs && IsDue(s, now) ==> s in r
  {
    if subs == [] then []
    else
      assert subs == [subs[0]] + subs[1..];
      if IsDue(subs[0], now) then [subs[0]] + DueOf(subs[1..], now) else DueOf(subs[1..], now)
  }

  predicate SortedByDue(s: seq<Subscription>)
  {
    forall i, j :: 0 <= i < j < |s| ==> s[i].nextDueAt <= s[j].nextDueAt
  }

  /** Inserts `x` after every element due no later than it. */
  function InsertByDue(x: Subscription, s: seq<Subscription>): (r: seq<Subscription>)
    ensures |r| == |s| + 1
    ensures s == [] ==> r == [x]
    ensures s != [] ==> r[0] == x || r[0] == s[0]
  {
    if s == [] then [x]
    else if x.nextDueAt < s[0].nextDueAt then [x] + s
    else [s[0]] + InsertByDue(x, s[1..])
  }

  lemma {:induction false} InsertSorted(x: Subscription, s: seq<Subscription>)
    requires SortedByDue(s)
    ensures SortedByDue(InsertByDue(x, s))
  {
    if s != [] && x.nextDueAt >= s[0].nextDueAt {
      InsertSorted(x, s[1..]);
    }
  }

  lemma {:induction false} InsertPermutes(x: Subscription, s: seq<Subscription>)
    ensures multiset(InsertByDue(x, s)) == multiset(s) + multiset{x}
  {
    if s != [] && x.nextDueAt >= s[0].nextDueAt {
      InsertPermutes(x, s[1..]);
      assert s == [s[0]] + s[1..];
    }
  }

  /** `.order("next_due_at", { ascending: true })`, ties kept in table order. */
  function SortByDue(s: seq<Subscription>): (r: seq<Subscription>)
    ensures SortedByDue(r)
    ensures multiset(r) == multiset(s)
  {
    if s == [] then []
    else
      var rest := SortByDue(s[1..]);
      InsertSorted(s[0], rest);
      InsertPermutes(s[0], rest);
      assert s == [s[0]] + s[1..];
      InsertByDue(s[0], rest)
  }

  lemma PrefixMembers<T>(a: seq<T>, b: seq<T>, n: nat)
    requires multiset(a) == multiset(b) && n <= |a|
    ensures forall i :: 0 <= i < n ==> a[..n][i] in b
  {
    forall i | 0 <= i < n ensures a[..n][i] in b {
      assert a[i] in multiset(a);
    }
  }

  /** The batch: the due subscriptions, earliest first, at most 25 of them. */
  function Batch(subs: seq<Subscription>, now: int): (r: seq<Subscription>)
    ensures |r| <= BatchLimit
    ensures SortedByDue(r)
    ensures forall i :: 0 <= i < |r| ==> IsDue(r[i], now) && r[i] in subs
  {
    var due := DueOf(subs, now);
    var sorted := SortByDue(due);
    var n := if |sorted| < BatchLimit then |sorted| else BatchLimit;
    PrefixMembers(sorted, due, n);
    sorted[..n]
  }

  /**
   * The batch is the earliest of the due subscriptions: one left out leaves a
   * full batch, none of whose members is due later than it.
   */
  lemma BatchIsEarliest(subs: seq<Subscription>, now: int, s: Subscription)
    requires s in subs && IsDue(s, now) && s !in Batch(subs, now)
    ensures |Batch(subs, now)| == BatchLimit
    ensures forall i :: 0 <= i < BatchLimit ==> Batch(subs, now)[i].nextDueAt <= s.nextDueAt
  {
    var sorted := SortByDue(DueOf(subs, now));
    assert s in multiset(sorted);
    var k :| 0 <= k < |sorted| && sorted[k] == s;
  }

  // ---------------------------------------------------------------- the loop

  /** The errors thrown at the head of an item's `try` block: owner, then the stored URL. */
  function Precheck(sub: Subscription, allowHttp: bool, parse: string -> Option<Net.Url>): (r: Option<string>)
    ensures !Truthy(sub.owner) ==> r == Some(MissingOwnerMessage)
    ensures r.None? <==>
      Truthy(sub.owner) && Net.ValidateOutboundUrl(sub.icalUrl, HandlerUrlOptions(allowHttp), parse).Accepted?
  {
    if !Truthy(sub.owner) then Some(MissingOwnerMessage)
    else
      match Net.ValidateOutboundUrl(sub.icalUrl, HandlerUrlOptions(allowHttp), parse)
      case Rejected(reason) => Some("ical_url invalid: " + reason)
      case Accepted(_) => None
  }

  /** The log rows of the items synced so far, one per item, in batch order. */
  function BatchLogs(batch: seq<Subscription>, attempts: seq<Attempt>, now: int): (r: seq<SyncLog>)
    requires |attempts| == |batch|
    ensures |r| == |batch|
  {
    if batch == [] then []
    else
      var n := |batch| - 1;
      BatchLogs(batch[..n], attempts[..n], now) + [LogOf(batch[n], batch[n].id, attempts[n], now)]
  }

  /** Item `i` of the batch writes log row `i`. */
  lemma {:induction false} BatchLogsAt(batch: seq<Subscription>, attempts: seq<Attempt>, now: int, i: nat)
    requires |attempts| == |batch| && i < |batch|
    ensures BatchLogs(batch, attempts, now)[i] == LogOf(batch[i], batch[i].id, attempts[i], now)
    decreases |batch|
  {
    var n := |batch| - 1;
    if i < n {
      BatchLogsAt(batch[..n], attempts[..n], now, i);
    }
  }

  /** The subscriptions table after the schedule update of each item, in batch order. */
  function RescheduleAll(subs: seq<Subscription>, batch: seq<Subscription>, attempts: seq<Attempt>, now: int)
    : (r: seq<Subscription>)
    requires |attempts| == |batch|
    ensures |r| == |subs|
  {
    if batch == [] then subs
    else
      var n := |batch| - 1;
      Rescheduled(RescheduleAll(subs, batch[..n], attempts[..n], now), batch[n].id, now,
                  attempts[n].httpStatus, attempts[n].lastError, NextDue(now, batch[n]))
  }

  /** The number of attempts that ended without a thrown error. */
  function CountOk(attempts: seq<Attempt>): (r: nat)
    ensures r <= |attempts|
  {
    if attempts == [] then 0
    else CountOk(attempts[..|attempts| - 1]) + (if attempts[|attempts| - 1].lastError.None? then 1 else 0)
  }

  function Ids(batch: seq<Subscription>): set<string>
  {
    set s | s in batch :: s.id
  }

  /** The head errors of the batch items, in batch order. */
  function Prechecks(batch: seq<Subscription>, allowHttp: bool, parse: string -> Option<Net.Url>)
    : (r: seq<Option<string>>)
    ensures |r| == |batch|
  {
    seq(|batch|, j requires 0 <= j < |batch| => Precheck(batch[j], allowHttp, parse))
  }

  /** An item stopped at its head records exactly that error and nothing else. */
  predicate StoppedAs(precheck: Option<string>, a: Attempt)
  {
    precheck.Some? ==> a == Attempt(precheck, 0, 0, 0, None, None, None)
  }

  predicate AllStopped(prechecks: seq<Option<string>>, attempts: seq<Attempt>)
    requires |attempts| == |prechecks|
  {
    forall j :: 0 <= j < |prechecks| ==> StoppedAs(prechecks[j], attempts[j])
  }

  lemma AllStoppedSnoc(prechecks: seq<Option<string>>, attempts: seq<Attempt>, a: Attempt)
    requires |attempts| < |prechecks|
    requires AllStopped(prechecks[..|attempts|], attempts)
    requires StoppedAs(prechecks[|attempts|], a)
    ensures AllStopped(prechecks[..|attempts| + 1], attempts + [a])
  {
    var i := |attempts|;
    forall j | 0 <= j < i + 1
      ensures StoppedAs(prechecks[..i + 1][j], (attempts + [a])[j])
    {
      if j < i {
        assert prechecks[..i + 1][j] == prechecks[..i][j];
      }
    }
  }

  /** The imported rows of every subscription outside `ids` are as they were. */
  ghost predicate KeptOutside(m0: map<Key, ImportedRow>, m: map<Key, ImportedRow>, ids: set<string>)
  {
    forall k: Key :: k.subscriptionId !in ids ==> (k in m <==> k in m0) && (k in m0 ==> m[k] == m0[k])
  }

  lemma KeptTrans(m0: map<Key, ImportedRow>, m1: map<Key, ImportedRow>, m2: map<Key, ImportedRow>,
                  ids: set<string>, more: set<string>)
    requires KeptOutside(m0, m1, ids) && KeptOutside(m1, m2, more)
    ensures KeptOutside(m0, m2, ids + more)
  {
  }

  /** `calendars.user_id`, the owner of an item's upserted rows; an item without one stops at its head. */
  function OwnerOf(sub: Subscription): string
  {
    if sub.owner.Some? then sub.owner.value else ""
  }

  /**
   * What one item does to the imported rows, `m` before it and `m1` after, and
   * what its attempt reports: an attempt with the handler limits, the item's
   * head error and storage faults, and the calendar owner's rows.
   */
  ghost predicate ItemOutcome(m: map<Key, ImportedRow>, m1: map<Key, ImportedRow>, sub: Subscription,
                              precheck: Option<string>, a: Attempt, allowHttp: bool, w: Net.World, faults: Faults,
                              today: Ymd, now: int)
    requires Valid(today)
  {
    var limits := HandlerLimits(allowHttp);
    && m1 == AfterAttempt(m, sub, OwnerOf(sub), precheck, limits, w, faults, today, now)
    && (EarlyStop(sub, precheck, limits, w, faults).Some? ==> a == EarlyStop(sub, precheck, limits, w, faults).value)
    && (a.lastError.None? <==> Synced(m, sub, precheck, limits, w, faults, today))
    && (a.lastError.None? ==> SyncedAs(a, m, m1, sub, OwnerOf(sub), limits, w, today, now))
  }

  /** One item of the loop: its attempt, its log row and its schedule update. */
  method RunItem(store: Store, sub: Subscription, precheck: Option<string>, allowHttp: bool, w: Net.World, today: Ymd,
                 faults: Faults, now: int)
    returns (a: Attempt)
    requires Valid(today)
    modifies store
    ensures store.logs == old(store.logs) + [LogOf(sub, sub.id, a, now)]
    ensures store.subscriptions
      == Rescheduled(old(store.subscriptions), sub.id, now, a.httpStatus, a.lastError, NextDue(now, sub))
    ensures KeptOutside(old(store.imported), store.imported, {sub.id})
    ensures StoppedAs(precheck, a)
    ensures EarlyStop(sub, precheck, HandlerLimits(allowHttp), w, faults).Some? ==>
      a == EarlyStop(sub, precheck, HandlerLimits(allowHttp), w, faults).value && store.imported == old(store.imported)
    ensures a.lastError.None? <==> Synced(old(store.imported), sub, precheck, HandlerLimits(allowHttp), w, faults, today)
    ensures a.lastError.None? ==>
      SyncedAs(a, old(store.imported), store.imported, sub, OwnerOf(sub), HandlerLimits(allowHttp), w, today, now)
    ensures store.imported
      == AfterAttempt(old(store.imported), sub, OwnerOf(sub), precheck, HandlerLimits(allowHttp), w, faults, today, now)
  {
    a := SyncAttempt(store, sub, sub.id, OwnerOf(sub), precheck, HandlerLimits(allowHttp), w, today, faults, now);
  }

  /** Item j of the batch turned `maps[j]` into `maps[j + 1]`, as ItemOutcome describes. */
  ghost predicate ItemAt(maps: seq<map<Key, ImportedRow>>, batch: seq<Subscription>, prechecks: seq<Option<string>>,
                         attempts: seq<Attempt>, allowHttp: bool, w: Net.World, faults: nat -> Faults, today: Ymd,
                         now: int, j: nat)
    requires Valid(today)
  {
    && j < |attempts| && j + 1 < |maps| && j < |batch| && j < |prechecks|
    && ItemOutcome(maps[j], maps[j + 1], batch[j], prechecks[j], attempts[j], allowHttp, w, faults(j), today, now)
  }

  /** The imported rows before each item and after the last, with every item's outcome. */
  ghost predicate Outcomes(maps: seq<map<Key, ImportedRow>>, batch: seq<Subscription>,
                           prechecks: seq<Option<string>>, attempts: seq<Attempt>, allowHttp: bool, w: Net.World,
                           faults: nat -> Faults, today: Ymd, now: int)
    requires Valid(today)
  {
    && |maps| == |attempts| + 1
    && |attempts| <= |batch| == |prechecks|
    && forall j: nat :: j < |attempts| ==> ItemAt(maps, batch, prechecks, attempts, allowHttp, w, faults, today, now, j)
  }

  lemma ItemAtSnoc(maps: seq<map<Key, ImportedRow>>, batch: seq<Subscription>, prechecks: seq<Option<string>>,
                   attempts: seq<Attempt>, a: Attempt, m1: map<Key, ImportedRow>, allowHttp: bool, w: Net.World,
                   faults: nat -> Faults, today: Ymd, now: int, j: nat)
    requires Valid(today)
    requires ItemAt(maps, batch, prechecks, attempts, allowHttp, w, faults, today, now, j)
    ensures ItemAt(maps + [m1], batch, prechecks, attempts + [a], allowHttp, w, faults, today, now, j)
  {
    assert (maps + [m1])[j] == maps[j] && (maps + [m1])[j + 1] == maps[j + 1] && (attempts + [a])[j] == attempts[j];
  }

  lemma ItemAtLast(maps: seq<map<Key, ImportedRow>>, batch: seq<Subscription>, prechecks: seq<Option<string>>,
                   attempts: seq<Attempt>, a: Attempt, m1: map<Key, ImportedRow>, allowHttp: bool, w: Net.World,
                   faults: nat -> Faults, today: Ymd, now: int)
    requires Valid(today)
    requires |maps| == |attempts| + 1 && |attempts| < |batch| == |prechecks|
    requires ItemOutcome(maps[|attempts|], m1, batch[|attempts|], prechecks[|attempts|], a, allowHttp, w,
                         faults(|attempts|), today, now)
    ensures ItemAt(maps + [m1], batch, prechecks, attempts + [a], allowHttp, w, faults, today, now, |attempts|)
  {
    var i := |attempts|;
    assert (maps + [m1])[i] == maps[i] && (maps + [m1])[i + 1] == m1 && (attempts + [a])[i] == a;
  }

  lemma OutcomesSnoc(maps: seq<map<Key, ImportedRow>>, batch: seq<Subscription>, prechecks: seq<Option<string>>,
                     attempts: seq<Attempt>, a: Attempt, m1: map<Key, ImportedRow>, allowHttp: bool, w: Net.World,
                     faults: nat -> Faults, today: Ymd, now: int)
    requires Valid(today)
    requires Outcomes(maps, batch, prechecks, attempts, allowHttp, w, faults, today, now)
    requires |attempts| < |batch|
    requires ItemOutcome(maps[|attempts|], m1, batch[|attempts|], prechecks[|attempts|], a, allowHttp, w,
                         faults(|attempts|), today, now)
    ensures Outcomes(maps + [m1], batch, prechecks, attempts + [a], allowHttp, w, faults, today, now)
  {
    ItemAtLast(maps, batch, prechecks, attempts, a, m1, allowHttp, w, faults, today, now);
    OutcomesPrefix(maps, batch, prechecks, attempts, a, m1, allowHttp, w, faults, today, now);
  }

  lemma OutcomesPrefix(maps: seq<map<Key, ImportedRow>>, batch: seq<Subscription>, prechecks: seq<Option<string>>,
                       attempts: seq<Attempt>, a: Attempt, m1: map<Key, ImportedRow>, allowHttp: bool, w: Net.World,
                       faults: nat -> Faults, today: Ymd, now: int)
    requires Valid(today)
    requires Outcomes(maps, batch, prechecks, attempts, allowHttp, w, faults, today, now)
    ensures forall j: nat :: j < |attempts| ==>
      ItemAt(maps + [m1], batch, prechecks, attempts + [a], allowHttp, w, faults, today, now, j)
  {
    forall j: nat | j < |attempts|
      ensures ItemAt(maps + [m1], batch, prechecks, attempts + [a], allowHttp, w, faults, today, now, j)
    {
      ItemAtSnoc(maps, batch, prechecks, attempts, a, m1, allowHttp, w, faults, today, now, j);
    }
  }

  lemma SnocAssoc<T>(a: seq<T>, b: seq<T>, x: T)
    ensures a + (b + [x]) == (a + b) + [x]
  {
  }

  /** The bookkeeping of the loop after one more item. */
  lemma BatchStep(subs: seq<Subscription>, batch: seq<Subscription>, attempts: seq<Attempt>, a: Attempt, now: int)
    requires |attempts| < |batch|
    ensures var i := |attempts|;
      && BatchLogs(batch[..i + 1], attempts + [a], now)
         == BatchLogs(batch[..i], attempts, now) + [LogOf(batch[i], batch[i].id, a, now)]
      && RescheduleAll(subs, batch[..i + 1], attempts + [a], now)
         == Rescheduled(RescheduleAll(subs, batch[..i], attempts, now), batch[i].id, now, a.httpStatus, a.lastError,
                        NextDue(now, batch[i]))
      && CountOk(attempts + [a]) == CountOk(attempts) + (if a.lastError.None? then 1 else 0)
      && Ids(batch[..i + 1]) == Ids(batch[..i]) + {batch[i].id}
  {
    var i := |attempts|;
    BatchLogsStep(batch, attempts, a, now);
    RescheduleAllStep(subs, batch, attempts, a, now);
    CountOkSnoc(attempts, a);
    IdsStep(batch, i);
  }

  lemma BatchLogsStep(batch: seq<Subscription>, attempts: seq<Attempt>, a: Attempt, now: int)
    requires |attempts| < |batch|
    ensures var i := |attempts|;
      BatchLogs(batch[..i + 1], attempts + [a], now)
      == BatchLogs(batch[..i], attempts, now) + [LogOf(batch[i], batch[i].id, a, now)]
  {
    var i := |attempts|;
    assert (attempts + [a])[..i] == attempts;
    assert batch[..i + 1][..i] == batch[..i];
  }

  lemma RescheduleAllStep(subs: seq<Subscription>, batch: seq<Subscription>, attempts: seq<Attempt>, a: Attempt,
                          now: int)
    requires |attempts| < |batch|
    ensures var i := |attempts|;
      RescheduleAll(subs, batch[..i + 1], attempts + [a], now)
      == Rescheduled(RescheduleAll(subs, batch[..i], attempts, now), batch[i].id, now, a.httpStatus, a.lastError,
                     NextDue(now, batch[i]))
  {
    var i := |attempts|;
    assert (attempts + [a])[..i] == attempts;
    assert batch[..i + 1][..i] == batch[..i];
  }

  lemma IdsStep(batch: seq<Subscription>, i: nat)
    requires i < |batch|
    ensures Ids(batch[..i + 1]) == Ids(batch[..i]) + {batch[i].id}
  {
    assert batch[..i + 1] == batch[..i] + [batch[i]];
  }

  lemma CountOkSnoc(attempts: seq<Attempt>, a: Attempt)
    ensures CountOk(attempts + [a]) == CountOk(attempts) + (if a.lastError.None? then 1 else 0)
  {
    assert (attempts + [a])[..|attempts|] == attempts;
  }

  /** The three tables after the first |attempts| items of the batch. */
  ghost predicate Progress(logs0: seq<SyncLog>, subs0: seq<Subscription>, imported0: map<Key, ImportedRow>,
                           logs: seq<SyncLog>, subs: seq<Subscription>, imported: map<Key, ImportedRow>,
                           batch: seq<Subscription>, prechecks: seq<Option<string>>, attempts: seq<Attempt>, now: int)
  {
    && |attempts| <= |batch| == |prechecks|
    && logs == logs0 + BatchLogs(batch[..|attempts|], attempts, now)
    && subs == RescheduleAll(subs0, batch[..|attempts|], attempts, now)
    && AllStopped(prechecks[..|attempts|], attempts)
    && KeptOutside(imported0, imported, Ids(batch[..|attempts|]))
  }

  lemma ProgressStep(logs0: seq<SyncLog>, subs0: seq<Subscription>, imported0: map<Key, ImportedRow>,
                     logs: seq<SyncLog>, subs: seq<Subscription>, imported: map<Key, ImportedRow>,
                     imported1: map<Key, ImportedRow>, batch: seq<Subscription>, prechecks: seq<Option<string>>,
                     attempts: seq<Attempt>, a: Attempt, now: int)
    requires Progress(logs0, subs0, imported0, logs, subs, imported, batch, prechecks, attempts, now)
    requires |attempts| < |batch|
    requires KeptOutside(imported, imported1, {batch[|attempts|].id})
    requires StoppedAs(prechecks[|attempts|], a)
    ensures var sub := batch[|attempts|];
      Progress(logs0, subs0, imported0, logs + [LogOf(sub, sub.id, a, now)],
               Rescheduled(subs, sub.id, now, a.httpStatus, a.lastError, NextDue(now, sub)), imported1,
               batch, prechecks, attempts + [a], now)
  {
    var i := |attempts|;
    BatchStep(subs0, batch, attempts, a, now);
    AllStoppedSnoc(prechecks, attempts, a);
    SnocAssoc(logs0, BatchLogs(batch[..i], attempts, now), LogOf(batch[i], batch[i].id, a, now));
    KeptTrans(imported0, imported, imported1, Ids(batch[..i]), {batch[i].id});
  }

  /** Item i of the loop, with the bookkeeping of the first i items extended to the first i + 1. */
  method Step(store: Store, batch: seq<Subscription>, prechecks: seq<Option<string>>, allowHttp: bool, w: Net.World,
              today: Ymd, faults: nat -> Faults, now: int, i: nat, ghost logs0: seq<SyncLog>,
              ghost subs0: seq<Subscription>, ghost imported0: map<Key, ImportedRow>, ghost attempts: seq<Attempt>,
              ghost maps: seq<map<Key, ImportedRow>>)
    returns (a: Attempt)
    requires Valid(today)
    requires i == |attempts| < |batch|
    requires Progress(logs0, subs0, imported0, store.logs, store.subscriptions, store.imported, batch, prechecks,
                      attempts, now)
    requires Outcomes(maps, batch, prechecks, attempts, allowHttp, w, faults, today, now)
    requires maps[i] == store.imported
    modifies store
    ensures Progress(logs0, subs0, imported0, store.logs, store.subscriptions, store.imported, batch, prechecks,
                     attempts + [a], now)
    ensures Outcomes(maps + [store.imported], batch, prechecks, attempts + [a], allowHttp, w, faults, today, now)
  {
    ghost var logs, subs, imported := store.logs, store.subscriptions, store.imported;
    a := RunItem(store, batch[i], prechecks[i], allowHttp, w, today, faults(i), now);
    ProgressStep(logs0, subs0, imported0, logs, subs, imported, store.imported, batch, prechecks, attempts, a, now);
    OutcomesSnoc(maps, batch, prechecks, attempts, a, store.imported, allowHttp, w, faults, today, now);
  }

  /**
   * The loop over the batch: every item, failing or not, gets one attempt, one
   * log row and one schedule update, in batch order. `ok` counts the attempts
   * that threw nothing and `failed` the others.
   */
  method RunBatch(store: Store, batch: seq<Subscription>, prechecks: seq<Option<string>>, allowHttp: bool, w: Net.World,
                  today: Ymd, faults: nat -> Faults, now: int)
    returns (processed: nat, ok: nat, failed: nat, ghost attempts: seq<Attempt>,
             ghost maps: seq<map<Key, ImportedRow>>)
    requires Valid(today)
    requires |prechecks| == |batch|
    modifies store
    ensures |attempts| == |batch| && processed == |batch|
    ensures ok == CountOk(attempts) && ok + failed == processed
    ensures store.logs == old(store.logs) + BatchLogs(batch, attempts, now)
    ensures store.subscriptions == RescheduleAll(old(store.subscriptions), batch, attempts, now)
    ensures AllStopped(prechecks, attempts)
    ensures KeptOutside(old(store.imported), store.imported, Ids(batch))
    ensures |maps| == |batch| + 1 && maps[0] == old(store.imported) && maps[|batch|] == store.imported
    ensures Outcomes(maps, batch, prechecks, attempts, allowHttp, w, faults, today, now)
  {
    attempts, maps := [], [store.imported];
    processed, ok, failed := 0, 0, 0;
    var i := 0;
    while i < |batch|
      invariant 0 <= i <= |batch|
      invariant |attempts| == i && processed == i
      invariant ok == CountOk(attempts) && failed == i - ok
      invariant Progress(old(store.logs), old(store.subscriptions), old(store.imported), store.logs,
                         store.subscriptions, store.imported, batch, prechecks, attempts, now)
      invariant Outcomes(maps, batch, prechecks, attempts, allowHttp, w, faults, today, now)
      invariant maps[0] == old(store.imported) && maps[i] == store.imported
    {
      processed := processed + 1;
      var a := Step(store, batch, prechecks, allowHttp, w, today, faults, now, i, old(store.logs),
                    old(store.subscriptions), old(store.imported), attempts, maps);
      if a.lastError.None? {
        ok := ok + 1;
      } else {
        failed := failed + 1;
      }
      CountOkSnoc(attempts, a);
      attempts, maps := attempts + [a], maps + [store.imported];
      i := i + 1;
    }
    assert batch[..i] == batch && prechecks[..i] == prechecks;
  }

  /**
   * The driver. A closed gate or a failed batch query answers without writes;
   * otherwise the batch is run and the counters are returned.
   */
  method RunCron(store: Store, header: Option<string>, env: Option<string>, q: SecretQuery, listFault: Option<string>,
                 allowHttp: bool, w: Net.World, today: Ymd, faults: nat -> Faults, now: int)
    returns (reply: Reply, ghost attempts: seq<Attempt>, ghost maps: seq<map<Key, ImportedRow>>)
    requires Valid(today)
    modifies store
    ensures SecretGate(header, env, q).Some? ==>
      reply == SecretGate(header, env, q).value && attempts == []
      && store.imported == old(store.imported) && store.logs == old(store.logs)
      && store.subscriptions == old(store.subscriptions)
    ensures SecretGate(header, env, q).None? && listFault.Some? ==>
      reply == Reply(500, CronError(listFault.value)) && attempts == []
      && store.imported == old(store.imported) && store.logs == old(store.logs)
      && store.subscriptions == old(store.subscriptions)
    ensures SecretGate(header, env, q).None? && listFault.None? ==>
      var batch := Batch(old(store.subscriptions), now);
      && |attempts| == |batch|
      && reply.status == 200
      && (batch == [] ==> reply.body == NothingDue)
      && (batch != [] ==> reply.body == Summary(|batch|, CountOk(attempts), |batch| - CountOk(attempts)))
      && store.logs == old(store.logs) + BatchLogs(batch, attempts, now)
      && store.subscriptions == RescheduleAll(old(store.subscriptions), batch, attempts, now)
      && AllStopped(Prechecks(batch, allowHttp, w.parse), attempts)
      && KeptOutside(old(store.imported), store.imported, Ids(batch))
      && |maps| == |batch| + 1 && maps[0] == old(store.imported) && maps[|batch|] == store.imported
      && Outcomes(maps, batch, Prechecks(batch, allowHttp, w.parse), attempts, allowHttp, w, faults, today, now)
  {
    attempts, maps := [], [store.imported];
    var gate := SecretGate(header, env, q);
    if gate.Some? {
      return gate.value, attempts, maps;
    }
    if listFault.Some? {
      return Reply(500, CronError(listFault.value)), attempts, maps;
    }
    var batch := Batch(store.subscriptions, now);
    if |batch| == 0 {
      assert BatchLogs(batch, attempts, now) == [];
      assert RescheduleAll(store.subscriptions, batch, attempts, now) == store.subscriptions;
      return Reply(200, NothingDue), attempts, maps;
    }
    var processed, ok, failed;
    processed, ok, failed, attempts, maps :=
      RunBatch(store, batch, Prechecks(batch, allowHttp, w.parse), allowHttp, w, today, faults, now);
    reply := Reply(200, Summary(processed, ok, failed));
  }

  /**
   * A subscription polled every 0 seconds is due again at once: after its
   * schedule update at `now` it is due in any later run.
   */
  lemma ZeroPollDueAgain(subs: seq<Subscription>, sub: Subscription, status: Option<int>, error: Option<string>,
                         now: int, later: int)
    requires sub.pollIntervalSec == 0 && now <= later
    ensures forall i :: 0 <= i < |subs| && subs[i].id == sub.id && subs[i].enabled && subs[i].owner.Some? ==>
      IsDue(Rescheduled(subs, sub.id, now, status, error, NextDue(now, sub))[i], later)
  {
  }
}
