/**
 * The manual sync handler (supabase/functions/ics-sync/index.ts): the
 * pre-checks that answer without touching storage, then one sync attempt of
 * the requested subscription with its log row and schedule update, and the
 * JSON reply.
 */
module ManualSync {
  import opened JsText
  import opened CivilDate
  import Net
  import opened Sync

  const SyncAction := "sync-subscription"

  datatype ReplyBody = ErrorBody(error: string) | SyncCounts(added: nat, updated: nat, removed: nat)

  datatype Reply = Reply(status: int, body: ReplyBody)

  /**
   * What the handler reads from the request: the user `requireUserId` resolves
   * (None when it throws), `body.action`, the `action` query parameter and
   * `body.subscription_id` already converted by `String(...)`.
   */
  datatype Request = Request(userId: Option<string>, bodyAction: Option<string>, queryAction: Option<string>,
                             subscriptionId: Option<string>)

  /** `body.action || url.searchParams.get("action")`. */
  function Action(req: Request): (r: Option<string>)
    ensures Truthy(req.bodyAction) ==> r == req.bodyAction
    ensures !Truthy(req.bodyAction) ==> r == req.queryAction
  {
    if Truthy(req.bodyAction) then req.bodyAction else req.queryAction
  }

  /** The outcome of the pre-checks: a reply without storage writes, or the subscription to sync. */
  datatype Gate = Refuse(reply: Reply) | Admit(userId: string, sub: Subscription)

  function Bad(message: string, status: int): Reply
  {
    Reply(status, ErrorBody(message))
  }

  /**
   * The pre-checks in their order: authentication, the action, a non-empty
   * `subscription_id`, the subscription lookup and the stored URL.
   */
  function Admission(req: Request, subs: seq<Subscription>, allowHttp: bool, parse: string -> Option<Net.Url>): (r: Gate)
    ensures r.Admit? <==>
      && req.userId.Some?
      && Action(req) == Some(SyncAction)
      && Truthy(req.subscriptionId)
      && FindSubscription(subs, req.subscriptionId.value).Some?
      && Net.ValidateOutboundUrl(FindSubscription(subs, req.subscriptionId.value).value.icalUrl,
                                 HandlerUrlOptions(allowHttp), parse).Accepted?
    ensures r.Admit? ==> r.userId == req.userId.value && r.sub in subs && r.sub.id == req.subscriptionId.value
    ensures req.userId.None? ==> r == Refuse(Bad(UnauthorizedMessage, 401))
    ensures r.Refuse? && req.userId.Some? ==> r.reply.status in {400, 404}
  {
    if req.userId.None? then Refuse(Bad(UnauthorizedMessage, 401))
    else if Action(req) != Some(SyncAction) then Refuse(Bad("Unknown action", 400))
    else if !Truthy(req.subscriptionId) then Refuse(Bad("subscription_id required", 400))
    else
      var found := FindSubscription(subs, req.subscriptionId.value);
      if found.None? then Refuse(Bad("Subscription not found", 404))
      else
        match Net.ValidateOutboundUrl(found.value.icalUrl, HandlerUrlOptions(allowHttp), parse)
        case Rejected(reason) => Refuse(Bad("ical_url invalid: " + reason, 400))
        case Accepted(_) => Admit(req.userId.value, found.value)
  }

  /** `if (lastError) return json({ error }, 500)`, else the counts with 200. */
  function ReplyOf(a: Attempt): (r: Reply)
    ensures r.status == 200 || r.status == 500
    ensures r.status == 500 <==> Truthy(a.lastError)
    ensures r.status == 500 <==> LogStatus(a.lastError) == "error"
    ensures r.status == 200 ==> r.body == SyncCounts(a.added, a.updated, a.removed)
  {
    if Truthy(a.lastError) then Bad(a.lastError.value, 500) else Reply(200, SyncCounts(a.added, a.updated, a.removed))
  }

  /**
   * The handler. A refused request writes nothing; an admitted one appends
   * exactly one log row, reschedules the subscription and changes only that
   * subscription's imported rows. `attempt` is the telemetry of the sync.
   */
  method HandleSync(store: Store, req: Request, allowHttp: bool, w: Net.World, today: Ymd, faults: Faults, now: int)
    returns (reply: Reply, ghost attempt: Option<Attempt>)
    requires Valid(today)
    modifies store
    ensures Admission(req, old(store.subscriptions), allowHttp, w.parse).Refuse? ==>
      && reply == Admission(req, old(store.subscriptions), allowHttp, w.parse).reply
      && store.imported == old(store.imported) && store.logs == old(store.logs)
      && store.subscriptions == old(store.subscriptions)
    ensures Admission(req, old(store.subscriptions), allowHttp, w.parse).Admit? ==>
      var gate := Admission(req, old(store.subscriptions), allowHttp, w.parse);
      var sub := gate.sub;
      && attempt.Some?
      && reply == ReplyOf(attempt.value)
      && store.logs == old(store.logs) + [LogOf(sub, sub.id, attempt.value, now)]
      && store.subscriptions
         == Rescheduled(old(store.subscriptions), sub.id, now, attempt.value.httpStatus, attempt.value.lastError,
                        NextDue(now, sub))
      && (forall k: Key :: k.subscriptionId != sub.id ==> (k in store.imported <==> k in old(store.imported)))
      && (forall k :: k in old(store.imported) && k.subscriptionId != sub.id ==> store.imported[k] == old(store.imported)[k])
      && (EarlyStop(sub, None, HandlerLimits(allowHttp), w, faults).Some? ==>
          attempt.value == EarlyStop(sub, None, HandlerLimits(allowHttp), w, faults).value
          && store.imported == old(store.imported))
      && (attempt.value.lastError.None? <==>
          Synced(old(store.imported), sub, None, HandlerLimits(allowHttp), w, faults, today))
      && (attempt.value.lastError.None? ==>
          SyncedAs(attempt.value, old(store.imported), store.imported, sub, gate.userId,
                   HandlerLimits(allowHttp), w, today, now))
      && store.imported
         == AfterAttempt(old(store.imported), sub, gate.userId, None, HandlerLimits(allowHttp), w, faults, today, now)
  {
    var gate := Admission(req, store.subscriptions, allowHttp, w.parse);
    if gate.Refuse? {
      return gate.reply, None;
    }
    var a := SyncAttempt(store, gate.sub, gate.sub.id, gate.userId, None, HandlerLimits(allowHttp), w, today,
                         faults, now);
    reply := ReplyOf(a);
    attempt := Some(a);
  }
}
