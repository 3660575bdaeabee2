/** The "new spin" notifier (`notify_spin_published`): find the spin, refuse a blank city,
    skip a spin that is not published, then push to every device token of the spin's city. */
module NotifyPublished {
  import opened Wrappers
  import opened Text
  import opened Api
  import opened Fcm
  import opened Fanout

  /** Lines 106–110: the data every message carries. */
  function PublishedData(spinId: string, city: string): map<string, string> {
    map["type" := "SPIN_PUBLISHED", "spin_id" := spinId, "city" := city]
  }

  /** Lines 39–96: locate the spin, then the status gate (anything but `"published"` is
      skipped, reporting the status and city), then the city's tokens. */
  function PlanPublished(spinId: Option<string>, store: Store): (pl: Plan)
    ensures pl.Send? <==>
      && LocateSpin(spinId, store).Ok?
      && LocateSpin(spinId, store).value.spin.status == Some("published")
      && CityTokens(store.pushTokens, LocateSpin(spinId, store).value.city) != []
    ensures pl.Send? ==>
      var at := LocateSpin(spinId, store).value;
      && pl.city == at.city && pl.tokens == CityTokens(store.pushTokens, at.city) && Clean(pl.tokens)
      && pl.data == PublishedData(at.spinId, at.city)
    ensures (pl.Answer? && pl.reply.Err?) <==> LocateSpin(spinId, store).Err?
    ensures pl.Answer? && pl.reply.Err? ==> pl.reply.error == LocateSpin(spinId, store).error
    ensures (pl.Answer? && pl.reply.Ok? && pl.reply.value.Skipped?) <==>
      LocateSpin(spinId, store).Ok? && LocateSpin(spinId, store).value.spin.status != Some("published")
    ensures pl.Answer? && pl.reply.Ok? ==> pl.reply.value.Skipped? || pl.reply.value.NoTokens?
    ensures pl.Answer? && pl.reply.Ok? ==>
      var at := LocateSpin(spinId, store).value;
      pl.reply.value.city == at.city && (pl.reply.value.Skipped? ==> pl.reply.value.status == at.spin.status)
  {
    match LocateSpin(spinId, store)
    case Err(e) => Answer(Err(e))
    case Ok(at) =>
      if at.spin.status != Some("published") then Answer(Ok(Skipped(at.spin.status, at.city)))
      else PlanSend(at, store, PublishedData(at.spinId, at.city))
  }

  /** The handler body, lines 39–122; `access` is what each chunk's access-token request
      yields and `delivered` says which sends succeed. */
  method NotifyPublished(spinId: Option<string>, store: Store, access: Result<AccessToken, string>,
                         delivered: Request -> bool)
    returns (reply: Result<Notified, ApiError>, requests: seq<Request>)
    ensures LocateSpin(spinId, store).Err? ==> reply == Err(LocateSpin(spinId, store).error) && requests == []
    ensures LocateSpin(spinId, store).Ok? ==>
      var at := LocateSpin(spinId, store).value;
      var tokens := CityTokens(store.pushTokens, at.city);
      && (at.spin.status != Some("published") ==> reply == Ok(Skipped(at.spin.status, at.city)) && requests == [])
      && (at.spin.status == Some("published") && tokens == [] ==> reply == Ok(NoTokens(at.city)) && requests == [])
      && (at.spin.status == Some("published") && tokens != [] && access.Err? ==>
            reply == Err(ServerError(access.error)) && requests == [])
      && (at.spin.status == Some("published") && tokens != [] && access.Ok? ==>
            && reply.Ok? && reply.value.Totals? && reply.value.city == at.city
            && reply.value.sent + reply.value.failed == |tokens|
            && requests == RequestsFor(access.value, tokens, PublishedData(at.spinId, at.city))
            && reply.value.sent == Delivered(requests, delivered))
  {
    var plan := PlanPublished(spinId, store);
    reply, requests := Run(plan, access, delivered);
  }

  /** A spin that is not published is skipped whatever the token table holds: nothing is
      sent. */
  lemma UnpublishedSendsNothing(spinId: Option<string>, store: Store)
    requires LocateSpin(spinId, store).Ok? && LocateSpin(spinId, store).value.spin.status != Some("published")
    ensures PlanPublished(spinId, store).Answer?
    ensures PlanPublished(spinId, store) == PlanPublished(spinId, store.(pushTokens := []))
  {
  }
}
