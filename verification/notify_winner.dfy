/** The winner notifier (`notify_spin_winner`): find the spin, refuse a blank city, refuse a
    spin without a winner, then push the winner's announcement to every device token of the
    spin's city. The spin's status is never consulted. */
module NotifyWinner {
  import opened Wrappers
  import opened Text
  import opened Api
  import opened Fcm
  import opened Fanout

  /** `!spin.winner_user_id`: no winner, or an empty one. */
  predicate WinnerSet(spin: Spin) {
    spin.winnerUserId.Some? && spin.winnerUserId.value != []
  }

  /** Lines 95–101: the data every message carries; a missing winner code is sent as `""`. */
  function WinnerData(spinId: string, city: string, spin: Spin): map<string, string>
    requires WinnerSet(spin)
  {
    map["type" := "SPIN_WINNER", "spin_id" := spinId, "city" := city,
        "winner_user_id" := spin.winnerUserId.value, "winner_code" := spin.winnerCode.GetOr("")]
  }

  /** Lines 66–86, once the spin is located: the winner gate, then the city's tokens. */
  function PlanFor(at: Located, store: Store): (pl: Plan)
    ensures pl.Send? <==> WinnerSet(at.spin) && CityTokens(store.pushTokens, at.city) != []
    ensures pl.Send? ==>
      && pl.city == at.city && pl.tokens == CityTokens(store.pushTokens, at.city) && Clean(pl.tokens)
      && pl.data == WinnerData(at.spinId, at.city, at.spin)
    ensures pl == Answer(Err(WinnerNotSetYet)) <==> !WinnerSet(at.spin)
    ensures pl == Answer(Ok(NoTokens(at.city))) <==> WinnerSet(at.spin) && CityTokens(store.pushTokens, at.city) == []
  {
    if !WinnerSet(at.spin) then Answer(Err(WinnerNotSetYet))
    else PlanSend(at, store, WinnerData(at.spinId, at.city, at.spin))
  }

  /** Lines 38–86: locate the spin, then the winner gate, then the city's tokens. */
  function PlanWinner(spinId: Option<string>, store: Store): (pl: Plan)
    ensures LocateSpin(spinId, store).Err? ==> pl == Answer(Err(LocateSpin(spinId, store).error))
    ensures pl.Send? <==>
      && LocateSpin(spinId, store).Ok? && WinnerSet(LocateSpin(spinId, store).value.spin)
      && CityTokens(store.pushTokens, LocateSpin(spinId, store).value.city) != []
    ensures LocateSpin(spinId, store).Ok? ==> pl == PlanFor(LocateSpin(spinId, store).value, store)
  {
    match LocateSpin(spinId, store)
    case Err(e) => Answer(Err(e))
    case Ok(at) => PlanFor(at, store)
  }

  /** The handler body, lines 38–113; `access` is what each chunk's access-token request
      yields and `delivered` says which sends succeed. */
  method NotifyWinner(spinId: Option<string>, store: Store, access: Result<AccessToken, string>,
                      delivered: Request -> bool)
    returns (reply: Result<Notified, ApiError>, requests: seq<Request>)
    ensures LocateSpin(spinId, store).Err? ==> reply == Err(LocateSpin(spinId, store).error) && requests == []
    ensures LocateSpin(spinId, store).Ok? ==>
      var at := LocateSpin(spinId, store).value;
      var tokens := CityTokens(store.pushTokens, at.city);
      && (!WinnerSet(at.spin) ==> reply == Err(WinnerNotSetYet) && requests == [])
      && (WinnerSet(at.spin) && tokens == [] ==> reply == Ok(NoTokens(at.city)) && requests == [])
      && (WinnerSet(at.spin) && tokens != [] && access.Err? ==> reply == Err(ServerError(access.error)) && requests == [])
      && (WinnerSet(at.spin) && tokens != [] && access.Ok? ==>
            && reply.Ok? && reply.value.Totals? && reply.value.city == at.city
            && reply.value.sent + reply.value.failed == |tokens|
            && requests == RequestsFor(access.value, tokens, WinnerData(at.spinId, at.city, at.spin))
            && reply.value.sent == Delivered(requests, delivered))
  {
    var plan := PlanWinner(spinId, store);
    reply, requests := Run(plan, access, delivered);
  }

  /** The status is never consulted: a located spin is notified alike whatever its status. */
  lemma StatusIgnored(at: Located, store: Store, status: Option<string>)
    ensures PlanFor(at, store) == PlanFor(at.(spin := at.spin.(status := status)), store)
  {
    if WinnerSet(at.spin) {
      assert WinnerData(at.spinId, at.city, at.spin) == WinnerData(at.spinId, at.city, at.spin.(status := status));
    }
  }

  /** Every message names the winner, and a spin without a winner code sends `""` for it. */
  lemma WinnerDataCarriesWinner(spinId: string, city: string, spin: Spin)
    requires WinnerSet(spin)
    ensures var d := WinnerData(spinId, city, spin);
      && d["spin_id"] == spinId && d["city"] == city && d["winner_user_id"] == spin.winnerUserId.value
      && (spin.winnerCode.None? ==> d["winner_code"] == "")
      && (spin.winnerCode.Some? ==> d["winner_code"] == spin.winnerCode.value)
  {
  }
}
