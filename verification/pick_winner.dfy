/** The draw handler (`start_spin_pick_winner`): validate the spin id, pass an optional
    forced lookup code through, call the `rpc_start_spin_pick_winner` stored procedure once,
    and classify its error message or read the winner from its row. Who may draw, and how
    the winner is chosen, live inside the procedure and are an oracle here. */
module PickWinner {
  import opened Wrappers
  import opened Text
  import opened Json
  import opened Api

  /** The request body: `{ spin_id, forced_unique_code? }`. */
  datatype Body = Body(spinId: Option<string>, forcedCode: Option<string>)

  /** The stored-procedure arguments `{ spin_id, forced_unique_code }`, the latter `null`
      when no code is forced. */
  datatype Call = Call(spinId: string, forcedCode: Option<string>)

  /** The 200 response `{ ok: true, winner_user_id, winner_code }`. */
  datatype Winner = Winner(userId: Option<Value>, code: Option<Value>)

  /** What the procedure's message is searched for, in order. */
  const Known: seq<ApiError> := [Forbidden, NoParticipants, ForcedUserNotFound, ForcedUserNotParticipant]

  /** Lines 33–36: the trimmed spin id must be non-empty; a forced code that is missing or
      blank after trimming is sent as `null`, any other is sent trimmed. */
  function Validate(body: Body): (r: Result<Call, ApiError>)
    ensures r.Err? <==> IsBlank(body.spinId.GetOr(""))
    ensures r.Err? ==> r.error == SpinIdRequired
    ensures r.Ok? ==> IsCoreOf(r.value.spinId, body.spinId.value) && IsTrimmed(r.value.spinId) && r.value.spinId != []
    ensures r.Ok? ==> (r.value.forcedCode.None? <==> body.forcedCode.None? || IsBlank(body.forcedCode.value))
    ensures r.Ok? && r.value.forcedCode.Some? ==>
      IsCoreOf(r.value.forcedCode.value, body.forcedCode.value) && IsTrimmed(r.value.forcedCode.value)
  {
    var spinId := Trim(body.spinId.GetOr(""));
    var forced := TrimOrNone(body.forcedCode);
    if spinId == [] then Err(SpinIdRequired) else Ok(Call(spinId, forced))
  }

  /** Lines 43–49: a missing message reads as `"RPC_ERROR"`; the role code is tried first,
      then the empty-draw code, then the two forced-winner codes. */
  function ClassifyError(message: Option<string>): (e: ApiError)
    ensures var m := message.GetOr("RPC_ERROR");
      && (forall k | 0 <= k < |Known| :: e == Known[k] <==> FirstOccurring(m, Known, k))
      && (e == RpcError(m) <==> NoneOccurs(m, Known))
    ensures e in Known || e.RpcError?
  {
    assert WellFormed(Known);
    Classify(message.GetOr("RPC_ERROR"), Known)
  }

  /** The recognised codes, pairwise: none occurs inside a later one. In particular
      `FORCED_USER_NOT_PARTICIPANT` holds neither `FORCED_USER_NOT_FOUND` nor
      `NO_PARTICIPANTS`, close as they are. */
  lemma KnownCodesApart()
    ensures !Contains("NO_PARTICIPANTS", "FORBIDDEN")
    ensures !Contains("FORCED_USER_NOT_FOUND", "FORBIDDEN")
    ensures !Contains("FORCED_USER_NOT_FOUND", "NO_PARTICIPANTS")
    ensures !Contains("FORCED_USER_NOT_PARTICIPANT", "FORBIDDEN")
    ensures !Contains("FORCED_USER_NOT_PARTICIPANT", "NO_PARTICIPANTS")
    ensures !Contains("FORCED_USER_NOT_PARTICIPANT", "FORCED_USER_NOT_FOUND")
  {
    MismatchRulesOut("NO_PARTICIPANTS", "FORBIDDEN", 0);
    MismatchRulesOut("FORCED_USER_NOT_FOUND", "FORBIDDEN", 3);
    MismatchRulesOut("FORCED_USER_NOT_FOUND", "NO_PARTICIPANTS", 3);
    MismatchRulesOut("FORCED_USER_NOT_PARTICIPANT", "FORBIDDEN", 3);
    MismatchRulesOut("FORCED_USER_NOT_PARTICIPANT", "NO_PARTICIPANTS", 14);
    MismatchRulesOut("FORCED_USER_NOT_PARTICIPANT", "FORCED_USER_NOT_FOUND", 16);
  }

  /** The codes of the list, spelled out. */
  lemma KnownCodesAre()
    ensures forall k | 0 <= k < |Known| ::
              Known[k].Code() == ["FORBIDDEN", "NO_PARTICIPANTS", "FORCED_USER_NOT_FOUND", "FORCED_USER_NOT_PARTICIPANT"][k]
  {
  }

  /** The list can be scanned unambiguously. */
  lemma KnownApart()
    ensures Apart(Known)
  {
    KnownCodesAre();
    KnownCodesApart();
    var codes := ["FORBIDDEN", "NO_PARTICIPANTS", "FORCED_USER_NOT_FOUND", "FORCED_USER_NOT_PARTICIPANT"];
    forall i, j | 0 <= j < i < |Known|
      ensures !Contains(codes[i], codes[j])
    {
      if i == 1 { assert j == 0; }
      else if i == 2 { assert j == 0 || j == 1; }
      else { assert i == 3 && (j == 0 || j == 1 || j == 2); }
    }
  }

  /** A message that is exactly one of the recognised codes is classified as that code. */
  lemma ClassifyErrorRoundTrip()
    ensures forall k | 0 <= k < |Known| :: ClassifyError(Some(Known[k].Code())) == Known[k]
  {
    assert WellFormed(Known);
    KnownApart();
    ClassifyCodes(Known);
  }

  /** Lines 52–53: the winner's fields from the first row (or the reply itself). */
  function ReadWinner(data: Value): (r: Result<Winner, ApiError>)
    ensures r.Err? <==> data == JNull || (data.JArr? && (|data.items| == 0 || data.items[0] == JNull))
    ensures r.Err? ==> r.error.ServerError?
    ensures r.Ok? ==> r.value == Winner(Field(RowOf(data).value, "winner_user_id"), Field(RowOf(data).value, "winner_code"))
  {
    match RowOf(data)
    case Err(e) => Err(e)
    case Ok(row) => Ok(Winner(Field(row, "winner_user_id"), Field(row, "winner_code")))
  }

  /** An array reply is read as its first row: a row on its own and the same row at the head
      of an array read the same. */
  lemma ReadWinnerFirstRow(v: Value, rest: seq<Value>)
    ensures !v.JArr? ==> ReadWinner(JArr([v] + rest)) == ReadWinner(v)
  {
    RowOfArray(v, rest);
  }

  /** The handler body, lines 32–53, for an authenticated caller; `rpc` answers the stored
      procedure. A blank spin id is refused before any call; otherwise exactly one call is
      made, carrying the trimmed id and the forced code as validated. */
  function PickWinner(body: Body, rpc: Call -> RpcReply): (h: Handled<Winner, Call>)
    ensures h.calls == [] <==> IsBlank(body.spinId.GetOr(""))
    ensures IsBlank(body.spinId.GetOr("")) ==> h.reply == Err(SpinIdRequired)
    ensures Validate(body).Ok? ==>
      var call := Validate(body).value;
      && h.calls == [call]
      && (rpc(call).RpcFailed? ==> h.reply == Err(ClassifyError(rpc(call).message)))
      && (rpc(call).RpcOk? ==> h.reply == ReadWinner(rpc(call).data))
  {
    match Validate(body)
    case Err(e) => Handled(Err(e), [])
    case Ok(call) =>
      match rpc(call)
      case RpcFailed(message) => Handled(Err(ClassifyError(message)), [call])
      case RpcOk(data) => Handled(ReadWinner(data), [call])
  }
}
