/** The administrative credit handler (`admin_topup_by_unique_code`): normalise and validate
    the request, call the `rpc_admin_topup_by_unique_code` stored procedure once, and turn its
    error message into a typed error or its row into the response. The stored procedure is an
    oracle: its role check, user lookup and balance update are not visible here. */
module Topup {
  import opened Wrappers
  import opened Text
  import opened Json
  import opened Api

  /** The request body: `{ unique_code, amount, type? }`. */
  datatype Body = Body(uniqueCode: Option<string>, amount: Option<int>, entryType: Option<string>)

  /** The stored-procedure arguments `{ unique_code, amount, entry_type }`. */
  datatype Call = Call(uniqueCode: string, amount: int, entryType: string)

  /** The 200 response `{ user_id, balance_before, balance_after }`; a field the row lacks is
      left out of the JSON, which `None` stands for. */
  datatype Credited = Credited(userId: Option<Value>, balanceBefore: Option<Value>, balanceAfter: Option<Value>)

  /** The errors the handler recognises in a stored-procedure message, in the order it looks. */
  const Known: seq<ApiError> := [Forbidden, UserNotFound, InvalidType]

  /** A public lookup code: starts with `#` and has something after it. */
  predicate ValidCode(code: string) {
    StartsWith(code, "#") && |code| >= 2
  }

  /** Lines 30–37: trim the code, default the amount to 0 and the entry type to `"topup"`,
      then check the code before the amount. */
  function Validate(body: Body): (r: Result<Call, ApiError>)
    ensures r == Err(InvalidUniqueCode) <==> !ValidCode(Trim(body.uniqueCode.GetOr("")))
    ensures r == Err(InvalidAmount) <==> ValidCode(Trim(body.uniqueCode.GetOr(""))) && body.amount.GetOr(0) <= 0
    ensures r.Err? ==> r.error == InvalidUniqueCode || r.error == InvalidAmount
    ensures r.Ok? ==> ValidCode(r.value.uniqueCode) && IsTrimmed(r.value.uniqueCode) && r.value.amount > 0
    ensures r.Ok? ==> IsCoreOf(r.value.uniqueCode, body.uniqueCode.GetOr(""))
    ensures r.Ok? ==> body.amount.Some? && r.value.amount == body.amount.value
    ensures r.Ok? && body.entryType.Some? ==> r.value.entryType == body.entryType.value
    ensures r.Ok? && body.entryType.None? ==> r.value.entryType == "topup"
  {
    var unique := Trim(body.uniqueCode.GetOr(""));
    var amount := body.amount.GetOr(0);
    var entryType := body.entryType.GetOr("topup");
    if !ValidCode(unique) then Err(InvalidUniqueCode)
    else if amount <= 0 then Err(InvalidAmount)
    else Ok(Call(unique, amount, entryType))
  }

  /** Lines 43–48: the message (a missing or empty one reads as `"RPC_FAILED"`) is searched
      for `FORBIDDEN`, then `USER_NOT_FOUND`, then `INVALID_TYPE`; the first code found is the
      answer, and a message holding none of them is a 500 `RPC_ERROR`. */
  function ClassifyError(message: Option<string>): (e: ApiError)
    ensures var m := MessageOr(message, "RPC_FAILED");
      && (forall k | 0 <= k < |Known| :: e == Known[k] <==> FirstOccurring(m, Known, k))
      && (e == RpcError(m) <==> NoneOccurs(m, Known))
    ensures e in Known || e.RpcError?
  {
    assert WellFormed(Known);
    Classify(MessageOr(message, "RPC_FAILED"), Known)
  }

  /** The recognised codes, pairwise: none occurs inside a later one. */
  lemma KnownCodesApart()
    ensures !Contains("USER_NOT_FOUND", "FORBIDDEN")
    ensures !Contains("INVALID_TYPE", "FORBIDDEN")
    ensures !Contains("INVALID_TYPE", "USER_NOT_FOUND")
  {
    MismatchRulesOut("USER_NOT_FOUND", "FORBIDDEN", 0);
    MismatchRulesOut("INVALID_TYPE", "FORBIDDEN", 0);
  }

  /** The list can be scanned unambiguously: no code occurs inside a later one. */
  lemma KnownApart()
    ensures Apart(Known)
  {
    KnownCodesApart();
    forall i, j | 0 <= j < i < |Known|
      ensures !Contains(Known[i].Code(), Known[j].Code())
    {
      if i == 1 { assert j == 0; } else { assert i == 2 && (j == 0 || j == 1); }
    }
  }

  /** A message that is exactly one of the recognised codes is classified as that code. */
  lemma ClassifyErrorRoundTrip()
    ensures forall k | 0 <= k < |Known| :: ClassifyError(Some(Known[k].Code())) == Known[k]
  {
    assert WellFormed(Known);
    KnownApart();
    ClassifyCodes(Known);
  }

  /** Lines 51–58: the fields of the first row, or of the reply itself when it is not an array. */
  function ReadCredited(data: Value): (r: Result<Credited, ApiError>)
    ensures r.Err? <==> data == JNull || (data.JArr? && (|data.items| == 0 || data.items[0] == JNull))
    ensures r.Err? ==> r.error.ServerError?
    ensures data.JObj? ==> r == Ok(Credited(
              Field(data, "target_user_id"), Field(data, "balance_before"), Field(data, "balance_after")))
    ensures data.JArr? && |data.items| > 0 && data.items[0].JObj? ==> r == Ok(Credited(
              Field(data.items[0], "target_user_id"), Field(data.items[0], "balance_before"),
              Field(data.items[0], "balance_after")))
    ensures r.Ok? ==> r.value == Credited(Field(RowOf(data).value, "target_user_id"),
              Field(RowOf(data).value, "balance_before"), Field(RowOf(data).value, "balance_after"))
  {
    match RowOf(data)
    case Err(e) => Err(e)
    case Ok(row) =>
      Ok(Credited(Field(row, "target_user_id"), Field(row, "balance_before"), Field(row, "balance_after")))
  }

  /** An array reply is read as its first row: a row on its own and the same row at the head
      of an array read the same. */
  lemma ReadCreditedFirstRow(v: Value, rest: seq<Value>)
    ensures !v.JArr? ==> ReadCredited(JArr([v] + rest)) == ReadCredited(v)
  {
    RowOfArray(v, rest);
  }

  /** The handler body, lines 29–58, for an authenticated caller; `rpc` answers the stored
      procedure. No call is made unless the request is valid, and then exactly one. */
  function Topup(body: Body, rpc: Call -> RpcReply): (h: Handled<Credited, Call>)
    ensures h.calls == [] <==> Validate(body).Err?
    ensures Validate(body).Err? ==> h.reply == Err(Validate(body).error)
    ensures Validate(body).Ok? ==>
      var call := Validate(body).value;
      && h.calls == [call]
      && (rpc(call).RpcFailed? ==> h.reply == Err(ClassifyError(rpc(call).message)))
      && (rpc(call).RpcOk? ==> h.reply == ReadCredited(rpc(call).data))
  {
    match Validate(body)
    case Err(e) => Handled(Err(e), [])
    case Ok(call) =>
      var reply := rpc(call);
      match reply
      case RpcFailed(message) => Handled(Err(ClassifyError(message)), [call])
      case RpcOk(data) => Handled(ReadCredited(data), [call])
  }
}
