/** The draw registration handler (`spin_register_paid`): validate the spin id and entry type,
    call exactly one of the `rpc_spin_register_free` / `rpc_spin_register_paid` stored
    procedures, and classify its error message with the list that belongs to that procedure.
    Capacity, time windows and the fee debit live inside the procedures and are oracles here. */
module SpinRegister {
  import opened Wrappers
  import opened Text
  import opened Json
  import opened Api

  /** The request body: `{ spin_id, entry_type }`. */
  datatype Body = Body(spinId: Option<string>, entryType: Option<string>)

  /** The stored procedure called, with its `spin_id` argument. */
  datatype Call = RegisterFree(spinId: string) | RegisterPaid(spinId: string)

  /** The 200 responses: a free entry reports its id; a paid one also the balance it moved. */
  datatype Registered =
    | FreeEntry(entryId: Option<Value>)
    | PaidEntry(entryId: Option<Value>, balanceBefore: Option<Value>, balanceAfter: Option<Value>)

  /** What the free procedure's message is searched for, in order. */
  const FreeKnown: seq<ApiError> := [FreeNotAvailable, FreeSlotsFull, AlreadyJoinedFree, RegClosed, RegNotStarted, SpinNotOpen]

  /** What the paid procedure's message is searched for, in order. */
  const PaidKnown: seq<ApiError> := [InsufficientBalance, RegClosed, RegNotStarted, SpinNotOpen]

  /** Lines 33–37: the trimmed spin id must be non-empty (checked first), and the entry type
      must be exactly `"free"` or `"paid"`; the type picks the procedure. */
  function Validate(body: Body): (r: Result<Call, ApiError>)
    ensures r == Err(SpinIdRequired) <==> IsBlank(body.spinId.GetOr(""))
    ensures r == Err(InvalidEntryType)
            <==> !IsBlank(body.spinId.GetOr("")) && body.entryType != Some("free") && body.entryType != Some("paid")
    ensures r.Err? ==> r.error == SpinIdRequired || r.error == InvalidEntryType
    ensures r.Ok? ==> r.value.spinId == Trim(body.spinId.value) && r.value.spinId != []
    ensures r.Ok? ==> (r.value.RegisterFree? <==> body.entryType == Some("free"))
    ensures r.Ok? ==> (r.value.RegisterPaid? <==> body.entryType == Some("paid"))
  {
    var spinId := Trim(body.spinId.GetOr(""));
    if spinId == [] then Err(SpinIdRequired)
    else if body.entryType == Some("free") then Ok(RegisterFree(spinId))
    else if body.entryType == Some("paid") then Ok(RegisterPaid(spinId))
    else Err(InvalidEntryType)
  }

  /** Lines 41–49: a missing message reads as `"RPC_ERROR"`; the free-entry codes are tried
      first, then the registration-window and spin-state codes, in `FreeKnown` order. */
  function ClassifyFree(message: Option<string>): (e: ApiError)
    ensures var m := message.GetOr("RPC_ERROR");
      && (forall k | 0 <= k < |FreeKnown| :: e == FreeKnown[k] <==> FirstOccurring(m, FreeKnown, k))
      && (e == RpcError(m) <==> NoneOccurs(m, FreeKnown))
    ensures e in FreeKnown || e.RpcError?
  {
    assert WellFormed(FreeKnown);
    Classify(message.GetOr("RPC_ERROR"), FreeKnown)
  }

  /** Lines 57–63: only the balance, window and spin-state codes are recognised, in
      `PaidKnown` order. */
  function ClassifyPaid(message: Option<string>): (e: ApiError)
    ensures var m := message.GetOr("RPC_ERROR");
      && (forall k | 0 <= k < |PaidKnown| :: e == PaidKnown[k] <==> FirstOccurring(m, PaidKnown, k))
      && (e == RpcError(m) <==> NoneOccurs(m, PaidKnown))
    ensures e in PaidKnown || e.RpcError?
  {
    assert WellFormed(PaidKnown);
    Classify(message.GetOr("RPC_ERROR"), PaidKnown)
  }

  /** The free path's codes, pairwise: none occurs inside a later one. */
  lemma FreeCodesApart()
    ensures !Contains("FREE_SLOTS_FULL", "FREE_NOT_AVAILABLE")
    ensures !Contains("ALREADY_JOINED_FREE", "FREE_NOT_AVAILABLE")
    ensures !Contains("ALREADY_JOINED_FREE", "FREE_SLOTS_FULL")
    ensures !Contains("REG_CLOSED", "FREE_NOT_AVAILABLE")
    ensures !Contains("REG_CLOSED", "FREE_SLOTS_FULL")
    ensures !Contains("REG_CLOSED", "ALREADY_JOINED_FREE")
    ensures !Contains("REG_NOT_STARTED", "FREE_NOT_AVAILABLE")
    ensures !Contains("REG_NOT_STARTED", "FREE_SLOTS_FULL")
    ensures !Contains("REG_NOT_STARTED", "ALREADY_JOINED_FREE")
    ensures !Contains("REG_NOT_STARTED", "REG_CLOSED")
    ensures !Contains("SPIN_NOT_OPEN", "FREE_NOT_AVAILABLE")
    ensures !Contains("SPIN_NOT_OPEN", "FREE_SLOTS_FULL")
    ensures !Contains("SPIN_NOT_OPEN", "ALREADY_JOINED_FREE")
    ensures !Contains("SPIN_NOT_OPEN", "REG_CLOSED")
    ensures !Contains("SPIN_NOT_OPEN", "REG_NOT_STARTED")
  {
    MismatchRulesOut("ALREADY_JOINED_FREE", "FREE_NOT_AVAILABLE", 0);
    MismatchRulesOut("ALREADY_JOINED_FREE", "FREE_SLOTS_FULL", 0);
    MismatchRulesOut("REG_NOT_STARTED", "FREE_SLOTS_FULL", 0);
    MismatchRulesOut("REG_NOT_STARTED", "REG_CLOSED", 4);
    MismatchRulesOut("SPIN_NOT_OPEN", "REG_CLOSED", 0);
  }

  /** The codes of the free path's list, spelled out. */
  lemma FreeCodesAre()
    ensures forall k | 0 <= k < |FreeKnown| ::
              FreeKnown[k].Code() == ["FREE_NOT_AVAILABLE", "FREE_SLOTS_FULL", "ALREADY_JOINED_FREE",
                                      "REG_CLOSED", "REG_NOT_STARTED", "SPIN_NOT_OPEN"][k]
  {
  }

  /** The free path's list can be scanned unambiguously. */
  lemma FreeKnownApart()
    ensures Apart(FreeKnown)
  {
    FreeCodesAre();
    FreeCodesApart();
    var codes := ["FREE_NOT_AVAILABLE", "FREE_SLOTS_FULL", "ALREADY_JOINED_FREE", "REG_CLOSED", "REG_NOT_STARTED", "SPIN_NOT_OPEN"];
    forall i, j | 0 <= j < i < |FreeKnown|
      ensures !Contains(codes[i], codes[j])
    {
      if i == 1 { assert j == 0; }
      else if i == 2 { assert j == 0 || j == 1; }
      else if i == 3 { assert j == 0 || j == 1 || j == 2; }
      else if i == 4 { assert j == 0 || j == 1 || j == 2 || j == 3; }
      else { assert i == 5 && (j == 0 || j == 1 || j == 2 || j == 3 || j == 4); }
    }
  }

  /** A message that is exactly one of the free path's codes is classified as that code. */
  lemma ClassifyFreeRoundTrip()
    ensures forall k | 0 <= k < |FreeKnown| :: ClassifyFree(Some(FreeKnown[k].Code())) == FreeKnown[k]
  {
    assert WellFormed(FreeKnown);
    FreeKnownApart();
    ClassifyCodes(FreeKnown);
  }

  /** The paid path's codes, pairwise: none occurs inside a later one. */
  lemma PaidCodesApart()
    ensures !Contains("REG_CLOSED", "INSUFFICIENT_BALANCE")
    ensures !Contains("REG_NOT_STARTED", "INSUFFICIENT_BALANCE")
    ensures !Contains("REG_NOT_STARTED", "REG_CLOSED")
    ensures !Contains("SPIN_NOT_OPEN", "INSUFFICIENT_BALANCE")
    ensures !Contains("SPIN_NOT_OPEN", "REG_CLOSED")
    ensures !Contains("SPIN_NOT_OPEN", "REG_NOT_STARTED")
  {
    MismatchRulesOut("REG_NOT_STARTED", "REG_CLOSED", 4);
    MismatchRulesOut("SPIN_NOT_OPEN", "REG_CLOSED", 0);
  }

  /** The codes of the paid path's list, spelled out. */
  lemma PaidCodesAre()
    ensures forall k | 0 <= k < |PaidKnown| ::
              PaidKnown[k].Code() == ["INSUFFICIENT_BALANCE", "REG_CLOSED", "REG_NOT_STARTED", "SPIN_NOT_OPEN"][k]
  {
  }

  /** The paid path's list can be scanned unambiguously. */
  lemma PaidKnownApart()
    ensures Apart(PaidKnown)
  {
    PaidCodesAre();
    PaidCodesApart();
    var codes := ["INSUFFICIENT_BALANCE", "REG_CLOSED", "REG_NOT_STARTED", "SPIN_NOT_OPEN"];
    forall i, j | 0 <= j < i < |PaidKnown|
      ensures !Contains(codes[i], codes[j])
    {
      if i == 1 { assert j == 0; }
      else if i == 2 { assert j == 0 || j == 1; }
      else { assert i == 3 && (j == 0 || j == 1 || j == 2); }
    }
  }

  /** A message that is exactly one of the paid path's codes is classified as that code. */
  lemma ClassifyPaidRoundTrip()
    ensures forall k | 0 <= k < |PaidKnown| :: ClassifyPaid(Some(PaidKnown[k].Code())) == PaidKnown[k]
  {
    assert WellFormed(PaidKnown);
    PaidKnownApart();
    ClassifyCodes(PaidKnown);
  }

  /** The codes only the free procedure raises contain none of the paid path's codes. */
  lemma FreeOnlyCodesUnknownToPaid()
    ensures !Contains("FREE_NOT_AVAILABLE", "INSUFFICIENT_BALANCE")
    ensures !Contains("FREE_NOT_AVAILABLE", "REG_CLOSED")
    ensures !Contains("FREE_NOT_AVAILABLE", "REG_NOT_STARTED")
    ensures !Contains("FREE_NOT_AVAILABLE", "SPIN_NOT_OPEN")
    ensures !Contains("FREE_SLOTS_FULL", "INSUFFICIENT_BALANCE")
    ensures !Contains("FREE_SLOTS_FULL", "REG_CLOSED")
    ensures !Contains("FREE_SLOTS_FULL", "REG_NOT_STARTED")
    ensures !Contains("FREE_SLOTS_FULL", "SPIN_NOT_OPEN")
    ensures !Contains("ALREADY_JOINED_FREE", "INSUFFICIENT_BALANCE")
    ensures !Contains("ALREADY_JOINED_FREE", "REG_CLOSED")
    ensures !Contains("ALREADY_JOINED_FREE", "REG_NOT_STARTED")
    ensures !Contains("ALREADY_JOINED_FREE", "SPIN_NOT_OPEN")
  {
    MismatchRulesOut("FREE_NOT_AVAILABLE", "REG_CLOSED", 2);
    MismatchRulesOut("FREE_NOT_AVAILABLE", "REG_NOT_STARTED", 2);
    MismatchRulesOut("FREE_NOT_AVAILABLE", "SPIN_NOT_OPEN", 0);
    MismatchRulesOut("FREE_SLOTS_FULL", "REG_CLOSED", 2);
    MismatchRulesOut("FREE_SLOTS_FULL", "REG_NOT_STARTED", 0);
    MismatchRulesOut("FREE_SLOTS_FULL", "SPIN_NOT_OPEN", 0);
    MismatchRulesOut("ALREADY_JOINED_FREE", "REG_CLOSED", 2);
    MismatchRulesOut("ALREADY_JOINED_FREE", "REG_NOT_STARTED", 2);
    MismatchRulesOut("ALREADY_JOINED_FREE", "SPIN_NOT_OPEN", 0);
  }

  /** The codes only the free procedure raises are not recognised on the paid path: such a
      message becomes a 500 `RPC_ERROR` carrying it. */
  lemma PaidIgnoresFreeOnlyCodes()
    ensures forall k | 0 <= k < 3 :: ClassifyPaid(Some(FreeKnown[k].Code())) == RpcError(FreeKnown[k].Code())
  {
    FreeOnlyCodesUnknownToPaid();
    FreeCodesAre();
    PaidCodesAre();
    var free := ["FREE_NOT_AVAILABLE", "FREE_SLOTS_FULL", "ALREADY_JOINED_FREE"];
    var paid := ["INSUFFICIENT_BALANCE", "REG_CLOSED", "REG_NOT_STARTED", "SPIN_NOT_OPEN"];
    forall k, j | 0 <= k < 3 && 0 <= j < |PaidKnown|
      ensures !Contains(free[k], paid[j])
    {
      assert k == 0 || k == 1 || k == 2;
      assert j == 0 || j == 1 || j == 2 || j == 3;
    }
  }

  /** Lines 51–52 and 66–73: the response fields come from the first row (or the reply itself). */
  function ReadRegistered(call: Call, data: Value): (r: Result<Registered, ApiError>)
    ensures r.Err? <==> data == JNull || (data.JArr? && (|data.items| == 0 || data.items[0] == JNull))
    ensures r.Err? ==> r.error.ServerError?
    ensures r.Ok? ==> (r.value.FreeEntry? <==> call.RegisterFree?)
    ensures r.Ok? ==> r.value.entryId == Field(RowOf(data).value, "entry_id")
    ensures r.Ok? && call.RegisterPaid? ==>
      && r.value.balanceBefore == Field(RowOf(data).value, "balance_before")
      && r.value.balanceAfter == Field(RowOf(data).value, "balance_after")
  {
    match RowOf(data)
    case Err(e) => Err(e)
    case Ok(row) =>
      if call.RegisterFree? then Ok(FreeEntry(Field(row, "entry_id")))
      else Ok(PaidEntry(Field(row, "entry_id"), Field(row, "balance_before"), Field(row, "balance_after")))
  }

  /** An array reply is read as its first row: a row on its own and the same row at the head
      of an array read the same. */
  lemma ReadRegisteredFirstRow(call: Call, v: Value, rest: seq<Value>)
    ensures !v.JArr? ==> ReadRegistered(call, JArr([v] + rest)) == ReadRegistered(call, v)
  {
    RowOfArray(v, rest);
  }

  /** The handler body, lines 32–73, for an authenticated caller; `rpc` answers whichever
      procedure is called. A valid request makes exactly one call, an invalid one none. */
  function Register(body: Body, rpc: Call -> RpcReply): (h: Handled<Registered, Call>)
    ensures h.calls == [] <==> Validate(body).Err?
    ensures Validate(body).Err? ==> h.reply == Err(Validate(body).error)
    ensures Validate(body).Ok? ==>
      var call := Validate(body).value;
      && h.calls == [call]
      && (rpc(call).RpcFailed? && call.RegisterFree? ==> h.reply == Err(ClassifyFree(rpc(call).message)))
      && (rpc(call).RpcFailed? && call.RegisterPaid? ==> h.reply == Err(ClassifyPaid(rpc(call).message)))
      && (rpc(call).RpcOk? ==> h.reply == ReadRegistered(call, rpc(call).data))
  {
    match Validate(body)
    case Err(e) => Handled(Err(e), [])
    case Ok(call) =>
      match rpc(call)
      case RpcFailed(message) =>
        Handled(Err(if call.RegisterFree? then ClassifyFree(message) else ClassifyPaid(message)), [call])
      case RpcOk(data) => Handled(ReadRegistered(call, data), [call])
  }
}
