/** What every handler shares: the typed errors it answers with (the `error` field of the
    JSON body and the HTTP status), the shape of a stored-procedure reply, the row a
    successful reply is read from, and the first-match classification of a stored
    procedure's error message. */
module Api {
  import opened Wrappers
  import opened Text
  import opened Json

  datatype ApiError =
    // create_order_and_deduct_coins
    | BadItemRef
    | ProfileIncomplete
    | DealNotFound
    | MenuItemNotFound
    | InvalidMightyPrice
    | RestaurantNotFound
    | RestaurantRestricted
    | InsufficientBalance
    // admin_topup_by_unique_code
    | InvalidUniqueCode
    | InvalidAmount
    | Forbidden
    | UserNotFound
    | InvalidType
    // spin_register_paid and start_spin_pick_winner
    | SpinIdRequired
    | InvalidEntryType
    | FreeNotAvailable
    | FreeSlotsFull
    | AlreadyJoinedFree
    | RegClosed
    | RegNotStarted
    | SpinNotOpen
    | NoParticipants
    | ForcedUserNotFound
    | ForcedUserNotParticipant
    // notify_spin_published and notify_spin_winner
    | SpinNotFound
    | SpinCityEmpty
    | WinnerNotSetYet
    // admin_create_restaurant
    | MissingBearer
    | InvalidUserToken
    | NotAdmin
    | InvalidJsonBody
    | MissingRequiredFields
    | AuthUserCreateFailed(detail: string)
    | ProfileCreateFailed(detail: string)
    | RestaurantCreateFailed(detail: string)
    // any handler
    | RpcError(details: string)
    | ServerError(details: string)
  {
    /** The `error` field of the response body. */
    function Code(): (c: string)
      ensures c != []
    {
      match this
      case BadItemRef => "Provide exactly one of deal_id or menu_item_id"
      case ProfileIncomplete => "PROFILE_INCOMPLETE"
      case DealNotFound => "DEAL_NOT_FOUND"
      case MenuItemNotFound => "MENU_ITEM_NOT_FOUND"
      case InvalidMightyPrice => "INVALID_MIGHTY_PRICE"
      case RestaurantNotFound => "RESTAURANT_NOT_FOUND"
      case RestaurantRestricted => "RESTAURANT_RESTRICTED"
      case InsufficientBalance => "INSUFFICIENT_BALANCE"
      case InvalidUniqueCode => "INVALID_UNIQUE_CODE"
      case InvalidAmount => "INVALID_AMOUNT"
      case Forbidden => "FORBIDDEN"
      case UserNotFound => "USER_NOT_FOUND"
      case InvalidType => "INVALID_TYPE"
      case SpinIdRequired => "SPIN_ID_REQUIRED"
      case InvalidEntryType => "INVALID_ENTRY_TYPE"
      case FreeNotAvailable => "FREE_NOT_AVAILABLE"
      case FreeSlotsFull => "FREE_SLOTS_FULL"
      case AlreadyJoinedFree => "ALREADY_JOINED_FREE"
      case RegClosed => "REG_CLOSED"
      case RegNotStarted => "REG_NOT_STARTED"
      case SpinNotOpen => "SPIN_NOT_OPEN"
      case NoParticipants => "NO_PARTICIPANTS"
      case ForcedUserNotFound => "FORCED_USER_NOT_FOUND"
      case ForcedUserNotParticipant => "FORCED_USER_NOT_PARTICIPANT"
      case SpinNotFound => "SPIN_NOT_FOUND"
      case SpinCityEmpty => "SPIN_CITY_EMPTY"
      case WinnerNotSetYet => "WINNER_NOT_SET_YET"
      case MissingBearer => "Missing bearer token"
      case InvalidUserToken => "Invalid user token"
      case NotAdmin => "Only admin can perform this action"
      case InvalidJsonBody => "Invalid JSON body"
      case MissingRequiredFields => "email, password, name, city are required"
      case AuthUserCreateFailed(_) => "Failed to create auth user"
      case ProfileCreateFailed(_) => "Failed to create profile"
      case RestaurantCreateFailed(_) => "Failed to create restaurant"
      case RpcError(_) => "RPC_ERROR"
      case ServerError(_) => "SERVER_ERROR"
    }

    /** The HTTP status the handler answers with. */
    function Status(): int {
      match this
      case DealNotFound | MenuItemNotFound | RestaurantNotFound | UserNotFound | SpinNotFound => 404
      case RestaurantRestricted | Forbidden | NotAdmin => 403
      case MissingBearer | InvalidUserToken => 401
      case RpcError(_) | ServerError(_) => 500
      case _ => 400
    }
  }

  /** What an opaque stored procedure (`client.rpc(...)`) hands back: its data, or an error
      whose message may be missing. */
  datatype RpcReply = RpcOk(data: Value) | RpcFailed(message: Option<string>)

  /** A handler's answer together with the stored-procedure calls it made, in order. */
  datatype Handled<T, C> = Handled(reply: Result<T, ApiError>, calls: seq<C>)

  /** `Array.isArray(data) ? data[0] : data`, with `None` for `undefined`. */
  function FirstRow(data: Value): (r: Option<Value>)
    ensures data.JArr? && |data.items| > 0 ==> r == Some(data.items[0])
    ensures data.JArr? && |data.items| == 0 ==> r == None
    ensures !data.JArr? ==> r == Some(data)
  {
    match data
    case JArr(items) => if |items| > 0 then Some(items[0]) else None
    case _ => Some(data)
  }

  /** The row a successful reply is read from. Reading a field of an `undefined` or `null`
      row throws, and the handler's `catch` answers 500 `SERVER_ERROR`. */
  function RowOf(data: Value): (r: Result<Value, ApiError>)
    ensures r.Err? <==> data == JNull || (data.JArr? && (|data.items| == 0 || data.items[0] == JNull))
    ensures r.Err? ==> r.error.ServerError?
    ensures r.Ok? && data.JArr? ==> r.value == data.items[0]
    ensures r.Ok? && !data.JArr? ==> r.value == data
  {
    match FirstRow(data)
    case None => Err(ServerError(ReadOfNothing))
    case Some(JNull) => Err(ServerError(ReadOfNothing))
    case Some(row) => Ok(row)
  }

  /** An array reply is read through its first element, and a reply that is a single row is
      read as it is: a non-array reply and the same value at the head of an array give the
      same row, or the same error. */
  lemma RowOfArray(v: Value, rest: seq<Value>)
    ensures !v.JArr? ==> RowOf(JArr([v] + rest)) == RowOf(v)
    ensures v.JObj? ==> RowOf(v) == Ok(v)
  {
  }

  /** `m || fallback` for an error message: a missing or empty message is replaced. The
      result is the message or the fallback; a non-empty message always wins, and an empty
      result can only come from an empty fallback. */
  function MessageOr(m: Option<string>, fallback: string): (r: string)
    ensures m == Some(r) || r == fallback
    ensures m.Some? && m.value != [] ==> r == m.value
    ensures r == [] ==> fallback == []
  {
    if m.Some? && m.value != [] then m.value else fallback
  }

  /** Replacing twice is replacing once: a result fed back as the message comes back
      unchanged. */
  lemma MessageOrIdempotent(m: Option<string>, fallback: string)
    ensures MessageOr(Some(MessageOr(m, fallback)), fallback) == MessageOr(m, fallback)
  {
  }

  /** The index of the first error in `known` whose code occurs in `msg`, or `|known|`
      when none does. */
  function FirstKnown(msg: string, known: seq<ApiError>): (k: nat)
    ensures k <= |known|
    ensures forall j | 0 <= j < k :: !Contains(msg, known[j].Code())
    ensures k < |known| ==> Contains(msg, known[k].Code())
    decreases |known|
  {
    if |known| == 0 then 0
    else if Contains(msg, known[0].Code()) then 0
    else 1 + FirstKnown(msg, known[1..])
  }

  /** A list of errors a classifier may answer with: no `RPC_ERROR` among them, none twice. */
  predicate WellFormed(known: seq<ApiError>) {
    && (forall j | 0 <= j < |known| :: !known[j].RpcError?)
    && (forall i, j | 0 <= i < j < |known| :: known[i] != known[j])
  }

  /** The code of `known[k]` occurs in `msg` and no earlier code does. */
  predicate FirstOccurring(msg: string, known: seq<ApiError>, k: int) {
    && 0 <= k < |known|
    && Contains(msg, known[k].Code())
    && forall j | 0 <= j < k :: !Contains(msg, known[j].Code())
  }

  /** No code of `known` occurs in `msg`. */
  predicate NoneOccurs(msg: string, known: seq<ApiError>) {
    forall j | 0 <= j < |known| :: !Contains(msg, known[j].Code())
  }

  /** The handlers' `if (m.includes("X")) return X; ...; return RPC_ERROR` chains: each
      recognised substring is the code of the error it yields, the first one found in the
      listed order wins, and anything else is an `RPC_ERROR` carrying the message. */
  function Classify(msg: string, known: seq<ApiError>): (e: ApiError)
    requires WellFormed(known)
    ensures forall k | 0 <= k < |known| :: e == known[k] <==> FirstOccurring(msg, known, k)
    ensures e.RpcError? <==> NoneOccurs(msg, known)
    ensures e.RpcError? ==> e == RpcError(msg)
    ensures !e.RpcError? ==> e in known
  {
    var f := FirstKnown(msg, known);
    if f < |known| then
      assert FirstOccurring(msg, known, f);
      known[f]
    else
      RpcError(msg)
  }

  /** Round trip: an error message that is exactly a recognised code classifies back to that
      error, provided no earlier code in the list occurs inside it. */
  lemma ClassifyCode(known: seq<ApiError>, k: nat)
    requires WellFormed(known)
    requires k < |known|
    requires forall j | 0 <= j < k :: !Contains(known[k].Code(), known[j].Code())
    ensures Classify(known[k].Code(), known) == known[k]
  {
    ContainsSelf(known[k].Code());
    assert FirstOccurring(known[k].Code(), known, k);
  }

  /** No recognised code occurs inside a later one, so each can be told apart by the scan. */
  predicate Apart(known: seq<ApiError>) {
    forall i, j | 0 <= j < i < |known| :: !Contains(known[i].Code(), known[j].Code())
  }

  /** Every recognised code, sent as the whole message, classifies back to its own error. */
  lemma ClassifyCodes(known: seq<ApiError>)
    requires WellFormed(known) && Apart(known)
    ensures forall k | 0 <= k < |known| :: Classify(known[k].Code(), known) == known[k]
  {
    forall k | 0 <= k < |known|
      ensures Classify(known[k].Code(), known) == known[k]
    {
      ClassifyCode(known, k);
    }
  }
}
