/** What the two spin notifiers share: the spin and push-token tables they read, `chunk`,
    the selection of a city's device tokens, and the loop that sends to the tokens in chunks
    of 200 and adds up the per-chunk counts. */
module Fanout {
  import opened Wrappers
  import opened Text
  import opened Json
  import opened Api
  import opened Fcm

  /** A `spins` row, as far as the notifiers read it. */
  datatype Spin = Spin(city: Option<string>, status: Option<string>, winnerUserId: Option<string>, winnerCode: Option<string>)

  /** A `push_tokens` row: its city and its `token` column, which may hold anything. */
  datatype PushRow = PushRow(city: string, token: Value)

  /** The snapshot the notifiers read. */
  datatype Store = Store(spins: map<string, Spin>, pushTokens: seq<PushRow>)

  /** The 200 answers: skipped (the published notifier only), nothing to send to, or the totals. */
  datatype Notified =
    | Skipped(status: Option<string>, city: string)
    | NoTokens(city: string)
    | Totals(city: string, sent: nat, failed: nat)

  /** The size both notifiers cut the token list into. */
  const ChunkSize := 200

  // ---------------------------------------------------------------------------
  // `chunk`
  // ---------------------------------------------------------------------------

  /** `chunk(arr, size)`: consecutive slices of `size` elements, the last one possibly
      shorter. */
  function Chunk<T>(arr: seq<T>, size: nat): (pieces: seq<seq<T>>)
    requires size > 0
    ensures forall i | 0 <= i < |pieces| :: 0 < |pieces[i]| <= size
    ensures forall i | 0 <= i < |pieces| - 1 :: |pieces[i]| == size
    decreases |arr|
  {
    if |arr| == 0 then []
    else if |arr| <= size then [arr]
    else [arr[..size]] + Chunk(arr[size..], size)
  }

  /** The pieces joined back together, in order. */
  function Flatten<T>(pieces: seq<seq<T>>): seq<T> {
    if |pieces| == 0 then [] else pieces[0] + Flatten(pieces[1..])
  }

  /** Joining the pieces gives back the input. */
  lemma {:induction false} ChunkFlatten<T>(arr: seq<T>, size: nat)
    requires size > 0
    ensures Flatten(Chunk(arr, size)) == arr
    decreases |arr|
  {
    if |arr| > size {
      var pieces := Chunk(arr, size);
      assert pieces[1..] == Chunk(arr[size..], size);
      ChunkFlatten(arr[size..], size);
      assert arr == arr[..size] + arr[size..];
    }
  }

  /** There are ⌈n / size⌉ pieces: enough to hold the input, and one fewer would not be. */
  lemma {:induction false} ChunkCount<T>(arr: seq<T>, size: nat)
    requires size > 0
    ensures |Chunk(arr, size)| == 0 <==> |arr| == 0
    ensures |arr| <= |Chunk(arr, size)| * size
    ensures |Chunk(arr, size)| > 0 ==> (|Chunk(arr, size)| - 1) * size < |arr|
    decreases |arr|
  {
    if |arr| > size {
      var m := |Chunk(arr[size..], size)|;
      assert |Chunk(arr, size)| == m + 1;
      ChunkCount(arr[size..], size);
      assert (m + 1) * size == m * size + size;
    }
  }

  /** One step of the source's loop: the piece starting at offset `i` is the slice up to
      `i + size`, cut short at the end of the input. */
  lemma ChunkStep<T>(arr: seq<T>, size: nat, i: nat)
    requires size > 0 && i < |arr|
    ensures var j := if i + size < |arr| then i + size else |arr|;
            Chunk(arr[i..], size) == [arr[i..j]] + Chunk(arr[j..], size)
  {
    var rest := arr[i..];
    if |rest| > size {
      assert rest[..size] == arr[i..i + size];
      assert rest[size..] == arr[i + size..];
    } else {
      assert Chunk(rest, size) == [rest];
      assert arr[i..|arr|] == rest;
      assert arr[|arr|..] == [];
    }
  }

  /** Lines 20–24, as the source writes it: a loop stepping by `size` that pushes
      `arr.slice(i, i + size)`. It computes `Chunk`. */
  method ChunkLoop<T>(arr: seq<T>, size: nat) returns (out: seq<seq<T>>)
    requires size > 0
    ensures out == Chunk(arr, size)
  {
    out := [];
    var i := 0;
    while i < |arr|
      invariant i <= |arr|
      invariant out + Chunk(arr[i..], size) == Chunk(arr, size)
      decreases |arr| - i
    {
      var j := if i + size < |arr| then i + size else |arr|;
      ChunkStep(arr, size, i);
      out := out + [arr[i..j]];
      i := j;
    }
  }

  /** Every element of every piece is an element of the joined list. */
  lemma {:induction false} FlattenHolds<T>(pieces: seq<seq<T>>, k: nat, x: T)
    requires k < |pieces| && x in pieces[k]
    ensures x in Flatten(pieces)
    decreases |pieces|
  {
    if k > 0 {
      FlattenHolds(pieces[1..], k - 1, x);
    }
  }

  /** Joining one more piece appends it. */
  lemma {:induction false} FlattenSnoc<T>(pieces: seq<seq<T>>, k: nat)
    requires k < |pieces|
    ensures Flatten(pieces[..k + 1]) == Flatten(pieces[..k]) + pieces[k]
    decreases k
  {
    if k > 0 {
      assert pieces[..k + 1][1..] == pieces[1..][..k];
      assert pieces[..k][1..] == pieces[1..][..k - 1];
      FlattenSnoc(pieces[1..], k - 1);
    } else {
      assert Flatten(pieces[..1]) == pieces[0] + Flatten(pieces[..1][1..]);
    }
  }

  // ---------------------------------------------------------------------------
  // Tokens.
  // ---------------------------------------------------------------------------

  /** A device token worth sending to: a non-empty string. */
  predicate Usable(v: Value) {
    v.JStr? && v.s != []
  }

  /** The notifiers' token query and filter (published lines 81–92, winner lines 71–82):
      the `token` of every row of `city`, kept when it is a non-empty string, in row order. */
  function CityTokens(rows: seq<PushRow>, city: string): (r: seq<string>)
    ensures forall i | 0 <= i < |r| :: r[i] != []
    ensures forall t :: t in r <==> exists k | 0 <= k < |rows| :: rows[k].city == city && rows[k].token == JStr(t) && t != []
    ensures |r| <= |rows|
    decreases |rows|
  {
    if |rows| == 0 then []
    else
      var rest := CityTokens(rows[1..], city);
      assert forall t :: (exists k | 0 <= k < |rows[1..]| :: rows[1..][k].city == city && rows[1..][k].token == JStr(t) && t != [])
                     <==> (exists k | 1 <= k < |rows| :: rows[k].city == city && rows[k].token == JStr(t) && t != []) by {
        forall t | exists k | 1 <= k < |rows| :: rows[k].city == city && rows[k].token == JStr(t) && t != []
          ensures exists k | 0 <= k < |rows[1..]| :: rows[1..][k].city == city && rows[1..][k].token == JStr(t) && t != []
        {
          var k :| 1 <= k < |rows| && rows[k].city == city && rows[k].token == JStr(t) && t != [];
          assert rows[1..][k - 1] == rows[k];
        }
      }
      if rows[0].city == city && Usable(rows[0].token) then [rows[0].token.s] + rest else rest
  }

  /** The selection works row by row: selecting from a concatenation concatenates the
      selections, so tokens keep their row order and a token on two rows is sent twice.
      Together with the one-row case this determines `CityTokens` on every table. */
  lemma {:induction false} CityTokensAppend(a: seq<PushRow>, b: seq<PushRow>, city: string)
    ensures CityTokens(a + b, city) == CityTokens(a, city) + CityTokens(b, city)
    ensures forall row :: CityTokens([row], city) == if row.city == city && Usable(row.token) then [row.token.s] else []
    decreases |a|
  {
    if |a| > 0 {
      assert (a + b)[1..] == a[1..] + b;
      assert (a + b)[0] == a[0];
      CityTokensAppend(a[1..], b, city);
    } else {
      assert a + b == b;
    }
  }

  // ---------------------------------------------------------------------------
  // Sending in chunks.
  // ---------------------------------------------------------------------------

  /** Every token non-empty. */
  predicate Clean(tokens: seq<string>) {
    forall i | 0 <= i < |tokens| :: tokens[i] != []
  }

  /** Every piece of a clean list is clean. */
  lemma CleanPiece(pieces: seq<seq<string>>, k: nat)
    requires k < |pieces| && Clean(Flatten(pieces))
    ensures Clean(pieces[k])
  {
    forall i | 0 <= i < |pieces[k]| ensures pieces[k][i] != [] {
      FlattenHolds(pieces, k, pieces[k][i]);
    }
  }

  /** The requests for a concatenation are the concatenated requests. */
  lemma RequestsForAppend(at: AccessToken, a: seq<string>, b: seq<string>, data: map<string, string>)
    ensures RequestsFor(at, a + b, data) == RequestsFor(at, a, data) + RequestsFor(at, b, data)
  {
  }

  /** The requests' delivered count splits over a concatenation. */
  lemma {:induction false} DeliveredAppend(a: seq<Request>, b: seq<Request>, delivered: Request -> bool)
    ensures Delivered(a + b, delivered) == Delivered(a, delivered) + Delivered(b, delivered)
    decreases |b|
  {
    if |b| > 0 {
      var b' := b[..|b| - 1];
      assert (a + b)[..|a + b| - 1] == a + b';
      assert (a + b)[|a + b| - 1] == b[|b| - 1];
      DeliveredAppend(a, b', delivered);
    } else {
      assert a + b == a;
    }
  }

  /** One chunk's call (published line 106, winner line 95): the chunk is clean and
      non-empty, so the sender asks for an access token and, given one, sends to every token of
      the chunk once, in order. */
  method SendChunk(part: seq<string>, data: map<string, string>, access: Result<AccessToken, string>,
                   delivered: Request -> bool)
    returns (d: Delivery)
    requires Clean(part) && part != []
    ensures d.result.Ok? <==> access.Ok?
    ensures d.result.Err? ==> d.result.error == access.error
    ensures d.result.Ok? ==>
      && d.requests == RequestsFor(access.value, part, data)
      && d.result.value.sent + d.result.value.failed == |part|
      && d.result.value.sent == Delivered(d.requests, delivered)
  {
    NonEmptyKeepsClean(part);
    d := SendFcmToTokens(part, data, access, delivered);
  }

  /** Appending one chunk's requests to the requests made so far. */
  lemma Accumulate(at: AccessToken, prefix: seq<string>, part: seq<string>, data: map<string, string>,
                   requests: seq<Request>, more: seq<Request>, delivered: Request -> bool)
    requires requests == RequestsFor(at, prefix, data) && more == RequestsFor(at, part, data)
    ensures requests + more == RequestsFor(at, prefix + part, data)
    ensures Delivered(requests + more, delivered) == Delivered(requests, delivered) + Delivered(more, delivered)
  {
    RequestsForAppend(at, prefix, part, data);
    DeliveredAppend(requests, more, delivered);
  }

  /** Published lines 102–114, winner lines 91–105: send to each chunk of 200 in turn with
      the same data, adding up the counts. Each chunk's call asks for an access token
      (`access`, the same answer every time); a failure throws, which ends the loop.
      Every token is sent to exactly once, in order, so the totals add up to the number of
      tokens. */
  method SendInChunks(tokens: seq<string>, data: map<string, string>, access: Result<AccessToken, string>,
                      delivered: Request -> bool)
    returns (result: Result<SendResult, string>, requests: seq<Request>)
    requires Clean(tokens)
    ensures tokens == [] ==> result.Ok? && requests == []
    ensures result.Err? <==> tokens != [] && access.Err?
    ensures result.Err? ==> result.error == access.error && requests == []
    ensures result.Ok? && tokens != [] ==> requests == RequestsFor(access.value, tokens, data)
    ensures result.Ok? ==> result.value.sent + result.value.failed == |tokens|
    ensures result.Ok? ==> result.value.sent == Delivered(requests, delivered)
  {
    var chunks := Chunk(tokens, ChunkSize);
    ChunkFlatten(tokens, ChunkSize);
    ChunkCount(tokens, ChunkSize);
    var sent: nat, failed: nat := 0, 0;
    requests := [];
    for k := 0 to |chunks|
      invariant access.Err? ==> k == 0
      invariant access.Ok? ==> requests == RequestsFor(access.value, Flatten(chunks[..k]), data)
      invariant k == 0 ==> requests == [] && Flatten(chunks[..k]) == []
      invariant sent + failed == |Flatten(chunks[..k])|
      invariant sent == Delivered(requests, delivered)
    {
      var part := chunks[k];
      CleanPiece(chunks, k);
      var d := SendChunk(part, data, access, delivered);
      if d.result.Err? {
        return Err(d.result.error), [];
      }
      FlattenSnoc(chunks, k);
      Accumulate(access.value, Flatten(chunks[..k]), part, data, requests, d.requests, delivered);
      requests := requests + d.requests;
      sent := sent + d.result.value.sent;
      failed := failed + d.result.value.failed;
    }
    assert chunks[..|chunks|] == chunks;
    result := Ok(SendResult(sent, failed));
  }

  // ---------------------------------------------------------------------------
  // The shared handler skeleton.
  // ---------------------------------------------------------------------------

  /** A spin that was found, with the trimmed id it was found under and its trimmed city. */
  datatype Located = Located(spinId: string, spin: Spin, city: string)

  /** Published lines 39–66, winner lines 38–64: the trimmed spin id must be non-empty, the
      spin must exist, and its trimmed city must be non-empty, checked in that order. */
  function LocateSpin(spinId: Option<string>, store: Store): (r: Result<Located, ApiError>)
    ensures r == Err(SpinIdRequired) <==> IsBlank(spinId.GetOr(""))
    ensures r == Err(SpinNotFound) <==> !IsBlank(spinId.GetOr("")) && Trim(spinId.value) !in store.spins
    ensures r == Err(SpinCityEmpty) <==>
      && !IsBlank(spinId.GetOr("")) && Trim(spinId.value) in store.spins
      && IsBlank(store.spins[Trim(spinId.value)].city.GetOr(""))
    ensures r.Err? ==> r.error in {SpinIdRequired, SpinNotFound, SpinCityEmpty}
    ensures r.Ok? ==>
      && r.value.spinId == Trim(spinId.value) && r.value.spinId in store.spins
      && r.value.spin == store.spins[r.value.spinId]
      && r.value.city == Trim(r.value.spin.city.value) && r.value.city != []
  {
    var id := Trim(spinId.GetOr(""));
    if id == [] then Err(SpinIdRequired)
    else if id !in store.spins then Err(SpinNotFound)
    else
      var spin := store.spins[id];
      var city := Trim(spin.city.GetOr(""));
      if city == [] then Err(SpinCityEmpty) else Ok(Located(id, spin, city))
  }

  /** What a notifier decides before sending: an answer, or a list of tokens to send to
      with the data every message carries. */
  datatype Plan = Answer(reply: Result<Notified, ApiError>) | Send(city: string, tokens: seq<string>, data: map<string, string>)

  /** The tokens of a located spin's city; none means the `NO_TOKENS` answer. */
  function PlanSend(at: Located, store: Store, data: map<string, string>): (pl: Plan)
    ensures pl.Send? <==> CityTokens(store.pushTokens, at.city) != []
    ensures pl.Send? ==> pl.city == at.city && pl.tokens == CityTokens(store.pushTokens, at.city) && Clean(pl.tokens)
    ensures pl.Send? ==> pl.data == data
    ensures pl.Answer? ==> pl.reply == Ok(NoTokens(at.city))
  {
    var tokens := CityTokens(store.pushTokens, at.city);
    if tokens == [] then Answer(Ok(NoTokens(at.city))) else Send(at.city, tokens, data)
  }

  /** Carry out a plan: answer at once, or send in chunks and report the totals; a throw
      while sending is a 500 `SERVER_ERROR` carrying its message. */
  method Run(plan: Plan, access: Result<AccessToken, string>, delivered: Request -> bool)
    returns (reply: Result<Notified, ApiError>, requests: seq<Request>)
    requires plan.Send? ==> Clean(plan.tokens) && plan.tokens != []
    ensures plan.Answer? ==> reply == plan.reply && requests == []
    ensures plan.Send? && access.Err? ==> reply == Err(ServerError(access.error)) && requests == []
    ensures plan.Send? && access.Ok? ==>
      && reply.Ok? && reply.value.Totals? && reply.value.city == plan.city
      && reply.value.sent + reply.value.failed == |plan.tokens|
      && requests == RequestsFor(access.value, plan.tokens, plan.data)
      && reply.value.sent == Delivered(requests, delivered)
  {
    match plan
    case Answer(r) =>
      return r, [];
    case Send(city, tokens, data) =>
      var result;
      result, requests := SendInChunks(tokens, data, access, delivered);
      if result.Err? {
        return Err(ServerError(result.error)), [];
      }
      reply := Ok(Totals(city, result.value.sent, result.value.failed));
  }
}
