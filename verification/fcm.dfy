/** The push sender shared by the notifiers (`_shared/fcm.ts`): read and check the Firebase
    service account, obtain an access token, and send one message per clean device token,
    counting deliveries and failures. Base64 decoding, JSON parsing, JWT signing, the OAuth
    exchange and each HTTP send are opaque and enter as parameters. */
module Fcm {
  import opened Wrappers
  import opened Text
  import opened Json

  // ---------------------------------------------------------------------------
  // `must`
  // ---------------------------------------------------------------------------

  /** A value `must` accepts: defined, not `null`, and not a string of only whitespace. */
  predicate Present(v: Option<Value>) {
    v.Some? && v.value != JNull && !(v.value.JStr? && IsBlank(v.value.s))
  }

  /** Lines 11–16: reject `undefined`, `null` and a string that trims to empty with
      `Missing <name>`; hand anything else back unchanged. */
  function Must(v: Option<Value>, name: string): (r: Result<Value, string>)
    ensures r.Ok? <==> Present(v)
    ensures r.Ok? ==> r.value == v.value
    ensures r.Err? ==> r.error == "Missing " + name
  {
    if v.None? || v.value == JNull || (v.value.JStr? && Trim(v.value.s) == []) then Err("Missing " + name)
    else Ok(v.value)
  }

  // ---------------------------------------------------------------------------
  // The service account.
  // ---------------------------------------------------------------------------

  /** A secret that is set and not blank (`s && s.trim().length > 0`). */
  predicate Given(s: Option<string>) {
    s.Some? && !IsBlank(s.value)
  }

  const BadBase64 := "FCM_SERVICE_ACCOUNT_JSON_B64 is not valid base64"
  const NoServiceAccount := "Missing FCM_SERVICE_ACCOUNT_JSON_B64 (or FCM_SERVICE_ACCOUNT_JSON) env var"
  const BadJson := "Firebase service account JSON is not valid JSON"
  /** Calling `.replace` on a private key that is not a string throws. The text stands for
      the engine's message; the prefix the handlers add or omit is not modelled. */
  const KeyNotText := "TypeError: private_key.replace is not a function"

  /** Lines 23–38: the base64 secret, decoded by `atob` (`None` when it throws), when it is
      given; otherwise the raw secret when it is given; otherwise an error. */
  function ReadServiceAccountJson(b64: Option<string>, raw: Option<string>, atob: string -> Option<string>)
    : (r: Result<string, string>)
    ensures Given(b64) && atob(b64.value).Some? ==> r == Ok(atob(b64.value).value)
    ensures Given(b64) && atob(b64.value).None? ==> r == Err(BadBase64)
    ensures !Given(b64) && Given(raw) ==> r == Ok(raw.value)
    ensures !Given(b64) && !Given(raw) ==> r == Err(NoServiceAccount)
  {
    if b64.Some? && |Trim(b64.value)| > 0 then
      match atob(b64.value)
      case None => Err(BadBase64)
      case Some(text) => Ok(text)
    else if raw.Some? && |Trim(raw.value)| > 0 then Ok(raw.value)
    else Err(NoServiceAccount)
  }

  /** The base64 secret wins: once it is given, the raw secret is never looked at, even when
      the base64 text does not decode. */
  lemma Base64Wins(b64: Option<string>, raw1: Option<string>, raw2: Option<string>, atob: string -> Option<string>)
    requires Given(b64)
    ensures ReadServiceAccountJson(b64, raw1, atob) == ReadServiceAccountJson(b64, raw2, atob)
    ensures ReadServiceAccountJson(b64, raw1, atob).Ok? ==> atob(b64.value).Some?
  {
  }

  /** A literal backslash followed by `n` starts at `i`. */
  predicate EscapeAt(s: string, i: int) {
    0 <= i && i + 1 < |s| && s[i] == '\\' && s[i + 1] == 'n'
  }

  /** No literal backslash-`n` pair anywhere. */
  predicate NoEscapes(s: string) {
    forall i | 0 <= i < |s| :: !EscapeAt(s, i)
  }

  /** Line 55, `replace(/\\n/g, "\n")`: scanning left to right, every backslash-`n` pair
      becomes one newline and every other character is kept. */
  function Unescape(s: string): (r: string)
    ensures |r| <= |s|
    ensures |s| > 0 ==> |r| > 0 && r[0] == (if EscapeAt(s, 0) then '\n' else s[0])
    decreases |s|
  {
    if |s| == 0 then []
    else if EscapeAt(s, 0) then ['\n'] + Unescape(s[2..])
    else [s[0]] + Unescape(s[1..])
  }

  /** How a key with real newlines looks once pasted into a one-line secret: every newline
      written as backslash-`n`. */
  function Escape(t: string): (r: string)
    ensures |r| >= |t|
    ensures |t| > 0 ==> |r| > 0 && r[0] == (if t[0] == '\n' then '\\' else t[0])
    decreases |t|
  {
    if |t| == 0 then []
    else (if t[0] == '\n' then "\\n" else [t[0]]) + Escape(t[1..])
  }

  /** A key without backslash-`n` pairs passes through unchanged. */
  lemma {:induction false} UnescapeKeepsPlain(s: string)
    requires NoEscapes(s)
    ensures Unescape(s) == s
    decreases |s|
  {
    if |s| > 0 {
      assert !EscapeAt(s, 0);
      forall i | 0 <= i < |s[1..]| ensures !EscapeAt(s[1..], i) {
        assert !EscapeAt(s, i + 1);
      }
      UnescapeKeepsPlain(s[1..]);
    }
  }

  /** The result holds no backslash-`n` pair: a kept backslash is never followed by a kept `n`. */
  lemma {:induction false} UnescapeLeavesNoEscapes(s: string)
    ensures NoEscapes(Unescape(s))
    decreases |s|
  {
    if |s| > 0 {
      var rest := if EscapeAt(s, 0) then s[2..] else s[1..];
      UnescapeLeavesNoEscapes(rest);
      var r := Unescape(s);
      assert r == [r[0]] + Unescape(rest);
      forall i | 0 <= i < |r| ensures !EscapeAt(r, i) {
        if i > 0 {
          assert !EscapeAt(Unescape(rest), i - 1);
        } else if r[0] == '\\' && |r| > 1 {
          assert !EscapeAt(s, 0) && |rest| > 0;
          assert r[1] == Unescape(rest)[0];
        }
      }
    }
  }

  /** Unescaping twice is unescaping once. */
  lemma UnescapeIdempotent(s: string)
    ensures Unescape(Unescape(s)) == Unescape(s)
  {
    UnescapeLeavesNoEscapes(s);
    UnescapeKeepsPlain(Unescape(s));
  }

  /** Round trip: a key whose newlines were written as backslash-`n` comes back exactly,
      provided it held no backslash-`n` pair of its own. */
  lemma {:induction false} UnescapeEscape(t: string)
    requires NoEscapes(t)
    ensures Unescape(Escape(t)) == t
    decreases |t|
  {
    if |t| > 0 {
      forall i | 0 <= i < |t[1..]| ensures !EscapeAt(t[1..], i) {
        assert !EscapeAt(t, i + 1);
      }
      UnescapeEscape(t[1..]);
      var e := Escape(t);
      if t[0] == '\n' {
        assert e == "\\n" + Escape(t[1..]);
        assert e[2..] == Escape(t[1..]);
      } else {
        assert e == [t[0]] + Escape(t[1..]);
        assert e[1..] == Escape(t[1..]);
        if t[0] == '\\' && |t| > 1 {
          assert !EscapeAt(t, 0);
          assert e[1] == Escape(t[1..])[0];
        }
      }
    }
  }

  /** The fields the sender uses. */
  datatype ServiceAccount = ServiceAccount(projectId: Value, clientEmail: Value, privateKey: string)

  /** Lines 40–58: read the secret, parse it (`parse` is `JSON.parse`, `None` when it throws),
      require `project_id`, `client_email` and `private_key` in that order, then unescape the
      key. Reading a field of a parsed `null` throws. */
  function ParseServiceAccount(b64: Option<string>, raw: Option<string>, atob: string -> Option<string>,
                               parse: string -> Option<Value>): (r: Result<ServiceAccount, string>)
    ensures r.Ok? <==>
      && ReadServiceAccountJson(b64, raw, atob).Ok?
      && var obj := parse(ReadServiceAccountJson(b64, raw, atob).value);
      && obj.Some? && obj.value.JObj?
      && Present(Field(obj.value, "project_id"))
      && Present(Field(obj.value, "client_email"))
      && Present(Field(obj.value, "private_key"))
      && obj.value.fields["private_key"].JStr?
    ensures r.Ok? ==>
      var fields := parse(ReadServiceAccountJson(b64, raw, atob).value).value.fields;
      && r.value.projectId == fields["project_id"]
      && r.value.clientEmail == fields["client_email"]
      && r.value.privateKey == Unescape(fields["private_key"].s)
    ensures ReadServiceAccountJson(b64, raw, atob).Err? ==> r == Err(ReadServiceAccountJson(b64, raw, atob).error)
  {
    match ReadServiceAccountJson(b64, raw, atob)
    case Err(e) => Err(e)
    case Ok(text) =>
      match parse(text)
      case None => Err(BadJson)
      case Some(obj) =>
        if obj == JNull then Err(ReadOfNothing)
        else
          match Must(Field(obj, "project_id"), "service_account.project_id")
          case Err(e) => Err(e)
          case Ok(projectId) =>
            match Must(Field(obj, "client_email"), "service_account.client_email")
            case Err(e) => Err(e)
            case Ok(clientEmail) =>
              match Must(Field(obj, "private_key"), "service_account.private_key")
              case Err(e) => Err(e)
              case Ok(key) =>
                if key.JStr? then Ok(ServiceAccount(projectId, clientEmail, Unescape(key.s)))
                else Err(KeyNotText)
  }

  // ---------------------------------------------------------------------------
  // The access token and the sends.
  // ---------------------------------------------------------------------------

  /** The OAuth token endpoint's answer: `resp.ok` and the parsed body (`{}` when it is not
      JSON). */
  datatype OAuthReply = OAuthReply(ok: bool, body: Value)

  /** Everything the sender reads from outside: the two secrets, `atob`, `JSON.parse` and the
      token endpoint's answer to the signed assertion. */
  datatype Platform = Platform(
    b64: Option<string>, raw: Option<string>,
    atob: string -> Option<string>, parse: string -> Option<Value>,
    oauth: OAuthReply)

  datatype AccessToken = AccessToken(token: Value, projectId: Value)

  const OAuthFailed := "OAuth token request failed"

  /** Lines 60–92: the service account must parse, the token endpoint must answer `ok`, and
      its body must carry a present `access_token`. */
  function GetAccessToken(p: Platform): (r: Result<AccessToken, string>)
    ensures r.Ok? <==>
      && ParseServiceAccount(p.b64, p.raw, p.atob, p.parse).Ok?
      && p.oauth.ok && Present(Field(p.oauth.body, "access_token"))
    ensures r.Ok? ==>
      && r.value.token == p.oauth.body.fields["access_token"]
      && r.value.projectId == ParseServiceAccount(p.b64, p.raw, p.atob, p.parse).value.projectId
    ensures ParseServiceAccount(p.b64, p.raw, p.atob, p.parse).Ok? && !p.oauth.ok ==> r == Err(OAuthFailed)
  {
    match ParseServiceAccount(p.b64, p.raw, p.atob, p.parse)
    case Err(e) => Err(e)
    case Ok(sa) =>
      if !p.oauth.ok then Err(OAuthFailed)
      else if p.oauth.body == JNull then Err(ReadOfNothing)
      else
        match Must(Field(p.oauth.body, "access_token"), "oauth.access_token")
        case Err(e) => Err(e)
        case Ok(token) => Ok(AccessToken(token, sa.projectId))
  }

  /** One FCM v1 `messages:send` request: the project in the URL, the bearer token, and the
      message's device token and data. The notification text is not modelled. */
  datatype Request = Request(projectId: Value, accessToken: Value, token: string, data: map<string, string>)

  /** `{ sent, failed }`. */
  datatype SendResult = SendResult(sent: nat, failed: nat)

  /** What a call did: its result (an error when it threw), whether it asked for an access
      token, and the send requests it made, in order. */
  datatype Delivery = Delivery(result: Result<SendResult, string>, tokenRequested: bool, requests: seq<Request>)

  /** Line 100: the tokens kept, in order: the non-empty ones. A duplicate token is kept
      as many times as it is given. */
  function NonEmpty(tokens: seq<string>): (r: seq<string>)
    ensures |r| <= |tokens|
    ensures forall t :: t in r <==> t in tokens && t != []
    ensures forall t :: multiset(r)[t] == if t == [] then 0 else multiset(tokens)[t]
    decreases |tokens|
  {
    if |tokens| == 0 then []
    else
      assert tokens == [tokens[0]] + tokens[1..];
      if tokens[0] != [] then [tokens[0]] + NonEmpty(tokens[1..])
      else NonEmpty(tokens[1..])
  }

  /** The filter works token by token: filtering a concatenation concatenates the filtered
      parts, so the kept tokens stay in their order. Together with the one-token case this
      determines `NonEmpty` on every list. */
  lemma {:induction false} NonEmptyAppend(a: seq<string>, b: seq<string>)
    ensures NonEmpty(a + b) == NonEmpty(a) + NonEmpty(b)
    ensures forall t :: NonEmpty([t]) == if t == [] then [] else [t]
    decreases |a|
  {
    if |a| > 0 {
      assert (a + b)[1..] == a[1..] + b;
      NonEmptyAppend(a[1..], b);
    } else {
      assert a + b == b;
    }
  }

  /** Filtering twice is filtering once; a list of non-empty tokens is kept whole. */
  lemma {:induction false} NonEmptyKeepsClean(tokens: seq<string>)
    requires forall i | 0 <= i < |tokens| :: tokens[i] != []
    ensures NonEmpty(tokens) == tokens
    decreases |tokens|
  {
    if |tokens| > 0 {
      NonEmptyKeepsClean(tokens[1..]);
    }
  }

  /** How many of `requests` the per-request outcome `delivered` accepts. */
  function Delivered(requests: seq<Request>, delivered: Request -> bool): (n: nat)
    ensures n <= |requests|
  {
    if |requests| == 0 then 0
    else (if delivered(requests[|requests| - 1]) then 1 else 0) + Delivered(requests[..|requests| - 1], delivered)
  }

  /** The request for device token `t` under access token `at`. */
  function RequestFor(at: AccessToken, t: string, data: map<string, string>): Request {
    Request(at.projectId, at.token, t, data)
  }

  /** The requests for `tokens`, one each, in order. */
  function RequestsFor(at: AccessToken, tokens: seq<string>, data: map<string, string>): (r: seq<Request>)
    ensures |r| == |tokens|
    ensures forall i | 0 <= i < |tokens| :: r[i] == RequestFor(at, tokens[i], data)
  {
    seq(|tokens|, i requires 0 <= i < |tokens| => RequestFor(at, tokens[i], data))
  }

  /** Lines 105–137: send to each token once, in order, under access token `at`, counting
      `delivered` answers as sent and the rest as failed. Because `delivered` is a function
      of the request, two identical requests (a token given twice) get the same outcome here;
      the network makes no such promise. */
  method SendEach(at: AccessToken, clean: seq<string>, data: map<string, string>, delivered: Request -> bool)
    returns (r: SendResult, requests: seq<Request>)
    ensures requests == RequestsFor(at, clean, data)
    ensures r.sent == Delivered(requests, delivered)
    ensures r.sent + r.failed == |clean|
  {
    var sent, failed := 0, 0;
    requests := [];
    for i := 0 to |clean|
      invariant |requests| == i
      invariant forall j | 0 <= j < i :: requests[j] == RequestFor(at, clean[j], data)
      invariant sent == Delivered(requests, delivered)
      invariant sent + failed == i
    {
      var request := RequestFor(at, clean[i], data);
      assert (requests + [request])[..i] == requests;
      requests := requests + [request];
      if delivered(request) {
        sent := sent + 1;
      } else {
        failed := failed + 1;
      }
    }
    r := SendResult(sent, failed);
  }

  /** Lines 94–138: with no clean token, answer `{0, 0}` without asking for an access token;
      otherwise ask for one (`access` is what `getAccessToken` yields; a failure throws) and
      send to each clean token once, in order. */
  method SendFcmToTokens(tokens: seq<string>, data: map<string, string>, access: Result<AccessToken, string>,
                         delivered: Request -> bool)
    returns (d: Delivery)
    ensures d.tokenRequested <==> NonEmpty(tokens) != []
    ensures NonEmpty(tokens) == [] ==> d.result == Ok(SendResult(0, 0)) && d.requests == []
    ensures d.result.Err? <==> d.tokenRequested && access.Err?
    ensures d.result.Err? ==> d.result.error == access.error && d.requests == []
    ensures d.result.Ok? ==> d.result.value.sent + d.result.value.failed == |NonEmpty(tokens)|
    ensures d.result.Ok? && d.tokenRequested ==> d.requests == RequestsFor(access.value, NonEmpty(tokens), data)
    ensures d.result.Ok? ==> d.result.value.sent == Delivered(d.requests, delivered)
  {
    var clean := NonEmpty(tokens);
    if |clean| == 0 {
      return Delivery(Ok(SendResult(0, 0)), false, []);
    }
    if access.Err? {
      return Delivery(Err(access.error), true, []);
    }
    var r, requests := SendEach(access.value, clean, data, delivered);
    d := Delivery(Ok(r), true, requests);
  }
}
