/** The restaurant onboarding handler (`admin_create_restaurant`): read the caller's bearer
    token, require an admin, normalise the payload, then create an auth user, its profile and
    its restaurant in turn, undoing the earlier steps in reverse when a later one fails. The
    auth service, the inserts and the deletes are opaque; their outcomes are parameters. */
module CreateRestaurant {
  import opened Wrappers
  import opened Text
  import opened Json
  import opened Api

  type Id = string

  // ---------------------------------------------------------------------------
  // `getBearer`
  // ---------------------------------------------------------------------------

  /** Every character of `s` is matched by the regular-expression class `\s`. */
  predicate AllSpace(s: string) {
    forall i | 0 <= i < |s| :: IsSpace(s[i])
  }

  /** No character of `s` is a line terminator, so `.+` can match it whole. */
  predicate NoLineBreak(s: string) {
    forall i | 0 <= i < |s| :: !IsLineTerminator(s[i])
  }

  /** `^Bearer\s+(.+)$` with the `i` flag matches `h` with the group starting at `j`: a
      case-insensitive `Bearer`, at least one `\s` up to `j`, and at least one character
      from `j` to the end, none of them a line terminator. */
  predicate GroupAt(h: string, j: int) {
    && 7 <= j < |h|
    && ToLower(h[..6]) == "bearer"
    && AllSpace(h[6..j])
    && NoLineBreak(h[j..])
  }

  /** The length of the run of `\s` characters at the start of `s`. */
  function SpaceRun(s: string): (n: nat)
    ensures n <= |s| && AllSpace(s[..n])
    ensures n < |s| ==> !IsSpace(s[n])
    decreases |s|
  {
    if |s| > 0 && IsSpace(s[0]) then
      var n := 1 + SpaceRun(s[1..]);
      assert s[..n] == [s[0]] + s[1..][..n - 1];
      n
    else 0
  }

  /** Lines 20–25: the header (`None` when absent or empty), matched against
      `^Bearer\s+(.+)$` with the `i` flag. The greedy `\s+` takes the whole run of spaces;
      when that leaves nothing for `.+` it gives one character back. The result is the group,
      or `None` when there is no match. */
  function GetBearer(header: Option<string>): (token: Option<string>)
    ensures token.Some? ==> token.value != []
  {
    if header.None? || |header.value| < 8 then None
    else
      var h := header.value;
      if ToLower(h[..6]) != "bearer" || !IsSpace(h[6]) then None
      else
        var e := 6 + SpaceRun(h[6..]);
        if e < |h| then (if NoLineBreak(h[e..]) then Some(h[e..]) else None)
        else if !IsLineTerminator(h[|h| - 1]) then Some(h[|h| - 1..])
        else None
  }

  /** The cut `GetBearer` returns is the one the regular expression's greedy match picks:
      a valid group start, and no later one is valid. */
  lemma GetBearerIsGreedyMatch(header: Option<string>)
    ensures GetBearer(header).None? <==> header.None? || forall j | 0 <= j <= |header.value| :: !GroupAt(header.value, j)
    ensures GetBearer(header).Some? ==>
      exists j | 0 <= j <= |header.value| ::
        && GroupAt(header.value, j) && GetBearer(header).value == header.value[j..]
        && forall j' | j < j' <= |header.value| :: !GroupAt(header.value, j')
  {
    if header.Some? && |header.value| >= 8 {
      var h := header.value;
      if ToLower(h[..6]) == "bearer" && IsSpace(h[6]) {
        var run := SpaceRun(h[6..]);
        var e := 6 + run;
        assert h[6..][..run] == h[6..e];
        assert AllSpace(h[6..e]);
        assert e >= 7;
        // No group can start after the run of spaces: `h[6..j]` would include `h[e]`.
        forall j | e < j <= |h| ensures !GroupAt(h, j) {
          assert h[6..j][e - 6] == h[e];
        }
        if e < |h| {
          if NoLineBreak(h[e..]) {
            assert GroupAt(h, e);
          } else {
            var k :| 0 <= k < |h[e..]| && IsLineTerminator(h[e..][k]);
            forall j | 0 <= j <= |h| ensures !GroupAt(h, j) {
              if 7 <= j <= e { assert h[j..][e + k - j] == h[e + k]; }
            }
          }
        } else {
          var last := |h| - 1;
          if !IsLineTerminator(h[last]) {
            assert AllSpace(h[6..last]) by { assert h[6..last] == h[6..e][..last - 6]; }
            assert GroupAt(h, last);
          } else {
            forall j | 0 <= j <= |h| ensures !GroupAt(h, j) {
              if 7 <= j < |h| { assert h[j..][last - j] == h[last]; }
            }
          }
        }
      } else {
        forall j | 0 <= j <= |h| ensures !GroupAt(h, j) {
          if 7 <= j < |h| && ToLower(h[..6]) == "bearer" { assert h[6..j][0] == h[6]; }
        }
      }
    }
  }

  // ---------------------------------------------------------------------------
  // The admin gate and the payload.
  // ---------------------------------------------------------------------------

  /** A `profiles` row: its role and its deletion flag. */
  datatype Profile = Profile(role: Option<string>, isDeleted: bool)

  /** A `restaurants` row as the handler inserts it. */
  datatype Restaurant = Restaurant(
    ownerUserId: Id, name: string, city: string,
    address: Option<string>, phone: Option<string>, whatsapp: Option<string>,
    isRestricted: bool, isDeleted: bool)

  /** What the handler can change: the auth users, the profiles and the restaurants. */
  datatype World = World(authUsers: set<Id>, profiles: map<Id, Profile>, restaurants: seq<Restaurant>)

  /** Lines 53–55: the caller's profile exists, is not deleted, and has role `"admin"`. */
  predicate IsAdmin(profiles: map<Id, Profile>, caller: Id) {
    caller in profiles && !profiles[caller].isDeleted && profiles[caller].role == Some("admin")
  }

  /** The request body; every field may be missing. */
  datatype Payload = Payload(
    email: Option<string>, password: Option<string>, name: Option<string>, city: Option<string>,
    address: Option<string>, phone: Option<string>, whatsapp: Option<string>)

  /** The normalised fields. */
  datatype Fields = Fields(
    email: string, password: string, name: string, city: string,
    address: Option<string>, phone: Option<string>, whatsapp: Option<string>)

  /** Lines 64–70: the email is trimmed and lower-cased, the name and city trimmed, the
      password kept as sent; an optional field is trimmed, and a blank one becomes `null`. */
  function Normalise(body: Payload): (f: Fields)
    ensures f.email == ToLower(Trim(body.email.GetOr("")))
    ensures f.password == body.password.GetOr("")
    ensures IsCoreOf(f.name, body.name.GetOr("")) && IsTrimmed(f.name)
    ensures IsCoreOf(f.city, body.city.GetOr("")) && IsTrimmed(f.city)
    ensures IsTrimmed(f.email)
    ensures f.address.None? <==> body.address.None? || IsBlank(body.address.value)
    ensures f.phone.None? <==> body.phone.None? || IsBlank(body.phone.value)
    ensures f.whatsapp.None? <==> body.whatsapp.None? || IsBlank(body.whatsapp.value)
    ensures f.address.Some? ==> IsCoreOf(f.address.value, body.address.value) && IsTrimmed(f.address.value)
    ensures f.phone.Some? ==> IsCoreOf(f.phone.value, body.phone.value) && IsTrimmed(f.phone.value)
    ensures f.whatsapp.Some? ==> IsCoreOf(f.whatsapp.value, body.whatsapp.value) && IsTrimmed(f.whatsapp.value)
  {
    var email := Trim(body.email.GetOr(""));
    ToLowerKeepsTrimmed(email);
    Fields(ToLower(email), body.password.GetOr(""), Trim(body.name.GetOr("")), Trim(body.city.GetOr("")),
           TrimOrNone(body.address), TrimOrNone(body.phone), TrimOrNone(body.whatsapp))
  }

  /** The fields as a payload again. */
  function Resend(f: Fields): (body: Payload)
  {
    Payload(Some(f.email), Some(f.password), Some(f.name), Some(f.city), f.address, f.phone, f.whatsapp)
  }

  /** Normalising is a projection: sending the normalised fields back changes none of them. */
  lemma NormaliseIsFixed(body: Payload)
    ensures Normalise(Resend(Normalise(body))) == Normalise(body)
  {
    var f := Normalise(body);
    var g := Normalise(Resend(f));
    TrimmedIsFixed(f.email);
    ToLowerIdempotent(Trim(body.email.GetOr("")));
    assert g.email == f.email;
    TrimmedIsFixed(f.name);
    TrimmedIsFixed(f.city);
    assert g.name == f.name && g.city == f.city;
    assert g.address == f.address by { if f.address.Some? { TrimmedIsFixed(f.address.value); } }
    assert g.phone == f.phone by { if f.phone.Some? { TrimmedIsFixed(f.phone.value); } }
    assert g.whatsapp == f.whatsapp by { if f.whatsapp.Some? { TrimmedIsFixed(f.whatsapp.value); } }
  }

  /** Line 72: the four required fields, after normalising. */
  predicate Complete(f: Fields) {
    f.email != [] && f.password != [] && f.name != [] && f.city != []
  }

  /** A required field is missing exactly when the sent one is absent or blank; for the
      password, absent or empty, since it is not trimmed. */
  lemma CompleteMeansGiven(body: Payload)
    ensures Complete(Normalise(body)) <==>
      && !IsBlank(body.email.GetOr("")) && body.password.GetOr("") != []
      && !IsBlank(body.name.GetOr("")) && !IsBlank(body.city.GetOr(""))
  {
    var email := Trim(body.email.GetOr(""));
    assert |ToLower(email)| == |email|;
  }

  // ---------------------------------------------------------------------------
  // Create, then compensate.
  // ---------------------------------------------------------------------------

  /** The outcomes of the opaque calls, in the order they may be made: the new auth user's id
      or an error, the profile insert's error if any, the restaurant insert's error if any, and
      whether each cleanup call succeeds. */
  datatype Outcomes = Outcomes(
    createUser: Result<Id, string>,
    profileInsertError: Option<string>,
    restaurantInsertError: Option<string>,
    profileDeleteOk: bool,
    userDeleteOk: bool)

  /** The 200 answer: the inserted restaurant and the new auth user's id. */
  datatype Created = Created(restaurant: Restaurant, authUserId: Id)

  /** The restaurant row inserted for `owner`: never restricted, never deleted. */
  function NewRestaurant(owner: Id, f: Fields): Restaurant {
    Restaurant(owner, f.name, f.city, f.address, f.phone, f.whatsapp, false, false)
  }

  /** The account half of rollback (line 100, line 123): remove the auth user when the delete
      succeeds. */
  function DeleteUser(w: World, id: Id, ok: bool): (w': World)
    ensures id in w'.authUsers <==> id in w.authUsers && !ok
    ensures forall u | u != id :: u in w'.authUsers <==> u in w.authUsers
    ensures w'.profiles == w.profiles && w'.restaurants == w.restaurants
  {
    if ok then w.(authUsers := w.authUsers - {id}) else w
  }

  /** Line 122: remove the profile when the delete succeeds. */
  function DeleteProfile(w: World, id: Id, ok: bool): (w': World)
    ensures id in w'.profiles <==> id in w.profiles && !ok
    ensures forall u | u != id && u in w.profiles :: u in w'.profiles && w'.profiles[u] == w.profiles[u]
    ensures w'.profiles.Keys <= w.profiles.Keys
    ensures w'.authUsers == w.authUsers && w'.restaurants == w.restaurants
  {
    if ok then w.(profiles := w.profiles - {id}) else w
  }

  /** Lines 79–131, from valid fields on: create the auth user; insert its profile with role
      `"restaurant"`, deleting the user if that fails; insert the restaurant, deleting the
      profile and then the user if that fails. */
  function Provision(f: Fields, w: World, out: Outcomes): (r: (Result<Created, ApiError>, World))
    ensures r.0.Ok? <==> out.createUser.Ok? && out.profileInsertError.None? && out.restaurantInsertError.None?
    ensures out.createUser.Err? ==> r == (Err(AuthUserCreateFailed(out.createUser.error)), w)
    ensures out.createUser.Ok? && out.profileInsertError.Some? ==>
              r.0 == Err(ProfileCreateFailed(out.profileInsertError.value))
    ensures out.createUser.Ok? && out.profileInsertError.None? && out.restaurantInsertError.Some? ==>
              r.0 == Err(RestaurantCreateFailed(out.restaurantInsertError.value))
    ensures r.0.Err? ==> r.1.restaurants == w.restaurants
    ensures r.0.Ok? ==>
              && r.0.value.authUserId == out.createUser.value
              && r.1.restaurants == w.restaurants + [r.0.value.restaurant]
              && r.0.value.restaurant.ownerUserId == out.createUser.value
  {
    match out.createUser
    case Err(e) => (Err(AuthUserCreateFailed(e)), w)
    case Ok(id) =>
      var w1 := w.(authUsers := w.authUsers + {id});
      if out.profileInsertError.Some? then
        (Err(ProfileCreateFailed(out.profileInsertError.value)), DeleteUser(w1, id, out.userDeleteOk))
      else
        var w2 := w1.(profiles := w1.profiles[id := Profile(Some("restaurant"), false)]);
        if out.restaurantInsertError.Some? then
          var w3 := DeleteProfile(w2, id, out.profileDeleteOk);
          (Err(RestaurantCreateFailed(out.restaurantInsertError.value)), DeleteUser(w3, id, out.userDeleteOk))
        else
          var row := NewRestaurant(id, f);
          (Ok(Created(row, id)), w2.(restaurants := w2.restaurants + [row]))
  }

  /** On success the new account is a restaurant owner: its auth user and `"restaurant"`
      profile exist, and exactly one restaurant row, unrestricted and not deleted, is appended
      with the normalised fields. */
  lemma ProvisionSuccess(f: Fields, w: World, out: Outcomes)
    requires Provision(f, w, out).0.Ok?
    ensures var (reply, w') := Provision(f, w, out);
      var id := reply.value.authUserId;
      && out.createUser == Ok(id)
      && id in w'.authUsers
      && id in w'.profiles && w'.profiles[id] == Profile(Some("restaurant"), false)
      && w'.restaurants == w.restaurants + [reply.value.restaurant]
      && reply.value.restaurant.ownerUserId == id
      && !reply.value.restaurant.isRestricted && !reply.value.restaurant.isDeleted
      && reply.value.restaurant.name == f.name && reply.value.restaurant.city == f.city
  {
  }

  /** Rollback: after any failure no created artifact remains, provided the new id was fresh
      and every cleanup call succeeds. A failure before the auth user exists changes nothing,
      and no failure ever leaves a restaurant row behind. */
  lemma ProvisionFailureLeavesNothing(f: Fields, w: World, out: Outcomes)
    requires Provision(f, w, out).0.Err?
    ensures Provision(f, w, out).1.restaurants == w.restaurants
    ensures out.createUser.Err? ==> Provision(f, w, out).1 == w
    ensures out.createUser.Ok? && out.createUser.value !in w.authUsers && out.createUser.value !in w.profiles
            && out.profileDeleteOk && out.userDeleteOk
            ==> Provision(f, w, out).1 == w
  {
    if out.createUser.Ok? {
      var id := out.createUser.value;
      if id !in w.authUsers && id !in w.profiles && out.profileDeleteOk && out.userDeleteOk {
        assert w.authUsers + {id} - {id} == w.authUsers;
        assert w.profiles[id := Profile(Some("restaurant"), false)] - {id} == w.profiles;
      }
    }
  }

  /** What is left after a failure once the auth user exists: exactly the artifacts whose
      delete call failed. */
  lemma ProvisionFailureResidue(f: Fields, w: World, out: Outcomes)
    requires Provision(f, w, out).0.Err? && out.createUser.Ok?
    ensures var id := out.createUser.value;
      var w' := Provision(f, w, out).1;
      && (id in w'.authUsers <==> !out.userDeleteOk)
      && (out.profileInsertError.None? ==> (id in w'.profiles <==> !out.profileDeleteOk))
      && (out.profileInsertError.Some? ==> w'.profiles == w.profiles)
  {
  }

  // ---------------------------------------------------------------------------
  // The handler.
  // ---------------------------------------------------------------------------

  /** The request: its `Authorization` header, and its body (`None` when it is not valid
      JSON). */
  datatype Request = Request(authorization: Option<string>, body: Option<Payload>)

  /** The caller the auth service names for the request's bearer token, if any;
      `authenticate` is `auth.getUser()`, `None` when it rejects the token. */
  function Caller(req: Request, authenticate: string -> Option<Id>): Option<Id> {
    match GetBearer(req.authorization)
    case None => None
    case Some(token) => authenticate(token)
  }

  /** Lines 34–131: bearer token, then the caller, then the admin gate, then the body and
      its required fields, and only then the three-step creation. Every refusal before the
      creation leaves the world as it was. */
  function CreateRestaurant(req: Request, authenticate: string -> Option<Id>, w: World, out: Outcomes)
    : (r: (Result<Created, ApiError>, World))
    ensures GetBearer(req.authorization).None? ==> r == (Err(MissingBearer), w)
    ensures GetBearer(req.authorization).Some? && Caller(req, authenticate).None? ==> r == (Err(InvalidUserToken), w)
    ensures Caller(req, authenticate).Some? && !IsAdmin(w.profiles, Caller(req, authenticate).value)
            ==> r == (Err(NotAdmin), w)
    ensures Caller(req, authenticate).Some? && IsAdmin(w.profiles, Caller(req, authenticate).value) ==>
            && (req.body.None? ==> r == (Err(InvalidJsonBody), w))
            && (req.body.Some? && !Complete(Normalise(req.body.value)) ==> r == (Err(MissingRequiredFields), w))
            && (req.body.Some? && Complete(Normalise(req.body.value)) ==> r == Provision(Normalise(req.body.value), w, out))
  {
    match GetBearer(req.authorization)
    case None => (Err(MissingBearer), w)
    case Some(token) =>
      match authenticate(token)
      case None => (Err(InvalidUserToken), w)
      case Some(caller) =>
        if !IsAdmin(w.profiles, caller) then (Err(NotAdmin), w)
        else if req.body.None? then (Err(InvalidJsonBody), w)
        else
          var f := Normalise(req.body.value);
          if !Complete(f) then (Err(MissingRequiredFields), w)
          else Provision(f, w, out)
  }

  /** Lines 53–55: a caller the token names is refused with 403 exactly when their profile
      is missing, is deleted, or does not have the role `"admin"`. */
  lemma AdminGate(req: Request, authenticate: string -> Option<Id>, w: World, out: Outcomes)
    requires Caller(req, authenticate).Some?
    ensures var caller := Caller(req, authenticate).value;
      CreateRestaurant(req, authenticate, w, out).0 == Err(NotAdmin) <==>
        caller !in w.profiles || w.profiles[caller].isDeleted || w.profiles[caller].role != Some("admin")
  {
  }

  /** Only an admin creates anything: a successful answer means the token named a caller
      whose profile is an undeleted admin, and the body carried every required field. */
  lemma OnlyAdminsCreate(req: Request, authenticate: string -> Option<Id>, w: World, out: Outcomes)
    requires CreateRestaurant(req, authenticate, w, out).0.Ok?
    ensures Caller(req, authenticate).Some? && IsAdmin(w.profiles, Caller(req, authenticate).value)
    ensures req.body.Some? && Complete(Normalise(req.body.value))
  {
  }

  /** A caller who is not an admin is refused the same way whatever the body says, so the
      body is never looked at before the role is known. */
  lemma BodyIgnoredForNonAdmins(req: Request, body: Option<Payload>, authenticate: string -> Option<Id>,
                                w: World, out: Outcomes)
    requires Caller(req, authenticate).Some? && !IsAdmin(w.profiles, Caller(req, authenticate).value)
    ensures CreateRestaurant(req, authenticate, w, out) == CreateRestaurant(req.(body := body), authenticate, w, out)
    ensures CreateRestaurant(req, authenticate, w, out) == (Err(NotAdmin), w)
  {
  }
}
