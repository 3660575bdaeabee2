# Mighty coin and spin handlers, modelled in Dafny

This project models the decision logic of a set of Supabase edge functions. They run a
loyalty-coin economy and a prize draw ("spin"):

- `create_order_and_deduct_coins`: a customer buys a deal or menu item with coins. An
  ordered chain of checks runs; the first failure is the answer. On success the handler
  writes a `pending` order, a negative ledger entry pointing at it, and the debited wallet.
- `admin_topup_by_unique_code`: an administrator credits a user found by their public `#`
  code, through a stored procedure whose error message is classified by substring.
- `spin_register_paid`: a user joins a spin with a free or a paid entry, through one of two
  stored procedures, each with its own error classification.
- `start_spin_pick_winner`: an administrator draws a spin's winner, optionally forcing one by
  lookup code, through a stored procedure.
- `_shared/fcm.ts`: the Firebase Cloud Messaging sender. It reads the service account, gets an
  access token, and sends one message per clean device token, counting sent and failed.
- `notify_spin_published` and `notify_spin_winner`: they find a spin, gate on its status or
  its winner, and push to every device token of the spin's city in chunks of 200.
- `admin_create_restaurant`: an administrator onboards a restaurant. The handler checks the
  bearer token and the admin role, normalises the payload, then creates an auth user, its
  profile and its restaurant, undoing earlier steps when a later one fails.

Each handler is a pure function or a method over an immutable snapshot of the tables it
touches. Everything opaque enters as a parameter:

- the stored procedures are functions from call to reply;
- `auth.getUser()` is a function from token to caller;
- `atob` and `JSON.parse` are parameters;
- the OAuth exchange's result is a parameter;
- each FCM send's success is a function of the request;
- the inserts and deletes of onboarding are outcome values.

A handler's answer is a `Result` over a shared error type (`Api.ApiError`) that carries the
`error` code and the HTTP status. Modules follow the source files: `Purchase`, `Topup`,
`SpinRegister`, `PickWinner`, `Fcm`, `Fanout` (what the two notifiers share), `NotifyPublished`,
`NotifyWinner` and `CreateRestaurant`. They rest on `Wrappers`, `Text` (JavaScript `trim`,
`includes`, `startsWith`, `toLowerCase`), `Json` (untyped values) and `Api`.

The purchase handler checks the shape of the item reference (line 39) before it loads the
profile (line 53), and the model keeps that order. Its reads and writes are separate calls with
no transaction; the model gives their sequence of effects on one snapshot, without concurrency
or partial writes.

## Model

| member | source | states |
|---|---|---|
| Purchase.ParseItemRef | supabase/functions/create_order_and_deduct_coins/index.ts:36-41 | succeeds exactly when one of `deal_id` and `menu_item_id` is non-blank after trimming, and yields that trimmed id; otherwise the item-reference error |
| Purchase.EnsureWallet | supabase/functions/create_order_and_deduct_coins/index.ts:108-109 | after the upsert the caller has a wallet row; only a missing row is added; no balance and no other table changes |
| Purchase.Settle | supabase/functions/create_order_and_deduct_coins/index.ts:93-166 | each of the price, restaurant-found, restricted and balance rejections happens exactly when it is the first check to fail, and success exactly when all pass. Rejections before the upsert write nothing; the balance rejection leaves only the upserted wallet. Success appends exactly the pending order and its debit, sets the balance to before minus price (never negative), and changes nothing else |
| Purchase.Buy | supabase/functions/create_order_and_deduct_coins/index.ts:46-91 | an incomplete profile gives `PROFILE_INCOMPLETE`; then a missing or inactive item gives the not-found error for its kind; neither writes anything; every error is one of the handler's listed codes |
| Purchase.Purchase | supabase/functions/create_order_and_deduct_coins/index.ts:33-166 | a malformed item reference is answered before anything is read, and changes nothing |
| Purchase.PurchaseOfAvailableItem | supabase/functions/create_order_and_deduct_coins/index.ts:36-91 | once reference, profile and item pass, the purchase is settled against the stored item |
| Purchase.PurchaseEarlyChecks | supabase/functions/create_order_and_deduct_coins/index.ts:39-91 | the reference, profile and item errors each happen exactly when that check is the first to fail, in the code's order, and nothing is written |
| Purchase.PurchaseLateChecks | supabase/functions/create_order_and_deduct_coins/index.ts:93-121 | the price, restaurant, restriction and balance errors each happen exactly when that check is the first to fail; success exactly when every check passes |
| Purchase.PurchaseRejection | supabase/functions/create_order_and_deduct_coins/index.ts:105-121 | a purchase failing any check is rejected; only the balance rejection leaves a trace, the upserted wallet row |
| Purchase.PurchaseSuccess | supabase/functions/create_order_and_deduct_coins/index.ts:123-166 | a successful purchase appends one `pending` order with the asked-for item id and a positive price as coins paid, and one debit of minus that price. The debit is typed by item kind, has reference type `order`, points at the order and is created by the buyer. The buyer's balance drops by the price |
| Purchase.PostingKeepsConsistency | supabase/functions/create_order_and_deduct_coins/index.ts:143-158 | appending a ledger entry and adding its amount to that user's wallet keeps every balance equal to the sum of that user's ledger amounts |
| Purchase.UpsertKeepsConsistency | supabase/functions/create_order_and_deduct_coins/index.ts:109 | creating a zero wallet keeps balances equal to ledger sums |
| Purchase.SettleKeepsConsistency | supabase/functions/create_order_and_deduct_coins/index.ts:108-158 | settlement, successful or not, keeps balances equal to ledger sums |
| Purchase.PurchasePreservesConsistency | supabase/functions/create_order_and_deduct_coins/index.ts:33-166 | if every wallet balance equals the sum of the user's ledger amounts before a purchase, it does after, whatever the answer |
| Purchase.SettleKeepsBalancesNonNegative | supabase/functions/create_order_and_deduct_coins/index.ts:120-157 | settlement never makes a non-negative balance negative |
| Purchase.PurchaseKeepsBalancesNonNegative | supabase/functions/create_order_and_deduct_coins/index.ts:120-157 | a purchase never drives any wallet below zero |
| Topup.Validate | supabase/functions/admin_topup_by_unique_code/index.ts:30-35 | the code error happens exactly when the trimmed code does not start with `#` or is shorter than 2. The amount error happens exactly when the code passes and the amount (default 0) is not positive. The call carries the trimmed code, the amount as sent, and the entry type defaulted to `topup` |
| Topup.ClassifyError | supabase/functions/admin_topup_by_unique_code/index.ts:43-48 | a missing or empty message reads as `RPC_FAILED`. The answer is the first of `FORBIDDEN`, `USER_NOT_FOUND`, `INVALID_TYPE` occurring in the message; it is `RPC_ERROR` carrying the message exactly when none occurs |
| Topup.KnownApart | supabase/functions/admin_topup_by_unique_code/index.ts:45-47 | no recognised code occurs inside a later one |
| Topup.ClassifyErrorRoundTrip | supabase/functions/admin_topup_by_unique_code/index.ts:43-48 | a message that is exactly a recognised code is classified as that code |
| Topup.ReadCredited | supabase/functions/admin_topup_by_unique_code/index.ts:51-58 | reading fails (500) exactly when there is no row or the row is `null`; otherwise, for every row shape, the answer carries that row's `target_user_id`, `balance_before` and `balance_after` (absent when the row lacks them), the row being the first element of an array reply or the reply itself |
| Topup.ReadCreditedFirstRow | supabase/functions/admin_topup_by_unique_code/index.ts:51 | a row sent on its own and the same row at the head of an array reply give the same answer |
| Topup.Topup | supabase/functions/admin_topup_by_unique_code/index.ts:29-58 | an invalid request makes no procedure call; a valid one makes exactly one, with the validated arguments, and answers with its classified error or its row |
| SpinRegister.Validate | supabase/functions/spin_register_paid/index.ts:33-37 | `SPIN_ID_REQUIRED` exactly when the trimmed id is empty (checked first). Then `INVALID_ENTRY_TYPE` exactly when the type is neither `free` nor `paid`. The type picks the procedure, called with the trimmed id |
| SpinRegister.ClassifyFree | supabase/functions/spin_register_paid/index.ts:41-49 | the first of the six free-path codes occurring in the message wins; no occurrence gives `RPC_ERROR` with the message |
| SpinRegister.ClassifyPaid | supabase/functions/spin_register_paid/index.ts:57-63 | the first of the four paid-path codes occurring in the message wins; no occurrence gives `RPC_ERROR` with the message |
| SpinRegister.FreeKnownApart | supabase/functions/spin_register_paid/index.ts:43-48 | no free-path code occurs inside a later one |
| SpinRegister.ClassifyFreeRoundTrip | supabase/functions/spin_register_paid/index.ts:41-49 | each free-path code, sent alone, is classified as itself |
| SpinRegister.PaidKnownApart | supabase/functions/spin_register_paid/index.ts:59-62 | no paid-path code occurs inside a later one |
| SpinRegister.ClassifyPaidRoundTrip | supabase/functions/spin_register_paid/index.ts:57-63 | each paid-path code, sent alone, is classified as itself |
| SpinRegister.PaidIgnoresFreeOnlyCodes | supabase/functions/spin_register_paid/index.ts:57-63 | the three codes only the free path knows become a 500 `RPC_ERROR` on the paid path |
| SpinRegister.ReadRegistered | supabase/functions/spin_register_paid/index.ts:51-73 | a free registration answers the row's entry id; a paid one also its balances; no row is a 500 |
| SpinRegister.ReadRegisteredFirstRow | supabase/functions/spin_register_paid/index.ts:51-52 | a row sent on its own and the same row at the head of an array reply give the same answer |
| SpinRegister.Register | supabase/functions/spin_register_paid/index.ts:32-73 | an invalid request calls nothing; a valid one calls exactly the chosen procedure once and classifies its error with that path's list |
| PickWinner.Validate | supabase/functions/start_spin_pick_winner/index.ts:33-36 | refused exactly when the trimmed spin id is empty. A forced code is sent as `null` exactly when it is missing or blank; otherwise it is sent trimmed |
| PickWinner.ClassifyError | supabase/functions/start_spin_pick_winner/index.ts:43-49 | the first of the four draw codes occurring in the message wins; a missing message reads as `RPC_ERROR` |
| PickWinner.KnownApart | supabase/functions/start_spin_pick_winner/index.ts:45-48 | no draw code occurs inside a later one, `FORCED_USER_NOT_PARTICIPANT` included |
| PickWinner.ClassifyErrorRoundTrip | supabase/functions/start_spin_pick_winner/index.ts:43-49 | each draw code, sent alone, is classified as itself |
| PickWinner.ReadWinner | supabase/functions/start_spin_pick_winner/index.ts:52-53 | the winner's id and code come from the first row; no row is a 500 |
| PickWinner.ReadWinnerFirstRow | supabase/functions/start_spin_pick_winner/index.ts:52 | a row sent on its own and the same row at the head of an array reply give the same answer |
| PickWinner.PickWinner | supabase/functions/start_spin_pick_winner/index.ts:32-53 | a blank spin id calls nothing; otherwise exactly one call with the validated arguments |
| Fcm.Must | supabase/functions/_shared/fcm.ts:11-16 | accepts exactly the values that are defined, not `null`, and not a blank string, and hands them back unchanged; otherwise `Missing <name>` |
| Fcm.ReadServiceAccountJson | supabase/functions/_shared/fcm.ts:23-38 | a non-blank base64 secret is decoded, or its failure reported; otherwise a non-blank raw secret is used; otherwise the missing-secret error |
| Fcm.Base64Wins | supabase/functions/_shared/fcm.ts:23-35 | once the base64 secret is given, the raw secret never affects the outcome |
| Fcm.Unescape | supabase/functions/_shared/fcm.ts:55 | unescaping never lengthens the key, and starts with a newline when the key starts with backslash-`n`, and otherwise with the key's first character |
| Fcm.UnescapeKeepsPlain | supabase/functions/_shared/fcm.ts:55 | a key with no backslash-`n` pair is kept as it is |
| Fcm.UnescapeLeavesNoEscapes | supabase/functions/_shared/fcm.ts:55 | the unescaped key holds no backslash-`n` pair |
| Fcm.UnescapeIdempotent | supabase/functions/_shared/fcm.ts:55 | unescaping twice equals unescaping once |
| Fcm.UnescapeEscape | supabase/functions/_shared/fcm.ts:54-55 | a key whose newlines were pasted as backslash-`n` is recovered exactly |
| Fcm.ParseServiceAccount | supabase/functions/_shared/fcm.ts:40-58 | succeeds exactly when the secret is read, parses to an object, and has present `project_id`, `client_email` and a string `private_key`. The result carries those fields, the key unescaped |
| Fcm.GetAccessToken | supabase/functions/_shared/fcm.ts:60-92 | a token exactly when the service account parses, the token endpoint answers ok, and its body has a present `access_token`; the project comes from the service account |
| Fcm.NonEmpty | supabase/functions/_shared/fcm.ts:100 | the kept tokens are exactly the non-empty ones, each kept as many times as it was given; never longer than the input |
| Fcm.NonEmptyAppend | supabase/functions/_shared/fcm.ts:100 | filtering works token by token: a concatenation filters to the concatenation of the filtered parts, and one token is kept exactly when it is non-empty; so order is kept |
| Fcm.NonEmptyKeepsClean | supabase/functions/_shared/fcm.ts:100 | filtering a list of non-empty tokens keeps it whole |
| Fcm.SendEach | supabase/functions/_shared/fcm.ts:105-137 | one request per token, in order. Sent counts the delivered requests; sent plus failed equals the number of tokens |
| Fcm.SendFcmToTokens | supabase/functions/_shared/fcm.ts:94-138 | an access token is asked for exactly when a clean token exists, so no clean token answers `{0, 0}` with no request. The call fails exactly when the token was asked for and could not be had. Otherwise every clean token gets one request, and sent plus failed equals their number |
| Fanout.Chunk | supabase/functions/notify_spin_published/index.ts:20-24 | every piece has between 1 and `size` elements, and all but the last have exactly `size` |
| Fanout.ChunkFlatten | supabase/functions/notify_spin_published/index.ts:20-24 | joining the pieces gives back the input |
| Fanout.ChunkCount | supabase/functions/notify_spin_published/index.ts:20-24 | the number of pieces is the input length divided by `size`, rounded up |
| Fanout.ChunkLoop | supabase/functions/notify_spin_published/index.ts:20-24 | the source's stepping loop computes `Chunk` |
| Fanout.CityTokens | supabase/functions/notify_spin_published/index.ts:81-92 | a token is selected exactly when some row of the city holds it as a non-empty string |
| Fanout.CityTokensAppend | supabase/functions/notify_spin_published/index.ts:81-92 | selection works row by row: a concatenation of rows selects the concatenation of the selections, and one row gives its token exactly when it is of the city and a non-empty string; so row order and duplicates are kept |
| Fanout.SendChunk | supabase/functions/notify_spin_published/index.ts:105-113 | a clean chunk fails exactly when no access token can be had; otherwise each of its tokens is sent to once |
| Fanout.SendInChunks | supabase/functions/notify_spin_published/index.ts:102-114 | across all chunks every token gets exactly one request, in order. The totals add up to the number of tokens, sent counting deliveries; an access failure ends the loop |
| Fanout.LocateSpin | supabase/functions/notify_spin_published/index.ts:39-66 | `SPIN_ID_REQUIRED`, `SPIN_NOT_FOUND` and `SPIN_CITY_EMPTY` each happen exactly when that check is the first to fail; otherwise the spin under the trimmed id and its non-empty trimmed city |
| Fanout.Run | supabase/functions/notify_spin_published/index.ts:101-125 | an answer is returned without a send. A send reports totals for the city over exactly one request per token, or a 500 `SERVER_ERROR` when no access token can be had |
| NotifyPublished.PlanPublished | supabase/functions/notify_spin_published/index.ts:39-96 | a send is planned exactly when the spin is located, its status is `published` and its city has tokens; it then goes to exactly the city's clean tokens with the published data. A location error is answered exactly when locating fails, and with that error. A skip is answered exactly when a located spin is not `published`, carrying its status and city. Any other answer is `NO_TOKENS` |
| NotifyPublished.NotifyPublished | supabase/functions/notify_spin_published/index.ts:39-122 | the full answer and the requests made, for every outcome of the checks and the sends |
| NotifyPublished.UnpublishedSendsNothing | supabase/functions/notify_spin_published/index.ts:68-78 | an unpublished spin is answered without looking at the token table |
| NotifyWinner.PlanFor | supabase/functions/notify_spin_winner/index.ts:66-86 | `WINNER_NOT_SET_YET` exactly when the spin has no winner; `NO_TOKENS` exactly when it has one but its city has no tokens; a send exactly otherwise, to exactly the city's clean tokens with the winner data |
| NotifyWinner.NotifyWinner | supabase/functions/notify_spin_winner/index.ts:38-113 | the full answer and the requests made, for every outcome of the checks and the sends |
| NotifyWinner.StatusIgnored | supabase/functions/notify_spin_winner/index.ts:55-86 | the spin's status never changes what is sent |
| NotifyWinner.WinnerDataCarriesWinner | supabase/functions/notify_spin_winner/index.ts:95-101 | every message names the spin, the city and the winner; a missing winner code is sent as the empty string |
| CreateRestaurant.GetBearer | supabase/functions/admin_create_restaurant/index.ts:20-25 | a token, when found, is never empty |
| CreateRestaurant.GetBearerIsGreedyMatch | supabase/functions/admin_create_restaurant/index.ts:23-24 | no token exactly when `^Bearer\s+(.+)$` (case-insensitive) cannot match. Otherwise the token is the group at a valid match position, and no later position is valid, as the greedy `\s+` demands |
| CreateRestaurant.Normalise | supabase/functions/admin_create_restaurant/index.ts:64-70 | the email is the lower-cased trimmed email, and the password is kept as sent. Name and city are their trimmed cores. An optional field becomes absent exactly when missing or blank, and otherwise is the trimmed core of the value sent |
| CreateRestaurant.NormaliseIsFixed | supabase/functions/admin_create_restaurant/index.ts:64-70 | normalising the normalised fields again changes none of them |
| CreateRestaurant.CompleteMeansGiven | supabase/functions/admin_create_restaurant/index.ts:64-74 | the required-fields check passes exactly when email, name and city are non-blank and the password is non-empty |
| CreateRestaurant.DeleteUser | supabase/functions/admin_create_restaurant/index.ts:100 | the user is gone exactly when the delete succeeds; no other user, profile or restaurant is touched |
| CreateRestaurant.DeleteProfile | supabase/functions/admin_create_restaurant/index.ts:122 | the profile is gone exactly when the delete succeeds; no other profile changes and no user or restaurant is touched |
| CreateRestaurant.ProvisionSuccess | supabase/functions/admin_create_restaurant/index.ts:79-131 | on success the new auth user exists with a `restaurant` profile. Exactly one restaurant row is appended: owned by it, with the normalised name and city, neither restricted nor deleted |
| CreateRestaurant.ProvisionFailureLeavesNothing | supabase/functions/admin_create_restaurant/index.ts:86-125 | no failure leaves a restaurant row, and a failed user creation changes nothing. With a fresh user id and successful cleanups, every failure restores the world exactly |
| CreateRestaurant.ProvisionFailureResidue | supabase/functions/admin_create_restaurant/index.ts:98-125 | after a failure, the new user and profile remain exactly when their delete failed |
| CreateRestaurant.Provision | supabase/functions/admin_create_restaurant/index.ts:79-131 | succeeds exactly when the user creation and both inserts succeed. A failed user creation answers its error and changes nothing. Otherwise the first failed insert names the answer: profile before restaurant. No failure leaves a restaurant row. Success answers the new user id and appends exactly the answered restaurant, owned by that user |
| CreateRestaurant.CreateRestaurant | supabase/functions/admin_create_restaurant/index.ts:34-131 | the checks run in order: bearer token (401), caller (401), admin role (403), JSON body (400), required fields (400). Every refusal leaves the world unchanged; only then does creation run |
| CreateRestaurant.OnlyAdminsCreate | supabase/functions/admin_create_restaurant/index.ts:53-74 | success implies the token named an undeleted admin and the body carried every required field |
| CreateRestaurant.AdminGate | supabase/functions/admin_create_restaurant/index.ts:53-55 | a caller named by the token is refused with 403 exactly when their profile is missing, deleted, or lacks the role `admin` (the `IsAdmin` predicate) |
| CreateRestaurant.BodyIgnoredForNonAdmins | supabase/functions/admin_create_restaurant/index.ts:53-62 | a non-admin gets the same 403 whatever the body, malformed or not |
| Text.Trim | supabase/functions/admin_topup_by_unique_code/index.ts:30 | the result has no whitespace at either end. It is the input minus a blank prefix and a blank suffix, and it is empty exactly when the input is blank |
| Text.TrimIdempotent | supabase/functions/admin_topup_by_unique_code/index.ts:30 | trimming twice equals trimming once |
| Text.TrimOrNone | supabase/functions/create_order_and_deduct_coins/index.ts:36-37 | absent exactly when the input is missing or blank; otherwise the non-empty trimmed text |
| Text.ToLower | supabase/functions/admin_create_restaurant/index.ts:64 | same length, position by position, with no upper-case ASCII letter left |
| Text.ToLowerKeepsTrimmed | supabase/functions/admin_create_restaurant/index.ts:64 | lower-casing a trimmed string leaves it trimmed |
| Text.ToLowerIdempotent | supabase/functions/admin_create_restaurant/index.ts:64 | lower-casing twice equals lower-casing once |
| Api.RowOf | supabase/functions/admin_topup_by_unique_code/index.ts:51 | the first element of an array reply, or the reply itself; reading fails exactly when that row is missing or `null` |
| Api.RowOfArray | supabase/functions/admin_topup_by_unique_code/index.ts:51 | a reply that is not an array is read as the same row as when it heads an array; an object reply is its own row |
| Api.MessageOr | supabase/functions/admin_topup_by_unique_code/index.ts:44 | the result is the message or the fallback; a non-empty message always wins; an empty result comes only from an empty fallback |
| Api.MessageOrIdempotent | supabase/functions/admin_topup_by_unique_code/index.ts:44 | feeding the result back as the message gives it back unchanged |
| Api.Classify | supabase/functions/admin_topup_by_unique_code/index.ts:43-48 | the answer is the listed error whose code occurs first in list order; `RPC_ERROR` with the message exactly when none occurs |
| Api.ClassifyCodes | supabase/functions/admin_topup_by_unique_code/index.ts:43-48 | in a list where no code occurs inside a later one, each code sent alone classifies back to its error |

## Left out

- HTTP plumbing is not modelled: the method check (405), the `OPTIONS` answer, CORS headers, response serialisation and environment-variable checks. The handlers' own logic starts after them.
- Authentication by `auth.getUser()` is not modelled for the purchase, top-up, registration and draw handlers; each is modelled for an authenticated caller. In onboarding, `auth.getUser()` is a parameter.
- Failures of the datastore calls themselves are not modelled: the 500 fetch, insert and update errors, `Admin check failed`, and `TOKENS_FETCH_FAILED`. Reads and writes that the handlers do not check always succeed in the model.
- A purchase that fails between its order insert, ledger insert and wallet update leaves partial writes in the code. This is not modelled, because the model has no datastore failures.
- Concurrency is not modelled: the read-then-write race on the wallet balance, and the lack of a transaction around order, ledger and wallet. The model is one handler on one snapshot.
- What the stored procedures do inside is not modelled (credit, registration, the draw and its randomness). Each procedure is an oracle from call to reply.
- A body that is not JSON, in every handler except onboarding, is not modelled; the body is given as optional fields. Numbers arrive as integers: `Number(...)` coercion, `NaN` and infinities are not modelled.
- The notifiers' `INVALID_JSON_BODY` answer is not modelled, for the same reason.
- Purchase.Purchase, Topup.Topup, SpinRegister.Register, PickWinner.PickWinner, CreateRestaurant.CreateRestaurant: a body that is the JSON value `null` is not modelled. These handlers read a field straight off the body, so the first read throws: the four handlers with a `catch` (purchase, top-up, registration, draw) answer 500 `SERVER_ERROR` from their `catch`, and onboarding, with no `catch` there, fails unhandled. The nearest modelled input, a body with every field absent, gets the 400 answer instead. The notifiers read `spin_id` through `?.`, so for them a `null` body is a body with no fields, as modelled.
- Api.RowOf, Fcm.ParseServiceAccount, Fcm.GetAccessToken, Fanout.Run: the `details` of a 500 caused by a thrown `TypeError` is a fixed text in the model (`Json.ReadOfNothing`, `Fcm.KeyNotText`). The code sends the engine's message, which names the property read and whether the value was `null` or `undefined`. The purchase, top-up, registration and draw handlers send it as `String(e)`, with the `TypeError: ` prefix; the notifiers send `e.message`, without it. Only the status and the `SERVER_ERROR` code are modelled exactly.
- Fcm.SendEach, Fanout.Run: a send whose `fetch` itself rejects is not modelled. Each send has two outcomes, delivered or failed. In the code such a rejection escapes the loop uncaught, after the earlier tokens were sent, and the notifier's `catch` answers 500 `SERVER_ERROR`. So "sent plus failed equals the number of tokens", and "a 500 only when no access token can be had", hold only when no send rejects.
- Notification titles and message texts are not modelled; they are fixed strings with the city spliced in. JWT claims, RS256 signing and key import (`jose`), and the HTTP requests themselves are opaque too. `GetAccessToken` takes the OAuth endpoint's answer as a parameter.
- Logging (`console.error`) and the JSON dump inside the OAuth error message are not modelled; the model keeps only that error's fixed prefix.
- Fanout.SendInChunks: every chunk's call asks for an access token, and the model gives all of them the same answer. A token request that fails only for a later chunk is not modelled.
- Fcm.SendFcmToTokens: the device tokens are typed as strings, so the `typeof t === "string"` part of the filter is not modelled. The notifiers' own filter, which does see untyped values, is modelled in `Fanout.CityTokens`.
- Text.ToLower: only ASCII letters are lowered. JavaScript's `toLowerCase` also maps non-ASCII letters; this affects only the onboarding email.
- CreateRestaurant.Normalise, Purchase.Purchase, Topup.Validate, SpinRegister.Validate, PickWinner.Validate, NotifyPublished.NotifyPublished, NotifyWinner.NotifyWinner: a JSON body field that is not a string makes `.trim()` throw in the code, which answers 500; the model types these fields as optional strings, so that answer is not modelled.
- An auth-user creation that fails without an error message is not modelled; the model's error always carries a detail string.
- The restaurant returned by the insert is modelled as the inserted row; database defaults and generated columns are not modelled.
- The `unique_code` a trigger assigns to a new profile is not modelled; the trigger is not part of this model.
