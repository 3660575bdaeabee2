/** The coin purchase handler (`create_order_and_deduct_coins`): an ordered chain of checks
    where the first failure is the answer, then a `pending` order, a negative ledger entry
    that points at it, and the debited wallet. The datastore is an immutable snapshot and
    the handler a function from (caller, body, snapshot, fresh order id) to (answer, snapshot). */
module Purchase {
  import opened Wrappers
  import opened Text
  import opened Api

  type Id = string

  /** The request body: `{ deal_id?, menu_item_id? }`. */
  datatype Body = Body(dealId: Option<string>, menuItemId: Option<string>)

  /** Which catalogue entry is being bought. */
  datatype ItemRef = DealRef(id: Id) | MenuRef(id: Id)

  /** A `profiles` row: the contact snapshot copied into the order, and the completeness flag
      (a stored `null` reads as `false`). */
  datatype Profile = Profile(
    phone: Option<string>, whatsapp: Option<string>, address: Option<string>, city: Option<string>,
    isProfileComplete: bool)

  /** A `deals` or `menu_items` row (`is_active` other than `true` reads as `false`). */
  datatype Item = Item(restaurantId: Id, priceMighty: Option<int>, isActive: bool)

  /** A `restaurants` row (a stored `null` flag reads as `false`). */
  datatype Restaurant = Restaurant(isDeleted: bool, isRestricted: bool)

  datatype Order = Order(
    id: Id, userId: Id, restaurantId: Id, dealId: Option<Id>, menuItemId: Option<Id>, coinsPaid: int,
    phone: Option<string>, whatsapp: Option<string>, address: Option<string>, city: Option<string>,
    status: string)

  /** A `wallet_ledger` row; a positive amount is a credit, a negative one a debit. */
  datatype LedgerEntry = LedgerEntry(
    userId: Id, kind: string, amount: int, referenceType: string, referenceId: Id, createdBy: Id)

  /** The tables the handler reads and writes. `wallets` maps a user to the stored balance. */
  datatype Store = Store(
    profiles: map<Id, Profile>, deals: map<Id, Item>, menuItems: map<Id, Item>,
    restaurants: map<Id, Restaurant>, wallets: map<Id, int>, orders: seq<Order>,
    ledger: seq<LedgerEntry>)

  /** The 200 response: `{ order_id, coins_paid, balance_before, balance_after }`. */
  datatype Receipt = Receipt(orderId: Id, coinsPaid: int, balanceBefore: int, balanceAfter: int)

  datatype Outcome = Outcome(reply: Result<Receipt, ApiError>, store: Store)

  // ---------------------------------------------------------------------------
  // The checks, one predicate per rung; each rung includes every earlier one.
  // ---------------------------------------------------------------------------

  /** `x?.trim() || null` is present. */
  predicate Given(x: Option<string>) {
    x.Some? && !IsBlank(x.value)
  }

  /** Exactly one of `deal_id` / `menu_item_id` survives trimming. */
  predicate RefOk(body: Body) {
    Given(body.dealId) != Given(body.menuItemId)
  }

  function RefOf(body: Body): ItemRef
    requires RefOk(body)
  {
    if Given(body.dealId) then DealRef(Trim(body.dealId.value)) else MenuRef(Trim(body.menuItemId.value))
  }

  /** A missing profile counts as incomplete. */
  predicate ProfileComplete(store: Store, user: Id) {
    user in store.profiles && store.profiles[user].isProfileComplete
  }

  function LookupItem(store: Store, ref: ItemRef): Option<Item> {
    match ref
    case DealRef(id) => if id in store.deals then Some(store.deals[id]) else None
    case MenuRef(id) => if id in store.menuItems then Some(store.menuItems[id]) else None
  }

  predicate ItemAvailable(store: Store, ref: ItemRef) {
    LookupItem(store, ref).Some? && LookupItem(store, ref).value.isActive
  }

  /** `Number(price_mighty ?? 0)`. */
  function PriceOf(item: Item): int {
    item.priceMighty.GetOr(0)
  }

  /** The not-found error names the kind of item that was asked for. */
  function NotFound(ref: ItemRef): (e: ApiError)
    ensures e == DealNotFound || e == MenuItemNotFound
  {
    if ref.DealRef? then DealNotFound else MenuItemNotFound
  }

  /** The ledger type names the kind of item that was bought. */
  function LedgerKind(ref: ItemRef): string {
    if ref.DealRef? then "purchase_deal" else "purchase_menu"
  }

  predicate RestaurantFound(store: Store, id: Id) {
    id in store.restaurants && !store.restaurants[id].isDeleted
  }

  /** The stored balance, a missing wallet counting as 0. */
  function Balance(store: Store, user: Id): int {
    if user in store.wallets then store.wallets[user] else 0
  }

  predicate PassesProfile(user: Id, body: Body, store: Store) {
    RefOk(body) && ProfileComplete(store, user)
  }

  predicate PassesItem(user: Id, body: Body, store: Store) {
    PassesProfile(user, body, store) && ItemAvailable(store, RefOf(body))
  }

  function ItemOf(user: Id, body: Body, store: Store): Item
    requires PassesItem(user, body, store)
  {
    LookupItem(store, RefOf(body)).value
  }

  predicate PassesPrice(user: Id, body: Body, store: Store) {
    PassesItem(user, body, store) && PriceOf(ItemOf(user, body, store)) > 0
  }

  predicate PassesRestaurantFound(user: Id, body: Body, store: Store) {
    PassesPrice(user, body, store) && RestaurantFound(store, ItemOf(user, body, store).restaurantId)
  }

  predicate PassesRestaurant(user: Id, body: Body, store: Store) {
    PassesRestaurantFound(user, body, store)
    && !store.restaurants[ItemOf(user, body, store).restaurantId].isRestricted
  }

  predicate PassesBalance(user: Id, body: Body, store: Store) {
    PassesRestaurant(user, body, store) && Balance(store, user) >= PriceOf(ItemOf(user, body, store))
  }

  /** The order a successful purchase of `item` through `ref` inserts: `pending`, paid in
      full, carrying the buyer's contact snapshot `p` and exactly one of the two item ids. */
  function NewOrder(user: Id, ref: ItemRef, item: Item, p: Profile, orderId: Id): Order {
    Order(orderId, user, item.restaurantId,
          if ref.DealRef? then Some(ref.id) else None, if ref.MenuRef? then Some(ref.id) else None,
          PriceOf(item), p.phone, p.whatsapp, p.address, p.city, "pending")
  }

  /** The ledger entry that pays for it: the price as a debit, pointing at the order,
      created by the buyer. */
  function NewDebit(user: Id, ref: ItemRef, item: Item, orderId: Id): LedgerEntry {
    LedgerEntry(user, LedgerKind(ref), -PriceOf(item), "order", orderId, user)
  }

  // ---------------------------------------------------------------------------
  // The handler, staged as the source is.
  // ---------------------------------------------------------------------------

  /** Lines 36–41: trim both ids, treat blank as absent, demand exactly one. */
  function ParseItemRef(body: Body): (r: Result<ItemRef, ApiError>)
    ensures r.Ok? <==> RefOk(body)
    ensures r.Ok? ==> r.value == RefOf(body)
    ensures r.Err? ==> r.error == BadItemRef
  {
    var deal := TrimOrNone(body.dealId);
    var menu := TrimOrNone(body.menuItemId);
    if deal.Some? == menu.Some? then Err(BadItemRef)
    else if deal.Some? then Ok(DealRef(deal.value))
    else Ok(MenuRef(menu.value))
  }

  /** Line 109: the wallet upsert, which creates a zero-balance row when none exists and
      otherwise changes nothing. */
  function EnsureWallet(store: Store, user: Id): (s: Store)
    ensures user in s.wallets
    ensures forall u :: Balance(s, u) == Balance(store, u)
    ensures s == store.(wallets := s.wallets)
    ensures s.wallets.Keys == store.wallets.Keys + {user}
  {
    if user in store.wallets then store else store.(wallets := store.wallets[user := 0])
  }

  /** Not deleted and not restricted. */
  predicate Usable(store: Store, id: Id) {
    RestaurantFound(store, id) && !store.restaurants[id].isRestricted
  }

  /** Lines 93–166, once the item is known: price, restaurant, balance, then the order, its
      ledger debit and the wallet update. */
  function Settle(user: Id, ref: ItemRef, item: Item, store: Store, orderId: Id): (o: Outcome)
    requires user in store.profiles
    ensures o.reply == Err(InvalidMightyPrice) <==> PriceOf(item) <= 0
    ensures o.reply == Err(RestaurantNotFound) <==> PriceOf(item) > 0 && !RestaurantFound(store, item.restaurantId)
    ensures o.reply == Err(RestaurantRestricted)
            <==> PriceOf(item) > 0 && RestaurantFound(store, item.restaurantId) && !Usable(store, item.restaurantId)
    ensures o.reply == Err(InsufficientBalance)
            <==> PriceOf(item) > 0 && Usable(store, item.restaurantId) && Balance(store, user) < PriceOf(item)
    ensures o.reply.Ok? <==> PriceOf(item) > 0 && Usable(store, item.restaurantId) && Balance(store, user) >= PriceOf(item)
    ensures o.reply.Err? ==> o.reply.error in {InvalidMightyPrice, RestaurantNotFound, RestaurantRestricted, InsufficientBalance}
    ensures o.reply.Err? && !(PriceOf(item) > 0 && Usable(store, item.restaurantId)) ==> o.store == store
    ensures o.reply == Err(InsufficientBalance) ==> o.store == EnsureWallet(store, user)
    ensures o.reply.Ok? ==>
      && o.reply.value == Receipt(orderId, PriceOf(item), Balance(store, user), Balance(store, user) - PriceOf(item))
      && o.reply.value.balanceAfter >= 0
      && o.store.orders == store.orders + [NewOrder(user, ref, item, store.profiles[user], orderId)]
      && o.store.ledger == store.ledger + [NewDebit(user, ref, item, orderId)]
      && o.store.wallets == store.wallets[user := Balance(store, user) - PriceOf(item)]
      && o.store.(orders := store.orders, ledger := store.ledger, wallets := store.wallets) == store
  {
    var price := PriceOf(item);
    if price <= 0 then Outcome(Err(InvalidMightyPrice), store)
    else if !RestaurantFound(store, item.restaurantId) then Outcome(Err(RestaurantNotFound), store)
    else if store.restaurants[item.restaurantId].isRestricted then Outcome(Err(RestaurantRestricted), store)
    else
      var s1 := EnsureWallet(store, user);
      var before := Balance(s1, user);
      if before < price then Outcome(Err(InsufficientBalance), s1)
      else
        var order := NewOrder(user, ref, item, s1.profiles[user], orderId);
        var entry := NewDebit(user, ref, item, orderId);
        var after := before - price;
        Outcome(
          Ok(Receipt(orderId, price, before, after)),
          s1.(orders := s1.orders + [order], ledger := s1.ledger + [entry], wallets := s1.wallets[user := after]))
  }

  /** Lines 46–166, once the item reference is known: profile, item, then `Settle`. */
  function Buy(user: Id, ref: ItemRef, store: Store, orderId: Id): (o: Outcome)
    ensures o.reply == Err(ProfileIncomplete) <==> !ProfileComplete(store, user)
    ensures o.reply == Err(NotFound(ref)) <==> ProfileComplete(store, user) && !ItemAvailable(store, ref)
    ensures !(ProfileComplete(store, user) && ItemAvailable(store, ref)) ==> o.store == store
    ensures o.reply.Err? ==> o.reply.error in {ProfileIncomplete, NotFound(ref), InvalidMightyPrice, RestaurantNotFound,
                                               RestaurantRestricted, InsufficientBalance}
    ensures ProfileComplete(store, user) && ItemAvailable(store, ref)
            ==> o == Settle(user, ref, LookupItem(store, ref).value, store, orderId)
  {
    if !ProfileComplete(store, user) then Outcome(Err(ProfileIncomplete), store)
    else
      match LookupItem(store, ref)
      case None => Outcome(Err(NotFound(ref)), store)
      case Some(item) =>
        if !item.isActive then Outcome(Err(NotFound(ref)), store)
        else Settle(user, ref, item, store, orderId)
  }

  /** The handler body, lines 33–166, for an authenticated caller `user`; `orderId` is the
      id the datastore assigns to the inserted order. A malformed item reference is answered
      before anything is read; after that `Buy` runs on the parsed reference. */
  function Purchase(user: Id, body: Body, store: Store, orderId: Id): (o: Outcome)
    ensures !RefOk(body) ==> o == Outcome(Err(BadItemRef), store)
    ensures RefOk(body) ==> o == Buy(user, RefOf(body), store, orderId)
  {
    match ParseItemRef(body)
    case Err(e) => Outcome(Err(e), store)
    case Ok(ref) => Buy(user, ref, store, orderId)
  }

  /** Once the reference is well-formed, the profile complete and the item available, the
      purchase is settled against that item. */
  lemma PurchaseOfAvailableItem(user: Id, body: Body, store: Store, orderId: Id)
    requires PassesItem(user, body, store)
    ensures Purchase(user, body, store, orderId) == Settle(user, RefOf(body), ItemOf(user, body, store), store, orderId)
  {
  }

  /** The checks before the price, in the code's order: the item reference's shape (line 39),
      then the profile (line 53), then the item (lines 73–90); the first failure is the answer
      and nothing is written. */
  lemma PurchaseEarlyChecks(user: Id, body: Body, store: Store, orderId: Id)
    ensures var o := Purchase(user, body, store, orderId);
      && (o.reply == Err(BadItemRef) <==> !RefOk(body))
      && (o.reply == Err(ProfileIncomplete) <==> RefOk(body) && !ProfileComplete(store, user))
      && (o.reply == Err(DealNotFound)
          <==> PassesProfile(user, body, store) && RefOf(body).DealRef? && !ItemAvailable(store, RefOf(body)))
      && (o.reply == Err(MenuItemNotFound)
          <==> PassesProfile(user, body, store) && RefOf(body).MenuRef? && !ItemAvailable(store, RefOf(body)))
      && (!PassesItem(user, body, store) ==> o.store == store)
  {
  }

  /** The checks from the price on, in the code's order: price (lines 93–95), restaurant
      found (line 105), restricted (line 106), balance (lines 120–121); success only when all
      pass. */
  lemma PurchaseLateChecks(user: Id, body: Body, store: Store, orderId: Id)
    ensures var o := Purchase(user, body, store, orderId);
      && (o.reply == Err(InvalidMightyPrice) <==> PassesItem(user, body, store) && PriceOf(ItemOf(user, body, store)) <= 0)
      && (o.reply == Err(RestaurantNotFound)
          <==> PassesPrice(user, body, store) && !RestaurantFound(store, ItemOf(user, body, store).restaurantId))
      && (o.reply == Err(RestaurantRestricted) <==> PassesRestaurantFound(user, body, store) && !PassesRestaurant(user, body, store))
      && (o.reply == Err(InsufficientBalance) <==> PassesRestaurant(user, body, store) && !PassesBalance(user, body, store))
      && (o.reply.Ok? <==> PassesBalance(user, body, store))
  {
    if PassesItem(user, body, store) {
      PurchaseOfAvailableItem(user, body, store, orderId);
    }
  }

  /** A purchase that fails a check is rejected. Every rejection but the balance one comes
      before the wallet upsert at line 109 and writes nothing; the balance rejection leaves
      only the upserted wallet behind. */
  lemma PurchaseRejection(user: Id, body: Body, store: Store, orderId: Id)
    requires !PassesBalance(user, body, store)
    ensures var o := Purchase(user, body, store, orderId);
      && o.reply.Err?
      && (o.reply != Err(InsufficientBalance) ==> o.store == store)
      && (o.reply == Err(InsufficientBalance) ==> o.store == EnsureWallet(store, user))
  {
    if PassesItem(user, body, store) {
      PurchaseOfAvailableItem(user, body, store, orderId);
    }
  }

  /** A successful purchase writes exactly one `pending` order and one debit for it
      (lines 128–166): the order carries the one item id that was asked for and the price as
      coins paid; the debit is the negated price, typed by the item kind, points at the order
      and is created by the buyer; the buyer's balance drops by the price. */
  lemma PurchaseSuccess(user: Id, body: Body, store: Store, orderId: Id)
    requires PassesBalance(user, body, store)
    ensures var o := Purchase(user, body, store, orderId);
      var ref := RefOf(body);
      && o.reply.Ok? && o.reply.value.orderId == orderId
      && |o.store.orders| == |store.orders| + 1 && o.store.orders[..|store.orders|] == store.orders
      && |o.store.ledger| == |store.ledger| + 1 && o.store.ledger[..|store.ledger|] == store.ledger
      && var order := o.store.orders[|store.orders|];
      var debit := o.store.ledger[|store.ledger|];
      && order.id == orderId && order.userId == user && order.status == "pending"
      && order.coinsPaid == o.reply.value.coinsPaid > 0
      && (ref.DealRef? ==> order.dealId == Some(ref.id) && order.menuItemId.None?)
      && (ref.MenuRef? ==> order.menuItemId == Some(ref.id) && order.dealId.None?)
      && debit.userId == user && debit.amount == -order.coinsPaid && debit.kind == LedgerKind(ref)
      && debit.referenceType == "order" && debit.referenceId == orderId && debit.createdBy == user
      && Balance(o.store, user) == Balance(store, user) - order.coinsPaid
  {
    PurchaseOfAvailableItem(user, body, store, orderId);
  }

  // ---------------------------------------------------------------------------
  // Wallet / ledger consistency.
  // ---------------------------------------------------------------------------

  /** The sum of a user's ledger amounts. */
  function LedgerSum(ledger: seq<LedgerEntry>, user: Id): int {
    if |ledger| == 0 then 0
    else (if ledger[0].userId == user then ledger[0].amount else 0) + LedgerSum(ledger[1..], user)
  }

  /** Appending an entry adds its amount to its own user's sum and nothing to anyone else's. */
  lemma {:induction false} LedgerSumAppend(ledger: seq<LedgerEntry>, e: LedgerEntry, user: Id)
    ensures LedgerSum(ledger + [e], user) == LedgerSum(ledger, user) + (if e.userId == user then e.amount else 0)
    decreases |ledger|
  {
    if |ledger| > 0 {
      assert (ledger + [e])[1..] == ledger[1..] + [e];
      LedgerSumAppend(ledger[1..], e, user);
    }
  }

  /** Every wallet balance equals the sum of that user's ledger amounts. */
  ghost predicate Consistent(store: Store) {
    forall u :: Balance(store, u) == LedgerSum(store.ledger, u)
  }

  /** Appending a user's ledger entry while moving that user's balance by its amount keeps
      every balance equal to its ledger sum. */
  lemma PostingKeepsConsistency(store: Store, s: Store, e: LedgerEntry)
    requires Consistent(store)
    requires s.ledger == store.ledger + [e]
    requires s.wallets == store.wallets[e.userId := Balance(store, e.userId) + e.amount]
    ensures Consistent(s)
  {
    forall u ensures Balance(s, u) == LedgerSum(s.ledger, u) {
      LedgerSumAppend(store.ledger, e, u);
    }
  }

  /** The wallet upsert keeps every balance and the ledger, so it keeps the invariant. */
  lemma UpsertKeepsConsistency(store: Store, user: Id)
    requires Consistent(store)
    ensures Consistent(EnsureWallet(store, user))
  {
  }

  /** Settling keeps the invariant: a success moves the buyer's wallet and ledger sum down by
      the same price, the balance rejection only upserts a wallet, and the rest write nothing. */
  lemma SettleKeepsConsistency(user: Id, ref: ItemRef, item: Item, store: Store, orderId: Id)
    requires user in store.profiles
    requires Consistent(store)
    ensures Consistent(Settle(user, ref, item, store, orderId).store)
  {
    var o := Settle(user, ref, item, store, orderId);
    if o.reply.Ok? {
      PostingKeepsConsistency(store, o.store, NewDebit(user, ref, item, orderId));
    } else if o.reply == Err(InsufficientBalance) {
      UpsertKeepsConsistency(store, user);
    }
  }

  /** The wallet/ledger invariant survives every purchase, successful or not. */
  lemma PurchasePreservesConsistency(user: Id, body: Body, store: Store, orderId: Id)
    requires Consistent(store)
    ensures Consistent(Purchase(user, body, store, orderId).store)
  {
    if PassesItem(user, body, store) {
      PurchaseOfAvailableItem(user, body, store, orderId);
      SettleKeepsConsistency(user, RefOf(body), ItemOf(user, body, store), store, orderId);
    }
  }

  /** Settling never drives a wallet negative. */
  lemma SettleKeepsBalancesNonNegative(user: Id, ref: ItemRef, item: Item, store: Store, orderId: Id)
    requires user in store.profiles
    requires forall u | u in store.wallets :: store.wallets[u] >= 0
    ensures var s := Settle(user, ref, item, store, orderId).store;
            forall u | u in s.wallets :: s.wallets[u] >= 0
  {
  }

  /** No wallet ever goes negative through a purchase. */
  lemma PurchaseKeepsBalancesNonNegative(user: Id, body: Body, store: Store, orderId: Id)
    requires forall u | u in store.wallets :: store.wallets[u] >= 0
    ensures var s := Purchase(user, body, store, orderId).store;
            forall u | u in s.wallets :: s.wallets[u] >= 0
  {
    if PassesItem(user, body, store) {
      PurchaseOfAvailableItem(user, body, store, orderId);
      SettleKeepsBalancesNonNegative(user, RefOf(body), ItemOf(user, body, store), store, orderId);
    }
  }
}
