/**
 * The order services of src/app/modules/order/order.service.ts: placing an
 * order (stock, coupon, order and payment in one transaction), the shop
 * owner's status change, assigning an order to a delivery agent, the agent's
 * listings, and completing a delivery.
 *
 * Each service that the source runs in a transaction saves the store's
 * `Tables` first and restores them on any error, so a failed call leaves the
 * store exactly as it found it. Saving an order document runs the pricing hook
 * of module OrderModel again (`ValidateOrder`), so every service that saves an
 * order re-prices it from the current products and coupons and can fail there.
 */
module OrderService {
  import opened Wrappers
  import opened Domain
  import opened Database
  import opened OrderModel
  import opened StockLedger

  /**
   * The body of an order request: the cart, an optional coupon code, the
   * address, the payment method, and the two status fields a body may also
   * carry (the body is copied into the order as it is). Amounts, shop and unit
   * prices a body may carry are left out: the pricing hook overwrites them.
   */
  datatype OrderDraft = OrderDraft(
    lines: seq<Line>,
    couponCode: Option<string>,
    shippingAddress: Address,
    paymentMethod: Option<PaymentMethod>,
    status: Option<OrderStatus>,
    paymentStatus: Option<PaymentStatus>)

  /**
   * The order document built from a request before the hook runs: for the
   * requesting user, unassigned, with the schema defaults ('Pending',
   * 'Pending', 'Online') for what the body leaves out.
   */
  function Placed(draft: OrderDraft, user: Id, coupon: Option<Id>): Order {
    Order(user, None, draft.lines, coupon, 0.0, 0.0, 0.0, 0.0, draft.status.GetOr(OrderStatus.Pending), draft.shippingAddress,
          None, draft.paymentMethod.GetOr(Online), draft.paymentStatus.GetOr(PaymentStatus.Pending))
  }

  /** Whether a code was supplied at all: absent and empty codes skip the coupon step. */
  predicate HasCode(code: Option<string>) {
    code.Some? && code.value != ""
  }

  /** The coupon carrying a code, if any (codes are unique). */
  ghost function CouponNamed(coupons: map<Id, Coupon>, code: string): (r: Option<Id>)
    ensures r.Some? ==> r.value in coupons && coupons[r.value].code == code
    ensures r.None? ==> forall id :: id in coupons ==> coupons[id].code != code
  {
    if exists id :: id in coupons && coupons[id].code == code then
      var id :| id in coupons && coupons[id].code == code; Some(id)
    else None
  }

  /**
   * The coupon step of order creation: no code, no coupon; an unknown code is
   * 'Invalid coupon code.'; a coupon is refused before its start date and after
   * its end date, and accepted at both ends of its window.
   */
  ghost function CouponCheck(coupons: map<Id, Coupon>, code: Option<string>, now: Time): (r: Result<Option<Id>, Error>)
    ensures !HasCode(code) ==> r == Ok(None)
    ensures HasCode(code) && (forall id :: id in coupons ==> coupons[id].code != code.value) ==> r == Err(InvalidCoupon)
    ensures r.Ok? && r.value.Some? ==>
      && HasCode(code)
      && r.value.value in coupons
      && var c := coupons[r.value.value]; c.code == code.value && c.startDate <= now <= c.endDate
    ensures r == Err(CouponNotStarted) ==>
      exists id :: id in coupons && coupons[id].code == code.value && now < coupons[id].startDate
    ensures r == Err(CouponExpired) ==>
      exists id :: id in coupons && coupons[id].code == code.value && coupons[id].endDate < now
    ensures r.Err? ==> r.error == InvalidCoupon || r.error == CouponNotStarted || r.error == CouponExpired
    ensures r == Err(InvalidCoupon) ==> HasCode(code) && forall id :: id in coupons ==> coupons[id].code != code.value
    ensures HasCode(code) && CodesUnique(coupons) ==>
      forall id :: id in coupons && coupons[id].code == code.value ==>
        && (now < coupons[id].startDate ==> r == Err(CouponNotStarted))
        && (coupons[id].startDate <= now && coupons[id].endDate < now ==> r == Err(CouponExpired))
        && (coupons[id].startDate <= now <= coupons[id].endDate ==> r == Ok(Some(id)))
  {
    if !HasCode(code) then Ok(None)
    else
      match CouponNamed(coupons, code.value)
      case None => Err(InvalidCoupon)
      case Some(id) =>
        assert CodesUnique(coupons) ==> forall other :: other in coupons && coupons[other].code == code.value ==> other == id;
        if now < coupons[id].startDate then Err(CouponNotStarted)
        else if now > coupons[id].endDate then Err(CouponExpired)
        else Ok(Some(id))
  }

  /**
   * The coupon step as the service runs it: `Coupon.findOne({ code })` and the
   * date checks. All it adds to `CouponCheck` is the lookup's choice, which
   * unique codes make the only one.
   */
  method ResolveCoupon(coupons: map<Id, Coupon>, code: Option<string>, now: Time) returns (r: Result<Option<Id>, Error>)
    requires CodesUnique(coupons)
    ensures r == CouponCheck(coupons, code, now)
  {
    if !HasCode(code) {
      return Ok(None);
    }
    if !exists id :: id in coupons && coupons[id].code == code.value {
      return Err(InvalidCoupon);
    }
    var id :| id in coupons && coupons[id].code == code.value;
    assert CouponNamed(coupons, code.value) == Some(id);
    if now < coupons[id].startDate {
      return Err(CouponNotStarted);
    }
    if now > coupons[id].endDate {
      return Err(CouponExpired);
    }
    r := Ok(Some(id));
  }

  /**
   * Pricing reads only prices, offers and shops; two catalogues that differ in
   * stock alone price every order alike.
   */
  lemma PricingIgnoresStock(products: map<Id, Product>, products': map<Id, Product>, coupons: map<Id, Coupon>, o: Order)
    requires products'.Keys == products.Keys
    requires forall id :: id in products ==> products'[id] == products[id].(stock := products'[id].stock)
    ensures ShopConsistent(o.lines, products') == ShopConsistent(o.lines, products)
    ensures ShopConsistent(o.lines, products) ==> Repriced(products', coupons, o) == Repriced(products, coupons, o)
  {
    if ShopConsistent(o.lines, products) {
      assert RepricedLines(o.lines, products') == RepricedLines(o.lines, products);
    }
  }

  /**
   * The stock loop of `createOrder`: each line in turn is checked against the
   * stock as the earlier lines left it, and decremented. On an error the stock
   * is put back (the transaction is aborted).
   */
  method TakeStock(db: Store, lines: seq<Line>) returns (r: Result<(), Error>)
    modifies db`products
    ensures r.Ok? <==> Reserve(old(db.products), lines).Ok?
    ensures r.Ok? ==> db.products == Reserve(old(db.products), lines).value
    ensures r.Err? ==> r.error == Reserve(old(db.products), lines).error && db.products == old(db.products)
  {
    var saved := db.products;
    var i := 0;
    while i < |lines|
      invariant 0 <= i <= |lines|
      invariant Reserve(saved, lines) == Reserve(db.products, lines[i..])
    {
      var item := lines[i];
      assert lines[i..][0] == item && lines[i..][1..] == lines[i + 1..];
      if item.product !in db.products {
        db.products := saved;
        return Err(ProductNotFound);
      }
      var product := db.products[item.product];
      if !product.isActive {
        db.products := saved;
        return Err(ProductInactive);
      }
      if product.stock < item.quantity {
        db.products := saved;
        return Err(InsufficientStock);
      }
      db.products := db.products[item.product := product.(stock := product.stock - item.quantity)];
      i := i + 1;
    }
    assert lines[i..] == [];
    r := Ok(());
  }

  /** Whether a request can be placed: the stock suffices, the coupon is accepted, and the order document saves. */
  ghost predicate Placeable(before: Tables, draft: OrderDraft, user: Id, now: Time) {
    && Reserve(before.products, draft.lines).Ok?
    && CouponCheck(before.coupons, draft.couponCode, now).Ok?
    && Saves(before.products, before.coupons, Placed(draft, user, CouponCheck(before.coupons, draft.couponCode, now).value))
  }

  /**
   * Once stock is taken and the coupon accepted, saving the order against the
   * reduced catalogue decides placement as the original catalogue would: the
   * products are the same, the cart is single-shop alike, and the priced order
   * is the same.
   */
  lemma SaveDecidesPlacement(before: Tables, products: map<Id, Product>, draft: OrderDraft, user: Id, now: Time)
    requires Reserve(before.products, draft.lines).Ok? && products == Reserve(before.products, draft.lines).value
    requires CouponCheck(before.coupons, draft.couponCode, now).Ok?
    ensures Catalogued(draft.lines, products)
    ensures ShopConsistent(draft.lines, products) == ShopConsistent(draft.lines, before.products)
    ensures var placed := Placed(draft, user, CouponCheck(before.coupons, draft.couponCode, now).value);
      && (Saves(products, before.coupons, placed) <==> Placeable(before, draft, user, now))
      && (ShopConsistent(draft.lines, before.products) ==>
            Repriced(products, before.coupons, placed) == Repriced(before.products, before.coupons, placed))
  {
    ReserveKeepsCatalogue(before.products, draft.lines);
    ReserveNeedsProducts(before.products, draft.lines);
    var placed := Placed(draft, user, CouponCheck(before.coupons, draft.couponCode, now).value);
    PricingIgnoresStock(before.products, products, before.coupons, placed);
  }

  /**
   * The store after a successful order: stock taken, the priced order stored
   * under a fresh id, and a pending payment for its final amount, to its shop,
   * under the next id. Nothing else changes.
   */
  ghost predicate OrderPlaced(before: Tables, after: Tables, draft: OrderDraft, user: Id, now: Time, transactionId: string)
    requires Placeable(before, draft, user, now)
  {
    var orderId := before.nextId;
    var saved := Repriced(before.products, before.coupons, Placed(draft, user, CouponCheck(before.coupons, draft.couponCode, now).value));
    var payment := Payment(user, saved.shop, orderId, draft.paymentMethod, transactionId, saved.finalAmount, PaymentStatus.Pending);
    after == before.(
      products := Reserve(before.products, draft.lines).value,
      orders := before.orders[orderId := saved],
      payments := before.payments[orderId + 1 := payment],
      nextId := orderId + 2)
  }

  /**
   * `createOrder`. Returns the payment page address for an online payment and
   * nothing for cash on delivery. `now` is the clock, `transactionId` the
   * generated transaction id and `gatewayUrl` the payment gateway's answer
   * (`None` when it fails). All or nothing: on any error the store is unchanged.
   */
  method CreateOrder(db: Store, draft: OrderDraft, user: Id, now: Time, transactionId: string, gatewayUrl: Option<string>)
    returns (r: Result<Option<string>, Error>)
    requires db.Valid()
    modifies db
    ensures db.Valid()
    ensures r.Err? ==> db.Snapshot() == old(db.Snapshot())
    ensures Reserve(old(db.products), draft.lines).Err? ==> r == Err(Reserve(old(db.products), draft.lines).error)
    ensures Reserve(old(db.products), draft.lines).Ok? && CouponCheck(old(db.coupons), draft.couponCode, now).Err? ==>
      r == Err(CouponCheck(old(db.coupons), draft.couponCode, now).error)
    ensures r.Ok? <==>
      Placeable(old(db.Snapshot()), draft, user, now) && (draft.paymentMethod.GetOr(Online) == Online ==> gatewayUrl.Some?)
    ensures Reserve(old(db.products), draft.lines).Ok? && CouponCheck(old(db.coupons), draft.couponCode, now).Ok? ==>
      && (!ShopConsistent(draft.lines, old(db.products)) ==> r == Err(MixedShops))
      && (ShopConsistent(draft.lines, old(db.products)) && !Placeable(old(db.Snapshot()), draft, user, now) ==>
            r == Err(ValidationFailed))
    ensures Placeable(old(db.Snapshot()), draft, user, now) && draft.paymentMethod.GetOr(Online) == Online && gatewayUrl.None? ==>
      r == Err(PaymentGatewayFailed)
    ensures r.Ok? ==> OrderPlaced(old(db.Snapshot()), db.Snapshot(), draft, user, now, transactionId)
    ensures r.Ok? ==> r.value == if draft.paymentMethod.GetOr(Online) == Online then gatewayUrl else None
  {
    var before := db.Snapshot();
    var taken := TakeStock(db, draft.lines);
    if taken.Err? {
      return Err(taken.error);
    }

    var coupon := ResolveCoupon(db.coupons, draft.couponCode, now);
    if coupon.Err? {
      db.Restore(before);
      return Err(coupon.error);
    }
    r := SaveOrder(db, before, draft, user, now, coupon.value, transactionId, gatewayUrl);
  }

  /**
   * The rest of `createOrder` once the stock is taken and the coupon accepted:
   * the order document is saved (so the pricing hook runs), the order and its
   * payment are recorded, and an online payment needs the gateway's answer.
   * `coupon` is the coupon the coupon step accepted.
   * On an error the store goes back to `before`, as the transaction found it.
   */
  method SaveOrder(db: Store, before: Tables, draft: OrderDraft, user: Id, now: Time, coupon: Option<Id>,
                   transactionId: string, gatewayUrl: Option<string>) returns (r: Result<Option<string>, Error>)
    requires db.Valid() && Consistent(before)
    requires Reserve(before.products, draft.lines).Ok? && CouponCheck(before.coupons, draft.couponCode, now) == Ok(coupon)
    requires db.Snapshot() == before.(products := Reserve(before.products, draft.lines).value)
    modifies db
    ensures db.Valid()
    ensures r.Err? ==> db.Snapshot() == before
    ensures r.Ok? <==>
      Placeable(before, draft, user, now) && (draft.paymentMethod.GetOr(Online) == Online ==> gatewayUrl.Some?)
    ensures !ShopConsistent(draft.lines, before.products) ==> r == Err(MixedShops)
    ensures ShopConsistent(draft.lines, before.products) && !Placeable(before, draft, user, now) ==> r == Err(ValidationFailed)
    ensures Placeable(before, draft, user, now) && draft.paymentMethod.GetOr(Online) == Online && gatewayUrl.None? ==>
      r == Err(PaymentGatewayFailed)
    ensures r.Ok? ==> OrderPlaced(before, db.Snapshot(), draft, user, now, transactionId)
    ensures r.Ok? ==> r.value == if draft.paymentMethod.GetOr(Online) == Online then gatewayUrl else None
  {
    var placed := Placed(draft, user, coupon);
    SaveDecidesPlacement(before, db.products, draft, user, now);
    var saved := ValidateOrder(db.products, db.coupons, placed);
    if saved.Err? {
      db.Restore(before);
      return Err(saved.error);
    }
    r := RecordAndCharge(db, before, draft, user, now, coupon, saved.value, transactionId, gatewayUrl);
  }

  /**
   * The end of `createOrder` once the order document is saved: the order and
   * its pending payment are recorded, and an online order asks the gateway for
   * its payment page; a gateway failure aborts the transaction back to
   * `before`, and cash on delivery returns nothing.
   */
  method RecordAndCharge(db: Store, before: Tables, draft: OrderDraft, user: Id, now: Time, coupon: Option<Id>,
                         saved: Order, transactionId: string, gatewayUrl: Option<string>)
    returns (r: Result<Option<string>, Error>)
    requires db.Valid() && Consistent(before)
    requires Placeable(before, draft, user, now) && CouponCheck(before.coupons, draft.couponCode, now) == Ok(coupon)
    requires saved == Repriced(before.products, before.coupons, Placed(draft, user, coupon))
    requires db.Snapshot() == before.(products := Reserve(before.products, draft.lines).value)
    modifies db
    ensures db.Valid()
    ensures r.Err? <==> draft.paymentMethod.GetOr(Online) == Online && gatewayUrl.None?
    ensures r.Err? ==> r == Err(PaymentGatewayFailed) && db.Snapshot() == before
    ensures r.Ok? ==> OrderPlaced(before, db.Snapshot(), draft, user, now, transactionId)
    ensures r.Ok? ==> r.value == if draft.paymentMethod.GetOr(Online) == Online then gatewayUrl else None
  {
    RecordOrder(db, saved, draft.paymentMethod, transactionId);
    RecordingPlaces(before, db.Snapshot(), draft, user, now, coupon, transactionId);
    if saved.paymentMethod == Online {
      if gatewayUrl.None? {
        db.Restore(before);
        return Err(PaymentGatewayFailed);
      }
      r := Ok(gatewayUrl);
    } else {
      r := Ok(None);
    }
  }

  /** Recording the priced order and its payment, as `RecordOrder` does, is the placement `OrderPlaced` describes. */
  lemma RecordingPlaces(before: Tables, after: Tables, draft: OrderDraft, user: Id, now: Time, coupon: Option<Id>,
                        transactionId: string)
    requires Placeable(before, draft, user, now) && CouponCheck(before.coupons, draft.couponCode, now) == Ok(coupon)
    requires var saved := Repriced(before.products, before.coupons, Placed(draft, user, coupon));
      after == before.(
        products := Reserve(before.products, draft.lines).value,
        orders := before.orders[before.nextId := saved],
        payments := before.payments[before.nextId + 1 :=
          Payment(saved.user, saved.shop, before.nextId, draft.paymentMethod, transactionId, saved.finalAmount, PaymentStatus.Pending)],
        nextId := before.nextId + 2)
    ensures OrderPlaced(before, after, draft, user, now, transactionId)
  {
  }

  /** Stores a priced order under a fresh id and its pending payment, for the final amount, under the next one. */
  method RecordOrder(db: Store, saved: Order, paymentMethod: Option<PaymentMethod>, transactionId: string)
    requires db.Valid()
    modifies db
    ensures db.Valid()
    ensures db.Snapshot() == old(db.Snapshot()).(
      orders := old(db.orders)[old(db.nextId) := saved],
      payments := old(db.payments)[old(db.nextId) + 1 :=
        Payment(saved.user, saved.shop, old(db.nextId), paymentMethod, transactionId, saved.finalAmount, PaymentStatus.Pending)],
      nextId := old(db.nextId) + 2)
  {
    var orderId := db.NewId();
    db.orders := db.orders[orderId := saved];
    var paymentId := db.NewId();
    db.payments := db.payments[paymentId := Payment(saved.user, saved.shop, orderId, paymentMethod, transactionId,
                                                    saved.finalAmount, PaymentStatus.Pending)];
  }

  /**
   * What a placed order records: the requesting user, no agent, the request's
   * address, method and statuses (the schema defaults when absent), and one
   * pending payment for exactly its final amount to its shop.
   */
  lemma PlacedOrderRecords(before: Tables, after: Tables, draft: OrderDraft, user: Id, now: Time, transactionId: string)
    requires Placeable(before, draft, user, now)
    requires OrderPlaced(before, after, draft, user, now, transactionId)
    ensures before.nextId in after.orders && before.nextId + 1 in after.payments
    ensures var o := after.orders[before.nextId];
      && o.user == user
      && o.assignment.None?
      && o.shippingAddress == draft.shippingAddress
      && o.paymentMethod == draft.paymentMethod.GetOr(Online)
      && o.status == draft.status.GetOr(OrderStatus.Pending)
      && o.paymentStatus == draft.paymentStatus.GetOr(PaymentStatus.Pending)
      && o.shop.Some?
      && o.finalAmount >= 0.0
      && after.payments[before.nextId + 1] ==
           Payment(user, o.shop, before.nextId, draft.paymentMethod, transactionId, o.finalAmount, PaymentStatus.Pending)
  {
  }

  /** Whether a shop belongs to the user and is active (`Shop.findOne({ user, isActive: true })`). */
  predicate RunsShop(shops: map<Id, Shop>, user: Id, shop: Id) {
    shop in shops && shops[shop].owner == user && shops[shop].isActive == Some(true)
  }

  /**
   * `changeOrderStatus`. The user must exist, be active, have `hasShop` and run
   * an active shop; then the order with that id is given the new status if it
   * belongs to that shop, and `None` is returned otherwise. Only `status`
   * changes, and the order is not re-priced (a query update runs no document
   * hook).
   */
  method ChangeOrderStatus(db: Store, orderId: Id, status: OrderStatus, user: Id) returns (r: Result<Option<Order>, Error>)
    requires db.Valid()
    modifies db
    ensures db.Valid()
    ensures user !in old(db.users) ==> r == Err(UserNotFound)
    ensures user in old(db.users) && !old(db.users)[user].isActive ==> r == Err(UserInactive)
    ensures user in old(db.users) && old(db.users)[user].isActive && !old(db.users)[user].hasShop ==> r == Err(NoShop)
    ensures (user in old(db.users) && old(db.users)[user].isActive && old(db.users)[user].hasShop
             && forall s :: !RunsShop(old(db.shops), user, s)) ==> r == Err(ShopInactive)
    ensures r.Ok? ==> user in old(db.users) && old(db.users)[user].isActive && old(db.users)[user].hasShop
                      && exists s :: RunsShop(old(db.shops), user, s)
    ensures r.Err? || r.value.None? ==> db.Snapshot() == old(db.Snapshot())
    ensures r.Ok? && r.value.Some? ==>
      && orderId in old(db.orders)
      && old(db.orders)[orderId].shop.Some?
      && RunsShop(old(db.shops), user, old(db.orders)[orderId].shop.value)
      && r.value.value == old(db.orders)[orderId].(status := status)
      && db.Snapshot() == old(db.Snapshot()).(orders := old(db.orders)[orderId := r.value.value])
    ensures (user in old(db.users) && old(db.users)[user].isActive && old(db.users)[user].hasShop
             && exists s :: RunsShop(old(db.shops), user, s)) ==> r.Ok?
    ensures (&& user in old(db.users) && old(db.users)[user].isActive && old(db.users)[user].hasShop
             && orderId in old(db.orders) && old(db.orders)[orderId].shop.Some?
             && forall s :: RunsShop(old(db.shops), user, s) <==> s == old(db.orders)[orderId].shop.value) ==>
      r.Ok? && r.value.Some?
  {
    if user !in db.users {
      return Err(UserNotFound);
    }
    var account := db.users[user];
    if !account.isActive {
      return Err(UserInactive);
    }
    if !account.hasShop {
      return Err(NoShop);
    }
    ghost var runsOrderShop := orderId in db.orders && db.orders[orderId].shop.Some?
                               && RunsShop(db.shops, user, db.orders[orderId].shop.value);
    if !exists s :: s in db.shops && RunsShop(db.shops, user, s) {
      return Err(ShopInactive);
    }
    var shop: Id :| shop in db.shops && RunsShop(db.shops, user, shop);
    if orderId in db.orders && db.orders[orderId].shop == Some(shop) {
      var updated := db.orders[orderId].(status := status);
      db.orders := db.orders[orderId := updated];
      return Ok(Some(updated));
    }
    r := Ok(None);
  }

  /**
   * `assignOrderToAgentIntoDB`. Stores the assignment under a fresh id and, when
   * the order exists, records that id on the order and saves it (re-pricing it).
   * A second assignment for the same order violates the unique key; a missing
   * order is not an error: the assignment is created and no order changes.
   */
  method AssignOrderToAgent(db: Store, a: Assignment) returns (r: Result<Id, Error>)
    requires db.Valid()
    modifies db
    ensures db.Valid()
    ensures r.Err? ==> db.Snapshot() == old(db.Snapshot())
    ensures (exists b :: b in old(db.assignments) && old(db.assignments)[b].order == a.order) ==> r == Err(DuplicateAssignment)
    ensures r.Ok? <==>
      && (forall b :: b in old(db.assignments) ==> old(db.assignments)[b].order != a.order)
      && (a.order in old(db.orders) ==>
            Saves(old(db.products), old(db.coupons), old(db.orders)[a.order].(assignment := Some(old(db.nextId)))))
    ensures r.Ok? ==>
      && r.value == old(db.nextId)
      && db.Snapshot() == old(db.Snapshot()).(
           assignments := old(db.assignments)[r.value := a],
           orders := if a.order in old(db.orders)
                     then old(db.orders)[a.order := Repriced(old(db.products), old(db.coupons),
                                                             old(db.orders)[a.order].(assignment := Some(r.value)))]
                     else old(db.orders),
           nextId := r.value + 1)
  {
    if exists b :: b in db.assignments && db.assignments[b].order == a.order {
      return Err(DuplicateAssignment);
    }
    var before := db.Snapshot();
    var order: Option<Order> := if a.order in db.orders then Some(db.orders[a.order]) else None;
    var id := AddAssignment(db, a);
    if order.Some? {
      var saved := ValidateOrder(db.products, db.coupons, order.value.(assignment := Some(id)));
      if saved.Err? {
        db.Restore(before);
        return Err(saved.error);
      }
      db.orders := db.orders[a.order := saved.value];
    }
    r := Ok(id);
  }

  /** Stores an assignment, for an order that has none, under a fresh id. */
  method AddAssignment(db: Store, a: Assignment) returns (id: Id)
    requires db.Valid()
    requires forall b :: b in db.assignments ==> db.assignments[b].order != a.order
    modifies db`assignments, db`nextId
    ensures db.Valid()
    ensures id == old(db.nextId)
    ensures db.Snapshot() == old(db.Snapshot()).(assignments := old(db.assignments)[id := a], nextId := id + 1)
  {
    id := db.NewId();
    db.assignments := db.assignments[id := a];
  }

  /** The assignment status an agent's listing shows: 'Picked' while the agent is carrying a pickup, else 'Assigned'. */
  function ListedStage(picked: bool): AssignmentStatus {
    if picked then AssignmentStatus.Picked else Assigned
  }

  /**
   * `getAgentOrdersFromDB`: the agent's assignments in the stage the agent's
   * `picked` flag selects. A missing agent is an error.
   */
  function AgentOrders(users: map<Id, User>, assignments: map<Id, Assignment>, agent: Id): (r: Result<map<Id, Assignment>, Error>)
    ensures r.Err? <==> agent !in users
    ensures r.Ok? ==> forall id :: id in r.value ==>
      && id in assignments
      && r.value[id] == assignments[id]
      && r.value[id].agent == agent
      && r.value[id].status != Delivered
      && (r.value[id].status == AssignmentStatus.Picked <==> users[agent].picked)
    ensures r.Ok? ==> forall id :: (id in assignments && assignments[id].agent == agent
                                    && assignments[id].status == ListedStage(users[agent].picked)) ==> id in r.value
  {
    if agent !in users then Err(UserNotFound)
    else
      var stage := ListedStage(users[agent].picked);
      Ok(map id | id in assignments && assignments[id].agent == agent && assignments[id].status == stage :: assignments[id])
  }

  /**
   * The two listings an agent can see, before and after a pickup, never share
   * an assignment, and together they are exactly the agent's assignments that
   * are not delivered.
   */
  lemma AgentListingsPartition(users: map<Id, User>, assignments: map<Id, Assignment>, agent: Id)
    requires agent in users
    ensures var waiting := AgentOrders(users[agent := users[agent].(picked := false)], assignments, agent).value;
            var carrying := AgentOrders(users[agent := users[agent].(picked := true)], assignments, agent).value;
      && waiting.Keys !! carrying.Keys
      && waiting.Keys + carrying.Keys == set id | id in assignments && assignments[id].agent == agent && assignments[id].status != Delivered
  {
    var waiting := AgentOrders(users[agent := users[agent].(picked := false)], assignments, agent).value;
    var carrying := AgentOrders(users[agent := users[agent].(picked := true)], assignments, agent).value;
    var open := set id | id in assignments && assignments[id].agent == agent && assignments[id].status != Delivered;
    forall id | id in open ensures id in waiting.Keys + carrying.Keys {
      if assignments[id].status == Assigned {
        assert id in waiting;
      } else {
        assert id in carrying;
      }
    }
  }

  /**
   * `getDeliveryAddressFromDB`: some assignment of the agent in the 'Picked'
   * stage (its destination is the address), or nothing when there is none.
   */
  method DeliveryAddress(assignments: map<Id, Assignment>, agent: Id) returns (r: Option<Assignment>)
    ensures r.Some? ==> r.value in assignments.Values && r.value.agent == agent && r.value.status == AssignmentStatus.Picked
    ensures r.None? ==> forall id :: id in assignments ==> !(assignments[id].agent == agent && assignments[id].status == AssignmentStatus.Picked)
  {
    if exists id :: id in assignments && assignments[id].agent == agent && assignments[id].status == AssignmentStatus.Picked {
      var id :| id in assignments && assignments[id].agent == agent && assignments[id].status == AssignmentStatus.Picked;
      r := Some(assignments[id]);
    } else {
      r := None;
    }
  }

  /** The order as delivery completion leaves it, before it is re-priced on save. */
  function Completed(o: Order): Order {
    o.(status := OrderStatus.Completed, paymentStatus := Paid)
  }

  /** The assignment step of delivery: the order's assignment in the 'Picked' stage, if any, becomes 'Delivered'. */
  method DeliverAssignment(db: Store, orderId: Id)
    requires OneAssignmentPerOrder(db.assignments)
    modifies db`assignments
    ensures OneAssignmentPerOrder(db.assignments)
    ensures db.assignments.Keys == old(db.assignments).Keys
    ensures forall id :: id in old(db.assignments) ==>
      db.assignments[id] ==
        if old(db.assignments)[id].order == orderId && old(db.assignments)[id].status == AssignmentStatus.Picked
        then old(db.assignments)[id].(status := Delivered)
        else old(db.assignments)[id]
  {
    if exists id :: id in db.assignments && db.assignments[id].order == orderId && db.assignments[id].status == AssignmentStatus.Picked {
      var id :| id in db.assignments && db.assignments[id].order == orderId && db.assignments[id].status == AssignmentStatus.Picked;
      db.assignments := db.assignments[id := db.assignments[id].(status := Delivered)];
    }
  }

  /**
   * `updateDeliveryStatusIntoDB`. In one transaction: the order's assignment in
   * the 'Picked' stage becomes 'Delivered', the order becomes 'Completed' and
   * 'Paid' (and is re-priced on save), and the agent's `picked` flag is cleared.
   * Any of the three that does not exist is skipped. It fails, changing
   * nothing, only when the order's save fails.
   */
  method UpdateDeliveryStatus(db: Store, orderId: Id, agent: Id) returns (r: Result<(), Error>)
    requires db.Valid()
    modifies db
    ensures db.Valid()
    ensures r.Err? ==> db.Snapshot() == old(db.Snapshot())
    ensures r.Err? <==> orderId in old(db.orders) && !Saves(old(db.products), old(db.coupons), Completed(old(db.orders)[orderId]))
    ensures r.Ok? ==> db.assignments.Keys == old(db.assignments).Keys
    ensures r.Ok? ==> forall id :: id in old(db.assignments) ==>
      db.assignments[id] ==
        if old(db.assignments)[id].order == orderId && old(db.assignments)[id].status == AssignmentStatus.Picked
        then old(db.assignments)[id].(status := Delivered)
        else old(db.assignments)[id]
    ensures r.Ok? ==>
      db.orders ==
        if orderId in old(db.orders)
        then old(db.orders)[orderId := Repriced(old(db.products), old(db.coupons), Completed(old(db.orders)[orderId]))]
        else old(db.orders)
    ensures r.Ok? ==>
      db.users == if agent in old(db.users) then old(db.users)[agent := old(db.users)[agent].(picked := false)] else old(db.users)
    ensures r.Ok? ==> db.Snapshot() == old(db.Snapshot()).(assignments := db.assignments, orders := db.orders, users := db.users)
  {
    var before := db.Snapshot();
    DeliverAssignment(db, orderId);
    if orderId in db.orders {
      var saved := ValidateOrder(db.products, db.coupons, Completed(db.orders[orderId]));
      if saved.Err? {
        db.Restore(before);
        return Err(saved.error);
      }
      db.orders := db.orders[orderId := saved.value];
    }
    if agent in db.users {
      db.users := db.users[agent := db.users[agent].(picked := false)];
    }
    r := Ok(());
  }
}
