/**
 * The order schema's pre-`validate` hook and the schema bounds checked right
 * after it (src/app/modules/order/order.model.ts).
 *
 * Whenever an order document is saved, the hook walks its line items, fixes
 * each unit price, sums the total, insists that every product comes from one
 * shop, applies the coupon the order refers to, adds a delivery charge that
 * depends on the city, and derives the final amount. Mongoose then checks the
 * schema bounds (`SchemaValid`).
 *
 * `PriceOrder` is the hook itself, a loop over the line items proved against
 * the reference definition `Repriced`; the lemmas below state what the hook's
 * amounts mean.
 */
module OrderModel {
  import opened Wrappers
  import opened Domain

  /** The price of one unit: the offer price when there is one and it is non-zero, else the list price. */
  function UnitPrice(p: Product): Money {
    match p.offerPrice
    case Some(offer) => if offer != 0.0 then offer else p.price
    case None => p.price
  }

  function Subtotal(l: Line): Money {
    l.unitPrice * (l.quantity as Money)
  }

  /** The sum over the lines of unit price times quantity, accumulated from 0 in line order. */
  function LineSum(lines: seq<Line>): Money {
    if |lines| == 0 then 0.0 else LineSum(lines[..|lines| - 1]) + Subtotal(lines[|lines| - 1])
  }

  /** Every line names an existing product. */
  predicate Catalogued(lines: seq<Line>, products: map<Id, Product>) {
    forall i :: 0 <= i < |lines| ==> lines[i].product in products
  }

  /**
   * Every line names an existing product, and all of them belong to the shop
   * of the first line. The first conjunct is `Catalogued` written out: stated
   * through `Catalogued`, the proof of `PriceOrder` becomes much costlier.
   */
  predicate ShopConsistent(lines: seq<Line>, products: map<Id, Product>) {
    && (forall i :: 0 <= i < |lines| ==> lines[i].product in products)
    && (forall i :: 0 <= i < |lines| ==> products[lines[i].product].shop == products[lines[0].product].shop)
  }

  /** The shop the hook stores on the order: `null` for an order without lines. */
  function CommonShop(lines: seq<Line>, products: map<Id, Product>): Option<Id>
    requires ShopConsistent(lines, products)
  {
    if |lines| == 0 then None else Some(products[lines[0].product].shop)
  }

  /** The coupon document an order refers to, when the reference is set and the document exists. */
  function CouponOf(coupons: map<Id, Coupon>, ref: Option<Id>): Option<Coupon> {
    if ref.Some? && ref.value in coupons then Some(coupons[ref.value]) else None
  }

  /** The cap on a percentage discount: none when `maxDiscountAmount` is absent or 0. */
  function PercentageCap(c: Coupon): Option<Money> {
    match c.maxDiscountAmount
    case Some(m) => if m != 0.0 then Some(m) else None
    case None => None
  }

  function Min(a: Money, b: Money): Money {
    if a <= b then a else b
  }

  /** Whether a coupon gives any discount on a total: it exists, is active and the total reaches its minimum. */
  predicate Applies(coupon: Option<Coupon>, total: Money) {
    coupon.Some? && coupon.value.isActive && total >= coupon.value.minOrderAmount
  }

  /** The discount a coupon gives on an order total. */
  function CouponDiscount(coupon: Option<Coupon>, total: Money): (d: Money)
    ensures !Applies(coupon, total) ==> d == 0.0
    ensures Applies(coupon, total) && coupon.value.discountType == Flat ==>
      d <= total && d <= coupon.value.discountValue && (d == total || d == coupon.value.discountValue)
    ensures Applies(coupon, total) && coupon.value.discountType == Percentage ==>
      var share := coupon.value.discountValue / 100.0 * total;
      && d <= share
      && (PercentageCap(coupon.value).Some? ==> d <= PercentageCap(coupon.value).value && (d == share || d == PercentageCap(coupon.value).value))
      && (PercentageCap(coupon.value).None? ==> d == share)
  {
    if Applies(coupon, total) then
      match coupon.value.discountType
      case Percentage =>
        var share := coupon.value.discountValue / 100.0 * total;
        (match PercentageCap(coupon.value)
         case Some(cap) => Min(share, cap)
         case None => share)
      case Flat => Min(coupon.value.discountValue, total)
    else
      0.0
  }

  /** ASCII lower-casing of one character. */
  function LowerChar(c: char): char {
    if 'A' <= c <= 'Z' then (c as int + 32) as char else c
  }

  /** ASCII upper-casing of one character. */
  function UpperChar(c: char): char {
    if 'a' <= c <= 'z' then (c as int - 32) as char else c
  }

  function Lower(s: string): string {
    seq(|s|, i requires 0 <= i < |s| => LowerChar(s[i]))
  }

  function Upper(s: string): string {
    seq(|s|, i requires 0 <= i < |s| => UpperChar(s[i]))
  }

  /** `s.includes(sub)`: `sub` occurs in `s` as a consecutive run. */
  predicate Contains(s: string, sub: string)
    decreases |s|
  {
    |sub| <= |s| && (s[..|sub|] == sub || Contains(s[1..], sub))
  }

  /** The delivery charge for a destination city: 60 inside Dhaka, 120 elsewhere. */
  function DeliveryCharge(city: string): Money {
    if Contains(Lower(city), "dhaka") then 60.0 else 120.0
  }

  /** The line items with their unit prices fixed from the current product records. */
  function RepricedLines(lines: seq<Line>, products: map<Id, Product>): seq<Line>
    requires forall i :: 0 <= i < |lines| ==> lines[i].product in products
  {
    seq(|lines|, i requires 0 <= i < |lines| => lines[i].(unitPrice := UnitPrice(products[lines[i].product])))
  }

  /**
   * Reference definition of what the hook leaves in the order document when it
   * does not fail: unit prices, shop, total, discount, delivery charge and final
   * amount are recomputed; every other field is kept.
   */
  function Repriced(products: map<Id, Product>, coupons: map<Id, Coupon>, o: Order): Order
    requires ShopConsistent(o.lines, products)
  {
    var lines := RepricedLines(o.lines, products);
    var total := LineSum(lines);
    var discount := CouponDiscount(CouponOf(coupons, o.coupon), total);
    var charge := DeliveryCharge(o.shippingAddress.city);
    o.(shop := CommonShop(o.lines, products), lines := lines, totalAmount := total,
       discount := discount, deliveryCharge := charge, finalAmount := total - discount + charge)
  }

  /**
   * The schema bounds Mongoose checks after the hook: a shop is required (so an
   * order without lines is refused), every quantity is at least 1, the required
   * strings (each line's colour, the four parts of the shipping address) are
   * not empty, and the total, the discount and the final amount are not
   * negative.
   */
  predicate SchemaValid(o: Order) {
    && o.shop.Some?
    && (forall i :: 0 <= i < |o.lines| ==> o.lines[i].quantity >= 1 && o.lines[i].color != "")
    && o.shippingAddress.city != "" && o.shippingAddress.zipCode != ""
    && o.shippingAddress.streetOrBuildingName != "" && o.shippingAddress.area != ""
    && o.totalAmount >= 0.0
    && o.discount >= 0.0
    && o.finalAmount >= 0.0
  }

  /** Whether saving the order succeeds against the given products and coupons. */
  predicate Saves(products: map<Id, Product>, coupons: map<Id, Coupon>, o: Order) {
    ShopConsistent(o.lines, products) && SchemaValid(Repriced(products, coupons, o))
  }

  /** A cart whose first `n` lines already break the single-shop rule breaks it as a whole. */
  lemma InconsistentPrefix(lines: seq<Line>, products: map<Id, Product>, n: nat)
    requires n <= |lines|
    requires !ShopConsistent(lines[..n], products)
    ensures !ShopConsistent(lines, products)
  {
    if ShopConsistent(lines, products) {
      assert forall i :: 0 <= i < n ==> lines[..n][i] == lines[i];
      assert false;
    }
  }

  /**
   * The pre-`validate` hook. It walks the line items in order, fails on the
   * first missing product ('Product not found!.') or on the first product from
   * a different shop than the ones before it ('Products must be from the same
   * shop.'), and otherwise returns the order with its amounts derived.
   */
  method PriceOrder(products: map<Id, Product>, coupons: map<Id, Coupon>, o: Order) returns (r: Result<Order, Error>)
    ensures r.Ok? <==> ShopConsistent(o.lines, products)
    ensures r.Err? ==>
      exists n :: 0 <= n < |o.lines|
        && ShopConsistent(o.lines[..n], products)
        && !ShopConsistent(o.lines[..n + 1], products)
        && r.error == (if o.lines[n].product in products then MixedShops else ProductNotFound)
    ensures r.Ok? ==> r.value == Repriced(products, coupons, o)
  {
    var lines := o.lines;
    var totalAmount := 0.0;
    var shopId: Option<Id> := None;
    var i := 0;
    while i < |o.lines|
      invariant 0 <= i <= |o.lines| == |lines|
      invariant ShopConsistent(o.lines[..i], products)
      invariant forall k :: 0 <= k < i ==> lines[k] == o.lines[k].(unitPrice := UnitPrice(products[o.lines[k].product]))
      invariant forall k :: i <= k < |lines| ==> lines[k] == o.lines[k]
      invariant totalAmount == LineSum(lines[..i])
      invariant shopId == if i == 0 then None else Some(products[o.lines[0].product].shop)
    {
      var item := o.lines[i];
      assert o.lines[..i + 1] == o.lines[..i] + [item];
      if item.product !in products {
        assert !ShopConsistent(o.lines[..i + 1], products);
        InconsistentPrefix(o.lines, products, i + 1);
        r := Err(ProductNotFound);
        return;
      }
      var product := products[item.product];
      if shopId.Some? && shopId.value != product.shop {
        assert !ShopConsistent(o.lines[..i + 1], products);
        InconsistentPrefix(o.lines, products, i + 1);
        r := Err(MixedShops);
        return;
      }
      shopId := Some(product.shop);
      var productPrice := UnitPrice(product);
      lines := lines[i := item.(unitPrice := productPrice)];
      assert lines[..i + 1][..i] == lines[..i];
      totalAmount := totalAmount + productPrice * (item.quantity as Money);
      i := i + 1;
    }
    assert o.lines[..i] == o.lines;
    assert lines[..i] == lines;
    assert lines == RepricedLines(o.lines, products);
    var coupon := CouponOf(coupons, o.coupon);
    var finalDiscount := CouponDiscount(coupon, totalAmount);
    var deliveryCharge := DeliveryCharge(o.shippingAddress.city);
    r := Ok(o.(shop := shopId, lines := lines, totalAmount := totalAmount, discount := finalDiscount,
               deliveryCharge := deliveryCharge, finalAmount := totalAmount - finalDiscount + deliveryCharge));
  }

  /**
   * Saving an order document: the hook, then the schema bounds. On success the
   * stored document is `Repriced(products, coupons, o)`.
   */
  method ValidateOrder(products: map<Id, Product>, coupons: map<Id, Coupon>, o: Order) returns (r: Result<Order, Error>)
    ensures r.Ok? <==> Saves(products, coupons, o)
    ensures r.Ok? ==> r.value == Repriced(products, coupons, o)
    ensures r.Err? && ShopConsistent(o.lines, products) ==> r.error == ValidationFailed
    ensures r.Err? ==> r.error == ValidationFailed || r.error == MixedShops || r.error == ProductNotFound
    ensures Catalogued(o.lines, products) && !ShopConsistent(o.lines, products) ==> r == Err(MixedShops)
  {
    r := PriceOrder(products, coupons, o);
    if r.Ok? && !SchemaValid(r.value) {
      r := Err(ValidationFailed);
    }
  }

  /**
   * What a saved order holds, field by field: each line keeps its product,
   * quantity and colour and gets the unit price of its product; the order's
   * shop is the shop of every line; the final amount is the total less the
   * discount plus the delivery charge; no other field of the order changes.
   */
  lemma RepricedMeaning(products: map<Id, Product>, coupons: map<Id, Coupon>, o: Order)
    requires ShopConsistent(o.lines, products)
    ensures var p := Repriced(products, coupons, o);
      && |p.lines| == |o.lines|
      && (forall i :: 0 <= i < |o.lines| ==>
            p.lines[i].unitPrice == UnitPrice(products[o.lines[i].product])
            && p.lines[i].(unitPrice := o.lines[i].unitPrice) == o.lines[i])
      && (forall i :: 0 <= i < |o.lines| ==> p.shop == Some(products[o.lines[i].product].shop))
      && (|o.lines| == 0 <==> p.shop.None?)
      && p.totalAmount == LineSum(p.lines)
      && p.discount == CouponDiscount(CouponOf(coupons, o.coupon), p.totalAmount)
      && p.finalAmount == p.totalAmount - p.discount + p.deliveryCharge
      && (p.deliveryCharge == 60.0 <==> Contains(Lower(o.shippingAddress.city), "dhaka"))
      && (p.deliveryCharge == 60.0 || p.deliveryCharge == 120.0)
      && p.(shop := o.shop, lines := o.lines, totalAmount := o.totalAmount, discount := o.discount,
            deliveryCharge := o.deliveryCharge, finalAmount := o.finalAmount) == o
  {
  }

  /** With no negative price or quantity, the total is not negative. */
  lemma {:induction false} LineSumNonNegative(lines: seq<Line>)
    requires forall i :: 0 <= i < |lines| ==> lines[i].unitPrice >= 0.0 && lines[i].quantity >= 0
    ensures LineSum(lines) >= 0.0
  {
    if |lines| > 0 {
      var last := lines[|lines| - 1];
      LineSumNonNegative(lines[..|lines| - 1]);
      assert last.unitPrice * (last.quantity as Money) >= 0.0;
    }
  }

  /**
   * With no negative price or quantity and no percentage coupon above 100%,
   * the discount never exceeds the total, so the final amount is at least the
   * delivery charge and the schema's `finalAmount >= 0` bound holds.
   */
  lemma FinalAmountCoversDelivery(products: map<Id, Product>, coupons: map<Id, Coupon>, o: Order)
    requires ShopConsistent(o.lines, products)
    requires forall i :: 0 <= i < |o.lines| ==> UnitPrice(products[o.lines[i].product]) >= 0.0 && o.lines[i].quantity >= 0
    requires CouponOf(coupons, o.coupon).Some? && CouponOf(coupons, o.coupon).value.discountType == Percentage ==>
      CouponOf(coupons, o.coupon).value.discountValue <= 100.0
    ensures var p := Repriced(products, coupons, o);
      && 0.0 <= p.totalAmount
      && p.discount <= p.totalAmount
      && p.finalAmount >= p.deliveryCharge >= 60.0
  {
    var p := Repriced(products, coupons, o);
    LineSumNonNegative(p.lines);
    var coupon := CouponOf(coupons, o.coupon);
    if Applies(coupon, p.totalAmount) && coupon.value.discountType == Percentage {
      var rate := coupon.value.discountValue / 100.0;
      assert p.discount == CouponDiscount(coupon, p.totalAmount);
      assert p.discount <= rate * p.totalAmount;
      assert rate <= 1.0;
      assert rate * p.totalAmount <= 1.0 * p.totalAmount;
    }
  }

  /** Lower-casing and upper-casing the city do not change the delivery charge. */
  lemma DeliveryChargeIgnoresCase(city: string)
    ensures DeliveryCharge(Lower(city)) == DeliveryCharge(city)
    ensures DeliveryCharge(Upper(city)) == DeliveryCharge(city)
  {
    assert Lower(Lower(city)) == Lower(city);
    assert Lower(Upper(city)) == Lower(city);
  }

  /** Two units at 500 delivered in Dhaka, without a coupon: 1000 + 60 = 1060. */
  lemma TwoUnitsInDhaka(products: map<Id, Product>, coupons: map<Id, Coupon>, o: Order)
    requires products == map[1 := Product(7, 500.0, None, 10, true)]
    requires o.lines == [Line(1, 2, 0.0, "red")] && o.shippingAddress.city == "Dhaka" && o.coupon == None
    ensures ShopConsistent(o.lines, products)
    ensures var p := Repriced(products, coupons, o);
      p.totalAmount == 1000.0 && p.discount == 0.0 && p.deliveryCharge == 60.0 && p.finalAmount == 1060.0
  {
    var lines := RepricedLines(o.lines, products);
    assert lines == [Line(1, 2, 500.0, "red")];
    assert LineSum(lines) == LineSum([]) + 500.0 * 2.0;
    assert Lower("Dhaka") == "dhaka";
  }

  /** The same cart with a 20% coupon capped at 150: min(200, 150) = 150 off, 1000 - 150 + 60 = 910. */
  lemma TwoUnitsInDhakaWithCoupon(products: map<Id, Product>, coupons: map<Id, Coupon>, o: Order)
    requires products == map[1 := Product(7, 500.0, None, 10, true)]
    requires coupons == map[3 := Coupon("SAVE20", 7, Percentage, 20.0, Some(150.0), 0, 100, 0.0, true)]
    requires o.lines == [Line(1, 2, 0.0, "red")] && o.shippingAddress.city == "Dhaka" && o.coupon == Some(3)
    ensures ShopConsistent(o.lines, products)
    ensures var p := Repriced(products, coupons, o);
      p.totalAmount == 1000.0 && p.discount == 150.0 && p.deliveryCharge == 60.0 && p.finalAmount == 910.0
  {
    var lines := RepricedLines(o.lines, products);
    assert lines == [Line(1, 2, 500.0, "red")];
    assert LineSum(lines) == LineSum([]) + 500.0 * 2.0;
    assert Lower("Dhaka") == "dhaka";
  }

  /** A text in which the first character of `sub` never occurs does not contain `sub`. */
  lemma {:induction false} MissingFirstChar(s: string, sub: string)
    requires |sub| > 0
    requires forall i :: 0 <= i < |s| ==> s[i] != sub[0]
    ensures !Contains(s, sub)
  {
    if |sub| <= |s| {
      assert s[..|sub|][0] == s[0];
      MissingFirstChar(s[1..], sub);
    }
  }

  /** A city that does not mention Dhaka pays the higher rate; one that does pays the lower rate, whatever its case. */
  lemma OutsideDhaka()
    ensures DeliveryCharge("Chattogram") == 120.0
    ensures DeliveryCharge("DHAKA Cantonment") == 60.0
  {
    assert Lower("DHAKA Cantonment")[..5] == "dhaka";
    assert Lower("Chattogram") == "chattogram";
    MissingFirstChar("chattogram", "dhaka");
  }
}
