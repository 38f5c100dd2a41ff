/**
 * The records of the e-commerce back end, as they are stored in its document
 * collections: products, coupons, orders and their line items, delivery
 * assignments, payments, users, customer profiles and shops.
 *
 * Every document is identified by an `Id`; a collection is a `map<Id, _>`
 * (see module Database). Money is an exact `real`; stock and quantities are
 * integers.
 */
module Domain {
  import opened Wrappers

  type Id = nat
  type Money = real
  /** A point in time (milliseconds since the epoch), as `new Date()` yields it. */
  type Time = int

  /** Account roles: 'admin', 'user' and 'agent'. */
  datatype Role = Admin | Customer | Agent

  /** `Order.status`. */
  datatype OrderStatus = Pending | Processing | Completed | Cancelled | Picked

  /** `Order.paymentStatus`. */
  datatype PaymentStatus = Pending | Paid | Failed

  /** `Order.paymentMethod`, as the order schema enumerates it. */
  datatype PaymentMethod = COD | Online

  /** `AgentOrder.status`: the progress of one delivery assignment. */
  datatype AssignmentStatus = Assigned | Picked | Delivered

  datatype DiscountType = Flat | Percentage

  datatype Address = Address(city: string, zipCode: string, streetOrBuildingName: string, area: string)

  /**
   * A product. `offerPrice` is what `calculateOfferPrice()` yields for it
   * (`None` for `null`); how that is computed is not part of this model.
   */
  datatype Product = Product(
    shop: Id,
    price: Money,
    offerPrice: Option<Money>,
    stock: int,
    isActive: bool)

  datatype Coupon = Coupon(
    code: string,
    shop: Id,
    discountType: DiscountType,
    discountValue: Money,
    maxDiscountAmount: Option<Money>,
    startDate: Time,
    endDate: Time,
    minOrderAmount: Money,
    isActive: bool)

  /** One line item of an order; `unitPrice` is overwritten when the order is validated. */
  datatype Line = Line(product: Id, quantity: int, unitPrice: Money, color: string)

  datatype Order = Order(
    user: Id,
    shop: Option<Id>,
    lines: seq<Line>,
    coupon: Option<Id>,
    totalAmount: Money,
    discount: Money,
    deliveryCharge: Money,
    finalAmount: Money,
    status: OrderStatus,
    shippingAddress: Address,
    assignment: Option<Id>,
    paymentMethod: PaymentMethod,
    paymentStatus: PaymentStatus)

  /** An `AgentOrder` document: the binding of one order to one delivery agent. */
  datatype Assignment = Assignment(order: Id, agent: Id, destination: Address, status: AssignmentStatus)

  /** `paymentMethod` is the payment method exactly as the request supplied it (possibly absent). */
  datatype Payment = Payment(
    user: Id,
    shop: Option<Id>,
    order: Id,
    paymentMethod: Option<PaymentMethod>,
    transactionId: string,
    amount: Money,
    status: PaymentStatus)

  datatype User = User(email: string, role: Role, isActive: bool, hasShop: bool, picked: bool)

  /** The customer profile created beside every registered user. */
  datatype CustomerProfile = CustomerProfile(user: Id)

  /** A shop. The shop schema is not part of this model: optional fields are stored as supplied. */
  datatype Shop = Shop(owner: Id, name: Option<string>, logo: Option<string>, isActive: Option<bool>)

  /** A partial shop document, as a request body supplies it (`Partial<IShop>`). */
  datatype ShopData = ShopData(owner: Option<Id>, name: Option<string>, logo: Option<string>, isActive: Option<bool>)

  /** Every way an operation of the core can fail. */
  datatype Error =
    | ProductNotFound
    | ProductInactive
    | InsufficientStock
    | MixedShops
    | InvalidCoupon
    | CouponNotStarted
    | CouponExpired
    | ValidationFailed
    | PaymentGatewayFailed
    | DuplicateAssignment
    | AssignmentNotFound
    | OrderNotFound
    | UserNotFound
    | UserInactive
    | NoShop
    | ShopInactive
    | ShopNotFound
    | Forbidden
    | InvalidRole
    | EmailTaken
    | LoginFailed
}
