# Orders, fulfilment, accounts and menus of an e-commerce back end, in Dafny

This project models the core of an e-commerce server. The server stores its records in MongoDB through Mongoose. The model covers five parts of it:

- **Order pricing.** The order schema's pre-`validate` hook runs every time an order document is saved. It fixes each line's unit price (the offer price when non-zero, else the list price) and sums the total. It requires all products to come from one shop, applies the order's coupon (flat, or a percentage with an optional cap), adds a delivery charge of 60 inside Dhaka and 120 elsewhere, and derives the final amount. The schema bounds are checked after it.
- **Order creation.** `createOrder` runs in one transaction. It takes stock line by line, resolves a coupon code within its date window, saves the order (running the hook) and records a pending payment for the final amount. It returns the payment page address for online payments. Any error aborts the whole transaction.
- **Fulfilment.** An admin assigns an order to a delivery agent. The agent picks it up: the agent's `picked` flag is set and the assignment and order move to 'Picked'. The agent then delivers it: the assignment becomes 'Delivered', the order 'Completed' and 'Paid', and the flag is cleared. The flag decides which assignments the agent's listing shows. A shop owner can also change an order's status directly.
- **Accounts and shops.** Registration refuses admins and taken emails and creates a user plus a customer profile. An admin toggles a user's active flag. An active user can open a shop, and only its owner can update it.
- **Navigation menus.** A request to create a menu is validated by a recursive schema. Items hold titles, categories, a type and child items, and missing fields get defaults.

The modules follow the source files:
- `OrderModel` is the hook and schema of `order.model.ts`.
- `StockLedger` is the reference definition of `createOrder`'s stock loop.
- `Database` is the store the services mutate.
- `OrderService`, `UserService` and `ShopService` follow the three service files.
- `NavigationValidation` follows the menu schema.
- `Domain` holds the records and `Wrappers` the `Option` and `Result` types.

The store is a class `Database.Store` with one map per collection and a counter for fresh ids. Its invariant `Valid` is the predicate `Database.Consistent` on its `Tables` content. It says that ids are below the counter, coupon codes are unique, and there is at most one assignment per order. Each service that the source runs in a transaction changes the store field by field. On error it restores the `Tables` snapshot it took at the start. Its contract states the whole new state in terms of the old one and says that a failure leaves the store unchanged.

Saving an order document re-runs the pricing hook. So every service that saves an existing order re-prices it from the current products and coupons, and fails with the whole transaction if the saved order no longer validates. This covers assigning, picking up and delivering. A status change through a query update runs no hook and does not re-price.

`createOrder` copies the request body into the order, so a `status` or `paymentStatus` sent by the client is stored as sent. The model keeps this: `OrderService.OrderDraft` carries both fields, and `OrderService.PlacedOrderRecords` states what the stored order holds.

## Model

| member | source | states |
|---|---|---|
| OrderModel.CouponDiscount | src/app/modules/order/order.model.ts:133-150 | The discount is 0 unless the coupon exists, is active and the total reaches its minimum. A flat discount is the smaller of its value and the total. A percentage discount is the smaller of value/100 × total and the cap, and it is uncapped when the cap is absent or 0. |
| OrderModel.PriceOrder | src/app/modules/order/order.model.ts:100-163 | The hook's loop. It succeeds exactly when every line's product exists and all share one shop. On failure, it stops at the first line that breaks this: 'Product not found' if the product is missing, 'Products must be from the same shop' otherwise. On success the order equals the reference `Repriced`. |
| OrderModel.ValidateOrder | src/app/modules/order/order.model.ts:14-78 | Saving an order is the hook followed by the schema bounds. It succeeds exactly when the cart is single-shop and the priced order has a shop, quantities of at least 1, non-empty required strings and non-negative amounts. On success the stored order is `Repriced`. When every product exists but the shops differ, the error is 'Products must be from the same shop'. |
| OrderModel.RepricedMeaning | src/app/modules/order/order.model.ts:109-160 | The stored order field by field. Each line keeps its product, quantity and colour and gets its product's unit price. The shop is every line's shop, and there is none for an empty cart. The total is the line sum, the final amount is total − discount + charge, and the charge is 60 exactly when the lower-cased city contains 'dhaka', else 120. No other field changes. |
| OrderModel.InconsistentPrefix | src/app/modules/order/order.model.ts:115-117 | A cart whose first lines already mix shops or miss a product is refused as a whole. |
| OrderModel.LineSumNonNegative | src/app/modules/order/order.model.ts:128-131 | With non-negative prices and quantities the accumulated total is non-negative. |
| OrderModel.FinalAmountCoversDelivery | src/app/modules/order/order.model.ts:138-158 | With non-negative prices and no percentage above 100, the discount never exceeds the total. The final amount is then at least the delivery charge, and that charge is at least 60. |
| OrderModel.DeliveryChargeIgnoresCase | src/app/modules/order/order.model.ts:152-153 | The charge depends on the city only up to letter case. |
| OrderModel.OutsideDhaka | src/app/modules/order/order.model.ts:152-153 | 'Chattogram' pays 120 and 'DHAKA Cantonment' pays 60. |
| OrderModel.TwoUnitsInDhaka | src/app/modules/order/order.model.ts:100-163 | Two units at 500 delivered in Dhaka without a coupon cost 1000 + 60 = 1060. |
| OrderModel.TwoUnitsInDhakaWithCoupon | src/app/modules/order/order.model.ts:138-158 | The same cart with a 20% coupon capped at 150 gets 150 off and costs 910. |
| StockLedger.ReserveKeepsCatalogue | src/app/modules/order/order.service.ts:21-38 | Taking stock adds or removes no product and changes nothing but stock. |
| StockLedger.ReserveTakesDemand | src/app/modules/order/order.service.ts:21-38 | Each product's stock drops by exactly the total quantity the cart requests of it. |
| StockLedger.ReserveKeepsStockNonNegative | src/app/modules/order/order.service.ts:29-33 | Stock never goes negative, because every decrement is checked against the stock it comes from. |
| StockLedger.ReserveNeedsProducts | src/app/modules/order/order.service.ts:24-37 | A cart whose stock was taken names only existing products. |
| StockLedger.ReserveSucceedsIff | src/app/modules/order/order.service.ts:21-38 | With quantities of at least 1, checking line by line succeeds exactly when every product exists and is active and no product's total demand exceeds its stock. |
| Database.Store.Restore | src/app/modules/order/order.service.ts:122-127 | Aborting a transaction puts back every collection as it was saved. |
| OrderService.CouponNamed | src/app/modules/order/order.service.ts:43 | The coupon found by code carries that code; none is found only when no coupon carries it. |
| OrderService.CouponCheck | src/app/modules/order/order.service.ts:42-59 | Without a code there is no coupon. 'Invalid coupon code.' is given exactly when no coupon carries the code. For the coupon that carries it (codes are unique): a start date after now gives 'not started'; an end date before now, once started, gives 'expired'; a window containing now, both ends included, gives that coupon. |
| OrderService.ResolveCoupon | src/app/modules/order/order.service.ts:42-59 | The coupon step, as the service runs it, gives exactly `CouponCheck`'s answer; the `findOne` choice is the only one under unique codes. |
| OrderService.PricingIgnoresStock | src/app/modules/order/order.model.ts:110-127 | Catalogues that differ only in stock accept and price every order alike. So the hook reading stock before or after the decrements makes no difference. |
| OrderService.TakeStock | src/app/modules/order/order.service.ts:20-39 | The stock loop: it fails with the first failing line's error and puts the stock back; otherwise it leaves exactly `Reserve`'s stock. |
| OrderService.CreateOrder | src/app/modules/order/order.service.ts:16-129 | Errors come in the source's order: stock, then coupon, then the order's save ('Products must be from the same shop', else a failed schema bound), then the payment gateway. It succeeds exactly when the stock suffices, the coupon is accepted, the order saves and, for an online payment, the gateway answers. On success: stock taken, the priced order and a pending payment stored, and nothing else changed. The gateway address is returned only for 'Online'. Any error leaves the store unchanged. |
| OrderService.SaveDecidesPlacement | src/app/modules/order/order.service.ts:62-69 | Once stock is taken and the coupon accepted, the order's save against the reduced catalogue succeeds exactly when the request is placeable, treats the cart as single-shop exactly when the original catalogue does, and prices it the same. |
| OrderService.SaveOrder | src/app/modules/order/order.service.ts:62-127 | After the stock and coupon steps: a mixed-shop cart fails with 'Products must be from the same shop', any other failed save with the schema's error, and a placeable online order whose gateway fails with the gateway error. It succeeds exactly when the request is placeable and, if online, the gateway answers; then the store holds the placement. On error the store is as before the stock step. |
| OrderService.RecordAndCharge | src/app/modules/order/order.service.ts:72-98 | The order and its payment are recorded. It fails exactly when the order is online and the gateway gives no page, and then the store is put back. Otherwise it returns the page for 'Online' and nothing for cash on delivery. |
| OrderService.RecordingPlaces | src/app/modules/order/order.service.ts:63-83 | Storing the priced order and its payment under the next two ids is the placement a successful `createOrder` promises. |
| OrderService.RecordOrder | src/app/modules/order/order.service.ts:62-83 | The order is stored under a fresh id, and its payment, for the final amount and to the order's shop, under the next id. |
| OrderService.PlacedOrderRecords | src/app/modules/order/order.service.ts:63-81 | A placed order belongs to the requester and has no agent. It keeps the request's address, method and statuses, with the schema defaults when absent, and has a shop and a non-negative final amount. Its payment is pending, for exactly that final amount, and goes to that shop. |
| OrderService.ChangeOrderStatus | src/app/modules/order/order.service.ts:207-227 | Missing user, inactive user, no `hasShop` and no active shop fail in that order, with no change. Once these guards pass it always succeeds. Only the status of an order of the user's active shop changes, without re-pricing, and any other order gives no result and no change. When the order's shop is the user's only active shop, its status is changed. |
| OrderService.AssignOrderToAgent | src/app/modules/order/order.service.ts:229-254 | A second assignment for an order is refused. Otherwise one assignment is created under a fresh id and recorded on its order, which is re-priced. A missing order is not an error: the assignment is created and no order changes. It fails, with no change, exactly on a duplicate or when the order no longer saves. |
| OrderService.AddAssignment | src/app/modules/order/order.service.ts:237-241 | For an order with no assignment yet, the assignment is stored under a fresh id and nothing else changes; the unique key and the id bound still hold. |
| OrderService.AgentOrders | src/app/modules/order/order.service.ts:256-271 | A missing agent is an error. Otherwise the listing is exactly the agent's assignments in stage 'Picked' when `picked` is set, and in stage 'Assigned' when it is not. |
| OrderService.AgentListingsPartition | src/app/modules/order/order.service.ts:261-265 | The two listings never share an assignment, and together they are exactly the agent's undelivered assignments. |
| OrderService.DeliveryAddress | src/app/modules/order/order.service.ts:272-280 | Returns one of the agent's 'Picked' assignments, or nothing exactly when the agent has none. |
| OrderService.DeliverAssignment | src/app/modules/order/order.service.ts:288-293 | The order's 'Picked' assignment, if any, becomes 'Delivered'; no other assignment changes. |
| OrderService.UpdateDeliveryStatus | src/app/modules/order/order.service.ts:282-320 | The order's 'Picked' assignment becomes 'Delivered' and the order 'Completed' and 'Paid' (re-priced), and the agent's `picked` is cleared. Each of the three is skipped when missing, and nothing else changes. It fails, changing nothing, exactly when the completed order does not save. |
| UserService.RegisterUser | src/app/modules/user/user.service.ts:16-57 | An admin role is refused, and so is a registered email, with no change. Otherwise exactly one user and one customer profile pointing at it are added. Login comes after the commit, so a failed login still leaves them. |
| UserService.RegisteredEmailIsTaken | src/app/modules/user/user.service.ts:27-30 | Once a user is stored, their email counts as registered. |
| UserService.ToggledActive | src/app/modules/user/user.service.ts:120 | Only that user's `isActive` flips; no user is added or removed. |
| UserService.ToggleTwiceRestores | src/app/modules/user/user.service.ts:120 | Toggling the same user twice restores the collection. |
| UserService.UpdateUserStatus | src/app/modules/user/user.service.ts:113-123 | A missing user is 'not found', with no change. Otherwise the user's active flag flips and the updated user is returned. |
| UserService.PickUpThrough | src/app/modules/user/user.service.ts:133-151 | Through a chosen assignment, the agent's `picked` is set and the assignment and its order become 'Picked', the order re-priced. A missing order or a failed save aborts it all. |
| UserService.UpdateAgentStatus | src/app/modules/user/user.service.ts:125-153 | Missing agent and agent without assignments fail with no change. It succeeds when every assignment the agent has can be picked up. On success some assignment of the agent was picked up as `PickedUp` describes. |
| UserService.PickupReopensDelivery | src/app/modules/user/user.service.ts:136-143 | On a store whose agent holds only a delivered assignment of a completed, paid order, any successful pickup as written went through that assignment. It moved the assignment back to 'Picked' and the order with it. |
| UserService.DeliveredPickupSucceeds | src/app/modules/user/user.service.ts:136-143 | That store is consistent, and the pickup can go through its delivered assignment: the completed order, set back to 'Picked', still saves. |
| UserService.PickupOnDeliveredStore | src/app/modules/user/user.service.ts:125-153 | Run on that store, the pickup as written succeeds, and leaves the delivered assignment and the completed order both at 'Picked'. |
| UserService.PickupAssigned | src/app/modules/user/user.service.ts:136-143 | The corrected pickup only takes an assignment still in stage 'Assigned', and no delivered assignment changes. It succeeds whenever the agent exists, has an 'Assigned' assignment and every such assignment can be picked up. It returns the agent with `picked` set, as stored. |
| UserService.PickupAssignedKeepsDeliveredOrders | src/app/modules/user/user.service.ts:141-143 | Under the corrected pickup, an order whose assignment is delivered keeps its status. |
| UserService.PickupShowsInListing | src/app/modules/user/user.service.ts:133-139 | After a pickup the agent's listing shows the picked assignment. |
| ShopService.WithLogo | src/app/modules/shop/shop.service.ts:27-29 | An uploaded logo replaces the requested one; without an upload the request is unchanged. |
| ShopService.Opened | src/app/modules/shop/shop.service.ts:31-34 | A new shop is owned by the requester, whatever owner the request names. |
| ShopService.OpenedTakesUpload | src/app/modules/shop/shop.service.ts:27-34 | The stored shop belongs to the requester, and its logo is the uploaded file's path whenever a file is sent, else the requested logo. |
| ShopService.PatchSetsOnlySupplied | src/app/modules/shop/shop.service.ts:88-92 | An update sets every supplied field and keeps every other one. |
| ShopService.PatchIdempotent | src/app/modules/shop/shop.service.ts:88-92 | An empty update changes nothing, and repeating an update changes nothing more. |
| ShopService.CreateShop | src/app/modules/shop/shop.service.ts:10-54 | A missing or inactive user is refused with no change. Otherwise one shop owned by the user is added and the user's `hasShop` is set, and nothing else changes. |
| ShopService.UpdateShop | src/app/modules/shop/shop.service.ts:57-108 | A missing shop is 'not found' and a non-owner is 'forbidden', both with no change. Otherwise the supplied fields are set and only that shop changes. |
| ShopService.MyShop | src/app/modules/shop/shop.service.ts:110-118 | A missing user is 'not found' and a user without `hasShop` has 'no shop'. Otherwise it returns a shop the user owns, or nothing exactly when the user owns none. |
| NavigationValidation.ParseType | src/app/modules/navigationItems/navigation.validation.ts:16 | Exactly 'link', 'category' and 'mega-menu' are accepted, each as its own type. |
| NavigationValidation.ParseData | src/app/modules/navigationItems/navigation.validation.ts:9-17 | Accepted exactly when the title has 1 to 50 characters and the type is valid. The categories default to none. |
| NavigationValidation.ParseItem | src/app/modules/navigationItems/navigation.validation.ts:6-22 | Accepted exactly when its `data` parses and every given child is accepted. An accepted item is well formed at every depth. `id` and `url` are kept, `isOpenNewTab` defaults to false and missing children to none, and each given child becomes, in place, that child's parse. |
| NavigationValidation.ParseItems | src/app/modules/navigationItems/navigation.validation.ts:20 | A list is accepted exactly when each item is, and parses item by item. |
| NavigationValidation.ParseMenu | src/app/modules/navigationItems/navigation.validation.ts:29-38 | Accepted exactly when the name has 1 to 100 characters, there is at least one item and every item is accepted. The result is well formed, each item is, in place, that item's parse, and `isActive` defaults to true. |
| NavigationValidation.MinimalItemGetsDefaults | src/app/modules/navigationItems/navigation.validation.ts:15-20 | An item sent with only a title and a type is accepted, with no categories, `isOpenNewTab` false and no children. |
| NavigationValidation.EmbedItemRoundTrip | src/app/modules/navigationItems/navigation.validation.ts:6-22 | Every well-formed item, written out in full, is accepted and parses back to itself. |
| NavigationValidation.EmbedMenuRoundTrip | src/app/modules/navigationItems/navigation.validation.ts:29-38 | Every well-formed menu, written out in full, is accepted and parses back to itself. |
| NavigationValidation.ParseMenuNormalizes | src/app/modules/navigationItems/navigation.validation.ts:29-38 | Parsing is a normal form: the parsed menu, written out, parses to itself. |
| NavigationValidation.TypeNameParses | src/app/modules/navigationItems/navigation.validation.ts:16 | Each type's spelling parses to that type. |
| NavigationValidation.RejectedChildRejectsParent | src/app/modules/navigationItems/navigation.validation.ts:20 | An item with a rejected child is rejected. |

## Left out

- Mongoose sessions, queries, `populate` and the driver are not modelled. A transaction is all-or-nothing on the in-memory store: the snapshot taken at its start is restored on error.
- Errors are an enumeration; messages and HTTP status codes are not modelled. The source sometimes fails through a `TypeError` rather than a named error, and the model gives those cases a named error:
  - the non-null assertions on a missing assignment or order in the pickup;
  - `user!.picked` on a missing agent in the listing;
  - `throw new err()` in the catch blocks.
- `calculateOfferPrice` is not shown; its result is the product's `offerPrice` input.
- The clock, `generateTransactionId`, `sslService.initPayment` and `AuthService.loginUser` are parameters:
  - `now` is the clock;
  - `transactionId` is the generated id;
  - `gatewayUrl` is the gateway's answer, with `None` for a gateway that throws;
  - `loginSucceeds` is the login outcome, and the returned user id stands for its tokens.
- `User.checkUserExist` is not part of this model; `MyShop` takes it to fail exactly for an unknown user.
- Money is exact `real` arithmetic. Floating point and `Infinity` are not modelled; an absent cap is `None`.
- `toLowerCase` is modelled on ASCII letters only.
- String lengths are counted in characters, not UTF-16 code units.
- Request values of the wrong JSON type are not represented: a number for a title, or a string outside an enum for `type`, `status` or `paymentMethod`. Fields are typed, and Zod's list of issues is collapsed to a rejection.
- `ChangeOrderStatus` takes only the schema's statuses. The source's query update does not run validators, so it would store any string.
- OrderModel.PriceOrder: the hook reads `product.shop._id` after populating the shop (src/app/modules/order/order.model.ts:115 and 120). When a product's shop document is missing, that read throws and the save fails. The model does not consult the shops collection: it prices such a cart with the product's dangling shop id, so it accepts carts the source rejects.
- Line quantities and product stock are integers here. The order schema asks only for a quantity of at least 1 (src/app/modules/order/order.model.ts:26-30), not a whole number, so the program also accepts fractional quantities. The line sums and stock decrements that follow from them are not modelled.
- The hook reads products and coupons outside the transaction. The model reads the store's own collections; `PricingIgnoresStock` shows that the only difference, the stock, does not affect pricing.
- The product, user, customer, shop and payment schemas are not part of this model, so saving those records always succeeds. This matters for the product's stock bound and the shop's required fields, among others.
- The unique index on user email is not part of this model; email uniqueness rests on the registration check alone.
- An empty coupon code is taken as no coupon. Mongoose's casting of an empty string to an ObjectId is not modelled.
- Operations are modelled one at a time. Concurrent transactions are not represented, for example two orders racing for the last unit of stock.
- Ids are naturals from a counter. The source's `toString` comparisons of ObjectIds are equality.
- The `createdAt` and `updatedAt` timestamps are not modelled.
- The `type` field of an order line in the interface is not modelled, since it is not in the schema.
- The coupon's `shop` is carried in the record, but no rule uses it: the check that would is commented out.
- The query-builder listings (`getMyShopOrders`, `getMyOrders`, `getAllUser`, `getOrderDetails`), `myProfile`, `updateProfile` and the invoice code are not modelled. Neither are the dashboard aggregations, the socket tracker, routes and controllers.
- UserService.UpdateAgentStatus: success is promised only when every assignment of the agent can be picked up. The lookup may return any of them, and only the chosen one decides the outcome.
- OrderService.ChangeOrderStatus: when the user runs several active shops, the order is updated only if it belongs to the one the lookup returns. So a change is promised only when the order's shop is the user's single active shop.

## Findings

| source | as written | input that shows it | evidently intended | confidence | as-written member | corrected member |
|---|---|---|---|---|---|---|
| src/app/modules/user/user.service.ts:136-143 | The pickup looks up the agent's assignment by agent alone and sets it and its order to 'Picked'. | An agent whose only assignment is already 'Delivered', on an order that is 'Completed' and 'Paid': the pickup succeeds and moves both back to 'Picked'. | Pick up only an assignment still in stage 'Assigned', so delivered assignments and completed orders stay as they are. | medium, not executed | UserService.UpdateAgentStatus, UserService.PickupReopensDelivery, UserService.PickupOnDeliveredStore | UserService.PickupAssigned, UserService.PickupAssignedKeepsDeliveredOrders |
