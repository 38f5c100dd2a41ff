/**
 * The document store the services work on: one collection per entity, each a
 * map from document id to document, and a counter that hands out fresh ids.
 *
 * A service that runs in a transaction mutates these collections step by step
 * and, on any error, puts back the `Tables` it saved when it started
 * (`abortTransaction`), so that a failed operation leaves no trace.
 */
module Database {
  import opened Domain

  /** The whole content of the store at one moment. */
  datatype Tables = Tables(
    products: map<Id, Product>,
    coupons: map<Id, Coupon>,
    orders: map<Id, Order>,
    assignments: map<Id, Assignment>,
    payments: map<Id, Payment>,
    users: map<Id, User>,
    customers: map<Id, CustomerProfile>,
    shops: map<Id, Shop>,
    nextId: Id)

  /** At most one coupon carries a given code (the coupon code is a unique key). */
  ghost predicate CodesUnique(coupons: map<Id, Coupon>) {
    forall a, b :: a in coupons && b in coupons && coupons[a].code == coupons[b].code ==> a == b
  }

  /** At most one assignment refers to a given order (`AgentOrder.orderId` is a unique key). */
  ghost predicate OneAssignmentPerOrder(assignments: map<Id, Assignment>) {
    forall a, b :: a in assignments && b in assignments && assignments[a].order == assignments[b].order ==> a == b
  }

  /**
   * The invariant of the store's content: ids handed out so far are below
   * `nextId`, and the unique keys of the coupon and assignment collections hold.
   */
  ghost predicate Consistent(t: Tables) {
    && (forall id :: id in t.orders ==> id < t.nextId)
    && (forall id :: id in t.assignments ==> id < t.nextId)
    && (forall id :: id in t.payments ==> id < t.nextId)
    && (forall id :: id in t.users ==> id < t.nextId)
    && (forall id :: id in t.customers ==> id < t.nextId)
    && (forall id :: id in t.shops ==> id < t.nextId)
    && CodesUnique(t.coupons)
    && OneAssignmentPerOrder(t.assignments)
  }

  class Store {
    var products: map<Id, Product>
    var coupons: map<Id, Coupon>
    var orders: map<Id, Order>
    var assignments: map<Id, Assignment>
    var payments: map<Id, Payment>
    var users: map<Id, User>
    var customers: map<Id, CustomerProfile>
    var shops: map<Id, Shop>
    var nextId: Id

    /** The store's invariant is that of its content. */
    ghost predicate Valid()
      reads this
    {
      Consistent(Snapshot())
    }

    function Snapshot(): Tables
      reads this
    {
      Tables(products, coupons, orders, assignments, payments, users, customers, shops, nextId)
    }

    constructor ()
      ensures Valid()
      ensures Snapshot() == Tables(map[], map[], map[], map[], map[], map[], map[], map[], 0)
    {
      products, coupons, orders, assignments := map[], map[], map[], map[];
      payments, users, customers, shops := map[], map[], map[], map[];
      nextId := 0;
    }

    /** A fresh document id. */
    method NewId() returns (id: Id)
      modifies this`nextId
      ensures id == old(nextId) && nextId == id + 1
    {
      id := nextId;
      nextId := nextId + 1;
    }

    /** Abort a transaction: every collection goes back to the saved content. */
    method Restore(saved: Tables)
      modifies this
      ensures Snapshot() == saved
    {
      products, coupons, orders, assignments := saved.products, saved.coupons, saved.orders, saved.assignments;
      payments, users, customers, shops := saved.payments, saved.users, saved.customers, saved.shops;
      nextId := saved.nextId;
    }
  }
}
