/**
 * The user services of src/app/modules/user/user.service.ts: registration
 * (user and customer profile in one transaction, then login), the admin's
 * active/inactive toggle, and an agent's pickup of an assigned order.
 */
module UserService {
  import opened Wrappers
  import opened Domain
  import opened Database
  import opened OrderModel
  import OrderService

  /** Whether some registered user already has the email. */
  predicate EmailRegistered(users: map<Id, User>, email: string) {
    exists id :: id in users && users[id].email == email
  }

  /**
   * `registerUser`. An admin cannot register and an email can be registered
   * once; both refusals change nothing. Otherwise the user and a customer
   * profile pointing at it are created and committed, and then the user is
   * logged in: `loginSucceeds` is the outcome of that login, whose tokens
   * stand for the returned id. A failed login comes after the commit, so the
   * user stays registered.
   */
  method RegisterUser(db: Store, data: User, loginSucceeds: bool) returns (r: Result<Id, Error>)
    requires db.Valid()
    modifies db
    ensures db.Valid()
    ensures data.role == Admin ==> r == Err(InvalidRole)
    ensures data.role != Admin && EmailRegistered(old(db.users), data.email) ==> r == Err(Error.EmailTaken)
    ensures data.role == Admin || EmailRegistered(old(db.users), data.email) ==> db.Snapshot() == old(db.Snapshot())
    ensures data.role != Admin && !EmailRegistered(old(db.users), data.email) ==>
      && r == (if loginSucceeds then Ok(old(db.nextId)) else Err(LoginFailed))
      && db.Snapshot() == old(db.Snapshot()).(
           users := old(db.users)[old(db.nextId) := data],
           customers := old(db.customers)[old(db.nextId) + 1 := CustomerProfile(old(db.nextId))],
           nextId := old(db.nextId) + 2)
  {
    if data.role == Admin {
      return Err(InvalidRole);
    }
    if exists id :: id in db.users && db.users[id].email == data.email {
      return Err(Error.EmailTaken);
    }
    var userId := db.NewId();
    db.users := db.users[userId := data];
    var profileId := db.NewId();
    db.customers := db.customers[profileId := CustomerProfile(userId)];
    if !loginSucceeds {
      return Err(LoginFailed);
    }
    r := Ok(userId);
  }

  /** A registered email stays taken: registering again with it is refused. */
  lemma RegisteredEmailIsTaken(users: map<Id, User>, id: Id, data: User)
    ensures EmailRegistered(users[id := data], data.email)
  {
    assert id in users[id := data];
  }

  /** The user collection after the admin's toggle: one user's `isActive` flips. */
  function ToggledActive(users: map<Id, User>, id: Id): (r: map<Id, User>)
    requires id in users
    ensures r.Keys == users.Keys
    ensures r[id].isActive != users[id].isActive
    ensures r[id] == users[id].(isActive := r[id].isActive)
    ensures forall other :: other in users && other != id ==> r[other] == users[other]
  {
    users[id := users[id].(isActive := !users[id].isActive)]
  }

  /** Toggling the same user twice gives back the collection. */
  lemma ToggleTwiceRestores(users: map<Id, User>, id: Id)
    requires id in users
    ensures ToggledActive(ToggledActive(users, id), id) == users
  {
    assert users[id].(isActive := !!users[id].isActive) == users[id];
  }

  /** `updateUserStatus`: flips the user's `isActive` and returns the updated user. */
  method UpdateUserStatus(db: Store, userId: Id) returns (r: Result<User, Error>)
    requires db.Valid()
    modifies db
    ensures db.Valid()
    ensures r.Err? <==> userId !in old(db.users)
    ensures r.Err? ==> r.error == UserNotFound && db.Snapshot() == old(db.Snapshot())
    ensures r.Ok? ==> db.Snapshot() == old(db.Snapshot()).(users := ToggledActive(old(db.users), userId))
    ensures r.Ok? ==> r.value == db.users[userId]
  {
    if userId !in db.users {
      return Err(UserNotFound);
    }
    db.users := ToggledActive(db.users, userId);
    r := Ok(db.users[userId]);
  }

  /**
   * The store after agent `agent` picks up through assignment `aid`: the agent
   * is marked as carrying, the assignment and its order move to 'Picked', and
   * the order is re-priced on save.
   */
  ghost predicate PickedUp(before: Tables, after: Tables, agent: Id, aid: Id) {
    && agent in before.users
    && aid in before.assignments
    && var a := before.assignments[aid];
    && a.agent == agent
    && a.order in before.orders
    && var order := before.orders[a.order].(status := OrderStatus.Picked);
    && Saves(before.products, before.coupons, order)
    && after == before.(
         users := before.users[agent := before.users[agent].(picked := true)],
         assignments := before.assignments[aid := a.(status := AssignmentStatus.Picked)],
         orders := before.orders[a.order := Repriced(before.products, before.coupons, order)])
  }

  /**
   * The writes of a pickup through a chosen assignment, in one transaction:
   * the agent's `picked` flag is set, the assignment and then its order move to
   * 'Picked', and the order is saved (re-priced). A missing order or a failed
   * save aborts it all.
   */
  method PickUpThrough(db: Store, agent: Id, aid: Id) returns (r: Result<User, Error>)
    requires db.Valid()
    requires agent in db.users && aid in db.assignments && db.assignments[aid].agent == agent
    modifies db
    ensures db.Valid()
    ensures r.Err? ==> db.Snapshot() == old(db.Snapshot())
    ensures r.Ok? <==>
      var order := old(db.assignments)[aid].order;
      order in old(db.orders) && Saves(old(db.products), old(db.coupons), old(db.orders)[order].(status := OrderStatus.Picked))
    ensures r.Ok? ==> PickedUp(old(db.Snapshot()), db.Snapshot(), agent, aid)
    ensures r.Ok? ==> r.value == db.users[agent] && r.value == old(db.users)[agent].(picked := true)
  {
    var before := db.Snapshot();
    db.users := db.users[agent := db.users[agent].(picked := true)];
    var a := db.assignments[aid];
    db.assignments := db.assignments[aid := a.(status := AssignmentStatus.Picked)];
    if a.order !in db.orders {
      db.Restore(before);
      return Err(OrderNotFound);
    }
    var saved := ValidateOrder(db.products, db.coupons, db.orders[a.order].(status := OrderStatus.Picked));
    if saved.Err? {
      db.Restore(before);
      return Err(saved.error);
    }
    db.orders := db.orders[a.order := saved.value];
    assert PickedUp(before, db.Snapshot(), agent, aid);
    r := Ok(db.users[agent]);
  }

  /** Whether the pickup can go through an assignment: it can when all its writes succeed. */
  ghost predicate PickupSucceedsThrough(before: Tables, aid: Id) {
    && aid in before.assignments
    && var order := before.assignments[aid].order;
    && order in before.orders
    && Saves(before.products, before.coupons, before.orders[order].(status := OrderStatus.Picked))
  }

  /**
   * `updateAgentStatusIntoDB`, an agent's pickup, as written: the assignment
   * is looked up by agent alone, so it is any one of the agent's assignments,
   * whatever its stage. A missing agent or an agent without assignments aborts.
   */
  method UpdateAgentStatus(db: Store, agent: Id) returns (r: Result<User, Error>)
    requires db.Valid()
    modifies db
    ensures db.Valid()
    ensures r.Err? ==> db.Snapshot() == old(db.Snapshot())
    ensures agent !in old(db.users) ==> r == Err(UserNotFound)
    ensures agent in old(db.users) && (forall aid :: aid in old(db.assignments) ==> old(db.assignments)[aid].agent != agent) ==>
      r == Err(AssignmentNotFound)
    ensures (&& agent in old(db.users)
             && (exists aid :: aid in old(db.assignments) && old(db.assignments)[aid].agent == agent)
             && forall aid :: aid in old(db.assignments) && old(db.assignments)[aid].agent == agent ==>
                  PickupSucceedsThrough(old(db.Snapshot()), aid)) ==> r.Ok?
    ensures r.Ok? ==> exists aid :: PickedUp(old(db.Snapshot()), db.Snapshot(), agent, aid)
    ensures r.Ok? ==> r.value == db.users[agent] && r.value == old(db.users)[agent].(picked := true)
  {
    if agent !in db.users {
      return Err(UserNotFound);
    }
    if !exists aid :: aid in db.assignments && db.assignments[aid].agent == agent {
      return Err(AssignmentNotFound);
    }
    var aid :| aid in db.assignments && db.assignments[aid].agent == agent;
    r := PickUpThrough(db, agent, aid);
  }

  /**
   * An agent whose only assignment is already delivered, on an order that is
   * completed and paid.
   */
  function DeliveredStore(): Tables {
    var address := Address("Dhaka", "1207", "Road 2", "Gulshan");
    var order := Order(1, Some(7), [Line(5, 1, 500.0, "red")], None, 500.0, 0.0, 60.0, 560.0,
                       OrderStatus.Completed, address, Some(2), COD, Paid);
    Tables(
      map[5 := Product(7, 500.0, None, 9, true)],
      map[],
      map[3 := order],
      map[2 := Assignment(3, 0, address, Delivered)],
      map[],
      map[0 := User("agent@example.com", Agent, true, false, false)],
      map[],
      map[],
      8)
  }

  /**
   * On that store, the pickup as written succeeds, and it does so by moving the
   * delivered assignment back to 'Picked' and the completed order with it.
   */
  lemma PickupReopensDelivery(after: Tables, aid: Id)
    requires PickedUp(DeliveredStore(), after, 0, aid)
    ensures PickupSucceedsThrough(DeliveredStore(), 2)
    ensures aid == 2
    ensures DeliveredStore().assignments[2].status == Delivered && DeliveredStore().orders[3].status == OrderStatus.Completed
    ensures after.assignments[2].status == AssignmentStatus.Picked && after.orders[3].status == OrderStatus.Picked
  {
  }

  /**
   * That store is a consistent store, and the pickup can go through its
   * delivered assignment: the completed order, set back to 'Picked', still
   * saves.
   */
  lemma DeliveredPickupSucceeds()
    ensures Consistent(DeliveredStore())
    ensures PickupSucceedsThrough(DeliveredStore(), 2)
  {
    var before := DeliveredStore();
    assert before.assignments.Keys == {2} && before.orders.Keys == {3} && before.users.Keys == {0};
    var o := before.orders[3].(status := OrderStatus.Picked);
    assert RepricedLines(o.lines, before.products) == [Line(5, 1, 500.0, "red")];
    assert LineSum([Line(5, 1, 500.0, "red")]) == LineSum([]) + 500.0 * 1.0;
  }

  /**
   * The pickup as written, run on that store: it succeeds, and the delivered
   * assignment and the completed order are both back at 'Picked'.
   */
  method PickupOnDeliveredStore(db: Store) returns (r: Result<User, Error>)
    requires db.Snapshot() == DeliveredStore()
    modifies db
    ensures r.Ok?
    ensures 2 in db.assignments && db.assignments[2].status == AssignmentStatus.Picked
    ensures 3 in db.orders && db.orders[3].status == OrderStatus.Picked
  {
    DeliveredPickupSucceeds();
    r := UpdateAgentStatus(db, 0);
    ghost var aid :| PickedUp(DeliveredStore(), db.Snapshot(), 0, aid);
    PickupReopensDelivery(db.Snapshot(), aid);
  }

  /**
   * The pickup as evidently intended: only an assignment still in the
   * 'Assigned' stage can be picked up. A delivered assignment, and its order,
   * are never touched.
   */
  method PickupAssigned(db: Store, agent: Id) returns (r: Result<User, Error>)
    requires db.Valid()
    modifies db
    ensures db.Valid()
    ensures r.Err? ==> db.Snapshot() == old(db.Snapshot())
    ensures agent !in old(db.users) ==> r == Err(UserNotFound)
    ensures (&& agent in old(db.users)
             && forall aid :: aid in old(db.assignments) && old(db.assignments)[aid].agent == agent ==>
                  old(db.assignments)[aid].status != Assigned) ==> r == Err(AssignmentNotFound)
    ensures (&& agent in old(db.users)
             && (exists aid :: aid in old(db.assignments) && old(db.assignments)[aid].agent == agent
                                 && old(db.assignments)[aid].status == Assigned)
             && forall aid :: aid in old(db.assignments) && old(db.assignments)[aid].agent == agent
                                && old(db.assignments)[aid].status == Assigned ==>
                  PickupSucceedsThrough(old(db.Snapshot()), aid)) ==> r.Ok?
    ensures r.Ok? ==>
      exists aid :: PickedUp(old(db.Snapshot()), db.Snapshot(), agent, aid) && old(db.assignments)[aid].status == Assigned
    ensures r.Ok? ==> r.value == db.users[agent] && r.value == old(db.users)[agent].(picked := true)
    ensures r.Ok? ==> forall id :: id in old(db.assignments) && old(db.assignments)[id].status == Delivered ==>
      id in db.assignments && db.assignments[id] == old(db.assignments)[id]
  {
    if agent !in db.users {
      return Err(UserNotFound);
    }
    if !exists aid :: aid in db.assignments && db.assignments[aid].agent == agent && db.assignments[aid].status == Assigned {
      return Err(AssignmentNotFound);
    }
    var aid :| aid in db.assignments && db.assignments[aid].agent == agent && db.assignments[aid].status == Assigned;
    r := PickUpThrough(db, agent, aid);
  }

  /** The intended pickup never reopens a completed order: an order with a delivered assignment keeps its status. */
  lemma PickupAssignedKeepsDeliveredOrders(before: Tables, after: Tables, agent: Id, aid: Id, other: Id)
    requires OneAssignmentPerOrder(before.assignments)
    requires PickedUp(before, after, agent, aid) && before.assignments[aid].status == Assigned
    requires other in before.assignments && before.assignments[other].status == Delivered
    requires before.assignments[other].order in before.orders
    ensures after.orders[before.assignments[other].order] == before.orders[before.assignments[other].order]
  {
  }

  /**
   * After a pickup through an assignment, the agent's listing shows the
   * carried assignment.
   */
  lemma PickupShowsInListing(before: Tables, after: Tables, agent: Id, aid: Id)
    requires PickedUp(before, after, agent, aid)
    ensures OrderService.AgentOrders(after.users, after.assignments, agent).Ok?
    ensures aid in OrderService.AgentOrders(after.users, after.assignments, agent).value
  {
    assert after.users[agent].picked;
    assert after.assignments[aid].status == AssignmentStatus.Picked;
  }
}
