/** The rule service of the rewards shop: typed records mapped from rows, and
    the redemption, point issuance, order processing and catalogue operations,
    each a short sequence of guards followed by one or two writes. */
module BusinessLayer {
  import opened ShopTypes
  import opened Ordering
  import opened PyText
  import opened DataLayer

  datatype Customer = Customer(id: int, name: string, email: string, points: int)
  datatype Reward = Reward(id: int, name: string, cost: int)
  datatype OrderSummary = OrderSummary(id: int, customerId: int, customerName: string,
                                       rewardId: int, rewardName: string, quantity: int,
                                       pointsSpent: int, status: Status, orderTime: int)

  /** What a successful redemption hands back: the customer as re-read after
      the deduction, the reward, and the total cost. */
  datatype Redemption = Redemption(customer: Customer, reward: Reward, totalCost: int)

  function ToCustomer(e: (int, CustomerRow)): Customer {
    Customer(e.0, e.1.name, e.1.email, e.1.points)
  }

  function ToReward(e: (int, RewardRow)): Reward {
    Reward(e.0, e.1.name, e.1.cost)
  }

  function ToSummary(p: PendingRow): OrderSummary {
    OrderSummary(p.id, p.customerId, p.customerName, p.rewardId, p.rewardName,
                 p.quantity, p.pointsSpent, p.status, p.orderTime)
  }

  /** The row a summary was mapped from. */
  function RowOf(s: OrderSummary): PendingRow {
    PendingRow(s.id, s.customerId, s.customerName, s.rewardId, s.rewardName,
               s.quantity, s.pointsSpent, s.status, s.orderTime)
  }

  /** The row-to-record comprehensions of the list getters. */
  function ToCustomers(rows: seq<(int, CustomerRow)>): (r: seq<Customer>)
    ensures |r| == |rows| && forall i :: 0 <= i < |rows| ==> r[i] == ToCustomer(rows[i])
  {
    seq(|rows|, i requires 0 <= i < |rows| => ToCustomer(rows[i]))
  }

  function ToRewards(rows: seq<(int, RewardRow)>): (r: seq<Reward>)
    ensures |r| == |rows| && forall i :: 0 <= i < |rows| ==> r[i] == ToReward(rows[i])
  {
    seq(|rows|, i requires 0 <= i < |rows| => ToReward(rows[i]))
  }

  function ToSummaries(rows: seq<PendingRow>): (r: seq<OrderSummary>)
    ensures |r| == |rows| && forall i :: 0 <= i < |rows| ==> r[i] == ToSummary(rows[i])
  {
    seq(|rows|, i requires 0 <= i < |rows| => ToSummary(rows[i]))
  }

  /** Mapping the customer rows to records keeps one record per row, in the
      same order. */
  lemma CustomerRecords(rows: seq<(int, CustomerRow)>, m: map<int, CustomerRow>)
    requires ListsTable(rows, m) && SortedBy(rows, NameKey)
    ensures var r := ToCustomers(rows);
      && (forall c :: c in r <==> c.id in m && m[c.id] == CustomerRow(c.name, c.email, c.points))
      && (forall i, j :: 0 <= i < j < |r| ==> r[i].id != r[j].id)
      && (forall i, j :: 0 <= i < j < |r| ==> LexLe(r[i].name, r[j].name))
  {
    var r := ToCustomers(rows);
    forall c ensures c in r <==> c.id in m && m[c.id] == CustomerRow(c.name, c.email, c.points) {
      if c in r {
        var i :| 0 <= i < |r| && r[i] == c;
        assert rows[i] == (c.id, CustomerRow(c.name, c.email, c.points));
      }
      if c.id in m && m[c.id] == CustomerRow(c.name, c.email, c.points) {
        var e := (c.id, CustomerRow(c.name, c.email, c.points));
        assert e in rows;
        var i :| 0 <= i < |rows| && rows[i] == e;
        assert r[i] == c;
      }
    }
    forall i, j | 0 <= i < j < |r| ensures r[i].id != r[j].id && LexLe(r[i].name, r[j].name) {
      assert EntryId(rows[i]) != EntryId(rows[j]);
      assert SqlLe(NameKey(rows[i]), NameKey(rows[j]));
    }
  }

  /** Mapping the reward rows to records keeps one record per row, in the
      same order. */
  lemma RewardRecords(rows: seq<(int, RewardRow)>, m: map<int, RewardRow>)
    requires ListsTable(rows, m)
    requires forall i, j :: 0 <= i < j < |rows| ==> rows[i].1.cost <= rows[j].1.cost
    ensures var r := ToRewards(rows);
      && (forall w :: w in r <==> w.id in m && m[w.id] == RewardRow(w.name, w.cost))
      && (forall i, j :: 0 <= i < j < |r| ==> r[i].id != r[j].id)
      && (forall i, j :: 0 <= i < j < |r| ==> r[i].cost <= r[j].cost)
  {
    var r := ToRewards(rows);
    forall w ensures w in r <==> w.id in m && m[w.id] == RewardRow(w.name, w.cost) {
      if w in r {
        var i :| 0 <= i < |r| && r[i] == w;
        assert rows[i] == (w.id, RewardRow(w.name, w.cost));
      }
      if w.id in m && m[w.id] == RewardRow(w.name, w.cost) {
        var e := (w.id, RewardRow(w.name, w.cost));
        assert e in rows;
        var i :| 0 <= i < |rows| && rows[i] == e;
        assert r[i] == w;
      }
    }
    forall i, j | 0 <= i < j < |r| ensures r[i].id != r[j].id {
      assert EntryId(rows[i]) != EntryId(rows[j]);
    }
  }

  /** Mapping the joined rows to summaries is a bijection that keeps the
      order: one summary per row, at the row's own position, carrying every
      field of it (so its order time too). */
  lemma SummaryRecords(rows: seq<PendingRow>)
    ensures var r := ToSummaries(rows);
      && |r| == |rows|
      && (forall i :: 0 <= i < |r| ==> RowOf(r[i]) == rows[i] && r[i].orderTime == rows[i].orderTime)
      && (forall s :: s in r <==> RowOf(s) in rows)
  {
    var r := ToSummaries(rows);
    forall s ensures s in r <==> RowOf(s) in rows {
      if s in r {
        var i :| 0 <= i < |r| && r[i] == s;
        assert rows[i] == RowOf(s);
      }
      if RowOf(s) in rows {
        var i :| 0 <= i < |rows| && rows[i] == RowOf(s);
        assert r[i] == s;
      }
    }
  }

  class RewardShopService {
    const db: Database

    constructor (db: Database)
      ensures this.db == db
    {
      this.db := db;
    }

    /** The whole-shop invariant the service keeps: the store's own
        constraints hold, no balance is negative, every cost is positive, and
        every order spent exactly its reward's cost times its quantity. */
    ghost predicate Consistent()
      reads db
    {
      && db.Valid()
      && db.Integrity()
      && (forall id :: id in db.customers ==> db.customers[id].points >= 0)
      && (forall id :: id in db.rewards ==> db.rewards[id].cost > 0)
      && (forall id :: id in db.orders ==>
            && db.orders[id].quantity >= 1
            && db.orders[id].rewardId in db.rewards
            && db.orders[id].pointsSpent == db.rewards[db.orders[id].rewardId].cost * db.orders[id].quantity)
    }

    /** Orders are never removed, only their status moves, only away from
        pending, and an order in a terminal state does not change at all. */
    twostate predicate OrdersOnlyAdvance()
      reads db
    {
      forall id :: id in old(db.orders) ==>
        && id in db.orders
        && db.orders[id].(status := Pending) == old(db.orders)[id].(status := Pending)
        && (IsTerminal(old(db.orders)[id].status) ==> db.orders[id] == old(db.orders)[id])
    }

    // ---------- records ----------

    /** Every customer, once, as a record, ordered by name. */
    function GetCustomers(): (r: seq<Customer>)
      reads db
      requires db.Valid()
      ensures forall c :: c in r <==>
        c.id in db.customers && db.customers[c.id] == CustomerRow(c.name, c.email, c.points)
      ensures forall i, j :: 0 <= i < j < |r| ==> r[i].id != r[j].id
      ensures forall i, j :: 0 <= i < j < |r| ==> LexLe(r[i].name, r[j].name)
    {
      CustomerRecords(db.GetAllCustomers(), db.customers);
      ToCustomers(db.GetAllCustomers())
    }

    /** Every reward, once, as a record, cheapest first. */
    function GetRewards(): (r: seq<Reward>)
      reads db
      requires db.Valid()
      ensures forall w :: w in r <==> w.id in db.rewards && db.rewards[w.id] == RewardRow(w.name, w.cost)
      ensures forall i, j :: 0 <= i < j < |r| ==> r[i].id != r[j].id
      ensures forall i, j :: 0 <= i < j < |r| ==> r[i].cost <= r[j].cost
    {
      RewardRecords(db.GetAllRewards(), db.rewards);
      ToRewards(db.GetAllRewards())
    }

    /** The customer with this id, or nothing. */
    function GetCustomer(customerId: int): (r: Option<Customer>)
      reads db
      ensures r.Some? <==> customerId in db.customers
      ensures r.Some? ==> r.value.id == customerId &&
                          db.customers[customerId] == CustomerRow(r.value.name, r.value.email, r.value.points)
    {
      match db.GetCustomerById(customerId)
      case None => None
      case Some(row) => Some(ToCustomer((customerId, row)))
    }

    /** The reward with this id, or nothing. */
    function GetReward(rewardId: int): (r: Option<Reward>)
      reads db
      ensures r.Some? <==> rewardId in db.rewards
      ensures r.Some? ==> r.value.id == rewardId && db.rewards[rewardId] == RewardRow(r.value.name, r.value.cost)
    {
      match db.GetRewardById(rewardId)
      case None => None
      case Some(row) => Some(ToReward((rewardId, row)))
    }

    /** The pending orders whose customer and reward exist, each once, with
        those names, oldest first. */
    function GetPendingOrders(): (r: seq<OrderSummary>)
      reads db
      requires db.Valid()
      ensures forall s :: s in r <==> IsPendingDetail(RowOf(s), db.orders, db.customers, db.rewards)
      ensures forall s :: s in r ==> s.status == Pending
      ensures forall i, j :: 0 <= i < j < |r| ==> r[i].orderTime < r[j].orderTime
    {
      SummaryRecords(db.GetPendingOrdersWithDetails());
      ToSummaries(db.GetPendingOrdersWithDetails())
    }

    // ---------- redemption ----------

    /** Spends `cost * quantity` of a customer's points on a reward and
        records a pending order for it. */
    method RedeemReward(customerId: int, rewardId: int, quantity: int) returns (r: Result<Redemption>)
      requires db.Valid()
      modifies db
      ensures db.Valid() && OrdersOnlyAdvance()
      ensures r.Ok? <==>
        && quantity >= 1
        && customerId in old(db.customers) && rewardId in old(db.rewards)
        && old(db.rewards)[rewardId].cost * quantity <= old(db.customers)[customerId].points
      ensures quantity < 1 ==> r == Err(InvalidInput)
      ensures quantity >= 1 && (customerId !in old(db.customers) || rewardId !in old(db.rewards)) ==>
        r == Err(NotFound)
      ensures quantity >= 1 && customerId in old(db.customers) && rewardId in old(db.rewards) &&
              old(db.customers)[customerId].points < old(db.rewards)[rewardId].cost * quantity ==>
        r == Err(InsufficientFunds)
      ensures r.Err? ==> unchanged(db)
      ensures r.Ok? ==>
        var c := old(db.customers)[customerId];
        var w := old(db.rewards)[rewardId];
        var total := w.cost * quantity;
        && r.value == Redemption(Customer(customerId, c.name, c.email, c.points - total),
                                 Reward(rewardId, w.name, w.cost), total)
        && c.points - total >= 0
        && db.customers == old(db.customers)[customerId := c.(points := c.points - total)]
        && old(db.nextOrderId) !in old(db.orders)
        && db.orders == old(db.orders)[old(db.nextOrderId) :=
                                         OrderRow(customerId, rewardId, quantity, total, old(db.clock), Pending)]
        && db.rewards == old(db.rewards)
        && db.nextOrderId == old(db.nextOrderId) + 1 && db.clock == old(db.clock) + 1
        && db.nextCustomerId == old(db.nextCustomerId) && db.nextRewardId == old(db.nextRewardId)
      ensures old(Consistent()) ==> Consistent()
    {
      if quantity < 1 {
        return Err(InvalidInput);
      }
      var customer := GetCustomer(customerId);
      if customer.None? {
        return Err(NotFound);
      }
      var reward := GetReward(rewardId);
      if reward.None? {
        return Err(NotFound);
      }
      var totalCost := reward.value.cost * quantity;
      if customer.value.points < totalCost {
        return Err(InsufficientFunds);
      }
      var newPoints := customer.value.points - totalCost;
      db.UpdateCustomerPoints(customerId, newPoints);
      var inserted := db.InsertOrder(customerId, rewardId, quantity, totalCost);
      var updated := GetCustomer(customerId);
      r := Ok(Redemption(updated.value, reward.value, totalCost));
    }

    // ---------- catalogue administration ----------

    /** Adds a customer with the stripped name and email, after checking that
        the name is not blank, the email holds an '@' and the points are not
        negative; the store rejects an email already in use. */
    method AddCustomer(name: string, email: string, points: int) returns (o: Outcome)
      requires db.Valid()
      modifies db
      ensures db.Valid() && OrdersOnlyAdvance()
      ensures var n, e := Strip(name), Strip(email);
        && (n == [] || e == [] || '@' !in e || points < 0 ==> o == Fail(InvalidInput))
        && (o.Done? <==> n != [] && '@' in e && points >= 0 && !old(db.EmailTaken(e)))
        && (n != [] && '@' in e && points >= 0 && old(db.EmailTaken(e)) ==> o == Fail(ConstraintViolation))
        && (o.Fail? ==> o.error in {InvalidInput, ConstraintViolation} && unchanged(db))
        && (o.Done? ==>
              && old(db.nextCustomerId) !in old(db.customers)
              && db.customers == old(db.customers)[old(db.nextCustomerId) := CustomerRow(n, e, points)]
              && db.nextCustomerId == old(db.nextCustomerId) + 1)
      ensures db.rewards == old(db.rewards) && db.orders == old(db.orders)
      ensures db.nextRewardId == old(db.nextRewardId) && db.nextOrderId == old(db.nextOrderId)
      ensures db.clock == old(db.clock)
      ensures old(Consistent()) ==> Consistent()
    {
      var n := Strip(name);
      var e := Strip(email);
      if n == [] {
        return Fail(InvalidInput);
      }
      if e == [] || '@' !in e {
        return Fail(InvalidInput);
      }
      if points < 0 {
        return Fail(InvalidInput);
      }
      o := db.InsertCustomer(n, e, points);
    }

    /** Deletes a customer; the store refuses while any order refers to it. */
    method DeleteCustomer(customerId: int) returns (o: Outcome)
      requires db.Valid()
      modifies db
      ensures db.Valid() && db.SameCounters() && OrdersOnlyAdvance()
      ensures o.Fail? <==> customerId in old(db.customers) && old(db.CustomerReferenced(customerId))
      ensures o.Fail? ==> o.error == ConstraintViolation
      ensures db.customers == if o.Done? then old(db.customers) - {customerId} else old(db.customers)
      ensures db.rewards == old(db.rewards) && db.orders == old(db.orders)
      ensures old(Consistent()) ==> Consistent()
    {
      o := db.DeleteCustomer(customerId);
    }

    /** Adds a reward with the stripped name, after checking that the name is
        not blank and the cost is positive. */
    method AddReward(name: string, cost: int) returns (o: Outcome)
      requires db.Valid()
      modifies db
      ensures db.Valid() && OrdersOnlyAdvance()
      ensures o.Done? <==> Strip(name) != [] && cost > 0
      ensures o.Fail? ==> o.error == InvalidInput && unchanged(db)
      ensures o.Done? ==>
        && old(db.nextRewardId) !in old(db.rewards)
        && db.rewards == old(db.rewards)[old(db.nextRewardId) := RewardRow(Strip(name), cost)]
        && db.nextRewardId == old(db.nextRewardId) + 1
      ensures db.customers == old(db.customers) && db.orders == old(db.orders)
      ensures db.nextCustomerId == old(db.nextCustomerId) && db.nextOrderId == old(db.nextOrderId)
      ensures db.clock == old(db.clock)
      ensures old(Consistent()) ==> Consistent()
    {
      var n := Strip(name);
      if n == [] {
        return Fail(InvalidInput);
      }
      if cost <= 0 {
        return Fail(InvalidInput);
      }
      db.InsertReward(n, cost);
      o := Done;
    }

    /** Deletes a reward; the store refuses while any order refers to it. */
    method DeleteReward(rewardId: int) returns (o: Outcome)
      requires db.Valid()
      modifies db
      ensures db.Valid() && db.SameCounters() && OrdersOnlyAdvance()
      ensures o.Fail? <==> rewardId in old(db.rewards) && old(db.RewardReferenced(rewardId))
      ensures o.Fail? ==> o.error == ConstraintViolation
      ensures db.rewards == if o.Done? then old(db.rewards) - {rewardId} else old(db.rewards)
      ensures db.customers == old(db.customers) && db.orders == old(db.orders)
      ensures old(Consistent()) ==> Consistent()
    {
      o := db.DeleteReward(rewardId);
    }

    // ---------- employee operations ----------

    /** Adds a positive number of points to one customer's balance. */
    method IssuePoints(customerId: int, points: int) returns (r: Result<Customer>)
      requires db.Valid()
      modifies db
      ensures db.Valid() && db.SameCounters() && OrdersOnlyAdvance()
      ensures r.Ok? <==> points > 0 && customerId in old(db.customers)
      ensures points <= 0 ==> r == Err(InvalidInput)
      ensures points > 0 && customerId !in old(db.customers) ==> r == Err(NotFound)
      ensures r.Err? ==> unchanged(db)
      ensures r.Ok? ==>
        var c := old(db.customers)[customerId];
        && r.value == Customer(customerId, c.name, c.email, c.points + points)
        && db.customers == old(db.customers)[customerId := c.(points := c.points + points)]
      ensures db.rewards == old(db.rewards) && db.orders == old(db.orders)
      ensures old(Consistent()) ==> Consistent()
    {
      if points <= 0 {
        return Err(InvalidInput);
      }
      var customer := GetCustomer(customerId);
      if customer.None? {
        return Err(NotFound);
      }
      var newPoints := customer.value.points + points;
      db.UpdateCustomerPoints(customerId, newPoints);
      var updated := GetCustomer(customerId);
      r := Ok(updated.value);
    }

    /** Marks a pending order fulfilled; its points were spent when it was
        placed, so no balance changes. */
    method FulfillOrder(orderId: int) returns (o: Outcome)
      requires db.Valid()
      modifies db
      ensures db.Valid() && db.SameCounters() && OrdersOnlyAdvance()
      ensures o.Done? <==> orderId in old(db.orders) && old(db.orders)[orderId].status == Pending
      ensures orderId !in old(db.orders) ==> o == Fail(NotFound)
      ensures orderId in old(db.orders) && IsTerminal(old(db.orders)[orderId].status) ==> o == Fail(InvalidState)
      ensures o.Fail? ==> unchanged(db)
      ensures o.Done? ==> db.orders == old(db.orders)[orderId := old(db.orders)[orderId].(status := Fulfilled)]
      ensures db.customers == old(db.customers) && db.rewards == old(db.rewards)
      ensures old(Consistent()) ==> Consistent()
    {
      var row := db.GetOrderById(orderId);
      if row.None? {
        return Fail(NotFound);
      }
      if row.value.status != Pending {
        return Fail(InvalidState);
      }
      db.UpdateOrderStatus(orderId, Fulfilled);
      o := Done;
    }

    /** Cancels a pending order: refunds what it spent to its customer and
        marks it cancelled. */
    method CancelOrder(orderId: int) returns (r: Result<Customer>)
      requires db.Valid()
      modifies db
      ensures db.Valid() && db.SameCounters() && OrdersOnlyAdvance()
      ensures r.Ok? <==> orderId in old(db.orders) && old(db.orders)[orderId].status == Pending &&
                         old(db.orders)[orderId].customerId in old(db.customers)
      ensures orderId !in old(db.orders) ==> r == Err(NotFound)
      ensures orderId in old(db.orders) && IsTerminal(old(db.orders)[orderId].status) ==> r == Err(InvalidState)
      ensures (orderId in old(db.orders) && old(db.orders)[orderId].status == Pending &&
               old(db.orders)[orderId].customerId !in old(db.customers)) ==> r == Err(NotFound)
      ensures r.Err? ==> unchanged(db)
      ensures r.Ok? ==>
        var o := old(db.orders)[orderId];
        var c := old(db.customers)[o.customerId];
        && r.value == Customer(o.customerId, c.name, c.email, c.points + o.pointsSpent)
        && db.customers == old(db.customers)[o.customerId := c.(points := c.points + o.pointsSpent)]
        && db.orders == old(db.orders)[orderId := o.(status := Cancelled)]
      ensures db.rewards == old(db.rewards)
      ensures old(db.Integrity()) && r == Err(NotFound) ==> orderId !in old(db.orders)
      ensures old(Consistent()) ==> Consistent()
    {
      var row := db.GetOrderById(orderId);
      if row.None? {
        return Err(NotFound);
      }
      var order := row.value;
      if order.status != Pending {
        return Err(InvalidState);
      }
      var customer := GetCustomer(order.customerId);
      if customer.None? {
        return Err(NotFound);
      }
      var newPoints := customer.value.points + order.pointsSpent;
      db.UpdateCustomerPoints(order.customerId, newPoints);
      db.UpdateOrderStatus(orderId, Cancelled);
      var updated := GetCustomer(order.customerId);
      r := Ok(updated.value);
    }
  }
}
