/** The persistence tier: three tables held in memory, the queries that read
    them and the statements that change them, with the constraints the schema
    declares (`email` UNIQUE, foreign keys from orders to customers and
    rewards, enforced and without cascade) and `AUTOINCREMENT` ids. */
module DataLayer {
  import opened ShopTypes
  import opened Ordering

  /** A row of `customers`, `rewards` and `orders`; the id is the table's key. */
  datatype CustomerRow = CustomerRow(name: string, email: string, points: int)
  datatype RewardRow = RewardRow(name: string, cost: int)
  datatype OrderRow = OrderRow(customerId: int, rewardId: int, quantity: int,
                               pointsSpent: int, orderTime: int, status: Status)

  /** A row of the pending-orders query: an order joined with the names of its
      customer and its reward. */
  datatype PendingRow = PendingRow(id: int, customerId: int, customerName: string,
                                   rewardId: int, rewardName: string, quantity: int,
                                   pointsSpent: int, status: Status, orderTime: int)

  function EntryId<V>(e: (int, V)): int { e.0 }
  function NameKey(e: (int, CustomerRow)): SqlValue { Text(e.1.name) }
  function CostKey(e: (int, RewardRow)): SqlValue { Integer(e.1.cost) }
  function PendingId(p: PendingRow): int { p.id }
  function TimeKey(p: PendingRow): SqlValue { Integer(p.orderTime) }

  /** Every key of the table lies in [1, next): ids handed out so far. */
  ghost predicate IdsBelow<V>(m: map<int, V>, next: int) {
    forall id :: id in m ==> 1 <= id < next
  }

  /** `r` lists the table `m` as (id, row) pairs: every row, once, and nothing else. */
  ghost predicate ListsTable<V(!new)>(r: seq<(int, V)>, m: map<int, V>) {
    && (forall e :: e in r <==> e.0 in m && m[e.0] == e.1)
    && DistinctBy(r, EntryId)
  }

  /** A scan of the table in id order, over the ids in [lo, hi). */
  function Scan<V(!new)>(m: map<int, V>, lo: int, hi: int): (r: seq<(int, V)>)
    decreases hi - lo
    ensures forall e :: e in r <==> lo <= e.0 < hi && e.0 in m && m[e.0] == e.1
    ensures forall i, j :: 0 <= i < j < |r| ==> r[i].0 < r[j].0
  {
    if lo >= hi then
      []
    else
      var rest := Scan(m, lo + 1, hi);
      assert forall j :: 0 <= j < |rest| ==> rest[j] in rest;
      (if lo in m then [(lo, m[lo])] else []) + rest
  }

  /** The joined row of one order, if the query keeps it: the order is
      pending, and the inner joins find both its customer and its reward. */
  function Joined(id: int, o: OrderRow, customers: map<int, CustomerRow>,
                  rewards: map<int, RewardRow>): Option<PendingRow>
  {
    if o.status == Pending && o.customerId in customers && o.rewardId in rewards then
      Some(PendingRow(id, o.customerId, customers[o.customerId].name, o.rewardId,
                      rewards[o.rewardId].name, o.quantity, o.pointsSpent, o.status, o.orderTime))
    else
      None
  }

  /** The order fields a joined row carries. */
  function OrderOf(p: PendingRow): OrderRow {
    OrderRow(p.customerId, p.rewardId, p.quantity, p.pointsSpent, p.orderTime, p.status)
  }

  /** The filter and the joins over a scan of `orders`, keeping the scan's order. */
  function JoinPending(entries: seq<(int, OrderRow)>, customers: map<int, CustomerRow>,
                       rewards: map<int, RewardRow>): (r: seq<PendingRow>)
    ensures forall p :: p in r <==>
      (p.id, OrderOf(p)) in entries && Joined(p.id, OrderOf(p), customers, rewards) == Some(p)
    ensures (forall i, j :: 0 <= i < j < |entries| ==> entries[i].0 < entries[j].0) ==>
      forall i, j :: 0 <= i < j < |r| ==> r[i].id < r[j].id
  {
    if entries == [] then
      []
    else
      var (id, o) := entries[0];
      var rest := JoinPending(entries[1..], customers, rewards);
      assert entries == [entries[0]] + entries[1..];
      assert forall j :: 0 <= j < |rest| ==> rest[j] in rest;
      assert forall e :: e in entries[1..] ==> exists k :: 1 <= k < |entries| && entries[k] == e;
      match Joined(id, o, customers, rewards)
      case Some(p) => [p] + rest
      case None => rest
  }

  /** The pending-orders query's meaning: `p` is the joined row of a pending
      order whose customer and reward both exist. */
  ghost predicate IsPendingDetail(p: PendingRow, orders: map<int, OrderRow>,
                                  customers: map<int, CustomerRow>, rewards: map<int, RewardRow>)
  {
    && p.id in orders
    && var o := orders[p.id];
    && o.status == Pending
    && o.customerId in customers
    && o.rewardId in rewards
    && p == PendingRow(p.id, o.customerId, customers[o.customerId].name, o.rewardId,
                       rewards[o.rewardId].name, o.quantity, o.pointsSpent, o.status, o.orderTime)
  }

  /** A sorted scan of a whole table lists the table. */
  lemma SortedScanListsTable<V(!new)>(m: map<int, V>, next: int, key: ((int, V)) -> SqlValue)
    requires IdsBelow(m, next)
    ensures ListsTable(SortBy(Scan(m, 1, next), key), m)
  {
    var scan := Scan(m, 1, next);
    var sorted := SortBy(scan, key);
    PermutationKeepsDistinct(sorted, scan, EntryId);
    forall e ensures e in sorted <==> e.0 in m && m[e.0] == e.1 {
      assert e in sorted <==> e in multiset(scan);
    }
  }

  /** Ordered by the cost key means ordered by cost. */
  lemma CostOrder(r: seq<(int, RewardRow)>)
    requires SortedBy(r, CostKey)
    ensures forall i, j :: 0 <= i < j < |r| ==> r[i].1.cost <= r[j].1.cost
  {
    forall i, j | 0 <= i < j < |r| ensures r[i].1.cost <= r[j].1.cost {
      assert SqlLe(CostKey(r[i]), CostKey(r[j]));
    }
  }

  /** No two orders share an order time. */
  ghost predicate DistinctTimes(orders: map<int, OrderRow>) {
    forall i, j :: i in orders && j in orders && i != j ==> orders[i].orderTime != orders[j].orderTime
  }

  /** The query pipeline behind the pending-orders list: scan, filter and
      join, sort by order time. */
  function PendingQuery(orders: map<int, OrderRow>, customers: map<int, CustomerRow>,
                        rewards: map<int, RewardRow>, next: int): seq<PendingRow>
  {
    SortBy(JoinPending(Scan(orders, 1, next), customers, rewards), TimeKey)
  }

  /** The filter and the joins over a whole scan of `orders` keep exactly the
      joined rows of the pending orders, each once. */
  lemma JoinScanMembers(orders: map<int, OrderRow>, customers: map<int, CustomerRow>,
                        rewards: map<int, RewardRow>, next: int)
    requires IdsBelow(orders, next)
    ensures var r := JoinPending(Scan(orders, 1, next), customers, rewards);
            && (forall p :: p in r <==> IsPendingDetail(p, orders, customers, rewards))
            && DistinctBy(r, PendingId)
  {
    var scan := Scan(orders, 1, next);
    var joined := JoinPending(scan, customers, rewards);
    forall p ensures p in joined <==> IsPendingDetail(p, orders, customers, rewards) {
      assert p in joined <==> (p.id, OrderOf(p)) in scan && Joined(p.id, OrderOf(p), customers, rewards) == Some(p);
    }
  }

  lemma PendingQueryMembers(orders: map<int, OrderRow>, customers: map<int, CustomerRow>,
                            rewards: map<int, RewardRow>, next: int)
    requires IdsBelow(orders, next)
    ensures var r := PendingQuery(orders, customers, rewards, next);
            && (forall p :: p in r <==> IsPendingDetail(p, orders, customers, rewards))
            && DistinctBy(r, PendingId)
  {
    var joined := JoinPending(Scan(orders, 1, next), customers, rewards);
    var sorted := SortBy(joined, TimeKey);
    JoinScanMembers(orders, customers, rewards, next);
    PermutationKeepsDistinct(sorted, joined, PendingId);
    forall p ensures p in sorted <==> p in joined {
      assert p in sorted <==> p in multiset(joined);
    }
  }

  lemma PendingQueryOrder(orders: map<int, OrderRow>, customers: map<int, CustomerRow>,
                          rewards: map<int, RewardRow>, next: int)
    requires IdsBelow(orders, next) && DistinctTimes(orders)
    ensures var r := PendingQuery(orders, customers, rewards, next);
            forall i, j :: 0 <= i < j < |r| ==> r[i].orderTime < r[j].orderTime
  {
    var r := PendingQuery(orders, customers, rewards, next);
    PendingQueryMembers(orders, customers, rewards, next);
    forall i, j | 0 <= i < j < |r| ensures r[i].orderTime < r[j].orderTime {
      assert SqlLe(TimeKey(r[i]), TimeKey(r[j]));
      assert r[i] in r && r[j] in r;
      assert PendingId(r[i]) != PendingId(r[j]);
    }
  }

  /** The three tables, with the counters behind `AUTOINCREMENT` and a clock
      that stamps each new order with a later time than every earlier one. */
  class Database {
    var customers: map<int, CustomerRow>
    var rewards: map<int, RewardRow>
    var orders: map<int, OrderRow>
    var nextCustomerId: int
    var nextRewardId: int
    var nextOrderId: int
    var clock: int

    /** Ids come from the counters and order times from the clock. */
    ghost predicate Valid()
      reads this
    {
      && 1 <= nextCustomerId && 1 <= nextRewardId && 1 <= nextOrderId
      && IdsBelow(customers, nextCustomerId)
      && IdsBelow(rewards, nextRewardId)
      && IdsBelow(orders, nextOrderId)
      && (forall id :: id in orders ==> orders[id].orderTime < clock)
      && DistinctTimes(orders)
    }

    /** The constraints the store checks on every write: no two customers share
        an email, and every order refers to an existing customer and reward. */
    ghost predicate Integrity()
      reads this
    {
      && (forall i, j :: i in customers && j in customers && i != j ==> customers[i].email != customers[j].email)
      && (forall id :: id in orders ==> orders[id].customerId in customers && orders[id].rewardId in rewards)
    }

    /** Some customer already has this email. */
    predicate EmailTaken(email: string)
      reads this
    {
      exists id :: id in customers && customers[id].email == email
    }

    /** Some order, of any status, refers to this customer. */
    predicate CustomerReferenced(customerId: int)
      reads this
    {
      exists id :: id in orders && orders[id].customerId == customerId
    }

    /** Some order, of any status, refers to this reward. */
    predicate RewardReferenced(rewardId: int)
      reads this
    {
      exists id :: id in orders && orders[id].rewardId == rewardId
    }

    twostate predicate SameCounters()
      reads this
    {
      && nextCustomerId == old(nextCustomerId)
      && nextRewardId == old(nextRewardId)
      && nextOrderId == old(nextOrderId)
      && clock == old(clock)
    }

    /** Empty tables. */
    constructor ()
      ensures Valid() && Integrity()
      ensures customers == map[] && rewards == map[] && orders == map[]
      ensures nextCustomerId == 1 && nextRewardId == 1 && nextOrderId == 1 && clock == 0
    {
      customers, rewards, orders := map[], map[], map[];
      nextCustomerId, nextRewardId, nextOrderId := 1, 1, 1;
      clock := 0;
    }

    // ---------- queries ----------

    /** `SELECT ... FROM customers ORDER BY name`. */
    function GetAllCustomers(): (r: seq<(int, CustomerRow)>)
      reads this
      requires Valid()
      ensures ListsTable(r, customers)
      ensures SortedBy(r, NameKey)
    {
      SortedScanListsTable(customers, nextCustomerId, NameKey);
      SortBy(Scan(customers, 1, nextCustomerId), NameKey)
    }

    /** `SELECT ... FROM rewards ORDER BY cost`. */
    function GetAllRewards(): (r: seq<(int, RewardRow)>)
      reads this
      requires Valid()
      ensures ListsTable(r, rewards)
      ensures SortedBy(r, CostKey)
      ensures forall i, j :: 0 <= i < j < |r| ==> r[i].1.cost <= r[j].1.cost
    {
      SortedScanListsTable(rewards, nextRewardId, CostKey);
      CostOrder(SortBy(Scan(rewards, 1, nextRewardId), CostKey));
      SortBy(Scan(rewards, 1, nextRewardId), CostKey)
    }

    /** `SELECT ... FROM customers WHERE id = ?`: the row, or nothing. */
    function GetCustomerById(customerId: int): (r: Option<CustomerRow>)
      reads this
      ensures r.Some? <==> customerId in customers
      ensures r.Some? ==> r.value == customers[customerId]
    {
      if customerId in customers then Some(customers[customerId]) else None
    }

    /** `SELECT ... FROM rewards WHERE id = ?`: the row, or nothing. */
    function GetRewardById(rewardId: int): (r: Option<RewardRow>)
      reads this
      ensures r.Some? <==> rewardId in rewards
      ensures r.Some? ==> r.value == rewards[rewardId]
    {
      if rewardId in rewards then Some(rewards[rewardId]) else None
    }

    /** `SELECT ... FROM orders WHERE id = ?`: the row, or nothing. */
    function GetOrderById(orderId: int): (r: Option<OrderRow>)
      reads this
      ensures r.Some? <==> orderId in orders
      ensures r.Some? ==> r.value == orders[orderId]
    {
      if orderId in orders then Some(orders[orderId]) else None
    }

    /** The pending orders with their customers' and rewards' names, oldest
        first: exactly the pending orders whose customer and reward exist,
        each once, in strictly increasing order time. */
    function GetPendingOrdersWithDetails(): (r: seq<PendingRow>)
      reads this
      requires Valid()
      ensures forall p :: p in r <==> IsPendingDetail(p, orders, customers, rewards)
      ensures forall i, j :: 0 <= i < j < |r| ==> r[i].orderTime < r[j].orderTime
      ensures DistinctBy(r, PendingId)
    {
      PendingQueryMembers(orders, customers, rewards, nextOrderId);
      PendingQueryOrder(orders, customers, rewards, nextOrderId);
      PendingQuery(orders, customers, rewards, nextOrderId)
    }

    // ---------- statements ----------

    /** `UPDATE customers SET points = ? WHERE id = ?`. */
    method UpdateCustomerPoints(customerId: int, newPoints: int)
      requires Valid()
      modifies this
      ensures Valid() && SameCounters()
      ensures customers == if customerId in old(customers)
                           then old(customers)[customerId := old(customers)[customerId].(points := newPoints)]
                           else old(customers)
      ensures rewards == old(rewards) && orders == old(orders)
      ensures old(Integrity()) ==> Integrity()
    {
      if customerId in customers {
        customers := customers[customerId := customers[customerId].(points := newPoints)];
      }
    }

    /** `INSERT INTO orders ...` with the status defaulting to pending. The
        foreign keys reject an order whose customer or reward does not exist. */
    method InsertOrder(customerId: int, rewardId: int, quantity: int, pointsSpent: int,
                       status: Status := Pending)
      returns (o: Outcome)
      requires Valid()
      modifies this
      ensures Valid()
      ensures o.Done? <==> customerId in old(customers) && rewardId in old(rewards)
      ensures o.Fail? ==> o.error == ConstraintViolation && unchanged(this)
      ensures o.Done? ==>
        && old(nextOrderId) !in old(orders)
        && (forall id :: id in old(orders) ==> old(orders)[id].orderTime < old(clock))
        && orders == old(orders)[old(nextOrderId) :=
                                   OrderRow(customerId, rewardId, quantity, pointsSpent, old(clock), status)]
        && nextOrderId == old(nextOrderId) + 1 && clock == old(clock) + 1
      ensures customers == old(customers) && rewards == old(rewards)
      ensures nextCustomerId == old(nextCustomerId) && nextRewardId == old(nextRewardId)
      ensures old(Integrity()) ==> Integrity()
    {
      if customerId !in customers || rewardId !in rewards {
        return Fail(ConstraintViolation);
      }
      orders := orders[nextOrderId := OrderRow(customerId, rewardId, quantity, pointsSpent, clock, status)];
      nextOrderId := nextOrderId + 1;
      clock := clock + 1;
      o := Done;
    }

    /** `UPDATE orders SET status = ? WHERE id = ?`. */
    method UpdateOrderStatus(orderId: int, newStatus: Status)
      requires Valid()
      modifies this
      ensures Valid() && SameCounters()
      ensures orders == if orderId in old(orders)
                        then old(orders)[orderId := old(orders)[orderId].(status := newStatus)]
                        else old(orders)
      ensures customers == old(customers) && rewards == old(rewards)
      ensures old(Integrity()) ==> Integrity()
    {
      if orderId in orders {
        orders := orders[orderId := orders[orderId].(status := newStatus)];
      }
    }

    /** `INSERT INTO customers ...`; the UNIQUE email rejects a duplicate. */
    method InsertCustomer(name: string, email: string, points: int) returns (o: Outcome)
      requires Valid()
      modifies this
      ensures Valid()
      ensures o.Fail? <==> old(EmailTaken(email))
      ensures o.Fail? ==> o.error == ConstraintViolation && unchanged(this)
      ensures o.Done? ==>
        && old(nextCustomerId) !in old(customers)
        && customers == old(customers)[old(nextCustomerId) := CustomerRow(name, email, points)]
        && nextCustomerId == old(nextCustomerId) + 1
      ensures rewards == old(rewards) && orders == old(orders)
      ensures nextRewardId == old(nextRewardId) && nextOrderId == old(nextOrderId) && clock == old(clock)
      ensures old(Integrity()) ==> Integrity()
    {
      if EmailTaken(email) {
        return Fail(ConstraintViolation);
      }
      customers := customers[nextCustomerId := CustomerRow(name, email, points)];
      nextCustomerId := nextCustomerId + 1;
      o := Done;
    }

    /** `DELETE FROM customers WHERE id = ?`. Absent: nothing to delete. Still
        referenced by an order of any status: rejected by the foreign key. */
    method DeleteCustomer(customerId: int) returns (o: Outcome)
      requires Valid()
      modifies this
      ensures Valid() && SameCounters()
      ensures o.Fail? <==> customerId in old(customers) && old(CustomerReferenced(customerId))
      ensures o.Fail? ==> o.error == ConstraintViolation
      ensures customers == if o.Done? then old(customers) - {customerId} else old(customers)
      ensures rewards == old(rewards) && orders == old(orders)
      ensures old(Integrity()) ==> Integrity()
    {
      if customerId in customers && CustomerReferenced(customerId) {
        return Fail(ConstraintViolation);
      }
      customers := customers - {customerId};
      o := Done;
    }

    /** `INSERT INTO rewards ...`; no constraint can reject it. */
    method InsertReward(name: string, cost: int)
      requires Valid()
      modifies this
      ensures Valid()
      ensures old(nextRewardId) !in old(rewards)
      ensures rewards == old(rewards)[old(nextRewardId) := RewardRow(name, cost)]
      ensures nextRewardId == old(nextRewardId) + 1
      ensures customers == old(customers) && orders == old(orders)
      ensures nextCustomerId == old(nextCustomerId) && nextOrderId == old(nextOrderId) && clock == old(clock)
      ensures old(Integrity()) ==> Integrity()
    {
      rewards := rewards[nextRewardId := RewardRow(name, cost)];
      nextRewardId := nextRewardId + 1;
    }

    /** `DELETE FROM rewards WHERE id = ?`, under the same foreign-key rule as
        `DeleteCustomer`. */
    method DeleteReward(rewardId: int) returns (o: Outcome)
      requires Valid()
      modifies this
      ensures Valid() && SameCounters()
      ensures o.Fail? <==> rewardId in old(rewards) && old(RewardReferenced(rewardId))
      ensures o.Fail? ==> o.error == ConstraintViolation
      ensures rewards == if o.Done? then old(rewards) - {rewardId} else old(rewards)
      ensures customers == old(customers) && orders == old(orders)
      ensures old(Integrity()) ==> Integrity()
    {
      if rewardId in rewards && RewardReferenced(rewardId) {
        return Fail(ConstraintViolation);
      }
      rewards := rewards - {rewardId};
      o := Done;
    }
  }
}
