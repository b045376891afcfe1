/** Client code of the rule service, proved from the contracts alone. */
module ShopScenarios {
  import opened ShopTypes
  import opened PyText
  import opened DataLayer
  import opened BusinessLayer

  /** The first customer of an empty shop gets id 1. */
  method AddFirstCustomer(shop: RewardShopService)
    requires shop.db.Valid() && shop.db.customers == map[] && shop.db.nextCustomerId == 1
    modifies shop.db
    ensures shop.db.Valid()
    ensures shop.db.customers == map[1 := CustomerRow("Alice", "alice@example.com", 100)]
    ensures shop.db.nextCustomerId == 2
    ensures shop.db.rewards == old(shop.db.rewards) && shop.db.orders == old(shop.db.orders)
    ensures shop.db.nextRewardId == old(shop.db.nextRewardId)
    ensures shop.db.nextOrderId == old(shop.db.nextOrderId) && shop.db.clock == old(shop.db.clock)
  {
    StripTrimmed("Alice");
    StripTrimmed("alice@example.com");
    assert "alice@example.com"[5] == '@';
    var added := shop.AddCustomer("Alice", "alice@example.com", 100);
  }

  /** The first reward of an empty catalogue gets id 1. */
  method AddFirstReward(shop: RewardShopService)
    requires shop.db.Valid() && shop.db.rewards == map[] && shop.db.nextRewardId == 1
    modifies shop.db
    ensures shop.db.Valid()
    ensures shop.db.rewards == map[1 := RewardRow("Booster Pack", 20)]
    ensures shop.db.nextRewardId == 2
    ensures shop.db.customers == old(shop.db.customers) && shop.db.orders == old(shop.db.orders)
    ensures shop.db.nextCustomerId == old(shop.db.nextCustomerId)
    ensures shop.db.nextOrderId == old(shop.db.nextOrderId) && shop.db.clock == old(shop.db.clock)
  {
    StripTrimmed("Booster Pack");
    var stocked := shop.AddReward("Booster Pack", 20);
  }

  /** A customer with 100 points redeems three of a reward costing 20: the
      order spends 60 and leaves 40; cancelling it gives the 100 back. */
  method RedeemThenCancel() returns (spent: int, afterRedeem: int, afterCancel: int, status: Status)
    ensures spent == 60 && afterRedeem == 40 && afterCancel == 100 && status == Cancelled
  {
    var db := new Database();
    var shop := new RewardShopService(db);
    AddFirstCustomer(shop);
    AddFirstReward(shop);
    var redeemed := shop.RedeemReward(1, 1, 3);
    spent := redeemed.value.totalCost;
    afterRedeem := redeemed.value.customer.points;
    var cancelled := shop.CancelOrder(1);
    afterCancel := cancelled.value.points;
    status := db.orders[1].status;
  }

  /** Once an order is fulfilled, neither fulfilling nor cancelling it again
      succeeds, and neither changes the store. */
  method FulfilledIsTerminal(shop: RewardShopService, orderId: int)
    returns (first: Outcome, again: Outcome, cancel: Result<Customer>)
    requires shop.db.Valid()
    requires orderId in shop.db.orders && shop.db.orders[orderId].status == Pending
    modifies shop.db
    ensures first == Done && again == Fail(InvalidState) && cancel == Err(InvalidState)
    ensures orderId in shop.db.orders && shop.db.orders[orderId] == old(shop.db.orders)[orderId].(status := Fulfilled)
    ensures shop.db.customers == old(shop.db.customers)
  {
    first := shop.FulfillOrder(orderId);
    again := shop.FulfillOrder(orderId);
    cancel := shop.CancelOrder(orderId);
  }

  /** Once an order is cancelled, neither fulfilling nor cancelling it again
      succeeds, so its refund is paid once. */
  method CancelledIsTerminal(shop: RewardShopService, orderId: int)
    returns (first: Result<Customer>, again: Result<Customer>, fulfil: Outcome)
    requires shop.db.Valid() && shop.db.Integrity()
    requires orderId in shop.db.orders && shop.db.orders[orderId].status == Pending
    modifies shop.db
    ensures first.Ok? && again == Err(InvalidState) && fulfil == Fail(InvalidState)
    ensures var o := old(shop.db.orders)[orderId];
            o.customerId in shop.db.customers &&
            shop.db.customers[o.customerId].points == old(shop.db.customers)[o.customerId].points + o.pointsSpent
  {
    first := shop.CancelOrder(orderId);
    again := shop.CancelOrder(orderId);
    fulfil := shop.FulfillOrder(orderId);
  }
}
