# Rewards shop: rule service and store

This project models the core of a small loyalty-points shop, written in Python.
Customers hold point balances. Rewards have a point cost. A customer redeems a
quantity of a reward, which records an order. Staff then fulfil or cancel the
order; cancelling refunds the points.

The model has two tiers:

- **The store** (`data_layer.dfy`, class `DataLayer.Database`).
  - It holds the three tables `customers`, `rewards` and `orders` as maps keyed by id.
  - Counters stand in for `AUTOINCREMENT`. A clock stamps each new order.
  - Each query is a function. `ORDER BY` is modelled by a proved insertion sort
    under SQLite's value order (`ordering.dfy`).
  - Each statement (`UPDATE`, `INSERT`, `DELETE`) is a method. It states the
    whole new state of the tables.
  - The schema's constraints are modelled: the UNIQUE email and the enforced
    foreign keys from orders to customers and rewards, with no cascade. A
    write that would break one of them fails with `ConstraintViolation` and
    changes nothing.
- **The rule service** (`business_layer.dfy`, class `BusinessLayer.RewardShopService`).
  - It holds the typed records and the getters that map rows to records.
  - It has the operations: redeem, issue points, fulfil, cancel, and the admin
    adds and deletes. Each one is its guards, in the source's order, followed
    by its writes.
  - Errors are values: `InvalidInput`, `NotFound`, `InsufficientFunds`,
    `InvalidState`, plus `ConstraintViolation` for a rejection by the store.

Python's `str.strip()` is modelled in `py_text.dfy`, with Python's set of
whitespace characters.

Every service operation keeps a whole-shop invariant, `Consistent()`:

- the store's constraints hold;
- no balance is negative;
- every reward cost is positive;
- every order spent exactly its reward's cost times its quantity.

On top of that, `OrdersOnlyAdvance()` holds across each operation: apart from
its status, no order changes or disappears, and an order that is fulfilled or
cancelled never changes again. `scenarios.dfy` holds client code proved from
these contracts alone: a redeem-then-cancel round trip, and the terminal states.

## Model

| member | source | states |
|---|---|---|
| PyText.Strip | business_layer.py:120-121 | The stripped string is a contiguous slice of the input, everything dropped on both sides is whitespace, and the result neither starts nor ends with whitespace |
| PyText.StripIdempotent | business_layer.py:120-121 | Stripping twice gives the same string as stripping once |
| PyText.StripEmptyIffAllSpace | business_layer.py:123-125 | A name or email is blank after stripping exactly when it is all whitespace |
| PyText.StripTrimmed | business_layer.py:120-121 | A string with no whitespace at either end is stored unchanged |
| PyText.SkipLeft | business_layer.py:120-121 | The leading whitespace run ends at the first index that is not whitespace, or at the end of the string |
| PyText.SkipRight | business_layer.py:120-121 | The trailing whitespace run starts just after the last index that is not whitespace, or at the start of the kept part |
| Ordering.LexLeTotal | data_layer.py:99 | Any two names are comparable under the BINARY collation |
| Ordering.LexLeTransitive | data_layer.py:99 | The BINARY collation order is transitive |
| Ordering.SqlLeTotal | data_layer.py:99 | Any two sort keys are comparable |
| Ordering.SqlLeTransitive | data_layer.py:107 | The sort-key order is transitive |
| Ordering.InsertBy | data_layer.py:99 | Inserting into a listing adds exactly that element (multiset) |
| Ordering.InsertBySorted | data_layer.py:99 | Inserting into a sorted listing keeps it sorted |
| Ordering.SortBy | data_layer.py:107 | `ORDER BY` returns a permutation of the rows that is sorted by the key |
| Ordering.PermutationKeepsDistinct | data_layer.py:99 | Reordering rows with distinct ids keeps their ids distinct |
| DataLayer.Scan | data_layer.py:99 | A table scan lists exactly the rows with ids in range, in increasing id order |
| DataLayer.JoinPending | data_layer.py:205-208 | The inner joins and the status filter keep exactly the pending orders whose customer and reward exist, with their names, in scan order |
| DataLayer.SortedScanListsTable | data_layer.py:96-110 | A sorted scan of a whole table lists every row exactly once and nothing else |
| DataLayer.CostOrder | data_layer.py:107 | Rows sorted on the cost key are in non-decreasing cost |
| DataLayer.JoinScanMembers | data_layer.py:194-210 | Joining a whole scan of the orders yields exactly the pending orders that have a customer and a reward, each once |
| DataLayer.PendingQueryMembers | data_layer.py:194-210 | The sorted pending-order query keeps the same rows, and distinct ids |
| DataLayer.PendingQueryOrder | data_layer.py:209 | The pending-order query is in strictly increasing order time |
| DataLayer.Database.constructor | data_layer.py:25-56 | Empty tables, with counters starting at 1 |
| DataLayer.Database.GetAllCustomers | data_layer.py:96-102 | Every customer row exactly once, sorted by name |
| DataLayer.Database.GetAllRewards | data_layer.py:104-110 | Every reward row exactly once, in non-decreasing cost |
| DataLayer.Database.GetCustomerById | data_layer.py:112-121 | The row when the id is present, otherwise none |
| DataLayer.Database.GetRewardById | data_layer.py:123-132 | The row when the id is present, otherwise none |
| DataLayer.Database.GetOrderById | data_layer.py:158-172 | The row when the id is present, otherwise none |
| DataLayer.Database.GetPendingOrdersWithDetails | data_layer.py:184-213 | Exactly the pending orders whose customer and reward exist, joined with their names, each once, oldest first |
| DataLayer.Database.UpdateCustomerPoints | data_layer.py:134-142 | Sets the points of that one customer; an absent id changes nothing; the constraints still hold |
| DataLayer.Database.InsertOrder | data_layer.py:144-156 | With customer and reward present: one new row under a fresh id, with the given fields, a later time than every earlier order, and status pending by default. Otherwise the foreign key rejects it and nothing changes |
| DataLayer.Database.UpdateOrderStatus | data_layer.py:174-182 | Changes the status of that one order and nothing else |
| DataLayer.Database.InsertCustomer | data_layer.py:216-224 | Fails exactly when the email is already taken (UNIQUE, data_layer.py:29); otherwise adds one row under a fresh id |
| DataLayer.Database.DeleteCustomer | data_layer.py:226-231 | Fails exactly when the customer exists and an order refers to it (no cascade); otherwise removes exactly that row |
| DataLayer.Database.InsertReward | data_layer.py:233-241 | Adds one row under a fresh id and changes nothing else |
| DataLayer.Database.DeleteReward | data_layer.py:243-248 | Fails exactly when the reward exists and an order refers to it; otherwise removes exactly that row |
| BusinessLayer.CustomerRecords | business_layer.py:45-50 | The customer records match the table one-to-one and are ordered by name |
| BusinessLayer.RewardRecords | business_layer.py:52-57 | The reward records match the table one-to-one and are ordered by cost |
| BusinessLayer.SummaryRecords | business_layer.py:158-173 | One summary per joined row, at the same position, mapping back to that row field by field (order time included); a summary is listed exactly when its row is |
| BusinessLayer.RewardShopService.GetCustomers | business_layer.py:45-50 | Every customer exactly once as a record, ordered by name |
| BusinessLayer.RewardShopService.GetRewards | business_layer.py:52-57 | Every reward exactly once as a record, cheapest first |
| BusinessLayer.RewardShopService.GetCustomer | business_layer.py:59-63 | The record when the customer exists, otherwise none |
| BusinessLayer.RewardShopService.GetReward | business_layer.py:65-69 | The record when the reward exists, otherwise none |
| BusinessLayer.RewardShopService.GetPendingOrders | business_layer.py:158-173 | Exactly the pending orders with an existing customer and reward, all pending, oldest first |
| BusinessLayer.RewardShopService.RedeemReward | business_layer.py:73-112 | Quantity below 1 gives InvalidInput; a missing customer or reward gives NotFound; a balance below cost times quantity gives InsufficientFunds. Every failure leaves the store unchanged. On success the balance drops by exactly the total, which stays non-negative; exactly one pending order with that total is added; the re-read customer, the reward and the total are returned; nothing else changes; Consistent is kept |
| BusinessLayer.RewardShopService.AddCustomer | business_layer.py:116-130 | Rejects a blank stripped name, a blank stripped email or one without '@', and negative points, with InvalidInput and no change; input that passes those guards but whose stripped email is taken is rejected by the store's UNIQUE column (data_layer.py:29) with ConstraintViolation; otherwise stores the stripped name and email under a fresh id |
| BusinessLayer.RewardShopService.DeleteCustomer | business_layer.py:132-136 | Removes the customer unless an order refers to it |
| BusinessLayer.RewardShopService.AddReward | business_layer.py:138-148 | Succeeds exactly when the stripped name is not blank and the cost is positive; it stores the stripped name; a failure changes nothing |
| BusinessLayer.RewardShopService.DeleteReward | business_layer.py:150-154 | Removes the reward unless an order refers to it |
| BusinessLayer.RewardShopService.IssuePoints | business_layer.py:175-189 | Points of 0 or less give InvalidInput, checked before the lookup; a missing customer gives NotFound; on success the balance rises by exactly the points and the updated record is returned |
| BusinessLayer.RewardShopService.FulfillOrder | business_layer.py:191-204 | A missing order gives NotFound; one that is not pending gives InvalidState; on success only that order's status changes, to fulfilled, and no balance changes |
| BusinessLayer.RewardShopService.CancelOrder | business_layer.py:206-234 | A missing order or a missing customer gives NotFound; one that is not pending gives InvalidState. On success exactly the points spent go back to the customer and the order becomes cancelled. While the constraints hold, the missing-customer case cannot arise |
| ShopScenarios.AddFirstCustomer | business_layer.py:116-130 | In an empty shop, the first customer is stored under id 1 |
| ShopScenarios.AddFirstReward | business_layer.py:138-148 | In an empty catalogue, the first reward is stored under id 1 |
| ShopScenarios.RedeemThenCancel | business_layer.py:73-112 | With 100 points, redeeming three of a reward costing 20 spends 60 and leaves 40; cancelling restores 100 and the order is cancelled |
| ShopScenarios.FulfilledIsTerminal | business_layer.py:201-202 | After a fulfilment, fulfilling again and cancelling both give InvalidState; the order stays fulfilled and no balance changes |
| ShopScenarios.CancelledIsTerminal | business_layer.py:218-219 | After a cancellation, cancelling again and fulfilling both give InvalidState, so the refund is paid once |

## Left out

- The tkinter GUI in `main.py` is left out. Its validation only repeats the service's checks.
- SQLite connections, the foreign-keys `PRAGMA`, commits and the database file path are replaced by in-memory tables. The `PRAGMA` is taken as always on.
- Table creation, the `status` column migration and the seed rows are left out. The constructor gives an empty store; the seeds would only fill it.
- `datetime.now().isoformat()` is modelled by an integer clock that grows with each order. Order times are therefore distinct and increasing. Two orders stamped with the same instant, and the order `ORDER BY` gives such ties, are not modelled.
- Redeem and cancel each perform two separate writes. The model runs them in sequence inside one method, so a crash between the two writes is not modelled; concurrent callers are not modelled either.
- Error message texts are not modelled; each error is one value of `Error`.
- SQLite's 64-bit INTEGER limit is not modelled; integers are unbounded.
- `status` is a three-valued datatype, not free TEXT. The code only ever writes `pending`, `fulfilled` and `cancelled`.
- For `ORDER BY name` and `ORDER BY cost`, the model proves only that the result is sorted and is a permutation of the table. SQLite leaves the order of rows with equal keys unspecified. The model's insertion sort fixes one such order and states nothing about it.
- The delete docstrings mention related orders going "via FK, if configured". The schema declares no `ON DELETE` clause, so the model follows the code: a delete that would orphan an order is rejected.
- The pending-orders docstring says "newest first-ish". The query sorts ascending, so the model follows the code and returns the oldest first.
- The records' `order_time` holds the clock value, not a timestamp string.
