# Shop ledger model

A Dafny model of the ordering core of a small team shop backend (a Django
application). Team members hold a running balance. An order belongs to the
member who placed it and holds order items, each a quantity of one
product. Two database signal handlers keep balances in step with the items:

- saving a new item charges the member quantity × price;
- editing an item is meant to charge the quantity difference × price. As
  written, the handler re-reads the quantity after the row is saved, so it
  charges nothing (see Findings);
- deleting an item refunds quantity × price.

The order serializer creates an order together with its items.

The model is a pure, functional database:

- `Models`: the six tables (teams, members, categories, products, orders,
  items), each with an auto-increment key counter. Also the schema
  constraints: foreign keys, quantity ≥ 1, one line per (product, order),
  unique (name, team), unique team numbers and unique category names.
- `Totals`: the order total (`total_amount`) and a member's charges.
  Both are sums of quantity × price over a set of items, and any summation
  order gives the same value. `TotalAmount` walks the rows the way the
  aggregate query does.
- `Signals`: item creation, quantity edits and item deletion, each
  followed by its signal handler.
- `Cascade`: the ON DELETE CASCADE paths from orders and products to
  items. Each cascaded item fires the delete handler.
- `Records`: creating members and the delete rules for members, teams
  and categories.
- `Serializers`: order creation with nested items, both as written and in
  its all-or-nothing form.
- `History`: arbitrary sequences of the above requests, run either with
  the code as written (`AsWritten`) or with both findings corrected
  (`Corrected`).

The central property is the ledger invariant `Ledger(s, base)`: every
member's balance equals an opening balance minus what the items in their
orders are currently worth. Creating items, deleting items, orders,
products and members, and placing orders keep it, including an order
creation that stops halfway. The quantity edit as written keeps it only
when the edit does not change what the item is worth. Any other edit
breaks it. The corrected edit always keeps it. While the ledger holds,
a balance depends only on the items that exist at the end, not on the
order of the requests.

Money is in integer cents. The database handles a missing row or a
violated constraint by raising, and the model returns an `Err` there. A
request refused before it writes anything leaves the store unchanged. The
one exception is the order creation as written: it can fail after the
order row and some items are already written, and those rows stay.

## Model

| member | source | states |
|---|---|---|
| Totals.TotalAmount | shop/models.py:68-75 | walking the order's item rows and summing quantity × product price gives `OrderTotal`; an order without items gives 0 (the `or 0` applied to a NULL aggregate) |
| Totals.SumPick | shop/models.py:70-74 | the sum does not depend on the order rows are visited in: taking out any one row first gives the same total |
| Totals.EmptyOrderTotal | shop/models.py:75 | an order with no items has total 0 |
| Models.InsertItemKeepsValid | shop/models.py:87-100 | an item with an existing product and order, quantity ≥ 1 and a (product, order) pair not yet present keeps every schema constraint |
| Models.QuantityChangeKeepsValid | shop/models.py:90 | setting a quantity ≥ 1 on an existing item keeps every constraint |
| Models.InsertOrderKeepsValid | shop/models.py:64-66 | an order made by an existing member keeps every constraint |
| Signals.AddToBalance | shop/signals.py:18 | only the one member's balance field changes, by exactly the amount; no other member or field moves |
| Signals.CreateItem | shop/signals.py:8-12 | a new item is written under the next key, then the order's maker is charged quantity × price and no one else; it is refused exactly when the order or product is missing, the quantity is outside 1 to 2147483647 (the declared minimum and the integer column's range, models.py:90) or the (product, order) pair already exists |
| Signals.CreateItemAddsLine | shop/signals.py:9-12 | a new item raises every total it belongs to (its order's, its maker's) by quantity × price and leaves the others |
| Signals.CreateItemKeepsValid | shop/models.py:87-100 | creating an item keeps every schema constraint |
| Signals.CreateItemKeepsLedger | shop/signals.py:11-12 | the charge on creation keeps every balance equal to its opening balance minus the member's charges |
| Signals.EditItemAsWritten | shop/signals.py:13-16 | the handler as written re-reads the quantity after the row was saved, so editing an existing item to any quantity from 1 to 2147483647 leaves every balance unchanged; it is refused for a missing item or a quantity out of that range |
| Signals.EditItemAsWrittenKeepsValid | shop/signals.py:13-18 | the edit as written writes a quantity ≥ 1 on an existing row and moves no balance, so every constraint still holds |
| Signals.EditItemAsWrittenLedger | shop/signals.py:14-16 | the handler as written keeps the ledger exactly when (new − old quantity) × price is 0, so any real change breaks it |
| Signals.EditItem | shop/signals.py:13-16 | the corrected edit charges the order's maker (new − stored quantity) × price, computed from the quantity before the write; it is refused for a missing item or a quantity outside 1 to 2147483647 |
| Signals.EditItemKeepsValid | shop/models.py:90 | an accepted edit keeps every schema constraint |
| Signals.EditItemKeepsLedger | shop/signals.py:13-16 | the corrected edit keeps the ledger balanced |
| Signals.RemoveItem | shop/signals.py:21-26 | the row is deleted and the order's maker is refunded quantity × current price; nothing else changes |
| Signals.DeleteItem | shop/signals.py:21-26 | deleting a missing item is refused; otherwise it is `RemoveItem` |
| Signals.RemoveItemKeepsValid | shop/models.py:87-100 | deleting an item keeps every constraint |
| Signals.DeleteItemKeepsLedger | shop/signals.py:21-26 | the refund on deletion keeps the ledger balanced |
| Signals.CreateThenDeleteRestores | shop/signals.py:6-26 | creating an item and deleting it again restores every balance and every row; only the key counter has moved on |
| Cascade.DeleteItems | shop/models.py:88-89 | deleting a set of items one by one, each followed by the delete handler, removes exactly those rows and changes no other table or member key |
| Cascade.DeleteItemsKeepsLedger | shop/signals.py:21-26 | a cascade of item deletions keeps the ledger balanced |
| Cascade.DeleteItemsRefunds | shop/signals.py:21-26 | each member gets back exactly what the deleted items in their orders were worth |
| Cascade.DeleteOrder | shop/models.py:89 | deleting an order removes it and exactly its items; it is refused only for a missing order |
| Cascade.DeleteOrderRefunds | shop/models.py:89 | deleting an order refunds its maker the order's total and no one else anything, and keeps the ledger balanced |
| Cascade.DeleteOrderKeepsValid | shop/models.py:89 | no item is left pointing at the deleted order |
| Cascade.DeleteProduct | shop/models.py:88 | deleting a product removes it and exactly the items for it, in every order |
| Cascade.DeleteProductRefunds | shop/models.py:88 | each member is refunded what the deleted product's items in their orders were worth, and the ledger stays balanced |
| Cascade.DeleteProductKeepsValid | shop/models.py:88 | no item is left pointing at the deleted product |
| Records.CreateMember | shop/models.py:19-33 | a new member gets the next key and the opening balance entered in the admin form (0 by default); it is refused for a missing team or a name already used in that team |
| Records.CreateMemberKeepsValid | shop/models.py:31-33 | the (name, team) uniqueness holds after a member is added |
| Records.CreateMemberKeepsLedger | shop/models.py:23 | a new member has no charges and joins the ledger with the opening balance they were created with |
| Records.DeleteMember | shop/models.py:66 | deleting a member removes their orders and those orders' items, and nothing else |
| Records.DeleteMemberKeepsValid | shop/models.py:66 | no order or item is left pointing at the deleted member's rows |
| Records.DeleteMemberKeepsCharge | shop/models.py:66 | every other member's charges are unchanged |
| Records.DeleteMemberKeepsLedger | shop/models.py:66 | every other member's balance and charges are unchanged, so the ledger stays balanced |
| Records.DeleteTeam | shop/models.py:22 | deleting a team is refused while any member belongs to it |
| Records.DeleteTeamKeepsValid | shop/models.py:22 | the RESTRICT rule means no member is left without a team |
| Records.DeleteCategory | shop/models.py:53 | deleting a category is refused while any product is in it |
| Records.DeleteCategoryKeepsValid | shop/models.py:53 | the RESTRICT rule means no product is left without a category |
| Serializers.CheckEntries | shop/serializers.py:35-44 | the nested item list passes exactly when every entry names an existing product with a quantity from 1 to 2147483647; a failure is a missing product or a quantity out of range |
| Serializers.ValidateOrder | shop/serializers.py:47-53 | a request passes exactly when the member exists and every entry passes |
| Serializers.AddItems | shop/serializers.py:59-60 | the item loop changes only the item table and balances, keeps the set of members, and when it completes has used one item key per entry |
| Serializers.AddItemsPass | shop/serializers.py:59-60 | the loop completes exactly when every entry is acceptable, no product repeats and none already has a line in the order; with acceptable entries it can only stop on a duplicate line |
| Serializers.LinesAt | shop/serializers.py:59-60 | entry j is written under the j-th new key with its product and quantity |
| Serializers.AddItemsRows | shop/serializers.py:59-60 | a completed loop adds exactly the entries' rows under the next keys and leaves the existing rows alone |
| Serializers.AddItemsKeepsValid | shop/serializers.py:59-60 | wherever the loop stops, every schema constraint holds |
| Serializers.AddItemsKeepsLedger | shop/serializers.py:59-60 | wherever the loop stops, the ledger is balanced |
| Serializers.AddItemsTotals | shop/serializers.py:59-60 | a completed loop adds the entries' cost to every total the order belongs to |
| Serializers.AddItemsCharges | shop/serializers.py:59-60 | a completed loop charges the entries' cost to the order's maker and no one else |
| Serializers.CreateOrderAsWritten | shop/serializers.py:55-63 | a request that fails validation writes nothing; once it passes, the order row is written whatever happens to the items |
| Serializers.CreateOrder | shop/serializers.py:55-63 | the all-or-nothing create succeeds exactly when the written version completes, and then leaves the same store: the new order plus one item key per entry |
| Serializers.CreateOrderAccepts | shop/serializers.py:55-63 | an order is placed exactly when the member exists, every entry is acceptable and no product repeats; a repeat is reported as a duplicate line |
| Serializers.CreateOrderPlaces | shop/serializers.py:57-60 | the placed order's items are exactly the entries' rows under new keys, and earlier items are untouched |
| Serializers.CreateOrderKeepsLedger | shop/serializers.py:55-63 | placing an order keeps every constraint and the ledger |
| Serializers.CreateOrderCharges | shop/serializers.py:55-63 | the new order's total is the entries' cost, and exactly that is charged to the ordering member alone |
| Serializers.CreateOrderEmpty | shop/serializers.py:56-62 | an order with no entries is placed empty: total 0, no balance moves |
| Serializers.CreateOrderAsWrittenKeepsLedger | shop/serializers.py:55-63 | wherever the create as written stops, the rows it leaves keep every constraint and the ledger, and no member is added or removed |
| Serializers.AsWrittenAgreesWhenDistinct | shop/serializers.py:55-63 | without a repeated product the create as written is already all or nothing, and agrees with the corrected one |
| Serializers.PartialOrderOnDuplicate | shop/serializers.py:55-63 | with a repeated product the create as written raises, yet leaves the new order row behind; the corrected one reports the same error and writes nothing |
| History.Apply | shop/signals.py:6-26 | one request under either build keeps every schema constraint and never lowers the member key counter; `AsWritten` runs `Signals.EditItemAsWritten` and `Serializers.CreateOrderAsWritten`, `Corrected` runs `Signals.EditItem` and `Serializers.CreateOrder` |
| History.EditAsWrittenStep | shop/signals.py:13-16 | a quantity edit under the code as written is the as-written edit, and a refused edit changes nothing |
| History.EditCorrectedStep | shop/signals.py:13-16 | a quantity edit under the corrected code is the corrected edit, and a refused edit changes nothing |
| History.EditOutcomeLedger | shop/signals.py:13-16 | the as-written edit's outcome, accepted or refused, keeps the ledger exactly when the edit does not drift, that is when it does not change what the item is worth |
| History.EditAsWrittenLedger | shop/signals.py:13-16 | under the code as written a quantity edit keeps the ledger if and only if it does not drift |
| History.EditCorrectedLedger | shop/signals.py:13-16 | under the corrected code every quantity edit keeps the ledger |
| History.LineOpKeepsLedger | shop/signals.py:6-26 | an item create, edit or delete keeps the ledger if and only if it is not an as-written edit that drifts |
| History.OrderOpKeepsLedger | shop/serializers.py:55-63 | placing an order (under either build, including a partial as-written create) and deleting an order or product keep the ledger |
| History.RecordOpKeepsLedger | shop/models.py:19-33 | member create and delete, and team and category delete keep the ledger; a new member enters with the balance they were created with |
| History.ApplyKeepsLedger | shop/signals.py:6-26 | a request, accepted or refused, keeps the ledger if and only if it is not an as-written quantity edit that drifts; a new member enters with the balance they were created with |
| History.CorrectedIsSteady | shop/signals.py:13-16 | under the corrected code no request drifts, so every run is steady |
| History.EditFreeIsSteady | shop/signals.py:6-26 | a run of the code as written with no quantity edit is steady |
| History.RunKeepsLedger | shop/signals.py:6-26 | the ledger stays balanced after any steady sequence of requests: any sequence under the corrected code, and under the code as written any sequence in which no edit changes what an item is worth |
| History.BalanceFollowsCharges | shop/signals.py:6-26 | after a steady sequence of requests, a surviving member's balance is their old balance plus their charges before minus their charges now |
| History.OrderIndependence | shop/signals.py:6-26 | two steady request sequences ending with the same items, orders and prices leave every surviving member with the same balance |
| History.RunOne | shop/signals.py:6-26 | a run of one request is that request |
| History.OneEditAsWritten | shop/signals.py:13-16 | from any valid store, one accepted edit under the code as written writes the new quantity and leaves every member row, balance included, unchanged |
| History.DriftBreaksLedger | shop/signals.py:13-16 | a request that drifts under the code as written leaves the ledger broken and its run unsteady |
| History.OneLineValid | shop/models.py:87-100 | the one-line example store (one item of quantity 1 at price 250, its maker's balance −250) keeps every schema constraint |
| History.EditOneLine | shop/signals.py:13-16 | editing that item to 3: the code as written leaves the balance at −250 and breaks the ledger, while the corrected code brings it to −750 |

## Left out

- History.ApplyKeepsLedger: under the code as written, the ledger is
  kept exactly when the request does not drift. A quantity edit that
  changes what an item is worth breaks it (`History.DriftBreaksLedger`,
  `History.EditOneLine`), because the handler charges nothing for it.
- History.RunKeepsLedger: proved only for steady runs. Under the code as
  written that excludes runs with an edit that changes what an item is
  worth, since the source's ledger really does break there. Under the
  corrected code every run is steady (`History.CorrectedIsSteady`).
- History.BalanceFollowsCharges: holds only for steady runs, for the same
  reason as `History.RunKeepsLedger`.
- History.OrderIndependence: holds only for steady runs, for the same
  reason as `History.RunKeepsLedger`.
- Payments, the settings module, the live-pricing script, views, URLs and
  admin classes are not part of this model. Neither is the payment
  credit that would add to a balance.
- Changing a product's price is not modelled. The handlers read the
  current price, so a price change between creating and deleting an item
  makes the refund differ from the charge. The ledger here is stated at
  fixed prices.
- Decimal widths (`max_digits`) are not modelled. Amounts are unbounded
  integers of cents.
- Field lengths, email format, images, `__str__` and the ordering and
  latest-by options are not modelled.
- Concurrency and transactions are not modelled. Each request runs alone.
  `CreateOrder` models the rolled-back outcome of an atomic block, not the
  locking.
- The timestamp `auto_now_add` is a parameter `now` of order creation.
- Moving an existing item to another product or order is not modelled.
  As written, the save handler would re-read the row it just saved, so the
  difference would be 0: the move would charge nothing and refund nothing,
  even when the item moves to another member's order. Only the quantity
  edit is modelled.
- The item serializer lists a `unit_price` field that the item model
  does not define. The model follows the item model: totals and charges
  use the product's current price.
- Records.CreateMember: members are created through the admin form
  (`TeamMemberAdmin`), since the member API is read-only. That form reports
  every failing field at once; the model reports only the first error
  (team first, then name). The same admin change form can later set a
  member's balance directly. Such edits are not modelled, because they
  step outside the ledger by design: the ledger's opening balances would
  simply move with them.
- Serializers.CheckEntries: DRF reports every bad entry; the model reports
  only the first one.
- Serializers.CreateOrderAsWritten: the final `order.save()` changes no
  field and is not modelled.
- Records.DeleteMember: the delete handler's refunds for the deleted
  member's items go to a row that is removed in the same cascade. The
  model therefore drops those rows directly.
- Validators (`MinValueValidator(1)` and the integer range validator) and
  foreign-key existence are modelled as errors at write time. A bare
  `objects.create` would not run the validators, but forms and serializers
  do.
- The quantity's upper bound 2147483647 (`Models.MaxQuantity`) is the
  top of PostgreSQL's integer range. MySQL stores the field as an
  unsigned integer column and allows up to 4294967295. The settings that
  choose the backend are not part of this model. A backend with another
  range would move the bound.
- Reassigning an existing order to another member is not modelled. The
  order admin disables only adding, so its change form can still edit
  the order's `by` field (shop/models.py:66). No handler listens to
  `Order`, so the order's items would then count against the new maker
  while no balance moves, and the ledger would break for both members.

## Findings

| source | as written | input that shows it | evidently intended | confidence | as-written member | corrected member |
|---|---|---|---|---|---|---|
| shop/signals.py:13-16 | the edit branch reads the stored quantity after the post_save write, so it reads the new quantity and the difference is always 0 | an item with quantity 1 of a product priced 250, edited to quantity 3: the balance does not move, though the order total rises by 500 | charge (new − old quantity) × price, reading the old quantity before the save (for example in pre_save) | not executed | Signals.EditItemAsWritten | Signals.EditItem |
| shop/serializers.py:55-63 | `create` writes the order row and then each item with no transaction. A repeated product raises IntegrityError on the repeat, after the order and the earlier items are written and charged | entries [(p, 1), (p, 1)] for an existing product p: the order and one item stay, and the member is charged once | all or nothing: no order row and no charge when any item fails (an atomic block around the loop) | not executed; assumes requests are not wrapped in a transaction by the settings | Serializers.CreateOrderAsWritten | Serializers.CreateOrder |
