/**
 * Cascading deletes that reach order items. The database removes the items
 * one by one before the row they belong to, and the delete handler refunds
 * each item's owner.
 */
module Cascade {
  import opened Models
  import opened Totals
  import opened Signals
  import Keys

  /** The keys of the items for product `p`. */
  function ItemsFor(items: map<ItemId, Item>, p: ProductId): set<ItemId>
  {
    set k | k in items && items[k].product == p
  }

  /** Every item leads to an existing order, member and product. */
  predicate AllResolve(s: Store)
  {
    forall k :: k in s.items.rows ==> Resolves(s, k)
  }

  /** Deletes the items `ids`, smallest key first, running the delete handler for each. */
  function DeleteItems(s: Store, ids: set<ItemId>): (r: Store)
    requires AllResolve(s) && ids <= s.items.rows.Keys
    ensures r.items == s.items.(rows := s.items.rows - ids)
    ensures r.teams == s.teams && r.categories == s.categories
    ensures r.products == s.products && r.orders == s.orders
    ensures r.members.next == s.members.next && r.members.rows.Keys == s.members.rows.Keys
    decreases |ids|
  {
    if ids == {} then
      assert s.items.rows - ids == s.items.rows;
      s
    else
      var k := Keys.Least(ids);
      var s1 := RemoveItem(s, k);
      assert AllResolve(s1);
      var r := DeleteItems(s1, ids - {k});
      assert s.items.rows - {k} - (ids - {k}) == s.items.rows - ids;
      r
  }

  /** Deleting items changes members only through their balances. */
  lemma {:induction false} DeleteItemsKeepsProfiles(s: Store, ids: set<ItemId>)
    requires AllResolve(s) && ids <= s.items.rows.Keys
    ensures SameProfiles(s, DeleteItems(s, ids))
    decreases |ids|
  {
    if ids != {} {
      var k := Keys.Least(ids);
      var s1 := RemoveItem(s, k);
      assert AllResolve(s1);
      DeleteItemsKeepsProfiles(s1, ids - {k});
    }
  }

  /** Deleting items keeps every schema constraint. */
  lemma DeleteItemsKeepsValid(s: Store, ids: set<ItemId>)
    requires Valid(s) && ids <= s.items.rows.Keys
    ensures Valid(DeleteItems(s, ids))
  {
    DeleteItemsKeepsProfiles(s, ids);
    ReshapeKeepsValid(s, DeleteItems(s, ids));
  }

  /** Deleting any set of items, in the order above, keeps the ledger balanced. */
  lemma {:induction false} DeleteItemsKeepsLedger(s: Store, ids: set<ItemId>, base: map<MemberId, int>)
    requires AllResolve(s) && ids <= s.items.rows.Keys && Ledger(s, base)
    ensures Ledger(DeleteItems(s, ids), base)
    decreases |ids|
  {
    if ids != {} {
      var k := Keys.Least(ids);
      DeleteItemKeepsLedger(s, k, base);
      assert AllResolve(RemoveItem(s, k));
      DeleteItemsKeepsLedger(RemoveItem(s, k), ids - {k}, base);
    }
  }

  /** Deleting `ids` refunds every member exactly the lines among `ids` that were charged to them. */
  lemma DeleteItemsRefunds(s: Store, ids: set<ItemId>, m: MemberId)
    requires AllResolve(s) && ids <= s.items.rows.Keys && m in s.members.rows
    ensures DeleteItems(s, ids).members.rows[m].balance
         == s.members.rows[m].balance
            + ItemSum(s.items.rows, s.products.rows, ids * ScopeIds(s.items.rows, s.orders.rows, OfMember(m)))
  {
    var r := DeleteItems(s, ids);
    DeleteItemsKeepsLedger(s, ids, Opening(s));
    ScopeRemoveMany(s.items.rows, s.orders.rows, s.products.rows,
                    r.items.rows, r.orders.rows, r.products.rows, ids, OfMember(m));
  }

  /**
   * Deleting order `o`: its items go first (each refunded by the delete
   * handler), then the order row.
   */
  function DeleteOrder(s: Store, o: OrderId): (r: Result<Store>)
    requires AllResolve(s)
    ensures r.Ok? <==> o in s.orders.rows
    ensures r.Ok? ==>
      && r.value.orders == s.orders.(rows := s.orders.rows - {o})
      && r.value.items == s.items.(rows := s.items.rows - ItemsOf(s, o))
      && r.value.teams == s.teams && r.value.categories == s.categories && r.value.products == s.products
      && r.value.members.rows.Keys == s.members.rows.Keys
  {
    if o !in s.orders.rows then Err(NoSuchOrder)
    else
      var cleared := DeleteItems(s, ItemsOf(s, o));
      Ok(cleared.(orders := cleared.orders.(rows := cleared.orders.rows - {o})))
  }

  /** Removing an order no item refers to leaves every member's charges as they were. */
  lemma DropUnusedOrder(s: Store, o: OrderId, m: MemberId)
    requires ItemsOf(s, o) == {}
    ensures Charged(s.(orders := s.orders.(rows := s.orders.rows - {o})), m) == Charged(s, m)
  {
    var s' := s.(orders := s.orders.(rows := s.orders.rows - {o}));
    forall k | k in s.items.rows
      ensures s.items.rows[k].order != o
    {
      assert k !in ItemsOf(s, o);
    }
    assert ScopeIds(s'.items.rows, s'.orders.rows, OfMember(m)) == ScopeIds(s.items.rows, s.orders.rows, OfMember(m));
  }

  /** Deleting the items of order `o` refunds member `m` the order's total if `m` made it, else nothing. */
  lemma OrderItemsRefund(s: Store, o: OrderId, m: MemberId)
    requires AllResolve(s) && o in s.orders.rows && m in s.members.rows
    ensures DeleteItems(s, ItemsOf(s, o)).members.rows[m].balance
         == s.members.rows[m].balance + (if m == s.orders.rows[o].madeBy then OrderTotal(s, o) else 0)
  {
    var ids := ItemsOf(s, o);
    DeleteItemsRefunds(s, ids, m);
    var mine := ScopeIds(s.items.rows, s.orders.rows, OfMember(m));
    if m == s.orders.rows[o].madeBy {
      assert ids * mine == ids;
    } else {
      assert ids * mine == {};
    }
  }

  /**
   * Deleting an order refunds its owner exactly the order's total, leaves
   * every other balance alone and keeps the ledger balanced.
   */
  lemma DeleteOrderRefunds(s: Store, o: OrderId, base: map<MemberId, int>)
    requires AllResolve(s) && Ledger(s, base) && o in s.orders.rows
    ensures var r := DeleteOrder(s, o).value;
      && Ledger(r, base)
      && r.members.rows.Keys == s.members.rows.Keys
      && (forall m :: m in s.members.rows ==>
            r.members.rows[m].balance
            == s.members.rows[m].balance + (if m == s.orders.rows[o].madeBy then OrderTotal(s, o) else 0))
  {
    var r := DeleteOrder(s, o).value;
    var ids := ItemsOf(s, o);
    var owner := s.orders.rows[o].madeBy;
    var cleared := DeleteItems(s, ids);
    DeleteItemsKeepsLedger(s, ids, base);
    assert ItemsOf(cleared, o) == {};
    forall m | m in s.members.rows
      ensures r.members.rows[m].balance
           == s.members.rows[m].balance + (if m == owner then OrderTotal(s, o) else 0)
    {
      OrderItemsRefund(s, o, m);
    }
    forall m | m in r.members.rows
      ensures Charged(r, m) == Charged(cleared, m)
    {
      DropUnusedOrder(cleared, o, m);
    }
  }

  /**
   * Deleting product `p`: its order items go first (each refunded by the
   * delete handler), then the product row.
   */
  function DeleteProduct(s: Store, p: ProductId): (r: Result<Store>)
    requires AllResolve(s)
    ensures r.Ok? <==> p in s.products.rows
    ensures r.Ok? ==>
      && r.value.products == s.products.(rows := s.products.rows - {p})
      && r.value.items == s.items.(rows := s.items.rows - ItemsFor(s.items.rows, p))
      && r.value.teams == s.teams && r.value.categories == s.categories && r.value.orders == s.orders
      && r.value.members.rows.Keys == s.members.rows.Keys
  {
    if p !in s.products.rows then Err(NoSuchProduct)
    else
      var cleared := DeleteItems(s, ItemsFor(s.items.rows, p));
      Ok(cleared.(products := cleared.products.(rows := cleared.products.rows - {p})))
  }

  /** Removing a product no item refers to leaves every member's charges as they were. */
  lemma DropUnusedProduct(s: Store, p: ProductId, m: MemberId)
    requires ItemsFor(s.items.rows, p) == {}
    ensures Charged(s.(products := s.products.(rows := s.products.rows - {p})), m) == Charged(s, m)
  {
    var s' := s.(products := s.products.(rows := s.products.rows - {p}));
    var ids := ScopeIds(s.items.rows, s.orders.rows, OfMember(m));
    forall k | k in ids
      ensures Line(s.items.rows, s.products.rows, k) == Line(s'.items.rows, s'.products.rows, k)
    {
      assert k !in ItemsFor(s.items.rows, p);
    }
    SumFrame(s.items.rows, s.products.rows, s'.items.rows, s'.products.rows, ids);
  }

  /**
   * Deleting a product refunds every member the lines for that product in
   * their orders, and keeps the ledger balanced.
   */
  lemma DeleteProductRefunds(s: Store, p: ProductId, base: map<MemberId, int>)
    requires AllResolve(s) && Ledger(s, base) && p in s.products.rows
    ensures var r := DeleteProduct(s, p).value;
      && Ledger(r, base)
      && (forall m :: m in s.members.rows ==>
            r.members.rows[m].balance
            == s.members.rows[m].balance
               + ItemSum(s.items.rows, s.products.rows,
                         ItemsFor(s.items.rows, p) * ScopeIds(s.items.rows, s.orders.rows, OfMember(m))))
  {
    var r := DeleteProduct(s, p).value;
    var ids := ItemsFor(s.items.rows, p);
    var cleared := DeleteItems(s, ids);
    DeleteItemsKeepsLedger(s, ids, base);
    assert ItemsFor(cleared.items.rows, p) == {};
    forall m | m in s.members.rows
      ensures r.members.rows[m].balance
           == s.members.rows[m].balance
              + ItemSum(s.items.rows, s.products.rows, ids * ScopeIds(s.items.rows, s.orders.rows, OfMember(m)))
    {
      DeleteItemsRefunds(s, ids, m);
    }
    forall m | m in r.members.rows
      ensures Charged(r, m) == Charged(cleared, m)
    {
      DropUnusedProduct(cleared, p, m);
    }
  }

  /** Deleting an order keeps every schema constraint: no surviving item refers to it. */
  lemma DeleteOrderKeepsValid(s: Store, o: OrderId)
    requires Valid(s) && o in s.orders.rows
    ensures Valid(DeleteOrder(s, o).value)
  {
    var ids := ItemsOf(s, o);
    DeleteItemsKeepsValid(s, ids);
    var cleared := DeleteItems(s, ids);
    assert ItemsOf(cleared, o) == {};
    UnusedOrderDropKeepsValid(cleared, o);
  }

  /** Deleting a product keeps every schema constraint: no surviving item refers to it. */
  lemma DeleteProductKeepsValid(s: Store, p: ProductId)
    requires Valid(s) && p in s.products.rows
    ensures Valid(DeleteProduct(s, p).value)
  {
    var ids := ItemsFor(s.items.rows, p);
    DeleteItemsKeepsValid(s, ids);
    var cleared := DeleteItems(s, ids);
    forall k | k in cleared.items.rows
      ensures cleared.items.rows[k].product != p
    {
      assert k !in ids;
    }
    UnusedProductDropKeepsValid(cleared, p);
  }
}
