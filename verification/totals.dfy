/**
 * Sums of order lines: the total of an order and the amount charged to a
 * member. A line is worth its quantity times the CURRENT price of its product,
 * which is what both the order total and the balance ledger read.
 */
module Totals {
  import opened Models
  import Keys

  /** What item `k` is worth: quantity times its product's price (0 for a missing row). */
  function Line(items: map<ItemId, Item>, products: map<ProductId, Product>, k: ItemId): int
  {
    if k in items && items[k].product in products
    then items[k].quantity * products[items[k].product].price
    else 0
  }

  /** The sum of `Line` over a set of item keys, smallest key first. */
  function ItemSum(items: map<ItemId, Item>, products: map<ProductId, Product>, ids: set<ItemId>): int
    decreases |ids|
  {
    if ids == {} then 0
    else
      var k := Keys.Least(ids);
      Line(items, products, k) + ItemSum(items, products, ids - {k})
  }

  /** The sum does not depend on which key is taken first. */
  lemma {:induction false} SumPick(items: map<ItemId, Item>, products: map<ProductId, Product>, ids: set<ItemId>, k: ItemId)
    requires k in ids
    ensures ItemSum(items, products, ids) == Line(items, products, k) + ItemSum(items, products, ids - {k})
    decreases |ids|
  {
    var j := Keys.Least(ids);
    if j != k {
      SumPick(items, products, ids - {j}, k);
      SumPick(items, products, ids - {k}, j);
      assert ids - {j} - {k} == ids - {k} - {j};
    }
  }

  /** Two stores whose lines agree on `ids` have the same sum over `ids`. */
  lemma {:induction false} SumFrame(items: map<ItemId, Item>, products: map<ProductId, Product>,
                                    items': map<ItemId, Item>, products': map<ProductId, Product>, ids: set<ItemId>)
    requires forall k :: k in ids ==> Line(items, products, k) == Line(items', products', k)
    ensures ItemSum(items, products, ids) == ItemSum(items', products', ids)
    decreases |ids|
  {
    if ids != {} {
      var k := Keys.Least(ids);
      SumFrame(items, products, items', products', ids - {k});
    }
  }

  /** Splitting a set of keys splits its sum. */
  lemma {:induction false} SumSplit(items: map<ItemId, Item>, products: map<ProductId, Product>, a: set<ItemId>, b: set<ItemId>)
    requires b <= a
    ensures ItemSum(items, products, a) == ItemSum(items, products, a - b) + ItemSum(items, products, b)
    decreases |b|
  {
    if b != {} {
      var k := Keys.Least(b);
      SumPick(items, products, a, k);
      SumSplit(items, products, a - {k}, b - {k});
      assert (a - {k}) - (b - {k}) == a - b;
    } else {
      assert a - b == a;
    }
  }

  /** The value of every line in the scope, summed in least-key order. */
  function ScopeTotal(items: map<ItemId, Item>, orders: map<OrderId, Order>,
                      products: map<ProductId, Product>, sc: Scope): int
  {
    ItemSum(items, products, ScopeIds(items, orders, sc))
  }

  /** `total_amount` of order `o`: quantity times price summed over the order's items. */
  function OrderTotal(s: Store, o: OrderId): int
  {
    ScopeTotal(s.items.rows, s.orders.rows, s.products.rows, OfOrder(o))
  }

  /** What the items in member `m`'s orders are worth. */
  function Charged(s: Store, m: MemberId): int
  {
    ScopeTotal(s.items.rows, s.orders.rows, s.products.rows, OfMember(m))
  }

  /**
   * The ledger invariant: every member's balance is their opening balance
   * `base[m]` minus what the items currently in their orders are worth.
   */
  predicate Ledger(s: Store, base: map<MemberId, int>)
  {
    forall m :: m in s.members.rows ==> m in base && s.members.rows[m].balance == base[m] - Charged(s, m)
  }

  /** The opening balances that make the ledger hold of `s`. */
  function Opening(s: Store): (base: map<MemberId, int>)
    ensures Ledger(s, base)
  {
    map m | m in s.members.rows :: s.members.rows[m].balance + Charged(s, m)
  }

  /** An order with no items has total 0. */
  lemma EmptyOrderTotal(s: Store, o: OrderId)
    requires ItemsOf(s, o) == {}
    ensures OrderTotal(s, o) == 0
  {
  }

  /** Inserting a row adds its line to every total whose scope it falls in. */
  lemma ScopeInsert(items: map<ItemId, Item>, orders: map<OrderId, Order>, products: map<ProductId, Product>,
                    id: ItemId, it: Item, sc: Scope)
    requires id !in items
    ensures ScopeTotal(items[id := it], orders, products, sc)
         == ScopeTotal(items, orders, products, sc)
            + (if InScope(orders, it.order, sc) then Line(items[id := it], products, id) else 0)
  {
    var items' := items[id := it];
    var ids := ScopeIds(items, orders, sc);
    var ids' := ScopeIds(items', orders, sc);
    SumFrame(items', products, items, products, ids);
    if InScope(orders, it.order, sc) {
      assert ids' == ids + {id};
      SumPick(items', products, ids', id);
      assert ids' - {id} == ids;
    } else {
      assert ids' == ids;
    }
  }

  /** Removing a row takes its line out of every total whose scope it falls in. */
  lemma ScopeRemove(items: map<ItemId, Item>, orders: map<OrderId, Order>, products: map<ProductId, Product>,
                    id: ItemId, sc: Scope)
    requires id in items
    ensures ScopeTotal(items - {id}, orders, products, sc)
         == ScopeTotal(items, orders, products, sc)
            - (if InScope(orders, items[id].order, sc) then Line(items, products, id) else 0)
  {
    var rest := items - {id};
    assert items == rest[id := items[id]];
    ScopeInsert(rest, orders, products, id, items[id], sc);
  }

  /**
   * Removing a set of rows takes, out of every total, the sum of the removed
   * lines in its scope -- provided the orders and products the surviving rows
   * refer to are unchanged.
   */
  lemma ScopeRemoveMany(items: map<ItemId, Item>, orders: map<OrderId, Order>, products: map<ProductId, Product>,
                        items': map<ItemId, Item>, orders': map<OrderId, Order>, products': map<ProductId, Product>,
                        removed: set<ItemId>, sc: Scope)
    requires items' == items - removed
    requires forall k :: k in items' ==> Line(items', products', k) == Line(items, products, k)
    requires forall k :: k in items' ==> InScope(orders', items'[k].order, sc) == InScope(orders, items[k].order, sc)
    ensures ScopeTotal(items', orders', products', sc)
         == ScopeTotal(items, orders, products, sc)
            - ItemSum(items, products, removed * ScopeIds(items, orders, sc))
  {
    var ids := ScopeIds(items, orders, sc);
    var ids' := ScopeIds(items', orders', sc);
    assert ids' == ids - (removed * ids);
    SumFrame(items', products', items, products, ids');
    SumSplit(items, products, ids, removed * ids);
  }

  /** The value of an SQL `SUM` aggregate: NULL over no rows. */
  datatype Aggregate = Null | Sum(value: int)

  /**
   * `total_amount`: the database sums quantity times price over the order's
   * item rows, visiting them in whatever order it likes; a sum over no rows
   * is NULL, which becomes 0.
   */
  method TotalAmount(s: Store, o: OrderId) returns (total: int)
    ensures total == OrderTotal(s, o)
    ensures ItemsOf(s, o) == {} ==> total == 0
  {
    var items := s.items.rows;
    var ids := ScopeIds(items, s.orders.rows, OfOrder(o));
    var rest := items.Keys;
    var sum := Null;
    while rest != {}
      invariant rest <= items.Keys
      invariant sum.Null? ==> ids - rest == {}
      invariant (if sum.Null? then 0 else sum.value) == ItemSum(items, s.products.rows, ids - rest)
      decreases |rest|
    {
      var k :| k in rest;
      var done := ids - rest;
      if items[k].order == o {
        var line := Line(items, s.products.rows, k);
        sum := Sum((if sum.Null? then 0 else sum.value) + line);
        assert ids - (rest - {k}) == done + {k};
        SumPick(items, s.products.rows, done + {k}, k);
        assert done + {k} - {k} == done;
      } else {
        assert ids - (rest - {k}) == done;
      }
      rest := rest - {k};
    }
    assert ids - rest == ids;
    total := if sum.Null? then 0 else sum.value;
  }
}
