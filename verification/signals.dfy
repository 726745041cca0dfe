/**
 * The two balance handlers that run after an order item is saved or deleted.
 *
 * Each handler looks up the member who made the item's order, computes
 * quantity times the product's current price, adjusts that member's balance
 * and saves only the balance field.
 */
module Signals {
  import opened Models
  import opened Totals

  /** The order `o` refers to an existing member. */
  predicate OwnerKnown(s: Store, o: OrderId)
  {
    o in s.orders.rows ==> s.orders.rows[o].madeBy in s.members.rows
  }

  /** Item `k`, if present, leads to an existing order, member and product. */
  predicate Resolves(s: Store, k: ItemId)
  {
    k in s.items.rows ==>
      && s.items.rows[k].product in s.products.rows
      && OwnerKnown(s, s.items.rows[k].order)
      && s.items.rows[k].order in s.orders.rows
  }

  /** The member who made the order of item `k`. */
  function OwnerOf(s: Store, k: ItemId): MemberId
    requires k in s.items.rows && s.items.rows[k].order in s.orders.rows
  {
    s.orders.rows[s.items.rows[k].order].madeBy
  }

  /** Only member `m`'s balance moved, by `delta`; no other member and no other field changed. */
  predicate BalanceMoved(s: Store, r: Store, m: MemberId, delta: int)
  {
    && m in s.members.rows
    && r.members.next == s.members.next
    && r.members.rows.Keys == s.members.rows.Keys
    && r.members.rows[m] == s.members.rows[m].(balance := s.members.rows[m].balance + delta)
    && (forall x :: x in s.members.rows && x != m ==> r.members.rows[x] == s.members.rows[x])
  }

  /** Adds `delta` to member `m`'s balance and saves that one field. */
  function AddToBalance(s: Store, m: MemberId, delta: int): (r: Store)
    requires m in s.members.rows
    ensures BalanceMoved(s, r, m, delta)
    ensures r == s.(members := r.members)
  {
    var member := s.members.rows[m];
    s.(members := s.members.(rows := s.members.rows[m := member.(balance := member.balance + delta)]))
  }

  /** Moving one balance keeps the store valid: names and teams are untouched. */
  lemma BalanceMoveKeepsValid(s: Store, r: Store, m: MemberId, delta: int)
    requires Valid(s) && BalanceMoved(s, r, m, delta) && r == s.(members := r.members)
    ensures Valid(r)
  {
    ReshapeKeepsValid(s, r);
  }

  /**
   * Inserting an item: the row is written under the next key (after the
   * quantity and the unique (product, order) pair are validated), then the
   * save handler runs with `created` set and charges quantity times price to
   * the member who made the order.
   */
  function CreateItem(s: Store, o: OrderId, p: ProductId, q: int): (r: Result<Store>)
    requires s.items.Keyed() && OwnerKnown(s, o)
    ensures r.Ok? <==> o in s.orders.rows && p in s.products.rows && QuantityOk(q) && !HasLine(s.items.rows, o, p)
    ensures r.Ok? ==>
      && r.value.items == s.items.Insert(Item(p, o, q))
      && BalanceMoved(s, r.value, s.orders.rows[o].madeBy, -(q * s.products.rows[p].price))
      && r.value == s.(items := r.value.items, members := r.value.members)
  {
    if o !in s.orders.rows then Err(NoSuchOrder)
    else if p !in s.products.rows then Err(NoSuchProduct)
    else if q < 1 then Err(QuantityBelowOne)
    else if q > MaxQuantity then Err(QuantityAboveMax)
    else if HasLine(s.items.rows, o, p) then Err(DuplicateProductInOrder)
    else
      var written := s.(items := s.items.Insert(Item(p, o, q)));
      var amount := q * written.products.rows[p].price;
      Ok(AddToBalance(written, written.orders.rows[o].madeBy, -amount))
  }

  /**
   * Editing the quantity of item `k` as the source does it: the row is
   * written first, and only then does the save handler run, re-read the
   * quantity from the store and charge (new - re-read) times the price.
   * The re-read returns the quantity just written, so no balance moves.
   * The `k != 0` condition is the handler's `if instance.pk`: a key of 0
   * stands for a missing primary key, and every stored key is at least 1.
   */
  function EditItemAsWritten(s: Store, k: ItemId, q: int): (r: Result<Store>)
    requires Resolves(s, k)
    ensures r.Ok? <==> k in s.items.rows && QuantityOk(q)
    ensures r.Ok? ==> r.value.items.rows == s.items.rows[k := s.items.rows[k].(quantity := q)]
    ensures r.Ok? && k != 0 ==> r.value == s.(items := s.items.(rows := s.items.rows[k := s.items.rows[k].(quantity := q)]))
  {
    if k !in s.items.rows then Err(NoSuchItem)
    else if q < 1 then Err(QuantityBelowOne)
    else if q > MaxQuantity then Err(QuantityAboveMax)
    else
      var it := s.items.rows[k];
      var written := s.(items := s.items.(rows := s.items.rows[k := it.(quantity := q)]));
      var member := written.orders.rows[it.order].madeBy;
      var reread := if k != 0 then written.items.rows[k].quantity else 0;
      var diff := (q - reread) * written.products.rows[it.product].price;
      Ok(AddToBalance(written, member, -diff))
  }

  /**
   * Editing the quantity of item `k` with the stored quantity read BEFORE
   * the write, so the owner is charged (new - old) times the price.
   */
  function EditItem(s: Store, k: ItemId, q: int): (r: Result<Store>)
    requires Resolves(s, k)
    ensures r.Ok? <==> k in s.items.rows && QuantityOk(q)
    ensures r.Ok? ==>
      && r.value.items == s.items.(rows := s.items.rows[k := s.items.rows[k].(quantity := q)])
      && BalanceMoved(s, r.value, OwnerOf(s, k),
                      -((q - s.items.rows[k].quantity) * s.products.rows[s.items.rows[k].product].price))
      && r.value == s.(items := r.value.items, members := r.value.members)
  {
    if k !in s.items.rows then Err(NoSuchItem)
    else if q < 1 then Err(QuantityBelowOne)
    else if q > MaxQuantity then Err(QuantityAboveMax)
    else
      var it := s.items.rows[k];
      var stored := it.quantity;
      var written := s.(items := s.items.(rows := s.items.rows[k := it.(quantity := q)]));
      var diff := (q - stored) * written.products.rows[it.product].price;
      Ok(AddToBalance(written, written.orders.rows[it.order].madeBy, -diff))
  }

  /**
   * Deleting row `k`, then the delete handler: the owner is refunded
   * quantity times the product's current price.
   */
  function RemoveItem(s: Store, k: ItemId): (r: Store)
    requires k in s.items.rows && Resolves(s, k)
    ensures r.items == s.items.(rows := s.items.rows - {k})
    ensures BalanceMoved(s, r, OwnerOf(s, k), Line(s.items.rows, s.products.rows, k))
    ensures r == s.(items := r.items, members := r.members)
  {
    var it := s.items.rows[k];
    var deleted := s.(items := s.items.(rows := s.items.rows - {k}));
    var amount := it.quantity * deleted.products.rows[it.product].price;
    AddToBalance(deleted, deleted.orders.rows[it.order].madeBy, amount)
  }

  /** Deleting item `k` on request. */
  function DeleteItem(s: Store, k: ItemId): (r: Result<Store>)
    requires Resolves(s, k)
    ensures r.Ok? <==> k in s.items.rows
    ensures r.Ok? ==> r.value == RemoveItem(s, k)
  {
    if k !in s.items.rows then Err(NoSuchItem) else Ok(RemoveItem(s, k))
  }

  /** Creating an item adds its line to every total whose scope it falls in. */
  lemma CreateItemAddsLine(s: Store, o: OrderId, p: ProductId, q: int, sc: Scope)
    requires s.items.Keyed() && OwnerKnown(s, o)
    requires CreateItem(s, o, p, q).Ok?
    ensures var r := CreateItem(s, o, p, q).value;
      ScopeTotal(r.items.rows, r.orders.rows, r.products.rows, sc)
      == ScopeTotal(s.items.rows, s.orders.rows, s.products.rows, sc)
         + (if InScope(s.orders.rows, o, sc) then q * s.products.rows[p].price else 0)
  {
    ScopeInsert(s.items.rows, s.orders.rows, s.products.rows, s.items.next, Item(p, o, q), sc);
  }

  /** Creating an item keeps every schema constraint. */
  lemma CreateItemKeepsValid(s: Store, o: OrderId, p: ProductId, q: int)
    requires Valid(s) && CreateItem(s, o, p, q).Ok?
    ensures Valid(CreateItem(s, o, p, q).value)
  {
    var r := CreateItem(s, o, p, q).value;
    InsertItemKeepsValid(s, Item(p, o, q));
    BalanceMoveKeepsValid(s.(items := r.items), r, s.orders.rows[o].madeBy, -(q * s.products.rows[p].price));
  }

  /** Creating an item keeps the ledger balanced. */
  lemma CreateItemKeepsLedger(s: Store, o: OrderId, p: ProductId, q: int, base: map<MemberId, int>)
    requires s.items.Keyed() && OwnerKnown(s, o) && Ledger(s, base)
    requires CreateItem(s, o, p, q).Ok?
    ensures Ledger(CreateItem(s, o, p, q).value, base)
  {
    var r := CreateItem(s, o, p, q).value;
    forall m | m in r.members.rows
      ensures m in base && r.members.rows[m].balance == base[m] - Charged(r, m)
    {
      CreateItemAddsLine(s, o, p, q, OfMember(m));
    }
  }

  /** Changing the quantity of item `k` moves every total that includes it by the quantity difference times the price. */
  lemma EditMovesCharge(s: Store, k: ItemId, q: int, sc: Scope)
    requires k in s.items.rows && s.items.rows[k].product in s.products.rows
    ensures var it := s.items.rows[k];
      ScopeTotal(s.items.rows[k := it.(quantity := q)], s.orders.rows, s.products.rows, sc)
      == ScopeTotal(s.items.rows, s.orders.rows, s.products.rows, sc)
         + (if InScope(s.orders.rows, it.order, sc) then (q - it.quantity) * s.products.rows[it.product].price else 0)
  {
    var it := s.items.rows[k];
    var rest := s.items.rows - {k};
    assert s.items.rows[k := it.(quantity := q)] == rest[k := it.(quantity := q)];
    ScopeRemove(s.items.rows, s.orders.rows, s.products.rows, k, sc);
    ScopeInsert(rest, s.orders.rows, s.products.rows, k, it.(quantity := q), sc);
    var price := s.products.rows[it.product].price;
    assert q * price - it.quantity * price == (q - it.quantity) * price;
  }

  /** Editing a quantity (either way) keeps every schema constraint. */
  lemma EditItemKeepsValid(s: Store, k: ItemId, q: int)
    requires Valid(s) && EditItem(s, k, q).Ok?
    ensures Valid(EditItem(s, k, q).value)
  {
    var r := EditItem(s, k, q).value;
    var it := s.items.rows[k];
    var s1 := s.(items := s.items.(rows := s.items.rows[k := it.(quantity := q)]));
    assert s1 == s.(items := r.items);
    QuantityChangeKeepsValid(s, k, q);
    BalanceMoveKeepsValid(s1, r, OwnerOf(s, k), -((q - it.quantity) * s.products.rows[it.product].price));
  }

  /** The corrected edit keeps the ledger balanced. */
  lemma EditItemKeepsLedger(s: Store, k: ItemId, q: int, base: map<MemberId, int>)
    requires Resolves(s, k) && Ledger(s, base)
    requires EditItem(s, k, q).Ok?
    ensures Ledger(EditItem(s, k, q).value, base)
  {
    var r := EditItem(s, k, q).value;
    forall m | m in r.members.rows
      ensures m in base && r.members.rows[m].balance == base[m] - Charged(r, m)
    {
      EditMovesCharge(s, k, q, OfMember(m));
    }
  }

  /**
   * The edit as written keeps the ledger balanced exactly when the charge
   * it skipped, (new - old) times the price, is zero.
   */
  lemma EditItemAsWrittenLedger(s: Store, k: ItemId, q: int, base: map<MemberId, int>)
    requires s.items.Keyed() && Resolves(s, k) && Ledger(s, base)
    requires EditItemAsWritten(s, k, q).Ok?
    ensures var it := s.items.rows[k];
      Ledger(EditItemAsWritten(s, k, q).value, base)
      <==> (q - it.quantity) * s.products.rows[it.product].price == 0
  {
    var r := EditItemAsWritten(s, k, q).value;
    var it := s.items.rows[k];
    var diff := (q - it.quantity) * s.products.rows[it.product].price;
    var owner := OwnerOf(s, k);
    forall m | m in r.members.rows
      ensures r.members.rows[m].balance == s.members.rows[m].balance
      ensures Charged(r, m) == Charged(s, m) + (if m == owner then diff else 0)
    {
      EditMovesCharge(s, k, q, OfMember(m));
    }
    if diff == 0 {
      assert Ledger(r, base);
    } else {
      assert r.members.rows[owner].balance != base[owner] - Charged(r, owner);
    }
  }

  /** The edit as written writes a quantity of at least 1 and nothing else, so it keeps every constraint. */
  lemma EditItemAsWrittenKeepsValid(s: Store, k: ItemId, q: int)
    requires Valid(s) && EditItemAsWritten(s, k, q).Ok?
    ensures Valid(EditItemAsWritten(s, k, q).value)
  {
    QuantityChangeKeepsValid(s, k, q);
  }

  /** Deleting an item keeps every schema constraint. */
  lemma RemoveItemKeepsValid(s: Store, k: ItemId)
    requires Valid(s) && k in s.items.rows
    ensures Valid(RemoveItem(s, k))
  {
    ReshapeKeepsValid(s, RemoveItem(s, k));
  }

  /** Deleting an item keeps the ledger balanced. */
  lemma DeleteItemKeepsLedger(s: Store, k: ItemId, base: map<MemberId, int>)
    requires k in s.items.rows && Resolves(s, k) && Ledger(s, base)
    ensures Ledger(RemoveItem(s, k), base)
  {
    var r := RemoveItem(s, k);
    forall m | m in r.members.rows
      ensures m in base && r.members.rows[m].balance == base[m] - Charged(r, m)
    {
      ScopeRemove(s.items.rows, s.orders.rows, s.products.rows, k, OfMember(m));
    }
  }

  /**
   * Creating an item and deleting it again, with prices unchanged, restores
   * every balance and every row; only the key sequence has moved on.
   */
  lemma CreateThenDeleteRestores(s: Store, o: OrderId, p: ProductId, q: int)
    requires s.items.Keyed() && OwnerKnown(s, o)
    requires CreateItem(s, o, p, q).Ok?
    ensures var r := CreateItem(s, o, p, q).value;
      DeleteItem(r, s.items.next) == Ok(s.(items := s.items.(next := s.items.next + 1)))
  {
    var r := CreateItem(s, o, p, q).value;
    var id := s.items.next;
    var owner := s.orders.rows[o].madeBy;
    var amount := q * s.products.rows[p].price;
    assert r.items.rows[id] == Item(p, o, q);
    assert Resolves(r, id);
    var d := RemoveItem(r, id);
    assert d.items.rows == s.items.rows;
    assert Line(r.items.rows, r.products.rows, id) == amount;
    assert d.members.rows[owner].balance == s.members.rows[owner].balance;
    assert d.members.rows == s.members.rows;
    assert d == s.(items := s.items.(next := s.items.next + 1));
  }
}
