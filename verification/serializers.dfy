/**
 * Placing an order through the order serializer: the request names the
 * member who orders and a list of (product, quantity) entries. After
 * validation, `create` inserts the order row and then one item row per
 * entry; each item insert fires the save handler, which charges the member.
 */
module Serializers {
  import opened Models
  import opened Totals
  import opened Signals

  /** One requested line of an order. */
  datatype Entry = Entry(product: ProductId, quantity: int)

  /** What the entries cost at the current prices; an unknown product contributes nothing. */
  function EntriesTotal(products: map<ProductId, Product>, entries: seq<Entry>): int
  {
    if entries == [] then 0
    else
      (if entries[0].product in products then entries[0].quantity * products[entries[0].product].price else 0)
      + EntriesTotal(products, entries[1..])
  }

  /** An entry the item serializer accepts: the product exists and the quantity is in range. */
  predicate EntryOk(products: map<ProductId, Product>, e: Entry)
  {
    e.product in products && QuantityOk(e.quantity)
  }

  /** Every entry is acceptable. */
  predicate AllOk(products: map<ProductId, Product>, entries: seq<Entry>)
  {
    forall i :: 0 <= i < |entries| ==> EntryOk(products, entries[i])
  }

  /** Field validation of the nested item list; the first bad entry decides the error. */
  function CheckEntries(products: map<ProductId, Product>, entries: seq<Entry>): (r: Outcome)
    ensures r.Pass? <==> AllOk(products, entries)
    ensures r.Fail? ==> r.error in {NoSuchProduct, QuantityBelowOne, QuantityAboveMax}
    decreases |entries|
  {
    if entries == [] then Pass
    else if entries[0].product !in products then Fail(NoSuchProduct)
    else if entries[0].quantity < 1 then Fail(QuantityBelowOne)
    else if entries[0].quantity > MaxQuantity then Fail(QuantityAboveMax)
    else
      CheckEntries(products, entries[1..])
  }

  /** Validation of a whole request: the ordering member must exist, then every entry must pass. */
  function ValidateOrder(s: Store, madeBy: MemberId, entries: seq<Entry>): (r: Outcome)
    ensures r.Pass? <==> madeBy in s.members.rows && AllOk(s.products.rows, entries)
    ensures r.Fail? ==> r.error in {NoSuchMember, NoSuchProduct, QuantityBelowOne, QuantityAboveMax}
  {
    if madeBy !in s.members.rows then Fail(NoSuchMember) else CheckEntries(s.products.rows, entries)
  }

  /** No product is requested twice. */
  predicate Distinct(entries: seq<Entry>)
  {
    forall i, j :: 0 <= i < j < |entries| ==> entries[i].product != entries[j].product
  }

  /** No requested product already has a line in order `o`. */
  predicate Fresh(items: map<ItemId, Item>, o: OrderId, entries: seq<Entry>)
  {
    forall i :: 0 <= i < |entries| ==> !HasLine(items, o, entries[i].product)
  }

  /** No entry asks for product `p`. */
  predicate Avoids(entries: seq<Entry>, p: ProductId)
  {
    forall i :: 0 <= i < |entries| ==> entries[i].product != p
  }

  /** The state the database is left in, and whether the call returned or raised. */
  datatype Attempt = Attempt(store: Store, outcome: Outcome)

  /**
   * The item loop of `create`: one item insert per entry, in order. The
   * first insert that fails raises, and the rows written before it stay.
   */
  function AddItems(s: Store, o: OrderId, entries: seq<Entry>): (a: Attempt)
    requires s.items.Keyed() && OwnerKnown(s, o)
    ensures a.store.items.Keyed()
    ensures a.store == s.(items := a.store.items, members := a.store.members)
    ensures a.store.members.next == s.members.next && a.store.members.rows.Keys == s.members.rows.Keys
    ensures a.outcome.Pass? ==> a.store.items.next == s.items.next + |entries|
    decreases |entries|
  {
    if entries == [] then Attempt(s, Pass)
    else
      match CreateItem(s, o, entries[0].product, entries[0].quantity)
      case Err(e) => Attempt(s, Fail(e))
      case Ok(s1) => AddItems(s1, o, entries[1..])
  }

  /**
   * `create` as written: validation runs first and writes nothing when it
   * fails; then the order row is inserted under the next key and the items
   * follow, with no transaction around them. The final `order.save()`
   * changes no field and is not modelled.
   */
  function CreateOrderAsWritten(s: Store, madeBy: MemberId, now: int, entries: seq<Entry>): (a: Attempt)
    requires s.orders.Keyed() && s.items.Keyed()
    ensures ValidateOrder(s, madeBy, entries).Fail? ==> a == Attempt(s, ValidateOrder(s, madeBy, entries))
    ensures ValidateOrder(s, madeBy, entries).Pass? ==> a.store.orders == s.orders.Insert(Order(now, madeBy))
  {
    var v := ValidateOrder(s, madeBy, entries);
    if v.Fail? then Attempt(s, v)
    else
      AddItems(Placed(s, madeBy, now), s.orders.next, entries)
  }

  /**
   * `create` as it is evidently meant to behave: all or nothing. If any item
   * insert fails, the order row and the items written before it are rolled
   * back and the store is left as it was.
   */
  function CreateOrder(s: Store, madeBy: MemberId, now: int, entries: seq<Entry>): (r: Result<Store>)
    requires s.orders.Keyed() && s.items.Keyed()
    ensures r.Ok? <==> CreateOrderAsWritten(s, madeBy, now, entries).outcome.Pass?
    ensures r.Ok? ==> r.value == CreateOrderAsWritten(s, madeBy, now, entries).store
    ensures r.Ok? ==>
      && r.value.orders == s.orders.Insert(Order(now, madeBy))
      && r.value.items.next == s.items.next + |entries|
  {
    var a := CreateOrderAsWritten(s, madeBy, now, entries);
    if a.outcome.Fail? then Err(a.outcome.error) else Ok(a.store)
  }

  /** Every entry passes exactly when the first one does and the rest all pass. */
  lemma AllOkCons(products: map<ProductId, Product>, entries: seq<Entry>)
    requires entries != []
    ensures AllOk(products, entries) <==> EntryOk(products, entries[0]) && AllOk(products, entries[1..])
  {
    if EntryOk(products, entries[0]) && AllOk(products, entries[1..]) {
      forall i | 1 <= i < |entries|
        ensures EntryOk(products, entries[i])
      {
        assert entries[i] == entries[1..][i - 1];
      }
    }
  }

  /** Entries name distinct products exactly when the first product does not recur and the rest are distinct. */
  lemma DistinctCons(entries: seq<Entry>)
    requires entries != []
    ensures Distinct(entries) <==> Avoids(entries[1..], entries[0].product) && Distinct(entries[1..])
  {
    var rest := entries[1..];
    if Avoids(rest, entries[0].product) && Distinct(rest) {
      forall i, j | 0 <= i < j < |entries|
        ensures entries[i].product != entries[j].product
      {
        assert entries[j] == rest[j - 1];
        if i > 0 {
          assert entries[i] == rest[i - 1];
        }
      }
    }
    if Distinct(entries) {
      forall i, j | 0 <= i < j < |rest|
        ensures rest[i].product != rest[j].product
      {
        assert rest[i] == entries[i + 1] && rest[j] == entries[j + 1];
      }
      forall i | 0 <= i < |rest|
        ensures rest[i].product != entries[0].product
      {
        assert rest[i] == entries[i + 1];
      }
    }
  }

  /** Entries are new to the order exactly when the first one is and the rest are. */
  lemma FreshCons(items: map<ItemId, Item>, o: OrderId, entries: seq<Entry>)
    requires entries != []
    ensures Fresh(items, o, entries) <==> !HasLine(items, o, entries[0].product) && Fresh(items, o, entries[1..])
  {
    if !HasLine(items, o, entries[0].product) && Fresh(items, o, entries[1..]) {
      forall i | 1 <= i < |entries|
        ensures !HasLine(items, o, entries[i].product)
      {
        assert entries[i] == entries[1..][i - 1];
      }
    }
  }

  /** Inserting a row adds exactly its own (order, product) pair to the lines present. */
  lemma HasLineInsert(items: map<ItemId, Item>, id: ItemId, it: Item, o: OrderId, p: ProductId)
    requires id !in items
    ensures HasLine(items[id := it], o, p) <==> HasLine(items, o, p) || (it.order == o && it.product == p)
  {
    var after := items[id := it];
    if HasLine(items, o, p) {
      var k :| k in items && items[k].order == o && items[k].product == p;
      assert k in after && after[k] == items[k];
    }
    if HasLine(after, o, p) && !(it.order == o && it.product == p) {
      var k :| k in after && after[k].order == o && after[k].product == p;
      assert k in items;
    }
    if it.order == o && it.product == p {
      assert id in after;
    }
  }

  lemma FreshInsert(items: map<ItemId, Item>, id: ItemId, it: Item, o: OrderId, entries: seq<Entry>)
    requires id !in items && it.order == o
    ensures Fresh(items[id := it], o, entries) <==> Fresh(items, o, entries) && Avoids(entries, it.product)
  {
    forall i | 0 <= i < |entries|
      ensures HasLine(items[id := it], o, entries[i].product)
              <==> HasLine(items, o, entries[i].product) || entries[i].product == it.product
    {
      HasLineInsert(items, id, it, o, entries[i].product);
    }
  }

  /**
   * The item loop runs to the end exactly when every entry is acceptable,
   * no product is requested twice and none already has a line in the order;
   * with acceptable entries, the only way it stops early is on a repeated
   * (product, order) pair.
   */
  lemma {:induction false} AddItemsPass(s: Store, o: OrderId, entries: seq<Entry>)
    requires s.items.Keyed() && OwnerKnown(s, o) && o in s.orders.rows
    ensures AddItems(s, o, entries).outcome.Pass?
            <==> AllOk(s.products.rows, entries) && Distinct(entries) && Fresh(s.items.rows, o, entries)
    ensures AllOk(s.products.rows, entries) && AddItems(s, o, entries).outcome.Fail?
            ==> AddItems(s, o, entries).outcome.error == DuplicateProductInOrder
    decreases |entries|
  {
    if entries != [] {
      var e := entries[0];
      var rest := entries[1..];
      AllOkCons(s.products.rows, entries);
      DistinctCons(entries);
      FreshCons(s.items.rows, o, entries);
      var c := CreateItem(s, o, e.product, e.quantity);
      if c.Ok? {
        AddItemsPass(c.value, o, rest);
        FreshInsert(s.items.rows, s.items.next, Item(e.product, o, e.quantity), o, rest);
      } else {
        assert !EntryOk(s.products.rows, e) || HasLine(s.items.rows, o, e.product);
      }
    }
  }

  /** The item rows an entry list turns into when written under consecutive keys from `from`. */
  function Lines(from: nat, o: OrderId, entries: seq<Entry>): (r: map<ItemId, Item>)
    ensures forall k :: k in r ==> from <= k < from + |entries| && r[k].order == o
    decreases |entries|
  {
    if entries == [] then map[]
    else Lines(from + 1, o, entries[1..])[from := Item(entries[0].product, o, entries[0].quantity)]
  }

  /** Entry `j` is written under key `from + j`, with its product and quantity. */
  lemma {:induction false} LinesAt(from: nat, o: OrderId, entries: seq<Entry>, j: nat)
    requires j < |entries|
    ensures from + j in Lines(from, o, entries)
    ensures Lines(from, o, entries)[from + j] == Item(entries[j].product, o, entries[j].quantity)
    decreases j
  {
    if j > 0 {
      LinesAt(from + 1, o, entries[1..], j - 1);
      assert entries[1..][j - 1] == entries[j];
    }
  }

  /** Writing key k into the right-hand map of a merge equals writing it after the merge, when k is new there. */
  lemma UpdateBeforeMerge(a: map<ItemId, Item>, b: map<ItemId, Item>, k: ItemId, v: Item)
    requires k !in b
    ensures a + b[k := v] == a[k := v] + b
  {
  }

  /** A completed loop adds exactly the entries' rows under the next keys; rows already present are left alone. */
  lemma {:induction false} AddItemsRows(s: Store, o: OrderId, entries: seq<Entry>)
    requires s.items.Keyed() && OwnerKnown(s, o) && AddItems(s, o, entries).outcome.Pass?
    ensures AddItems(s, o, entries).store.items.rows == s.items.rows + Lines(s.items.next, o, entries)
    decreases |entries|
  {
    if entries != [] {
      var e := entries[0];
      var it := Item(e.product, o, e.quantity);
      assert CreateItem(s, o, e.product, e.quantity).Ok?;
      var s1 := CreateItem(s, o, e.product, e.quantity).value;
      AddItemsRows(s1, o, entries[1..]);
      UpdateBeforeMerge(s.items.rows, Lines(s.items.next + 1, o, entries[1..]), s.items.next, it);
    }
  }

  /** Started on an order with no items, a completed loop leaves the order holding exactly the new rows. */
  lemma AddItemsOwnRows(s: Store, o: OrderId, entries: seq<Entry>)
    requires s.items.Keyed() && OwnerKnown(s, o) && AddItems(s, o, entries).outcome.Pass?
    requires ItemsOf(s, o) == {}
    ensures ItemsOf(AddItems(s, o, entries).store, o) == Lines(s.items.next, o, entries).Keys
  {
    var r := AddItems(s, o, entries).store;
    var added := Lines(s.items.next, o, entries);
    AddItemsRows(s, o, entries);
    forall k | k in r.items.rows && k !in added
      ensures r.items.rows[k].order != o
    {
      assert k !in ItemsOf(s, o);
    }
  }

  /** Every item insert keeps every schema constraint, so the loop does too, wherever it stops. */
  lemma {:induction false} AddItemsKeepsValid(s: Store, o: OrderId, entries: seq<Entry>)
    requires Valid(s)
    ensures Valid(AddItems(s, o, entries).store)
    decreases |entries|
  {
    if entries != [] {
      var e := entries[0];
      var c := CreateItem(s, o, e.product, e.quantity);
      if c.Ok? {
        CreateItemKeepsValid(s, o, e.product, e.quantity);
        AddItemsKeepsValid(c.value, o, entries[1..]);
      }
    }
  }

  /** Every item insert keeps the ledger balanced, so the loop does too, wherever it stops. */
  lemma {:induction false} AddItemsKeepsLedger(s: Store, o: OrderId, entries: seq<Entry>, base: map<MemberId, int>)
    requires s.items.Keyed() && OwnerKnown(s, o) && Ledger(s, base)
    ensures Ledger(AddItems(s, o, entries).store, base)
    decreases |entries|
  {
    if entries != [] {
      var e := entries[0];
      var c := CreateItem(s, o, e.product, e.quantity);
      if c.Ok? {
        CreateItemKeepsLedger(s, o, e.product, e.quantity, base);
        AddItemsKeepsLedger(c.value, o, entries[1..], base);
      }
    }
  }

  /** A completed loop adds the entries' cost to every total the order falls in. */
  lemma {:induction false} AddItemsTotals(s: Store, o: OrderId, entries: seq<Entry>, sc: Scope)
    requires s.items.Keyed() && OwnerKnown(s, o) && AddItems(s, o, entries).outcome.Pass?
    ensures var r := AddItems(s, o, entries).store;
      ScopeTotal(r.items.rows, r.orders.rows, r.products.rows, sc)
      == ScopeTotal(s.items.rows, s.orders.rows, s.products.rows, sc)
         + (if InScope(s.orders.rows, o, sc) then EntriesTotal(s.products.rows, entries) else 0)
    decreases |entries|
  {
    if entries != [] {
      var e := entries[0];
      assert CreateItem(s, o, e.product, e.quantity).Ok?;
      CreateItemAddsLine(s, o, e.product, e.quantity, sc);
      AddItemsTotals(CreateItem(s, o, e.product, e.quantity).value, o, entries[1..], sc);
    }
  }

  /** Two balance moves for the same member compose into one move by their sum. */
  lemma BalanceMovesAdd(s: Store, t: Store, r: Store, m: MemberId, d1: int, d2: int)
    requires BalanceMoved(s, t, m, d1) && BalanceMoved(t, r, m, d2)
    ensures BalanceMoved(s, r, m, d1 + d2)
  {
  }

  /** A completed loop charges the entries' cost to the member who made the order, and no one else. */
  lemma {:induction false} AddItemsCharges(s: Store, o: OrderId, entries: seq<Entry>)
    requires s.items.Keyed() && OwnerKnown(s, o) && o in s.orders.rows
    requires AddItems(s, o, entries).outcome.Pass?
    ensures BalanceMoved(s, AddItems(s, o, entries).store, s.orders.rows[o].madeBy, -EntriesTotal(s.products.rows, entries))
    decreases |entries|
  {
    var m := s.orders.rows[o].madeBy;
    if entries == [] {
      assert BalanceMoved(s, s, m, 0);
    } else {
      var e := entries[0];
      assert CreateItem(s, o, e.product, e.quantity).Ok?;
      var s1 := CreateItem(s, o, e.product, e.quantity).value;
      AddItemsCharges(s1, o, entries[1..]);
      BalanceMovesAdd(s, s1, AddItems(s1, o, entries[1..]).store, m,
        -(e.quantity * s.products.rows[e.product].price), -EntriesTotal(s.products.rows, entries[1..]));
    }
  }

  /** The store with the new order row written and no items yet. */
  function Placed(s: Store, madeBy: MemberId, now: int): (r: Store)
    requires s.orders.Keyed()
    ensures r.orders.rows == s.orders.rows[s.orders.next := Order(now, madeBy)]
  {
    s.(orders := s.orders.Insert(Order(now, madeBy)))
  }

  /** In a valid store no item belongs to the order key not yet handed out. */
  lemma NextOrderIsEmpty(s: Store, entries: seq<Entry>)
    requires Valid(s)
    ensures ItemsOf(s, s.orders.next) == {}
    ensures Fresh(s.items.rows, s.orders.next, entries)
  {
    forall k | k in s.items.rows
      ensures s.items.rows[k].order != s.orders.next
    {
      assert s.items.rows[k].order in s.orders.rows;
    }
  }

  /** Writing the order row keeps every constraint and every member's charges. */
  lemma PlacedKeepsLedger(s: Store, madeBy: MemberId, now: int, base: map<MemberId, int>)
    requires Valid(s) && madeBy in s.members.rows
    ensures Valid(Placed(s, madeBy, now))
    ensures Ledger(s, base) ==> Ledger(Placed(s, madeBy, now), base)
    ensures OrderTotal(Placed(s, madeBy, now), s.orders.next) == 0
  {
    var r := Placed(s, madeBy, now);
    InsertOrderKeepsValid(s, Order(now, madeBy));
    NextOrderIsEmpty(s, []);
    assert ScopeIds(r.items.rows, r.orders.rows, OfOrder(s.orders.next)) == {};
    forall m | m in s.members.rows
      ensures Charged(r, m) == Charged(s, m)
    {
      forall k | k in s.items.rows
        ensures InScope(r.orders.rows, s.items.rows[k].order, OfMember(m)) == InScope(s.orders.rows, s.items.rows[k].order, OfMember(m))
      {
        assert s.items.rows[k].order in s.orders.rows;
      }
      assert ScopeIds(r.items.rows, r.orders.rows, OfMember(m)) == ScopeIds(s.items.rows, s.orders.rows, OfMember(m));
    }
  }

  /**
   * On a valid store the all-or-nothing `create` succeeds exactly when the
   * member exists, every entry is acceptable and no product is requested
   * twice; a repeated product is reported as a duplicate line.
   */
  lemma CreateOrderAccepts(s: Store, madeBy: MemberId, now: int, entries: seq<Entry>)
    requires Valid(s)
    ensures var r := CreateOrder(s, madeBy, now, entries);
      && (r.Ok? <==> madeBy in s.members.rows && AllOk(s.products.rows, entries) && Distinct(entries))
      && (r.Err? && ValidateOrder(s, madeBy, entries).Fail? ==> r.error == ValidateOrder(s, madeBy, entries).error)
      && (r.Err? && ValidateOrder(s, madeBy, entries).Pass? ==> r.error == DuplicateProductInOrder)
  {
    if ValidateOrder(s, madeBy, entries).Pass? {
      NextOrderIsEmpty(s, entries);
      AddItemsPass(Placed(s, madeBy, now), s.orders.next, entries);
    }
  }

  /**
   * A placed order holds one item per entry, written under new keys in
   * entry order (`LinesAt`), and nothing else; items already present are
   * left alone.
   */
  lemma CreateOrderPlaces(s: Store, madeBy: MemberId, now: int, entries: seq<Entry>, r: Store)
    requires Valid(s) && CreateOrder(s, madeBy, now, entries) == Ok(r)
    ensures r.items.rows == s.items.rows + Lines(s.items.next, s.orders.next, entries)
    ensures s.items.rows.Keys !! Lines(s.items.next, s.orders.next, entries).Keys
    ensures ItemsOf(r, s.orders.next) == Lines(s.items.next, s.orders.next, entries).Keys
  {
    var p := Placed(s, madeBy, now);
    assert ValidateOrder(s, madeBy, entries).Pass?;
    assert p.items == s.items && r == AddItems(p, s.orders.next, entries).store;
    NextOrderIsEmpty(s, entries);
    AddItemsRows(p, s.orders.next, entries);
    AddItemsOwnRows(p, s.orders.next, entries);
  }

  /** Placing an order keeps every constraint and the ledger. */
  lemma CreateOrderKeepsLedger(s: Store, madeBy: MemberId, now: int, entries: seq<Entry>, base: map<MemberId, int>)
    requires Valid(s) && Ledger(s, base) && CreateOrder(s, madeBy, now, entries).Ok?
    ensures var r := CreateOrder(s, madeBy, now, entries).value;
      Valid(r) && Ledger(r, base)
  {
    var p := Placed(s, madeBy, now);
    PlacedKeepsLedger(s, madeBy, now, base);
    AddItemsKeepsValid(p, s.orders.next, entries);
    AddItemsKeepsLedger(p, s.orders.next, entries, base);
  }

  /**
   * Wherever the unguarded `create` stops, the rows it left behind keep
   * every constraint and the ledger: each item it wrote was charged, and
   * the order row alone charges nothing.
   */
  lemma CreateOrderAsWrittenKeepsLedger(s: Store, madeBy: MemberId, now: int, entries: seq<Entry>, base: map<MemberId, int>)
    requires Valid(s) && Ledger(s, base)
    ensures var a := CreateOrderAsWritten(s, madeBy, now, entries);
      && Valid(a.store) && Ledger(a.store, base)
      && a.store.members.next == s.members.next && a.store.members.rows.Keys == s.members.rows.Keys
  {
    if ValidateOrder(s, madeBy, entries).Pass? {
      var p := Placed(s, madeBy, now);
      PlacedKeepsLedger(s, madeBy, now, base);
      AddItemsKeepsValid(p, s.orders.next, entries);
      AddItemsKeepsLedger(p, s.orders.next, entries, base);
    }
  }

  /**
   * The placed order's total is the entries' cost at the current prices,
   * and exactly that is charged to the member who made it.
   */
  lemma CreateOrderCharges(s: Store, madeBy: MemberId, now: int, entries: seq<Entry>)
    requires Valid(s) && CreateOrder(s, madeBy, now, entries).Ok?
    ensures var r := CreateOrder(s, madeBy, now, entries).value;
      && OrderTotal(r, s.orders.next) == EntriesTotal(s.products.rows, entries)
      && BalanceMoved(s, r, madeBy, -EntriesTotal(s.products.rows, entries))
  {
    var o := s.orders.next;
    var p := Placed(s, madeBy, now);
    PlacedKeepsLedger(s, madeBy, now, map[]);
    AddItemsTotals(p, o, entries, OfOrder(o));
    AddItemsCharges(p, o, entries);
  }

  /** An order with no entries is placed empty: its total is 0 and no balance moves. */
  lemma CreateOrderEmpty(s: Store, madeBy: MemberId, now: int)
    requires Valid(s) && madeBy in s.members.rows
    ensures CreateOrder(s, madeBy, now, []) == Ok(Placed(s, madeBy, now))
    ensures OrderTotal(Placed(s, madeBy, now), s.orders.next) == 0
  {
    PlacedKeepsLedger(s, madeBy, now, map[]);
  }

  /** Without a repeated product the unguarded `create` is already all or nothing. */
  lemma AsWrittenAgreesWhenDistinct(s: Store, madeBy: MemberId, now: int, entries: seq<Entry>)
    requires Valid(s) && Distinct(entries)
    ensures var a := CreateOrderAsWritten(s, madeBy, now, entries);
      && (a.outcome.Pass? <==> ValidateOrder(s, madeBy, entries).Pass?)
      && (a.outcome.Fail? ==> a.store == s)
      && (a.outcome.Pass? ==> CreateOrder(s, madeBy, now, entries) == Ok(a.store))
  {
    CreateOrderAccepts(s, madeBy, now, entries);
  }

  /**
   * With a repeated product the unguarded `create` raises on the repeat,
   * yet the order row stays written (and the items before the repeat stay
   * charged); the all-or-nothing version reports the same error and writes
   * nothing.
   */
  lemma PartialOrderOnDuplicate(s: Store, madeBy: MemberId, now: int, entries: seq<Entry>, base: map<MemberId, int>)
    requires Valid(s) && Ledger(s, base)
    requires ValidateOrder(s, madeBy, entries).Pass? && !Distinct(entries)
    ensures var a := CreateOrderAsWritten(s, madeBy, now, entries);
      && a.outcome == Fail(DuplicateProductInOrder)
      && s.orders.next in a.store.orders.rows && s.orders.next !in s.orders.rows
      && Valid(a.store) && Ledger(a.store, base)
      && CreateOrder(s, madeBy, now, entries) == Err(DuplicateProductInOrder)
  {
    var p := Placed(s, madeBy, now);
    CreateOrderAccepts(s, madeBy, now, entries);
    PlacedKeepsLedger(s, madeBy, now, base);
    NextOrderIsEmpty(s, entries);
    AddItemsPass(p, s.orders.next, entries);
    AddItemsKeepsValid(p, s.orders.next, entries);
    AddItemsKeepsLedger(p, s.orders.next, entries, base);
  }
}
