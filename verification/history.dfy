/**
 * Sequences of requests against the store. Each request is one of the
 * modelled operations; a request refused before it writes anything leaves
 * the store as it was. A run uses either the code as written (the edit
 * handler that re-reads the quantity after the write, and the order
 * `create` without a transaction) or the corrected code. The corrected
 * code keeps the ledger balanced over any sequence. The code as written
 * keeps it exactly as long as no edit changes what an item is worth. While
 * the ledger holds, a member's balance depends only on the items that exist
 * at the end, not on the order of the requests that put them there.
 */
module History {
  import opened Models
  import opened Totals
  import opened Signals
  import opened Cascade
  import opened Serializers
  import opened Records

  /** One request. */
  datatype Op =
    | AddLine(order: OrderId, product: ProductId, quantity: int)
    | SetQuantity(item: ItemId, quantity: int)
    | DropLine(item: ItemId)
    | DropOrder(order: OrderId)
    | DropProduct(product: ProductId)
    | PlaceOrder(madeBy: MemberId, now: int, entries: seq<Entry>)
    | AddMember(name: string, email: string, team: TeamId, balance: int)
    | DropMember(member: MemberId)
    | DropTeam(team: TeamId)
    | DropCategory(category: CategoryId)

  /** The code a run executes: the source as written, or with both defects corrected. */
  datatype Build = AsWritten | Corrected

  lemma ValidResolves(s: Store)
    requires Valid(s)
    ensures AllResolve(s)
  {
    forall k | k in s.items.rows
      ensures Resolves(s, k)
    {
    }
  }

  /** Requests on single order items. */
  predicate LineOp(op: Op)
  {
    op.AddLine? || op.SetQuantity? || op.DropLine?
  }

  /** Requests that place orders or delete orders and products. */
  predicate OrderOp(op: Op)
  {
    op.PlaceOrder? || op.DropOrder? || op.DropProduct?
  }

  /** Runs an item request: create, quantity edit (as written or corrected) or delete. */
  function ApplyLine(s: Store, op: Op, b: Build): (r: Store)
    requires Valid(s) && LineOp(op)
    ensures Valid(r) && r.members == s.members.(rows := r.members.rows) && r.members.rows.Keys == s.members.rows.Keys
  {
    match op
    case AddLine(o, p, q) =>
      var c := CreateItem(s, o, p, q);
      if c.Ok? then CreateItemKeepsValid(s, o, p, q); c.value else s
    case SetQuantity(k, q) =>
      if b.AsWritten? then
        var c := EditItemAsWritten(s, k, q);
        if c.Ok? then EditItemAsWrittenKeepsValid(s, k, q); c.value else s
      else
        var c := EditItem(s, k, q);
        if c.Ok? then EditItemKeepsValid(s, k, q); c.value else s
    case DropLine(k) =>
      if k in s.items.rows then RemoveItemKeepsValid(s, k); RemoveItem(s, k) else s
  }

  /** Runs an order request: order creation (as written or atomic), order delete or product delete. */
  function ApplyOrder(s: Store, op: Op, b: Build): (r: Store)
    requires Valid(s) && OrderOp(op)
    ensures Valid(r) && r.members.next == s.members.next && r.members.rows.Keys == s.members.rows.Keys
  {
    ValidResolves(s);
    match op
    case PlaceOrder(m, now, entries) =>
      if b.AsWritten? then
        CreateOrderAsWrittenKeepsLedger(s, m, now, entries, Opening(s));
        CreateOrderAsWritten(s, m, now, entries).store
      else
        var c := CreateOrder(s, m, now, entries);
        if c.Ok? then CreateOrderKeepsLedger(s, m, now, entries, Opening(s)); c.value else s
    case DropOrder(o) =>
      if o in s.orders.rows then DeleteOrderKeepsValid(s, o); DeleteOrder(s, o).value else s
    case DropProduct(p) =>
      if p in s.products.rows then DeleteProductKeepsValid(s, p); DeleteProduct(s, p).value else s
  }

  /** Runs a request on members, teams or categories. */
  function ApplyRecord(s: Store, op: Op): (r: Store)
    requires Valid(s) && !LineOp(op) && !OrderOp(op)
    ensures Valid(r) && r.members.next >= s.members.next
  {
    match op
    case AddMember(name, email, t, balance) =>
      var c := CreateMember(s, name, email, t, balance);
      if c.Ok? then CreateMemberKeepsValid(s, name, email, t, balance); c.value else s
    case DropMember(m) =>
      if m in s.members.rows then DeleteMemberKeepsValid(s, m); DeleteMember(s, m).value else s
    case DropTeam(t) =>
      var c := DeleteTeam(s, t);
      if c.Ok? then DeleteTeamKeepsValid(s, t); c.value else s
    case DropCategory(cat) =>
      var c := DeleteCategory(s, cat);
      if c.Ok? then DeleteCategoryKeepsValid(s, cat); c.value else s
  }

  /**
   * The store after request `op` under build `b`; it keeps every schema
   * constraint, and member keys are only ever added past the counter.
   */
  function Apply(s: Store, op: Op, b: Build): (r: Store)
    requires Valid(s)
    ensures Valid(r)
    ensures r.members.next >= s.members.next
  {
    if LineOp(op) then ApplyLine(s, op, b)
    else if OrderOp(op) then ApplyOrder(s, op, b)
    else ApplyRecord(s, op)
  }

  /**
   * Whether `op` is an accepted quantity edit whose charge, (new - stored)
   * times the price, is not zero: the charge the handler as written skips.
   */
  predicate Drifts(s: Store, op: Op)
  {
    && op.SetQuantity? && op.item in s.items.rows && QuantityOk(op.quantity)
    && s.items.rows[op.item].product in s.products.rows
    && (op.quantity - s.items.rows[op.item].quantity) * s.products.rows[s.items.rows[op.item].product].price != 0
  }

  /** The opening balances after `op`: a new member opens at the balance they were created with, everyone else keeps theirs. */
  function Carry(s: Store, op: Op, base: map<MemberId, int>): map<MemberId, int>
  {
    if op.AddMember? then base[s.members.next := op.balance] else base
  }

  /** A quantity edit under the code as written is `EditItemAsWritten`, or nothing when refused. */
  lemma EditAsWrittenStep(s: Store, k: ItemId, q: int)
    requires Valid(s)
    ensures Resolves(s, k)
    ensures Apply(s, SetQuantity(k, q), AsWritten) == ApplyLine(s, SetQuantity(k, q), AsWritten)
            == if EditItemAsWritten(s, k, q).Ok? then EditItemAsWritten(s, k, q).value else s
  {
    ValidResolves(s);
  }

  /** A quantity edit under the corrected code is `EditItem`, or nothing when refused. */
  lemma EditCorrectedStep(s: Store, k: ItemId, q: int)
    requires Valid(s)
    ensures Resolves(s, k)
    ensures Apply(s, SetQuantity(k, q), Corrected) == ApplyLine(s, SetQuantity(k, q), Corrected)
            == if EditItem(s, k, q).Ok? then EditItem(s, k, q).value else s
  {
    ValidResolves(s);
  }

  /** Whether the as-written edit's outcome keeps the ledger, with only the facts the edit needs in scope. */
  lemma EditOutcomeLedger(s: Store, k: ItemId, q: int, base: map<MemberId, int>)
    requires s.items.Keyed() && Resolves(s, k) && Ledger(s, base)
    ensures Ledger(if EditItemAsWritten(s, k, q).Ok? then EditItemAsWritten(s, k, q).value else s, base)
            <==> !Drifts(s, SetQuantity(k, q))
  {
    if EditItemAsWritten(s, k, q).Ok? {
      EditItemAsWrittenLedger(s, k, q, base);
    }
  }

  /** Under the code as written a quantity edit keeps the ledger exactly when it does not drift. */
  lemma EditAsWrittenLedger(s: Store, k: ItemId, q: int, base: map<MemberId, int>)
    requires Valid(s) && Ledger(s, base)
    ensures Ledger(ApplyLine(s, SetQuantity(k, q), AsWritten), base) <==> !Drifts(s, SetQuantity(k, q))
  {
    EditAsWrittenStep(s, k, q);
    EditOutcomeLedger(s, k, q, base);
  }

  /** Under the corrected code every quantity edit keeps the ledger. */
  lemma EditCorrectedLedger(s: Store, k: ItemId, q: int, base: map<MemberId, int>)
    requires Valid(s) && Ledger(s, base)
    ensures Ledger(ApplyLine(s, SetQuantity(k, q), Corrected), base)
  {
    EditCorrectedStep(s, k, q);
    if EditItem(s, k, q).Ok? {
      EditItemKeepsLedger(s, k, q, base);
    }
  }

  /** An item request keeps the ledger unless it is a drifting edit under the as-written build. */
  lemma LineOpKeepsLedger(s: Store, op: Op, b: Build, base: map<MemberId, int>)
    requires Valid(s) && Ledger(s, base) && LineOp(op)
    ensures Ledger(ApplyLine(s, op, b), base) <==> !(b.AsWritten? && Drifts(s, op))
  {
    match op
    case AddLine(o, p, q) =>
      if CreateItem(s, o, p, q).Ok? {
        CreateItemKeepsLedger(s, o, p, q, base);
      }
    case SetQuantity(k, q) =>
      if b.AsWritten? {
        EditAsWrittenLedger(s, k, q, base);
      } else {
        EditCorrectedLedger(s, k, q, base);
      }
    case DropLine(k) =>
      if k in s.items.rows {
        DeleteItemKeepsLedger(s, k, base);
      }
  }

  /** Every order request keeps the ledger, under either build. */
  lemma OrderOpKeepsLedger(s: Store, op: Op, b: Build, base: map<MemberId, int>)
    requires Valid(s) && Ledger(s, base) && OrderOp(op)
    ensures Ledger(ApplyOrder(s, op, b), base)
  {
    ValidResolves(s);
    match op
    case PlaceOrder(m, now, entries) =>
      if b.AsWritten? {
        CreateOrderAsWrittenKeepsLedger(s, m, now, entries, base);
      } else if CreateOrder(s, m, now, entries).Ok? {
        CreateOrderKeepsLedger(s, m, now, entries, base);
      }
    case DropOrder(o) =>
      if o in s.orders.rows {
        DeleteOrderRefunds(s, o, base);
      }
    case DropProduct(p) =>
      if p in s.products.rows {
        DeleteProductRefunds(s, p, base);
      }
  }

  /** Every record request keeps the ledger against the carried opening balances. */
  lemma RecordOpKeepsLedger(s: Store, op: Op, base: map<MemberId, int>)
    requires Valid(s) && Ledger(s, base) && !LineOp(op) && !OrderOp(op)
    ensures Ledger(ApplyRecord(s, op), Carry(s, op, base))
  {
    match op
    case AddMember(name, email, t, balance) =>
      if CreateMember(s, name, email, t, balance).Ok? {
        CreateMemberKeepsLedger(s, name, email, t, balance, base);
      } else {
        assert s.members.next !in s.members.rows;
      }
    case DropMember(m) =>
      if m in s.members.rows {
        DeleteMemberKeepsLedger(s, m, base);
      }
    case DropTeam(t) =>
    case DropCategory(c) =>
  }

  /**
   * A request keeps the ledger balanced, against the opening balances
   * carried past it, unless it is an edit the handler as written fails to
   * charge: under the corrected build every request keeps it.
   */
  lemma ApplyKeepsLedger(s: Store, op: Op, b: Build, base: map<MemberId, int>)
    requires Valid(s) && Ledger(s, base)
    ensures Ledger(Apply(s, op, b), Carry(s, op, base)) <==> !(b.AsWritten? && Drifts(s, op))
  {
    if LineOp(op) {
      LineOpKeepsLedger(s, op, b, base);
    } else if OrderOp(op) {
      OrderOpKeepsLedger(s, op, b, base);
    } else {
      RecordOpKeepsLedger(s, op, base);
    }
  }

  /** The store after the requests `ops`, in order, under build `b`. */
  function Run(s: Store, ops: seq<Op>, b: Build): (r: Store)
    requires Valid(s)
    ensures Valid(r)
    ensures r.members.next >= s.members.next
    decreases |ops|
  {
    if ops == [] then s else Run(Apply(s, ops[0], b), ops[1..], b)
  }

  /** The opening balances carried through `ops`; members that existed before keep theirs. */
  function Carried(s: Store, ops: seq<Op>, b: Build, base: map<MemberId, int>): (r: map<MemberId, int>)
    requires Valid(s)
    ensures forall m :: m in base && m < s.members.next ==> m in r && r[m] == base[m]
    decreases |ops|
  {
    if ops == [] then base else Carried(Apply(s, ops[0], b), ops[1..], b, Carry(s, ops[0], base))
  }

  /** No request of `ops`, run from `s` under build `b`, is an edit the handler fails to charge. */
  predicate Steady(s: Store, ops: seq<Op>, b: Build)
    requires Valid(s)
    decreases |ops|
  {
    ops == [] || (!(b.AsWritten? && Drifts(s, ops[0])) && Steady(Apply(s, ops[0], b), ops[1..], b))
  }

  /** Under the corrected build every run is steady. */
  lemma {:induction false} CorrectedIsSteady(s: Store, ops: seq<Op>)
    requires Valid(s)
    ensures Steady(s, ops, Corrected)
    decreases |ops|
  {
    if ops != [] {
      CorrectedIsSteady(Apply(s, ops[0], Corrected), ops[1..]);
    }
  }

  /** A run of the code as written with no quantity edit in it is steady. */
  lemma {:induction false} EditFreeIsSteady(s: Store, ops: seq<Op>)
    requires Valid(s)
    requires forall i :: 0 <= i < |ops| ==> !ops[i].SetQuantity?
    ensures Steady(s, ops, AsWritten)
    decreases |ops|
  {
    if ops != [] {
      assert !ops[0].SetQuantity?;
      EditFreeIsSteady(Apply(s, ops[0], AsWritten), ops[1..]);
    }
  }

  /**
   * The ledger invariant holds after any steady sequence of requests: any
   * sequence under the corrected build, and under the code as written any
   * sequence whose edits do not change what an item is worth.
   */
  lemma {:induction false} RunKeepsLedger(s: Store, ops: seq<Op>, b: Build, base: map<MemberId, int>)
    requires Valid(s) && Ledger(s, base) && Steady(s, ops, b)
    ensures Ledger(Run(s, ops, b), Carried(s, ops, b, base))
    decreases |ops|
  {
    if ops != [] {
      ApplyKeepsLedger(s, ops[0], b, base);
      RunKeepsLedger(Apply(s, ops[0], b), ops[1..], b, Carry(s, ops[0], base));
    }
  }

  /**
   * After a steady sequence of requests, a member who was there before and
   * is still there has their old balance, plus what their items were worth
   * before, minus what their items are worth now.
   */
  lemma BalanceFollowsCharges(s: Store, ops: seq<Op>, b: Build, m: MemberId)
    requires Valid(s) && Steady(s, ops, b)
    requires m in s.members.rows && m in Run(s, ops, b).members.rows
    ensures Run(s, ops, b).members.rows[m].balance
            == s.members.rows[m].balance + Charged(s, m) - Charged(Run(s, ops, b), m)
  {
    RunKeepsLedger(s, ops, b, Opening(s));
  }

  /**
   * Two steady request sequences that end with the same items, orders and
   * prices leave every surviving member with the same balance, whatever the
   * order of the requests.
   */
  lemma OrderIndependence(s: Store, ops1: seq<Op>, ops2: seq<Op>, b: Build, m: MemberId)
    requires Valid(s) && Steady(s, ops1, b) && Steady(s, ops2, b) && m in s.members.rows
    requires m in Run(s, ops1, b).members.rows && m in Run(s, ops2, b).members.rows
    requires Run(s, ops1, b).items.rows == Run(s, ops2, b).items.rows
    requires Run(s, ops1, b).orders.rows == Run(s, ops2, b).orders.rows
    requires Run(s, ops1, b).products.rows == Run(s, ops2, b).products.rows
    ensures Run(s, ops1, b).members.rows[m].balance == Run(s, ops2, b).members.rows[m].balance
  {
    BalanceFollowsCharges(s, ops1, b, m);
    BalanceFollowsCharges(s, ops2, b, m);
  }

  /** A run of one request is that request. */
  lemma RunOne(s: Store, op: Op, b: Build)
    requires Valid(s)
    ensures Run(s, [op], b) == Apply(s, op, b)
  {
    assert [op][1..] == [];
  }

  /**
   * A fresh database holding one team, one member, one category, one
   * product priced 250, and one order of the member's with one unit of that
   * product, already charged: the member's balance is -250.
   */
  function OneLineStore(): Store
  {
    var e := EmptyStore();
    e.(teams := e.teams.Insert(Team(1, 0)),
       members := e.members.Insert(Member("ann", "ann@example.org", 1, -250)),
       categories := e.categories.Insert(Category("snacks", "")),
       products := e.products.Insert(Product("crisps", "", 250, 1)),
       orders := e.orders.Insert(Order(0, 1)),
       items := e.items.Insert(Item(1, 1, 1)))
  }

  /** The one-line store keeps every constraint; its item, price, order and balance are as described. */
  lemma OneLineValid()
    ensures Valid(OneLineStore())
    ensures var s := OneLineStore();
      && 1 in s.items.rows && s.items.rows[1] == Item(1, 1, 1)
      && 1 in s.products.rows && s.products.rows[1].price == 250
      && 1 in s.orders.rows && s.orders.rows[1].madeBy == 1
      && 1 in s.members.rows && s.members.rows[1].balance == -250
  {
    var s := OneLineStore();
    assert Keyed(s);
    assert Linked(s);
  }

  /**
   * One accepted quantity edit under the code as written, from any valid
   * store: the quantity is written and no balance moves.
   */
  lemma OneEditAsWritten(s: Store, k: ItemId, q: int)
    requires Valid(s) && k in s.items.rows && QuantityOk(q)
    ensures Run(s, [SetQuantity(k, q)], AsWritten).items.rows == s.items.rows[k := s.items.rows[k].(quantity := q)]
    ensures Run(s, [SetQuantity(k, q)], AsWritten).members == s.members
  {
    RunOne(s, SetQuantity(k, q), AsWritten);
    EditAsWrittenStep(s, k, q);
  }

  /** A request that drifts under the code as written leaves the ledger broken and its run unsteady. */
  lemma DriftBreaksLedger(s: Store, op: Op)
    requires Valid(s) && Drifts(s, op)
    ensures !Steady(s, [op], AsWritten)
    ensures !Ledger(Run(s, [op], AsWritten), Opening(s))
  {
    RunOne(s, op, AsWritten);
    ApplyKeepsLedger(s, op, AsWritten, Opening(s));
  }

  /**
   * Editing the one-line store's item to 3 units: the code as written
   * leaves the balance at -250 although the order now holds 750 worth of
   * items, so the ledger breaks; the corrected code charges the 500 the two
   * new units cost.
   */
  lemma EditOneLine()
    ensures Valid(OneLineStore())
    ensures Drifts(OneLineStore(), SetQuantity(1, 3))
    ensures !Steady(OneLineStore(), [SetQuantity(1, 3)], AsWritten)
    ensures Run(OneLineStore(), [SetQuantity(1, 3)], AsWritten).members.rows[1].balance == -250
    ensures Run(OneLineStore(), [SetQuantity(1, 3)], Corrected).members.rows[1].balance == -750
  {
    OneLineValid();
    OneEditAsWritten(OneLineStore(), 1, 3);
    RunOne(OneLineStore(), SetQuantity(1, 3), Corrected);
    EditCorrectedStep(OneLineStore(), 1, 3);
    DriftBreaksLedger(OneLineStore(), SetQuantity(1, 3));
  }
}
