/**
 * The shop's records -- teams, team members, categories, products, orders and
 * order items -- and the constraints the schema places on them.
 *
 * Money is counted in integer cents (every amount in the schema is a decimal
 * with two places). Each table hands out auto-increment primary keys starting
 * at 1, so a key is never reused after its row is deleted.
 */
module Models {

  type TeamId = nat
  type MemberId = nat
  type CategoryId = nat
  type ProductId = nat
  type OrderId = nat
  type ItemId = nat

  /** A team: a unique number and a start date (days since an epoch). */
  datatype Team = Team(number: nat, startDate: int)

  /** A team member; `balance` is the member's running account in cents. */
  datatype Member = Member(name: string, email: string, team: TeamId, balance: int)

  datatype Category = Category(name: string, icon: string)

  /** A catalog product; its image is not modelled. */
  datatype Product = Product(name: string, description: string, price: int, category: CategoryId)

  /** An order: the time it was placed and the member who made it. */
  datatype Order = Order(datetime: int, madeBy: MemberId)

  /** One line of an order: `quantity` units of `product`. */
  datatype Item = Item(product: ProductId, order: OrderId, quantity: int)

  /** A database table: rows by primary key and the next key its sequence hands out. */
  datatype Table<T> = Table(rows: map<nat, T>, next: nat)
  {
    /** Every key came from the sequence: keys are positive and below `next`. */
    predicate Keyed()
    {
      1 <= next && forall k :: k in rows ==> 1 <= k < next
    }

    /** Inserts `v` under the next key and advances the sequence. */
    function Insert(v: T): (t: Table<T>)
      requires Keyed()
      ensures t.Keyed()
      ensures next !in rows && t.rows == rows[next := v] && t.next == next + 1
    {
      Table(rows[next := v], next + 1)
    }
  }

  /**
   * The largest quantity an item may hold. Django gives a positive integer
   * field a MaxValueValidator from its database backend's integer range.
   * This is PostgreSQL's range, 2147483647. MySQL stores the field as an
   * unsigned column and allows up to 4294967295.
   */
  const MaxQuantity: int := 2147483647

  /** A quantity both the declared MinValueValidator(1) and the range validator accept. */
  predicate QuantityOk(q: int)
  {
    1 <= q <= MaxQuantity
  }

  /** Why the database or the request validation rejects a write. */
  datatype Error =
    | NoSuchMember
    | NoSuchOrder
    | NoSuchProduct
    | NoSuchItem
    | NoSuchTeam
    | NoSuchCategory
    | QuantityBelowOne         // MinValueValidator(1) on the item quantity
    | QuantityAboveMax         // the range validator of the integer column
    | DuplicateProductInOrder  // unique (product, order) pair
    | DuplicateMemberName      // unique (name, team) pair
    | TeamHasMembers           // RESTRICT from member to team
    | CategoryHasProducts      // RESTRICT from product to category

  datatype Result<T> = Ok(value: T) | Err(error: Error)

  datatype Outcome = Pass | Fail(error: Error)

  /** The whole database. */
  datatype Store = Store(
    teams: Table<Team>,
    members: Table<Member>,
    categories: Table<Category>,
    products: Table<Product>,
    orders: Table<Order>,
    items: Table<Item>)

  /** All keys were handed out by their table's sequence. */
  predicate Keyed(s: Store)
  {
    && s.teams.Keyed() && s.members.Keyed() && s.categories.Keyed()
    && s.products.Keyed() && s.orders.Keyed() && s.items.Keyed()
  }

  /** Every foreign key points at an existing row. */
  predicate Linked(s: Store)
  {
    && (forall m :: m in s.members.rows ==> s.members.rows[m].team in s.teams.rows)
    && (forall p :: p in s.products.rows ==> s.products.rows[p].category in s.categories.rows)
    && (forall o :: o in s.orders.rows ==> s.orders.rows[o].madeBy in s.members.rows)
    && (forall k :: k in s.items.rows ==>
          s.items.rows[k].order in s.orders.rows && s.items.rows[k].product in s.products.rows)
  }

  /** Every order item has a quantity of at least one. */
  predicate PositiveQuantities(items: map<ItemId, Item>)
  {
    forall k :: k in items ==> items[k].quantity >= 1
  }

  /** No two items of one order are for the same product. */
  predicate OneLinePerProduct(items: map<ItemId, Item>)
  {
    forall a, b :: a in items && b in items && a != b ==>
      items[a].product != items[b].product || items[a].order != items[b].order
  }

  /** No two members of one team share a name. */
  predicate UniqueNamesPerTeam(members: map<MemberId, Member>)
  {
    forall a, b :: a in members && b in members && a != b ==>
      members[a].name != members[b].name || members[a].team != members[b].team
  }

  /** No two teams share a number. */
  predicate UniqueTeamNumbers(teams: map<TeamId, Team>)
  {
    forall a, b :: a in teams && b in teams && a != b ==> teams[a].number != teams[b].number
  }

  /** No two categories share a name. */
  predicate UniqueCategoryNames(categories: map<CategoryId, Category>)
  {
    forall a, b :: a in categories && b in categories && a != b ==>
      categories[a].name != categories[b].name
  }

  /** The constraints the schema enforces on every committed state. */
  predicate Valid(s: Store)
  {
    && Keyed(s)
    && Linked(s)
    && PositiveQuantities(s.items.rows)
    && OneLinePerProduct(s.items.rows)
    && UniqueNamesPerTeam(s.members.rows)
    && UniqueTeamNumbers(s.teams.rows)
    && UniqueCategoryNames(s.categories.rows)
  }

  /** A fresh database. */
  function EmptyStore(): (s: Store)
    ensures Valid(s)
    ensures s.members.rows == map[] && s.items.rows == map[]
  {
    Store(Table(map[], 1), Table(map[], 1), Table(map[], 1),
          Table(map[], 1), Table(map[], 1), Table(map[], 1))
  }

  /** Whether order `o` already has a line for product `p`. */
  predicate HasLine(items: map<ItemId, Item>, o: OrderId, p: ProductId)
  {
    exists k :: k in items && items[k].order == o && items[k].product == p
  }

  /** Which items a total ranges over: one order's, or all the orders of one member. */
  datatype Scope = OfOrder(order: OrderId) | OfMember(member: MemberId)

  /** Whether the items of order `o` fall in scope `sc`. */
  predicate InScope(orders: map<OrderId, Order>, o: OrderId, sc: Scope)
  {
    match sc
    case OfOrder(x) => x == o
    case OfMember(m) => o in orders && orders[o].madeBy == m
  }

  /** The keys of the items in scope `sc`. */
  function ScopeIds(items: map<ItemId, Item>, orders: map<OrderId, Order>, sc: Scope): set<ItemId>
  {
    set k | k in items && InScope(orders, items[k].order, sc)
  }

  /** The keys of the items of order `o`. */
  function ItemsOf(s: Store, o: OrderId): set<ItemId>
  {
    ScopeIds(s.items.rows, s.orders.rows, OfOrder(o))
  }

  /** `r` has the same members as `s`, with the same names and teams; only balances may differ. */
  predicate SameProfiles(s: Store, r: Store)
  {
    && r.members.next == s.members.next
    && r.members.rows.Keys == s.members.rows.Keys
    && forall m :: m in s.members.rows ==>
         r.members.rows[m].name == s.members.rows[m].name && r.members.rows[m].team == s.members.rows[m].team
  }

  /** Moving balances and dropping items, with every other table untouched, keeps every constraint. */
  lemma ReshapeKeepsValid(s: Store, r: Store)
    requires Valid(s) && SameProfiles(s, r)
    requires r.teams == s.teams && r.categories == s.categories
    requires r.products == s.products && r.orders == s.orders
    requires r.items.next == s.items.next
    requires forall k :: k in r.items.rows ==> k in s.items.rows && r.items.rows[k] == s.items.rows[k]
    ensures Valid(r)
  {
    assert Keyed(r);
    assert Linked(r);
    assert UniqueNamesPerTeam(r.members.rows);
    assert OneLinePerProduct(r.items.rows);
  }

  /** Setting a positive quantity on an existing item keeps every constraint. */
  lemma QuantityChangeKeepsValid(s: Store, k: ItemId, q: int)
    requires Valid(s) && k in s.items.rows && q >= 1
    ensures Valid(s.(items := s.items.(rows := s.items.rows[k := s.items.rows[k].(quantity := q)])))
  {
    var r := s.(items := s.items.(rows := s.items.rows[k := s.items.rows[k].(quantity := q)]));
    forall j | j in r.items.rows
      ensures j in s.items.rows
      ensures r.items.rows[j].order == s.items.rows[j].order && r.items.rows[j].product == s.items.rows[j].product
      ensures r.items.rows[j].quantity >= 1
    {
    }
    assert Keyed(r);
    assert Linked(r);
  }

  /** Inserting a linked item with a positive quantity and a new (product, order) pair keeps every constraint. */
  lemma InsertItemKeepsValid(s: Store, it: Item)
    requires Valid(s)
    requires it.order in s.orders.rows && it.product in s.products.rows && it.quantity >= 1
    requires !HasLine(s.items.rows, it.order, it.product)
    ensures Valid(s.(items := s.items.Insert(it)))
  {
    var r := s.(items := s.items.Insert(it));
    var id := s.items.next;
    forall j | j in r.items.rows
      ensures j == id || (j in s.items.rows && r.items.rows[j] == s.items.rows[j])
    {
    }
    assert Keyed(r);
    assert Linked(r);
    assert PositiveQuantities(r.items.rows);
    forall a, b | a in r.items.rows && b in r.items.rows && a != b
      ensures r.items.rows[a].product != r.items.rows[b].product || r.items.rows[a].order != r.items.rows[b].order
    {
      if a == id {
        assert b in s.items.rows;
      } else if b == id {
        assert a in s.items.rows;
      }
    }
  }

  /** Inserting an order made by an existing member keeps every constraint. */
  lemma InsertOrderKeepsValid(s: Store, ord: Order)
    requires Valid(s) && ord.madeBy in s.members.rows
    ensures Valid(s.(orders := s.orders.Insert(ord)))
  {
    var r := s.(orders := s.orders.Insert(ord));
    assert Keyed(r);
    assert Linked(r);
  }

  /** Removing an order no item belongs to keeps every constraint. */
  lemma UnusedOrderDropKeepsValid(s: Store, o: OrderId)
    requires Valid(s) && ItemsOf(s, o) == {}
    ensures Valid(s.(orders := s.orders.(rows := s.orders.rows - {o})))
  {
    var r := s.(orders := s.orders.(rows := s.orders.rows - {o}));
    forall k | k in r.items.rows
      ensures r.items.rows[k].order in r.orders.rows
    {
      assert k !in ItemsOf(s, o);
    }
    assert Linked(r);
  }

  /** Removing a product no item refers to keeps every constraint. */
  lemma UnusedProductDropKeepsValid(s: Store, p: ProductId)
    requires Valid(s) && forall k :: k in s.items.rows ==> s.items.rows[k].product != p
    ensures Valid(s.(products := s.products.(rows := s.products.rows - {p})))
  {
    var r := s.(products := s.products.(rows := s.products.rows - {p}));
    assert Linked(r);
  }
}
