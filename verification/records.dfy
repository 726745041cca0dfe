/**
 * Teams, members and categories: the (name, team) uniqueness rule, the
 * opening balance of a new member, and the delete rules -- RESTRICT from a
 * member to its team and from a product to its category, CASCADE from a
 * member to their orders and from an order to its items.
 */
module Records {
  import opened Models
  import opened Totals

  /** Whether team `t` already has a member called `name`. */
  predicate NameTaken(members: map<MemberId, Member>, name: string, t: TeamId)
  {
    exists m :: m in members && members[m].name == name && members[m].team == t
  }

  /**
   * Adding a member to team `t` with opening balance `balance`. The admin
   * add form shows the balance field with its default of 0, and the admin
   * may enter any other amount there.
   */
  function CreateMember(s: Store, name: string, email: string, t: TeamId, balance: int): (r: Result<Store>)
    requires s.members.Keyed()
    ensures r.Ok? <==> t in s.teams.rows && !NameTaken(s.members.rows, name, t)
    ensures r.Err? ==> r.error == (if t !in s.teams.rows then NoSuchTeam else DuplicateMemberName)
    ensures r.Ok? ==>
      && r.value.members == s.members.Insert(Member(name, email, t, balance))
      && r.value == s.(members := r.value.members)
  {
    if t !in s.teams.rows then Err(NoSuchTeam)
    else if NameTaken(s.members.rows, name, t) then Err(DuplicateMemberName)
    else Ok(s.(members := s.members.Insert(Member(name, email, t, balance))))
  }

  /** A new member keeps every constraint, including the (name, team) uniqueness rule. */
  lemma CreateMemberKeepsValid(s: Store, name: string, email: string, t: TeamId, balance: int)
    requires Valid(s) && CreateMember(s, name, email, t, balance).Ok?
    ensures Valid(CreateMember(s, name, email, t, balance).value)
  {
    var r := CreateMember(s, name, email, t, balance).value;
    var id := s.members.next;
    forall a, b | a in r.members.rows && b in r.members.rows && a != b
      ensures r.members.rows[a].name != r.members.rows[b].name || r.members.rows[a].team != r.members.rows[b].team
    {
      if a == id {
        assert b in s.members.rows;
      } else if b == id {
        assert a in s.members.rows;
      }
    }
    assert Keyed(r);
    assert Linked(r);
  }

  /**
   * A new member owes nothing and enters the ledger with the opening
   * balance they were created with; nobody else's charges move.
   */
  lemma CreateMemberKeepsLedger(s: Store, name: string, email: string, t: TeamId, balance: int, base: map<MemberId, int>)
    requires Valid(s) && Ledger(s, base)
    requires CreateMember(s, name, email, t, balance).Ok?
    ensures var r := CreateMember(s, name, email, t, balance).value;
      && Charged(r, s.members.next) == 0
      && Ledger(r, base[s.members.next := balance])
  {
    var r := CreateMember(s, name, email, t, balance).value;
    var id := s.members.next;
    forall k | k in r.items.rows
      ensures !InScope(r.orders.rows, r.items.rows[k].order, OfMember(id))
    {
      assert s.items.rows[k].order in s.orders.rows;
    }
    assert ScopeIds(r.items.rows, r.orders.rows, OfMember(id)) == {};
  }

  /** The orders made by member `m`. */
  function OrdersBy(orders: map<OrderId, Order>, m: MemberId): set<OrderId>
  {
    set o | o in orders && orders[o].madeBy == m
  }

  /**
   * Deleting member `m` deletes their orders and those orders' items with
   * them. The delete handler refunds `m` for each item, but `m`'s row goes
   * too, so no surviving balance moves.
   */
  function DeleteMember(s: Store, m: MemberId): (r: Result<Store>)
    ensures r.Ok? <==> m in s.members.rows
    ensures r.Ok? ==>
      && r.value.members == s.members.(rows := s.members.rows - {m})
      && r.value.orders == s.orders.(rows := s.orders.rows - OrdersBy(s.orders.rows, m))
      && r.value.items.next == s.items.next
      && (forall k :: k in r.value.items.rows <==> k in s.items.rows && s.items.rows[k].order !in OrdersBy(s.orders.rows, m))
      && (forall k :: k in r.value.items.rows ==> r.value.items.rows[k] == s.items.rows[k])
      && r.value == s.(members := r.value.members, orders := r.value.orders, items := r.value.items)
  {
    if m !in s.members.rows then Err(NoSuchMember)
    else
      var gone := OrdersBy(s.orders.rows, m);
      var kept := map k | k in s.items.rows && s.items.rows[k].order !in gone :: s.items.rows[k];
      Ok(s.(members := s.members.(rows := s.members.rows - {m}),
            orders := s.orders.(rows := s.orders.rows - gone),
            items := s.items.(rows := kept)))
  }

  /** Deleting a member takes their orders' items with them, so no item is left pointing at a missing order. */
  lemma DeleteMemberKeepsValid(s: Store, m: MemberId)
    requires Valid(s) && m in s.members.rows
    ensures Valid(DeleteMember(s, m).value)
  {
    var r := DeleteMember(s, m).value;
    assert Keyed(r);
    assert Linked(r);
  }

  /** Another member's items all survive the delete, so their charges are unchanged. */
  lemma DeleteMemberKeepsCharge(s: Store, m: MemberId, x: MemberId)
    requires m in s.members.rows && x != m
    ensures Charged(DeleteMember(s, m).value, x) == Charged(s, x)
  {
    var r := DeleteMember(s, m).value;
    var gone := OrdersBy(s.orders.rows, m);
    var ids := ScopeIds(s.items.rows, s.orders.rows, OfMember(x));
    forall k | k in ids
      ensures k in r.items.rows
    {
      assert s.items.rows[k].order !in gone;
    }
    assert ScopeIds(r.items.rows, r.orders.rows, OfMember(x)) == ids;
    SumFrame(r.items.rows, r.products.rows, s.items.rows, s.products.rows, ids);
  }

  /** Deleting a member leaves every other member's balance and charges as they were. */
  lemma DeleteMemberKeepsLedger(s: Store, m: MemberId, base: map<MemberId, int>)
    requires Valid(s) && Ledger(s, base) && m in s.members.rows
    ensures var r := DeleteMember(s, m).value;
      && Ledger(r, base)
      && (forall x :: x in r.members.rows ==> r.members.rows[x] == s.members.rows[x] && Charged(r, x) == Charged(s, x))
  {
    var r := DeleteMember(s, m).value;
    forall x | x in r.members.rows
      ensures Charged(r, x) == Charged(s, x)
    {
      DeleteMemberKeepsCharge(s, m, x);
    }
  }

  /** Whether some member belongs to team `t`. */
  predicate HasMembers(members: map<MemberId, Member>, t: TeamId)
  {
    exists m :: m in members && members[m].team == t
  }

  /** Deleting a team is refused while it has members. */
  function DeleteTeam(s: Store, t: TeamId): (r: Result<Store>)
    ensures r.Ok? <==> t in s.teams.rows && !HasMembers(s.members.rows, t)
    ensures r.Err? ==> r.error == (if t !in s.teams.rows then NoSuchTeam else TeamHasMembers)
    ensures r.Ok? ==> r.value == s.(teams := s.teams.(rows := s.teams.rows - {t}))
  {
    if t !in s.teams.rows then Err(NoSuchTeam)
    else if HasMembers(s.members.rows, t) then Err(TeamHasMembers)
    else Ok(s.(teams := s.teams.(rows := s.teams.rows - {t})))
  }

  /** Because of the RESTRICT rule, deleting a team never leaves a member without a team. */
  lemma DeleteTeamKeepsValid(s: Store, t: TeamId)
    requires Valid(s) && DeleteTeam(s, t).Ok?
    ensures Valid(DeleteTeam(s, t).value)
  {
    var r := DeleteTeam(s, t).value;
    assert Keyed(r);
    assert Linked(r);
  }

  /** Whether some product is in category `c`. */
  predicate HasProducts(products: map<ProductId, Product>, c: CategoryId)
  {
    exists p :: p in products && products[p].category == c
  }

  /** Deleting a category is refused while it has products. */
  function DeleteCategory(s: Store, c: CategoryId): (r: Result<Store>)
    ensures r.Ok? <==> c in s.categories.rows && !HasProducts(s.products.rows, c)
    ensures r.Err? ==> r.error == (if c !in s.categories.rows then NoSuchCategory else CategoryHasProducts)
    ensures r.Ok? ==> r.value == s.(categories := s.categories.(rows := s.categories.rows - {c}))
  {
    if c !in s.categories.rows then Err(NoSuchCategory)
    else if HasProducts(s.products.rows, c) then Err(CategoryHasProducts)
    else Ok(s.(categories := s.categories.(rows := s.categories.rows - {c})))
  }

  /** Because of the RESTRICT rule, deleting a category never leaves a product without one. */
  lemma DeleteCategoryKeepsValid(s: Store, c: CategoryId)
    requires Valid(s) && DeleteCategory(s, c).Ok?
    ensures Valid(DeleteCategory(s, c).value)
  {
    var r := DeleteCategory(s, c).value;
    assert Keyed(r);
    assert Linked(r);
  }
}
