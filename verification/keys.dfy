/** Picking a row deterministically out of a finite set of primary keys. */
module Keys {

  /** `k` is the smallest element of `ids`. */
  predicate IsLeast(k: nat, ids: set<nat>)
  {
    k in ids && forall j :: j in ids ==> k <= j
  }

  /** The smallest key of a non-empty set. */
  function Least(ids: set<nat>): (k: nat)
    requires ids != {}
    ensures k in ids
    ensures forall j :: j in ids ==> k <= j
  {
    LeastExists(ids);
    var k :| IsLeast(k, ids);
    k
  }

  /** Every non-empty finite set of keys has a smallest element. */
  lemma {:induction false} LeastExists(ids: set<nat>)
    requires ids != {}
    ensures exists k :: IsLeast(k, ids)
    decreases |ids|
  {
    var x :| x in ids;
    var rest := ids - {x};
    if rest == {} {
      assert ids == {x};
      assert IsLeast(x, ids);
    } else {
      LeastExists(rest);
      var m :| IsLeast(m, rest);
      var least := if x < m then x else m;
      forall j | j in ids
        ensures least <= j
      {
        if j != x {
          assert j in rest;
        }
      }
      assert IsLeast(least, ids);
    }
  }
}
