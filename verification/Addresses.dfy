/** Picking an address that is not in use. */
module Addresses {
  lemma {:induction false} UpperBound(used: set<int>) returns (r: int)
    ensures r >= 0 && forall x :: x in used ==> x <= r
    decreases |used|
  {
    r := 0;
    if |used| != 0 {
      assert exists x :: x in used by {
        assert (forall x :: x !in used) ==> used == {};
      }
      var x :| x in used;
      var rest := UpperBound(used - {x});
      r := if x > rest then x else rest;
      assert forall y :: y in used ==> y == x || y in used - {x};
    }
  }

  lemma SomeIsFree(used: set<int>)
    ensures exists n: int :: n > 0 && n !in used
  {
    var r := UpperBound(used);
    assert r + 1 > 0 && r + 1 !in used;
  }
}
