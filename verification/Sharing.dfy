/** Counting the users of shared storage. */
module Sharing {
  /** The users of d, when uses gives the storage of each user. */
  ghost function Users<D>(uses: map<int, D>, d: D): (r: set<int>)
    ensures forall u :: u in r <==> u in uses && uses[u] == d
  {
    set u | u in uses && uses[u] == d
  }

  predicate Uses<D(==)>(uses: map<int, D>, u: int, d: D) {
    u in uses && uses[u] == d
  }

  function One(b: bool): int {
    if b then 1 else 0
  }

  /** When only user u changes storage, the number of users of d changes by what u does. */
  lemma UsersMoved<D>(uses: map<int, D>, uses2: map<int, D>, u: int, d: D)
    requires forall x :: x != u ==> (Uses(uses2, x, d) <==> Uses(uses, x, d))
    ensures |Users(uses2, d)| == |Users(uses, d)| - One(Uses(uses, u, d)) + One(Uses(uses2, u, d))
  {
    var a, b := Users(uses, d), Users(uses2, d);
    forall x | x != u
      ensures x in b <==> x in a
    {
      assert Uses(uses2, x, d) <==> Uses(uses, x, d);
    }
    if Uses(uses, u, d) == Uses(uses2, u, d) {
      assert a == b;
    } else if Uses(uses2, u, d) {
      assert b == a + {u};
    } else {
      assert a == b + {u};
    }
  }

  lemma HasUser<D>(uses: map<int, D>, u: int, d: D)
    requires Uses(uses, u, d)
    ensures |Users(uses, d)| > 0
  {
    assert u in Users(uses, d);
  }

  lemma TwoUsers<D>(uses: map<int, D>, u: int, x: int, d: D)
    requires Uses(uses, u, d) && Uses(uses, x, d) && x != u
    ensures |Users(uses, d)| > 1
  {
    var s := Users(uses, d);
    assert {u, x} <= s && |s - {u, x}| >= 0 && |{u, x}| == 2;
  }

  lemma NoUsers<D>(uses: map<int, D>, d: D)
    requires forall u :: u in uses ==> uses[u] != d
    ensures |Users(uses, d)| == 0
  {
    forall u
      ensures u !in Users(uses, d)
    {
    }
    assert Users(uses, d) == {};
  }
}
