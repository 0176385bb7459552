/** Finite sets of row ids: their maximum, and their rows in ascending order.
    `ORDER BY id` in the queries of the service is defined through these. */
module Ids {

  ghost predicate IsMax(ids: set<nat>, m: nat) {
    m in ids && forall x :: x in ids ==> x <= m
  }

  lemma MaxExists(ids: set<nat>)
    requires ids != {}
    ensures exists m :: IsMax(ids, m)
  {
    var x :| x in ids;
    if ids == {x} {
      assert IsMax(ids, x);
    } else {
      assert ids - {x} != {};
      MaxExists(ids - {x});
      var m :| IsMax(ids - {x}, m);
      assert forall y :: y in ids ==> y == x || y in ids - {x};
      assert IsMax(ids, if x < m then m else x);
    }
  }

  /** `ORDER BY id DESC LIMIT 1`. */
  function Max(ids: set<nat>): (m: nat)
    requires ids != {}
    ensures IsMax(ids, m)
  {
    MaxExists(ids);
    assert exists m :: m in ids && forall x :: x in ids ==> x <= m by {
      var m :| IsMax(ids, m);
    }
    var m :| m in ids && forall x :: x in ids ==> x <= m;
    m
  }

  /** `ORDER BY id`. */
  function Asc(ids: set<nat>): (s: seq<nat>)
    decreases |ids|
  {
    if ids == {} then [] else Asc(ids - {Max(ids)}) + [Max(ids)]
  }

  ghost predicate Increasing(s: seq<nat>) {
    forall i, j :: 0 <= i < j < |s| ==> s[i] < s[j]
  }

  /** `Asc` lists exactly the given ids, each once, in increasing order. */
  lemma {:induction false} AscLists(ids: set<nat>)
    ensures |Asc(ids)| == |ids|
    ensures forall x :: x in Asc(ids) <==> x in ids
    ensures Increasing(Asc(ids))
    decreases |ids|
  {
    if ids != {} {
      var m := Max(ids);
      AscLists(ids - {m});
      MaxComesLast(Asc(ids - {m}), ids, m);
    }
  }

  lemma MaxComesLast(rest: seq<nat>, ids: set<nat>, m: nat)
    requires IsMax(ids, m) && Increasing(rest) && forall x :: x in rest <==> x in ids && x != m
    ensures Increasing(rest + [m]) && forall x :: x in rest + [m] <==> x in ids
  {
    forall i | 0 <= i < |rest| ensures rest[i] < m {
      assert rest[i] in rest;
    }
  }

  /** A row with a larger id than every other comes last. */
  lemma {:induction false} AscAppend(ids: set<nat>, m: nat)
    requires forall x :: x in ids ==> x < m
    ensures Asc(ids + {m}) == Asc(ids) + [m]
  {
    assert Max(ids + {m}) == m;
    assert (ids + {m}) - {m} == ids;
  }
}
