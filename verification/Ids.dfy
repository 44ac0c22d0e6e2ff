/** Optional values and ascending enumeration of a set of primary keys. */
module Ids {

  datatype Option<+T> = None | Some(value: T)

  predicate AtMostAll(m: nat, ids: set<nat>) { forall i :: i in ids ==> m <= i }

  function Least(ids: set<nat>): (m: nat)
    requires ids != {}
    ensures m in ids && AtMostAll(m, ids)
  {
    LeastExists(ids);
    var m :| m in ids && AtMostAll(m, ids);
    m
  }

  lemma {:induction false} LeastExists(ids: set<nat>)
    requires ids != {}
    ensures exists m :: m in ids && AtMostAll(m, ids)
  {
    var x :| x in ids;
    var rest := ids - {x};
    if rest == {} {
      assert ids == {x};
      assert AtMostAll(x, ids);
    } else {
      LeastExists(rest);
      var m :| m in rest && AtMostAll(m, rest);
      var least := if m < x then m else x;
      forall i | i in ids ensures least <= i {
        assert i == x || i in rest;
      }
      assert least in ids && AtMostAll(least, ids);
    }
  }

  /** The ids in ascending order, as a queryset ordered by primary key lists them. */
  function Sorted(ids: set<nat>): (s: seq<nat>)
    ensures forall i :: i in s <==> i in ids
    ensures forall i, j :: 0 <= i < j < |s| ==> s[i] < s[j]
  {
    if ids == {} then []
    else
      var m := Least(ids);
      [m] + Sorted(ids - {m})
  }

  function Elems(ids: seq<nat>): set<nat> { set i | i in ids }

  lemma ElemsStep(ids: seq<nat>, i: nat)
    requires i < |ids|
    ensures Elems(ids[..i + 1]) == Elems(ids[..i]) + {ids[i]}
  {
    assert ids[..i + 1] == ids[..i] + [ids[i]];
  }

  /** The ascending list determines the set. */
  lemma SortedInjective(a: set<nat>, b: set<nat>)
    requires Sorted(a) == Sorted(b)
    ensures a == b
  {
    forall i ensures i in a <==> i in b {
      assert i in Sorted(a) <==> i in Sorted(b);
    }
  }
}
