/** Minutes of sets of time rows: rows have ids, so a total does not depend on the order they are stored in. */
module RowSums {
  import opened WorkSessions

  ghost function MinutesOf(rows: set<Entry>): nat {
    if rows == {} then 0
    else
      var e :| e in rows;
      MinutesOf(rows - {e}) + e.minutes
  }

  lemma {:induction false} MinutesAny(rows: set<Entry>, e: Entry)
    requires e in rows
    ensures MinutesOf(rows) == MinutesOf(rows - {e}) + e.minutes
    decreases |rows|
  {
    var x :| x in rows && MinutesOf(rows) == MinutesOf(rows - {x}) + x.minutes;
    if x != e {
      MinutesAny(rows - {x}, e);
      MinutesAny(rows - {e}, x);
      assert rows - {x} - {e} == rows - {e} - {x};
    }
  }

  lemma MinutesPlus(rows: set<Entry>, e: Entry)
    requires e !in rows
    ensures MinutesOf(rows + {e}) == MinutesOf(rows) + e.minutes
  {
    MinutesAny(rows + {e}, e);
    assert rows + {e} - {e} == rows;
  }

  lemma {:induction false} MinutesJoin(a: set<Entry>, b: set<Entry>)
    requires a !! b
    ensures MinutesOf(a + b) == MinutesOf(a) + MinutesOf(b)
  {
    if b == {} {
      assert a + b == a;
    } else {
      var e :| e in b;
      MinutesJoin(a, b - {e});
      MinutesPlus(a + (b - {e}), e);
      MinutesAny(b, e);
      assert a + (b - {e}) + {e} == a + b;
    }
  }

  lemma MinutesWithin(a: set<Entry>, b: set<Entry>)
    requires a <= b
    ensures MinutesOf(b) == MinutesOf(a) + MinutesOf(b - a)
  {
    MinutesJoin(a, b - a);
    assert a + (b - a) == b;
  }

  /** The stored rows of a card, or of a worker on it. */
  function RowsOf(es: seq<Entry>, w: Scope): set<Entry> {
    set e | e in es && w.Covers(e.task, e.user)
  }

  /** The last row stored is none of the others. */
  lemma LastRow(es: seq<Entry>, next: nat)
    requires RowIds(es, next) && es != []
    ensures var before, e := es[..|es| - 1], es[|es| - 1];
            RowIds(before, next) && e !in before && es == before + [e]
  {
  }

  lemma {:induction false} LoggedRows(es: seq<Entry>, next: nat, w: Scope)
    requires RowIds(es, next)
    ensures Logged(es, w) == MinutesOf(RowsOf(es, w))
  {
    if es == [] {
      assert RowsOf(es, w) == {};
    } else {
      var before, e := es[..|es| - 1], es[|es| - 1];
      LastRow(es, next);
      hide RowIds;
      LoggedRows(before, next, w);
      if w.Covers(e.task, e.user) {
        assert RowsOf(es, w) == RowsOf(before, w) + {e};
        MinutesPlus(RowsOf(before, w), e);
      } else {
        assert RowsOf(es, w) == RowsOf(before, w);
      }
    }
  }

  /** More rows, more minutes. */
  lemma LoggedWithin(es: seq<Entry>, next: nat, more: seq<Entry>, later: nat, w: Scope)
    requires RowIds(es, next) && RowIds(more, later) && RowsOf(es, w) <= RowsOf(more, w)
    ensures Logged(more, w) == Logged(es, w) + MinutesOf(RowsOf(more, w) - RowsOf(es, w))
  {
    LoggedRows(es, next, w);
    LoggedRows(more, later, w);
    MinutesWithin(RowsOf(es, w), RowsOf(more, w));
  }
}
