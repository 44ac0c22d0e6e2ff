/** What a drag keeps, where it puts the card, and when the client sees what it submitted. */
module BoardReorder {
  import opened Ids
  import opened Ordering
  import opened WorkSessions
  import opened Board

  // ---------- lists without repeats ----------

  predicate Unrepeated(s: seq<nat>) { forall i, j :: 0 <= i < j < |s| ==> s[i] != s[j] }

  lemma {:induction false} IndexOfAt(s: seq<nat>, i: nat)
    requires Unrepeated(s) && i < |s|
    ensures IndexOf(s, s[i]) == i
  {
    if i > 0 {
      IndexOfAt(s[1..], i - 1);
    }
  }

  lemma RankedIndex(rank: map<nat, nat>, s: seq<nat>)
    requires Unrepeated(s) && forall i :: i in s ==> i in rank && rank[i] == IndexOf(s, i)
    ensures Ranked(rank, s)
  {
    forall i, j | 0 <= i < j < |s| ensures Before(rank, s[i], s[j]) {
      IndexOfAt(s, i);
      IndexOfAt(s, j);
    }
  }

  lemma InsertedAt(s: seq<nat>, i: nat, x: nat, a: nat)
    requires i <= |s| && a <= |s|
    ensures |InsertAt(s, i, x)| == |s| + 1
    ensures InsertAt(s, i, x)[a] == if a < i then s[a] else if a == i then x else s[a - 1]
  {
  }

  lemma InsertedUnrepeated(s: seq<nat>, i: nat, x: nat)
    requires Unrepeated(s) && x !in s && i <= |s|
    ensures Unrepeated(InsertAt(s, i, x))
    ensures forall k :: k in InsertAt(s, i, x) <==> k in s || k == x
  {
    var r := InsertAt(s, i, x);
    forall k ensures k in r <==> k in s || k == x {
      assert s == s[..i] + s[i..];
    }
    hide InsertAt;
    InsertedAt(s, i, x, 0);
    forall a, b | 0 <= a < b < |r| ensures r[a] != r[b] {
      InsertedAt(s, i, x, a);
      InsertedAt(s, i, x, b);
    }
  }

  lemma InsertedOnly(s: seq<nat>, i: nat, x: nat, keep: set<nat>)
    requires i <= |s|
    ensures Only(InsertAt(s, i, x), keep) == Only(s[..i], keep) + (if x in keep then [x] else []) + Only(s[i..], keep)
  {
    OnlyAppend(s[..i] + [x], s[i..], keep);
    OnlyAppend(s[..i], [x], keep);
    assert [x][..0] == [] && Only([x], keep) == Only([x][..0], keep) + if x in keep then [x] else [];
  }

  lemma InsertedRest(s: seq<nat>, i: nat, x: nat)
    requires x !in s && i <= |s|
    ensures Only(InsertAt(s, i, x), Elems(s)) == s
  {
    hide InsertAt, Only;
    InsertedOnly(s, i, x, Elems(s));
    assert s == s[..i] + s[i..];
    OnlyAll(s[..i], Elems(s));
    OnlyAll(s[i..], Elems(s));
    assert s[..i] + [] + s[i..] == s;
  }

  /** The same ids with the same ranks are listed in the same order. */
  lemma SameRanks(rank: map<nat, nat>, rank': map<nat, nat>, ids: set<nat>)
    requires ids <= rank.Keys && ids <= rank'.Keys && forall i :: i in ids ==> rank[i] == rank'[i]
    ensures ByRank(rank, ids) == ByRank(rank', ids)
  {
    var s := ByRank(rank, ids);
    assert Ranked(rank', s) by {
      forall i, j | 0 <= i < j < |s| ensures Before(rank', s[i], s[j]) {
        assert s[i] in s && s[j] in s;
      }
    }
    RankedUnique(rank', s, ByRank(rank', ids));
  }

  // ---------- frame ----------

  /** No card is lost, duplicated, archived or restored; only the moved card can change column or author; a card
      that keeps its column and position, the moved one included, keeps its author and stamp too, and a moved
      card that does not is signed by the actor at the instant of the drag. */
  lemma Frame(cards: Cards, q: Request)
    requires Acceptable(cards, q)
    ensures var r := Reordered(cards, q);
            && r.Keys == cards.Keys
            && r[q.moved].status == Target(q) && r[q.moved].archived == cards[q.moved].archived
            && (forall i :: i in cards && i != q.moved ==>
                  r[i] == cards[i].(sortOrder := r[i].sortOrder))
            && (forall i :: i in cards && (cards[i].archived != q.archivedBoard
                                           || cards[i].status !in {cards[q.moved].status, Target(q)}) ==>
                  r[i] == cards[i])
            && (forall i :: i in cards && r[i].status == cards[i].status && r[i].sortOrder == cards[i].sortOrder ==>
                  r[i] == cards[i])
            && (r[q.moved] != cards[q.moved] ==> r[q.moved].updatedBy == q.actor && r[q.moved].updatedAt == q.at)
  {
    hide Placed, Reordered, ColumnWithout;
    forall i | i in cards ensures FrameOf(cards, q, i, Reordered(cards, q)[i]) {
      FrameCard(cards, q, i);
    }
    FrameCard(cards, q, q.moved);
    PlacedMembers(cards, q);
  }

  predicate FrameOf(cards: Cards, q: Request, i: nat, c: Entity)
    requires Acceptable(cards, q) && i in cards
  {
    && c.archived == cards[i].archived
    && (i != q.moved ==> c == cards[i].(sortOrder := c.sortOrder))
    && (i == q.moved ==> c.status == Target(q))
    && (cards[i].archived != q.archivedBoard || cards[i].status !in {cards[q.moved].status, Target(q)} ==>
          c == cards[i])
    && (c.status == cards[i].status && c.sortOrder == cards[i].sortOrder ==> c == cards[i])
    && (i == q.moved && c != cards[i] ==> c.updatedBy == q.actor && c.updatedAt == q.at)
  }

  lemma FrameCard(cards: Cards, q: Request, i: nat)
    requires Acceptable(cards, q) && i in cards
    ensures FrameOf(cards, q, i, Reordered(cards, q)[i])
  {
    hide Placed, Reordered, IndexOf, Target;
    PlacedMembers(cards, q);
    MovedCard(cards, q, i);
  }

  /** What becomes of one card. */
  function Moved(cards: Cards, q: Request, i: nat): Entity
    requires Acceptable(cards, q) && i in cards
  {
    var from, to := cards[q.moved].status, Target(q);
    var source := ColumnWithout(cards, q.archivedBoard, from, q.moved);
    if i in Placed(cards, q) then Renumber(cards[i], IndexOf(Placed(cards, q), i), to, i == q.moved, q)
    else if from != to && i in source then Renumber(cards[i], IndexOf(source, i), from, false, q)
    else cards[i]
  }

  lemma MovedCard(cards: Cards, q: Request, i: nat)
    requires Acceptable(cards, q) && i in cards
    ensures Reordered(cards, q)[i] == Moved(cards, q, i)
  {
    hide Placed, Renumber;
    PlacedMembers(cards, q);
  }

  /** The moved card joins exactly the stored target column. */
  lemma PlacedMembers(cards: Cards, q: Request)
    requires Acceptable(cards, q)
    ensures Unrepeated(Placed(cards, q))
    ensures forall i :: i in Placed(cards, q) <==> i in Members(cards, q.archivedBoard, Target(q)) || i == q.moved
    ensures Only(Placed(cards, q), Elems(ColumnWithout(cards, q.archivedBoard, Target(q), q.moved)))
         == ColumnWithout(cards, q.archivedBoard, Target(q), q.moved)
  {
    AnchorsFound(cards, q);
    var column := ColumnWithout(cards, q.archivedBoard, Target(q), q.moved);
    InsertedUnrepeated(column, Slot(column, Visible(cards, q), q.moved), q.moved);
    InsertedRest(column, Slot(column, Visible(cards, q), q.moved), q.moved);
  }

  /** Both affected columns end up numbered 0, 1, 2, ... in their new order. */
  lemma Positions(cards: Cards, q: Request)
    requires Acceptable(cards, q)
    ensures var r, to, from := Reordered(cards, q), Target(q), cards[q.moved].status;
            var source := ColumnWithout(cards, q.archivedBoard, from, q.moved);
            && (forall i :: i in Placed(cards, q) ==> i in cards && r[i].sortOrder == IndexOf(Placed(cards, q), i))
            && (from != to ==> forall i :: i in source ==> r[i].sortOrder == IndexOf(source, i))
  {
    hide Placed, Reordered, IndexOf, Renumber;
    var r, to, from := Reordered(cards, q), Target(q), cards[q.moved].status;
    var source := ColumnWithout(cards, q.archivedBoard, from, q.moved);
    PlacedMembers(cards, q);
    forall i | i in Placed(cards, q) ensures i in cards && r[i].sortOrder == IndexOf(Placed(cards, q), i) {
      MovedCard(cards, q, i);
      Renumbered(cards[i], IndexOf(Placed(cards, q), i), to, i == q.moved, q);
    }
    if from != to {
      forall i | i in source ensures r[i].sortOrder == IndexOf(source, i) {
        MovedCard(cards, q, i);
        Renumbered(cards[i], IndexOf(source, i), from, false, q);
      }
    }
  }

  lemma Renumbered(c: Entity, index: nat, status: Status, isMoved: bool, q: Request)
    ensures Renumber(c, index, status, isMoved, q).sortOrder == index
  {
  }

  /** The target column is the stored one with the moved card placed; the source column just loses it; all
      other columns of either board are untouched. */
  lemma Columns(cards: Cards, q: Request)
    requires Acceptable(cards, q)
    ensures var r, to, from, b := Reordered(cards, q), Target(q), cards[q.moved].status, q.archivedBoard;
            && Column(r, b, to) == Placed(cards, q)
            && (from != to ==> Column(r, b, from) == ColumnWithout(cards, b, from, q.moved))
            && (forall archived, status :: archived != b || status !in {from, to} ==>
                  Column(r, archived, status) == Column(cards, archived, status))
  {
    hide Placed, Reordered, ColumnWithout, Slot, Visible;
    var r, to, from, b := Reordered(cards, q), Target(q), cards[q.moved].status, q.archivedBoard;
    Frame(cards, q);
    PlacedMembers(cards, q);
    Positions(cards, q);
    TargetColumn(cards, q);
    if from != to {
      SourceColumn(cards, q);
    }
    forall archived, status | archived != b || status !in {from, to}
      ensures Column(r, archived, status) == Column(cards, archived, status)
    {
      OtherColumn(cards, q, archived, status);
    }
  }

  lemma TargetColumn(cards: Cards, q: Request)
    requires Acceptable(cards, q)
    ensures Column(Reordered(cards, q), q.archivedBoard, Target(q)) == Placed(cards, q)
  {
    hide Placed, Reordered;
    var r := Reordered(cards, q);
    Frame(cards, q);
    PlacedMembers(cards, q);
    Positions(cards, q);
    RankedIndex(SortOrders(r), Placed(cards, q));
    RankedUnique(SortOrders(r), Placed(cards, q), Column(r, q.archivedBoard, Target(q)));
  }

  lemma SourceColumn(cards: Cards, q: Request)
    requires Acceptable(cards, q) && cards[q.moved].status != Target(q)
    ensures var from := cards[q.moved].status;
            Column(Reordered(cards, q), q.archivedBoard, from) == ColumnWithout(cards, q.archivedBoard, from, q.moved)
  {
    hide Placed, Reordered;
    var r, from := Reordered(cards, q), cards[q.moved].status;
    var source := ColumnWithout(cards, q.archivedBoard, from, q.moved);
    Frame(cards, q);
    Positions(cards, q);
    NoRepeats(SortOrders(cards), source);
    RankedIndex(SortOrders(r), source);
    RankedUnique(SortOrders(r), source, Column(r, q.archivedBoard, from));
  }

  lemma OtherColumn(cards: Cards, q: Request, archived: bool, status: Status)
    requires Acceptable(cards, q)
    requires archived != q.archivedBoard || status !in {cards[q.moved].status, Target(q)}
    ensures Column(Reordered(cards, q), archived, status) == Column(cards, archived, status)
  {
    hide Placed, Reordered;
    var r := Reordered(cards, q);
    Frame(cards, q);
    assert Members(r, archived, status) == Members(cards, archived, status);
    SameRanks(SortOrders(cards), SortOrders(r), Members(cards, archived, status));
  }

  /** Every other card of the target column keeps its place relative to the rest. */
  lemma RelativeOrder(cards: Cards, q: Request)
    requires Acceptable(cards, q)
    ensures var column := ColumnWithout(cards, q.archivedBoard, Target(q), q.moved);
            Only(Column(Reordered(cards, q), q.archivedBoard, Target(q)), Elems(column)) == column
  {
    hide Placed, Reordered;
    TargetColumn(cards, q);
    PlacedMembers(cards, q);
  }

  // ---------- placement ----------

  /** The moved card stands directly after its visible predecessor, else directly before its visible
      successor, else last. */
  lemma Placement(cards: Cards, q: Request)
    requires Acceptable(cards, q)
    ensures var column, visible := Column(Reordered(cards, q), q.archivedBoard, Target(q)), Visible(cards, q);
            q.moved in visible && q.moved in column &&
            var k, i := IndexOf(visible, q.moved), IndexOf(column, q.moved);
            if k > 0 then i > 0 && column[i - 1] == visible[k - 1]
            else if |visible| > 1 then i + 1 < |column| && column[i + 1] == visible[1]
            else i == |column| - 1
  {
    hide Reordered, Visible, ColumnWithout;
    TargetColumn(cards, q);
    PlacedMembers(cards, q);
    AnchorsFound(cards, q);
    var column := ColumnWithout(cards, q.archivedBoard, Target(q), q.moved);
    PlacedBeside(column, Visible(cards, q), q.moved);
  }

  lemma PlacedBeside(column: seq<nat>, visible: seq<nat>, m: nat)
    requires Unrepeated(column) && Unrepeated(visible) && m in visible && m !in column
    requires forall v :: v in visible && v != m ==> v in column
    ensures var placed, k := InsertAt(column, Slot(column, visible, m), m), IndexOf(visible, m);
            m in placed &&
            var i := IndexOf(placed, m);
            if k > 0 then i > 0 && placed[i - 1] == visible[k - 1]
            else if |visible| > 1 then i + 1 < |placed| && placed[i + 1] == visible[1]
            else i == |placed| - 1
  {
    var slot, k := Slot(column, visible, m), IndexOf(visible, m);
    var placed := InsertAt(column, slot, m);
    InsertedUnrepeated(column, slot, m);
    assert placed[slot] == m;
    IndexOfAt(placed, slot);
    hide InsertAt, IndexOf;
    if k > 0 {
      InsertedAt(column, slot, m, slot - 1);
    } else if |visible| > 1 {
      InsertedAt(column, slot, m, slot + 1);
    } else {
      InsertedAt(column, slot, m, slot);
    }
  }

  // ---------- what a filtered client sees ----------

  lemma OnlyOne(x: nat, keep: set<nat>)
    ensures Only([x], keep) == if x in keep then [x] else []
  {
    assert [x][..0] == [] && Only([x][..0], keep) == [];
  }

  lemma OnlyLast(s: seq<nat>, i: nat, keep: set<nat>)
    requires 0 < i <= |s| && s[i - 1] in keep
    ensures Only(s[..i], keep) == Only(s[..i - 1], keep) + [s[i - 1]]
  {
    hide Only;
    OnlyAppend(s[..i - 1], [s[i - 1]], keep);
    OnlyOne(s[i - 1], keep);
    assert s[..i] == s[..i - 1] + [s[i - 1]];
  }

  lemma OnlyFirst(s: seq<nat>, i: nat, keep: set<nat>)
    requires i < |s| && s[i] in keep
    ensures Only(s[i..], keep) == [s[i]] + Only(s[i + 1..], keep)
  {
    hide Only;
    OnlyAppend([s[i]], s[i + 1..], keep);
    OnlyOne(s[i], keep);
    assert s[i..] == [s[i]] + s[i + 1..];
  }

  lemma OthersKept(s: seq<nat>, k: nat)
    requires Unrepeated(s) && k < |s|
    ensures forall i :: i in s[..k] || i in s[k + 1..] ==> i in Elems(s) - {s[k]}
  {
    forall i | i in s[..k] ensures i in Elems(s) - {s[k]} {
      var j :| 0 <= j < k && s[j] == i;
    }
    forall i | i in s[k + 1..] ensures i in Elems(s) - {s[k]} {
      var j :| 0 <= j < |s| - k - 1 && s[k + 1..][j] == i;
      assert s[k + 1 + j] == i;
    }
  }

  /** Leaving out the element at k. */
  lemma OnlyWithout(s: seq<nat>, k: nat)
    requires Unrepeated(s) && k < |s|
    ensures Only(s, Elems(s) - {s[k]}) == s[..k] + s[k + 1..]
  {
    hide Only, Unrepeated, Elems;
    var keep := Elems(s) - {s[k]};
    var rest := s[..k] + s[k + 1..];
    OthersKept(s, k);
    InsertedOnly(rest, k, s[k], keep);
    assert InsertAt(rest, k, s[k]) == s && rest[..k] == s[..k] && rest[k..] == s[k + 1..];
    OnlyAll(s[..k], keep);
    OnlyAll(s[k + 1..], keep);
    assert s[..k] + [] + s[k + 1..] == rest;
  }

  lemma ShortUnrepeated(s: seq<nat>, k: nat)
    requires Unrepeated(s) && k < |s|
    ensures Unrepeated(s[..k] + s[k + 1..])
  {
    var r := s[..k] + s[k + 1..];
    forall a, b | 0 <= a < b < |r| ensures r[a] != r[b] {
      assert r[a] == if a < k then s[a] else s[a + 1];
      assert r[b] == if b < k then s[b] else s[b + 1];
    }
  }

  /** If the visible neighbours agree with the stored order, the slot splits the stored column just where
      the moved card splits the visible one. */
  lemma SlotSplits(column: seq<nat>, visible: seq<nat>, m: nat, slot: nat, k: nat)
    requires Unrepeated(column) && Unrepeated(visible) && m in visible && m !in column
    requires forall v :: v in visible && v != m ==> v in column
    requires slot == Slot(column, visible, m) && k == IndexOf(visible, m)
    requires Only(column[..slot], Elems(visible)) + Only(column[slot..], Elems(visible))
          == visible[..k] + visible[k + 1..]
    ensures |Only(column[..slot], Elems(visible))| == k
  {
    var keep := Elems(visible);
    var left, right := Only(column[..slot], keep), Only(column[slot..], keep);
    var rest := visible[..k] + visible[k + 1..];
    ShortUnrepeated(visible, k);
    if k > 0 {
      assert column[slot - 1] == visible[k - 1];
      OnlyLast(column, slot, keep);
      assert (left + right)[|left| - 1] == visible[k - 1] == rest[k - 1];
    } else if |visible| > 1 {
      assert column[slot] == visible[1];
      OnlyFirst(column, slot, keep);
      assert (left + right)[|left|] == visible[1] == rest[0];
    } else {
      assert |rest| == 0;
    }
  }

  lemma InsertFaithful(column: seq<nat>, visible: seq<nat>, m: nat, slot: nat)
    requires Unrepeated(column) && Unrepeated(visible) && m in visible && m !in column
    requires forall v :: v in visible && v != m ==> v in column
    requires slot == Slot(column, visible, m)
    ensures Only(InsertAt(column, slot, m), Elems(visible)) == visible
       <==> Only(column, Elems(visible)) == Only(visible, Elems(visible) - {m})
  {
    hide Slot, InsertAt, Only;
    var keep, k := Elems(visible), IndexOf(visible, m);
    var left, right := Only(column[..slot], keep), Only(column[slot..], keep);
    InsertedOnly(column, slot, m, keep);
    OnlyAppend(column[..slot], column[slot..], keep);
    assert column == column[..slot] + column[slot..];
    OnlyWithout(visible, k);
    assert visible == visible[..k] + [m] + visible[k + 1..];
    if left + right == visible[..k] + visible[k + 1..] {
      SlotSplits(column, visible, m, slot, k);
      assert (left + right)[..k] == left && (left + right)[k..] == right;
      assert (visible[..k] + visible[k + 1..])[..k] == visible[..k];
      assert (visible[..k] + visible[k + 1..])[k..] == visible[k + 1..];
    }
    if left + [m] + right == visible {
      OnlyMembers(column[..slot], keep);
      assert visible[|left|] == m;
      assert |left| == k;
      assert visible[..k] == left && visible[k + 1..] == right;
    }
  }

  /** Faithfulness: after the drag, the stored target column cut to the visible cards is exactly the submitted
      order if and only if the client listed the other visible cards in their stored order. */
  lemma Faithful(cards: Cards, q: Request)
    requires Acceptable(cards, q)
    ensures var visible := Visible(cards, q);
            Only(Column(Reordered(cards, q), q.archivedBoard, Target(q)), Elems(visible)) == visible
            <==> Only(ColumnWithout(cards, q.archivedBoard, Target(q), q.moved), Elems(visible))
                 == Only(visible, Elems(visible) - {q.moved})
  {
    hide Reordered, Visible, ColumnWithout, Column, Slot;
    TargetColumn(cards, q);
    AnchorsFound(cards, q);
    var column, visible := ColumnWithout(cards, q.archivedBoard, Target(q), q.moved), Visible(cards, q);
    InsertFaithful(column, visible, q.moved, Slot(column, visible, q.moved));
  }

  // ---------- repeating a drag ----------

  /** A second identical request lists the same visible cards and the same column around the moved card. */
  lemma SamePlacement(cards: Cards, q: Request)
    requires Acceptable(cards, q)
    ensures var r := Reordered(cards, q); Acceptable(r, q) && Placed(r, q) == Placed(cards, q)
  {
    var r, b, to := Reordered(cards, q), q.archivedBoard, Target(q);
    SameSetting(cards, q);
    SameColumn(cards, q);
    AnchorsFound(cards, q);
    AnchorsFound(r, q);
  }

  lemma SameSetting(cards: Cards, q: Request)
    requires Acceptable(cards, q)
    ensures var r := Reordered(cards, q); Acceptable(r, q) && Visible(r, q) == Visible(cards, q)
  {
    hide Reordered;
    var r := Reordered(cards, q);
    Frame(cards, q);
    forall k | k in q.items ensures Shown(r, q, k, Target(q)) <==> Shown(cards, q, k, Target(q)) {
    }
    assert ShownIds(r, q, Target(q)) == ShownIds(cards, q, Target(q));
  }

  lemma SameColumn(cards: Cards, q: Request)
    requires Acceptable(cards, q)
    ensures ColumnWithout(Reordered(cards, q), q.archivedBoard, Target(q), q.moved)
         == ColumnWithout(cards, q.archivedBoard, Target(q), q.moved)
  {
    hide Reordered;
    var r, b, to := Reordered(cards, q), q.archivedBoard, Target(q);
    var column := ColumnWithout(cards, b, to, q.moved);
    Frame(cards, q);
    RelativeOrder(cards, q);
    OnlyRanked(SortOrders(r), Column(r, b, to), Elems(column));
    RankedUnique(SortOrders(r), column, ColumnWithout(r, b, to, q.moved));
  }

  /** Who drags, and when, decides nothing about the place. */
  lemma PlacedByAnyone(cards: Cards, q: Request, actor: nat, at: int)
    requires Acceptable(cards, q)
    ensures var q' := q.(actor := actor, at := at);
            Acceptable(cards, q') && Target(q') == Target(q) && Placed(cards, q') == Placed(cards, q)
  {
    hide Slot, InsertAt, ColumnWithout;
    var q' := q.(actor := actor, at := at);
    assert ShownIds(cards, q', Target(q)) == ShownIds(cards, q, Target(q));
  }

  /** Idempotence: submitting the same drag again, by anyone and at any later instant, changes no card, so there
      is nothing to write. */
  lemma Idempotent(cards: Cards, q: Request, actor: nat, at: int)
    requires Acceptable(cards, q)
    ensures var r, again := Reordered(cards, q), q.(actor := actor, at := at);
            Acceptable(r, again) && Reordered(r, again) == r
  {
    hide Placed, Reordered, Renumber, Acceptable;
    var r, again := Reordered(cards, q), q.(actor := actor, at := at);
    SamePlacement(cards, q);
    PlacedByAnyone(r, q, actor, at);
    Frame(cards, q);
    Positions(cards, q);
    PlacedMembers(cards, q);
    forall i | i in r ensures Reordered(r, again)[i] == r[i] {
      MovedCard(r, again, i);
      if i in Placed(r, q) {
        Unchanged(r[i], Target(q), i == q.moved, again);
      }
    }
  }

  lemma Unchanged(c: Entity, status: Status, isMoved: bool, q: Request)
    requires c.status == status
    ensures Renumber(c, c.sortOrder, status, isMoved, q) == c
  {
  }
}
