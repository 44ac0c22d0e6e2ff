/** The outcome of a drag, read off the submitted cards and the stored rows alone. */
module BoardResult {
  import opened Ordering
  import opened WorkSessions
  import opened Board
  import opened BoardReorder

  /** Submitted order: by place, ties by id. */
  predicate Ahead(x: Item, y: Item) { x.sortOrder < y.sortOrder || (x.sortOrder == y.sortOrder && x.id < y.id) }

  /** The card is stored in the column of the board. */
  predicate InColumn(cards: Cards, archived: bool, status: Status, c: nat) {
    c in cards && cards[c].archived == archived && cards[c].status == status
  }

  /** The client sees the submitted card x in the column it drags m to. */
  predicate Seen(cards: Cards, q: Request, m: Item, x: Item) {
    x in q.items && x.status == m.status && (x.id == q.moved || InColumn(cards, q.archivedBoard, m.status, x.id))
  }

  predicate Drags(q: Request, m: Item) { m in q.items && m.id == q.moved }

  lemma SubmissionOf(items: seq<Item>, x: Item)
    requires Distinct(items) && x in items
    ensures x.id in Submitted(items) && Submission(items, x.id) == x
  {
    var k := Submission(items, x.id);
    var i :| 0 <= i < |items| && items[i] == x;
    var j :| 0 <= j < |items| && items[j] == k;
    assert i == j;
  }

  // ---------- what the client sees ----------

  /** A card is visible exactly if it was submitted in the target column and is the moved card or really stored
      there on this board; and the visible cards stand in submitted order. */
  lemma VisibleExactly(cards: Cards, q: Request, m: Item)
    requires Acceptable(cards, q) && Drags(q, m)
    ensures forall x :: x in q.items ==> (x.id in Visible(cards, q) <==> Seen(cards, q, m, x))
    ensures forall v :: v in Visible(cards, q) ==> exists x :: x in q.items && x.id == v
    ensures var visible := Visible(cards, q);
            forall i, j, x, y ::
              (0 <= i < j < |visible| && x in q.items && y in q.items && x.id == visible[i] && y.id == visible[j]) ==>
                Ahead(x, y)
  {
    SubmissionOf(q.items, m);
    var visible := Visible(cards, q);
    forall x | x in q.items ensures x.id in visible <==> Seen(cards, q, m, x) {
      SubmissionOf(q.items, x);
      if x.id in visible {
        var k :| k in q.items && Shown(cards, q, k, m.status) && k.id == x.id;
        SubmissionOf(q.items, k);
      }
    }
    forall i, j, x, y | && 0 <= i < j < |visible| && x in q.items && y in q.items
                        && x.id == visible[i] && y.id == visible[j]
      ensures Ahead(x, y)
    {
      SubmissionOf(q.items, x);
      SubmissionOf(q.items, y);
    }
  }

  // ---------- where the card goes ----------

  lemma ColumnExactly(cards: Cards, archived: bool, status: Status)
    ensures forall c :: c in Column(cards, archived, status) <==> InColumn(cards, archived, status, c)
    ensures var column := Column(cards, archived, status);
            forall i, j :: 0 <= i < j < |column| ==>
              && column[i] in cards && column[j] in cards
              && (cards[column[i]].sortOrder < cards[column[j]].sortOrder
                  || (cards[column[i]].sortOrder == cards[column[j]].sortOrder && column[i] < column[j]))
  {
    var column := ByRank(SortOrders(cards), Members(cards, archived, status));
    assert column == Column(cards, archived, status);
    hide ByRank, Column;
    forall c ensures c in column <==> InColumn(cards, archived, status, c) {
      assert c in column <==> c in Members(cards, archived, status);
    }
    forall i, j | 0 <= i < j < |column|
      ensures column[i] in cards && column[j] in cards
      ensures cards[column[i]].sortOrder < cards[column[j]].sortOrder
              || (cards[column[i]].sortOrder == cards[column[j]].sortOrder && column[i] < column[j])
    {
      assert Before(SortOrders(cards), column[i], column[j]);
    }
  }

  /** Positions in an affected column are the sort orders. */
  lemma Position(cards: Cards, q: Request, m: Item, status: Status, n: nat)
    requires Acceptable(cards, q) && Drags(q, m) && status in {m.status, cards[q.moved].status}
    requires n < |Column(Reordered(cards, q), q.archivedBoard, status)|
    ensures var c := Column(Reordered(cards, q), q.archivedBoard, status)[n];
            c in cards && Reordered(cards, q)[c].sortOrder == n
  {
    SubmissionOf(q.items, m);
    Columns(cards, q);
    Positions(cards, q);
    hide Reordered, Placed, ColumnWithout;
    var column := Column(Reordered(cards, q), q.archivedBoard, status);
    PlacedMembers(cards, q);
    ColumnExactly(Reordered(cards, q), q.archivedBoard, status);
    assert column[n] in column;
    if status == m.status {
      IndexOfAt(Placed(cards, q), n);
    } else {
      NoRepeats(SortOrders(cards), ColumnWithout(cards, q.archivedBoard, status, q.moved));
      IndexOfAt(column, n);
    }
  }

  lemma SomePosition(cards: Cards, q: Request, m: Item, status: Status, c: nat) returns (n: nat)
    requires Acceptable(cards, q) && Drags(q, m) && status in {m.status, cards[q.moved].status}
    requires InColumn(Reordered(cards, q), q.archivedBoard, status, c)
    ensures var column := Column(Reordered(cards, q), q.archivedBoard, status);
            n < |column| && column[n] == c && Reordered(cards, q)[c].sortOrder == n
  {
    hide Reordered, Column;
    var column := Column(Reordered(cards, q), q.archivedBoard, status);
    ColumnExactly(Reordered(cards, q), q.archivedBoard, status);
    assert c in column;
    n :| 0 <= n < |column| && column[n] == c;
    Position(cards, q, m, status, n);
  }

  /** After the drag both affected columns are numbered 0, 1, 2, ... without repeats. */
  lemma Numbering(cards: Cards, q: Request, m: Item, status: Status, c: nat, d: nat)
    requires Acceptable(cards, q) && Drags(q, m) && status in {m.status, cards[q.moved].status}
    requires var r := Reordered(cards, q);
             InColumn(r, q.archivedBoard, status, c) && InColumn(r, q.archivedBoard, status, d)
    ensures var r := Reordered(cards, q);
            && (c != d ==> r[c].sortOrder != r[d].sortOrder)
            && (r[c].sortOrder == 0 || exists e :: InColumn(r, q.archivedBoard, status, e)
                                                   && r[e].sortOrder + 1 == r[c].sortOrder)
  {
    hide Reordered, Column;
    var n := SomePosition(cards, q, m, status, c);
    var k := SomePosition(cards, q, m, status, d);
    if n > 0 {
      Position(cards, q, m, status, n - 1);
      ColumnExactly(Reordered(cards, q), q.archivedBoard, status);
      var e := Column(Reordered(cards, q), q.archivedBoard, status)[n - 1];
      assert InColumn(Reordered(cards, q), q.archivedBoard, status, e);
    }
  }

  /** The moved card, and no other, is in the submitted column afterwards without having been there. */
  lemma NewColumn(cards: Cards, q: Request, m: Item)
    requires Acceptable(cards, q) && Drags(q, m)
    ensures Target(q) == m.status
    ensures forall status, c ::
              InColumn(Reordered(cards, q), q.archivedBoard, status, c) <==>
              if c == q.moved then status == m.status else InColumn(cards, q.archivedBoard, status, c)
  {
    SubmissionOf(q.items, m);
    hide Reordered;
    Frame(cards, q);
  }

  lemma SlotOf(cards: Cards, q: Request, m: Item) returns (slot: nat)
    requires Acceptable(cards, q) && Drags(q, m)
    ensures var column := ColumnWithout(cards, q.archivedBoard, m.status, q.moved);
            slot <= |column| && Placed(cards, q) == InsertAt(column, slot, q.moved)
  {
    SubmissionOf(q.items, m);
    AnchorsFound(cards, q);
    slot := Slot(ColumnWithout(cards, q.archivedBoard, m.status, q.moved), Visible(cards, q), q.moved);
  }

  /** Where a card of the stored target column ends up around the moved one. */
  lemma Shifted(cards: Cards, q: Request, m: Item, slot: nat, i: nat)
    requires Acceptable(cards, q) && Drags(q, m)
    requires i < |ColumnWithout(cards, q.archivedBoard, m.status, q.moved)|
    requires slot <= |ColumnWithout(cards, q.archivedBoard, m.status, q.moved)|
    requires Placed(cards, q) == InsertAt(ColumnWithout(cards, q.archivedBoard, m.status, q.moved), slot, q.moved)
    ensures var c := ColumnWithout(cards, q.archivedBoard, m.status, q.moved)[i];
            c in cards && Reordered(cards, q)[c].sortOrder == if i < slot then i else i + 1
  {
    hide Reordered, Placed, ColumnWithout, InsertAt, Column;
    SubmissionOf(q.items, m);
    var n := if i < slot then i else i + 1;
    InsertedAt(ColumnWithout(cards, q.archivedBoard, m.status, q.moved), slot, q.moved, n);
    TargetColumn(cards, q);
    Position(cards, q, m, m.status, n);
  }

  lemma OthersListed(cards: Cards, archived: bool, status: Status, moved: nat)
    ensures var column := ColumnWithout(cards, archived, status, moved);
            && (forall c :: c in column <==> InColumn(cards, archived, status, c) && c != moved)
            && forall i, j :: 0 <= i < |column| && 0 <= j < |column| ==>
                 && column[i] in cards && column[j] in cards
                 && (i < j <==> cards[column[i]].sortOrder < cards[column[j]].sortOrder
                                || (cards[column[i]].sortOrder == cards[column[j]].sortOrder && column[i] < column[j]))
  {
    var ids := Members(cards, archived, status) - {moved};
    var column := ByRank(SortOrders(cards), ids);
    assert column == ColumnWithout(cards, archived, status, moved);
    hide ByRank, ColumnWithout;
    forall c ensures c in column <==> InColumn(cards, archived, status, c) && c != moved {
      assert c in column <==> c in ids;
    }
    forall i, j | 0 <= i < |column| && 0 <= j < |column|
      ensures column[i] in cards && column[j] in cards
      ensures i < j <==> cards[column[i]].sortOrder < cards[column[j]].sortOrder
                         || (cards[column[i]].sortOrder == cards[column[j]].sortOrder && column[i] < column[j])
    {
      assert column[i] in column && column[j] in column;
      if i < j {
        assert Before(SortOrders(cards), column[i], column[j]);
      } else if j < i {
        assert Before(SortOrders(cards), column[j], column[i]);
      }
    }
  }

  /** The other cards of either column keep their stored order. */
  lemma OthersInOrder(cards: Cards, q: Request, m: Item, status: Status, c: nat, d: nat)
    requires Acceptable(cards, q) && Drags(q, m) && status in {m.status, cards[q.moved].status}
    requires InColumn(cards, q.archivedBoard, status, c) && InColumn(cards, q.archivedBoard, status, d)
    requires c != q.moved && d != q.moved
    ensures var r := Reordered(cards, q);
            r[c].sortOrder < r[d].sortOrder <==>
            cards[c].sortOrder < cards[d].sortOrder || (cards[c].sortOrder == cards[d].sortOrder && c < d)
  {
    hide Reordered, ColumnWithout, Placed, Column;
    var column := ColumnWithout(cards, q.archivedBoard, status, q.moved);
    OthersListed(cards, q.archivedBoard, status, q.moved);
    var i :| 0 <= i < |column| && column[i] == c;
    var j :| 0 <= j < |column| && column[j] == d;
    if status == m.status {
      var slot := SlotOf(cards, q, m);
      Shifted(cards, q, m, slot, i);
      Shifted(cards, q, m, slot, j);
    } else {
      SubmissionOf(q.items, m);
      SourceColumn(cards, q);
      Position(cards, q, m, status, i);
      Position(cards, q, m, status, j);
    }
  }

  /** The moved card beside its visible neighbours, in sort orders. */
  lemma Beside(cards: Cards, q: Request, m: Item) returns (k: nat)
    requires Acceptable(cards, q) && Drags(q, m)
    ensures var r, visible := Reordered(cards, q), Visible(cards, q);
            && k < |visible| && visible[k] == q.moved
            && (k > 0 ==> visible[k - 1] in r && r[q.moved].sortOrder == r[visible[k - 1]].sortOrder + 1)
            && (k == 0 && |visible| > 1 ==> visible[1] in r && r[visible[1]].sortOrder == r[q.moved].sortOrder + 1)
            && (|visible| == 1 ==> forall c :: InColumn(r, q.archivedBoard, m.status, c) && c != q.moved ==>
                                     r[c].sortOrder < r[q.moved].sortOrder)
  {
    hide Reordered, Visible, Column, ColumnWithout;
    NewColumn(cards, q, m);
    Placement(cards, q);
    var r, visible := Reordered(cards, q), Visible(cards, q);
    var column := Column(r, q.archivedBoard, m.status);
    k := IndexOf(visible, q.moved);
    var i := IndexOf(column, q.moved);
    Position(cards, q, m, m.status, i);
    if k > 0 {
      Position(cards, q, m, m.status, i - 1);
    } else if |visible| > 1 {
      Position(cards, q, m, m.status, i + 1);
    } else {
      forall c: nat | InColumn(r, q.archivedBoard, m.status, c) && c != q.moved
        ensures r[c].sortOrder < r[q.moved].sortOrder
      {
        var n := SomePosition(cards, q, m, m.status, c);
      }
    }
  }

  /** Places in the visible column are the submitted order of the seen cards. */
  lemma AheadPlaces(cards: Cards, q: Request, m: Item, x: Item, i: nat, y: Item, j: nat)
    requires Acceptable(cards, q) && Drags(q, m) && Seen(cards, q, m, x) && Seen(cards, q, m, y)
    requires i < |Visible(cards, q)| && j < |Visible(cards, q)|
    requires Visible(cards, q)[i] == x.id && Visible(cards, q)[j] == y.id
    ensures Ahead(x, y) <==> i < j
    ensures x == y <==> i == j
  {
    SubmissionOf(q.items, x);
    SubmissionOf(q.items, y);
    VisibleExactly(cards, q, m);
    AnchorsFound(cards, q);
    hide Visible, Submission, Acceptable, ColumnWithout, Drags;
  }

  lemma Predecessor(cards: Cards, q: Request, m: Item, k: nat) returns (x: Item)
    requires Acceptable(cards, q) && Drags(q, m) && Seen(cards, q, m, m)
    requires 0 < k < |Visible(cards, q)| && Visible(cards, q)[k] == q.moved
    ensures Seen(cards, q, m, x) && Ahead(x, m) && x.id == Visible(cards, q)[k - 1]
    ensures forall y :: Seen(cards, q, m, y) && Ahead(y, m) && y != x ==> Ahead(y, x)
  {
    hide Visible, Seen, Ahead, Acceptable;
    x := ItemAt(cards, q, m, k - 1);
    AheadPlaces(cards, q, m, x, k - 1, m, k);
    forall y | Seen(cards, q, m, y) && Ahead(y, m) && y != x ensures Ahead(y, x) {
      var j := PlaceOf(cards, q, m, y);
      AheadPlaces(cards, q, m, y, j, m, k);
      AheadPlaces(cards, q, m, y, j, x, k - 1);
    }
  }

  lemma Successor(cards: Cards, q: Request, m: Item) returns (x: Item)
    requires Acceptable(cards, q) && Drags(q, m) && Seen(cards, q, m, m)
    requires |Visible(cards, q)| > 1 && Visible(cards, q)[0] == q.moved
    ensures Seen(cards, q, m, x) && x != m && x.id == Visible(cards, q)[1]
    ensures forall y :: Seen(cards, q, m, y) && y != m && y != x ==> Ahead(x, y)
  {
    hide Visible, Seen, Ahead, Acceptable;
    x := ItemAt(cards, q, m, 1);
    AheadPlaces(cards, q, m, x, 1, m, 0);
    forall y | Seen(cards, q, m, y) && y != m && y != x ensures Ahead(x, y) {
      var j := PlaceOf(cards, q, m, y);
      AheadPlaces(cards, q, m, y, j, m, 0);
      AheadPlaces(cards, q, m, x, 1, y, j);
    }
  }

  lemma NoneAhead(cards: Cards, q: Request, m: Item)
    requires Acceptable(cards, q) && Drags(q, m) && Seen(cards, q, m, m)
    requires |Visible(cards, q)| > 0 && Visible(cards, q)[0] == q.moved
    ensures forall y :: Seen(cards, q, m, y) ==> !Ahead(y, m) && (y != m ==> |Visible(cards, q)| > 1)
  {
    hide Visible, Seen, Ahead, Acceptable;
    forall y | Seen(cards, q, m, y) ensures !Ahead(y, m) && (y != m ==> |Visible(cards, q)| > 1) {
      var j := PlaceOf(cards, q, m, y);
      AheadPlaces(cards, q, m, y, j, m, 0);
    }
  }

  /** The moved card stands directly behind the last seen card submitted ahead of it. */
  ghost predicate BehindLast(cards: Cards, q: Request, m: Item, r: Cards)
    requires q.moved in r
  {
    exists x :: && Seen(cards, q, m, x) && Ahead(x, m)
                && (forall y :: Seen(cards, q, m, y) && Ahead(y, m) && y != x ==> Ahead(y, x))
                && x.id in r && r[q.moved].sortOrder == r[x.id].sortOrder + 1
  }

  /** The moved card stands directly before the first other seen card. */
  ghost predicate BeforeFirst(cards: Cards, q: Request, m: Item, r: Cards)
    requires q.moved in r
  {
    exists x :: && Seen(cards, q, m, x) && x != m
                && (forall y :: Seen(cards, q, m, y) && y != m && y != x ==> Ahead(x, y))
                && x.id in r && r[x.id].sortOrder == r[q.moved].sortOrder + 1
  }

  /** The moved card goes directly behind the last seen card submitted ahead of it; without one, directly before the
      first other seen card; without any, to the end of the column. */
  lemma PlacedExactly(cards: Cards, q: Request, m: Item)
    requires Acceptable(cards, q) && Drags(q, m)
    ensures var r := Reordered(cards, q);
            && r[q.moved].status == m.status
            && if exists x :: Seen(cards, q, m, x) && Ahead(x, m) then BehindLast(cards, q, m, r)
               else if exists x :: Seen(cards, q, m, x) && x != m then BeforeFirst(cards, q, m, r)
               else forall c :: InColumn(r, q.archivedBoard, m.status, c) && c != q.moved ==>
                      r[c].sortOrder < r[q.moved].sortOrder
  {
    NewColumn(cards, q, m);
    assert Seen(cards, q, m, m);
    hide Reordered, Visible, Seen, Ahead, InColumn, BehindLast, BeforeFirst;
    var k := Beside(cards, q, m);
    if k > 0 {
      PlacedBehind(cards, q, m, k);
    } else {
      NoneAhead(cards, q, m);
      if |Visible(cards, q)| > 1 {
        PlacedBefore(cards, q, m);
      }
    }
  }

  lemma PlacedBehind(cards: Cards, q: Request, m: Item, k: nat)
    requires Acceptable(cards, q) && Drags(q, m) && Seen(cards, q, m, m)
    requires 0 < k < |Visible(cards, q)| && Visible(cards, q)[k] == q.moved
    requires var r, x := Reordered(cards, q), Visible(cards, q)[k - 1];
             x in r && r[q.moved].sortOrder == r[x].sortOrder + 1
    ensures BehindLast(cards, q, m, Reordered(cards, q))
    ensures exists x :: Seen(cards, q, m, x) && Ahead(x, m)
  {
    hide Reordered, Visible, Seen, Ahead;
    var x := Predecessor(cards, q, m, k);
  }

  lemma PlacedBefore(cards: Cards, q: Request, m: Item)
    requires Acceptable(cards, q) && Drags(q, m) && Seen(cards, q, m, m)
    requires |Visible(cards, q)| > 1 && Visible(cards, q)[0] == q.moved
    requires var r, x := Reordered(cards, q), Visible(cards, q)[1];
             x in r && r[x].sortOrder == r[q.moved].sortOrder + 1
    ensures BeforeFirst(cards, q, m, Reordered(cards, q))
    ensures exists x :: Seen(cards, q, m, x) && x != m
  {
    hide Reordered, Visible, Seen, Ahead;
    var x := Successor(cards, q, m);
  }

  lemma ItemAt(cards: Cards, q: Request, m: Item, n: nat) returns (x: Item)
    requires Acceptable(cards, q) && Drags(q, m) && n < |Visible(cards, q)|
    ensures Seen(cards, q, m, x) && x.id == Visible(cards, q)[n]
  {
    VisibleExactly(cards, q, m);
    hide Visible, Seen;
    assert Visible(cards, q)[n] in Visible(cards, q);
    x :| x in q.items && x.id == Visible(cards, q)[n];
  }

  lemma PlaceOf(cards: Cards, q: Request, m: Item, y: Item) returns (j: nat)
    requires Acceptable(cards, q) && Drags(q, m) && Seen(cards, q, m, y)
    ensures j < |Visible(cards, q)| && Visible(cards, q)[j] == y.id
  {
    VisibleExactly(cards, q, m);
    hide Visible;
    SubmissionOf(q.items, y);
    SubmissionOf(q.items, m);
    j :| 0 <= j < |Visible(cards, q)| && Visible(cards, q)[j] == y.id;
  }

  // ---------- when the client sees what it submitted ----------

  /** Card a is stored before card b of its column. */
  predicate StoredBefore(cards: Cards, a: nat, b: nat) {
    && a in cards && b in cards
    && (cards[a].sortOrder < cards[b].sortOrder || (cards[a].sortOrder == cards[b].sortOrder && a < b))
  }

  /** The seen cards, but for the moved one, were submitted in stored order. */
  ghost predicate SubmittedAsStored(cards: Cards, q: Request, m: Item) {
    forall x, y :: Seen(cards, q, m, x) && Seen(cards, q, m, y) && x != m && y != m && Ahead(x, y) ==>
      StoredBefore(cards, x.id, y.id)
  }

  /** All seen cards end up in submitted order. */
  ghost predicate ShownAsSubmitted(cards: Cards, q: Request, m: Item, r: Cards) {
    forall x, y :: Seen(cards, q, m, x) && Seen(cards, q, m, y) && Ahead(x, y) ==> StoredBefore(r, x.id, y.id)
  }

  /** The client sees exactly the order it submitted if and only if it listed the other seen cards in stored order. */
  lemma FaithfulExactly(cards: Cards, q: Request, m: Item)
    requires Acceptable(cards, q) && Drags(q, m)
    ensures ShownAsSubmitted(cards, q, m, Reordered(cards, q)) <==> SubmittedAsStored(cards, q, m)
  {
    hide Reordered, Acceptable, StoredBefore, Seen, Ahead;
    var r := Reordered(cards, q);
    forall x, y | Seen(cards, q, m, x) && Seen(cards, q, m, y) && x != m && y != m
      ensures StoredBefore(r, x.id, y.id) <==> StoredBefore(cards, x.id, y.id)
    {
      OthersStay(cards, q, m, x, y);
    }
    if SubmittedAsStored(cards, q, m) {
      forall x, y | Seen(cards, q, m, x) && Seen(cards, q, m, y) && Ahead(x, y) ensures StoredBefore(r, x.id, y.id) {
        if x == m {
          MovedAhead(cards, q, m, y);
        } else if y == m {
          MovedBehind(cards, q, m, x);
        }
      }
    }
  }

  lemma SeenStored(cards: Cards, q: Request, m: Item, x: Item)
    requires Acceptable(cards, q) && Drags(q, m) && Seen(cards, q, m, x)
    ensures x == m <==> x.id == q.moved
    ensures x.id in cards && InColumn(Reordered(cards, q), q.archivedBoard, m.status, x.id)
    ensures x != m ==> InColumn(cards, q.archivedBoard, m.status, x.id)
  {
    hide Reordered;
    SubmissionOf(q.items, x);
    SubmissionOf(q.items, m);
    NewColumn(cards, q, m);
  }

  lemma OthersStay(cards: Cards, q: Request, m: Item, x: Item, y: Item)
    requires Acceptable(cards, q) && Drags(q, m) && Seen(cards, q, m, x) && Seen(cards, q, m, y) && x != m && y != m
    ensures StoredBefore(Reordered(cards, q), x.id, y.id) <==> StoredBefore(cards, x.id, y.id)
  {
    hide Reordered, Seen, Acceptable;
    SeenStored(cards, q, m, x);
    SeenStored(cards, q, m, y);
    OthersInOrder(cards, q, m, m.status, x.id, y.id);
    Numbering(cards, q, m, m.status, x.id, y.id);
  }

  lemma LastAhead(cards: Cards, q: Request, m: Item, r: Cards, x: Item) returns (p: Item)
    requires q.moved in r && BehindLast(cards, q, m, r) && Seen(cards, q, m, x) && Ahead(x, m)
    ensures Seen(cards, q, m, p) && Ahead(p, m) && (x == p || Ahead(x, p))
    ensures p.id in r && r[q.moved].sortOrder == r[p.id].sortOrder + 1
  {
    hide Seen, Ahead;
    p :| && Seen(cards, q, m, p) && Ahead(p, m)
         && (forall y :: Seen(cards, q, m, y) && Ahead(y, m) && y != p ==> Ahead(y, p))
         && p.id in r && r[q.moved].sortOrder == r[p.id].sortOrder + 1;
  }

  lemma FirstOther(cards: Cards, q: Request, m: Item, r: Cards, y: Item) returns (f: Item)
    requires q.moved in r && BeforeFirst(cards, q, m, r) && Seen(cards, q, m, y) && y != m
    ensures Seen(cards, q, m, f) && f != m && (y == f || Ahead(f, y))
    ensures f.id in r && r[f.id].sortOrder == r[q.moved].sortOrder + 1
  {
    hide Seen, Ahead;
    f :| && Seen(cards, q, m, f) && f != m
         && (forall z :: Seen(cards, q, m, z) && z != m && z != f ==> Ahead(f, z))
         && f.id in r && r[f.id].sortOrder == r[q.moved].sortOrder + 1;
  }

  lemma AheadOrder(x: Item, y: Item, z: Item)
    ensures !Ahead(x, x)
    ensures Ahead(x, y) && Ahead(y, z) ==> Ahead(x, z)
  {
  }

  /** With the others in stored order, those submitted ahead of the moved card stand before it. */
  lemma MovedBehind(cards: Cards, q: Request, m: Item, x: Item)
    requires Acceptable(cards, q) && Drags(q, m) && SubmittedAsStored(cards, q, m)
    requires Seen(cards, q, m, x) && Ahead(x, m)
    ensures StoredBefore(Reordered(cards, q), x.id, m.id)
  {
    hide Reordered, Seen, Ahead, Acceptable, InColumn, BehindLast, BeforeFirst;
    SeenMoved(cards, q, m);
    PlacedExactly(cards, q, m);
    var p := LastAhead(cards, q, m, Reordered(cards, q), x);
    AheadOrder(m, x, p);
    if x != p {
      OthersStay(cards, q, m, x, p);
    }
  }

  /** And those submitted behind it stand after it. */
  lemma MovedAhead(cards: Cards, q: Request, m: Item, y: Item)
    requires Acceptable(cards, q) && Drags(q, m) && SubmittedAsStored(cards, q, m)
    requires Seen(cards, q, m, y) && Ahead(m, y)
    ensures StoredBefore(Reordered(cards, q), m.id, y.id)
  {
    hide Reordered, Seen, Ahead, Acceptable, InColumn, BehindLast, BeforeFirst, StoredBefore, SubmittedAsStored;
    AheadOrder(m, y, m);
    PlacedExactly(cards, q, m);
    if x :| Seen(cards, q, m, x) && Ahead(x, m) {
      AfterPredecessor(cards, q, m, x, y);
    } else {
      AfterNone(cards, q, m, y);
    }
  }

  lemma AfterPredecessor(cards: Cards, q: Request, m: Item, x: Item, y: Item)
    requires Acceptable(cards, q) && Drags(q, m) && SubmittedAsStored(cards, q, m)
    requires Seen(cards, q, m, y) && Ahead(m, y) && Seen(cards, q, m, x) && Ahead(x, m)
    requires BehindLast(cards, q, m, Reordered(cards, q))
    ensures StoredBefore(Reordered(cards, q), m.id, y.id)
  {
    hide Reordered, Seen, Ahead, Acceptable, InColumn, BehindLast;
    SeenMoved(cards, q, m);
    var p := LastAhead(cards, q, m, Reordered(cards, q), x);
    AheadOrder(m, y, m);
    AheadOrder(p, m, y);
    OthersStay(cards, q, m, p, y);
    SeenStored(cards, q, m, y);
    SeenStored(cards, q, m, p);
    AheadOrder(p, y, p);
    Numbering(cards, q, m, m.status, p.id, y.id);
    Numbering(cards, q, m, m.status, m.id, y.id);
  }

  lemma AfterNone(cards: Cards, q: Request, m: Item, y: Item)
    requires Acceptable(cards, q) && Drags(q, m) && SubmittedAsStored(cards, q, m)
    requires Seen(cards, q, m, y) && y != m
    requires BeforeFirst(cards, q, m, Reordered(cards, q))
    ensures StoredBefore(Reordered(cards, q), m.id, y.id)
  {
    hide Reordered, Seen, Ahead, Acceptable, BeforeFirst;
    SeenMoved(cards, q, m);
    var f := FirstOther(cards, q, m, Reordered(cards, q), y);
    if y != f {
      OthersStay(cards, q, m, f, y);
    }
  }

  lemma SeenMoved(cards: Cards, q: Request, m: Item)
    requires Acceptable(cards, q) && Drags(q, m)
    ensures InColumn(Reordered(cards, q), q.archivedBoard, m.status, m.id)
    ensures m.id == q.moved && q.moved in Reordered(cards, q)
  {
    hide Reordered;
    NewColumn(cards, q, m);
  }
}
