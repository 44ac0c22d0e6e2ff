/** The reorder request as it changes the stored cards. */
module BoardStore {
  import opened Ids
  import opened Ordering
  import opened WorkSessions
  import opened Board
  import opened BoardReorder
  import opened BoardResult

  /** Refusals, or the ids of the cards that were written. */
  datatype Response = BadRequest | NotFound | Forbidden | Conflict | Saved(updated: seq<nat>)

  class TaskBoard {
    var cards: Cards

    constructor (cards: Cards)
      ensures this.cards == cards
    {
      this.cards := cards;
    }

    /** Includes the moved card and repeats no card. */
    method CheckPayload(moved: nat, items: seq<Item>) returns (ok: bool)
      ensures ok <==> Distinct(items) && moved in Submitted(items)
    {
      var seen: set<nat> := {};
      for i := 0 to |items|
        invariant seen == Submitted(items[..i])
        invariant Distinct(items[..i])
      {
        var k := items[i];
        assert items[..i + 1] == items[..i] + [k];
        if k.id in seen {
          assert exists j :: 0 <= j < i && items[j].id == items[i].id by {
            var x :| x in items[..i] && x.id == k.id;
          }
          return false;
        }
        assert Submitted(items[..i + 1]) == seen + {k.id};
        seen := seen + {k.id};
      }
      assert items[..|items|] == items;
      return moved in seen;
    }

    /** The ids of one stored column of the open board without the moved card, in stored order. */
    method LoadColumn(archived: bool, status: Status, moved: nat) returns (column: seq<nat>)
      ensures column == ColumnWithout(cards, archived, status, moved)
    {
      hide ByRank, Sorted;
      var ids := Sorted(cards.Keys);
      ghost var wanted := Members(cards, archived, status) - {moved};
      var found: seq<nat> := [];
      for i := 0 to |ids|
        invariant Unrepeated(found) && Elems(found) == Elems(ids[..i]) * wanted
      {
        var c := ids[i];
        Extended(ids, i);
        assert Unrepeated(ids) && c in ids;
        if cards[c].archived == archived && cards[c].status == status && c != moved {
          assert c !in Elems(found);
          AppendUnrepeated(found, c);
          found := found + [c];
        }
      }
      assert ids[..|ids|] == ids;
      assert Elems(found) == wanted;
      assert forall i :: i in found ==> i in Elems(found);
      column := SortByRank(SortOrders(cards), found);
    }

    /** The submitted cards of the target column that are really there, and the moved one, as submitted. */
    method LoadVisible(q: Request) returns (visible: seq<nat>)
      requires Acceptable(cards, q)
      ensures visible == Visible(cards, q)
      ensures forall m, x :: Drags(q, m) && x in q.items ==> (x.id in visible <==> Seen(cards, q, m, x))
      ensures forall m, x, y, i, j ::
                (Drags(q, m) && x in q.items && y in q.items && 0 <= i < j < |visible| && x.id == visible[i]
                 && y.id == visible[j]) ==> Ahead(x, y)
    {
      hide ByRank, Target, Seen, Ahead, Drags;
      ghost var to := Target(q);
      var found: seq<nat> := [];
      for i := 0 to |q.items|
        invariant Unrepeated(found) && Elems(found) == ShownAmong(cards, q, q.items[..i], to)
      {
        var k := q.items[i];
        assert q.items[..i + 1] == q.items[..i] + [k];
        ShownStep(cards, q, q.items[..i], k, to);
        if Shown(cards, q, k, Target(q)) {
          assert k.id !in Elems(found);
          AppendUnrepeated(found, k.id);
          found := found + [k.id];
        }
      }
      assert q.items[..|q.items|] == q.items;
      assert Elems(found) == ShownIds(cards, q, to);
      assert forall i :: i in found ==> i in Elems(found);
      visible := SortByRank(Places(q.items), found);
      SeenInOrder(cards, q, visible);
    }

    /** Puts the moved card beside its visible neighbour. */
    method Place(q: Request, column: seq<nat>, visible: seq<nat>) returns (placed: seq<nat>)
      requires Acceptable(cards, q)
      requires column == ColumnWithout(cards, q.archivedBoard, Target(q), q.moved) && visible == Visible(cards, q)
      ensures placed == Placed(cards, q)
    {
      hide ColumnWithout, Visible;
      AnchorsFound(cards, q);
      var index := Find(visible, q.moved);
      var slot := |column|;
      if index > 0 {
        var anchor := Find(column, visible[index - 1]);
        slot := anchor + 1;
      } else if |visible| > 1 {
        slot := Find(column, visible[1]);
      }
      placed := column[..slot] + [q.moved] + column[slot..];
    }

    /** Renumbers one column, skipping the cards already in place. */
    static method NumberColumn(cards: Cards, column: seq<nat>, status: Status, q: Request)
      returns (objects: Cards, updated: seq<nat>)
      requires Unrepeated(column) && forall i :: i in column ==> i in cards
      ensures objects == Numbered(cards, column, status, q)
      ensures forall i :: i in updated <==> i in cards && objects[i] != cards[i]
    {
      hide IndexOf, Numbered, Unrepeated, Renumber;
      objects, updated := cards, [];
      for n := 0 to |column|
        invariant objects.Keys == cards.Keys
        invariant forall i :: i in cards ==>
          objects[i] == (if i in column[..n] then Renumber(cards[i], IndexOf(column, i), status, i == q.moved, q)
                         else cards[i])
        invariant forall i :: i in updated <==> i in cards && objects[i] != cards[i]
      {
        var c := column[n];
        IndexOfAt(column, n);
        Extended(column, n);
        assert c in column && column[..n + 1] == column[..n] + [c] && c !in column[..n];
        RenumberedCard(cards[c], n, status, c == q.moved, q);
        if !(objects[c].sortOrder == n && objects[c].status == status) {
          var card := objects[c].(sortOrder := n, status := status);
          if c == q.moved {
            card := card.(updatedBy := q.actor, updatedAt := q.at);
          }
          assert card == Renumber(cards[c], n, status, c == q.moved, q);
          objects := objects[c := card];
          updated := updated + [c];
        }
      }
      assert column[..|column|] == column;
      NumberedIs(cards, column, status, q, objects);
    }

    /** Writes only the changed cards. */
    method BulkUpdate(objects: Cards, updated: seq<nat>)
      requires objects.Keys == cards.Keys
      requires forall i :: i in updated <==> i in cards && objects[i] != cards[i]
      modifies this
      ensures cards == objects
    {
      for n := 0 to |updated|
        invariant cards.Keys == objects.Keys
        invariant forall i :: i in objects ==>
                    cards[i] == if i in updated[..n] then objects[i] else old(cards)[i]
      {
        assert updated[..n + 1] == updated[..n] + [updated[n]];
        assert updated[n] in updated;
        cards := cards[updated[n] := objects[updated[n]]];
      }
      assert updated[..|updated|] == updated;
    }

    /** Replays an acceptable drag on the stored columns. */
    method MoveCard(q: Request) returns (updated: seq<nat>)
      requires Acceptable(cards, q)
      modifies this
      ensures cards == Reordered(old(cards), q)
      ensures forall i :: i in updated <==> i in cards && cards[i] != old(cards)[i]
    {
      hide Placed, ColumnWithout, Visible, Renumber, Numbered, Unrepeated, Reordered, Target;
      var from, to := cards[q.moved].status, Target(q);
      var column := LoadColumn(q.archivedBoard, to, q.moved);
      var visible := LoadVisible(q);
      var placed := Place(q, column, visible);
      PlacedMembers(cards, q);
      var objects;
      objects, updated := cards, [];
      if from != to {
        var source := LoadColumn(q.archivedBoard, from, q.moved);
        ColumnMembers(cards, q.archivedBoard, from, q.moved);
        objects, updated := NumberColumn(cards, source, from, q);
      }
      var objects', more := NumberColumn(objects, placed, to, q);
      ChangedOnce(cards, q, objects, objects');
      updated := updated + more;
      BulkUpdate(objects', updated);
    }

    /** One drag: the board shown to the client is read before the cards are locked. */
    method Reorder(q: Request, allowed: bool) returns (r: Response)
      modifies this
      ensures r.BadRequest? <==>
                || (exists i, j :: 0 <= i < j < |q.items| && q.items[i].id == q.items[j].id)
                || (forall x :: x in q.items ==> x.id != q.moved)
      ensures r.NotFound? <==> !r.BadRequest? && q.moved !in old(cards)
      ensures r.Forbidden? <==> !r.BadRequest? && !r.NotFound? && !allowed
      ensures r.Conflict? <==>
                !r.BadRequest? && q.moved in old(cards) && allowed && old(cards)[q.moved].archived != q.archivedBoard
      ensures r.Saved? <==> allowed && Acceptable(old(cards), q)
      ensures !r.Saved? ==> cards == old(cards)
      ensures r.Saved? ==> cards == Reordered(old(cards), q)
      ensures r.Saved? ==> forall i :: i in r.updated <==> i in cards && cards[i] != old(cards)[i]
    {
      hide Reordered;
      var ok := CheckPayload(q.moved, q.items);
      if !ok {
        return BadRequest;
      }
      if q.moved !in cards {
        return NotFound;
      }
      if !allowed {
        return Forbidden;
      }
      if cards[q.moved].archived != q.archivedBoard {
        return Conflict;
      }
      var updated := MoveCard(q);
      r := Saved(updated);
    }

    /** A drag submitted again, by anyone allowed and at any later instant, is accepted and writes nothing. */
    method Resubmit(ghost before: Cards, q: Request, actor: nat, at: int) returns (r: Response)
      requires Acceptable(before, q) && cards == Reordered(before, q)
      modifies this
      ensures r == Saved([]) && cards == old(cards)
    {
      hide Reordered, Acceptable;
      Idempotent(before, q, actor, at);
      r := Reorder(q.(actor := actor, at := at), true);
      SomeMember(r.updated);
    }
  }

  function ShownAmong(cards: Cards, q: Request, items: seq<Item>, status: Status): set<nat> {
    set k | k in items && Shown(cards, q, k, status) :: k.id
  }

  lemma ShownStep(cards: Cards, q: Request, items: seq<Item>, k: Item, status: Status)
    requires Distinct(items + [k])
    ensures ShownAmong(cards, q, items + [k], status)
         == ShownAmong(cards, q, items, status) + if Shown(cards, q, k, status) then {k.id} else {}
    ensures k.id !in ShownAmong(cards, q, items, status)
  {
    var all := items + [k];
    forall x | x in items ensures x.id != k.id {
      var j :| 0 <= j < |items| && items[j] == x;
      assert all[j].id != all[|items|].id;
    }
  }

  lemma Extended(s: seq<nat>, i: nat)
    requires i < |s| && Unrepeated(s)
    ensures Elems(s[..i + 1]) == Elems(s[..i]) + {s[i]} && s[i] !in Elems(s[..i])
  {
    ElemsStep(s, i);
  }

  lemma AppendUnrepeated(s: seq<nat>, x: nat)
    requires Unrepeated(s) && x !in Elems(s)
    ensures Unrepeated(s + [x]) && Elems(s + [x]) == Elems(s) + {x}
  {
    forall i | 0 <= i < |s| ensures s[i] != x {
      assert s[i] in s;
    }
  }

  /** No card is renumbered in both columns. */
  lemma ChangedOnce(cards: Cards, q: Request, objects: Cards, objects': Cards)
    requires Acceptable(cards, q)
    requires var from := cards[q.moved].status;
             objects == if from == Target(q) then cards
                        else Numbered(cards, ColumnWithout(cards, q.archivedBoard, from, q.moved), from, q)
    requires objects' == Numbered(objects, Placed(cards, q), Target(q), q)
    ensures objects' == Reordered(cards, q)
    ensures forall i :: i in cards ==>
              (objects'[i] != cards[i] <==> objects[i] != cards[i] || objects'[i] != objects[i])
  {
    hide Placed, ColumnWithout, Renumber, IndexOf;
    if cards[q.moved].status != Target(q) {
      DisjointColumns(cards, q, ColumnWithout(cards, q.archivedBoard, cards[q.moved].status, q.moved));
    }
  }

  lemma RenumberedCard(c: Entity, index: nat, status: Status, isMoved: bool, q: Request)
    ensures var r := c.(sortOrder := index, status := status);
            Renumber(c, index, status, isMoved, q)
            == if r == c then c else if isMoved then r.(updatedBy := q.actor, updatedAt := q.at) else r
  {
  }

  lemma NumberedIs(cards: Cards, column: seq<nat>, status: Status, q: Request, objects: Cards)
    requires objects.Keys == cards.Keys
    requires forall i :: i in cards ==>
      objects[i] == (if i in column then Renumber(cards[i], IndexOf(column, i), status, i == q.moved, q) else cards[i])
    ensures objects == Numbered(cards, column, status, q)
  {
  }

  lemma ColumnMembers(cards: Cards, archived: bool, status: Status, moved: nat)
    ensures var s := ColumnWithout(cards, archived, status, moved);
            Unrepeated(s) && forall i :: i in s <==> i in Members(cards, archived, status) && i != moved
  {
    NoRepeats(SortOrders(cards), ColumnWithout(cards, archived, status, moved));
  }

  lemma DisjointColumns(cards: Cards, q: Request, source: seq<nat>)
    requires Acceptable(cards, q) && cards[q.moved].status != Target(q)
    requires source == ColumnWithout(cards, q.archivedBoard, cards[q.moved].status, q.moved)
    ensures forall i :: i in source ==> i !in Placed(cards, q)
  {
    PlacedMembers(cards, q);
    ColumnMembers(cards, q.archivedBoard, cards[q.moved].status, q.moved);
  }

  lemma SeenInOrder(cards: Cards, q: Request, visible: seq<nat>)
    requires Acceptable(cards, q) && visible == Visible(cards, q)
    ensures forall m, x :: Drags(q, m) && x in q.items ==> (x.id in visible <==> Seen(cards, q, m, x))
    ensures forall m, x, y, i, j ::
              (Drags(q, m) && x in q.items && y in q.items && 0 <= i < j < |visible| && x.id == visible[i]
               && y.id == visible[j]) ==> Ahead(x, y)
  {
    hide Visible, Seen, Ahead;
    forall m | Drags(q, m) { VisibleExactly(cards, q, m); }
  }
}
