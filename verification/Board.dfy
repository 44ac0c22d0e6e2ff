/** Dragging one card on a possibly filtered board, replayed onto the full stored columns. */
module Board {
  import opened Ordering
  import opened WorkSessions

  datatype Entity = Entity(status: Status, sortOrder: nat, archived: bool, updatedBy: nat, updatedAt: int)

  type Cards = map<nat, Entity>

  /** One submitted card: its id, its column and its place as the client shows it. */
  datatype Item = Item(id: nat, status: Status, sortOrder: nat)

  /** The card being moved, the submitted cards, which board is open, and who moves it when. */
  datatype Request = Request(moved: nat, items: seq<Item>, archivedBoard: bool, actor: nat, at: int)

  predicate Distinct(items: seq<Item>) {
    forall i, j :: 0 <= i < j < |items| ==> items[i].id != items[j].id
  }

  function Submitted(items: seq<Item>): set<nat> { set k | k in items :: k.id }

  function Submission(items: seq<Item>, id: nat): (k: Item)
    requires id in Submitted(items)
    ensures k in items && k.id == id
  {
    if items[0].id == id then items[0] else Submission(items[1..], id)
  }

  /** What the payload must satisfy to be replayed on the stored cards. */
  predicate Acceptable(cards: Cards, q: Request) {
    && Distinct(q.items) && q.moved in Submitted(q.items)
    && q.moved in cards && cards[q.moved].archived == q.archivedBoard
  }

  // ---------- stored columns ----------

  function SortOrders(cards: Cards): map<nat, nat> { map i | i in cards :: cards[i].sortOrder }

  /** Ids of a column of the open board. */
  function Members(cards: Cards, archived: bool, status: Status): set<nat> {
    set i | i in cards && cards[i].archived == archived && cards[i].status == status
  }

  /** A column as the board lists it. */
  function Column(cards: Cards, archived: bool, status: Status): seq<nat> {
    ByRank(SortOrders(cards), Members(cards, archived, status))
  }

  function ColumnWithout(cards: Cards, archived: bool, status: Status, moved: nat): seq<nat> {
    ByRank(SortOrders(cards), Members(cards, archived, status) - {moved})
  }

  // ---------- the visible target column ----------

  function Target(q: Request): Status
    requires q.moved in Submitted(q.items)
  {
    Submission(q.items, q.moved).status
  }

  function Places(items: seq<Item>): map<nat, nat> {
    map i | i in Submitted(items) :: Submission(items, i).sortOrder
  }

  predicate Shown(cards: Cards, q: Request, k: Item, status: Status) {
    k.status == status &&
    (k.id == q.moved || (k.id in cards && cards[k.id].archived == q.archivedBoard && cards[k.id].status == status))
  }

  /** Submitted target cards that really are in the target column, and the moved card. */
  function ShownIds(cards: Cards, q: Request, status: Status): set<nat> {
    set k | k in q.items && Shown(cards, q, k, status) :: k.id
  }

  /** The submitted order of the visible target column. */
  function Visible(cards: Cards, q: Request): seq<nat>
    requires Acceptable(cards, q)
  {
    ByRank(Places(q.items), ShownIds(cards, q, Target(q)))
  }

  // ---------- placement and renumbering ----------

  /** Visible neighbours anchor the moved card; without neighbours it goes last. */
  function Slot(column: seq<nat>, visible: seq<nat>, moved: nat): (i: nat)
    requires moved in visible && forall v :: v in visible && v != moved ==> v in column
    requires forall i, j :: 0 <= i < j < |visible| ==> visible[i] != visible[j]
    ensures i <= |column|
  {
    var k := IndexOf(visible, moved);
    if k > 0 then IndexOf(column, visible[k - 1]) + 1
    else if |visible| > 1 then IndexOf(column, visible[1])
    else |column|
  }

  function InsertAt(column: seq<nat>, i: nat, x: nat): seq<nat>
    requires i <= |column|
  {
    column[..i] + [x] + column[i..]
  }

  /** The target column after the drag. */
  function Placed(cards: Cards, q: Request): seq<nat>
    requires Acceptable(cards, q)
  {
    AnchorsFound(cards, q);
    var column := ColumnWithout(cards, q.archivedBoard, Target(q), q.moved);
    InsertAt(column, Slot(column, Visible(cards, q), q.moved), q.moved)
  }

  function Renumber(c: Entity, index: nat, status: Status, isMoved: bool, q: Request): Entity {
    if c.sortOrder == index && c.status == status then c
    else if isMoved then Entity(status, index, c.archived, q.actor, q.at)
    else Entity(status, index, c.archived, c.updatedBy, c.updatedAt)
  }

  function Numbered(cards: Cards, column: seq<nat>, status: Status, q: Request): (r: Cards)
    ensures r.Keys == cards.Keys
  {
    map i | i in cards ::
      if i in column then Renumber(cards[i], IndexOf(column, i), status, i == q.moved, q) else cards[i]
  }

  /** The stored cards after the drag. */
  function Reordered(cards: Cards, q: Request): (r: Cards)
    requires Acceptable(cards, q)
    ensures r.Keys == cards.Keys
  {
    var from, to := cards[q.moved].status, Target(q);
    var source := ColumnWithout(cards, q.archivedBoard, from, q.moved);
    Numbered(if from == to then cards else Numbered(cards, source, from, q), Placed(cards, q), to, q)
  }

  /** Every anchor is found: visible target cards other than the moved one are in the stored column. */
  lemma AnchorsFound(cards: Cards, q: Request)
    requires Acceptable(cards, q)
    ensures var column, visible := ColumnWithout(cards, q.archivedBoard, Target(q), q.moved), Visible(cards, q);
            && q.moved in visible && q.moved !in column
            && (forall v :: v in visible && v != q.moved ==> v in column)
            && (forall i, j :: 0 <= i < j < |visible| ==> visible[i] != visible[j])
            && (forall i, j :: 0 <= i < j < |column| ==> column[i] != column[j])
  {
    var k := Submission(q.items, q.moved);
    assert Shown(cards, q, k, Target(q));
    NoRepeats(Places(q.items), Visible(cards, q));
    NoRepeats(SortOrders(cards), ColumnWithout(cards, q.archivedBoard, Target(q), q.moved));
  }
}
