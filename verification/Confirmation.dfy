/** Proposed changes that take effect only when confirmed: once, in time, and on the state they were proposed for. */
module Confirmation {
  import opened Ids
  import WorkSessions

  /** Columns by name; an absent name is an unset column. */
  type Columns = map<string, string>

  /** Proposed values by name; None clears the column. */
  type Changes = map<string, Option<string>>

  function Value(columns: Columns, k: string): Option<string> { if k in columns then Some(columns[k]) else None }

  function Written(columns: Columns, changes: Changes): Columns {
    map k | k in columns.Keys + changes.Keys && (k in changes ==> changes[k].Some?) ::
      if k in changes then changes[k].value else columns[k]
  }

  datatype ProjectRow = ProjectRow(columns: Columns, manager: nat, collaborators: set<nat>, archived: bool,
                                   updatedAt: nat)

  datatype CardRow = CardRow(columns: Columns, project: nat, assignee: Option<nat>, status: WorkSessions.Status,
                             archived: bool, updatedAt: nat)

  /** The records, and the stamp of the latest save in microseconds; every save takes a larger stamp. */
  datatype World = World(projects: map<nat, ProjectRow>, cards: map<nat, CardRow>, stamp: nat)

  datatype Target = OfProject(id: nat) | OfCard(id: nat)

  datatype Operation = Update | Archive

  // ---------- fingerprints ----------

  datatype ProjectKey = ProjectKey(id: nat, manager: nat, archived: bool, collaborators: seq<nat>)

  /** Stamps are hashed to the millisecond. */
  function Millis(stamp: nat): nat { stamp / 1000 }

  datatype CardKey = CardKey(savedAt: nat, archived: bool, status: WorkSessions.Status)

  /** The values that are hashed. */
  datatype Fingerprint =
    | ProjectPrint(columns: Columns, savedAt: nat, archived: bool, project: ProjectKey, cards: map<nat, CardKey>)
    | CardPrint(columns: Columns, savedAt: nat, archived: bool, project: ProjectKey, assignee: Option<nat>)

  const PROJECT_EDITABLE := {"name", "description", "priority", "start_date", "target_end_date"}
  const CARD_EDITABLE := {"title", "description", "priority", "due_date", "blocked_reason"}

  function Editable(t: Target): set<string> { if t.OfProject? then PROJECT_EDITABLE else CARD_EDITABLE }

  function Restrict(columns: Columns, names: set<string>): Columns {
    map k | k in columns && k in names :: columns[k]
  }

  function KeyOf(w: World, p: nat): ProjectKey
    requires p in w.projects
  {
    var row := w.projects[p];
    ProjectKey(p, row.manager, row.archived, Sorted(row.collaborators))
  }

  function CardKeys(w: World, p: nat): map<nat, CardKey> {
    map c | c in w.cards && w.cards[c].project == p ::
      CardKey(Millis(w.cards[c].updatedAt), w.cards[c].archived, w.cards[c].status)
  }

  /** None when the record or its project is missing. */
  function Print(w: World, t: Target): Option<Fingerprint> {
    match t
    case OfProject(p) =>
      if p !in w.projects then None
      else
        var row := w.projects[p];
        Some(ProjectPrint(Restrict(row.columns, Editable(t)), Millis(row.updatedAt), row.archived, KeyOf(w, p),
                          CardKeys(w, p)))
    case OfCard(c) =>
      if c !in w.cards || w.cards[c].project !in w.projects then None
      else
        var row := w.cards[c];
        Some(CardPrint(Restrict(row.columns, Editable(t)), Millis(row.updatedAt), row.archived,
                       KeyOf(w, row.project), row.assignee))
  }

  function SavedAt(w: World, t: Target): Option<nat> {
    match t
    case OfProject(p) => if p in w.projects then Some(w.projects[p].updatedAt) else None
    case OfCard(c) => if c in w.cards then Some(w.cards[c].updatedAt) else None
  }

  /** Archived records, and cards of archived projects, accept no proposed change. */
  predicate Frozen(w: World, t: Target) {
    match t
    case OfProject(p) => p in w.projects && w.projects[p].archived
    case OfCard(c) => c in w.cards && (w.cards[c].archived
                        || (w.cards[c].project in w.projects && w.projects[w.cards[c].project].archived))
  }

  // ---------- actions ----------

  datatype Pending = Pending(user: nat, target: Target, operation: Operation, changes: Changes,
                             seal: Fingerprint, expiresAt: int, consumedAt: Option<int>)

  datatype Audit = Audit(user: nat, target: Target, operation: Operation, action: nat)

  datatype State = State(world: World, actions: map<nat, Pending>, audit: seq<Audit>)

  datatype Refusal = NotFound | ContextExpired | Denied | ActionRejected | InvalidArguments | ContextLimit

  /** Five minutes in microseconds. */
  const PENDING_LIFETIME := 300_000_000

  const PENDING_LIMIT := 20

  /** A user's actions that could still be confirmed. */
  function OpenActions(s: State, user: nat, now: int): set<nat> {
    set i | i in s.actions && s.actions[i].user == user
            && s.actions[i].consumedAt == None && now < s.actions[i].expiresAt
  }

  /** What the surroundings decide: permission now, whether the serializer takes the values, and whether the
      native view accepts the request. */
  datatype Verdict = Verdict(permitted: bool, valid: bool, accepted: bool)

  predicate WellFormed(t: Target, op: Operation, changes: Changes) {
    if op == Update then changes != map[] && changes.Keys <= Editable(t) else changes == map[]
  }

  /** Why a proposal is refused, in the order the checks run. */
  function PrepareRefusal(s: State, user: nat, t: Target, op: Operation, changes: Changes, v: Verdict, now: int)
    : Option<Refusal>
  {
    if Print(s.world, t) == None then Some(NotFound)
    else if !v.permitted then Some(Denied)
    else if Frozen(s.world, t) then Some(ActionRejected)
    else if !WellFormed(t, op, changes) || (op == Update && !v.valid) then Some(InvalidArguments)
    else if |OpenActions(s, user, now)| >= PENDING_LIMIT then Some(ContextLimit)
    else None
  }

  function Proposed(s: State, user: nat, t: Target, op: Operation, changes: Changes, now: int): Pending
    requires Print(s.world, t).Some?
  {
    Pending(user, t, op, changes, Print(s.world, t).value, now + PENDING_LIFETIME, None)
  }

  function ConfirmRefusal(s: State, user: nat, id: nat, v: Verdict, now: int, later: int): Option<Refusal> {
    if id !in s.actions || s.actions[id].user != user then Some(NotFound)
    else
      var a := s.actions[id];
      if a.consumedAt.Some? || a.expiresAt <= now then Some(ContextExpired)
      else if Print(s.world, a.target) != Some(a.seal) then Some(ContextExpired)
      else if !v.permitted then Some(Denied)
      else if Frozen(s.world, a.target) then Some(ActionRejected)
      else if a.expiresAt <= later then Some(ContextExpired)
      else if a.operation == Update && !v.valid then Some(InvalidArguments)
      else if !v.accepted then Some(ActionRejected)
      else None
  }

  /** The native edit, saved with stamp n: an update writes the columns; archiving a project also archives its cards. */
  function Native(w: World, t: Target, op: Operation, changes: Changes, n: nat): World
    requires SavedAt(w, t).Some?
  {
    match t
    case OfProject(p) =>
      var row := w.projects[p];
      if op == Update then
        World(w.projects[p := row.(columns := Written(row.columns, changes), updatedAt := n)], w.cards, n)
      else
        World(w.projects[p := row.(archived := true, updatedAt := n)],
              map c | c in w.cards ::
                if w.cards[c].project == p && !w.cards[c].archived
                then w.cards[c].(archived := true, updatedAt := n) else w.cards[c], n)
    case OfCard(c) =>
      var row := w.cards[c];
      World(w.projects,
            w.cards[c := if op == Update then row.(columns := Written(row.columns, changes), updatedAt := n)
                         else row.(archived := true, updatedAt := n)], n)
  }

  /** A confirmed action: the edit, the consumption and the audit row, together. */
  function Consumed(s: State, id: nat, at: int, stamp: nat): State
    requires id in s.actions && SavedAt(s.world, s.actions[id].target).Some?
  {
    var a := s.actions[id];
    State(Native(s.world, a.target, a.operation, a.changes, stamp),
          s.actions[id := a.(consumedAt := Some(at))],
          s.audit + [Audit(a.user, a.target, a.operation, id)])
  }

  /** Anything else that happens to the records: rows may be created, deleted and changed at will, but no row's
      save stamp goes back, and a row created anew is stamped after everything before it. */
  ghost predicate Edits(w: World, w': World) {
    && w.stamp <= w'.stamp
    && forall t :: SavedAt(w', t).Some? ==>
         && SavedAt(w', t).value <= w'.stamp
         && (w.stamp < SavedAt(w', t).value
             || (SavedAt(w, t).Some? && SavedAt(w, t).value <= SavedAt(w', t).value))
  }

  // ---------- steps and runs ----------

  datatype Event =
    | Prepare(id: nat, user: nat, target: Target, operation: Operation, changes: Changes, verdict: Verdict, now: int)
    | Confirm(user: nat, id: nat, verdict: Verdict, now: int, later: int, stamp: nat)
    | Elsewhere(world: World, now: int)

  /** New actions get unused ids, foreign edits are edits, a request's clock does not go back, and a save is
      stamped later than all saves before it. */
  ghost predicate Possible(s: State, e: Event) {
    match e
    case Prepare(id, _, _, _, _, _, _) => id !in s.actions
    case Confirm(_, _, _, now, later, stamp) => now <= later && s.world.stamp < stamp
    case Elsewhere(w, _) => Edits(s.world, w)
  }

  function Step(s: State, e: Event): State {
    match e
    case Prepare(id, user, t, op, changes, v, now) =>
      if PrepareRefusal(s, user, t, op, changes, v, now).Some? then s
      else s.(actions := s.actions[id := Proposed(s, user, t, op, changes, now)])
    case Confirm(user, id, v, now, later, stamp) =>
      if ConfirmRefusal(s, user, id, v, now, later).Some? then s else Consumed(s, id, later, stamp)
    case Elsewhere(w, _) => s.(world := w)
  }

  /** The step confirms the action. */
  predicate Takes(s: State, e: Event, id: nat) {
    e.Confirm? && e.id == id && ConfirmRefusal(s, e.user, e.id, e.verdict, e.now, e.later) == None
  }

  function Run(s: State, run: seq<Event>): State {
    if run == [] then s else Step(Run(s, run[..|run| - 1]), run[|run| - 1])
  }

  ghost predicate PossibleRun(s: State, run: seq<Event>) {
    run == [] || (PossibleRun(s, run[..|run| - 1]) && Possible(Run(s, run[..|run| - 1]), run[|run| - 1]))
  }

  /** How often the action took effect during a run. */
  function Effects(s: State, run: seq<Event>, id: nat): nat {
    if run == [] then 0
    else
      Effects(s, run[..|run| - 1], id) + if Takes(Run(s, run[..|run| - 1]), run[|run| - 1], id) then 1 else 0
  }

  function AuditsOf(audit: seq<Audit>, id: nat): nat {
    if audit == [] then 0
    else AuditsOf(audit[..|audit| - 1], id) + if audit[|audit| - 1].action == id then 1 else 0
  }

  function BoolToNat(b: bool): nat { if b then 1 else 0 }

  predicate IsConsumed(s: State, id: nat) { id in s.actions && s.actions[id].consumedAt.Some? }

  /** Every record and every proposal was stamped by now; stored proposals are well formed; an audit row exists
      exactly once for consumed actions. */
  ghost predicate Sound(s: State) {
    && (forall t :: SavedAt(s.world, t).Some? ==> SavedAt(s.world, t).value <= s.world.stamp)
    && (forall i :: i in s.actions ==>
          && s.actions[i].seal.savedAt <= Millis(s.world.stamp)
          && WellFormed(s.actions[i].target, s.actions[i].operation, s.actions[i].changes))
    && (forall i :: AuditsOf(s.audit, i) == BoolToNat(IsConsumed(s, i)))
  }

  lemma PrintSaved(w: World, t: Target)
    requires Print(w, t).Some?
    ensures SavedAt(w, t).Some? && Millis(SavedAt(w, t).value) == Print(w, t).value.savedAt
  {
  }

  /** Two states of a project carry the same seal exactly when its editable columns, save stamp to the millisecond,
      archive flag, manager and collaborators agree, and so do the cards it holds with their stamps, flags and
      statuses. */
  lemma SameProjectSeal(w: World, w': World, p: nat)
    requires p in w.projects && p in w'.projects
    ensures Print(w, OfProject(p)) == Print(w', OfProject(p)) <==>
            var a, b := w.projects[p], w'.projects[p];
            && (forall k :: k in {"name", "description", "priority", "start_date", "target_end_date"} ==>
                  Value(a.columns, k) == Value(b.columns, k))
            && Millis(a.updatedAt) == Millis(b.updatedAt) && a.archived == b.archived && a.manager == b.manager
            && a.collaborators == b.collaborators
            && (forall c :: c in w.cards && w.cards[c].project == p <==> c in w'.cards && w'.cards[c].project == p)
            && (forall c :: c in w.cards && w.cards[c].project == p ==>
                  && Millis(w.cards[c].updatedAt) == Millis(w'.cards[c].updatedAt)
                  && w.cards[c].archived == w'.cards[c].archived && w.cards[c].status == w'.cards[c].status)
  {
    hide Print, CardKeys, Restrict, Value, Sorted, Millis, KeyOf;
    SameColumns(w.projects[p].columns, w'.projects[p].columns, PROJECT_EDITABLE);
    SameKey(w, w', p, p);
    SameCards(w, w', p);
    ProjectPrints(w, w', p);
  }

  lemma ProjectPrints(w: World, w': World, p: nat)
    requires p in w.projects && p in w'.projects
    ensures Print(w, OfProject(p)) == Print(w', OfProject(p)) <==>
            var a, b := w.projects[p], w'.projects[p];
            && Restrict(a.columns, PROJECT_EDITABLE) == Restrict(b.columns, PROJECT_EDITABLE)
            && Millis(a.updatedAt) == Millis(b.updatedAt) && a.archived == b.archived
            && KeyOf(w, p) == KeyOf(w', p) && CardKeys(w, p) == CardKeys(w', p)
  {
    hide CardKeys, Restrict, Millis, KeyOf;
  }

  lemma SameKey(w: World, w': World, p: nat, p': nat)
    requires p in w.projects && p' in w'.projects
    ensures KeyOf(w, p) == KeyOf(w', p') <==>
            var a, b := w.projects[p], w'.projects[p'];
            p == p' && a.manager == b.manager && a.archived == b.archived && a.collaborators == b.collaborators
  {
    var a, b := w.projects[p], w'.projects[p'];
    if Sorted(a.collaborators) == Sorted(b.collaborators) {
      SortedInjective(a.collaborators, b.collaborators);
    }
  }

  lemma SameColumns(a: Columns, b: Columns, names: set<string>)
    ensures Restrict(a, names) == Restrict(b, names) <==> forall k :: k in names ==> Value(a, k) == Value(b, k)
  {
    var x, y := Restrict(a, names), Restrict(b, names);
    if x == y {
      forall k | k in names ensures Value(a, k) == Value(b, k) {
        assert k in x <==> k in y;
      }
    }
    if forall k :: k in names ==> Value(a, k) == Value(b, k) {
      forall k ensures (k in x <==> k in y) && (k in x ==> x[k] == y[k]) {
        assert k in names ==> Value(a, k) == Value(b, k);
      }
    }
  }

  lemma SameCards(w: World, w': World, p: nat)
    ensures CardKeys(w, p) == CardKeys(w', p) <==>
            && (forall c :: c in w.cards && w.cards[c].project == p <==> c in w'.cards && w'.cards[c].project == p)
            && (forall c :: c in w.cards && w.cards[c].project == p ==>
                  && Millis(w.cards[c].updatedAt) == Millis(w'.cards[c].updatedAt)
                  && w.cards[c].archived == w'.cards[c].archived && w.cards[c].status == w'.cards[c].status)
  {
    var a, b := CardKeys(w, p), CardKeys(w', p);
    if a == b {
      forall c ensures c in w.cards && w.cards[c].project == p <==> c in w'.cards && w'.cards[c].project == p {
        assert c in a <==> c in b;
      }
      forall c | c in w.cards && w.cards[c].project == p
        ensures Millis(w.cards[c].updatedAt) == Millis(w'.cards[c].updatedAt)
        ensures w.cards[c].archived == w'.cards[c].archived && w.cards[c].status == w'.cards[c].status
      {
        assert a[c] == b[c];
      }
    }
  }

  /** The same for a card: its own columns, stamp, flag and assignee, and the project it belongs to with that
      project's manager, flag and collaborators. */
  lemma SameCardSeal(w: World, w': World, c: nat)
    requires Print(w, OfCard(c)).Some? && Print(w', OfCard(c)).Some?
    ensures Print(w, OfCard(c)) == Print(w', OfCard(c)) <==>
            var a, b := w.cards[c], w'.cards[c];
            var p, r := w.projects[a.project], w'.projects[b.project];
            && (forall k :: k in {"title", "description", "priority", "due_date", "blocked_reason"} ==>
                  Value(a.columns, k) == Value(b.columns, k))
            && Millis(a.updatedAt) == Millis(b.updatedAt) && a.archived == b.archived && a.assignee == b.assignee
            && a.project == b.project && p.manager == r.manager && p.archived == r.archived
            && p.collaborators == r.collaborators
  {
    hide Restrict, Value, Sorted, Millis, KeyOf;
    var a, b := w.cards[c], w'.cards[c];
    SameColumns(a.columns, b.columns, CARD_EDITABLE);
    SameKey(w, w', a.project, b.project);
  }

  function ColumnsOf(w: World, t: Target): Columns
    requires SavedAt(w, t).Some?
  {
    match t
    case OfProject(p) => w.projects[p].columns
    case OfCard(c) => w.cards[c].columns
  }

  /** What a confirmed edit does: an update sets exactly the proposed columns of the target; archiving freezes
      the target and, for a project, every card in it; no other row and no other column changes. */
  lemma NativeEffect(w: World, t: Target, op: Operation, changes: Changes, n: nat)
    requires SavedAt(w, t).Some?
    ensures var r := Native(w, t, op, changes, n);
            && r.projects.Keys == w.projects.Keys && r.cards.Keys == w.cards.Keys
            && (forall p :: p in w.projects && t != OfProject(p) ==> r.projects[p] == w.projects[p])
            && (forall c :: c in w.cards && t != OfCard(c) && t != OfProject(w.cards[c].project) ==>
                  r.cards[c] == w.cards[c])
            && (forall p :: p in w.projects && (op == Archive || t != OfProject(p)) ==>
                  r.projects[p].columns == w.projects[p].columns)
            && (forall c :: c in w.cards && (op == Archive || t != OfCard(c)) ==>
                  r.cards[c].columns == w.cards[c].columns)
            && SavedAt(r, t).Some?
            && (op == Update ==> forall k ::
                  Value(ColumnsOf(r, t), k) == if k in changes then changes[k] else Value(ColumnsOf(w, t), k))
            && (op == Archive ==> Frozen(r, t))
            && (op == Archive && t.OfProject? ==>
                  forall c :: c in r.cards && r.cards[c].project == t.id ==> r.cards[c].archived)
            && (op == Update ==> (Frozen(r, t) <==> Frozen(w, t)))
  {
  }

  lemma NativeEdits(w: World, t: Target, op: Operation, changes: Changes, n: nat)
    requires SavedAt(w, t).Some? && forall x :: SavedAt(w, x).Some? ==> SavedAt(w, x).value <= w.stamp
    requires w.stamp < n
    ensures Edits(w, Native(w, t, op, changes, n))
    ensures SavedAt(Native(w, t, op, changes, n), t) == Some(n) && Native(w, t, op, changes, n).stamp == n
  {
    var r := Native(w, t, op, changes, n);
    forall x ensures SavedAt(r, x) == SavedAt(w, x) || (SavedAt(w, x).Some? && SavedAt(r, x) == Some(n)) {
      match x
      case OfProject(p) =>
      case OfCard(c) =>
    }
  }

  lemma AuditAppend(audit: seq<Audit>, a: Audit, id: nat)
    ensures AuditsOf(audit + [a], id) == AuditsOf(audit, id) + if a.action == id then 1 else 0
  {
    assert (audit + [a])[..|audit|] == audit;
  }

  lemma StepWorld(s: State, e: Event)
    requires Sound(s) && Possible(s, e)
    ensures Edits(s.world, Step(s, e).world)
  {
    match e
    case Prepare(_, _, _, _, _, _, _) =>
    case Confirm(user, id, v, now, later, stamp) =>
      if Takes(s, e, id) {
        var a := s.actions[id];
        PrintSaved(s.world, a.target);
        NativeEdits(s.world, a.target, a.operation, a.changes, stamp);
      }
    case Elsewhere(_, _) =>
  }

  lemma StepSound(s: State, e: Event)
    requires Sound(s) && Possible(s, e)
    ensures Sound(Step(s, e))
  {
    StepWorld(s, e);
    hide Native, Print, Edits, Frozen, WellFormed, Step;
    StepStamps(s, e);
    StepProposals(s, e);
    StepAudits(s, e);
  }

  lemma StepProposals(s: State, e: Event)
    requires Sound(s) && s.world.stamp <= Step(s, e).world.stamp
    ensures var r := Step(s, e);
            forall i :: i in r.actions ==>
              && r.actions[i].seal.savedAt <= Millis(r.world.stamp)
              && WellFormed(r.actions[i].target, r.actions[i].operation, r.actions[i].changes)
  {
    hide Native, Print, Frozen, WellFormed;
    if e.Prepare? && Print(s.world, e.target).Some? {
      PrintSaved(s.world, e.target);
    }
  }

  lemma StepAudits(s: State, e: Event)
    requires Sound(s) && Possible(s, e)
    ensures forall i :: AuditsOf(Step(s, e).audit, i) == BoolToNat(IsConsumed(Step(s, e), i))
  {
    hide Native, Print, Frozen, WellFormed, AuditsOf, Edits;
    if e.Confirm? && Takes(s, e, e.id) {
      var a := s.actions[e.id];
      forall i ensures AuditsOf(Step(s, e).audit, i) == BoolToNat(IsConsumed(Step(s, e), i)) {
        AuditAppend(s.audit, Audit(a.user, a.target, a.operation, e.id), i);
      }
    }
  }

  lemma StepStamps(s: State, e: Event)
    requires Sound(s) && Possible(s, e) && Edits(s.world, Step(s, e).world)
    ensures s.world.stamp <= Step(s, e).world.stamp
    ensures forall t :: SavedAt(Step(s, e).world, t).Some? ==>
                          SavedAt(Step(s, e).world, t).value <= Step(s, e).world.stamp
  {
  }

  lemma {:induction false} RunSound(s: State, run: seq<Event>)
    requires Sound(s) && PossibleRun(s, run)
    ensures Sound(Run(s, run))
  {
    if run != [] {
      RunSound(s, run[..|run| - 1]);
      StepSound(Run(s, run[..|run| - 1]), run[|run| - 1]);
    }
  }

  // ---------- results ----------

  /** A stored action is never altered except by being consumed, and consumption is final. */
  lemma {:induction false} ActionKept(s: State, run: seq<Event>, id: nat)
    requires id in s.actions && PossibleRun(s, run)
    ensures var r := Run(s, run);
            && id in r.actions && r.actions[id] == s.actions[id].(consumedAt := r.actions[id].consumedAt)
            && (IsConsumed(s, id) ==> r.actions[id] == s.actions[id])
  {
    hide Native, Print, Edits;
    if run != [] {
      ActionKept(s, run[..|run| - 1], id);
    }
  }

  /** Once: over any run, an action takes effect at most once, exactly as often as it has confirmation audit
      rows, and exactly when it is consumed. */
  lemma {:induction false} TakesEffectOnce(s: State, run: seq<Event>, id: nat)
    requires Sound(s) && PossibleRun(s, run) && !IsConsumed(s, id)
    ensures Effects(s, run, id) == AuditsOf(Run(s, run).audit, id) == BoolToNat(IsConsumed(Run(s, run), id))
    ensures Effects(s, run, id) <= 1
  {
    hide Native, Print, Edits;
    RunSound(s, run);
    if run != [] {
      TakesEffectOnce(s, run[..|run| - 1], id);
    }
  }

  /** On the proposed state: when an action takes effect, the record's fingerprinted state is the one it was
      proposed on, whatever happened in between, and its lifetime has not passed. */
  lemma TakesEffectOnProposedState(s: State, p: Event, run: seq<Event>, e: Event)
    requires p.Prepare? && Possible(s, p) && Step(s, p) != s
    requires PossibleRun(Step(s, p), run) && Takes(Run(Step(s, p), run), e, p.id)
    ensures Print(Run(Step(s, p), run).world, p.target) == Print(s.world, p.target)
    ensures e.user == p.user && e.now < p.now + 300_000_000 && e.later < p.now + 300_000_000
  {
    hide Native, Print, Edits, Frozen, Editable;
    ActionKept(Step(s, p), run, p.id);
  }

  /** The record has been saved since the action was proposed, or is gone for good. */
  ghost predicate Outdated(s: State, id: nat) {
    && id in s.actions
    && s.actions[id].seal.savedAt < Millis(s.world.stamp)
    && var at := SavedAt(s.world, s.actions[id].target);
       at.Some? ==> s.actions[id].seal.savedAt < Millis(at.value)
  }

  lemma OutdatedRefused(s: State, e: Event, id: nat)
    requires Outdated(s, id)
    ensures !Takes(s, e, id)
  {
    var t := s.actions[id].target;
    if Print(s.world, t).Some? {
      PrintSaved(s.world, t);
    }
  }

  lemma OutdatedStays(s: State, e: Event, id: nat)
    requires Sound(s) && Possible(s, e) && Outdated(s, id)
    ensures Outdated(Step(s, e), id)
  {
    hide Native, Print;
    StepWorld(s, e);
    var one := [e];
    assert one[..0] == [] && Run(s, []) == s && PossibleRun(s, []);
    assert PossibleRun(s, one) && Run(s, one) == Step(s, e);
    ActionKept(s, one, id);
  }

  lemma {:induction false} OutdatedForever(s: State, run: seq<Event>, id: nat)
    requires Sound(s) && PossibleRun(s, run) && Outdated(s, id)
    ensures Outdated(Run(s, run), id)
  {
    hide Outdated, Step, Possible;
    if run != [] {
      var before := run[..|run| - 1];
      OutdatedForever(s, before, id);
      RunSound(s, before);
      OutdatedStays(Run(s, before), run[|run| - 1], id);
    }
  }

  /** Superseded: once any action on a record is confirmed, no action already proposed on that record can ever
      take effect again, in any continuation, even if the record is restored, deleted or created anew; this
      needs the confirming save to fall in a later millisecond than the save the other action had sealed. */
  lemma ConfirmationSupersedes(s: State, c: Event, id: nat, other: nat, run: seq<Event>, e: Event)
    requires Sound(s) && Takes(s, c, id) && Possible(s, c)
    requires other in s.actions && s.actions[other].target == s.actions[id].target
    requires s.actions[other].seal.savedAt < Millis(c.stamp)
    requires PossibleRun(Step(s, c), run)
    ensures !Takes(Run(Step(s, c), run), e, other)
  {
    var a := s.actions[id];
    PrintSaved(s.world, a.target);
    NativeEdits(s.world, a.target, a.operation, a.changes, c.stamp);
    StepSound(s, c);
    assert Outdated(Step(s, c), other);
    OutdatedForever(Step(s, c), run, other);
    OutdatedRefused(Run(Step(s, c), run), e, other);
  }

  /** The seal of the record after an update. */
  function UpdatedSeal(seal: Fingerprint, changes: Changes, n: nat): Fingerprint {
    seal.(columns := Written(seal.columns, changes), savedAt := Millis(n))
  }

  lemma WrittenWithin(columns: Columns, changes: Changes, names: set<string>)
    requires changes.Keys <= names
    ensures Restrict(Written(columns, changes), names) == Written(Restrict(columns, names), changes)
  {
  }

  lemma UpdatePrint(w: World, t: Target, changes: Changes, n: nat)
    requires Print(w, t).Some? && changes.Keys <= Editable(t)
    ensures Print(Native(w, t, Update, changes, n), t) == Some(UpdatedSeal(Print(w, t).value, changes, n))
  {
    PrintSaved(w, t);
    WrittenWithin(ColumnsOf(w, t), changes, Editable(t));
    hide Restrict, Written, Editable, Millis;
    match t
    case OfProject(p) => assert CardKeys(Native(w, t, Update, changes, n), p) == CardKeys(w, p);
    case OfCard(c) =>
  }

  /** Within one millisecond the stamp alone does not break a seal: an edit leaves the seal of its own record
      intact exactly when it is an update, saved in the millisecond of the save before it, that sets or clears
      every column to what it already is. */
  lemma SealSurvives(w: World, t: Target, op: Operation, changes: Changes, n: nat)
    requires Print(w, t).Some? && !Frozen(w, t) && WellFormed(t, op, changes)
    ensures Print(Native(w, t, op, changes, n), t) == Print(w, t) <==>
            && op == Update && Millis(n) == Print(w, t).value.savedAt
            && forall k :: k in changes ==> Value(ColumnsOf(w, t), k) == changes[k]
  {
    PrintSaved(w, t);
    if op == Update {
      UpdatePrint(w, t, changes, n);
      SameColumns(Written(ColumnsOf(w, t), changes), ColumnsOf(w, t), Editable(t));
      WrittenWithin(ColumnsOf(w, t), changes, Editable(t));
      assert Print(w, t).value.columns == Restrict(ColumnsOf(w, t), Editable(t));
      WrittenValues(ColumnsOf(w, t), changes);
      hide Print, Native, Restrict, Written, Value, Editable;
    } else {
      NativeEffect(w, t, op, changes, n);
    }
  }

  lemma WrittenValues(columns: Columns, changes: Changes)
    ensures forall k :: Value(Written(columns, changes), k) == if k in changes then changes[k] else Value(columns, k)
  {
  }

  /** Some confirmation not before the given instant would make the action take effect. */
  ghost predicate Confirmable(s: State, id: nat, from: int) {
    exists e: Event :: e.Confirm? && from <= e.now && Possible(s, e) && Takes(s, e, id)
  }

  /** When an action can be confirmed at all from an instant on, everything outside this record permitting. */
  lemma ConfirmableIff(s: State, id: nat, from: int)
    requires id in s.actions
    ensures var a := s.actions[id];
            Confirmable(s, id, from) <==>
            && a.consumedAt.None? && from < a.expiresAt
            && Print(s.world, a.target) == Some(a.seal) && !Frozen(s.world, a.target)
  {
    hide Print, Frozen;
    var a := s.actions[id];
    if && a.consumedAt.None? && from < a.expiresAt
       && Print(s.world, a.target) == Some(a.seal) && !Frozen(s.world, a.target)
    {
      var e := Confirm(a.user, id, Verdict(true, true, true), from, from, s.world.stamp + 1);
      assert Possible(s, e) && Takes(s, e, id);
    }
  }

  /** After a confirmation, another action on the record can still be confirmed exactly when the confirmed one was
      an update and the other one, not consumed and in time, was sealed on the very state this update produced, in
      the same millisecond. */
  lemma StillConfirmable(s: State, c: Event, id: nat, other: nat)
    requires Sound(s) && Takes(s, c, id) && Possible(s, c)
    requires other in s.actions && other != id && s.actions[other].target == s.actions[id].target
    ensures var a, b := s.actions[id], s.actions[other];
            Confirmable(Step(s, c), other, c.later) <==>
            && a.operation == Update && b.consumedAt.None? && c.later < b.expiresAt
            && b.seal == UpdatedSeal(a.seal, a.changes, c.stamp)
  {
    var a := s.actions[id];
    PrintSaved(s.world, a.target);
    NativeEffect(s.world, a.target, a.operation, a.changes, c.stamp);
    if a.operation == Update {
      UpdatePrint(s.world, a.target, a.changes, c.stamp);
    }
    hide Native, Print, Frozen, UpdatedSeal, Confirmable;
    ConfirmableIff(Step(s, c), other, c.later);
  }

  /** Of two proposals made on the same state of a record, the second can still be confirmed after the first
      exactly when it is open and the first was an update, saved in the millisecond of the sealed save, that set or
      cleared every column to what it already was. */
  lemma SameStateStillConfirmable(s: State, c: Event, id: nat, other: nat)
    requires Sound(s) && Takes(s, c, id) && Possible(s, c)
    requires other in s.actions && other != id && s.actions[other].target == s.actions[id].target
    requires s.actions[other].seal == s.actions[id].seal
    ensures var a, b := s.actions[id], s.actions[other];
            && SavedAt(s.world, a.target).Some?
            && (Confirmable(Step(s, c), other, c.later) <==>
                && b.consumedAt.None? && c.later < b.expiresAt
                && a.operation == Update && Millis(c.stamp) == a.seal.savedAt
                && forall k :: k in a.changes ==> Value(ColumnsOf(s.world, a.target), k) == a.changes[k])
  {
    var a := s.actions[id];
    PrintSaved(s.world, a.target);
    SealSurvives(s.world, a.target, a.operation, a.changes, c.stamp);
    if a.operation == Update {
      UpdatePrint(s.world, a.target, a.changes, c.stamp);
    }
    hide Native, Print, Frozen, UpdatedSeal, Confirmable, ColumnsOf;
    StillConfirmable(s, c, id, other);
  }

  /** Such a case: two proposals to keep a project's name, the first confirmed in the millisecond of the sealed
      save. The second can still be confirmed. */
  lemma SameMillisecondNotSuperseded()
    ensures exists s: State, c: Event ::
              && Sound(s) && Possible(s, c) && Takes(s, c, 0) && 1 in s.actions
              && s.actions[1].target == s.actions[0].target && c.Confirm? && Confirmable(Step(s, c), 1, c.later)
  {
    var s, c := TwoKeepers(), Confirm(0, 0, Verdict(true, true, true), 0, 0, 1001);
    hide TwoKeepers, Confirmable;
    SameStateStillConfirmable(s, c, 0, 1);
  }

  function TwoKeepers(): (s: State)
    ensures Sound(s) && s.actions.Keys == {0, 1} && s.actions[0] == s.actions[1] && s.world.stamp == 1000
    ensures ConfirmRefusal(s, 0, 0, Verdict(true, true, true), 0, 0) == None
    ensures var a := s.actions[0];
            && a.operation == Update && a.seal.savedAt == 1 && a.consumedAt.None? && 0 < a.expiresAt
            && SavedAt(s.world, a.target).Some?
            && forall k :: k in a.changes ==> Value(ColumnsOf(s.world, a.target), k) == a.changes[k]
  {
    var w := World(map[0 := ProjectRow(map["name" := "Studio"], 0, {}, false, 1000)], map[], 1000);
    var changes := map["name" := Some("Studio")];
    var a := Pending(0, OfProject(0), Update, changes, Print(w, OfProject(0)).value, 10, None);
    assert changes.Keys == {"name"} && "name" in PROJECT_EDITABLE;
    State(w, map[0 := a, 1 := a], [])
  }

  // ---------- the limit on open actions ----------

  function TimeOf(e: Event): int { e.now }

  lemma SubsetSize(a: set<nat>, b: set<nat>)
    requires a <= b
    ensures |a| <= |b|
  {
    assert b == a + (b - a);
  }

  lemma StepOpen(s: State, e: Event, user: nat, now: int)
    requires Possible(s, e) && TimeOf(e) <= now
    requires |OpenActions(s, user, TimeOf(e))| <= 20
    ensures |OpenActions(Step(s, e), user, now)| <= 20
  {
    hide Native, Print, Edits, Frozen, Editable;
    var before, after := OpenActions(s, user, TimeOf(e)), OpenActions(Step(s, e), user, now);
    if e.Prepare? && e.user == user && Step(s, e) != s {
      assert after <= before + {e.id};
      SubsetSize(after, before + {e.id});
    } else {
      assert after <= before;
      SubsetSize(after, before);
    }
  }

  /** No user ever has more than twenty actions open, at any instant of any run whose clock never goes back. */
  lemma {:induction false} OpenActionsBounded(s: State, run: seq<Event>, user: nat, start: int, now: int)
    requires PossibleRun(s, run) && |OpenActions(s, user, start)| <= 20 && start <= now
    requires forall i :: 0 <= i < |run| ==> start <= TimeOf(run[i]) <= now
    requires forall i, j :: 0 <= i < j < |run| ==> TimeOf(run[i]) <= TimeOf(run[j])
    ensures |OpenActions(Run(s, run), user, now)| <= 20
  {
    hide Step, Possible;
    if run == [] {
      SubsetSize(OpenActions(s, user, now), OpenActions(s, user, start));
    } else {
      var before, e := run[..|run| - 1], run[|run| - 1];
      OpenActionsBounded(s, before, user, start, TimeOf(e));
      StepOpen(Run(s, before), e, user, now);
    }
  }

  // ---------- showing a proposal again ----------

  datatype Replay = Completed | Lapsed | Failed(why: Refusal) | Shown(action: Pending)

  function ReplayOf(s: State, user: nat, id: nat, v: Verdict, now: int): Replay {
    if id !in s.actions || s.actions[id].user != user then Lapsed
    else
      var a := s.actions[id];
      if a.consumedAt.Some? then Completed
      else if a.expiresAt <= now then Lapsed
      else if Print(s.world, a.target) == None then Failed(NotFound)
      else if !v.permitted then Failed(Denied)
      else if Frozen(s.world, a.target) then Failed(ActionRejected)
      else if Print(s.world, a.target) != Some(a.seal) then Failed(ContextExpired)
      else Shown(a)
  }

  /** A proposal is shown again exactly when confirming it at that instant would be refused by nothing but the
      edit itself. */
  lemma ShownIffConfirmable(s: State, user: nat, id: nat, v: Verdict, now: int)
    ensures ReplayOf(s, user, id, v, now).Shown? <==>
            ConfirmRefusal(s, user, id, v.(valid := true, accepted := true), now, now) == None
  {
    hide Print, Frozen;
  }
}
