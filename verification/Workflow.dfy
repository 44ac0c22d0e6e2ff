/** Workflow requests as atomic steps on the tables, and what every step keeps. */
module Workflow {
  import opened Ids
  import opened WorkSessions

  /** Requests that change who works on which card. None leaves the stored value unchanged. */
  datatype Edit =
    | SetStatus(task: nat, status: Status)
    | CreateTask(task: nat, project: nat, assignee: Option<nat>, status: Status, archived: bool)
    | PatchTask(task: nat, toProject: Option<nat>, toAssignee: Option<Option<nat>>,
                toStatus: Option<Status>, toArchived: Option<bool>)
    | ArchiveTask(task: nat, archived: bool)
    | Reassign(task: nat, user: nat)
    | AcceptAssignment(task: nat, user: nat)
    | CreateProject(project: nat, row: Project)
    | PatchProject(project: nat, manager: Option<nat>, collaborators: Option<set<nat>>, toArchived: Option<bool>)
    | SetActive(user: nat, active: bool)
    | AdminSaveTask(task: nat, taskRow: Task)
    | AdminSaveProject(project: nat, row: Project)

  /** Requests on time rows, and deletions with their cascades. */
  datatype Upkeep =
    | LogTime(task: nat, user: nat, minutes: nat, workDate: int)
    | SaveEntry(id: Option<nat>, entry: Entry)
    | DeleteEntries(ids: set<nat>)
    | DeleteTask(task: nat)
    | DeleteProject(project: nat)

  datatype Step = Change(edit: Edit) | Keep(upkeep: Upkeep)

  // ---------- edits ----------

  /** The tables after the request's own writes, and the cards it then reconciles, in order. */
  datatype Edited = Edited(state: State, todo: seq<nat>)

  predicate Referential(s: State) {
    forall t :: t in s.tasks ==> Known(s, t)
  }

  function TasksOf(s: State, p: nat): set<nat> {
    set t | t in s.tasks && s.tasks[t].project == p
  }

  /** The cards a worker's activation can matter to. */
  function TasksAround(s: State, u: nat): set<nat>
    requires Referential(s)
  {
    set t | t in s.tasks &&
            (u in Users(s.sessions, t) || s.tasks[t].assignee == Some(u) ||
             s.projects[s.tasks[t].project].manager == u || u in s.projects[s.tasks[t].project].collaborators)
  }

  function ArchiveCards(s: State, ts: set<nat>): State {
    s.(tasks := map t | t in s.tasks :: if t in ts then s.tasks[t].(archived := true) else s.tasks[t])
  }

  function WriteTask(s: State, t: nat, k: Task): State { s.(tasks := s.tasks[t := k]) }

  /** Writing one card row; the serializer refuses an active card inside an archived project. */
  function SaveTask(s: State, t: nat, k: Task): Edited {
    if k.project !in s.projects || (s.projects[k.project].archived && !k.archived) then Edited(s, [])
    else Edited(WriteTask(s, t, k), [t])
  }

  /** A card row with the submitted columns, the others as they were. */
  function Patched(k: Task, p: Option<nat>, assignee: Option<Option<nat>>, status: Option<Status>,
                   archived: Option<bool>): Task {
    k.(project := if p.Some? then p.value else k.project,
       assignee := if assignee.Some? then assignee.value else k.assignee,
       status := if status.Some? then status.value else k.status,
       archived := if archived.Some? then archived.value else k.archived)
  }

  predicate ActiveOrNone(s: State, u: Option<nat>) { u.Some? ==> u.value in s.active }

  function Writes(s: State, e: Edit): Edited
    requires Referential(s)
  {
    match e
    case SetStatus(t, status) =>
      if t !in s.tasks then Edited(s, [])
      else Edited(WriteTask(s, t, s.tasks[t].(status := status)), [t])
    case CreateTask(t, p, assignee, status, archived) =>
      if t in s.tasks || !ActiveOrNone(s, assignee) then Edited(s, [])
      else SaveTask(s, t, Task(p, assignee, status, archived, None, 0))
    case PatchTask(t, p, assignee, status, archived) =>
      if t !in s.tasks || (assignee.Some? && !ActiveOrNone(s, assignee.value)) then Edited(s, [])
      else
        SaveTask(s, t, Patched(s.tasks[t], p, assignee, status, archived))
    case ArchiveTask(t, archived) =>
      if t !in s.tasks then Edited(s, []) else SaveTask(s, t, s.tasks[t].(archived := archived))
    case Reassign(t, u) =>
      if t !in s.tasks || u !in s.active then Edited(s, [])
      else Edited(WriteTask(s, t, s.tasks[t].(assignee := Some(u))), [t])
    case AcceptAssignment(t, u) =>
      if t !in s.tasks || s.tasks[t].assignee != None then Edited(s, [])
      else Edited(WriteTask(s, t, s.tasks[t].(assignee := Some(u))), [t])
    case CreateProject(p, row) =>
      if p in s.projects || row.manager !in s.active || !(row.collaborators <= s.active) then Edited(s, [])
      else Edited(s.(projects := s.projects[p := row]), [])
    case PatchProject(p, manager, collaborators, archived) =>
      if p !in s.projects || !ActiveOrNone(s, manager)
         || (collaborators.Some? && !(collaborators.value <= s.active)) then Edited(s, [])
      else
        var was := s.projects[p];
        var row := Project(if manager.Some? then manager.value else was.manager,
                           if collaborators.Some? then collaborators.value else was.collaborators,
                           if archived.Some? then archived.value else was.archived);
        var saved := s.(projects := s.projects[p := row]);
        Edited(if row.archived && !was.archived then ArchiveCards(saved, TasksOf(s, p)) else saved,
               Sorted(TasksOf(s, p)))
    case SetActive(u, active) =>
      if (u in s.active) == active then Edited(s, [])
      else
        var saved := s.(active := if active then s.active + {u} else s.active - {u});
        Edited(saved, Sorted(TasksAround(saved, u)))
    case AdminSaveTask(t, row) =>
      if row.project !in s.projects then Edited(s, [])
      else
        var k := row.(archived := row.archived || s.projects[row.project].archived);
        Edited(Recalculate(WriteTask(s, t, k), t), [t])
    case AdminSaveProject(p, row) =>
      var saved := s.(projects := s.projects[p := row]);
      Edited(if row.archived then ArchiveCards(saved, TasksOf(s, p)) else saved, Sorted(TasksOf(s, p)))
  }

  function ReconcileAll(s: State, todo: seq<nat>, now: int): (r: State)
    requires forall t :: t in todo ==> Known(s, t)
    ensures SameWorkflow(s, r)
  {
    if todo == [] then s
    else
      var before, t := ReconcileAll(s, todo[..|todo| - 1], now), todo[|todo| - 1];
      assert t in todo && Known(s, t);
      KnownStays(s, before, t);
      Reconcile(before, t, now)
  }

  lemma KnownStays(s: State, r: State, t: nat)
    requires SameWorkflow(s, r) && Known(s, t)
    ensures Known(r, t)
  {
    assert r.tasks[t].project == s.tasks[t].project;
  }

  // ---------- upkeep ----------

  function DropRows(rows: seq<Session>, ts: set<nat>): seq<Session> {
    if rows == [] then []
    else
      var r := rows[|rows| - 1];
      DropRows(rows[..|rows| - 1], ts) + if r.task in ts then [] else [r]
  }

  function DropEntries(es: seq<Entry>, ts: set<nat>, ids: set<nat>): seq<Entry> {
    if es == [] then []
    else
      var e := es[|es| - 1];
      DropEntries(es[..|es| - 1], ts, ids) + if e.task in ts || e.id in ids then [] else [e]
  }

  function DeleteTasks(s: State, ts: set<nat>): State {
    s.(tasks := s.tasks - ts, sessions := DropRows(s.sessions, ts), entries := DropEntries(s.entries, ts, {}))
  }

  function RecalculateAll(s: State, ts: set<nat>): State {
    s.(tasks := map t | t in s.tasks ::
         if t in ts then s.tasks[t].(actualMinutes := Logged(s.entries, Card(t))) else s.tasks[t])
  }

  function TasksOfEntries(es: seq<Entry>, ids: set<nat>): set<nat> {
    set e | e in es && e.id in ids :: e.task
  }

  /** A time row as saved by hand. */
  function Manual(row: Entry, id: nat): Entry { row.(id := id, automatic := false) }

  function ReplaceEntry(es: seq<Entry>, id: nat, row: Entry): seq<Entry> {
    seq(|es|, i requires 0 <= i < |es| => if es[i].id == id then Manual(row, id) else es[i])
  }

  predicate HasEntry(es: seq<Entry>, id: nat) { exists e :: e in es && e.id == id }

  /** A save names no row yet, a stored row, or a deleted one that its history restores under its old id; an id
      never given out names nothing. */
  predicate Savable(s: State, id: Option<nat>, row: Entry) {
    row.task in s.tasks && (id.Some? ==> id.value < s.nextEntry)
  }

  /** The card of the saved row, and the card that held it before. */
  function Touched(es: seq<Entry>, id: Option<nat>, row: Entry): set<nat> {
    {row.task} + if id.Some? then TasksOfEntries(es, {id.value}) else {}
  }

  function Maintain(s: State, k: Upkeep): State {
    match k
    case LogTime(t, u, minutes, date) =>
      if t !in s.tasks || minutes == 0 then s
      else
        Recalculate(s.(entries := s.entries + [Entry(s.nextEntry, t, u, minutes, date, false)],
                       nextEntry := s.nextEntry + 1), t)
    case SaveEntry(id, row) =>
      if !Savable(s, id, row) then s
      else
        var touched := Touched(s.entries, id, row);
        if id.None? then
          RecalculateAll(s.(entries := s.entries + [Manual(row, s.nextEntry)], nextEntry := s.nextEntry + 1), touched)
        else if HasEntry(s.entries, id.value) then
          RecalculateAll(s.(entries := ReplaceEntry(s.entries, id.value, row)), touched)
        else
          RecalculateAll(s.(entries := s.entries + [Manual(row, id.value)]), touched)
    case DeleteEntries(ids) =>
      RecalculateAll(s.(entries := DropEntries(s.entries, {}, ids)), TasksOfEntries(s.entries, ids))
    case DeleteTask(t) => DeleteTasks(s, {t})
    case DeleteProject(p) =>
      var cleared := DeleteTasks(s, TasksOf(s, p));
      cleared.(projects := s.projects - {p})
  }

  // ---------- the invariant ----------

  /** Referential integrity, archived projects hold only archived cards, at most one timer per card and
      worker and none on missing cards, time rows have distinct ids, cached totals equal the sum of
      their rows. */
  ghost predicate Sound(s: State) {
    && Referential(s)
    && (forall t :: t in s.tasks && s.projects[s.tasks[t].project].archived ==> s.tasks[t].archived)
    && (forall t, u :: Timers(s.sessions, t, u) <= if t in s.tasks then 1 else 0)
    && (forall e :: e in s.entries ==> e.task in s.tasks)
    && RowIds(s.entries, s.nextEntry)
    && (forall t :: t in s.tasks ==> s.tasks[t].actualMinutes == Logged(s.entries, Card(t)))
  }

  /** Exactly the participants hold one timer each, and the cached start is the earliest of them. */
  ghost predicate Settled(s: State, t: nat)
    requires Known(s, t)
  {
    && (forall u :: Timers(s.sessions, t, u) == if u in Participants(s, t) then 1 else 0)
    && s.tasks[t].workStartedAt == MinStart(s.sessions, t)
  }

  /** Sound, and every card outside todo is settled. */
  ghost predicate Pending(s: State, todo: set<nat>) {
    Sound(s) && forall t :: t in s.tasks && t !in todo ==> Settled(s, t)
  }

  ghost predicate Valid(s: State) { Pending(s, {}) }

  lemma LoggedElsewhere(es: seq<Entry>, t: nat)
    requires forall e :: e in es ==> e.task != t
    ensures forall w: Scope :: w.task == t ==> Logged(es, w) == 0
  {
    if es != [] {
      LoggedElsewhere(es[..|es| - 1], t);
    }
  }

  lemma ReconcileLogs(s: State, t: nat, now: int, t': nat)
    requires Known(s, t)
    ensures forall e :: e in Reconcile(s, t, now).entries ==> e in s.entries || e.task == t
    ensures t' != t ==> Logged(Reconcile(s, t, now).entries, Card(t')) == Logged(s.entries, Card(t'))
  {
    var closing := Closing(s.sessions, t, Participants(s, t));
    ClosingOnly(s.sessions, t, Participants(s, t));
    ClosingEntriesRows(closing, now, s.nextEntry, t);
    if t' != t {
      LoggedElsewhere(ClosingEntries(closing, now, s.nextEntry), t');
      LoggedAppend(s.entries, ClosingEntries(closing, now, s.nextEntry), Card(t'));
    }
  }

  lemma ReconcileRow(s: State, t: nat, now: int)
    requires Known(s, t) && s.tasks[t].actualMinutes == Logged(s.entries, Card(t))
    ensures var r := Reconcile(s, t, now);
            && r.tasks[t].workStartedAt == MinStart(r.sessions, t)
            && r.tasks[t].actualMinutes == Logged(r.entries, Card(t))
            && forall t' :: t' in s.tasks && t' != t ==> r.tasks[t'] == s.tasks[t']
  {
    hide Participants, Keeping, Opening, Users;
    var r := Reconcile(s, t, now);
    assert r.entries == s.entries || r.tasks[t].actualMinutes == Logged(r.entries, Card(t));
  }

  lemma ReconcileSound(s: State, t: nat, now: int)
    requires Sound(s) && t in s.tasks
    ensures Sound(Reconcile(s, t, now))
  {
    hide Reconcile, Participants;
    var r := Reconcile(s, t, now);
    ReconcileRow(s, t, now);
    forall t', u ensures Timers(r.sessions, t', u) <= if t' in s.tasks then 1 else 0 {
      ReconcileTimers(s, t, now, t', u);
    }
    forall t' ensures t' != t ==> Logged(r.entries, Card(t')) == Logged(s.entries, Card(t')) {
      ReconcileLogs(s, t, now, t');
    }
    ReconcileLogs(s, t, now, t);
    ReconcileIds(s, t, now);
  }

  /** Reconciling a card settles it and unsettles no other. */
  lemma ReconcileSettles(s: State, t: nat, now: int, todo: set<nat>)
    requires Pending(s, todo) && t in s.tasks
    ensures Pending(Reconcile(s, t, now), todo - {t})
  {
    ReconcileSound(s, t, now);
    ReconcileRow(s, t, now);
    var r := Reconcile(s, t, now);
    forall t' | t' in r.tasks && t' !in todo - {t} ensures Settled(r, t') {
      hide Reconcile, Participants, Sound;
      SettledAfter(s, t, now, t', todo);
    }
  }

  lemma SettledAfter(s: State, t: nat, now: int, t': nat, todo: set<nat>)
    requires Pending(s, todo) && t in s.tasks && t' in s.tasks && (t' == t || t' !in todo)
    ensures Known(Reconcile(s, t, now), t') && Settled(Reconcile(s, t, now), t')
  {
    hide Reconcile;
    var r := Reconcile(s, t, now);
    ReconcileRow(s, t, now);
    SameParticipants(s, r);
    hide Participants;
    forall u ensures Timers(r.sessions, t', u) == if u in Participants(r, t') then 1 else 0 {
      ReconcileTimers(s, t, now, t', u);
    }
    ReconcileTimers(s, t, now, t', 0);
  }

  lemma SameParticipants(s: State, r: State)
    requires Referential(s) && SameWorkflow(s, r)
    ensures Referential(r)
    ensures forall t :: t in s.tasks ==> Participants(r, t) == Participants(s, t)
  {
  }

  lemma {:induction false} ReconcileAllSettles(s: State, todo: seq<nat>, now: int, rest: set<nat>)
    requires Pending(s, (set t | t in todo) + rest) && forall t :: t in todo ==> t in s.tasks
    ensures Pending(ReconcileAll(s, todo, now), rest)
  {
    if todo == [] {
      assert (set t | t in todo) + rest == rest;
    } else {
      var before, t := todo[..|todo| - 1], todo[|todo| - 1];
      assert todo == before + [t];
      assert (set t' | t' in todo) + rest == (set t' | t' in before) + (rest + {t});
      ReconcileAllSettles(s, before, now, rest + {t});
      ReconcileSettles(ReconcileAll(s, before, now), t, now, rest + {t});
      assert forall r: State :: Pending(r, rest + {t} - {t}) ==> Pending(r, rest);
    }
  }

  // ---------- every step keeps the invariant ----------

  function Apply(s: State, step: Step, now: int): State
    requires Valid(s)
  {
    match step
    case Change(e) =>
      WritesPending(s, e);
      var w := Writes(s, e);
      ReconcileAll(w.state, w.todo, now)
    case Keep(k) => Maintain(s, k)
  }

  lemma WriteTaskPending(s: State, t: nat, k: Task)
    requires Valid(s) && k.project in s.projects && (s.projects[k.project].archived ==> k.archived)
    requires k.actualMinutes == Logged(s.entries, Card(t))
    ensures Pending(WriteTask(s, t, k), {t})
  {
    var r := WriteTask(s, t, k);
    forall t' | t' in r.tasks && t' != t ensures Settled(r, t') {
      assert Settled(s, t');
      assert Participants(r, t') == Participants(s, t');
    }
  }

  lemma NewCard(s: State, t: nat)
    requires Sound(s) && t !in s.tasks
    ensures Logged(s.entries, Card(t)) == 0
  {
    LoggedElsewhere(s.entries, t);
  }

  lemma ProjectPending(s: State, p: nat, row: Project, archive: bool)
    requires Valid(s)
    requires row.archived ==> archive || (p in s.projects && s.projects[p].archived)
    ensures var saved := s.(projects := s.projects[p := row]);
            Pending(if archive then ArchiveCards(saved, TasksOf(s, p)) else saved, TasksOf(s, p))
  {
    var saved := s.(projects := s.projects[p := row]);
    var r := if archive then ArchiveCards(saved, TasksOf(s, p)) else saved;
    forall t | t in r.tasks && t !in TasksOf(s, p) ensures Settled(r, t) {
      assert Settled(s, t);
      assert r.tasks[t] == s.tasks[t];
      assert Participants(r, t) == Participants(s, t);
    }
  }

  lemma ActivePending(s: State, u: nat, active: set<nat>)
    requires Valid(s) && forall v :: v != u ==> (v in active <==> v in s.active)
    ensures var r := s.(active := active); Referential(r) && Pending(r, TasksAround(r, u))
  {
    var r := s.(active := active);
    forall t | t in r.tasks && t !in TasksAround(r, u) ensures Settled(r, t) {
      assert Settled(s, t);
      assert Participants(r, t) == Participants(s, t);
    }
  }

  /** After the writes only the cards about to be reconciled may be unsettled, each listed once, and no
      timer or time row has moved yet. */
  ghost predicate Ready(s: State, w: Edited) {
    && Pending(w.state, set t | t in w.todo)
    && (forall t :: t in w.todo ==> t in w.state.tasks)
    && (forall i, j :: 0 <= i < j < |w.todo| ==> w.todo[i] < w.todo[j])
    && w.state.sessions == s.sessions && w.state.entries == s.entries && w.state.nextEntry == s.nextEntry
  }

  lemma NothingReady(s: State)
    requires Valid(s)
    ensures Ready(s, Edited(s, []))
  {
    var w := Edited(s, []);
    assert (set t | t in w.todo) == {};
  }

  lemma CardReady(s: State, t: nat, k: Task)
    requires Valid(s) && k.project in s.projects && (s.projects[k.project].archived ==> k.archived)
    requires k.actualMinutes == Logged(s.entries, Card(t))
    ensures Ready(s, Edited(WriteTask(s, t, k), [t]))
  {
    WriteTaskPending(s, t, k);
    var w := Edited(WriteTask(s, t, k), [t]);
    assert (set t | t in w.todo) == {t};
  }

  lemma SaveReady(s: State, t: nat, k: Task)
    requires Valid(s) && k.actualMinutes == Logged(s.entries, Card(t))
    ensures Ready(s, SaveTask(s, t, k))
  {
    NothingReady(s);
    if k.project in s.projects && !(s.projects[k.project].archived && !k.archived) {
      CardReady(s, t, k);
    }
  }

  lemma CardsReady(s: State, r: State, ts: set<nat>)
    requires Pending(r, ts) && ts <= r.tasks.Keys
    requires r.sessions == s.sessions && r.entries == s.entries && r.nextEntry == s.nextEntry
    ensures Ready(s, Edited(r, Sorted(ts)))
  {
    var w := Edited(r, Sorted(ts));
    assert (set t | t in w.todo) == ts;
  }

  lemma ProjectReady(s: State, p: nat, row: Project, archive: bool)
    requires Valid(s)
    requires row.archived ==> archive || (p in s.projects && s.projects[p].archived)
    ensures var saved := s.(projects := s.projects[p := row]);
            Ready(s, Edited(if archive then ArchiveCards(saved, TasksOf(s, p)) else saved, Sorted(TasksOf(s, p))))
  {
    ProjectPending(s, p, row, archive);
    var saved := s.(projects := s.projects[p := row]);
    CardsReady(s, if archive then ArchiveCards(saved, TasksOf(s, p)) else saved, TasksOf(s, p));
  }

  lemma NewProjectReady(s: State, p: nat, row: Project)
    requires Valid(s) && p !in s.projects
    ensures Ready(s, Edited(s.(projects := s.projects[p := row]), []))
  {
    var saved := s.(projects := s.projects[p := row]);
    assert TasksOf(s, p) == {};
    ProjectReady(s, p, row, true);
    assert ArchiveCards(saved, {}) == saved;
  }

  lemma ActivationReady(s: State, u: nat, active: set<nat>)
    requires Valid(s) && forall v :: v != u ==> (v in active <==> v in s.active)
    ensures var r := s.(active := active); Referential(r) && Ready(s, Edited(r, Sorted(TasksAround(r, u))))
  {
    ActivePending(s, u, active);
    CardsReady(s, s.(active := active), TasksAround(s.(active := active), u));
  }

  lemma WritesPending(s: State, e: Edit)
    requires Valid(s)
    ensures Ready(s, Writes(s, e))
  {
    hide Ready, Settled, Recalculate, ArchiveCards, TasksOf, TasksAround;
    NothingReady(s);
    match e
    case SetStatus(t, status) =>
      if t in s.tasks { CardReady(s, t, s.tasks[t].(status := status)); }
    case CreateTask(t, p, assignee, status, archived) =>
      if t !in s.tasks {
        NewCard(s, t);
        SaveReady(s, t, Task(p, assignee, status, archived, None, 0));
      }
    case PatchTask(t, p, assignee, status, archived) =>
      if t in s.tasks {
        SaveReady(s, t, Patched(s.tasks[t], p, assignee, status, archived));
      }
    case ArchiveTask(t, archived) =>
      if t in s.tasks { SaveReady(s, t, s.tasks[t].(archived := archived)); }
    case Reassign(t, u) =>
      if t in s.tasks { CardReady(s, t, s.tasks[t].(assignee := Some(u))); }
    case AcceptAssignment(t, u) =>
      if t in s.tasks { CardReady(s, t, s.tasks[t].(assignee := Some(u))); }
    case CreateProject(p, row) =>
      if p !in s.projects { NewProjectReady(s, p, row); }
    case PatchProject(p, manager, collaborators, archived) =>
      if p in s.projects {
        var was := s.projects[p];
        var row := Project(if manager.Some? then manager.value else was.manager,
                           if collaborators.Some? then collaborators.value else was.collaborators,
                           if archived.Some? then archived.value else was.archived);
        ProjectReady(s, p, row, row.archived && !was.archived);
      }
    case SetActive(u, active) =>
      ActivationReady(s, u, if active then s.active + {u} else s.active - {u});
    case AdminSaveTask(t, row) =>
      if row.project in s.projects {
        AdminReady(s, t, row.(archived := row.archived || s.projects[row.project].archived));
      }
    case AdminSaveProject(p, row) =>
      ProjectReady(s, p, row, row.archived);
  }

  /** An admin save may carry stale cached columns; the recalculation repairs the total. */
  lemma AdminReady(s: State, t: nat, k: Task)
    requires Valid(s) && k.project in s.projects && (s.projects[k.project].archived ==> k.archived)
    ensures Ready(s, Edited(Recalculate(WriteTask(s, t, k), t), [t]))
  {
    hide Logged, Valid, Ready;
    var k' := k.(actualMinutes := Logged(s.entries, Card(t)));
    CardReady(s, t, k');
    assert s.tasks[t := k][t := k'] == s.tasks[t := k'];
    assert Recalculate(WriteTask(s, t, k), t) == WriteTask(s, t, k');
  }

  lemma {:induction false} DropRowsTimers(rows: seq<Session>, ts: set<nat>, t: nat, u: nat)
    ensures Timers(DropRows(rows, ts), t, u) == if t in ts then 0 else Timers(rows, t, u)
    ensures t !in ts ==> MinStart(DropRows(rows, ts), t) == MinStart(rows, t)
  {
    if rows != [] {
      var before, r := rows[..|rows| - 1], rows[|rows| - 1];
      DropRowsTimers(before, ts, t, u);
      if r.task in ts {
        assert DropRows(rows, ts) == DropRows(before, ts);
      } else {
        assert DropRows(rows, ts)[..|DropRows(before, ts)|] == DropRows(before, ts);
      }
    }
  }

  lemma DropEntriesStep(es: seq<Entry>, ts: set<nat>, ids: set<nat>)
    requires es != []
    ensures var kept, e := DropEntries(es[..|es| - 1], ts, ids), es[|es| - 1];
            DropEntries(es, ts, ids) == if e.task in ts || e.id in ids then kept else kept + [e]
  {
    var kept := DropEntries(es[..|es| - 1], ts, ids);
    assert kept + [] == kept;
  }

  lemma {:induction false} DropEntriesLeft(es: seq<Entry>, ts: set<nat>, ids: set<nat>)
    ensures forall e :: e in DropEntries(es, ts, ids) <==> e in es && e.task !in ts && e.id !in ids
  {
    if es != [] {
      var before, e := es[..|es| - 1], es[|es| - 1];
      DropEntriesLeft(before, ts, ids);
      assert es == before + [e];
      DropEntriesStep(es, ts, ids);
      hide DropEntries;
    }
  }

  lemma {:induction false} DropEntriesLogged(es: seq<Entry>, ts: set<nat>, ids: set<nat>, w: Scope)
    requires w.task !in ts && w.task !in TasksOfEntries(es, ids)
    ensures Logged(DropEntries(es, ts, ids), w) == Logged(es, w)
  {
    if es != [] {
      var before, e := es[..|es| - 1], es[|es| - 1];
      assert es == before + [e] && e in es;
      DropEntriesLogged(before, ts, ids, w);
      DropEntriesStep(es, ts, ids);
      hide DropEntries, TasksOfEntries;
      LoggedAppend(DropEntries(before, ts, ids), [e], w);
      LoggedAppend(before, [e], w);
    }
  }

  lemma {:induction false} ReplaceEntryLogged(es: seq<Entry>, id: nat, row: Entry, w: Scope)
    ensures forall e :: e in ReplaceEntry(es, id, row) ==> e in es || e.task == row.task
    ensures w.task != row.task && w.task !in TasksOfEntries(es, {id}) ==>
              Logged(ReplaceEntry(es, id, row), w) == Logged(es, w)
  {
    if es != [] {
      var before, e := es[..|es| - 1], es[|es| - 1];
      ReplaceEntryLogged(before, id, row, w);
      assert es == before + [e] && e in es;
      assert TasksOfEntries(before, {id}) <= TasksOfEntries(es, {id});
      assert ReplaceEntry(es, id, row)[..|es| - 1] == ReplaceEntry(before, id, row);
    }
  }

  lemma RowIdsInit(es: seq<Entry>, next: nat)
    requires RowIds(es, next) && es != []
    ensures RowIds(es[..|es| - 1], next) && es[|es| - 1].id < next
    ensures forall x :: x in es[..|es| - 1] ==> x.id != es[|es| - 1].id
  {
  }

  lemma RowIdsPush(es: seq<Entry>, e: Entry, next: nat)
    requires RowIds(es, next) && e.id < next && forall x :: x in es ==> x.id != e.id
    ensures RowIds(es + [e], next)
  {
    forall i | 0 <= i < |es| ensures es[i].id != e.id {
      assert es[i] in es;
    }
  }

  lemma {:induction false} DropEntriesIds(es: seq<Entry>, ts: set<nat>, ids: set<nat>, next: nat)
    requires RowIds(es, next)
    ensures RowIds(DropEntries(es, ts, ids), next)
  {
    if es != [] {
      var before, e := es[..|es| - 1], es[|es| - 1];
      DropEntriesStep(es, ts, ids);
      RowIdsInit(es, next);
      hide DropEntries, RowIds;
      DropEntriesIds(before, ts, ids, next);
      DropEntriesLeft(before, ts, ids);
      if !(e.task in ts || e.id in ids) {
        RowIdsPush(DropEntries(before, ts, ids), e, next);
      }
    }
  }

  /** The row with this id, and no other, became the given one. */
  ghost predicate OneRowChanged(es: seq<Entry>, es': seq<Entry>, id: nat, row: Entry) {
    exists i :: 0 <= i < |es| && es[i].id == id && es' == es[i := Manual(row, id)]
  }

  /** Saving a time row rewrites exactly one stored row. */
  lemma OneRowReplaced(s: State, id: nat, row: Entry)
    requires Valid(s) && HasEntry(s.entries, id)
    ensures OneRowChanged(s.entries, ReplaceEntry(s.entries, id, row), id, row)
  {
    var e :| e in s.entries && e.id == id;
    var i :| 0 <= i < |s.entries| && s.entries[i] == e;
    assert ReplaceEntry(s.entries, id, row) == s.entries[i := Manual(row, id)];
  }

  /** Rewriting time rows is repaired by recalculating every card whose rows were touched. */
  lemma EntriesRewritten(s: State, es: seq<Entry>, next: nat, touched: set<nat>)
    requires Valid(s) && RowIds(es, next) && forall e :: e in es ==> e.task in s.tasks
    requires forall t :: t in s.tasks && t !in touched ==> Logged(es, Card(t)) == Logged(s.entries, Card(t))
    ensures Valid(RecalculateAll(s.(entries := es, nextEntry := next), touched))
  {
    var r := RecalculateAll(s.(entries := es, nextEntry := next), touched);
    forall t | t in r.tasks ensures Settled(r, t) {
      assert Settled(s, t);
      assert Participants(r, t) == Participants(s, t);
    }
  }

  lemma AppendKeeps(s: State, e: Entry, next: nat, touched: set<nat>)
    requires Valid(s) && s.nextEntry <= next && e.id < next && !HasEntry(s.entries, e.id)
    requires e.task in touched && e.task in s.tasks
    ensures Valid(RecalculateAll(s.(entries := s.entries + [e], nextEntry := next), touched))
  {
    var es := s.entries + [e];
    assert es[..|s.entries|] == s.entries;
    RowIdsPush(s.entries, e, next);
    EntriesRewritten(s, es, next, touched);
  }

  lemma NewId(s: State)
    requires Valid(s)
    ensures !HasEntry(s.entries, s.nextEntry)
  {
  }

  lemma LogTimeKeeps(s: State, e: Entry)
    requires Valid(s) && e.id == s.nextEntry && e.task in s.tasks
    ensures Valid(Recalculate(s.(entries := s.entries + [e], nextEntry := s.nextEntry + 1), e.task))
  {
    NewId(s);
    AppendKeeps(s, e, s.nextEntry + 1, {e.task});
    hide Valid;
    RecalculateOne(s.(entries := s.entries + [e], nextEntry := s.nextEntry + 1), e.task);
  }

  lemma RecalculateOne(s: State, t: nat)
    requires t in s.tasks
    ensures Recalculate(s, t) == RecalculateAll(s, {t})
  {
    hide Logged;
    assert Recalculate(s, t).tasks == RecalculateAll(s, {t}).tasks;
  }

  lemma ReplaceKeeps(s: State, id: nat, row: Entry)
    requires Valid(s) && row.task in s.tasks
    ensures Valid(RecalculateAll(s.(entries := ReplaceEntry(s.entries, id, row)),
                                 {row.task} + TasksOfEntries(s.entries, {id})))
  {
    forall t ensures t != row.task && t !in TasksOfEntries(s.entries, {id}) ==>
                       Logged(ReplaceEntry(s.entries, id, row), Card(t)) == Logged(s.entries, Card(t))
    {
      ReplaceEntryLogged(s.entries, id, row, Card(t));
    }
    ReplaceEntryLogged(s.entries, id, row, Card(row.task));
    EntriesRewritten(s, ReplaceEntry(s.entries, id, row), s.nextEntry,
                     {row.task} + TasksOfEntries(s.entries, {id}));
  }

  lemma DeleteEntriesKeeps(s: State, ids: set<nat>)
    requires Valid(s)
    ensures Valid(RecalculateAll(s.(entries := DropEntries(s.entries, {}, ids)), TasksOfEntries(s.entries, ids)))
  {
    forall t | t !in TasksOfEntries(s.entries, ids)
      ensures Logged(DropEntries(s.entries, {}, ids), Card(t)) == Logged(s.entries, Card(t))
    {
      DropEntriesLogged(s.entries, {}, ids, Card(t));
    }
    DropEntriesLeft(s.entries, {}, ids);
    DropEntriesIds(s.entries, {}, ids, s.nextEntry);
    EntriesRewritten(s, DropEntries(s.entries, {}, ids), s.nextEntry, TasksOfEntries(s.entries, ids));
  }

  lemma DeleteTasksKeeps(s: State, ts: set<nat>)
    requires Valid(s)
    ensures Valid(DeleteTasks(s, ts))
  {
    var r := DeleteTasks(s, ts);
    hide Timers, MinStart, Logged, DropRows, DropEntries;
    forall t, u ensures Timers(r.sessions, t, u) == if t in ts then 0 else Timers(s.sessions, t, u)
                ensures t !in ts ==> MinStart(r.sessions, t) == MinStart(s.sessions, t)
    {
      DropRowsTimers(s.sessions, ts, t, u);
    }
    assert TasksOfEntries(s.entries, {}) == {};
    DropEntriesLeft(s.entries, ts, {});
    DropEntriesIds(s.entries, ts, {}, s.nextEntry);
    forall t | t !in ts ensures Logged(r.entries, Card(t)) == Logged(s.entries, Card(t)) {
      DropEntriesLogged(s.entries, ts, {}, Card(t));
    }
    forall t | t in r.tasks ensures Settled(r, t) {
      assert Settled(s, t);
      assert Participants(r, t) == Participants(s, t);
      DropRowsTimers(s.sessions, ts, t, 0);
    }
  }

  lemma DeleteProjectKeeps(s: State, p: nat)
    requires Valid(s)
    ensures Valid(Maintain(s, DeleteProject(p)))
  {
    var c := DeleteTasks(s, TasksOf(s, p));
    DeleteTasksKeeps(s, TasksOf(s, p));
    var r := c.(projects := c.projects - {p});
    forall t | t in r.tasks ensures Settled(r, t) {
      assert Settled(c, t);
      assert Participants(r, t) == Participants(c, t);
    }
  }

  lemma MaintainKeeps(s: State, k: Upkeep)
    requires Valid(s)
    ensures Valid(Maintain(s, k))
  {
    hide Valid, RecalculateAll, Recalculate, DeleteTasks, HasEntry;
    match k
    case LogTime(t, u, minutes, date) =>
      if t in s.tasks { LogTimeKeeps(s, Entry(s.nextEntry, t, u, minutes, date, false)); }
    case SaveEntry(id, row) =>
      if Savable(s, id, row) {
        if id.None? {
          NewId(s);
          AppendKeeps(s, Manual(row, s.nextEntry), s.nextEntry + 1, Touched(s.entries, id, row));
        } else if HasEntry(s.entries, id.value) {
          ReplaceKeeps(s, id.value, row);
        } else {
          AppendKeeps(s, Manual(row, id.value), s.nextEntry, Touched(s.entries, id, row));
        }
      }
    case DeleteEntries(ids) => DeleteEntriesKeeps(s, ids);
    case DeleteTask(t) => DeleteTasksKeeps(s, {t});
    case DeleteProject(p) => DeleteProjectKeeps(s, p);
  }

  /** In every state a request can reach: archived projects hold only archived cards, every card has exactly
      one timer per participant and no other, its cached start is their earliest start, and its cached
      minutes are the sum of its rows. */
  lemma ApplyKeeps(s: State, step: Step, now: int)
    requires Valid(s)
    ensures Valid(Apply(s, step, now))
  {
    match step
    case Change(e) =>
      WritesPending(s, e);
      var w := Writes(s, e);
      assert (set t | t in w.todo) + {} == (set t | t in w.todo);
      ReconcileAllSettles(w.state, w.todo, now, {});
    case Keep(k) => MaintainKeeps(s, k);
  }
}
