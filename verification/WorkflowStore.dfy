/** The database as the request handlers change it, row by row; every handler is tied to its step. */
module WorkflowStore {
  import opened Ids
  import opened WorkCalendar
  import opened DailyWork
  import opened WorkSessions
  import opened Workflow
  import opened WorkflowRuns
  import opened LiveReport

  /** The card rows after time rows were logged on a card: its total is rewritten if there were any. */
  function Retotalled(tasks: map<nat, Task>, t: nat, es: seq<Entry>, logged: seq<Entry>): map<nat, Task>
    requires t in tasks
  {
    if logged == [] then tasks else tasks[t := tasks[t].(actualMinutes := Logged(es, Card(t)))]
  }

  class Store {
    var active: set<nat>
    var projects: map<nat, Project>
    var tasks: map<nat, Task>
    var sessions: seq<Session>
    var entries: seq<Entry>
    var nextEntry: nat

    ghost function Now(): State
      reads this
    {
      State(active, projects, tasks, sessions, entries, nextEntry)
    }

    constructor ()
      ensures Now() == EMPTY && Valid(Now())
    {
      active, projects, tasks, sessions, entries, nextEntry := {}, map[], map[], [], [], 0;
    }

    // ---------- time rows ----------

    /** Sums the card's rows and stores the total. */
    method RecalculateActualMinutes(t: nat)
      requires t in tasks
      modifies `tasks
      ensures Now() == Recalculate(old(Now()), t)
    {
      var total := 0;
      for i := 0 to |entries|
        invariant total == Logged(entries[..i], Card(t))
      {
        assert entries[..i + 1][..i] == entries[..i];
        if entries[i].task == t {
          total := total + entries[i].minutes;
        }
      }
      assert entries[..|entries|] == entries;
      tasks := tasks[t := tasks[t].(actualMinutes := total)];
    }

    /** Creating a time row refreshes the card's total. */
    method CreateEntry(t: nat, u: nat, minutes: nat, date: int, automatic: bool)
      requires t in tasks
      modifies `entries, `nextEntry, `tasks
      ensures var row := Entry(old(nextEntry), t, u, minutes, date, automatic);
              Now() == Recalculate(old(Now()).(entries := old(entries) + [row], nextEntry := old(nextEntry) + 1), t)
    {
      entries := entries + [Entry(nextEntry, t, u, minutes, date, automatic)];
      nextEntry := nextEntry + 1;
      RecalculateActualMinutes(t);
    }

    // ---------- reconciliation ----------

    /** Logs the days of one closing timer. */
    method LogDays(t: nat, u: nat, startedAt: int, now: int) returns (logged: seq<Entry>)
      requires t in tasks
      modifies `entries, `nextEntry, `tasks
      ensures logged == DayEntries(t, u, Daily(startedAt, now), old(nextEntry))
      ensures entries == old(entries) + logged && nextEntry == old(nextEntry) + |logged|
      ensures tasks == Retotalled(old(tasks), t, entries, logged)
    {
      hide Logged, Daily;
      var days := DailyWorkedMinutes(startedAt, now);
      logged := [];
      for i := 0 to |days|
        invariant logged == DayEntries(t, u, days[..i], old(nextEntry))
        invariant entries == old(entries) + logged && nextEntry == old(nextEntry) + |logged|
        invariant t in tasks
        invariant tasks == Retotalled(old(tasks), t, entries, logged)
      {
        assert days[..i + 1][..i] == days[..i];
        var day := days[i];
        logged := logged + [Entry(nextEntry, t, u, day.minutes, day.date, true)];
        CreateEntry(t, u, day.minutes, day.date, true);
        assert old(entries) + logged == entries;
      }
      assert days[..|days|] == days;
    }

    /** Active manager, assignee and collaborators of a running card. */
    method CurrentParticipants(t: nat) returns (ids: set<nat>)
      requires Known(Now(), t)
      ensures ids == Participants(Now(), t)
      ensures var k, p := tasks[t], projects[tasks[t].project];
              forall u :: u in ids <==>
                && k.status == InProgress && !k.archived && !p.archived && u in active
                && (u == p.manager || u in p.collaborators || k.assignee == Some(u))
    {
      ids := {};
      var k := tasks[t];
      var p := projects[k.project];
      if k.status == InProgress && !k.archived && !p.archived {
        var candidates := {p.manager};
        if k.assignee.Some? {
          candidates := candidates + {k.assignee.value};
        }
        candidates := candidates + p.collaborators;
        ids := candidates * active;
      }
    }

    method EarliestStart(t: nat) returns (start: Option<int>)
      ensures start == MinStart(sessions, t)
    {
      start := None;
      for i := 0 to |sessions|
        invariant start == MinStart(sessions[..i], t)
      {
        assert sessions[..i + 1][..i] == sessions[..i];
        var r := sessions[i];
        if r.task == t && (start.None? || r.startedAt < start.value) {
          start := Some(r.startedAt);
        }
      }
      assert sessions[..|sessions|] == sessions;
    }

    /** Separates the timers that close from the rows that stay, and lists who already has a timer. */
    method SplitSessions(t: nat, ids: set<nat>) returns (closed: seq<Session>, kept: seq<Session>, users: set<nat>)
      ensures closed == Closing(sessions, t, ids) && kept == Keeping(sessions, t, ids)
      ensures users == Users(sessions, t)
    {
      closed, kept, users := [], [], {};
      for i := 0 to |sessions|
        invariant closed == Closing(sessions[..i], t, ids) && kept == Keeping(sessions[..i], t, ids)
        invariant users == Users(sessions[..i], t)
      {
        var r := sessions[i];
        assert sessions[..i + 1][..i] == sessions[..i];
        assert sessions[..i + 1] == sessions[..i] + [r];
        assert Users(sessions[..i + 1], t) == Users(sessions[..i], t) + if r.task == t then {r.user} else {};
        if r.task == t {
          users := users + {r.user};
        }
        if r.task == t && r.user !in ids {
          closed := closed + [r];
        } else {
          kept := kept + [r];
        }
      }
      assert sessions[..|sessions|] == sessions;
    }

    method CloseSessions(t: nat, closed: seq<Session>, now: int) returns (logged: seq<Entry>)
      requires t in tasks && forall r :: r in closed ==> r.task == t
      modifies `entries, `nextEntry, `tasks
      ensures logged == ClosingEntries(closed, now, old(nextEntry))
      ensures entries == old(entries) + logged && nextEntry == old(nextEntry) + |logged|
      ensures tasks == Retotalled(old(tasks), t, entries, logged)
    {
      hide Logged, Daily;
      logged := [];
      for i := 0 to |closed|
        invariant logged == ClosingEntries(closed[..i], now, old(nextEntry))
        invariant entries == old(entries) + logged && nextEntry == old(nextEntry) + |logged|
        invariant t in tasks
        invariant tasks == Retotalled(old(tasks), t, entries, logged)
      {
        assert closed[..i + 1][..i] == closed[..i];
        assert closed[i] in closed;
        ghost var before := entries;
        var more := LogDays(t, closed[i].user, closed[i].startedAt, now);
        assert more == [] ==> entries == before;
        assert old(entries) + logged + more == old(entries) + (logged + more);
        assert more != [] ==> tasks == old(tasks)[t := old(tasks)[t].(actualMinutes := Logged(entries, Card(t)))];
        logged := logged + more;
      }
      assert closed[..|closed|] == closed;
    }

    method OpenSessions(t: nat, users: seq<nat>, now: int)
      modifies `sessions
      ensures sessions == old(sessions) + Opening(t, users, now)
    {
      var i := 0;
      while i < |users|
        invariant 0 <= i <= |users|
        invariant sessions == old(sessions) + Opening(t, users[..i], now)
      {
        assert users[..i + 1][..i] == users[..i];
        sessions := sessions + [Session(t, users[i], now)];
        assert old(sessions) + Opening(t, users[..i + 1], now) == sessions;
        i := i + 1;
      }
      assert users[..|users|] == users;
    }

    method ReconcileTaskWorkSessions(t: nat, now: int)
      requires Known(Now(), t)
      modifies this
      ensures Now() == Reconcile(old(Now()), t, now)
    {
      hide Logged, Participants, Closing, Keeping, Opening, Users, ClosingEntries, MinStart, SameWorkflow;
      var ids := CurrentParticipants(t);
      var closed, kept, users := SplitSessions(t, ids);
      ClosingOnly(sessions, t, ids);
      var logged := CloseSessions(t, closed, now);
      if |closed| > 0 {
        sessions := kept;
      } else {
        NothingCloses(sessions, t, ids);
        NothingLogged(now, old(nextEntry));
      }
      OpenSessions(t, Sorted(ids - users), now);
      var start := EarliestStart(t);
      if tasks[t].workStartedAt != start {
        tasks := tasks[t := tasks[t].(workStartedAt := start)];
      }
      if |logged| > 0 {
        RecalculateActualMinutes(t);
      }
    }

    // ---------- requests about one card ----------

    method SetTaskStatus(t: nat, status: Status, now: int) returns (ok: bool)
      requires Valid(Now())
      modifies this
      ensures ok == (t in old(tasks))
      ensures Now() == Apply(old(Now()), Change(SetStatus(t, status)), now) && Valid(Now())
    {
      ghost var s, e := Now(), SetStatus(t, status);
      hide Reconcile, ReconcileAll, Apply, Pending;
      Outcome(s, e, now);
      ok := t in tasks;
      if ok {
        tasks := tasks[t := tasks[t].(status := status)];
        ReconcileTaskWorkSessions(t, now);
      }
    }

    method CreateCard(t: nat, p: nat, assignee: Option<nat>, status: Status, archived: bool, now: int)
      returns (ok: bool)
      requires Valid(Now())
      modifies this
      ensures Now() == Apply(old(Now()), Change(CreateTask(t, p, assignee, status, archived)), now) && Valid(Now())
      ensures ok == (t !in old(tasks) && ActiveOrNone(old(Now()), assignee) && p in old(projects)
                     && (old(projects)[p].archived ==> archived))
    {
      ghost var s, e := Now(), CreateTask(t, p, assignee, status, archived);
      hide Reconcile, ReconcileAll, Apply, Pending;
      Outcome(s, e, now);
      ok := t !in tasks && (assignee.Some? ==> assignee.value in active) && p in projects
            && (projects[p].archived ==> archived);
      if ok {
        tasks := tasks[t := Task(p, assignee, status, archived, None, 0)];
        ReconcileTaskWorkSessions(t, now);
      }
    }

    /** Editing a card reconciles it, and once more when its status changed. */
    method PatchCard(t: nat, p: Option<nat>, assignee: Option<Option<nat>>, status: Option<Status>,
                     archived: Option<bool>, now: int) returns (ok: bool)
      requires Valid(Now())
      modifies this
      ensures Now() == Apply(old(Now()), Change(PatchTask(t, p, assignee, status, archived)), now) && Valid(Now())
      ensures ok <==> && t in old(tasks)
                      && (assignee.Some? ==> ActiveOrNone(old(Now()), assignee.value))
                      && var k := Patched(old(tasks)[t], p, assignee, status, archived);
                         k.project in old(projects) && (old(projects)[k.project].archived ==> k.archived)
      ensures !ok ==> Now() == old(Now())
    {
      ghost var s, e := Now(), PatchTask(t, p, assignee, status, archived);
      hide Reconcile, ReconcileAll, Apply, Pending;
      Outcome(s, e, now);
      ok := t in tasks && (assignee.Some? && assignee.value.Some? ==> assignee.value.value in active);
      if ok {
        var previous := tasks[t];
        var k := previous.(project := if p.Some? then p.value else previous.project,
                           assignee := if assignee.Some? then assignee.value else previous.assignee,
                           status := if status.Some? then status.value else previous.status,
                           archived := if archived.Some? then archived.value else previous.archived);
        ok := k.project in projects && (projects[k.project].archived ==> k.archived);
        if ok {
          tasks := tasks[t := k];
          ReconcileTaskWorkSessions(t, now);
          if tasks[t].status != previous.status {
            SettledAgain(Now(), t, now);
            ReconcileTaskWorkSessions(t, now);
          }
        }
      }
    }

    method ArchiveCard(t: nat, archived: bool, now: int) returns (ok: bool)
      requires Valid(Now())
      modifies this
      ensures Now() == Apply(old(Now()), Change(ArchiveTask(t, archived)), now) && Valid(Now())
      ensures ok == (t in old(tasks) && (old(projects)[old(tasks)[t].project].archived ==> archived))
    {
      ghost var s, e := Now(), ArchiveTask(t, archived);
      hide Reconcile, ReconcileAll, Apply, Pending;
      Outcome(s, e, now);
      ok := t in tasks && (archived || !projects[tasks[t].project].archived);
      if ok {
        tasks := tasks[t := tasks[t].(archived := archived)];
        ReconcileTaskWorkSessions(t, now);
      }
    }

    method ReassignCard(t: nat, u: nat, now: int) returns (ok: bool)
      requires Valid(Now())
      modifies this
      ensures Now() == Apply(old(Now()), Change(Reassign(t, u)), now) && Valid(Now())
      ensures ok == (t in old(tasks) && u in old(active))
    {
      ghost var s, e := Now(), Reassign(t, u);
      hide Reconcile, ReconcileAll, Apply, Pending;
      Outcome(s, e, now);
      ok := t in tasks && u in active;
      if ok {
        tasks := tasks[t := tasks[t].(assignee := Some(u))];
        ReconcileTaskWorkSessions(t, now);
      }
    }

    /** Accepting an assignment claims an unassigned card; an assigned one is left alone. */
    method AcceptCard(t: nat, u: nat, now: int)
      requires Valid(Now())
      modifies this
      ensures Now() == Apply(old(Now()), Change(AcceptAssignment(t, u)), now) && Valid(Now())
    {
      ghost var s, e := Now(), AcceptAssignment(t, u);
      hide Reconcile, ReconcileAll, Apply, Pending;
      Outcome(s, e, now);
      if t in tasks && tasks[t].assignee == None {
        tasks := tasks[t := tasks[t].(assignee := Some(u))];
        ReconcileTaskWorkSessions(t, now);
      }
    }

    /** A back-office save writes every column, cached ones included, then repairs them. */
    method AdminSaveCard(t: nat, row: Task, now: int) returns (ok: bool)
      requires Valid(Now())
      modifies this
      ensures Now() == Apply(old(Now()), Change(AdminSaveTask(t, row)), now) && Valid(Now())
      ensures ok == (row.project in old(projects))
    {
      ghost var s, e := Now(), AdminSaveTask(t, row);
      hide Reconcile, ReconcileAll, Apply, Pending;
      Outcome(s, e, now);
      ok := row.project in projects;
      if ok {
        var k := row;
        if projects[row.project].archived {
          k := k.(archived := true);
        }
        tasks := tasks[t := k];
        RecalculateActualMinutes(t);
        ReconcileTaskWorkSessions(t, now);
      }
    }

    // ---------- requests about many cards ----------

    method ReconcileEach(todo: seq<nat>, now: int)
      requires forall t :: t in todo ==> Known(Now(), t)
      modifies this
      ensures Now() == ReconcileAll(old(Now()), todo, now)
    {
      hide Reconcile;
      for i := 0 to |todo|
        invariant forall t :: t in todo ==> Known(old(Now()), t)
        invariant forall t :: t in todo[..i] ==> t in todo
        invariant Now() == ReconcileAll(old(Now()), todo[..i], now)
      {
        assert todo[..i + 1][..i] == todo[..i];
        KnownStays(old(Now()), Now(), todo[i]);
        ReconcileTaskWorkSessions(todo[i], now);
      }
      assert todo[..|todo|] == todo;
    }

    method ArchiveEach(todo: seq<nat>)
      requires forall t :: t in todo ==> t in tasks
      modifies `tasks
      ensures Now() == ArchiveCards(old(Now()), Elems(todo))
    {
      for i := 0 to |todo|
        invariant tasks.Keys == old(tasks).Keys
        invariant tasks == ArchiveCards(old(Now()), Elems(todo[..i])).tasks
      {
        ElemsStep(todo, i);
        if !tasks[todo[i]].archived {
          tasks := tasks[todo[i] := tasks[todo[i]].(archived := true)];
        }
      }
      assert todo[..|todo|] == todo;
    }

    method CreateStudioProject(p: nat, row: Project, now: int) returns (ok: bool)
      requires Valid(Now())
      modifies this
      ensures Now() == Apply(old(Now()), Change(CreateProject(p, row)), now) && Valid(Now())
      ensures ok == (p !in old(projects) && row.manager in old(active) && row.collaborators <= old(active))
    {
      ghost var s, e := Now(), CreateProject(p, row);
      hide Reconcile, ReconcileAll, Apply, Pending;
      Outcome(s, e, now);
      ok := p !in projects && row.manager in active && row.collaborators <= active;
      if ok {
        projects := projects[p := row];
      }
    }

    /** The project's cards in primary-key order. */
    method CardsOf(p: nat) returns (todo: seq<nat>)
      ensures todo == Sorted(TasksOf(Now(), p)) && Elems(todo) == TasksOf(Now(), p)
    {
      todo := Sorted(set t | t in tasks && tasks[t].project == p);
      assert (set t | t in tasks && tasks[t].project == p) == TasksOf(Now(), p);
      assert Elems(todo) == TasksOf(Now(), p);
    }

    /** Archiving a project archives its cards; restoring it does not restore them; every card is reconciled. */
    method PatchStudioProject(p: nat, manager: Option<nat>, collaborators: Option<set<nat>>, archived: Option<bool>,
                              now: int) returns (ok: bool)
      requires Valid(Now())
      modifies this
      ensures Now() == Apply(old(Now()), Change(PatchProject(p, manager, collaborators, archived)), now) && Valid(Now())
      ensures ok <==> && p in old(projects) && ActiveOrNone(old(Now()), manager)
                      && (collaborators.Some? ==> collaborators.value <= old(active))
      ensures !ok ==> Now() == old(Now())
    {
      ghost var s, e := Now(), PatchProject(p, manager, collaborators, archived);
      hide Reconcile, ReconcileAll, Apply, Pending;
      Outcome(s, e, now);
      ok := p in projects && (manager.Some? ==> manager.value in active)
            && (collaborators.Some? ==> collaborators.value <= active);
      if ok {
        var was := projects[p];
        var row := Project(if manager.Some? then manager.value else was.manager,
                           if collaborators.Some? then collaborators.value else was.collaborators,
                           if archived.Some? then archived.value else was.archived);
        projects := projects[p := row];
        var todo := CardsOf(p);
        if row.archived && !was.archived {
          ArchiveEach(todo);
        }
        assert Edited(Now(), todo) == Writes(s, e);
        ReconcileEach(todo, now);
      }
    }

    method AdminSaveStudioProject(p: nat, row: Project, now: int)
      requires Valid(Now())
      modifies this
      ensures Now() == Apply(old(Now()), Change(AdminSaveProject(p, row)), now) && Valid(Now())
    {
      ghost var s, e := Now(), AdminSaveProject(p, row);
      hide Reconcile, ReconcileAll, Apply, Pending;
      Outcome(s, e, now);
      projects := projects[p := row];
      var todo := CardsOf(p);
      if row.archived {
        ArchiveEach(todo);
      }
      assert Edited(Now(), todo) == Writes(s, e);
      ReconcileEach(todo, now);
    }

    /** Activating or deactivating a worker reconciles every card around them. */
    method SetUserActive(u: nat, on: bool, now: int)
      requires Valid(Now())
      modifies this
      ensures Now() == Apply(old(Now()), Change(SetActive(u, on)), now) && Valid(Now())
    {
      ghost var s, e := Now(), SetActive(u, on);
      hide Reconcile, ReconcileAll, Apply, Pending;
      Outcome(s, e, now);
      var changed := (u in active) != on;
      active := if on then active + {u} else active - {u};
      if changed {
        var around := set t | t in tasks &&
          (u in Users(sessions, t) || tasks[t].assignee == Some(u) ||
           projects[tasks[t].project].manager == u || u in projects[tasks[t].project].collaborators);
        assert around == TasksAround(Now(), u);
        assert Now() == Writes(s, e).state;
        ReconcileEach(Sorted(around), now);
      } else {
        assert active == old(active);
      }
    }

    // ---------- requests about time rows and deletions ----------

    method RecalculateEach(ts: set<nat>)
      requires ts <= tasks.Keys
      modifies `tasks
      ensures Now() == RecalculateAll(old(Now()), ts)
    {
      hide Recalculate, RecalculateAll;
      RecalculateNone(Now());
      var todo := Sorted(ts);
      assert Elems(todo[..0]) == {};
      for i := 0 to |todo|
        invariant tasks.Keys == old(tasks).Keys
        invariant Now() == RecalculateAll(old(Now()), Elems(todo[..i]))
      {
        ElemsStep(todo, i);
        RecalculateOneMore(old(Now()), Elems(todo[..i]), todo[i]);
        RecalculateActualMinutes(todo[i]);
      }
      assert todo[..|todo|] == todo && Elems(todo) == ts;
    }

    method LogCardTime(t: nat, u: nat, minutes: nat, date: int) returns (ok: bool)
      requires Valid(Now())
      modifies this
      ensures ok == (t in old(tasks) && minutes > 0)
      ensures Now() == Maintain(old(Now()), LogTime(t, u, minutes, date)) && Valid(Now())
    {
      MaintainKeeps(Now(), LogTime(t, u, minutes, date));
      ok := t in tasks && minutes > 0;
      if ok {
        CreateEntry(t, u, minutes, date, false);
      }
    }

    /** An update of the row with the given id, or else an insert, under that id or a new one. */
    method WriteEntry(id: Option<nat>, row: Entry)
      modifies `entries, `nextEntry
      ensures if id.None?
              then entries == old(entries) + [Manual(row, old(nextEntry))] && nextEntry == old(nextEntry) + 1
              else nextEntry == old(nextEntry)
                   && entries == if HasEntry(old(entries), id.value) then ReplaceEntry(old(entries), id.value, row)
                                 else old(entries) + [Manual(row, id.value)]
    {
      if id.None? {
        entries := entries + [Manual(row, nextEntry)];
        nextEntry := nextEntry + 1;
      } else if HasEntry(entries, id.value) {
        entries := ReplaceEntry(entries, id.value, row);
      } else {
        entries := entries + [Manual(row, id.value)];
      }
    }

    /** A back-office save of a time row, or its restoration from history, corrects the totals of its new and its
        old card. */
    method SaveTimeEntry(id: Option<nat>, row: Entry) returns (ok: bool)
      requires Valid(Now())
      modifies this
      ensures ok == (row.task in old(tasks) && (id.Some? ==> id.value < old(nextEntry)))
      ensures Now() == Maintain(old(Now()), SaveEntry(id, row)) && Valid(Now())
      ensures ok && id.None? ==> entries == old(entries) + [Manual(row, old(nextEntry))]
      ensures ok && id.Some? && HasEntry(old(entries), id.value) ==>
                OneRowChanged(old(entries), entries, id.value, row)
      ensures ok && id.Some? && !HasEntry(old(entries), id.value) ==>
                entries == old(entries) + [Manual(row, id.value)]
    {
      hide Logged, ReplaceEntry, TasksOfEntries, RecalculateAll, Recalculate, Valid, HasEntry, DropEntries,
           DeleteTasks, OneRowChanged;
      MaintainKeeps(Now(), SaveEntry(id, row));
      if id.Some? {
        TouchedKnown(Now(), {id.value});
        if HasEntry(entries, id.value) {
          OneRowReplaced(Now(), id.value, row);
        }
      }
      ok := row.task in tasks && (id.Some? ==> id.value < nextEntry);
      if ok {
        var touched := Touched(entries, id, row);
        WriteEntry(id, row);
        RecalculateEach(touched);
      }
    }

    method DeleteTimeEntries(ids: set<nat>)
      requires Valid(Now())
      modifies this
      ensures Now() == Maintain(old(Now()), DeleteEntries(ids)) && Valid(Now())
    {
      MaintainKeeps(Now(), DeleteEntries(ids));
      var touched := TasksOfEntries(entries, ids);
      entries := DropEntries(entries, {}, ids);
      RecalculateEach(touched);
    }

    method DeleteCard(t: nat)
      requires Valid(Now())
      modifies this
      ensures Now() == Maintain(old(Now()), DeleteTask(t)) && Valid(Now())
    {
      MaintainKeeps(Now(), DeleteTask(t));
      sessions := DropRows(sessions, {t});
      entries := DropEntries(entries, {t}, {});
      tasks := tasks - {t};
    }

    method DeleteStudioProject(p: nat)
      requires Valid(Now())
      modifies this
      ensures Now() == Maintain(old(Now()), DeleteProject(p)) && Valid(Now())
    {
      MaintainKeeps(Now(), DeleteProject(p));
      var doomed := set t | t in tasks && tasks[t].project == p;
      assert doomed == TasksOf(Now(), p);
      sessions := DropRows(sessions, doomed);
      entries := DropEntries(entries, doomed, {});
      tasks := tasks - doomed;
      projects := projects - {p};
    }

    // ---------- reading ----------

    /** Unsaved minutes per card, worker and date, from one reading of the clock. */
    method ActiveSessionMinutes(f: Filter, now: int) returns (minutes: map<Key, nat>)
      requires Referential(Now())
      ensures IsReport(minutes, Now(), sessions, f, now)
    {
      hide DayMinutes, Daily;
      minutes := map[];
      for i := 0 to |sessions|
        invariant IsReport(minutes, Now(), sessions[..i], f, now)
      {
        assert sessions[..i + 1][..i] == sessions[..i];
        var r := sessions[i];
        if r.task in tasks && tasks[r.task].status == InProgress && !tasks[r.task].archived
           && !projects[tasks[r.task].project].archived && r.user in active && f.Accepts(r) {
          var days := DailyWorkedMinutes(f.StartBound(r.startedAt), f.EndBound(now));
          DailyShares(f.StartBound(r.startedAt), f.EndBound(now));
          minutes := AddDays(minutes, r.task, r.user, days, f, sessions[..i], now);
          forall k: Key
            ensures ListedOn(days, k.date) == DayMinutes(k.date, f.StartBound(r.startedAt), f.EndBound(now))
          {
            ListedDaily(f.StartBound(r.startedAt), f.EndBound(now), k.date);
          }
        }
      }
      assert sessions[..|sessions|] == sessions;
    }

    /** Adds one timer's days to a report. */
    method AddDays(before: map<Key, nat>, t: nat, u: nat, days: seq<DayWork>, ghost f: Filter,
                   ghost rows: seq<Session>, ghost now: int) returns (minutes: map<Key, nat>)
      requires Referential(Now()) && IsReport(before, Now(), rows, f, now)
      requires forall d :: d in days ==> d.minutes > 0
      ensures forall k :: var n := Amount(Now(), rows, f, k, now)
                                   + if k.task == t && k.user == u then ListedOn(days, k.date) else 0;
                (k in minutes <==> n > 0) && (k in minutes ==> minutes[k] == n)
    {
      hide Amount;
      minutes := before;
      for j := 0 to |days|
        invariant forall k :: var n := Amount(Now(), rows, f, k, now)
                                       + if k.task == t && k.user == u then ListedOn(days[..j], k.date) else 0;
                    (k in minutes <==> n > 0) && (k in minutes ==> minutes[k] == n)
      {
        assert days[..j + 1][..j] == days[..j];
        assert days[j] in days;
        var key := Key(t, u, days[j].date);
        minutes := minutes[key := (if key in minutes then minutes[key] else 0) + days[j].minutes];
      }
      assert days[..|days|] == days;
    }
  }

  lemma SettledAgain(s: State, t: nat, now: int)
    requires Valid(s) && t in s.tasks
    ensures Known(s, t) && Reconcile(s, t, now) == s
  {
    SettledIsFixed(s, t, now);
  }

  /** Applying an edit means performing its writes and reconciling the listed cards; the result is valid, and a
      single listed card ends up settled. */
  lemma Outcome(s: State, e: Edit, now: int)
    requires Valid(s)
    ensures var w := Writes(s, e);
            && (forall t :: t in w.todo ==> Known(w.state, t))
            && Apply(s, Change(e), now) == ReconcileAll(w.state, w.todo, now)
            && Referential(s) && Valid(Apply(s, Change(e), now))
            && (|w.todo| == 0 ==> Apply(s, Change(e), now) == w.state)
            && (|w.todo| == 1 ==> Apply(s, Change(e), now) == Reconcile(w.state, w.todo[0], now))
  {
    hide Writes, Reconcile;
    WritesPending(s, e);
    ApplyKeeps(s, Change(e), now);
    var w := Writes(s, e);
    if |w.todo| == 1 {
      assert w.todo == [w.todo[0]] && w.todo[..0] == [];
    }
  }

  lemma RecalculateNone(s: State)
    ensures RecalculateAll(s, {}) == s
  {
    assert RecalculateAll(s, {}).tasks == s.tasks;
  }

  lemma RecalculateOneMore(s: State, ts: set<nat>, t: nat)
    requires t in s.tasks
    ensures RecalculateAll(s, ts).tasks.Keys == RecalculateAll(s, ts + {t}).tasks.Keys == s.tasks.Keys
    ensures Recalculate(RecalculateAll(s, ts), t) == RecalculateAll(s, ts + {t})
  {
    hide Logged;
  }

  lemma TouchedKnown(s: State, ids: set<nat>)
    requires Valid(s)
    ensures TasksOfEntries(s.entries, ids) <= s.tasks.Keys
  {
  }

  lemma NothingLogged(now: int, id: nat)
    ensures ClosingEntries([], now, id) == []
  {
  }
}
