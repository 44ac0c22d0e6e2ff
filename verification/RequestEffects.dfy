/** What each accepted request leaves in the stored rows, column by column, and that a refused one changes nothing. */
module RequestEffects {
  import opened Ids
  import opened WorkSessions
  import opened Workflow
  import opened WorkflowRuns
  import opened StoredRows

  /** The columns of a stored card that decide who works on it. */
  predicate CardIs(r: State, t: nat, p: nat, assignee: Option<nat>, status: Status, archived: bool) {
    && t in r.tasks && r.tasks[t].project == p && r.tasks[t].assignee == assignee
    && r.tasks[t].status == status && r.tasks[t].archived == archived
  }

  predicate SameCard(s: State, r: State, t: nat) {
    if t in s.tasks then CardIs(r, t, s.tasks[t].project, s.tasks[t].assignee, s.tasks[t].status, s.tasks[t].archived)
    else t !in r.tasks
  }

  /** Nothing but the one card was written. */
  ghost predicate OnlyCard(s: State, r: State, t: nat) {
    r.active == s.active && r.projects == s.projects && forall x :: x != t ==> SameCard(s, r, x)
  }

  /** The same active workers, projects and card columns, cached ones aside. */
  ghost predicate SameColumns(s: State, r: State) {
    r.active == s.active && r.projects == s.projects && r.tasks.Keys == s.tasks.Keys && forall t :: SameCard(s, r, t)
  }

  /** The tables as the request wrote them, whatever reconciling then did to timers and cached columns. */
  lemma Reconciled(s: State, e: Edit, now: int)
    requires Valid(s)
    ensures Referential(s)
    ensures var r, w := Apply(s, Change(e), now), Writes(s, e);
            SameColumns(w.state, r) && (w.todo == [] ==> r == w.state)
  {
    WritesPending(s, e);
    var w := Writes(s, e);
    assert Apply(s, Change(e), now) == ReconcileAll(w.state, w.todo, now);
    hide Writes, Ready, Apply, Valid, Reconcile;
    SameWorkflowColumns(w.state, ReconcileAll(w.state, w.todo, now));
  }

  lemma SameWorkflowColumns(s: State, r: State)
    requires SameWorkflow(s, r)
    ensures SameColumns(s, r)
  {
  }

  lemma OneCardWritten(s: State, w: State, r: State, t: nat)
    requires SameColumns(w, r) && t in w.tasks && w.tasks == s.tasks[t := w.tasks[t]]
    requires w.active == s.active && w.projects == s.projects
    ensures OnlyCard(s, r, t)
    ensures CardIs(r, t, w.tasks[t].project, w.tasks[t].assignee, w.tasks[t].status, w.tasks[t].archived)
  {
    assert SameCard(w, r, t);
    forall x | x != t ensures SameCard(s, r, x) {
      assert SameCard(w, r, x);
    }
  }

  lemma ProjectCardsWritten(s: State, w: State, r: State, p: nat, saved: State, archiving: bool)
    requires SameColumns(w, r) && saved.tasks == s.tasks
    requires w == if archiving then ArchiveCards(saved, TasksOf(s, p)) else saved
    ensures CardsArchived(s, r, p, archiving) && r.active == saved.active && r.projects == saved.projects
  {
    forall t ensures if t in s.tasks && s.tasks[t].project == p && archiving
                     then CardIs(r, t, p, s.tasks[t].assignee, s.tasks[t].status, true)
                     else SameCard(s, r, t)
    {
      assert SameCard(w, r, t);
    }
  }

  // ---------- one card ----------

  lemma StatusEffect(s: State, t: nat, status: Status, now: int)
    requires Valid(s)
    ensures var r := Apply(s, Change(SetStatus(t, status)), now);
            if t !in s.tasks then r == s
            else OnlyCard(s, r, t) && CardIs(r, t, s.tasks[t].project, s.tasks[t].assignee, status, s.tasks[t].archived)
  {
    hide Apply, Valid, Logged, Recalculate, TasksAround, ArchiveCards, Referential, SameColumns, OnlyCard, CardIs;
    Reconciled(s, SetStatus(t, status), now);
    var r, w := Apply(s, Change(SetStatus(t, status)), now), Writes(s, SetStatus(t, status));
    if w.todo != [] {
      OneCardWritten(s, w.state, r, t);
    }
  }

  lemma CreateEffect(s: State, t: nat, p: nat, assignee: Option<nat>, status: Status, archived: bool, now: int)
    requires Valid(s)
    ensures var r := Apply(s, Change(CreateTask(t, p, assignee, status, archived)), now);
            if && t !in s.tasks && (assignee.Some? ==> assignee.value in s.active)
               && p in s.projects && (s.projects[p].archived ==> archived)
            then OnlyCard(s, r, t) && CardIs(r, t, p, assignee, status, archived)
            else r == s
  {
    hide Apply, Valid, Logged, Recalculate, TasksAround, ArchiveCards, Referential, SameColumns, OnlyCard, CardIs;
    var e := CreateTask(t, p, assignee, status, archived);
    Reconciled(s, e, now);
    var r, w := Apply(s, Change(e), now), Writes(s, e);
    if w.todo != [] {
      OneCardWritten(s, w.state, r, t);
    }
  }

  /** Every submitted column is written and every other kept, or nothing at all. */
  lemma PatchEffect(s: State, t: nat, p: Option<nat>, assignee: Option<Option<nat>>, status: Option<Status>,
                    archived: Option<bool>, now: int)
    requires Valid(s)
    ensures var r := Apply(s, Change(PatchTask(t, p, assignee, status, archived)), now);
            if t !in s.tasks then r == s
            else
              var p' := if p.Some? then p.value else s.tasks[t].project;
              var assignee' := if assignee.Some? then assignee.value else s.tasks[t].assignee;
              var status' := if status.Some? then status.value else s.tasks[t].status;
              var archived' := if archived.Some? then archived.value else s.tasks[t].archived;
              if && (assignee.Some? && assignee.value.Some? ==> assignee.value.value in s.active)
                 && p' in s.projects && (s.projects[p'].archived ==> archived')
              then OnlyCard(s, r, t) && CardIs(r, t, p', assignee', status', archived')
              else r == s
  {
    hide Apply, Valid, Logged, Recalculate, TasksAround, ArchiveCards, Referential, SameColumns, OnlyCard, CardIs;
    var e := PatchTask(t, p, assignee, status, archived);
    Reconciled(s, e, now);
    var r, w := Apply(s, Change(e), now), Writes(s, e);
    if w.todo != [] {
      OneCardWritten(s, w.state, r, t);
    }
  }

  lemma ArchiveEffect(s: State, t: nat, archived: bool, now: int)
    requires Valid(s)
    ensures var r := Apply(s, Change(ArchiveTask(t, archived)), now);
            if && t in s.tasks && s.tasks[t].project in s.projects
               && (s.projects[s.tasks[t].project].archived ==> archived)
            then OnlyCard(s, r, t) && CardIs(r, t, s.tasks[t].project, s.tasks[t].assignee, s.tasks[t].status, archived)
            else r == s
  {
    hide Apply, Valid, Logged, Recalculate, TasksAround, ArchiveCards, Referential, SameColumns, OnlyCard, CardIs;
    Reconciled(s, ArchiveTask(t, archived), now);
    var r, w := Apply(s, Change(ArchiveTask(t, archived)), now), Writes(s, ArchiveTask(t, archived));
    if w.todo != [] {
      OneCardWritten(s, w.state, r, t);
    }
  }

  /** Reassigning to an active worker; then the former assignee keeps no timer on the card unless they manage or
      share the project, and the new one has a timer if the card is running. */
  lemma ReassignEffect(s: State, t: nat, u: nat, now: int)
    requires Valid(s)
    ensures var r := Apply(s, Change(Reassign(t, u)), now);
            if t in s.tasks && u in s.active then
              var k := s.tasks[t];
              && OnlyCard(s, r, t) && CardIs(r, t, k.project, Some(u), k.status, k.archived)
              && (k.status == InProgress && !k.archived ==> HasTimer(r, t, u))
              && (k.assignee.Some? && k.assignee.value != u && k.project in s.projects ==>
                    && var p := s.projects[k.project];
                       k.assignee.value != p.manager && k.assignee.value !in p.collaborators ==>
                         !HasTimer(r, t, k.assignee.value))
            else r == s
  {
    hide Apply, Valid, Logged, Recalculate, TasksAround, ArchiveCards, Referential, SameColumns, OnlyCard, CardIs;
    var e := Reassign(t, u);
    Reconciled(s, e, now);
    ValidProjects(s);
    var r, w := Apply(s, Change(e), now), Writes(s, e);
    if w.todo != [] {
      OneCardWritten(s, w.state, r, t);
      ReassignedTimers(s, t, u, now);
    }
  }

  lemma ReassignedTimers(s: State, t: nat, u: nat, now: int)
    requires Valid(s) && t in s.tasks && u in s.active && s.tasks[t].project in s.projects
    requires var r := Apply(s, Change(Reassign(t, u)), now);
             && r.projects == s.projects && r.active == s.active
             && CardIs(r, t, s.tasks[t].project, Some(u), s.tasks[t].status, s.tasks[t].archived)
    ensures var r, k, p := Apply(s, Change(Reassign(t, u)), now), s.tasks[t], s.projects[s.tasks[t].project];
            && (k.status == InProgress && !k.archived ==> HasTimer(r, t, u))
            && (k.assignee.Some? && k.assignee.value != u ==>
                  k.assignee.value != p.manager && k.assignee.value !in p.collaborators ==>
                    !HasTimer(r, t, k.assignee.value))
  {
    ValidProjects(s);
    hide Apply, Valid;
    var r := Apply(s, Change(Reassign(t, u)), now);
    ApplyKeeps(s, Change(Reassign(t, u)), now);
    TimersExactly(r, t, u);
    if s.tasks[t].assignee.Some? { TimersExactly(r, t, s.tasks[t].assignee.value); }
  }

  /** Accepting claims an unassigned card and leaves an assigned one alone. */
  lemma AcceptEffect(s: State, t: nat, u: nat, now: int)
    requires Valid(s)
    ensures var r := Apply(s, Change(AcceptAssignment(t, u)), now);
            if t in s.tasks && s.tasks[t].assignee.None?
            then OnlyCard(s, r, t) && CardIs(r, t, s.tasks[t].project, Some(u), s.tasks[t].status, s.tasks[t].archived)
            else r == s
  {
    hide Apply, Valid, Logged, Recalculate, TasksAround, ArchiveCards, Referential, SameColumns, OnlyCard, CardIs;
    Reconciled(s, AcceptAssignment(t, u), now);
    var r, w := Apply(s, Change(AcceptAssignment(t, u)), now), Writes(s, AcceptAssignment(t, u));
    if w.todo != [] {
      OneCardWritten(s, w.state, r, t);
    }
  }

  /** A back-office save writes the submitted columns, archived if the project is, and repairs the cached ones. */
  lemma AdminSaveEffect(s: State, t: nat, row: Task, now: int)
    requires Valid(s)
    ensures var r := Apply(s, Change(AdminSaveTask(t, row)), now);
            if row.project in s.projects then
              && OnlyCard(s, r, t)
              && CardIs(r, t, row.project, row.assignee, row.status, row.archived || s.projects[row.project].archived)
              && StartsRight(r) && TotalsRight(r)
            else r == s
  {
    hide Apply, Valid, Logged, TasksAround, ArchiveCards, Referential, SameColumns, OnlyCard, CardIs, StartsRight,
         TotalsRight;
    var e := AdminSaveTask(t, row);
    Reconciled(s, e, now);
    ApplyKeeps(s, Change(e), now);
    var r, w := Apply(s, Change(e), now), Writes(s, e);
    if w.todo != [] {
      OneCardWritten(s, w.state, r, t);
      ValidStarts(r);
      ValidTotals(r);
    }
  }

  // ---------- projects and workers ----------

  lemma NewProjectEffect(s: State, p: nat, row: Project, now: int)
    requires Valid(s)
    ensures var r := Apply(s, Change(CreateProject(p, row)), now);
            r == if p !in s.projects && row.manager in s.active && row.collaborators <= s.active
                 then s.(projects := s.projects[p := row]) else s
  {
    hide Apply, Valid, Logged, Recalculate, TasksAround, ArchiveCards, Referential, SameColumns, OnlyCard, CardIs;
    Reconciled(s, CreateProject(p, row), now);
  }

  /** Cards of the project are archived with it, by a request that archives it; nothing else of any card changes. */
  ghost predicate CardsArchived(s: State, r: State, p: nat, archiving: bool) {
    forall t :: if t in s.tasks && s.tasks[t].project == p && archiving
                then CardIs(r, t, p, s.tasks[t].assignee, s.tasks[t].status, true)
                else SameCard(s, r, t)
  }

  /** Submitted columns of the project are written; archiving it archives its cards, restoring it restores none. */
  lemma ProjectEffect(s: State, p: nat, manager: Option<nat>, collaborators: Option<set<nat>>, archived: Option<bool>,
                      now: int)
    requires Valid(s)
    ensures var r := Apply(s, Change(PatchProject(p, manager, collaborators, archived)), now);
            if && p in s.projects && (manager.Some? ==> manager.value in s.active)
               && (collaborators.Some? ==> collaborators.value <= s.active)
            then
              && r.active == s.active && r.projects.Keys == s.projects.Keys
              && (forall x :: x in s.projects && x != p ==> r.projects[x] == s.projects[x])
              && r.projects[p].manager == (if manager.Some? then manager.value else s.projects[p].manager)
              && r.projects[p].collaborators
                 == (if collaborators.Some? then collaborators.value else s.projects[p].collaborators)
              && r.projects[p].archived == (if archived.Some? then archived.value else s.projects[p].archived)
              && CardsArchived(s, r, p, r.projects[p].archived && !s.projects[p].archived)
            else r == s
  {
    hide Apply, Valid, ArchiveCards, TasksOf, Referential, SameColumns, CardsArchived;
    var e := PatchProject(p, manager, collaborators, archived);
    Reconciled(s, e, now);
    var r, w := Apply(s, Change(e), now), Writes(s, e);
    if && p in s.projects && (manager.Some? ==> manager.value in s.active)
       && (collaborators.Some? ==> collaborators.value <= s.active)
    {
      var was := s.projects[p];
      var row := Project(if manager.Some? then manager.value else was.manager,
                         if collaborators.Some? then collaborators.value else was.collaborators,
                         if archived.Some? then archived.value else was.archived);
      ProjectCardsWritten(s, w.state, r, p, s.(projects := s.projects[p := row]), row.archived && !was.archived);
    }
  }

  lemma AdminProjectEffect(s: State, p: nat, row: Project, now: int)
    requires Valid(s)
    ensures var r := Apply(s, Change(AdminSaveProject(p, row)), now);
            && r.active == s.active && r.projects == s.projects[p := row] && CardsArchived(s, r, p, row.archived)
  {
    hide Apply, Valid, ArchiveCards, TasksOf, Referential, SameColumns, CardsArchived;
    var e := AdminSaveProject(p, row);
    Reconciled(s, e, now);
    ProjectCardsWritten(s, Writes(s, e).state, Apply(s, Change(e), now), p, s.(projects := s.projects[p := row]),
                        row.archived);
  }

  lemma ActiveWritten(s: State, u: nat, on: bool)
    requires Referential(s)
    ensures var w := Writes(s, SetActive(u, on)).state;
            w.tasks == s.tasks && w.projects == s.projects && w.active == if on then s.active + {u} else s.active - {u}
  {
  }

  /** The card is running and the worker manages or shares its project or is assigned to it. */
  predicate OnRunningCard(s: State, t: nat, u: nat) {
    && t in s.tasks && s.tasks[t].status == InProgress && !s.tasks[t].archived
    && s.tasks[t].project in s.projects
    && var p := s.projects[s.tasks[t].project];
       !p.archived && (s.tasks[t].assignee == Some(u) || u == p.manager || u in p.collaborators)
  }

  /** After a deactivation the worker is inactive and has no timer anywhere; after an activation they are active and
      have a timer on every running card they manage, share or are assigned to; nothing else is written. */
  lemma ActivationEffect(s: State, u: nat, on: bool, now: int)
    requires Valid(s)
    ensures var r := Apply(s, Change(SetActive(u, on)), now);
            && (u in r.active <==> on) && (forall v :: v != u ==> (v in r.active <==> v in s.active))
            && r.projects == s.projects && (forall t :: SameCard(s, r, t))
            && (!on ==> forall row :: row in r.sessions ==> row.user != u)
            && (on ==> forall t :: OnRunningCard(s, t, u) ==> HasTimer(r, t, u))
  {
    hide Apply, Valid, TasksAround, Referential;
    var e := SetActive(u, on);
    var r := Apply(s, Change(e), now);
    Reconciled(s, e, now);
    ActiveWritten(s, u, on);
    hide Writes;
    forall t ensures SameCard(s, r, t) {
      assert SameCard(Writes(s, e).state, r, t);
    }
    ApplyKeeps(s, Change(e), now);
    ValidProjects(r);
    ValidTimerRows(r);
    forall row | row in r.sessions && row.user == u ensures on {
      assert HasTimer(r, row.task, u);
    }
    if on {
      forall t | OnRunningCard(s, t, u) ensures HasTimer(r, t, u) {
        assert SameCard(s, r, t);
      }
    }
  }

  // ---------- time rows and deletions ----------

  /** Cards keep every column but the cached total; timers, projects and workers stay. */
  ghost predicate OnlyTotals(s: State, r: State) {
    && r.active == s.active && r.projects == s.projects && r.sessions == s.sessions && r.tasks.Keys == s.tasks.Keys
    && forall t :: t in s.tasks ==> r.tasks[t] == s.tasks[t].(actualMinutes := r.tasks[t].actualMinutes)
  }

  /** A manual entry adds one row, with the submitted worker, minutes and date, and its minutes to the card. */
  lemma LogTimeEffect(s: State, t: nat, u: nat, minutes: nat, date: int)
    requires Valid(s)
    ensures var r := Maintain(s, LogTime(t, u, minutes, date));
            if t in s.tasks && minutes > 0 then
              && OnlyTotals(s, r) && TotalsRight(r)
              && |r.entries| == |s.entries| + 1 && r.entries[..|s.entries|] == s.entries
              && var e := r.entries[|s.entries|];
                 && e.task == t && e.user == u && e.minutes == minutes && e.workDate == date && !e.automatic
                 && (forall x :: x in s.entries ==> x.id != e.id)
                 && r.tasks[t].actualMinutes == s.tasks[t].actualMinutes + minutes
            else r == s
  {
    var k := LogTime(t, u, minutes, date);
    var r := Maintain(s, k);
    UpkeepKeepsTotals(s, k);
    CachedTotals(s);
    NewId(s);
    hide Valid, Logged, TotalsRight, OnlyTotals;
    if t in s.tasks && minutes > 0 {
      var e := Entry(s.nextEntry, t, u, minutes, date, false);
      LoggedTimeRow(s, e);
      LoggedOfOne(e, t);
      LoggedAppend(s.entries, [e], Card(t));
    }
  }

  lemma LoggedTimeRow(s: State, e: Entry)
    requires e.task in s.tasks && e.minutes > 0 && e.id == s.nextEntry && !e.automatic
    ensures var r := Maintain(s, LogTime(e.task, e.user, e.minutes, e.workDate));
            && OnlyTotals(s, r) && r.entries == s.entries + [e]
            && r.tasks[e.task].actualMinutes == Logged(s.entries + [e], Card(e.task))
  {
    hide Logged;
  }

  lemma UpkeepKeepsTotals(s: State, k: Upkeep)
    requires Valid(s)
    ensures TotalsRight(Maintain(s, k))
  {
    hide Maintain, TotalsRight;
    MaintainKeeps(s, k);
    ValidTotals(Maintain(s, k));
  }

  lemma LoggedOfOne(e: Entry, t: nat)
    requires e.task == t
    ensures Logged([e], Card(t)) == e.minutes
  {
    assert [e][..0] == [];
  }

  /** The time rows are those before but for one, of the given id or one that no row had, which has the submitted
      card, worker, minutes and date. */
  ghost predicate RowSaved(s: State, r: State, id: Option<nat>, row: Entry) {
    exists e :: && e in r.entries && (id.Some? ==> e.id == id.value)
                && (id.None? ==> forall x :: x in s.entries ==> x.id != e.id)
                && e.task == row.task && e.user == row.user && e.minutes == row.minutes && e.workDate == row.workDate
                && (forall x :: x in r.entries <==> x == e || (x in s.entries && x.id != e.id))
  }

  /** A saved time row replaces the stored row of its id, if any, and no other; without an id it is a new one. */
  lemma SaveEntryEffect(s: State, id: Option<nat>, row: Entry)
    requires Valid(s)
    ensures var r := Maintain(s, SaveEntry(id, row));
            if row.task in s.tasks && (id.Some? ==> id.value < s.nextEntry) then
              OnlyTotals(s, r) && TotalsRight(r) && RowSaved(s, r, id, row)
            else r == s
  {
    UpkeepKeepsTotals(s, SaveEntry(id, row));
    NewId(s);
    NotSaved(s, id, row);
    hide Valid, Maintain, TotalsRight, OnlyTotals, HasEntry, RowSaved;
    if Savable(s, id, row) {
      var e := Manual(row, if id.None? then s.nextEntry else id.value);
      SavedTimeRow(s, id, row, e);
      NoOtherId(s.entries, s.nextEntry);
      SavedAs(Maintain(s, SaveEntry(id, row)), s, id, row, e);
    }
  }

  lemma SavedAs(r: State, s: State, id: Option<nat>, row: Entry, e: Entry)
    requires e == Manual(row, if id.None? then s.nextEntry else id.value)
    requires forall x :: x in r.entries <==> x == e || (x in s.entries && x.id != e.id)
    requires id.None? ==> forall x :: x in s.entries ==> x.id != e.id
    ensures RowSaved(s, r, id, row)
  {
    assert e in r.entries;
  }

  lemma NotSaved(s: State, id: Option<nat>, row: Entry)
    ensures !Savable(s, id, row) ==> Maintain(s, SaveEntry(id, row)) == s
  {
  }

  lemma NoOtherId(es: seq<Entry>, id: nat)
    ensures !HasEntry(es, id) ==> forall x :: x in es ==> x.id != id
  {
  }

  lemma SavedTimeRow(s: State, id: Option<nat>, row: Entry, e: Entry)
    requires Savable(s, id, row) && (id.None? ==> !HasEntry(s.entries, s.nextEntry))
    requires e == Manual(row, if id.None? then s.nextEntry else id.value)
    ensures var r := Maintain(s, SaveEntry(id, row));
            OnlyTotals(s, r) && forall x :: x in r.entries <==> x == e || (x in s.entries && x.id != e.id)
  {
    hide Logged, ReplaceEntry, HasEntry, Touched;
    SavedRows(s.entries, e.id, row);
  }

  lemma SavedRows(es: seq<Entry>, id: nat, row: Entry)
    ensures HasEntry(es, id) ==> forall x :: x in ReplaceEntry(es, id, row) <==>
                                   x == Manual(row, id) || (x in es && x.id != id)
    ensures !HasEntry(es, id) ==> forall x :: x in es + [Manual(row, id)] <==>
                                    x == Manual(row, id) || (x in es && x.id != id)
  {
    var r := ReplaceEntry(es, id, row);
    if HasEntry(es, id) {
      var y :| y in es && y.id == id;
      var j :| 0 <= j < |es| && es[j] == y;
      assert r[j] == Manual(row, id);
      forall x | x in es && x.id != id ensures x in r {
        var i :| 0 <= i < |es| && es[i] == x;
        assert r[i] == x;
      }
    }
  }

  lemma DeleteEntriesEffect(s: State, ids: set<nat>)
    requires Valid(s)
    ensures var r := Maintain(s, DeleteEntries(ids));
            && OnlyTotals(s, r) && TotalsRight(r)
            && forall x :: x in r.entries <==> x in s.entries && x.id !in ids
  {
    hide Valid, Logged, TotalsRight, DropEntries;
    UpkeepKeepsTotals(s, DeleteEntries(ids));
    DropEntriesLeft(s.entries, {}, ids);
  }

  lemma {:induction false} DropRowsLeft(rows: seq<Session>, ts: set<nat>)
    ensures forall row :: row in DropRows(rows, ts) <==> row in rows && row.task !in ts
  {
    if rows != [] {
      DropRowsLeft(rows[..|rows| - 1], ts);
      assert rows == rows[..|rows| - 1] + [rows[|rows| - 1]];
    }
  }

  /** Exactly the given cards are gone, with their timers and time rows; everything else of any card stays. */
  ghost predicate CardsGone(s: State, r: State, ts: set<nat>) {
    && r.active == s.active && r.tasks == s.tasks - ts
    && (forall row :: row in r.sessions <==> row in s.sessions && row.task !in ts)
    && (forall e :: e in r.entries <==> e in s.entries && e.task !in ts)
  }

  lemma DeleteTasksEffect(s: State, ts: set<nat>)
    ensures CardsGone(s, DeleteTasks(s, ts), ts) && DeleteTasks(s, ts).projects == s.projects
  {
    DropRowsLeft(s.sessions, ts);
    DropEntriesLeft(s.entries, ts, {});
  }

  lemma DeleteCardEffect(s: State, t: nat)
    requires Valid(s)
    ensures var r := Maintain(s, DeleteTask(t));
            CardsGone(s, r, {t}) && r.projects == s.projects && RowsRight(r)
  {
    MaintainKeeps(s, DeleteTask(t));
    DeleteTasksEffect(s, {t});
    ValidRows(Maintain(s, DeleteTask(t)));
  }

  /** Deleting a project deletes exactly its cards. */
  lemma DeleteProjectEffect(s: State, p: nat)
    requires Valid(s)
    ensures var r := Maintain(s, DeleteProject(p));
            && CardsGone(s, r, set t | t in s.tasks && s.tasks[t].project == p)
            && r.projects == s.projects - {p} && RowsRight(r)
  {
    MaintainKeeps(s, DeleteProject(p));
    DeleteTasksEffect(s, TasksOf(s, p));
    ValidRows(Maintain(s, DeleteProject(p)));
  }
}
