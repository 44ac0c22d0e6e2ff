/** A confirmed action seen from the workflow: it is one of the workflow's own requests. */
module ConfirmedWorkflow {
  import opened Ids
  import W = WorkSessions
  import Workflow
  import WorkflowRuns
  import C = Confirmation

  /** The records of a proposal and the workflow tables agree on the columns both hold. */
  ghost predicate Mirrors(w: C.World, s: W.State) {
    && w.projects.Keys == s.projects.Keys && w.cards.Keys == s.tasks.Keys
    && (forall p :: p in w.projects ==>
          s.projects[p] == W.Project(w.projects[p].manager, w.projects[p].collaborators, w.projects[p].archived))
    && (forall c :: c in w.cards ==>
          && s.tasks[c].project == w.cards[c].project && s.tasks[c].assignee == w.cards[c].assignee
          && s.tasks[c].status == w.cards[c].status && s.tasks[c].archived == w.cards[c].archived)
  }

  /** The request a confirmed action replays on the native endpoints. */
  function NativeRequest(t: C.Target, op: C.Operation): Workflow.Edit {
    match (t, op)
    case (OfProject(p), Update) => Workflow.PatchProject(p, None, None, None)
    case (OfProject(p), Archive) => Workflow.PatchProject(p, None, None, Some(true))
    case (OfCard(c), Update) => Workflow.PatchTask(c, None, None, None, None)
    case (OfCard(c), Archive) => Workflow.ArchiveTask(c, true)
  }

  predicate Stored(s: W.State, t: C.Target) {
    match t
    case OfProject(p) => p in s.projects
    case OfCard(c) => c in s.tasks
  }

  /** An update touches no workflow column. */
  lemma UpdateWritesNothing(s: W.State, t: C.Target)
    requires Workflow.Valid(s) && Stored(s, t)
    ensures Workflow.Writes(s, NativeRequest(t, C.Update)).state == s
  {
    match t
    case OfProject(p) =>
      assert s.projects[p := s.projects[p]] == s.projects;
    case OfCard(c) =>
      assert W.Known(s, c) && s.tasks[c := s.tasks[c]] == s.tasks;
  }

  lemma UpdateMirrors(w: C.World, s: W.State, t: C.Target, changes: C.Changes, n: nat)
    requires Mirrors(w, s) && C.SavedAt(w, t).Some?
    ensures Mirrors(C.Native(w, t, C.Update, changes, n), s)
  {
  }

  lemma CardArchiveMirrors(w: C.World, s: W.State, c: nat, changes: C.Changes, n: nat)
    requires Mirrors(w, s) && c in w.cards
    ensures Mirrors(C.Native(w, C.OfCard(c), C.Archive, changes, n),
                    Workflow.WriteTask(s, c, s.tasks[c].(archived := true)))
  {
  }

  /** What archiving a project leaves in the tables; archiving it again changes nothing. */
  function Archived(s: W.State, p: nat): W.State
    requires p in s.projects
  {
    Workflow.ArchiveCards(s.(projects := s.projects[p := s.projects[p].(archived := true)]), Workflow.TasksOf(s, p))
  }

  lemma ArchiveWrites(s: W.State, p: nat)
    requires Workflow.Valid(s) && p in s.projects
    ensures Workflow.Writes(s, Workflow.PatchProject(p, None, None, Some(true))).state == Archived(s, p)
  {
    var row := s.projects[p].(archived := true);
    assert row == W.Project(s.projects[p].manager, s.projects[p].collaborators, true);
    if s.projects[p].archived {
      assert Archived(s, p).tasks == s.tasks;
    }
  }

  lemma ProjectArchiveMirrors(w: C.World, s: W.State, p: nat, changes: C.Changes, n: nat)
    requires Mirrors(w, s) && p in w.projects
    ensures Mirrors(C.Native(w, C.OfProject(p), C.Archive, changes, n), Archived(s, p))
  {
    var v, r := C.Native(w, C.OfProject(p), C.Archive, changes, n), Archived(s, p);
    forall c | c in v.cards
      ensures r.tasks[c] == s.tasks[c].(archived := v.cards[c].archived)
    {
      assert c in s.tasks && s.tasks[c].project == w.cards[c].project;
    }
  }

  /** The request's own writes are the native edit's, on the shared columns. */
  lemma WritesMirror(w: C.World, s: W.State, t: C.Target, op: C.Operation, changes: C.Changes, n: nat)
    requires Mirrors(w, s) && Workflow.Valid(s) && C.SavedAt(w, t).Some?
    ensures Mirrors(C.Native(w, t, op, changes, n), Workflow.Writes(s, NativeRequest(t, op)).state)
  {
    assert Stored(s, t);
    if op == C.Update {
      hide Mirrors, C.Native, Workflow.Valid;
      UpdateWritesNothing(s, t);
      UpdateMirrors(w, s, t, changes, n);
    } else {
      match t
      case OfProject(p) =>
        hide Mirrors, C.Native, Workflow.Valid;
        ArchiveWrites(s, p);
        ProjectArchiveMirrors(w, s, p, changes, n);
      case OfCard(c) =>
        assert W.Known(s, c);
        hide Mirrors, C.Native, Workflow.Valid;
        CardArchiveMirrors(w, s, c, changes, n);
    }
  }

  lemma SameWorkflowMirrors(w: C.World, s: W.State, r: W.State)
    requires Mirrors(w, s) && W.SameWorkflow(s, r)
    ensures Mirrors(w, r)
  {
  }

  /** A confirmed action is the workflow request it replays: the records stay mirrored, the tables stay valid and
      no total of logged plus live minutes changes at that instant. */
  lemma ConfirmedIsRequest(w: C.World, s: W.State, t: C.Target, op: C.Operation, changes: C.Changes, n: nat, now: int)
    requires Mirrors(w, s) && Workflow.Valid(s) && C.SavedAt(w, t).Some?
    ensures var r := Workflow.Apply(s, Workflow.Change(NativeRequest(t, op)), now);
            && Mirrors(C.Native(w, t, op, changes, n), r)
            && Workflow.Valid(r)
            && forall x :: WorkflowRuns.Credit(r, x, now) == WorkflowRuns.Credit(s, x, now)
  {
    hide Mirrors, C.Native;
    var e := NativeRequest(t, op);
    WritesMirror(w, s, t, op, changes, n);
    Workflow.WritesPending(s, e);
    var m := Workflow.Writes(s, e);
    Workflow.ApplyKeeps(s, Workflow.Change(e), now);
    SameWorkflowMirrors(C.Native(w, t, op, changes, n), m.state, Workflow.ReconcileAll(m.state, m.todo, now));
    forall x ensures WorkflowRuns.Credit(Workflow.Apply(s, Workflow.Change(e), now), x, now)
                  == WorkflowRuns.Credit(s, x, now)
    {
      WorkflowRuns.EditConserves(s, e, now, x);
    }
  }

  /** After a confirmed update every worker keeps exactly the timer they had; nothing is logged or reset. */
  lemma ConfirmedUpdateKeepsTimers(s: W.State, t: C.Target, now: int)
    requires Workflow.Valid(s) && Stored(s, t)
    ensures Workflow.Apply(s, Workflow.Change(NativeRequest(t, C.Update)), now) == s
  {
    var e := NativeRequest(t, C.Update);
    Workflow.WritesPending(s, e);
    hide Workflow.Writes, NativeRequest;
    var w := Workflow.Writes(s, e);
    UpdateWritesNothing(s, t);
    SettledAreFixed(s, w.todo, now);
  }

  lemma {:induction false} SettledAreFixed(s: W.State, todo: seq<nat>, now: int)
    requires Workflow.Valid(s) && forall t :: t in todo ==> W.Known(s, t)
    ensures Workflow.ReconcileAll(s, todo, now) == s
  {
    if todo != [] {
      assert todo[|todo| - 1] in todo;
      SettledAreFixed(s, todo[..|todo| - 1], now);
      WorkflowRuns.SettledIsFixed(s, todo[|todo| - 1], now);
    }
  }

  lemma TimerMeansActive(s: W.State, row: W.Session)
    requires Workflow.Valid(s) && row in s.sessions
    ensures W.Known(s, row.task) && !s.tasks[row.task].archived && !s.projects[s.tasks[row.task].project].archived
  {
    assert row.user in W.Users(s.sessions, row.task);
    W.TimersOfUsers(s.sessions, row.task, row.user);
    assert row.task in s.tasks;
    WorkflowRuns.ValidTimers(s, row.task);
  }

  lemma ArchivedInTables(w: C.World, s: W.State, t: C.Target, changes: C.Changes, n: nat)
    requires C.SavedAt(w, t).Some? && Mirrors(C.Native(w, t, C.Archive, changes, n), s)
    ensures match t
            case OfProject(p) => p in s.projects && s.projects[p].archived
            case OfCard(c) => c in s.tasks && s.tasks[c].archived
  {
  }

  /** After a confirmed archive no timer is open on the record: none on the card, none on any card of the
      project. */
  lemma ConfirmedArchiveStopsTimers(w: C.World, s: W.State, t: C.Target, changes: C.Changes, n: nat, now: int)
    requires Mirrors(w, s) && Workflow.Valid(s) && C.SavedAt(w, t).Some?
    ensures var r := Workflow.Apply(s, Workflow.Change(NativeRequest(t, C.Archive)), now);
            forall row :: row in r.sessions ==>
              row.task in r.tasks && t != C.OfCard(row.task) && t != C.OfProject(r.tasks[row.task].project)
  {
    hide Workflow.Apply, Workflow.Valid, NativeRequest, WorkflowRuns.Credit, Mirrors, C.Native;
    var r := Workflow.Apply(s, Workflow.Change(NativeRequest(t, C.Archive)), now);
    ConfirmedIsRequest(w, s, t, C.Archive, changes, n, now);
    ArchivedInTables(w, r, t, changes, n);
    forall row | row in r.sessions
      ensures row.task in r.tasks && t != C.OfCard(row.task) && t != C.OfProject(r.tasks[row.task].project)
    {
      TimerMeansActive(r, row);
    }
  }
}
