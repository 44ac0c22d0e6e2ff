/** A drag seen from the workflow: it is the status request on the moved card. */
module BoardWorkflow {
  import W = WorkSessions
  import Workflow
  import WorkflowRuns
  import opened Board
  import BoardReorder

  /** The board and the workflow tables agree on the columns both hold. */
  predicate Mirrors(cards: Cards, s: W.State) {
    && cards.Keys == s.tasks.Keys
    && forall c :: c in cards ==> s.tasks[c].status == cards[c].status && s.tasks[c].archived == cards[c].archived
  }

  function StatusStep(q: Request): Workflow.Step
    requires q.moved in Submitted(q.items)
  {
    Workflow.Change(Workflow.SetStatus(q.moved, Target(q)))
  }

  /** Of the columns both hold, the request changes the moved card's status. */
  lemma StatusWritten(s: W.State, t: nat, status: W.Status, now: int)
    requires Workflow.Valid(s) && t in s.tasks
    ensures var r := Workflow.Apply(s, Workflow.Change(Workflow.SetStatus(t, status)), now);
            && r.tasks.Keys == s.tasks.Keys
            && forall c :: c in s.tasks ==>
                 && r.tasks[c].status == (if c == t then status else s.tasks[c].status)
                 && r.tasks[c].archived == s.tasks[c].archived
  {
    var e := Workflow.SetStatus(t, status);
    Workflow.WritesPending(s, e);
    var w := Workflow.Writes(s, e);
    assert W.SameWorkflow(w.state, Workflow.ReconcileAll(w.state, w.todo, now));
  }

  /** A drag is the status request on the moved card: the board stays mirrored, the tables stay valid, no total of
      logged plus live minutes changes at that instant, and within one column nothing at all changes. */
  lemma DragIsStatusStep(cards: Cards, q: Request, s: W.State, now: int)
    requires Mirrors(cards, s) && Workflow.Valid(s) && Acceptable(cards, q)
    ensures var r := Workflow.Apply(s, StatusStep(q), now);
            && Mirrors(Reordered(cards, q), r) && Workflow.Valid(r)
            && (forall x :: WorkflowRuns.Credit(r, x, now) == WorkflowRuns.Credit(s, x, now))
            && (Target(q) == cards[q.moved].status ==> r == s)
  {
    hide Reordered, Workflow.Valid, Workflow.Apply, WorkflowRuns.Credit, Target;
    var to := Target(q);
    BoardReorder.Frame(cards, q);
    StatusWritten(s, q.moved, to, now);
    Workflow.ApplyKeeps(s, StatusStep(q), now);
    forall x
      ensures WorkflowRuns.Credit(Workflow.Apply(s, StatusStep(q), now), x, now) == WorkflowRuns.Credit(s, x, now)
    {
      WorkflowRuns.EditConserves(s, Workflow.SetStatus(q.moved, to), now, x);
    }
    if to == cards[q.moved].status {
      WorkflowRuns.SameStatusIsNoChange(s, q.moved, now);
    }
  }

  /** Dragged out of progress, a card has no timer left; dragged in, exactly its participants have one. */
  lemma DragMovesTimers(cards: Cards, q: Request, s: W.State, now: int)
    requires Mirrors(cards, s) && Workflow.Valid(s) && Acceptable(cards, q)
    ensures var r := Workflow.Apply(s, StatusStep(q), now);
            && W.Known(r, q.moved)
            && W.Users(r.sessions, q.moved) == W.Participants(r, q.moved)
            && (Target(q) != W.InProgress ==> forall row :: row in r.sessions ==> row.task != q.moved)
  {
    hide Workflow.Apply, Target;
    var r := Workflow.Apply(s, StatusStep(q), now);
    StatusWritten(s, q.moved, Target(q), now);
    Workflow.ApplyKeeps(s, StatusStep(q), now);
    WorkflowRuns.ValidTimers(r, q.moved);
    hide Workflow.Valid;
    forall row | row in r.sessions && row.task == q.moved ensures row.user in W.Participants(r, q.moved) {
      assert row.user in W.Users(r.sessions, q.moved);
    }
  }
}
