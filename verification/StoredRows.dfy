/** What the stored rows look like, row by row: who has a timer, since when, and what a card's columns cache. */
module StoredRows {
  import opened Ids
  import opened WorkCalendar
  import opened WorkSessions
  import opened RowSums
  import opened Workflow
  import opened WorkflowRuns

  /** The unique constraint: one timer row per card and worker. */
  predicate OneTimerEach(rows: seq<Session>) {
    forall i, j :: 0 <= i < j < |rows| ==> rows[i].task != rows[j].task || rows[i].user != rows[j].user
  }

  lemma {:induction false} TimersOfPairs(rows: seq<Session>, t: nat, u: nat)
    requires OneTimerEach(rows)
    ensures Timers(rows, t, u) == if exists row :: row in rows && row.task == t && row.user == u then 1 else 0
  {
    if rows != [] {
      var before, r := rows[..|rows| - 1], rows[|rows| - 1];
      LastTimer(rows);
      TimersOfPairs(before, t, u);
      hide OneTimerEach;
      if r.task == t && r.user == u {
        assert r in rows;
      }
    }
  }

  lemma LastTimer(rows: seq<Session>)
    requires OneTimerEach(rows) && rows != []
    ensures var before, r := rows[..|rows| - 1], rows[|rows| - 1];
            && rows == before + [r] && OneTimerEach(before)
            && forall row :: row in before ==> row.task != r.task || row.user != r.user
  {
    var before, r := rows[..|rows| - 1], rows[|rows| - 1];
    forall row | row in before ensures row.task != r.task || row.user != r.user {
      var i :| 0 <= i < |before| && before[i] == row;
      assert rows[i] == row && rows[|rows| - 1] == r;
    }
  }

  lemma {:induction false} PairsOfTimers(rows: seq<Session>)
    requires forall t, u :: Timers(rows, t, u) <= 1
    ensures OneTimerEach(rows)
  {
    if rows != [] {
      var before, r := rows[..|rows| - 1], rows[|rows| - 1];
      assert forall t, u :: Timers(rows, t, u) == Timers(before, t, u) + if r.task == t && r.user == u then 1 else 0;
      PairsOfTimers(before);
      forall i | 0 <= i < |before| ensures rows[i].task != r.task || rows[i].user != r.user {
        TimersOfUsers(before, r.task, r.user);
        assert rows[i] in before;
        assert rows[i].task == r.task ==> rows[i].user in Users(before, r.task);
      }
    }
  }

  ghost predicate HasTimer(s: State, t: nat, u: nat) {
    exists row :: row in s.sessions && row.task == t && row.user == u
  }

  /** In a valid state a worker has a timer on a card exactly while the card is in progress, neither it nor its
      project is archived, and the worker is active and the project's manager, a collaborator or the assignee. */
  lemma TimersExactly(s: State, t: nat, u: nat)
    requires Valid(s) && t in s.tasks
    ensures s.tasks[t].project in s.projects
    ensures HasTimer(s, t, u) <==>
            var k := s.tasks[t];
            var p := s.projects[k.project];
            && k.status == InProgress && !k.archived && !p.archived && u in s.active
            && (u == p.manager || u in p.collaborators || k.assignee == Some(u))
  {
    ValidTimers(s, t);
    if row :| row in s.sessions && row.task == t && row.user == u {
      assert u in Users(s.sessions, t);
    }
    if u in Users(s.sessions, t) {
      var row :| row in s.sessions && row.task == t && row.user == u;
    }
  }

  /** Every card is in a stored project, and in an archived one only if archived itself. */
  ghost predicate ProjectsRight(s: State) {
    forall t :: t in s.tasks ==>
      s.tasks[t].project in s.projects && (s.projects[s.tasks[t].project].archived ==> s.tasks[t].archived)
  }

  /** The timers are exactly those of active managers, collaborators and assignees of running cards, one each. */
  ghost predicate TimersRight(s: State)
    requires ProjectsRight(s)
  {
    && OneTimerEach(s.sessions)
    && forall t, u :: HasTimer(s, t, u) <==>
         && t in s.tasks && s.tasks[t].status == InProgress && !s.tasks[t].archived
         && !s.projects[s.tasks[t].project].archived && u in s.active
         && (u == s.projects[s.tasks[t].project].manager || u in s.projects[s.tasks[t].project].collaborators
             || s.tasks[t].assignee == Some(u))
  }

  /** A card's cached start is its earliest timer's, none without timers. */
  ghost predicate StartsRight(s: State) {
    forall t :: t in s.tasks ==>
      match s.tasks[t].workStartedAt
      case None => forall row :: row in s.sessions ==> row.task != t
      case Some(start) =>
        && (exists row :: row in s.sessions && row.task == t && row.startedAt == start)
        && (forall row :: row in s.sessions && row.task == t ==> start <= row.startedAt)
  }

  /** Time rows have distinct ids and stored cards, and a card's cached total is the sum of its rows. */
  ghost predicate TotalsRight(s: State) {
    && (forall i, j :: 0 <= i < j < |s.entries| ==> s.entries[i].id != s.entries[j].id)
    && (forall e :: e in s.entries ==> e.task in s.tasks)
    && forall t :: t in s.tasks ==> s.tasks[t].actualMinutes == MinutesOf(set e | e in s.entries && e.task == t)
  }

  lemma ValidProjects(s: State)
    requires Valid(s)
    ensures ProjectsRight(s)
  {
  }

  lemma ValidTimerRows(s: State)
    requires Valid(s) && ProjectsRight(s)
    ensures TimersRight(s)
  {
    PairsOfTimers(s.sessions);
    forall row | row in s.sessions ensures row.task in s.tasks {
      assert row.user in Users(s.sessions, row.task);
      TimersOfUsers(s.sessions, row.task, row.user);
    }
    forall t, u | t in s.tasks
      ensures HasTimer(s, t, u) <==>
              && s.tasks[t].status == InProgress && !s.tasks[t].archived
              && !s.projects[s.tasks[t].project].archived && u in s.active
              && (u == s.projects[s.tasks[t].project].manager || u in s.projects[s.tasks[t].project].collaborators
                  || s.tasks[t].assignee == Some(u))
    {
      hide Valid, Timers;
      TimersExactly(s, t, u);
    }
  }

  lemma ValidStarts(s: State)
    requires Valid(s)
    ensures StartsRight(s)
  {
    forall t | t in s.tasks ensures s.tasks[t].workStartedAt == MinStart(s.sessions, t) {
      assert Settled(s, t);
    }
    hide Valid, MinStart;
    forall t { MinStartIsLeast(s.sessions, t); }
  }

  lemma ValidTotals(s: State)
    requires Valid(s)
    ensures TotalsRight(s)
  {
    CachedTotals(s);
    ValidIds(s);
    forall t | t in s.tasks ensures s.tasks[t].actualMinutes == MinutesOf(set e | e in s.entries && e.task == t) {
      LoggedRows(s.entries, s.nextEntry, Card(t));
      assert RowsOf(s.entries, Card(t)) == set e | e in s.entries && e.task == t;
    }
  }

  ghost predicate RowsRight(s: State) { ProjectsRight(s) && TimersRight(s) && StartsRight(s) && TotalsRight(s) }

  lemma ValidRows(s: State)
    requires Valid(s)
    ensures RowsRight(s)
  {
    hide Valid, ProjectsRight, TimersRight, StartsRight, TotalsRight;
    ValidProjects(s);
    ValidTimerRows(s);
    ValidStarts(s);
    ValidTotals(s);
  }

  /** Every state that any run of requests reaches from an empty database has the right rows. */
  lemma ReachableRows(run: seq<Event>)
    ensures RowsRight(Run(EMPTY, run))
  {
    hide Run, RowsRight;
    Reachable(run);
    hide Valid;
    ValidRows(Run(EMPTY, run));
  }

  lemma {:induction false} OpeningExactly(t: nat, users: seq<nat>, now: int)
    ensures forall row :: row in Opening(t, users, now) <==>
              row.task == t && row.user in users && row.startedAt == now
  {
    if users != [] {
      OpeningExactly(t, users[..|users| - 1], now);
      assert users == users[..|users| - 1] + [users[|users| - 1]];
    }
  }

  /** Reconciling a card, on any tables with one timer row per card and worker: rows of other cards stay; a worker
      who is entitled to a timer keeps theirs, start included, or gets one from now; everyone else has none. */
  lemma ReconcileRows(s: State, t: nat, now: int)
    requires Known(s, t)
    ensures var r, k, p := Reconcile(s, t, now), s.tasks[t], s.projects[s.tasks[t].project];
            forall row :: row in r.sessions <==>
              if row.task != t then row in s.sessions
              else
                && k.status == InProgress && !k.archived && !p.archived && row.user in s.active
                && (row.user == p.manager || row.user in p.collaborators || k.assignee == Some(row.user))
                && (row in s.sessions
                    || (row.startedAt == now && forall x :: x in s.sessions && x.task == t ==> x.user != row.user))
  {
    var ps := Participants(s, t);
    var joining := Sorted(ps - Users(s.sessions, t));
    ClosingOnly(s.sessions, t, ps);
    OpeningExactly(t, joining, now);
    var r := Reconcile(s, t, now);
    assert r.sessions == Keeping(s.sessions, t, ps) + Opening(t, joining, now);
    hide Reconcile, Keeping, Opening;
  }

  lemma {:induction false} LiveOfRow(rows: seq<Session>, x: Session, now: int)
    requires OneTimerEach(rows) && x in rows
    ensures Live(rows, Worker(x.task, x.user), now) == Count(x.startedAt, now)
  {
    var before := rows[..|rows| - 1];
    LastTimer(rows);
    hide Count, OneTimerEach;
    if x in before {
      LiveOfRow(before, x, now);
    } else {
      NoLive(before, Worker(x.task, x.user), now);
    }
  }

  /** What reconciling logs: for a timer that closes, the scheduled minutes it was open; nothing for one that stays,
      and nothing for a worker without a timer. */
  lemma ClosedTimersLogged(s: State, t: nat, now: int, u: nat)
    requires Known(s, t) && OneTimerEach(s.sessions)
    ensures var r := Reconcile(s, t, now);
            && OneTimerEach(r.sessions)
            && (forall x :: x in s.sessions && x.task == t && x.user == u ==>
                  Logged(r.entries, Worker(t, u))
                  == Logged(s.entries, Worker(t, u)) + if x in r.sessions then 0 else Count(x.startedAt, now))
            && ((forall x :: x in s.sessions && x.task == t ==> x.user != u) ==>
                  Logged(r.entries, Worker(t, u)) == Logged(s.entries, Worker(t, u)))
  {
    hide Count, Reconcile, Live, Logged, Timers;
    var r, w := Reconcile(s, t, now), Worker(t, u);
    ReconcileConserves(s, t, now, w);
    ReconcileRows(s, t, now);
    forall t', u' ensures Timers(r.sessions, t', u') <= 1 {
      TimersOfPairs(s.sessions, t', u');
      TimersOfPairs(s.sessions, t, u');
      ReconcileTimers(s, t, now, t', u');
    }
    PairsOfTimers(r.sessions);
    if x :| x in s.sessions && x.task == t && x.user == u {
      LiveOfRow(s.sessions, x, now);
      if x in r.sessions {
        LiveOfRow(r.sessions, x, now);
      } else {
        forall y | y in r.sessions ensures !(y.task == t && y.user == u) {
          if y.task == t && y.user == u { SameRow(s.sessions, x, y); }
        }
        NoLive(r.sessions, w, now);
      }
      forall y | y in s.sessions && y.task == t && y.user == u ensures y == x { SameRow(s.sessions, x, y); }
    } else {
      NoLive(s.sessions, w, now);
      if y :| y in r.sessions && y.task == t && y.user == u {
        LiveOfRow(r.sessions, y, now);
        ZeroCount(now);
      } else {
        NoLive(r.sessions, w, now);
      }
    }
  }

  lemma SameRow(rows: seq<Session>, x: Session, y: Session)
    requires OneTimerEach(rows) && x in rows && y in rows && x.task == y.task && x.user == y.user
    ensures x == y
  {
  }
}
