/** The stored rows behind shared timers, and the reconciliation of one card's work sessions. */
module WorkSessions {
  import opened Ids
  import opened WorkCalendar
  import opened DailyWork

  datatype Status = Backlog | Todo | InProgress | InReview | Blocked | Done

  datatype Project = Project(manager: nat, collaborators: set<nat>, archived: bool)

  datatype Task = Task(project: nat, assignee: Option<nat>, status: Status, archived: bool,
                       workStartedAt: Option<int>, actualMinutes: nat)

  /** An open timer row. */
  datatype Session = Session(task: nat, user: nat, startedAt: int)

  /** A logged time row; automatic marks the rows written when a timer closes. */
  datatype Entry = Entry(id: nat, task: nat, user: nat, minutes: nat, workDate: int, automatic: bool)

  /** The tables: ids of the active users, projects and cards by id, timer and time rows in stored order. */
  datatype State = State(active: set<nat>, projects: map<nat, Project>, tasks: map<nat, Task>,
                         sessions: seq<Session>, entries: seq<Entry>, nextEntry: nat)

  /** Whose minutes are summed: a whole card or one worker on a card. */
  datatype Scope = Card(task: nat) | Worker(task: nat, user: nat) {
    predicate Covers(t: nat, u: nat) { t == task && (Worker? ==> u == user) }
  }

  // ---------- sums over rows ----------

  function Logged(entries: seq<Entry>, w: Scope): nat {
    if entries == [] then 0
    else
      var e := entries[|entries| - 1];
      Logged(entries[..|entries| - 1], w) + if w.Covers(e.task, e.user) then e.minutes else 0
  }

  /** Minutes the open timers would log if they all closed at the given instant. */
  function Live(rows: seq<Session>, w: Scope, at: int): nat {
    if rows == [] then 0
    else
      var r := rows[|rows| - 1];
      Live(rows[..|rows| - 1], w, at) + if w.Covers(r.task, r.user) then Count(r.startedAt, at) else 0
  }

  /** How many timers the worker has open on the card. */
  function Timers(rows: seq<Session>, t: nat, u: nat): nat {
    if rows == [] then 0
    else
      var r := rows[|rows| - 1];
      Timers(rows[..|rows| - 1], t, u) + if r.task == t && r.user == u then 1 else 0
  }

  function MinStart(rows: seq<Session>, t: nat): Option<int> {
    if rows == [] then None
    else
      var r, before := rows[|rows| - 1], MinStart(rows[..|rows| - 1], t);
      if r.task != t then before
      else if before.None? || r.startedAt < before.value then Some(r.startedAt)
      else before
  }

  function Users(rows: seq<Session>, t: nat): set<nat> {
    set r | r in rows && r.task == t :: r.user
  }

  lemma {:induction false} LoggedAppend(xs: seq<Entry>, ys: seq<Entry>, w: Scope)
    ensures Logged(xs + ys, w) == Logged(xs, w) + Logged(ys, w)
  {
    if ys == [] {
      assert xs + ys == xs;
    } else {
      assert (xs + ys)[..|xs + ys| - 1] == xs + ys[..|ys| - 1];
      LoggedAppend(xs, ys[..|ys| - 1], w);
    }
  }

  lemma {:induction false} RowsAppend(xs: seq<Session>, ys: seq<Session>)
    ensures forall w, at :: Live(xs + ys, w, at) == Live(xs, w, at) + Live(ys, w, at)
    ensures forall t, u :: Timers(xs + ys, t, u) == Timers(xs, t, u) + Timers(ys, t, u)
    ensures forall t :: MinStart(ys, t) == None ==> MinStart(xs + ys, t) == MinStart(xs, t)
  {
    if ys == [] {
      assert xs + ys == xs;
    } else {
      assert (xs + ys)[..|xs + ys| - 1] == xs + ys[..|ys| - 1];
      RowsAppend(xs, ys[..|ys| - 1]);
    }
  }

  lemma {:induction false} TimersOfUsers(rows: seq<Session>, t: nat, u: nat)
    ensures Timers(rows, t, u) > 0 <==> u in Users(rows, t)
  {
    if rows != [] {
      var before, r := rows[..|rows| - 1], rows[|rows| - 1];
      TimersOfUsers(before, t, u);
      assert rows == before + [r];
      assert Users(rows, t) == Users(before, t) + if r.task == t then {r.user} else {};
    }
  }

  /** The cached start is the earliest start among the card's timers, or none without timers. */
  lemma {:induction false} MinStartIsLeast(rows: seq<Session>, t: nat)
    ensures MinStart(rows, t) == None <==> forall r :: r in rows ==> r.task != t
    ensures MinStart(rows, t).Some? ==>
              && (exists r :: r in rows && r.task == t && r.startedAt == MinStart(rows, t).value)
              && (forall r :: r in rows && r.task == t ==> MinStart(rows, t).value <= r.startedAt)
  {
    if rows != [] {
      var before, r := rows[..|rows| - 1], rows[|rows| - 1];
      MinStartIsLeast(before, t);
      assert rows == before + [r];
      assert r in rows;
      if r.task != t && MinStart(rows, t).Some? {
        var x :| x in before && x.task == t && x.startedAt == MinStart(rows, t).value;
        assert x in rows;
      } else if r.task == t && MinStart(rows, t).value != r.startedAt {
        var x :| x in before && x.task == t && x.startedAt == MinStart(rows, t).value;
        assert x in rows;
      }
    }
  }

  // ---------- reconciling one card ----------

  predicate Known(s: State, t: nat) { t in s.tasks && s.tasks[t].project in s.projects }

  /** Active manager, assignee and collaborators while the card is in progress and nothing is archived. */
  function Participants(s: State, t: nat): set<nat>
    requires Known(s, t)
  {
    var k := s.tasks[t];
    var p := s.projects[k.project];
    if k.status == InProgress && !k.archived && !p.archived then
      ({p.manager} + p.collaborators + if k.assignee.Some? then {k.assignee.value} else {}) * s.active
    else {}
  }

  predicate Closes(r: Session, t: nat, ps: set<nat>) { r.task == t && r.user !in ps }

  function Closing(rows: seq<Session>, t: nat, ps: set<nat>): seq<Session> {
    if rows == [] then []
    else
      var r := rows[|rows| - 1];
      Closing(rows[..|rows| - 1], t, ps) + if Closes(r, t, ps) then [r] else []
  }

  /** Every row but the closing ones: the continuing workers and all other cards. */
  function Keeping(rows: seq<Session>, t: nat, ps: set<nat>): seq<Session> {
    if rows == [] then []
    else
      var r := rows[|rows| - 1];
      Keeping(rows[..|rows| - 1], t, ps) + if Closes(r, t, ps) then [] else [r]
  }

  /** The time rows that record days of work of one worker, numbered from id. */
  function DayEntries(t: nat, u: nat, days: seq<DayWork>, id: nat): (es: seq<Entry>)
    ensures |es| == |days|
  {
    if days == [] then []
    else
      var n := |days| - 1;
      DayEntries(t, u, days[..n], id) + [Entry(id + n, t, u, days[n].minutes, days[n].date, true)]
  }

  function ClosingEntries(rows: seq<Session>, now: int, id: nat): seq<Entry> {
    if rows == [] then []
    else
      var r := rows[|rows| - 1];
      var before := ClosingEntries(rows[..|rows| - 1], now, id);
      before + DayEntries(r.task, r.user, Daily(r.startedAt, now), id + |before|)
  }

  function Opening(t: nat, users: seq<nat>, now: int): seq<Session> {
    if users == [] then []
    else Opening(t, users[..|users| - 1], now) + [Session(t, users[|users| - 1], now)]
  }

  /** The cached total of a card is rewritten from its rows. */
  function Recalculate(s: State, t: nat): State
    requires t in s.tasks
  {
    s.(tasks := s.tasks[t := s.tasks[t].(actualMinutes := Logged(s.entries, Card(t)))])
  }

  /** No project, activation or workflow column of a card differs. */
  predicate SameWorkflow(s: State, r: State) {
    && r.projects == s.projects && r.active == s.active && r.tasks.Keys == s.tasks.Keys
    && forall t :: t in s.tasks ==>
         r.tasks[t] == s.tasks[t].(workStartedAt := r.tasks[t].workStartedAt, actualMinutes := r.tasks[t].actualMinutes)
  }

  function Reconcile(s: State, t: nat, now: int): (r: State)
    requires Known(s, t)
    ensures SameWorkflow(s, r)
  {
    var ps := Participants(s, t);
    var logs := ClosingEntries(Closing(s.sessions, t, ps), now, s.nextEntry);
    var rows := Keeping(s.sessions, t, ps) + Opening(t, Sorted(ps - Users(s.sessions, t)), now);
    var k := s.tasks[t];
    var entries := s.entries + logs;
    var actual := if logs == [] then k.actualMinutes else Logged(entries, Card(t));
    s.(sessions := rows, entries := entries, nextEntry := s.nextEntry + |logs|,
       tasks := s.tasks[t := k.(workStartedAt := MinStart(rows, t), actualMinutes := actual)])
  }

  // ---------- what reconciling does to the rows ----------

  lemma {:induction false} DayEntriesLogged(t: nat, u: nat, days: seq<DayWork>, id: nat, w: Scope)
    ensures Logged(DayEntries(t, u, days, id), w) == if w.Covers(t, u) then Total(days) else 0
  {
    if days != [] {
      var n := |days| - 1;
      DayEntriesLogged(t, u, days[..n], id, w);
      var es := DayEntries(t, u, days, id);
      assert es[..n] == DayEntries(t, u, days[..n], id);
    }
  }

  /** What closing timers log is what they had accrued. */
  lemma {:induction false} ClosingLogsLive(rows: seq<Session>, now: int, id: nat, w: Scope)
    ensures Logged(ClosingEntries(rows, now, id), w) == Live(rows, w, now)
  {
    if rows != [] {
      var before, r := rows[..|rows| - 1], rows[|rows| - 1];
      var es := ClosingEntries(before, now, id);
      ClosingLogsLive(before, now, id, w);
      LoggedAppend(es, DayEntries(r.task, r.user, Daily(r.startedAt, now), id + |es|), w);
      DayEntriesLogged(r.task, r.user, Daily(r.startedAt, now), id + |es|, w);
      DailyTotal(r.startedAt, now);
    }
  }

  lemma {:induction false} ClosingEntriesRows(rows: seq<Session>, now: int, id: nat, t: nat)
    requires forall r :: r in rows ==> r.task == t
    ensures forall e :: e in ClosingEntries(rows, now, id) ==> e.automatic && e.task == t
  {
    if rows != [] {
      var before, r := rows[..|rows| - 1], rows[|rows| - 1];
      ClosingEntriesRows(before, now, id, t);
      DayEntriesRows(r.task, r.user, Daily(r.startedAt, now), id + |ClosingEntries(before, now, id)|);
    }
  }

  lemma {:induction false} DayEntriesRows(t: nat, u: nat, days: seq<DayWork>, id: nat)
    ensures forall e :: e in DayEntries(t, u, days, id) ==> e.automatic && e.task == t && e.user == u
  {
    if days != [] {
      DayEntriesRows(t, u, days[..|days| - 1], id);
    }
  }

  lemma {:induction false} DayEntriesIds(t: nat, u: nat, days: seq<DayWork>, id: nat)
    ensures forall i :: 0 <= i < |days| ==> DayEntries(t, u, days, id)[i].id == id + i
  {
    if days != [] {
      DayEntriesIds(t, u, days[..|days| - 1], id);
    }
  }

  /** New time rows take the next ids in order. */
  lemma {:induction false} ClosingEntriesIds(rows: seq<Session>, now: int, id: nat)
    ensures forall i :: 0 <= i < |ClosingEntries(rows, now, id)| ==> ClosingEntries(rows, now, id)[i].id == id + i
  {
    if rows != [] {
      var before, r := rows[..|rows| - 1], rows[|rows| - 1];
      ClosingEntriesIds(before, now, id);
      DayEntriesIds(r.task, r.user, Daily(r.startedAt, now), id + |ClosingEntries(before, now, id)|);
    }
  }

  /** No two time rows share an id, and all ids are below the next one to be given out. */
  predicate RowIds(es: seq<Entry>, next: nat) {
    && (forall i :: 0 <= i < |es| ==> es[i].id < next)
    && (forall i, j :: 0 <= i < j < |es| ==> es[i].id != es[j].id)
  }

  lemma RowIdsAppend(es: seq<Entry>, more: seq<Entry>, next: nat)
    requires RowIds(es, next) && forall i :: 0 <= i < |more| ==> more[i].id == next + i
    ensures RowIds(es + more, next + |more|)
  {
  }

  lemma ReconcileIds(s: State, t: nat, now: int)
    requires Known(s, t) && RowIds(s.entries, s.nextEntry)
    ensures RowIds(Reconcile(s, t, now).entries, Reconcile(s, t, now).nextEntry)
  {
    var closing := Closing(s.sessions, t, Participants(s, t));
    ClosingEntriesIds(closing, now, s.nextEntry);
    RowIdsAppend(s.entries, ClosingEntries(closing, now, s.nextEntry), s.nextEntry);
  }

  /** Closing and keeping partition the rows. */
  lemma {:induction false} RowsPartition(rows: seq<Session>, t: nat, ps: set<nat>, w: Scope, at: int)
    ensures Live(rows, w, at) == Live(Closing(rows, t, ps), w, at) + Live(Keeping(rows, t, ps), w, at)
  {
    if rows != [] {
      var before, r := rows[..|rows| - 1], rows[|rows| - 1];
      RowsPartition(before, t, ps, w, at);
      RowsAppend(Closing(before, t, ps), if Closes(r, t, ps) then [r] else []);
      RowsAppend(Keeping(before, t, ps), if Closes(r, t, ps) then [] else [r]);
    }
  }

  lemma {:induction false} ClosingOnly(rows: seq<Session>, t: nat, ps: set<nat>)
    ensures forall r :: r in Closing(rows, t, ps) <==> r in rows && Closes(r, t, ps)
    ensures forall r :: r in Keeping(rows, t, ps) <==> r in rows && !Closes(r, t, ps)
  {
    if rows != [] {
      ClosingOnly(rows[..|rows| - 1], t, ps);
      assert rows == rows[..|rows| - 1] + [rows[|rows| - 1]];
    }
  }

  lemma {:induction false} NothingCloses(rows: seq<Session>, t: nat, ps: set<nat>)
    ensures Closing(rows, t, ps) == [] <==> forall r :: r in rows ==> !Closes(r, t, ps)
    ensures Closing(rows, t, ps) == [] ==> Keeping(rows, t, ps) == rows
  {
    hide Closes;
    if rows != [] {
      var before, r := rows[..|rows| - 1], rows[|rows| - 1];
      assert rows == before + [r] && r in rows;
      NothingCloses(before, t, ps);
    }
  }

  lemma AppendRow(rows: seq<Session>, r: Session, t: nat, u: nat)
    ensures Timers(rows + [r], t, u) == Timers(rows, t, u) + if r.task == t && r.user == u then 1 else 0
    ensures MinStart(rows + [r], t)
         == if r.task != t then MinStart(rows, t)
            else if MinStart(rows, t).None? || r.startedAt < MinStart(rows, t).value then Some(r.startedAt)
            else MinStart(rows, t)
  {
    assert (rows + [r])[..|rows|] == rows;
  }

  lemma KeepingStep(rows: seq<Session>, t: nat, ps: set<nat>)
    requires rows != []
    ensures var before, r := rows[..|rows| - 1], rows[|rows| - 1];
            && rows == before + [r]
            && Keeping(rows, t, ps)
               == if Closes(r, t, ps) then Keeping(before, t, ps) else Keeping(before, t, ps) + [r]
  {
    var kept := Keeping(rows[..|rows| - 1], t, ps);
    assert kept + [] == kept;
  }

  lemma {:induction false} KeepingTimers(rows: seq<Session>, t: nat, ps: set<nat>, t': nat, u: nat)
    ensures Timers(Keeping(rows, t, ps), t', u) == if t' == t && u !in ps then 0 else Timers(rows, t', u)
    ensures t' != t ==> MinStart(Keeping(rows, t, ps), t') == MinStart(rows, t')
  {
    if rows != [] {
      hide Timers, MinStart, Keeping;
      var before, r := rows[..|rows| - 1], rows[|rows| - 1];
      KeepingStep(rows, t, ps);
      KeepingTimers(before, t, ps, t', u);
      AppendRow(before, r, t', u);
      AppendRow(Keeping(before, t, ps), r, t', u);
    }
  }

  lemma {:induction false} OpeningRows(t: nat, users: seq<nat>, now: int)
    requires forall i, j :: 0 <= i < j < |users| ==> users[i] < users[j]
    ensures forall t', u :: Timers(Opening(t, users, now), t', u) == if t' == t && u in users then 1 else 0
    ensures forall w :: Live(Opening(t, users, now), w, now) == 0
    ensures forall t' :: t' != t ==> MinStart(Opening(t, users, now), t') == None
    ensures forall r :: r in Opening(t, users, now) ==> r.task == t && r.startedAt == now
  {
    if users != [] {
      var n := |users| - 1;
      OpeningRows(t, users[..n], now);
      assert Opening(t, users, now)[..|Opening(t, users, now)| - 1] == Opening(t, users[..n], now);
      assert users == users[..n] + [users[n]];
      assert users[n] !in users[..n];
    }
  }

  /** The row-level effect of reconciling: exactly the participants of this card hold one timer each,
      and nothing else moves. */
  lemma ReconcileTimers(s: State, t: nat, now: int, t': nat, u: nat)
    requires Known(s, t) && Timers(s.sessions, t, u) <= 1
    ensures Timers(Reconcile(s, t, now).sessions, t', u)
         == if t' != t then Timers(s.sessions, t', u) else if u in Participants(s, t) then 1 else 0
    ensures t' != t ==> MinStart(Reconcile(s, t, now).sessions, t') == MinStart(s.sessions, t')
  {
    var ps := Participants(s, t);
    var joining := Sorted(ps - Users(s.sessions, t));
    KeepingTimers(s.sessions, t, ps, t', u);
    OpeningRows(t, joining, now);
    RowsAppend(Keeping(s.sessions, t, ps), Opening(t, joining, now));
    TimersOfUsers(s.sessions, t, u);
  }

  /** Conservation: logged plus live minutes at the instant of reconciling never change, for any card
      and any worker. */
  lemma ReconcileConserves(s: State, t: nat, now: int, w: Scope)
    requires Known(s, t)
    ensures var s' := Reconcile(s, t, now);
            Logged(s'.entries, w) + Live(s'.sessions, w, now) == Logged(s.entries, w) + Live(s.sessions, w, now)
  {
    var ps := Participants(s, t);
    var closing := Closing(s.sessions, t, ps);
    var joining := Sorted(ps - Users(s.sessions, t));
    LoggedAppend(s.entries, ClosingEntries(closing, now, s.nextEntry), w);
    ClosingLogsLive(closing, now, s.nextEntry, w);
    RowsPartition(s.sessions, t, ps, w, now);
    RowsAppend(Keeping(s.sessions, t, ps), Opening(t, joining, now));
    OpeningRows(t, joining, now);
  }
}
