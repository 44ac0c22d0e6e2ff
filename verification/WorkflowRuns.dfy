/** Whole runs of workflow requests: no minute is invented, and at most one is lost per switch. */
module WorkflowRuns {
  import opened Ids
  import opened WorkCalendar
  import opened WorkSessions
  import opened RowSums
  import opened Workflow

  // ---------- one request ----------

  /** Logged plus live minutes. */
  function Credit(s: State, w: Scope, now: int): nat {
    Logged(s.entries, w) + Live(s.sessions, w, now)
  }

  lemma {:induction false} ReconcileAllConserves(s: State, todo: seq<nat>, now: int, w: Scope)
    requires forall t :: t in todo ==> Known(s, t)
    ensures Credit(ReconcileAll(s, todo, now), w, now) == Credit(s, w, now)
  {
    hide Reconcile;
    if todo != [] {
      var before, t := todo[..|todo| - 1], todo[|todo| - 1];
      ReconcileAllConserves(s, before, now, w);
      assert t in todo;
      KnownStays(s, ReconcileAll(s, before, now), t);
      ReconcileConserves(ReconcileAll(s, before, now), t, now, w);
    }
  }

  /** Conservation: at the instant of any status, assignee, membership, archive, restore, move, creation or
      activation request, logged plus live minutes are the same before and after, for every card and for
      every worker on every card. */
  lemma EditConserves(s: State, e: Edit, now: int, w: Scope)
    requires Valid(s)
    ensures Credit(Apply(s, Change(e), now), w, now) == Credit(s, w, now)
  {
    hide Writes;
    WritesPending(s, e);
    ReconcileAllConserves(Writes(s, e).state, Writes(s, e).todo, now, w);
  }

  /** A settled card is left alone, whenever it is reconciled again. */
  lemma SettledIsFixed(s: State, t: nat, now: int)
    requires Sound(s) && t in s.tasks && Settled(s, t)
    ensures Reconcile(s, t, now) == s
  {
    var ps := Participants(s, t);
    forall r | r in s.sessions ensures !Closes(r, t, ps) {
      if r.task == t {
        assert r.user in Users(s.sessions, t);
        TimersOfUsers(s.sessions, t, r.user);
      }
    }
    NothingCloses(s.sessions, t, ps);
    assert Opening(t, [], now) == [];
    forall u | u in ps ensures u in Users(s.sessions, t) {
      TimersOfUsers(s.sessions, t, u);
    }
    assert ps - Users(s.sessions, t) == {};
    assert s.tasks[t := s.tasks[t]] == s.tasks;
    assert s.sessions + [] == s.sessions && s.entries + [] == s.entries;
  }

  /** A request that leaves the status as it was need not reconcile: nothing would change. */
  lemma SameStatusIsNoChange(s: State, t: nat, now: int)
    requires Valid(s) && t in s.tasks
    ensures Apply(s, Change(SetStatus(t, s.tasks[t].status)), now) == s
  {
    assert WriteTask(s, t, s.tasks[t]) == s by {
      assert s.tasks[t := s.tasks[t]] == s.tasks;
    }
    SettledIsFixed(s, t, now);
    assert ReconcileAll(s, [t], now) == Reconcile(s, t, now) by {
      assert [t][..0] == [];
    }
  }

  /** In a valid state the workers with a timer on a card are exactly its participants. */
  lemma ValidTimers(s: State, t: nat)
    requires Valid(s) && t in s.tasks
    ensures Users(s.sessions, t) == Participants(s, t)
    ensures forall w: Scope :: w.task == t && Participants(s, t) == {} ==> forall now :: Live(s.sessions, w, now) == 0
  {
    assert Settled(s, t);
    forall u ensures u in Users(s.sessions, t) <==> u in Participants(s, t) {
      TimersOfUsers(s.sessions, t, u);
    }
    if Participants(s, t) == {} {
      forall r | r in s.sessions ensures r.task != t {
        assert r.task == t ==> r.user in Users(s.sessions, t);
      }
      forall w: Scope, now | w.task == t ensures Live(s.sessions, w, now) == 0 {
        NoLive(s.sessions, w, now);
      }
    }
  }

  lemma {:induction false} NoLive(rows: seq<Session>, w: Scope, now: int)
    requires forall r :: r in rows ==> !w.Covers(r.task, r.user)
    ensures Live(rows, w, now) == 0
  {
    if rows != [] {
      assert rows[|rows| - 1] in rows;
      NoLive(rows[..|rows| - 1], w, now);
    }
  }

  // ---------- one worker on one card ----------

  /** When the worker's open timer on the card started. */
  function Start(rows: seq<Session>, t: nat, u: nat): Option<int> {
    if rows == [] then None
    else
      var r := rows[|rows| - 1];
      if r.task == t && r.user == u then Some(r.startedAt) else Start(rows[..|rows| - 1], t, u)
  }

  /** Minutes logged by closing timers only. */
  function Automatic(es: seq<Entry>, t: nat, u: nat): nat {
    if es == [] then 0
    else
      var e := es[|es| - 1];
      Automatic(es[..|es| - 1], t, u) + if e.automatic && e.task == t && e.user == u then e.minutes else 0
  }

  lemma {:induction false} AutomaticAppend(xs: seq<Entry>, ys: seq<Entry>, t: nat, u: nat)
    ensures Automatic(xs + ys, t, u) == Automatic(xs, t, u) + Automatic(ys, t, u)
    ensures (forall e :: e in ys ==> e.automatic) ==> Automatic(ys, t, u) == Logged(ys, Worker(t, u))
  {
    if ys == [] {
      assert xs + ys == xs;
    } else {
      assert (xs + ys)[..|xs + ys| - 1] == xs + ys[..|ys| - 1];
      assert ys[|ys| - 1] in ys;
      AutomaticAppend(xs, ys[..|ys| - 1], t, u);
    }
  }

  lemma {:induction false} StartAppend(xs: seq<Session>, ys: seq<Session>, t: nat, u: nat)
    ensures Start(xs + ys, t, u) == if Start(ys, t, u).Some? then Start(ys, t, u) else Start(xs, t, u)
  {
    if ys == [] {
      assert xs + ys == xs;
    } else {
      assert (xs + ys)[..|xs + ys| - 1] == xs + ys[..|ys| - 1];
      StartAppend(xs, ys[..|ys| - 1], t, u);
    }
  }

  lemma {:induction false} StartOfTimer(rows: seq<Session>, t: nat, u: nat, now: int)
    ensures Timers(rows, t, u) == 0 <==> Start(rows, t, u).None?
    ensures Timers(rows, t, u) == 0 ==> Live(rows, Worker(t, u), now) == 0
    ensures Timers(rows, t, u) == 1 ==> Live(rows, Worker(t, u), now) == Count(Start(rows, t, u).value, now)
  {
    hide Count;
    if rows != [] {
      StartOfTimer(rows[..|rows| - 1], t, u, now);
    }
  }

  lemma {:induction false} KeepingStart(rows: seq<Session>, t: nat, ps: set<nat>, t': nat, u: nat)
    ensures Start(Keeping(rows, t, ps), t', u) == if t' == t && u !in ps then None else Start(rows, t', u)
  {
    if rows != [] {
      var before, r := rows[..|rows| - 1], rows[|rows| - 1];
      KeepingStart(before, t, ps, t', u);
      if Closes(r, t, ps) {
        assert Keeping(rows, t, ps) == Keeping(before, t, ps);
      } else {
        assert Keeping(rows, t, ps)[..|Keeping(before, t, ps)|] == Keeping(before, t, ps);
      }
    }
  }

  lemma {:induction false} OpeningStart(t: nat, users: seq<nat>, now: int, t': nat, u: nat)
    ensures Start(Opening(t, users, now), t', u) == if t' == t && u in users then Some(now) else None
  {
    if users != [] {
      var n := |users| - 1;
      OpeningStart(t, users[..n], now, t', u);
      assert Opening(t, users, now)[..|Opening(t, users, now)| - 1] == Opening(t, users[..n], now);
      assert users == users[..n] + [users[n]];
    }
  }

  /** A participant's timer is kept, or opened now; anyone else's is closed and its accrued minutes logged. */
  lemma ReconcilePair(s: State, t: nat, now: int, u: nat)
    requires Known(s, t) && Timers(s.sessions, t, u) <= 1
    ensures var r, a := Reconcile(s, t, now), Start(s.sessions, t, u);
            if u in Participants(s, t) then
              && Start(r.sessions, t, u) == (if a.Some? then a else Some(now))
              && Automatic(r.entries, t, u) == Automatic(s.entries, t, u)
            else
              && Start(r.sessions, t, u) == None
              && Automatic(r.entries, t, u)
                 == Automatic(s.entries, t, u) + if a.Some? then Count(a.value, now) else 0
  {
    hide Count, Reconcile;
    ReconcileStart(s, t, now, t, u);
    TimersOfUsers(s.sessions, t, u);
    StartOfTimer(s.sessions, t, u, now);
    ReconcileAutomatic(s, t, now, t, u);
  }

  lemma ReconcileStart(s: State, t: nat, now: int, t': nat, u: nat)
    requires Known(s, t)
    ensures var r, a := Reconcile(s, t, now), Start(s.sessions, t', u);
            Start(r.sessions, t', u)
            == if t' != t then a else if u !in Participants(s, t) then None
               else if u in Users(s.sessions, t) then a else Some(now)
  {
    var ps := Participants(s, t);
    var joining := Sorted(ps - Users(s.sessions, t));
    KeepingStart(s.sessions, t, ps, t', u);
    OpeningStart(t, joining, now, t', u);
    StartAppend(Keeping(s.sessions, t, ps), Opening(t, joining, now), t', u);
  }

  lemma ReconcileAutomatic(s: State, t: nat, now: int, t': nat, u: nat)
    requires Known(s, t)
    ensures Automatic(Reconcile(s, t, now).entries, t', u)
         == Automatic(s.entries, t', u)
          + if t' == t && u !in Participants(s, t) then Live(s.sessions, Worker(t, u), now) else 0
  {
    hide Count;
    var ps := Participants(s, t);
    var closing := Closing(s.sessions, t, ps);
    var w := Worker(t', u);
    ClosingOnly(s.sessions, t, ps);
    ClosingEntriesRows(closing, now, s.nextEntry, t);
    AutomaticAppend(s.entries, ClosingEntries(closing, now, s.nextEntry), t', u);
    ClosingLogsLive(closing, now, s.nextEntry, w);
    if t' == t && u !in ps {
      RowsPartition(s.sessions, t, ps, w, now);
      NoLive(Keeping(s.sessions, t, ps), w, now);
    } else {
      NoLive(closing, w, now);
    }
  }

  /** The only ways one request can touch a worker's timer on a card. */
  ghost predicate PairMoves(s: State, r: State, t: nat, u: nat, now: int) {
    var a, b := Start(s.sessions, t, u), Start(r.sessions, t, u);
    var x, y := Automatic(s.entries, t, u), Automatic(r.entries, t, u);
    || (b == a && y == x)
    || (a.None? && b == Some(now) && y == x)
    || (a.Some? && b.None? && y == x + Count(a.value, now))
  }

  lemma {:induction false} ReconcileAllElsewhere(s: State, todo: seq<nat>, now: int, t: nat, u: nat)
    requires (forall i :: i in todo ==> Known(s, i)) && t !in todo
    ensures var r := ReconcileAll(s, todo, now);
            && Start(r.sessions, t, u) == Start(s.sessions, t, u)
            && Automatic(r.entries, t, u) == Automatic(s.entries, t, u)
  {
    hide Reconcile;
    if todo != [] {
      var before, i := todo[..|todo| - 1], todo[|todo| - 1];
      assert i in todo;
      ReconcileAllElsewhere(s, before, now, t, u);
      var b := ReconcileAll(s, before, now);
      KnownStays(s, b, i);
      ReconcileStart(b, i, now, t, u);
      ReconcileAutomatic(b, i, now, t, u);
    }
  }

  lemma {:induction false} ReconcileAllPair(s: State, todo: seq<nat>, now: int, t: nat, u: nat)
    requires forall i :: i in todo ==> Known(s, i)
    requires forall i, j :: 0 <= i < j < |todo| ==> todo[i] < todo[j]
    requires Timers(s.sessions, t, u) <= 1
    ensures PairMoves(s, ReconcileAll(s, todo, now), t, u, now)
  {
    hide Reconcile, Count;
    if todo != [] {
      var before, i := todo[..|todo| - 1], todo[|todo| - 1];
      assert i in todo;
      var b := ReconcileAll(s, before, now);
      KnownStays(s, b, i);
      if i == t {
        ReconcileAllElsewhere(s, before, now, t, u);
        ReconcileAllTimers(s, before, now, t, u);
        ReconcilePair(b, t, now, u);
      } else {
        ReconcileAllPair(s, before, now, t, u);
        ReconcileStart(b, i, now, t, u);
        ReconcileAutomatic(b, i, now, t, u);
      }
    }
  }

  lemma {:induction false} ReconcileAllTimers(s: State, todo: seq<nat>, now: int, t: nat, u: nat)
    requires (forall i :: i in todo ==> Known(s, i)) && t !in todo
    ensures Timers(ReconcileAll(s, todo, now).sessions, t, u) == Timers(s.sessions, t, u)
  {
    hide Reconcile;
    if todo != [] {
      var before, i := todo[..|todo| - 1], todo[|todo| - 1];
      assert i in todo;
      ReconcileAllTimers(s, before, now, t, u);
      var b := ReconcileAll(s, before, now);
      KnownStays(s, b, i);
      ReconcileElsewhere(b, i, now, t, u);
    }
  }

  lemma ReconcileElsewhere(s: State, i: nat, now: int, t: nat, u: nat)
    requires Known(s, i) && t != i
    ensures Timers(Reconcile(s, i, now).sessions, t, u) == Timers(s.sessions, t, u)
  {
    var ps := Participants(s, i);
    var joining := Sorted(ps - Users(s.sessions, i));
    KeepingTimers(s.sessions, i, ps, t, u);
    OpeningRows(i, joining, now);
    RowsAppend(Keeping(s.sessions, i, ps), Opening(i, joining, now));
  }

  // ---------- requests that spare a card ----------

  /** Some time row with one of the ids belongs to the card, or to the worker on it. */
  predicate Holds(es: seq<Entry>, ids: set<nat>, w: Scope) {
    exists e :: e in es && e.id in ids && w.Covers(e.task, e.user)
  }

  /** The request deletes neither the card nor any of the time rows in question, and rewrites none of them. */
  predicate Spares(s: State, step: Step, w: Scope) {
    match step
    case Change(_) => true
    case Keep(LogTime(_, _, _, _)) => true
    case Keep(SaveEntry(id, _)) => id.Some? ==> !Holds(s.entries, {id.value}, w)
    case Keep(DeleteEntries(ids)) => !Holds(s.entries, ids, w)
    case Keep(DeleteTask(t)) => t != w.task
    case Keep(DeleteProject(p)) => w.task !in TasksOf(s, p)
  }

  lemma {:induction false} DropRowsCard(rows: seq<Session>, ts: set<nat>, t: nat)
    ensures forall u :: Start(DropRows(rows, ts), t, u) == if t in ts then None else Start(rows, t, u)
    ensures t !in ts ==> forall w: Scope, at :: w.task == t ==> Live(DropRows(rows, ts), w, at) == Live(rows, w, at)
  {
    hide Count;
    if rows != [] {
      var before, r := rows[..|rows| - 1], rows[|rows| - 1];
      DropRowsCard(before, ts, t);
      if r.task in ts {
        assert DropRows(rows, ts) == DropRows(before, ts);
      } else {
        assert DropRows(rows, ts)[..|DropRows(before, ts)|] == DropRows(before, ts);
      }
    }
  }

  /** No upkeep that spares a card touches its timers. */
  lemma UpkeepTimers(s: State, k: Upkeep, w: Scope)
    requires Spares(s, Keep(k), w)
    ensures var r := Maintain(s, k);
            && (w.task in s.tasks ==> w.task in r.tasks)
            && (forall u :: Start(r.sessions, w.task, u) == Start(s.sessions, w.task, u))
            && (forall at :: Live(r.sessions, w, at) == Live(s.sessions, w, at))
  {
    hide Start, Live, DropRows, Logged;
    match k
    case DeleteTask(x) => DropRowsCard(s.sessions, {x}, w.task);
    case DeleteProject(p) => DropRowsCard(s.sessions, TasksOf(s, p), w.task);
    case _ =>
  }

  /** It keeps the time rows. */
  lemma UpkeepRows(s: State, k: Upkeep, w: Scope)
    requires Spares(s, Keep(k), w)
    ensures forall e :: e in s.entries && w.Covers(e.task, e.user) ==> e in Maintain(s, k).entries
  {
    hide Logged, DropEntries, DropRows;
    match k
    case LogTime(_, _, _, _) =>
    case SaveEntry(id, row) =>
      if Savable(s, id, row) && id.Some? && HasEntry(s.entries, id.value) { ReplacedRows(s.entries, id.value, row, w); }
    case DeleteEntries(ids) => DropEntriesLeft(s.entries, {}, ids);
    case DeleteTask(x) => DropEntriesLeft(s.entries, {x}, {});
    case DeleteProject(p) => DropEntriesLeft(s.entries, TasksOf(s, p), {});
  }

  lemma ReplacedRows(es: seq<Entry>, id: nat, row: Entry, w: Scope)
    requires !Holds(es, {id}, w)
    ensures forall e :: e in es && w.Covers(e.task, e.user) ==> e in ReplaceEntry(es, id, row)
  {
    var r := ReplaceEntry(es, id, row);
    forall e | e in es && w.Covers(e.task, e.user) ensures e in r {
      var i :| 0 <= i < |es| && es[i] == e;
      assert r[i] == e;
    }
  }

  /** No upkeep at all opens a timer, or writes a row as a closing timer does. */
  lemma UpkeepOpensNothing(s: State, k: Upkeep, t: nat, u: nat)
    ensures var r := Maintain(s, k);
            && (forall e :: e in r.entries && e.automatic ==> e in s.entries)
            && Start(r.sessions, t, u) in {None, Start(s.sessions, t, u)}
  {
    hide Logged, DropEntries, DropRows, Start;
    match k
    case LogTime(_, _, _, _) =>
    case SaveEntry(_, _) =>
    case DeleteEntries(ids) => DropEntriesLeft(s.entries, {}, ids);
    case DeleteTask(x) =>
      DropEntriesLeft(s.entries, {x}, {});
      DropRowsCard(s.sessions, {x}, t);
    case DeleteProject(p) =>
      DropEntriesLeft(s.entries, TasksOf(s, p), {});
      DropRowsCard(s.sessions, TasksOf(s, p), t);
  }

  /** Every other request only adds time rows, under ids not yet given out, and deletes no card. */
  lemma ChangeRows(s: State, e: Edit, now: int)
    requires Valid(s)
    ensures var r := Apply(s, Change(e), now);
            && s.tasks.Keys <= r.tasks.Keys && s.nextEntry <= r.nextEntry && s.entries <= r.entries
            && forall i :: |s.entries| <= i < |r.entries| ==> s.nextEntry <= r.entries[i].id
  {
    WritesGrow(s, e);
    WritesPending(s, e);
    hide Writes;
    ReconcileAllAppends(Writes(s, e).state, Writes(s, e).todo, now);
  }

  lemma WritesGrow(s: State, e: Edit)
    requires Referential(s)
    ensures s.tasks.Keys <= Writes(s, e).state.tasks.Keys
  {
  }

  lemma {:induction false} ReconcileAllAppends(s: State, todo: seq<nat>, now: int)
    requires forall t :: t in todo ==> Known(s, t)
    ensures var r := ReconcileAll(s, todo, now);
            && s.nextEntry <= r.nextEntry && s.entries <= r.entries
            && forall i :: |s.entries| <= i < |r.entries| ==> s.nextEntry <= r.entries[i].id
  {
    if todo != [] {
      var before, t := todo[..|todo| - 1], todo[|todo| - 1];
      assert t in todo;
      ReconcileAllAppends(s, before, now);
      var b := ReconcileAll(s, before, now);
      KnownStays(s, b, t);
      ClosingEntriesIds(Closing(b.sessions, t, Participants(b, t)), now, b.nextEntry);
    }
  }

  /** A request that spares a card keeps its time rows. */
  lemma StepRows(s: State, step: Step, now: int, w: Scope)
    requires Valid(s) && Spares(s, step, w)
    ensures var r := Apply(s, step, now);
            && (w.task in s.tasks ==> w.task in r.tasks) && s.nextEntry <= r.nextEntry
            && forall e :: e in s.entries && w.Covers(e.task, e.user) ==> e in r.entries
  {
    match step
    case Change(e) =>
      hide Apply, Valid;
      ChangeRows(s, e, now);
      assert forall x :: x in s.entries ==> x in Apply(s, step, now).entries;
    case Keep(k) =>
      UpkeepNext(s, k);
      hide Maintain, Spares, Valid;
      UpkeepTimers(s, k, w);
      UpkeepRows(s, k, w);
  }

  lemma UpkeepNext(s: State, k: Upkeep)
    ensures s.nextEntry <= Maintain(s, k).nextEntry
  {
    hide Logged, DropEntries, DropRows, ReplaceEntry, Touched;
  }

  /** Rows that closing timers wrote for one worker on one card. */
  function AutomaticRows(es: seq<Entry>, t: nat, u: nat): set<Entry> {
    set e | e in es && e.automatic && e.task == t && e.user == u
  }

  lemma {:induction false} AutomaticIsRows(es: seq<Entry>, next: nat, t: nat, u: nat)
    requires RowIds(es, next)
    ensures Automatic(es, t, u) == MinutesOf(AutomaticRows(es, t, u))
  {
    if es == [] {
      assert AutomaticRows(es, t, u) == {};
    } else {
      var before, e := es[..|es| - 1], es[|es| - 1];
      LastRow(es, next);
      hide RowIds;
      AutomaticIsRows(before, next, t, u);
      if e.automatic && e.task == t && e.user == u {
        assert AutomaticRows(es, t, u) == AutomaticRows(before, t, u) + {e};
        MinutesPlus(AutomaticRows(before, t, u), e);
      } else {
        assert AutomaticRows(es, t, u) == AutomaticRows(before, t, u);
      }
    }
  }

  lemma UpkeepAutomatic(s: State, k: Upkeep, t: nat, u: nat)
    requires Valid(s)
    ensures Automatic(Maintain(s, k).entries, t, u) <= Automatic(s.entries, t, u)
    ensures Spares(s, Keep(k), Worker(t, u)) ==> Automatic(Maintain(s, k).entries, t, u) == Automatic(s.entries, t, u)
  {
    var r := Maintain(s, k);
    MaintainKeeps(s, k);
    ValidIds(s);
    ValidIds(r);
    UpkeepOpensNothing(s, k, t, u);
    hide Valid, Maintain, RowIds;
    AutomaticIsRows(s.entries, s.nextEntry, t, u);
    AutomaticIsRows(r.entries, r.nextEntry, t, u);
    MinutesWithin(AutomaticRows(r.entries, t, u), AutomaticRows(s.entries, t, u));
    if Spares(s, Keep(k), Worker(t, u)) {
      UpkeepRows(s, k, Worker(t, u));
      assert AutomaticRows(r.entries, t, u) == AutomaticRows(s.entries, t, u);
    }
  }

  lemma StepPair(s: State, step: Step, now: int, t: nat, u: nat)
    requires Valid(s) && Spares(s, step, Worker(t, u))
    ensures PairMoves(s, Apply(s, step, now), t, u, now)
  {
    hide Writes, Count, Reconcile, Maintain;
    match step
    case Change(e) =>
      WritesPending(s, e);
      var w := Writes(s, e);
      ReconcileAllPair(w.state, w.todo, now, t, u);
    case Keep(k) =>
      UpkeepTimers(s, k, Worker(t, u));
      UpkeepAutomatic(s, k, t, u);
  }

  // ---------- runs ----------

  /** One request served at an instant. */
  datatype Event = Event(step: Step, at: int)

  function Run(s: State, run: seq<Event>): (r: State)
    requires Valid(s)
    ensures Valid(r)
  {
    if run == [] then s
    else
      var before, e := Run(s, run[..|run| - 1]), run[|run| - 1];
      ApplyKeeps(before, e.step, e.at);
      Apply(before, e.step, e.at)
  }

  /** Nothing has ever been stored. */
  const EMPTY := State({}, map[], map[], [], [], 0)

  /** The invariant holds in every state any run of requests reaches from an empty database. */
  lemma Reachable(run: seq<Event>)
    ensures Valid(EMPTY) && Valid(Run(EMPTY, run))
  {
  }

  /** The clock never goes back. */
  predicate Ordered(run: seq<Event>) {
    forall i, j :: 0 <= i < j < |run| ==> run[i].at <= run[j].at
  }

  /** A run between two instants whose clock never goes back. */
  predicate Within(run: seq<Event>, from: int, now: int) {
    Ordered(run) && from <= now && forall i :: 0 <= i < |run| ==> from <= run[i].at <= now
  }

  /** Every request of the run spares the card, or the worker on it; anything else may be deleted and rewritten. */
  predicate Sparing(s: State, run: seq<Event>, w: Scope)
    requires Valid(s)
  {
    run == [] || (Sparing(s, run[..|run| - 1], w) && Spares(Run(s, run[..|run| - 1]), run[|run| - 1].step, w))
  }

  /** What an observer of one worker on one card remembers: when their first timer started; whether a timer
      is open and since when, or when it closed; how often it was reopened; and whether every reopening
      happened at the very instant of the closing before it. */
  datatype Watch =
    | Unseen
    | Running(first: int, since: int, switches: nat, gapless: bool)
    | Stopped(first: int, until: int, switches: nat, gapless: bool)

  function Observe(w: Watch, open: bool, at: int): Watch {
    match w
    case Unseen => if open then Running(at, at, 0, true) else w
    case Running(first, _, n, g) => if open then w else Stopped(first, at, n, g)
    case Stopped(first, until, n, g) => if open then Running(first, at, n + 1, g && until == at) else w
  }

  function Watched(s: State, run: seq<Event>, t: nat, u: nat): Watch
    requires Valid(s)
  {
    if run == [] then Unseen
    else
      Observe(Watched(s, run[..|run| - 1], t, u), Start(Run(s, run).sessions, t, u).Some?, run[|run| - 1].at)
  }

  /** What the watch says about the minutes credited by closed timers. */
  ghost predicate Tracks(w: Watch, start: Option<int>, credit: int, now: int) {
    match w
    case Unseen => start == None && credit == 0
    case Running(first, since, n, g) =>
      && start == Some(since) && first <= since <= now
      && (n == 0 ==> first == since)
      && 0 <= credit <= Count(first, since)
      && (g ==> Count(first, since) <= credit + if n == 0 then 0 else n - 1)
    case Stopped(first, until, n, g) =>
      && start == None && first <= until <= now
      && 0 <= credit <= Count(first, until)
      && (g ==> Count(first, until) <= credit + n)
  }

  lemma ObserveTracks(w: Watch, a: Option<int>, b: Option<int>, x: int, y: int, before: int, now: int)
    requires Tracks(w, a, x, before) && before <= now
    requires || (b == a && y == x)
             || (a.None? && b == Some(now) && y == x)
             || (a.Some? && b.None? && y == x + Count(a.value, now))
    ensures Tracks(Observe(w, b.Some?, now), b, y, now)
  {
    hide Count, Cuts;
    ZeroCount(now);
    if w.Running? {
      SplitBound(w.first, w.since, now);
      ZeroCount(w.first);
    } else if w.Stopped? {
      Monotone(w.first, w.until, now);
    }
  }

  lemma ZeroCount(a: int)
    ensures Count(a, a) == 0
  {
  }

  lemma {:induction false} RunTracks(s: State, run: seq<Event>, t: nat, u: nat, now: int)
    requires Valid(s) && Ordered(run) && Sparing(s, run, Worker(t, u))
    requires Start(s.sessions, t, u) == None
    requires forall i :: 0 <= i < |run| ==> run[i].at <= now
    ensures var r := Run(s, run);
            Tracks(Watched(s, run, t, u), Start(r.sessions, t, u),
                   Automatic(r.entries, t, u) - Automatic(s.entries, t, u), now)
  {
    hide Apply, Tracks, Valid, Start, Automatic;
    if run == [] {
      TracksNothing(now);
    } else {
      var before, e := run[..|run| - 1], run[|run| - 1];
      RunTracks(s, before, t, u, e.at);
      var b := Run(s, before);
      StepPair(b, e.step, e.at, t, u);
      ObserveTracks(Watched(s, before, t, u), Start(b.sessions, t, u), Start(Run(s, run).sessions, t, u),
                    Automatic(b.entries, t, u) - Automatic(s.entries, t, u),
                    Automatic(Run(s, run).entries, t, u) - Automatic(s.entries, t, u), e.at, e.at);
      TracksLater(Watched(s, run, t, u), Start(Run(s, run).sessions, t, u),
                  Automatic(Run(s, run).entries, t, u) - Automatic(s.entries, t, u), e.at, now);
    }
  }

  lemma TracksNothing(now: int)
    ensures Tracks(Unseen, None, 0, now)
  {
  }

  lemma TracksLater(w: Watch, start: Option<int>, credit: int, at: int, now: int)
    requires Tracks(w, start, credit, at) && at <= now
    ensures Tracks(w, start, credit, now)
  {
  }

  /** What the watch says whatever is deleted or rewritten. */
  ghost predicate Bounds(w: Watch, start: Option<int>, credit: int, now: int) {
    match w
    case Unseen => start == None && credit <= 0
    case Running(first, since, _, _) => start == Some(since) && first <= since <= now && credit <= Count(first, since)
    case Stopped(first, until, _, _) => start == None && first <= until <= now && credit <= Count(first, until)
  }

  lemma ObserveBounds(w: Watch, a: Option<int>, b: Option<int>, x: int, y: int, before: int, now: int)
    requires Bounds(w, a, x, before) && before <= now
    requires || (b in {None, a} && y <= x)
             || (a.None? && b == Some(now) && y == x)
             || (a.Some? && b.None? && y == x + Count(a.value, now))
    ensures Bounds(Observe(w, b.Some?, now), b, y, now)
  {
    hide Count, Cuts;
    ZeroCount(now);
    if w.Running? {
      SplitBound(w.first, w.since, now);
    } else if w.Stopped? {
      Monotone(w.first, w.until, now);
    }
  }

  lemma StepBounds(s: State, step: Step, now: int, t: nat, u: nat)
    requires Valid(s)
    ensures var a, b := Start(s.sessions, t, u), Start(Apply(s, step, now).sessions, t, u);
            var x, y := Automatic(s.entries, t, u), Automatic(Apply(s, step, now).entries, t, u);
            || (b in {None, a} && y <= x)
            || (a.None? && b == Some(now) && y == x)
            || (a.Some? && b.None? && y == x + Count(a.value, now))
  {
    hide Count, Automatic, Start;
    match step
    case Change(_) =>
      hide Apply;
      StepPair(s, step, now, t, u);
    case Keep(k) =>
      UpkeepOpensNothing(s, k, t, u);
      UpkeepAutomatic(s, k, t, u);
  }

  lemma {:induction false} RunBounds(s: State, run: seq<Event>, t: nat, u: nat, now: int)
    requires Valid(s) && Ordered(run) && Start(s.sessions, t, u) == None
    requires forall i :: 0 <= i < |run| ==> run[i].at <= now
    ensures var r := Run(s, run);
            Bounds(Watched(s, run, t, u), Start(r.sessions, t, u),
                   Automatic(r.entries, t, u) - Automatic(s.entries, t, u), now)
  {
    hide Apply, Valid, Start, Automatic, Count;
    if run != [] {
      var before, e := run[..|run| - 1], run[|run| - 1];
      RunBounds(s, before, t, u, e.at);
      var b := Run(s, before);
      StepBounds(b, e.step, e.at, t, u);
      ObserveBounds(Watched(s, before, t, u), Start(b.sessions, t, u), Start(Run(s, run).sessions, t, u),
                    Automatic(b.entries, t, u) - Automatic(s.entries, t, u),
                    Automatic(Run(s, run).entries, t, u) - Automatic(s.entries, t, u), e.at, e.at);
    }
  }

  /** However often a worker's timer on a card closes and reopens, and whatever is deleted or rewritten meanwhile,
      the minutes credited by it, logged or live, never exceed the scheduled time since the first start. When the
      run spares the worker's rows on the card none is credited before that start, and if every reopening is
      immediate, at most one minute is lost per switch. */
  lemma CreditBound(s: State, run: seq<Event>, t: nat, u: nat, now: int)
    requires Valid(s) && Ordered(run) && Start(s.sessions, t, u) == None
    requires forall i :: 0 <= i < |run| ==> run[i].at <= now
    ensures var r, w := Run(s, run), Watched(s, run, t, u);
            var credit := Automatic(r.entries, t, u) - Automatic(s.entries, t, u)
                          + Live(r.sessions, Worker(t, u), now);
            && credit <= (if w.Unseen? then 0 else Count(w.first, now))
            && (Sparing(s, run, Worker(t, u)) ==>
                  && 0 <= credit
                  && (!w.Unseen? && w.gapless ==>
                        Count(w.first, if w.Running? then now else w.until) <= credit + w.switches))
  {
    hide Count, Cuts, Valid, Run, Watched, Ordered, Sparing, Timers, Start, Automatic, Live;
    var r, w := Run(s, run), Watched(s, run, t, u);
    RunBounds(s, run, t, u, now);
    AtMostOneTimer(r, t, u);
    StartOfTimer(r.sessions, t, u, now);
    if w.Running? {
      SplitBound(w.first, w.since, now);
      ZeroCount(w.first);
    } else if w.Stopped? {
      Monotone(w.first, w.until, now);
    }
    if Sparing(s, run, Worker(t, u)) {
      RunTracks(s, run, t, u, now);
    }
  }

  lemma AtMostOneTimer(s: State, t: nat, u: nat)
    requires Valid(s)
    ensures Timers(s.sessions, t, u) <= 1
  {
  }

  // ---------- credit as time open ----------

  /** A stretch during which a timer was open. */
  datatype Span = Span(from: int, to: int)

  /** The worker's closed timers on the card over a run. */
  function Spans(s: State, run: seq<Event>, t: nat, u: nat): seq<Span>
    requires Valid(s)
  {
    if run == [] then []
    else
      var before, e := run[..|run| - 1], run[|run| - 1];
      var a, b := Start(Run(s, before).sessions, t, u), Start(Run(s, run).sessions, t, u);
      Spans(s, before, t, u) + if a.Some? && b.None? then [Span(a.value, e.at)] else []
  }

  /** All of them, the open one up to now. */
  function OpenSpans(s: State, run: seq<Event>, t: nat, u: nat, now: int): seq<Span>
    requires Valid(s)
  {
    var a := Start(Run(s, run).sessions, t, u);
    Spans(s, run, t, u) + if a.Some? then [Span(a.value, now)] else []
  }

  function Counted(spans: seq<Span>): nat {
    if spans == [] then 0
    else Counted(spans[..|spans| - 1]) + Count(spans[|spans| - 1].from, spans[|spans| - 1].to)
  }

  /** True working time within the spans, in microseconds. */
  function WorkedIn(spans: seq<Span>): nat {
    if spans == [] then 0
    else WorkedIn(spans[..|spans| - 1]) + WorkedTicks(spans[|spans| - 1].from, spans[|spans| - 1].to)
  }

  /** One after the other, none past the limit. */
  predicate Chained(spans: seq<Span>, limit: int) {
    && (forall i :: 0 <= i < |spans| ==> spans[i].from <= spans[i].to <= limit)
    && (forall i, j :: 0 <= i < j < |spans| ==> spans[i].to <= spans[j].from)
  }

  lemma CountedAppend(spans: seq<Span>, x: Span)
    ensures Counted(spans + [x]) == Counted(spans) + Count(x.from, x.to)
    ensures WorkedIn(spans + [x]) == WorkedIn(spans) + WorkedTicks(x.from, x.to)
  {
    hide Count, WorkedTicks;
    assert (spans + [x])[..|spans|] == spans;
  }

  lemma {:induction false} SpansChained(s: State, run: seq<Event>, t: nat, u: nat, now: int)
    requires Valid(s) && Ordered(run) && Start(s.sessions, t, u) == None
    requires forall i :: 0 <= i < |run| ==> run[i].at <= now
    ensures var a := Start(Run(s, run).sessions, t, u);
            var logged := Automatic(Run(s, run).entries, t, u) - Automatic(s.entries, t, u);
            && Chained(Spans(s, run, t, u), if a.Some? then a.value else now)
            && (a.Some? ==> a.value <= now)
            && logged <= Counted(Spans(s, run, t, u))
            && (Sparing(s, run, Worker(t, u)) ==> logged == Counted(Spans(s, run, t, u)))
  {
    hide Apply, Valid, Start, Automatic, Count, Counted, Spares, Chained;
    if run == [] {
      CountedNothing();
      ChainedNothing(now);
    } else {
      var before, e := run[..|run| - 1], run[|run| - 1];
      SpansChained(s, before, t, u, e.at);
      StepBounds(Run(s, before), e.step, e.at, t, u);
      if Sparing(s, run, Worker(t, u)) {
        StepPair(Run(s, before), e.step, e.at, t, u);
      }
      var a, b := Start(Run(s, before).sessions, t, u), Start(Run(s, run).sessions, t, u);
      var spans := Spans(s, before, t, u);
      if a.Some? && b.None? {
        CountedAppend(spans, Span(a.value, e.at));
        ChainedAppend(spans, Span(a.value, e.at), now);
      } else {
        assert Spans(s, run, t, u) == spans;
        ChainedLater(spans, if a.Some? then a.value else e.at, if b.Some? then b.value else now);
      }
    }
  }

  lemma ChainedNothing(limit: int)
    ensures Chained([], limit)
  {
  }

  lemma ChainedLater(spans: seq<Span>, limit: int, later: int)
    requires Chained(spans, limit) && limit <= later
    ensures Chained(spans, later)
  {
  }

  lemma ChainedAppend(spans: seq<Span>, x: Span, limit: int)
    requires Chained(spans, x.from) && x.from <= x.to <= limit
    ensures Chained(spans + [x], limit)
  {
  }

  lemma CountedNothing()
    ensures Counted([]) == 0
  {
  }

  lemma {:induction false} CountedTrueTime(spans: seq<Span>, limit: int)
    requires Chained(spans, limit)
    ensures 60_000_000 * Counted(spans) <= WorkedIn(spans)
    ensures spans != [] ==> WorkedIn(spans) < 60_000_000 * Counted(spans) + 120_000_000 * |spans|
  {
    hide Count, WorkedTicks;
    if spans != [] {
      var last := spans[|spans| - 1];
      CountedTrueTime(spans[..|spans| - 1], limit);
      TrueTime(last.from, last.to);
    }
  }

  /** The stretches during which a worker's timer on a card was open follow one another, and whatever is deleted or
      rewritten meanwhile, the credit, logged by closed timers or live, is at most the sum of their counts and so
      at most the true working time within them. When the run spares the worker's rows on the card the credit is
      exactly that sum, less than two minutes a stretch below the true time, gaps or not. */
  lemma CreditIsTimeOpen(s: State, run: seq<Event>, t: nat, u: nat, now: int)
    requires Valid(s) && Ordered(run) && Start(s.sessions, t, u) == None
    requires forall i :: 0 <= i < |run| ==> run[i].at <= now
    ensures var r, spans := Run(s, run), OpenSpans(s, run, t, u, now);
            var credit := Automatic(r.entries, t, u) - Automatic(s.entries, t, u)
                          + Live(r.sessions, Worker(t, u), now);
            && Chained(spans, now) && credit <= Counted(spans)
            && 60_000_000 * credit <= WorkedIn(spans)
            && (Sparing(s, run, Worker(t, u)) ==>
                  && credit == Counted(spans)
                  && (spans != [] ==> WorkedIn(spans) < 60_000_000 * credit + 120_000_000 * |spans|))
  {
    hide Valid, Run, Spans, Start, Automatic, Live, Count, Counted, WorkedIn, WorkedTicks, Timers, Ordered, Sparing;
    var r := Run(s, run);
    SpansChained(s, run, t, u, now);
    AtMostOneTimer(r, t, u);
    StartOfTimer(r.sessions, t, u, now);
    var a := Start(r.sessions, t, u);
    if a.Some? {
      CountedAppend(Spans(s, run, t, u), Span(a.value, now));
    } else {
      assert OpenSpans(s, run, t, u, now) == Spans(s, run, t, u);
    }
    CountedTrueTime(OpenSpans(s, run, t, u, now), now);
  }

  // ---------- totals while requests go on ----------

  /** Edits and manual entries spare every card, so runs of them do. */
  lemma {:induction false} EditsSpare(s: State, run: seq<Event>, w: Scope)
    requires Valid(s)
    requires forall i :: 0 <= i < |run| ==> run[i].step.Change? || run[i].step.upkeep.LogTime?
    ensures Sparing(s, run, w)
  {
    hide Apply, Valid, Run;
    if run != [] {
      EditsSpare(s, run[..|run| - 1], w);
    }
  }

  /** A run that spares a card keeps it and its time rows. */
  lemma {:induction false} RunRows(s: State, run: seq<Event>, w: Scope)
    requires Valid(s) && Sparing(s, run, w)
    ensures var r := Run(s, run);
            && (w.task in s.tasks ==> w.task in r.tasks)
            && forall e :: e in s.entries && w.Covers(e.task, e.user) ==> e in r.entries
  {
    hide Apply, Valid, Spares;
    if run != [] {
      var before, e := run[..|run| - 1], run[|run| - 1];
      RunRows(s, before, w);
      StepRows(Run(s, before), e.step, e.at, w);
    }
  }

  lemma LoggedGrows(s: State, run: seq<Event>, w: Scope)
    requires Valid(s) && Sparing(s, run, w)
    ensures Logged(s.entries, w) <= Logged(Run(s, run).entries, w)
  {
    hide Run, Sparing;
    var r := Run(s, run);
    RunRows(s, run, w);
    LoggedWithin(s.entries, s.nextEntry, r.entries, r.nextEntry, w);
  }

  lemma {:induction false} LiveGrows(rows: seq<Session>, w: Scope, a: int, b: int)
    requires a <= b
    ensures Live(rows, w, a) <= Live(rows, w, b)
  {
    hide Count;
    if rows != [] {
      LiveGrows(rows[..|rows| - 1], w, a, b);
      Monotone(rows[|rows| - 1].startedAt, a, b);
    }
  }

  lemma StepCredit(s: State, step: Step, now: int, w: Scope)
    requires Valid(s) && Spares(s, step, w)
    ensures Credit(s, w, now) <= Credit(Apply(s, step, now), w, now)
  {
    match step
    case Change(e) => EditConserves(s, e, now, w);
    case Keep(k) =>
      MaintainKeeps(s, k);
      UpkeepTimers(s, k, w);
      UpkeepRows(s, k, w);
      var r := Maintain(s, k);
      LoggedWithin(s.entries, s.nextEntry, r.entries, r.nextEntry, w);
  }

  /** Logged plus live minutes never shrink along a run that spares the card. */
  lemma {:induction false} CreditGrows(s: State, run: seq<Event>, w: Scope, from: int, now: int)
    requires Valid(s) && Sparing(s, run, w) && Within(run, from, now)
    ensures Credit(s, w, from) <= Credit(Run(s, run), w, now)
  {
    hide Apply, Valid, Logged, Live, Spares;
    if run == [] {
      LiveGrows(s.sessions, w, from, now);
    } else {
      var before, e := run[..|run| - 1], run[|run| - 1];
      CreditGrows(s, before, w, from, e.at);
      StepCredit(Run(s, before), e.step, e.at, w);
      LiveGrows(Run(s, run).sessions, w, e.at, now);
    }
  }

  lemma ValidIds(s: State)
    requires Valid(s)
    ensures RowIds(s.entries, s.nextEntry)
  {
  }

  lemma CachedTotals(s: State)
    requires Valid(s)
    ensures forall t :: t in s.tasks ==> s.tasks[t].actualMinutes == Logged(s.entries, Card(t))
  {
  }

  function Restored(s: State, e: Entry): State {
    Maintain(Maintain(s, DeleteEntries({e.id})), SaveEntry(Some(e.id), e))
  }

  lemma RestoredRows(s: State, e: Entry)
    requires RowIds(s.entries, s.nextEntry) && e in s.entries && e.task in s.tasks
    ensures forall x :: x in Restored(s, e).entries <==> x == Manual(e, e.id) || (x in s.entries && x != e)
  {
    hide Logged, RowIds, DropEntries;
    DropEntriesLeft(s.entries, {}, {e.id});
    OneRowWithId(s.entries, s.nextEntry, e);
    IdBelow(s.entries, s.nextEntry, e);
    var d := Maintain(s, DeleteEntries({e.id}));
    assert !HasEntry(d.entries, e.id);
    assert Restored(s, e).entries == d.entries + [Manual(e, e.id)];
  }

  lemma IdBelow(es: seq<Entry>, next: nat, e: Entry)
    requires RowIds(es, next) && e in es
    ensures e.id < next
  {
  }

  /** Neither touches anything but time rows and cached totals. */
  lemma RestoredCards(s: State, e: Entry)
    ensures var r := Restored(s, e);
            && r.sessions == s.sessions && r.projects == s.projects && r.active == s.active
            && r.tasks.Keys == s.tasks.Keys
            && forall t :: t in s.tasks ==> r.tasks[t] == s.tasks[t].(actualMinutes := r.tasks[t].actualMinutes)
  {
    hide Logged, DropEntries, ReplaceEntry, Touched, HasEntry;
  }

  lemma RestoredValid(s: State, e: Entry)
    requires Valid(s) && e in s.entries
    ensures Valid(Restored(s, e)) && e.task in s.tasks
  {
    hide Maintain;
    MaintainKeeps(s, DeleteEntries({e.id}));
    MaintainKeeps(Maintain(s, DeleteEntries({e.id})), SaveEntry(Some(e.id), e));
  }

  /** Restoring a deleted time row from its history undoes the deletion: the same rows, the restored one by hand,
      and the same cached totals, cards and timers. */
  lemma RestoreUndoesDelete(s: State, e: Entry)
    requires Valid(s) && e in s.entries
    ensures var r := Restored(s, e);
            && r.tasks == s.tasks && r.sessions == s.sessions && r.projects == s.projects && r.active == s.active
            && forall x :: x in r.entries <==> x == Manual(e, e.id) || (x in s.entries && x != e)
  {
    hide Valid, Restored, Logged, MinutesOf, RowIds;
    var r := Restored(s, e);
    RestoredValid(s, e);
    ValidIds(s);
    ValidIds(r);
    CachedTotals(s);
    CachedTotals(r);
    RestoredRows(s, e);
    RestoredCards(s, e);
    OneRowWithId(s.entries, s.nextEntry, e);
    forall t | t in s.tasks ensures r.tasks[t] == s.tasks[t] {
      LoggedRows(s.entries, s.nextEntry, Card(t));
      LoggedRows(r.entries, r.nextEntry, Card(t));
      RowRestored(RowsOf(s.entries, Card(t)), RowsOf(r.entries, Card(t)), e, Card(t));
    }
  }

  lemma RowRestored(was: set<Entry>, later: set<Entry>, e: Entry, w: Scope)
    requires e in was <==> w.Covers(e.task, e.user)
    requires Manual(e, e.id) in was ==> Manual(e, e.id) == e
    requires forall x :: x in later <==> (x == Manual(e, e.id) && w.Covers(x.task, x.user)) || (x in was && x != e)
    ensures MinutesOf(later) == MinutesOf(was)
  {
    if e in was {
      MinutesAny(was, e);
      MinutesPlus(was - {e}, Manual(e, e.id));
      assert later == was - {e} + {Manual(e, e.id)};
    } else {
      assert later == was;
    }
  }

  lemma OneRowWithId(es: seq<Entry>, next: nat, e: Entry)
    requires RowIds(es, next) && e in es
    ensures forall x :: x in es && x.id == e.id ==> x == e
  {
  }

  // ---------- where live minutes go ----------

  /** The card's rows under ids not given out before. */
  function NewRows(es: seq<Entry>, w: Scope, next: nat): set<Entry> {
    set e | e in es && w.Covers(e.task, e.user) && next <= e.id
  }

  /** Closed timers of an edit are logged in new rows. */
  lemma ChangeLive(s: State, e: Edit, now: int, w: Scope, next: nat)
    requires Valid(s) && next <= s.nextEntry
    ensures var r := Apply(s, Change(e), now);
            MinutesOf(NewRows(s.entries, w, next)) + Live(s.sessions, w, now)
            == MinutesOf(NewRows(r.entries, w, next)) + Live(r.sessions, w, now)
  {
    hide Apply, Valid, Live, Logged;
    var r := Apply(s, Change(e), now);
    ApplyKeeps(s, Change(e), now);
    ValidIds(s);
    ValidIds(r);
    EditConserves(s, e, now, w);
    ChangeRows(s, e, now);
    AddedRows(s.entries, r.entries, w, s.nextEntry, next);
    hide RowIds;
    LoggedWithin(s.entries, s.nextEntry, r.entries, r.nextEntry, w);
    MinutesWithin(NewRows(s.entries, w, next), NewRows(r.entries, w, next));
  }

  lemma AddedRows(es: seq<Entry>, more: seq<Entry>, w: Scope, added: nat, next: nat)
    requires es <= more && next <= added && forall i :: |es| <= i < |more| ==> added <= more[i].id
    ensures RowsOf(es, w) <= RowsOf(more, w) && NewRows(es, w, next) <= NewRows(more, w, next)
    ensures RowsOf(more, w) - RowsOf(es, w) == NewRows(more, w, next) - NewRows(es, w, next)
  {
    assert forall e :: e in es ==> e in more;
    assert forall e :: e in more && e !in es ==> added <= e.id;
  }

  /** A request's new rows and the live minutes left account for the live minutes before. */
  lemma StepLive(s: State, step: Step, now: int, w: Scope, next: nat)
    requires Valid(s) && Spares(s, step, w) && next <= s.nextEntry
    ensures var r := Apply(s, step, now);
            MinutesOf(NewRows(s.entries, w, next)) + Live(s.sessions, w, now)
            <= MinutesOf(NewRows(r.entries, w, next)) + Live(r.sessions, w, now)
  {
    hide Live;
    match step
    case Change(e) => ChangeLive(s, e, now, w, next);
    case Keep(k) =>
      hide Maintain;
      UpkeepTimers(s, k, w);
      UpkeepRows(s, k, w);
      MinutesWithin(NewRows(s.entries, w, next), NewRows(Maintain(s, k).entries, w, next));
  }

  /** Minutes live at one instant are, at any later one, logged in new rows or still live. */
  lemma {:induction false} LiveBecomesRows(s: State, run: seq<Event>, w: Scope, from: int, now: int)
    requires Valid(s) && Sparing(s, run, w) && Within(run, from, now)
    ensures var r := Run(s, run);
            && s.nextEntry <= r.nextEntry
            && Live(s.sessions, w, from) <= MinutesOf(NewRows(r.entries, w, s.nextEntry)) + Live(r.sessions, w, now)
  {
    hide Apply, Valid, Live, Spares;
    if run == [] {
      LiveGrows(s.sessions, w, from, now);
    } else {
      var before, e := run[..|run| - 1], run[|run| - 1];
      LiveBecomesRows(s, before, w, from, e.at);
      StepRows(Run(s, before), e.step, e.at, w);
      StepLive(Run(s, before), e.step, e.at, w, s.nextEntry);
      LiveGrows(Run(s, run).sessions, w, e.at, now);
    }
  }
}
