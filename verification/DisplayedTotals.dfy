/** Totals as pages show them: logged minutes from one read, unsaved minutes from another, requests in between. */
module DisplayedTotals {
  import opened Ids
  import opened WorkSessions
  import opened RowSums
  import opened Workflow
  import opened WorkflowRuns
  import opened LiveReport

  // ---------- cards ----------

  /** What the report adds up to for one card. */
  lemma ShownOnCard(m: map<Key, nat>, s: State, t: nat, now: int)
    requires Valid(s) && IsReport(m, s, s.sessions, EVERYTHING, now)
    ensures Shown(m, {t}) == Live(s.sessions, Card(t), now)
  {
    ShownIsLive(m, s, {t}, now);
    LiveOverOne(s.sessions, t, now);
  }

  /** A card adds the report of a later read to the cached total of an earlier one. Whatever ran in between, the
      number shown, plus the card's time rows added since, is the true number at the later read plus the rows that
      are gone; so it is too much exactly when the latter exceed the former. A run that leaves the card and its time
      rows alone only adds rows, and then the number is short by exactly what was logged: never too much. */
  lemma ReadOrder(s: State, run: seq<Event>, t: nat, m: map<Key, nat>, now: int)
    requires Valid(s) && t in s.tasks
    requires IsReport(m, Run(s, run), Run(s, run).sessions, EVERYTHING, now)
    ensures var r := Run(s, run);
            var shown := s.tasks[t].actualMinutes + Shown(m, {t});
            var was, later := RowsOf(s.entries, Card(t)), RowsOf(r.entries, Card(t));
            && shown + MinutesOf(later - was) == Credit(r, Card(t), now) + MinutesOf(was - later)
            && (shown > Credit(r, Card(t), now) <==> MinutesOf(was - later) > MinutesOf(later - was))
            && (Sparing(s, run, Card(t)) ==>
                  && t in r.tasks && was <= later
                  && s.tasks[t].actualMinutes <= r.tasks[t].actualMinutes
                  && shown == Credit(r, Card(t), now) - (r.tasks[t].actualMinutes - s.tasks[t].actualMinutes))
  {
    var r := Run(s, run);
    CachedTotals(s);
    CachedTotals(r);
    ValidIds(s);
    ValidIds(r);
    ShownOnCard(m, r, t, now);
    hide Valid, Run, Sparing, IsReport, Shown, MinutesOf, RowIds;
    LoggedRows(s.entries, s.nextEntry, Card(t));
    LoggedRows(r.entries, r.nextEntry, Card(t));
    TwoSets(RowsOf(s.entries, Card(t)), RowsOf(r.entries, Card(t)));
    if Sparing(s, run, Card(t)) {
      RunRows(s, run, Card(t));
      LoggedGrows(s, run, Card(t));
    }
  }

  lemma TwoSets(a: set<Entry>, b: set<Entry>)
    ensures MinutesOf(a) + MinutesOf(b - a) == MinutesOf(b) + MinutesOf(a - b)
  {
    MinutesJoin(a, b - a);
    MinutesJoin(b, a - b);
    assert a + (b - a) == b + (a - b);
  }

  /** The opposite order: the report first, the cached total later. The number shown differs from the true minutes
      at the later read by what was logged in between less what the card gained in between, whatever ran; so it is
      too much exactly when more was logged than gained. In a run that leaves the card and its time rows alone
      neither is negative. */
  lemma ReversedRead(s: State, run: seq<Event>, t: nat, m: map<Key, nat>, first: int, now: int)
    requires Valid(s) && t in s.tasks && IsReport(m, s, s.sessions, EVERYTHING, first)
    ensures var r := Run(s, run);
            var logged := Logged(r.entries, Card(t)) - Logged(s.entries, Card(t));
            var gained := Credit(r, Card(t), now) - Credit(s, Card(t), first);
            && (t in r.tasks ==>
                  && Shown(m, {t}) + r.tasks[t].actualMinutes == Credit(r, Card(t), now) + logged - gained
                  && (Shown(m, {t}) + r.tasks[t].actualMinutes > Credit(r, Card(t), now) <==> logged > gained))
            && (Sparing(s, run, Card(t)) && Within(run, first, now) ==> t in r.tasks && 0 <= logged && 0 <= gained)
  {
    var r := Run(s, run);
    CachedTotals(r);
    ShownOnCard(m, s, t, first);
    hide Valid, Run, Sparing, IsReport, Shown;
    if Sparing(s, run, Card(t)) && Within(run, first, now) {
      RunRows(s, run, Card(t));
      LoggedGrows(s, run, Card(t));
      CreditGrows(s, run, Card(t), first, now);
    }
  }

  /** Such a case: a card with minutes live leaves progress between the two reads, which then show those minutes
      twice. */
  lemma ReversedReadDoubleCounts(s: State, t: nat, status: Status, m: map<Key, nat>, now: int)
    requires Valid(s) && t in s.tasks && status != InProgress
    requires IsReport(m, s, s.sessions, EVERYTHING, now)
    ensures var r := Apply(s, Change(SetStatus(t, status)), now);
            Shown(m, {t}) + r.tasks[t].actualMinutes == Credit(r, Card(t), now) + Live(s.sessions, Card(t), now)
  {
    var e := SetStatus(t, status);
    var r := Apply(s, Change(e), now);
    ApplyKeeps(s, Change(e), now);
    assert r.tasks[t].status == status by {
      WritesPending(s, e);
      var w := Writes(s, e);
      assert SameWorkflow(w.state, ReconcileAll(w.state, w.todo, now));
    }
    ValidTimers(r, t);
    ShownOnCard(m, s, t, now);
  }

  // ---------- projects ----------

  /** Minutes of the time rows of the cards that a version of the card table places in the project. */
  function ProjectLogged(tasks: map<nat, Task>, es: seq<Entry>, p: nat): nat {
    if es == [] then 0
    else
      var e := es[|es| - 1];
      ProjectLogged(tasks, es[..|es| - 1], p) + if e.task in tasks && tasks[e.task].project == p then e.minutes else 0
  }

  function Rows(s: State): set<Entry> { set e | e in s.entries }

  /** The stored time rows of the project's cards. */
  function ProjectRows(s: State, p: nat): set<Entry> {
    set e | e in s.entries && e.task in s.tasks && s.tasks[e.task].project == p
  }

  lemma {:induction false} LoggedInProject(s: State, es: seq<Entry>, next: nat, p: nat)
    requires RowIds(es, next)
    ensures ProjectLogged(s.tasks, es, p)
         == MinutesOf(set e | e in es && e.task in s.tasks && s.tasks[e.task].project == p)
  {
    var rows := set e | e in es && e.task in s.tasks && s.tasks[e.task].project == p;
    if es == [] {
      assert rows == {};
    } else {
      var before, e := es[..|es| - 1], es[|es| - 1];
      var earlier := set e | e in before && e.task in s.tasks && s.tasks[e.task].project == p;
      LastRow(es, next);
      hide RowIds;
      LoggedInProject(s, before, next, p);
      if e.task in s.tasks && s.tasks[e.task].project == p {
        assert rows == earlier + {e};
        MinutesPlus(earlier, e);
      } else {
        assert rows == earlier;
      }
    }
  }

  lemma ProjectLoggedRows(s: State, p: nat)
    requires Valid(s)
    ensures ProjectLogged(s.tasks, s.entries, p) == MinutesOf(ProjectRows(s, p))
  {
    ValidIds(s);
    hide Valid;
    LoggedInProject(s, s.entries, s.nextEntry, p);
  }

  /** Minutes of rows stored in both states whose card was in the project and no longer is. */
  ghost function CarriedOff(s: State, r: State, p: nat): nat {
    MinutesOf(ProjectRows(s, p) * Rows(r) - ProjectRows(r, p))
  }

  /** Minutes of the project's rows that are not stored any more, deleted or rewritten. */
  ghost function Dropped(s: State, r: State, p: nat): nat { MinutesOf(ProjectRows(s, p) - Rows(r)) }

  lemma RowsSplit(s: State, r: State, p: nat)
    ensures MinutesOf(ProjectRows(s, p))
         == MinutesOf(ProjectRows(s, p) * ProjectRows(r, p)) + CarriedOff(s, r, p) + Dropped(s, r, p)
  {
    var both, carried, dropped := ProjectRows(s, p) * ProjectRows(r, p),
        ProjectRows(s, p) * Rows(r) - ProjectRows(r, p), ProjectRows(s, p) - Rows(r);
    MinutesJoin(both, carried);
    MinutesJoin(both + carried, dropped);
    assert both + carried + dropped == ProjectRows(s, p);
  }

  /** What left a project and what joined it account for the difference between any two states. */
  lemma ProjectAccount(s: State, r: State, p: nat)
    requires Valid(s) && Valid(r)
    ensures ProjectLogged(s.tasks, s.entries, p) + CarriedOff(r, s, p) + Dropped(r, s, p)
         == ProjectLogged(r.tasks, r.entries, p) + CarriedOff(s, r, p) + Dropped(s, r, p)
  {
    hide Valid, MinutesOf, ProjectLogged, CarriedOff, Dropped;
    ProjectLoggedRows(s, p);
    ProjectLoggedRows(r, p);
    RowsSplit(s, r, p);
    RowsSplit(r, s, p);
    assert ProjectRows(s, p) * ProjectRows(r, p) == ProjectRows(r, p) * ProjectRows(s, p);
  }

  /** The true minutes of a project: its cards' logged and live minutes. */
  function ProjectCredit(s: State, p: nat, now: int): nat {
    ProjectLogged(s.tasks, s.entries, p) + LiveOver(s.sessions, TasksOf(s, p), now)
  }

  /** A project adds a later report, by the projects cards are then in, to logged minutes grouped at an earlier
      read. Whatever ran in between, deletions and rewritten time rows included: the number shown, plus the
      project's rows logged or rewritten in between, plus minutes that cards brought in, is the true number plus
      minutes that cards carried off and minutes of rows that are gone. So it is too much exactly when the latter
      exceed the former, and never if nothing left; rows of cards that the run spares are never gone. */
  lemma ProjectReadOrder(s: State, run: seq<Event>, p: nat, m: map<Key, nat>, now: int)
    requires Valid(s) && IsReport(m, Run(s, run), Run(s, run).sessions, EVERYTHING, now)
    ensures var r := Run(s, run);
            var shown := ProjectLogged(s.tasks, s.entries, p) + Shown(m, TasksOf(r, p));
            var logged, arrived := Dropped(r, s, p), CarriedOff(r, s, p);
            var left, gone := CarriedOff(s, r, p), Dropped(s, r, p);
            && shown + logged + arrived == ProjectCredit(r, p, now) + left + gone
            && (shown > ProjectCredit(r, p, now) <==> left + gone > logged + arrived)
            && (left + gone == 0 ==> shown <= ProjectCredit(r, p, now))
            && ((forall t :: t in TasksOf(s, p) ==> Sparing(s, run, Card(t))) ==> gone == 0)
  {
    hide Valid, Run, Sparing, IsReport, Shown, LiveOver, ProjectLogged, CarriedOff, Dropped;
    var r := Run(s, run);
    ProjectAccount(s, r, p);
    ShownIsLive(m, r, TasksOf(r, p), now);
    if forall t :: t in TasksOf(s, p) ==> Sparing(s, run, Card(t)) {
      SparedRows(s, run, p);
    }
  }

  lemma SparedRows(s: State, run: seq<Event>, p: nat)
    requires Valid(s) && forall t :: t in TasksOf(s, p) ==> Sparing(s, run, Card(t))
    ensures Dropped(s, Run(s, run), p) == 0
  {
    hide Run, Sparing, Valid;
    forall e | e in ProjectRows(s, p) ensures e in Rows(Run(s, run)) {
      assert e.task in TasksOf(s, p);
      RunRows(s, run, Card(e.task));
    }
    assert ProjectRows(s, p) - Rows(Run(s, run)) == {};
  }

  lemma LogsOfCard(s: State, t: nat, now: int)
    requires Known(s, t)
    ensures var r := Reconcile(s, t, now);
            s.entries <= r.entries && forall e :: e in r.entries[|s.entries|..] ==> e.task == t
  {
    var closing := Closing(s.sessions, t, Participants(s, t));
    ClosingOnly(s.sessions, t, Participants(s, t));
    ClosingEntriesRows(closing, now, s.nextEntry, t);
    assert Reconcile(s, t, now).entries[|s.entries|..] == ClosingEntries(closing, now, s.nextEntry);
  }

  function Moving(t: nat, other: nat): Step { Change(PatchTask(t, Some(other), None, None, None)) }

  lemma MoveWrites(s: State, t: nat, other: nat)
    requires Valid(s) && t in s.tasks && other in s.projects && (s.projects[other].archived ==> s.tasks[t].archived)
    ensures Writes(s, PatchTask(t, Some(other), None, None, None))
         == Edited(WriteTask(s, t, s.tasks[t].(project := other)), [t])
  {
  }

  lemma OneReconciled(s: State, t: nat, now: int)
    requires Known(s, t)
    ensures ReconcileAll(s, [t], now) == Reconcile(s, t, now)
  {
    assert [t][..0] == [];
  }

  lemma MoveApplied(s: State, t: nat, other: nat, now: int)
    requires Valid(s) && t in s.tasks && other in s.projects && (s.projects[other].archived ==> s.tasks[t].archived)
    ensures var w := WriteTask(s, t, s.tasks[t].(project := other));
            Known(w, t) && Apply(s, Moving(t, other), now) == Reconcile(w, t, now)
  {
    MoveWrites(s, t, other);
    WritesPending(s, Moving(t, other).edit);
    hide Valid, Writes, Reconcile;
    OneReconciled(WriteTask(s, t, s.tasks[t].(project := other)), t, now);
  }

  lemma MoveLogs(s: State, t: nat, other: nat, now: int)
    requires Valid(s) && t in s.tasks && other in s.projects && (s.projects[other].archived ==> s.tasks[t].archived)
    ensures var r := Apply(s, Moving(t, other), now);
            && r.tasks.Keys == s.tasks.Keys && r.tasks[t].project == other
            && (forall x :: x in s.tasks && x != t ==> r.tasks[x].project == s.tasks[x].project)
            && s.entries <= r.entries && forall e :: e in r.entries[|s.entries|..] ==> e.task == t
  {
    hide Valid, Reconcile, Apply;
    MoveApplied(s, t, other, now);
    LogsOfCard(WriteTask(s, t, s.tasks[t].(project := other)), t, now);
  }

  lemma OneRequest(s: State, step: Step, now: int)
    requires Valid(s)
    ensures Run(s, [Event(step, now)]) == Apply(s, step, now)
  {
    hide Valid, Apply;
    assert [Event(step, now)][..0] == [] && Run(s, []) == s;
  }

  /** Such a case: a card moved to another project between the two reads. Its logged minutes are still shown in
      the project it left. */
  lemma MovedCardOverstates(s: State, t: nat, other: nat, m: map<Key, nat>, now: int)
    requires Valid(s) && t in s.tasks && other in s.projects && (s.projects[other].archived ==> s.tasks[t].archived)
    requires other != s.tasks[t].project
    requires var r := Run(s, [Event(Moving(t, other), now)]); IsReport(m, r, r.sessions, EVERYTHING, now)
    ensures var p, r := s.tasks[t].project, Run(s, [Event(Moving(t, other), now)]);
            ProjectLogged(s.tasks, s.entries, p) + Shown(m, TasksOf(r, p))
            == ProjectCredit(r, p, now) + Logged(s.entries, Card(t))
  {
    hide Valid, IsReport, Shown, LiveOver, ProjectLogged, CarriedOff, Dropped, TasksOf, Logged, Apply, Run, Moving;
    var p, r := s.tasks[t].project, Run(s, [Event(Moving(t, other), now)]);
    OneRequest(s, Moving(t, other), now);
    MoveLogs(s, t, other, now);
    ProjectAccount(s, r, p);
    ShownIsLive(m, r, TasksOf(r, p), now);
    ValidIds(s);
    CardCarriedOff(s, r, t, p);
  }

  lemma CardCarriedOff(s: State, r: State, t: nat, p: nat)
    requires RowIds(s.entries, s.nextEntry) && r.tasks.Keys == s.tasks.Keys && t in s.tasks
    requires s.tasks[t].project == p != r.tasks[t].project
    requires forall x :: x in s.tasks && x != t ==> r.tasks[x].project == s.tasks[x].project
    requires s.entries <= r.entries && forall e :: e in r.entries[|s.entries|..] ==> e.task == t
    ensures CarriedOff(s, r, p) == Logged(s.entries, Card(t)) && Dropped(s, r, p) == 0
    ensures CarriedOff(r, s, p) == 0 && Dropped(r, s, p) == 0
  {
    hide RowIds, Logged, MinutesOf;
    assert r.entries == s.entries + r.entries[|s.entries|..];
    assert Rows(s) <= Rows(r);
    assert ProjectRows(s, p) - Rows(r) == {} && ProjectRows(r, p) - Rows(s) == {};
    assert ProjectRows(r, p) * Rows(s) - ProjectRows(s, p) == {};
    assert ProjectRows(s, p) * Rows(r) - ProjectRows(r, p) == RowsOf(s.entries, Card(t));
    LoggedRows(s.entries, s.nextEntry, Card(t));
    NoMinutes();
  }

  lemma NoMinutes()
    ensures MinutesOf({}) == 0
  {
  }

  // ---------- projects in three reads ----------

  lemma {:induction false} LiveOverPick(rows: seq<Session>, cards: set<nat>, t: nat, at: int)
    requires t in cards
    ensures LiveOver(rows, cards, at) == LiveOver(rows, cards - {t}, at) + Live(rows, Card(t), at)
  {
    if rows != [] {
      LiveOverPick(rows[..|rows| - 1], cards, t, at);
    }
  }

  lemma {:induction false} NothingOver(rows: seq<Session>, at: int)
    ensures LiveOver(rows, {}, at) == 0
  {
    if rows != [] {
      NothingOver(rows[..|rows| - 1], at);
    }
  }

  /** The cards of a project that have a timer. */
  function TimedCards(s: State, p: nat): set<nat> {
    set row | row in s.sessions && row.task in s.tasks && s.tasks[row.task].project == p :: row.task
  }

  /** The rows of some cards under ids not given out before. */
  function NewRowsOver(es: seq<Entry>, cards: set<nat>, next: nat): set<Entry> {
    set e | e in es && e.task in cards && next <= e.id
  }

  /** Minutes live on some cards are later logged in new rows of those cards, or still live. */
  lemma {:induction false} CardsBecomeRows(s: State, run: seq<Event>, cards: set<nat>, from: int, now: int)
    requires Valid(s) && Within(run, from, now) && forall t :: t in cards ==> Sparing(s, run, Card(t))
    ensures var r := Run(s, run);
            LiveOver(s.sessions, cards, from)
            <= MinutesOf(NewRowsOver(r.entries, cards, s.nextEntry)) + LiveOver(r.sessions, cards, now)
  {
    hide Valid, Run, LiveOver, Live, Sparing, Within, MinutesOf;
    var r := Run(s, run);
    if cards == {} {
      NothingOver(s.sessions, from);
    } else {
      var t :| t in cards;
      CardsBecomeRows(s, run, cards - {t}, from, now);
      LiveBecomesRows(s, run, Card(t), from, now);
      LiveOverPick(s.sessions, cards, t, from);
      LiveOverPick(r.sessions, cards, t, now);
      var others, one := NewRowsOver(r.entries, cards - {t}, s.nextEntry), NewRows(r.entries, Card(t), s.nextEntry);
      MinutesJoin(others, one);
      assert others + one == NewRowsOver(r.entries, cards, s.nextEntry);
    }
  }

  /** Cards without a timer add nothing. */
  lemma {:induction false} LiveIsTimed(rows: seq<Session>, some: set<nat>, cards: set<nat>, at: int)
    requires some <= cards && forall row :: row in rows && row.task in cards ==> row.task in some
    ensures LiveOver(rows, some, at) == LiveOver(rows, cards, at)
  {
    if rows != [] {
      assert rows[|rows| - 1] in rows;
      LiveIsTimed(rows[..|rows| - 1], some, cards, at);
    }
  }

  lemma TimedLive(s: State, p: nat, at: int)
    ensures TimedCards(s, p) <= TasksOf(s, p)
    ensures LiveOver(s.sessions, TimedCards(s, p), at) == LiveOver(s.sessions, TasksOf(s, p), at)
  {
    LiveIsTimed(s.sessions, TimedCards(s, p), TasksOf(s, p), at);
  }

  /** The projects of the timed cards come from a third read. Whatever ran between the three, the number shown is
      too much exactly when minutes carried off or gone, and those live on the timed cards at the report, exceed
      minutes logged or brought in and those still live. If the requests after the report spare the timed cards,
      live minutes do not get lost, and if besides nothing left the project the number is never too much. */
  lemma ProjectThreeReads(s: State, run: seq<Event>, more: seq<Event>, p: nat, m: map<Key, nat>, now: int, later: int)
    requires Valid(s) && IsReport(m, Run(s, run), Run(s, run).sessions, EVERYTHING, now)
    ensures var mid := Run(s, run);
            var r := Run(mid, more);
            var cards := TimedCards(r, p);
            var shown := ProjectLogged(s.tasks, s.entries, p) + Shown(m, cards);
            var logged, arrived := Dropped(r, s, p), CarriedOff(r, s, p);
            var left, gone := CarriedOff(s, r, p), Dropped(s, r, p);
            var was, still := LiveOver(mid.sessions, cards, now), LiveOver(r.sessions, cards, later);
            && shown + logged + arrived + still == ProjectCredit(r, p, later) + left + gone + was
            && (shown > ProjectCredit(r, p, later) <==> left + gone + was > logged + arrived + still)
            && (Within(more, now, later) && (forall t :: t in cards ==> Sparing(mid, more, Card(t))) ==>
                  && was <= logged + still && shown + arrived <= ProjectCredit(r, p, later) + left + gone
                  && (left + gone == 0 ==> shown <= ProjectCredit(r, p, later)))
  {
    hide Valid, Run, Sparing, Within, IsReport, Shown, LiveOver, ProjectLogged, CarriedOff, Dropped, TimedCards;
    var mid := Run(s, run);
    var r, cards := Run(mid, more), TimedCards(Run(mid, more), p);
    ShownIsLive(m, mid, cards, now);
    ProjectAccount(s, r, p);
    TimedLive(r, p, later);
    if Within(more, now, later) && forall t :: t in cards ==> Sparing(mid, more, Card(t)) {
      CardsBecomeRows(mid, more, cards, now, later);
      NextGrows(s, run);
      NewAmongDropped(s, r, cards, mid.nextEntry, p);
    }
  }

  lemma {:induction false} NextGrows(s: State, run: seq<Event>)
    requires Valid(s)
    ensures s.nextEntry <= Run(s, run).nextEntry
  {
    hide Apply, Valid;
    if run != [] {
      NextGrows(s, run[..|run| - 1]);
      StepNext(Run(s, run[..|run| - 1]), run[|run| - 1].step, run[|run| - 1].at);
    }
  }

  lemma StepNext(s: State, step: Step, now: int)
    requires Valid(s)
    ensures s.nextEntry <= Apply(s, step, now).nextEntry
  {
    if step.Change? {
      hide Apply, Valid;
      ChangeRows(s, step.edit, now);
    }
  }

  /** Rows added after the first read are among those it has not seen. */
  lemma NewAmongDropped(s: State, r: State, cards: set<nat>, next: nat, p: nat)
    requires Valid(s) && s.nextEntry <= next && cards <= TasksOf(r, p)
    ensures MinutesOf(NewRowsOver(r.entries, cards, next)) <= Dropped(r, s, p)
  {
    ValidIds(s);
    hide Valid, MinutesOf;
    forall e | e in NewRowsOver(r.entries, cards, next) ensures e in ProjectRows(r, p) && e !in Rows(s) {
      assert e.task in TasksOf(r, p);
    }
    MinutesWithin(NewRowsOver(r.entries, cards, next), ProjectRows(r, p) - Rows(s));
  }
}
