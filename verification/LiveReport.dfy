/** Reporting unsaved minutes per card, worker and date, without touching the timers. */
module LiveReport {
  import opened Ids
  import opened WorkCalendar
  import opened DailyWork
  import opened WorkSessions
  import opened Workflow

  datatype Key = Key(task: nat, user: nat, date: int)

  /** Optional restrictions of a report: cards, worker, first and last date. */
  datatype Filter = Filter(tasks: Option<set<nat>>, user: Option<nat>, from: Option<int>, upto: Option<int>) {
    predicate Accepts(r: Session) {
      (tasks.Some? ==> r.task in tasks.value) && (user.Some? ==> r.user == user.value)
    }

    predicate InRange(date: int) {
      (from.Some? ==> from.value <= date) && (upto.Some? ==> date <= upto.value)
    }

    function StartBound(startedAt: int): int {
      if from.Some? then Max(startedAt, DayStart(from.value)) else startedAt
    }

    function EndBound(now: int): int {
      if upto.Some? then Min(now, DayStart(upto.value + 1)) else now
    }

    function Unbounded(): Filter { Filter(tasks, user, None, None) }

    /** The keys a report may list. */
    predicate Lists(k: Key) {
      (tasks.Some? ==> k.task in tasks.value) && (user.Some? ==> k.user == user.value) && InRange(k.date)
    }
  }

  /** The timers a report may show, even if a stale row were stored. */
  predicate Eligible(s: State, r: Session)
    requires Referential(s)
  {
    r.task in s.tasks && s.tasks[r.task].status == InProgress && !s.tasks[r.task].archived
    && !s.projects[s.tasks[r.task].project].archived && r.user in s.active
  }

  function Amount(s: State, rows: seq<Session>, f: Filter, k: Key, now: int): nat
    requires Referential(s)
  {
    if rows == [] then 0
    else
      var r := rows[|rows| - 1];
      Amount(s, rows[..|rows| - 1], f, k, now)
      + if Eligible(s, r) && f.Accepts(r) && r.task == k.task && r.user == k.user
        then DayMinutes(k.date, f.StartBound(r.startedAt), f.EndBound(now)) else 0
  }

  /** A report lists exactly the keys with a positive amount, each with its amount. */
  ghost predicate IsReport(m: map<Key, nat>, s: State, rows: seq<Session>, f: Filter, now: int)
    requires Referential(s)
  {
    forall k :: (k in m <==> Amount(s, rows, f, k, now) > 0) && (k in m ==> m[k] == Amount(s, rows, f, k, now))
  }

  /** A key is reported exactly if a timer of that worker on that card has a positive share of that date, the card is
      in progress, neither it nor its project is archived, the worker is active, and the filter names the key. */
  lemma ReportedExactly(m: map<Key, nat>, s: State, f: Filter, k: Key, now: int)
    requires Referential(s) && IsReport(m, s, s.sessions, f, now)
    ensures k in m <==>
            && (f.tasks.Some? ==> k.task in f.tasks.value) && (f.user.Some? ==> k.user == f.user.value)
            && (f.from.Some? ==> f.from.value <= k.date) && (f.upto.Some? ==> k.date <= f.upto.value)
            && k.task in s.tasks && s.tasks[k.task].status == InProgress && !s.tasks[k.task].archived
            && s.tasks[k.task].project in s.projects && !s.projects[s.tasks[k.task].project].archived
            && k.user in s.active
            && exists row :: row in s.sessions && row.task == k.task && row.user == k.user
                             && DayMinutes(k.date, row.startedAt, now) > 0
  {
    RangeRestrictsAmount(s, s.sessions, f, k, now);
    FilterRestrictsAmount(s, s.sessions, f.Unbounded(), k, now);
    PositiveAmount(s, s.sessions, k, now);
    hide DayMinutes, Amount;
  }

  lemma {:induction false} PositiveAmount(s: State, rows: seq<Session>, k: Key, now: int)
    requires Referential(s)
    ensures Amount(s, rows, EVERYTHING, k, now) > 0 <==>
            exists row :: row in rows && Eligible(s, row) && row.task == k.task && row.user == k.user
                          && DayMinutes(k.date, row.startedAt, now) > 0
  {
    hide DayMinutes, Eligible;
    if rows != [] {
      PositiveAmount(s, rows[..|rows| - 1], k, now);
      assert rows == rows[..|rows| - 1] + [rows[|rows| - 1]];
    }
  }

  lemma {:induction false} RangeRestrictsAmount(s: State, rows: seq<Session>, f: Filter, k: Key, now: int)
    requires Referential(s)
    ensures Amount(s, rows, f, k, now)
         == if f.InRange(k.date) then Amount(s, rows, f.Unbounded(), k, now) else 0
  {
    hide DayMinutes;
    if rows != [] {
      var r := rows[|rows| - 1];
      RangeRestrictsAmount(s, rows[..|rows| - 1], f, k, now);
      ClippedShare(k.date, r.startedAt, f.EndBound(now),
                   if f.from.Some? then f.from.value else 0, 0);
      ClippedShare(k.date, r.startedAt, now, 0, if f.upto.Some? then f.upto.value else 0);
    }
  }

  /** Asking for a range of dates gives the unrestricted report cut to those dates, key for key. */
  lemma RangeRestricts(m: map<Key, nat>, all: map<Key, nat>, s: State, f: Filter, now: int)
    requires Referential(s)
    requires IsReport(m, s, s.sessions, f, now) && IsReport(all, s, s.sessions, f.Unbounded(), now)
    ensures m == map k | k in all && f.InRange(k.date) :: all[k]
  {
    forall k ensures Amount(s, s.sessions, f, k, now)
                  == if f.InRange(k.date) then Amount(s, s.sessions, f.Unbounded(), k, now) else 0
    {
      RangeRestrictsAmount(s, s.sessions, f, k, now);
    }
  }

  const EVERYTHING := Filter(None, None, None, None)

  lemma {:induction false} FilterRestrictsAmount(s: State, rows: seq<Session>, f: Filter, k: Key, now: int)
    requires Referential(s) && f.Unbounded() == f
    ensures Amount(s, rows, f, k, now) == if f.Lists(k) then Amount(s, rows, EVERYTHING, k, now) else 0
  {
    hide DayMinutes, Eligible;
    if rows != [] {
      FilterRestrictsAmount(s, rows[..|rows| - 1], f, k, now);
    }
  }

  /** Any filtered report, by cards, worker and dates, is the full report cut to the keys the filter names. */
  lemma FilterRestricts(m: map<Key, nat>, all: map<Key, nat>, s: State, f: Filter, now: int)
    requires Referential(s)
    requires IsReport(m, s, s.sessions, f, now) && IsReport(all, s, s.sessions, EVERYTHING, now)
    ensures m == map k | k in all && f.Lists(k) :: all[k]
  {
    forall k ensures Amount(s, s.sessions, f, k, now)
                  == if f.Lists(k) then Amount(s, s.sessions, EVERYTHING, k, now) else 0
    {
      RangeRestrictsAmount(s, s.sessions, f, k, now);
      FilterRestrictsAmount(s, s.sessions, f.Unbounded(), k, now);
    }
  }

  /** Reports over adjacent ranges share no key and together are the report over the joined range. */
  lemma RangesPartition(m1: map<Key, nat>, m2: map<Key, nat>, both: map<Key, nat>, s: State, f: Filter, cut: int,
                        now: int)
    requires Referential(s) && f.InRange(cut) && f.InRange(cut + 1)
    requires IsReport(m1, s, s.sessions, f.(upto := Some(cut)), now)
    requires IsReport(m2, s, s.sessions, f.(from := Some(cut + 1)), now)
    requires IsReport(both, s, s.sessions, f, now)
    ensures m1.Keys !! m2.Keys && both == m1 + m2
  {
    forall k ensures Amount(s, s.sessions, f.(upto := Some(cut)), k, now)
                  == (if f.InRange(k.date) && k.date <= cut then Amount(s, s.sessions, f.Unbounded(), k, now) else 0)
             ensures Amount(s, s.sessions, f.(from := Some(cut + 1)), k, now)
                  == (if f.InRange(k.date) && cut < k.date then Amount(s, s.sessions, f.Unbounded(), k, now) else 0)
             ensures Amount(s, s.sessions, f, k, now)
                  == if f.InRange(k.date) then Amount(s, s.sessions, f.Unbounded(), k, now) else 0
    {
      RangeRestrictsAmount(s, s.sessions, f.(upto := Some(cut)), k, now);
      RangeRestrictsAmount(s, s.sessions, f.(from := Some(cut + 1)), k, now);
      RangeRestrictsAmount(s, s.sessions, f, k, now);
    }
  }

  /** A worker's reported amounts over the dates lo..hi. */
  function AmountOver(s: State, rows: seq<Session>, t: nat, u: nat, lo: int, hi: int, now: int): nat
    requires Referential(s)
    decreases hi - lo
  {
    if hi < lo then 0
    else AmountOver(s, rows, t, u, lo, hi - 1, now) + Amount(s, rows, EVERYTHING, Key(t, u, hi), now)
  }

  lemma {:induction false} AmountOverStep(s: State, rows: seq<Session>, t: nat, u: nat, lo: int, hi: int, now: int)
    requires Referential(s) && rows != []
    ensures var r := rows[|rows| - 1];
            AmountOver(s, rows, t, u, lo, hi, now)
            == AmountOver(s, rows[..|rows| - 1], t, u, lo, hi, now)
             + if Eligible(s, r) && r.task == t && r.user == u then DatesMinutes(lo, hi, r.startedAt, now) else 0
    decreases hi - lo
  {
    hide DayMinutes;
    if lo <= hi {
      AmountOverStep(s, rows, t, u, lo, hi - 1, now);
    }
  }

  lemma {:induction false} AmountOverNone(s: State, t: nat, u: nat, lo: int, hi: int, now: int)
    requires Referential(s)
    ensures AmountOver(s, [], t, u, lo, hi, now) == 0
    decreases hi - lo
  {
    if lo <= hi {
      AmountOverNone(s, t, u, lo, hi - 1, now);
    }
  }

  lemma {:induction false} EligibleTotal(s: State, rows: seq<Session>, t: nat, u: nat, lo: int, hi: int, now: int)
    requires Referential(s) && forall r :: r in rows ==> Eligible(s, r)
    requires DateOf(now) <= hi && forall r :: r in rows ==> lo <= DateOf(r.startedAt)
    ensures AmountOver(s, rows, t, u, lo, hi, now) == Live(rows, Worker(t, u), now)
  {
    hide Count, DatesMinutes, DateOf, Eligible, Amount;
    if rows == [] {
      AmountOverNone(s, t, u, lo, hi, now);
    } else {
      var r := rows[|rows| - 1];
      assert r in rows;
      EligibleTotal(s, rows[..|rows| - 1], t, u, lo, hi, now);
      AmountOverStep(s, rows, t, u, lo, hi, now);
      DatesCover(lo, hi, r.startedAt, now);
    }
  }

  lemma AllEligible(s: State)
    requires Valid(s)
    ensures forall r :: r in s.sessions ==> Eligible(s, r)
  {
    forall r | r in s.sessions ensures Eligible(s, r) {
      assert r.user in Users(s.sessions, r.task);
      TimersOfUsers(s.sessions, r.task, r.user);
      assert r.task in s.tasks;
      assert Settled(s, r.task);
    }
  }

  /** In a valid state every stored timer is eligible, and a worker's reported amounts add up, over dates
      covering the timers, to exactly what closing the timer now would log. */
  lemma ReportTotals(s: State, t: nat, u: nat, lo: int, hi: int, now: int)
    requires Valid(s)
    requires DateOf(now) <= hi && forall r :: r in s.sessions ==> lo <= DateOf(r.startedAt)
    ensures forall r :: r in s.sessions ==> Eligible(s, r)
    ensures AmountOver(s, s.sessions, t, u, lo, hi, now) == Live(s.sessions, Worker(t, u), now)
  {
    AllEligible(s);
    EligibleTotal(s, s.sessions, t, u, lo, hi, now);
  }

  // ---------- adding a report up ----------

  /** What a page shows for some cards: the amounts of all their keys. */
  ghost function Shown(m: map<Key, nat>, cards: set<nat>): nat {
    if m == map[] then 0
    else
      var k :| k in m;
      Shown(m - {k}, cards) + if k.task in cards then m[k] else 0
  }

  /** The order in which keys are added does not matter. */
  lemma {:induction false} ShownAny(m: map<Key, nat>, cards: set<nat>, k: Key)
    requires k in m
    ensures Shown(m, cards) == Shown(m - {k}, cards) + if k.task in cards then m[k] else 0
    decreases |m|
  {
    var x :| x in m && Shown(m, cards) == Shown(m - {x}, cards) + if x.task in cards then m[x] else 0;
    if x != k {
      ShownAny(m - {x}, cards, k);
      ShownAny(m - {k}, cards, x);
      assert m - {x} - {k} == m - {k} - {x};
    }
  }

  function Add(m: map<Key, nat>, k: Key, n: nat): map<Key, nat> {
    m[k := (if k in m then m[k] else 0) + n]
  }

  lemma ShownAdd(m: map<Key, nat>, cards: set<nat>, k: Key, n: nat)
    ensures Shown(Add(m, k, n), cards) == Shown(m, cards) + if k.task in cards then n else 0
  {
    ShownAny(Add(m, k, n), cards, k);
    assert Add(m, k, n) - {k} == m - {k};
    if k in m {
      ShownAny(m, cards, k);
    } else {
      assert m - {k} == m;
    }
  }

  function AddAll(m: map<Key, nat>, t: nat, u: nat, days: seq<DayWork>): map<Key, nat> {
    if days == [] then m
    else
      var d := days[|days| - 1];
      Add(AddAll(m, t, u, days[..|days| - 1]), Key(t, u, d.date), d.minutes)
  }

  lemma {:induction false} ShownAddAll(m: map<Key, nat>, cards: set<nat>, t: nat, u: nat, days: seq<DayWork>)
    ensures Shown(AddAll(m, t, u, days), cards) == Shown(m, cards) + if t in cards then Total(days) else 0
  {
    if days != [] {
      var before, d := days[..|days| - 1], days[|days| - 1];
      ShownAddAll(m, cards, t, u, before);
      ShownAdd(AddAll(m, t, u, before), cards, Key(t, u, d.date), d.minutes);
    }
  }

  lemma {:induction false} AddAllAmounts(m: map<Key, nat>, t: nat, u: nat, days: seq<DayWork>, k: Key)
    requires forall d :: d in days ==> d.minutes > 0
    requires forall x :: x in m ==> m[x] > 0
    ensures var r, n := AddAll(m, t, u, days),
                        (if k in m then m[k] else 0) + if k.task == t && k.user == u then ListedOn(days, k.date) else 0;
            (k in r <==> n > 0) && (k in r ==> r[k] == n)
  {
    if days != [] {
      var before := days[..|days| - 1];
      assert days == before + [days[|days| - 1]];
      AddAllAmounts(m, t, u, before, k);
    }
  }

  /** The unrestricted report, timer by timer. */
  function ReportOf(s: State, rows: seq<Session>, now: int): map<Key, nat>
    requires Referential(s)
  {
    if rows == [] then map[]
    else
      var before, r := ReportOf(s, rows[..|rows| - 1], now), rows[|rows| - 1];
      if Eligible(s, r) then AddAll(before, r.task, r.user, Daily(r.startedAt, now)) else before
  }

  lemma {:induction false} ReportOfIsReport(s: State, rows: seq<Session>, now: int)
    requires Referential(s)
    ensures IsReport(ReportOf(s, rows, now), s, rows, EVERYTHING, now)
  {
    hide DayMinutes, Daily, Eligible;
    if rows != [] {
      var before, r := rows[..|rows| - 1], rows[|rows| - 1];
      ReportOfIsReport(s, before, now);
      DailyShares(r.startedAt, now);
      forall k ensures var m, n := ReportOf(s, rows, now), Amount(s, rows, EVERYTHING, k, now);
                       (k in m <==> n > 0) && (k in m ==> m[k] == n)
      {
        ListedDaily(r.startedAt, now, k.date);
        AddAllAmounts(ReportOf(s, before, now), r.task, r.user, Daily(r.startedAt, now), k);
      }
    }
  }

  /** Minutes the timers of some cards would log if they closed at the given instant. */
  function LiveOver(rows: seq<Session>, cards: set<nat>, at: int): nat {
    if rows == [] then 0
    else
      var r := rows[|rows| - 1];
      LiveOver(rows[..|rows| - 1], cards, at) + if r.task in cards then Count(r.startedAt, at) else 0
  }

  lemma {:induction false} LiveOverOne(rows: seq<Session>, t: nat, at: int)
    ensures LiveOver(rows, {t}, at) == Live(rows, Card(t), at)
  {
    hide Count;
    if rows != [] {
      LiveOverOne(rows[..|rows| - 1], t, at);
    }
  }

  lemma {:induction false} ShownReportOf(s: State, rows: seq<Session>, cards: set<nat>, now: int)
    requires Referential(s) && forall r :: r in rows ==> Eligible(s, r)
    ensures Shown(ReportOf(s, rows, now), cards) == LiveOver(rows, cards, now)
  {
    hide Count, Daily, Eligible, Shown;
    if rows == [] {
      ShownNothing(cards);
    } else {
      var before, r := rows[..|rows| - 1], rows[|rows| - 1];
      assert r in rows;
      ShownReportOf(s, before, cards, now);
      ShownAddAll(ReportOf(s, before, now), cards, r.task, r.user, Daily(r.startedAt, now));
      DailyTotal(r.startedAt, now);
    }
  }

  lemma ShownNothing(cards: set<nat>)
    ensures Shown(map[], cards) == 0
  {
  }

  /** In a valid state what a page adds up from the report, for any cards, is what closing their timers now would
      log. */
  lemma ShownIsLive(m: map<Key, nat>, s: State, cards: set<nat>, now: int)
    requires Valid(s) && IsReport(m, s, s.sessions, EVERYTHING, now)
    ensures Shown(m, cards) == LiveOver(s.sessions, cards, now)
  {
    ReportOfIsReport(s, s.sessions, now);
    assert m == ReportOf(s, s.sessions, now);
    AllEligible(s);
    ShownReportOf(s, s.sessions, cards, now);
  }
}
