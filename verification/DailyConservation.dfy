/** Conservation date by date: closing a timer logs each day's minutes on that day. */
module DailyConservation {
  import opened Ids
  import opened WorkCalendar
  import opened DailyWork
  import opened WorkSessions
  import opened Workflow
  import opened LiveReport

  /** Minutes logged by a worker on a card for one date. */
  function LoggedOn(es: seq<Entry>, k: Key): nat {
    if es == [] then 0
    else
      var e := es[|es| - 1];
      LoggedOn(es[..|es| - 1], k)
      + if e.task == k.task && e.user == k.user && e.workDate == k.date then e.minutes else 0
  }

  /** What the open timers have accrued on that date. */
  function LiveOn(rows: seq<Session>, k: Key, at: int): nat {
    if rows == [] then 0
    else
      var r := rows[|rows| - 1];
      LiveOn(rows[..|rows| - 1], k, at)
      + if r.task == k.task && r.user == k.user then DayMinutes(k.date, r.startedAt, at) else 0
  }

  lemma {:induction false} LoggedOnAppend(xs: seq<Entry>, ys: seq<Entry>, k: Key)
    ensures LoggedOn(xs + ys, k) == LoggedOn(xs, k) + LoggedOn(ys, k)
  {
    if ys == [] {
      assert xs + ys == xs;
    } else {
      assert (xs + ys)[..|xs + ys| - 1] == xs + ys[..|ys| - 1];
      LoggedOnAppend(xs, ys[..|ys| - 1], k);
    }
  }

  lemma {:induction false} LiveOnAppend(xs: seq<Session>, ys: seq<Session>, k: Key, at: int)
    ensures LiveOn(xs + ys, k, at) == LiveOn(xs, k, at) + LiveOn(ys, k, at)
  {
    hide DayMinutes;
    if ys == [] {
      assert xs + ys == xs;
    } else {
      assert (xs + ys)[..|xs + ys| - 1] == xs + ys[..|ys| - 1];
      LiveOnAppend(xs, ys[..|ys| - 1], k, at);
    }
  }

  lemma {:induction false} DayEntriesOn(t: nat, u: nat, days: seq<DayWork>, id: nat, k: Key)
    ensures LoggedOn(DayEntries(t, u, days, id), k) == if t == k.task && u == k.user then ListedOn(days, k.date) else 0
  {
    if days != [] {
      var n := |days| - 1;
      DayEntriesOn(t, u, days[..n], id, k);
      assert DayEntries(t, u, days, id)[..n] == DayEntries(t, u, days[..n], id);
    }
  }

  /** What closing timers log for a date is what they had accrued on it. */
  lemma {:induction false} ClosingLogsLiveOn(rows: seq<Session>, now: int, id: nat, k: Key)
    ensures LoggedOn(ClosingEntries(rows, now, id), k) == LiveOn(rows, k, now)
  {
    hide DayMinutes, Daily;
    if rows != [] {
      var before, r := rows[..|rows| - 1], rows[|rows| - 1];
      var es := ClosingEntries(before, now, id);
      ClosingLogsLiveOn(before, now, id, k);
      LoggedOnAppend(es, DayEntries(r.task, r.user, Daily(r.startedAt, now), id + |es|), k);
      DayEntriesOn(r.task, r.user, Daily(r.startedAt, now), id + |es|, k);
      ListedDaily(r.startedAt, now, k.date);
    }
  }

  lemma {:induction false} RowsPartitionOn(rows: seq<Session>, t: nat, ps: set<nat>, k: Key, at: int)
    ensures LiveOn(rows, k, at) == LiveOn(Closing(rows, t, ps), k, at) + LiveOn(Keeping(rows, t, ps), k, at)
  {
    hide DayMinutes, Closes;
    if rows != [] {
      var before, r := rows[..|rows| - 1], rows[|rows| - 1];
      RowsPartitionOn(before, t, ps, k, at);
      LiveOnAppend(Closing(before, t, ps), if Closes(r, t, ps) then [r] else [], k, at);
      LiveOnAppend(Keeping(before, t, ps), if Closes(r, t, ps) then [] else [r], k, at);
    }
  }

  lemma {:induction false} OpeningOn(t: nat, users: seq<nat>, now: int, k: Key)
    ensures LiveOn(Opening(t, users, now), k, now) == 0
  {
    if users != [] {
      var n := |users| - 1;
      OpeningOn(t, users[..n], now, k);
      assert Opening(t, users, now)[..|Opening(t, users, now)| - 1] == Opening(t, users[..n], now);
      DayOutside(k.date, now, now);
    }
  }

  lemma ReconcileConservesDay(s: State, t: nat, now: int, k: Key)
    requires Known(s, t)
    ensures var r := Reconcile(s, t, now);
            LoggedOn(r.entries, k) + LiveOn(r.sessions, k, now) == LoggedOn(s.entries, k) + LiveOn(s.sessions, k, now)
  {
    var ps := Participants(s, t);
    var closing, joining := Closing(s.sessions, t, ps), Sorted(ps - Users(s.sessions, t));
    LoggedOnAppend(s.entries, ClosingEntries(closing, now, s.nextEntry), k);
    ClosingLogsLiveOn(closing, now, s.nextEntry, k);
    RowsPartitionOn(s.sessions, t, ps, k, now);
    LiveOnAppend(Keeping(s.sessions, t, ps), Opening(t, joining, now), k, now);
    OpeningOn(t, joining, now, k);
  }

  lemma {:induction false} ReconcileAllConservesDay(s: State, todo: seq<nat>, now: int, k: Key)
    requires forall t :: t in todo ==> Known(s, t)
    ensures var r := ReconcileAll(s, todo, now);
            LoggedOn(r.entries, k) + LiveOn(r.sessions, k, now) == LoggedOn(s.entries, k) + LiveOn(s.sessions, k, now)
  {
    hide Reconcile, LoggedOn, LiveOn;
    if todo != [] {
      var before, t := todo[..|todo| - 1], todo[|todo| - 1];
      ReconcileAllConservesDay(s, before, now, k);
      assert t in todo;
      KnownStays(s, ReconcileAll(s, before, now), t);
      ReconcileConservesDay(ReconcileAll(s, before, now), t, now, k);
    }
  }

  lemma {:induction false} AmountIsLiveOn(s: State, rows: seq<Session>, k: Key, now: int)
    requires Referential(s) && forall r :: r in rows ==> Eligible(s, r)
    ensures Amount(s, rows, EVERYTHING, k, now) == LiveOn(rows, k, now)
  {
    hide DayMinutes, Eligible;
    if rows != [] {
      assert rows[|rows| - 1] in rows;
      AmountIsLiveOn(s, rows[..|rows| - 1], k, now);
    }
  }

  /** At the instant of any edit, the minutes logged for a card, worker and date plus those reported for them are
      the same before and after: reports by date do not jump when timers close. */
  lemma EditConservesDay(s: State, e: Edit, now: int, k: Key)
    requires Valid(s)
    ensures var r := Apply(s, Change(e), now);
            && Valid(r)
            && LoggedOn(r.entries, k) + Amount(r, r.sessions, EVERYTHING, k, now)
               == LoggedOn(s.entries, k) + Amount(s, s.sessions, EVERYTHING, k, now)
  {
    var r := Apply(s, Change(e), now);
    ApplyKeeps(s, Change(e), now);
    WritesPending(s, e);
    AllEligible(s);
    AllEligible(r);
    hide Writes, LoggedOn, LiveOn, Amount, Eligible;
    AmountIsLiveOn(s, s.sessions, k, now);
    AmountIsLiveOn(r, r.sessions, k, now);
    ReconcileAllConservesDay(Writes(s, e).state, Writes(s, e).todo, now, k);
  }
}
