/** Splitting an interval of work over the dates it covers. */
module DailyWork {
  import opened WorkCalendar

  datatype DayWork = DayWork(date: int, minutes: nat)

  /** The dates lo..hi with a non-zero share of [a, b). */
  function DailyFrom(lo: int, hi: int, a: int, b: int): seq<DayWork>
    decreases hi - lo
  {
    if hi < lo then []
    else
      DailyFrom(lo, hi - 1, a, b)
      + if DayMinutes(hi, a, b) > 0 then [DayWork(hi, DayMinutes(hi, a, b))] else []
  }

  function Daily(a: int, b: int): seq<DayWork> { DailyFrom(DateOf(a), DateOf(b), a, b) }

  function Total(days: seq<DayWork>): nat {
    if days == [] then 0 else Total(days[..|days| - 1]) + days[|days| - 1].minutes
  }

  method DailyWorkedMinutes(startedAt: int, endedAt: int) returns (days: seq<DayWork>)
    ensures days == Daily(startedAt, endedAt)
  {
    hide DayMinutes, Count, DateOf, DayStart, Max, Min;
    days := [];
    var date := DateOf(startedAt);
    while date <= DateOf(endedAt)
      invariant DateOf(startedAt) <= date
      invariant date <= DateOf(endedAt) + 1 || date == DateOf(startedAt)
      invariant days == DailyFrom(DateOf(startedAt), date - 1, startedAt, endedAt)
    {
      var minutes := CountWorkingMinutes(Max(startedAt, DayStart(date)), Min(endedAt, DayStart(date + 1)));
      ClampedDay(date, startedAt, endedAt);
      if minutes != 0 {
        days := days + [DayWork(date, minutes)];
      }
      date := date + 1;
    }
    if DateOf(endedAt) < DateOf(startedAt) {
      assert DailyFrom(DateOf(startedAt), DateOf(endedAt), startedAt, endedAt) == [];
    }
  }

  /** Counting the part of [a, b) that lies on date d is date d's share of the whole interval. */
  lemma ClampedDay(d: int, a: int, b: int)
    ensures Count(Max(a, DayStart(d)), Min(b, DayStart(d + 1))) == DayMinutes(d, a, b)
  {
    var x, y := Max(a, DayStart(d)), Min(b, DayStart(d + 1));
    ClampedWindows(d, a, b);
    if x <= y {
      OneDate(d, x, y);
    } else {
      DayOutside(d, x, y);
    }
  }

  /** Date d's share is the true working time of [a, b) on that date, rounded down by less than two minutes. */
  lemma ShareIsTrueTime(d: int, a: int, b: int)
    ensures var x, y := Max(a, 86_400_000_000 * d), Min(b, 86_400_000_000 * (d + 1));
            60_000_000 * DayMinutes(d, a, b) <= WorkedTicks(x, y) < 60_000_000 * DayMinutes(d, a, b) + 120_000_000
  {
    var x, y := Max(a, DayStart(d)), Min(b, DayStart(d + 1));
    ClampedDay(d, a, b);
    hide DayMinutes;
    if x <= y {
      TrueTime(x, y);
    }
  }

  lemma ClampedWindows(d: int, a: int, b: int)
    ensures DayMinutes(d, Max(a, DayStart(d)), Min(b, DayStart(d + 1))) == DayMinutes(d, a, b)
  {
    DayMinutesUnfolded(d, a, b);
    DayMinutesUnfolded(d, Max(a, DayStart(d)), Min(b, DayStart(d + 1)));
  }

  lemma TotalAppend(days: seq<DayWork>, day: DayWork)
    ensures Total(days + [day]) == Total(days) + day.minutes
  {
    assert (days + [day])[..|days|] == days;
  }

  lemma {:induction false} TotalFrom(lo: int, hi: int, a: int, b: int)
    ensures Total(DailyFrom(lo, hi, a, b)) == DatesMinutes(lo, hi, a, b)
    decreases hi - lo
  {
    if lo <= hi {
      TotalFrom(lo, hi - 1, a, b);
      var before, minutes := DailyFrom(lo, hi - 1, a, b), DayMinutes(hi, a, b);
      if minutes > 0 {
        TotalAppend(before, DayWork(hi, minutes));
      } else {
        assert before + [] == before;
      }
    }
  }

  /** The daily shares add up to the whole interval: no minute is lost or invented at midnight. */
  lemma DailyTotal(a: int, b: int)
    ensures Total(Daily(a, b)) == Count(a, b)
  {
    TotalFrom(DateOf(a), DateOf(b), a, b);
    if b <= a {
      DatesCover(DateOf(a), DateOf(b), a, b);
    }
  }

  predicate Increasing(days: seq<DayWork>) {
    forall i, j :: 0 <= i < j < |days| ==> days[i].date < days[j].date
  }

  lemma {:induction false} ListedDates(lo: int, hi: int, a: int, b: int, k: DayWork)
    ensures k in DailyFrom(lo, hi, a, b) <==> lo <= k.date <= hi && k.minutes == DayMinutes(k.date, a, b) > 0
    decreases hi - lo
  {
    hide DayMinutes;
    if lo <= hi {
      ListedDates(lo, hi - 1, a, b, k);
    }
  }

  lemma {:induction false} DatesIncrease(lo: int, hi: int, a: int, b: int)
    ensures Increasing(DailyFrom(lo, hi, a, b))
    decreases hi - lo
  {
    hide DayMinutes;
    if lo <= hi {
      DatesIncrease(lo, hi - 1, a, b);
      forall k | k in DailyFrom(lo, hi - 1, a, b) ensures k.date < hi {
        ListedDates(lo, hi - 1, a, b, k);
      }
    }
  }

  /** Dates strictly increase, and a date is listed, with its share, exactly when the share is positive. */
  lemma DailyShares(a: int, b: int)
    ensures Increasing(Daily(a, b))
    ensures forall k :: k in Daily(a, b) <==> k.minutes == DayMinutes(k.date, a, b) > 0
  {
    hide DayMinutes;
    DatesIncrease(DateOf(a), DateOf(b), a, b);
    forall k ensures k in Daily(a, b) <==> k.minutes == DayMinutes(k.date, a, b) > 0 {
      ListedDates(DateOf(a), DateOf(b), a, b, k);
      if !(DateOf(a) <= k.date <= DateOf(b)) {
        DayOutside(k.date, a, b);
      }
    }
  }

  /** Clipping an interval to the dates from..upto keeps exactly the shares of those dates. */
  lemma ClippedShare(d: int, a: int, b: int, from: int, upto: int)
    ensures DayMinutes(d, Max(a, DayStart(from)), b) == if from <= d then DayMinutes(d, a, b) else 0
    ensures DayMinutes(d, a, Min(b, DayStart(upto + 1))) == if d <= upto then DayMinutes(d, a, b) else 0
  {
    DayMinutesUnfolded(d, a, b);
    DayMinutesUnfolded(d, Max(a, DayStart(from)), b);
    DayMinutesUnfolded(d, a, Min(b, DayStart(upto + 1)));
    assert from <= d ==> DayStart(from) <= DayStart(d);
    assert d < from ==> DayStart(d + 1) <= DayStart(from);
    assert upto < d ==> DayStart(upto + 1) <= DayStart(d);
    assert d <= upto ==> DayStart(d + 1) <= DayStart(upto + 1);
  }

  /** Minutes listed for one date. */
  function ListedOn(days: seq<DayWork>, date: int): nat {
    if days == [] then 0
    else
      var k := days[|days| - 1];
      ListedOn(days[..|days| - 1], date) + if k.date == date then k.minutes else 0
  }

  lemma {:induction false} ListedFrom(lo: int, hi: int, a: int, b: int, date: int)
    ensures ListedOn(DailyFrom(lo, hi, a, b), date) == if lo <= date <= hi then DayMinutes(date, a, b) else 0
    decreases hi - lo
  {
    hide DayMinutes;
    if lo <= hi {
      ListedFrom(lo, hi - 1, a, b, date);
      var before, minutes := DailyFrom(lo, hi - 1, a, b), DayMinutes(hi, a, b);
      if minutes > 0 {
        assert DailyFrom(lo, hi, a, b)[..|before|] == before;
      } else {
        assert DailyFrom(lo, hi, a, b) == before;
      }
    }
  }

  lemma ListedDaily(a: int, b: int, date: int)
    ensures ListedOn(Daily(a, b), date) == DayMinutes(date, a, b)
  {
    ListedFrom(DateOf(a), DateOf(b), a, b, date);
    if !(DateOf(a) <= date <= DateOf(b)) {
      DayOutside(date, a, b);
    }
  }
}
