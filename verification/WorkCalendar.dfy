/** Studio working time: how many scheduled minutes lie between two instants.
    An instant is a local wall-clock time in microseconds since a Monday midnight, a date is a day
    index counted from that Monday (both may be negative). 60_000_000 is a minute, 86_400_000_000 a day and
    604_800_000_000 a week. */
module WorkCalendar {

  const WORK_WEEK_MINUTES := 480 * 5 + 240

  /** The date an instant falls on. */
  function DateOf(t: int): int { t / 86_400_000_000 }

  function DayStart(d: int): int { d * 86_400_000_000 }

  /** 0 is Monday, 6 is Sunday. */
  function Weekday(d: int): nat { d % 7 }

  datatype Window = Window(opens: int, closes: int)

  const MORNING := Window(32_400_000_000, 46_800_000_000)
  const AFTERNOON := Window(50_400_000_000, 64_800_000_000)

  function Schedule(weekday: nat): seq<Window> {
    if weekday < 5 then [MORNING, AFTERNOON] else if weekday == 5 then [MORNING] else []
  }

  function Max(x: int, y: int): int { if x < y then y else x }

  function Min(x: int, y: int): int { if y < x then y else x }

  /** Whole minutes of [a, b) inside window w of date d. */
  function WindowMinutes(d: int, w: Window, a: int, b: int): nat {
    var lo, hi := Max(a, DayStart(d) + w.opens), Min(b, DayStart(d) + w.closes);
    if lo < hi then (hi - lo) / 60_000_000 else 0
  }

  function WindowsMinutes(d: int, ws: seq<Window>, a: int, b: int): nat {
    if ws == [] then 0
    else WindowsMinutes(d, ws[..|ws| - 1], a, b) + WindowMinutes(d, ws[|ws| - 1], a, b)
  }

  /** Minutes of [a, b) credited to date d. */
  function DayMinutes(d: int, a: int, b: int): nat {
    WindowsMinutes(d, Schedule(Weekday(d)), a, b)
  }

  /** Minutes of [a, b) credited to the dates lo..hi, both included. */
  function DatesMinutes(lo: int, hi: int, a: int, b: int): nat
    decreases hi - lo
  {
    if hi < lo then 0 else DatesMinutes(lo, hi - 1, a, b) + DayMinutes(hi, a, b)
  }

  function Count(a: int, b: int): nat {
    if b <= a then 0 else DatesMinutes(DateOf(a), DateOf(b), a, b)
  }

  lemma LastWindow(d: int, ws: seq<Window>, w: Window, a: int, b: int)
    ensures WindowsMinutes(d, ws + [w], a, b) == WindowsMinutes(d, ws, a, b) + WindowMinutes(d, w, a, b)
  {
    assert (ws + [w])[..|ws|] == ws;
  }

  method CountWorkingMinutes(start: int, end: int) returns (total: nat)
    ensures total == Count(start, end)
  {
    if end <= start {
      return 0;
    }
    total := 0;
    var date := DateOf(start);
    while date <= DateOf(end)
      invariant DateOf(start) <= date <= DateOf(end) + 1
      invariant total == DatesMinutes(DateOf(start), date - 1, start, end)
    {
      hide WindowsMinutes, WindowMinutes, DateOf, DayStart, Schedule, Weekday, Max, Min;
      var windows := Schedule(Weekday(date));
      ghost var before := total;
      NoWindows(date, start, end);
      for i := 0 to |windows|
        invariant total == before + WindowsMinutes(date, windows[..i], start, end)
      {
        var w := windows[i];
        var lo, hi := Max(start, DayStart(date) + w.opens), Min(end, DayStart(date) + w.closes);
        if lo < hi {
          total := total + (hi - lo) / 60_000_000;
        }
        WindowTerm(date, w, start, end);
        LastWindow(date, windows[..i], w, start, end);
        assert windows[..i + 1] == windows[..i] + [w];
      }
      assert windows[..|windows|] == windows;
      date := date + 1;
    }
  }

  lemma WindowTerm(d: int, w: Window, a: int, b: int)
    ensures var lo, hi := Max(a, DayStart(d) + w.opens), Min(b, DayStart(d) + w.closes);
            WindowMinutes(d, w, a, b) == if lo < hi then (hi - lo) / 60_000_000 else 0
  {
  }

  lemma NoWindows(d: int, a: int, b: int)
    ensures WindowsMinutes(d, [], a, b) == 0
  {
  }

  // ---------- days ----------

  lemma DayMinutesUnfolded(d: int, a: int, b: int)
    ensures DayMinutes(d, a, b)
         == (if Weekday(d) < 6 then WindowMinutes(d, MORNING, a, b) else 0)
          + (if Weekday(d) < 5 then WindowMinutes(d, AFTERNOON, a, b) else 0)
  {
    LastWindow(d, [], MORNING, a, b);
    LastWindow(d, [MORNING], AFTERNOON, a, b);
    assert [] + [MORNING] == [MORNING] && [MORNING] + [AFTERNOON] == [MORNING, AFTERNOON];
  }

  /** An instant strictly inside a scheduled window: splitting there may lose a fraction. */
  predicate Cuts(t: int) {
    var d := DateOf(t);
    var h := t - DayStart(d);
    (Weekday(d) < 6 && MORNING.opens < h < MORNING.closes) ||
    (Weekday(d) < 5 && AFTERNOON.opens < h < AFTERNOON.closes)
  }

  lemma WindowSplit(d: int, w: Window, a: int, b: int, c: int)
    requires a <= b <= c && w.opens < w.closes
    ensures WindowMinutes(d, w, a, b) + WindowMinutes(d, w, b, c) <= WindowMinutes(d, w, a, c)
    ensures WindowMinutes(d, w, a, c) <= WindowMinutes(d, w, a, b) + WindowMinutes(d, w, b, c) + 1
    ensures !(DayStart(d) + w.opens < b < DayStart(d) + w.closes) ==>
              WindowMinutes(d, w, a, b) + WindowMinutes(d, w, b, c) == WindowMinutes(d, w, a, c)
  {
  }

  lemma DaySplit(d: int, a: int, b: int, c: int)
    requires a <= b <= c
    ensures DayMinutes(d, a, b) + DayMinutes(d, b, c) <= DayMinutes(d, a, c)
    ensures DayMinutes(d, a, c)
         <= DayMinutes(d, a, b) + DayMinutes(d, b, c) + CutAmong(d, d, b)
  {
    DayMinutesUnfolded(d, a, b);
    DayMinutesUnfolded(d, b, c);
    DayMinutesUnfolded(d, a, c);
    WindowSplit(d, MORNING, a, b, c);
    WindowSplit(d, AFTERNOON, a, b, c);
  }

  lemma DatesSplit(lo: int, hi: int, a: int, b: int, c: int)
    requires a <= b <= c
    ensures DatesMinutes(lo, hi, a, b) + DatesMinutes(lo, hi, b, c) <= DatesMinutes(lo, hi, a, c)
    ensures DatesMinutes(lo, hi, a, c)
         <= DatesMinutes(lo, hi, a, b) + DatesMinutes(lo, hi, b, c) + CutAmong(lo, hi, b)
    decreases hi - lo
  {
    if lo <= hi {
      DatesSplit(lo, hi - 1, a, b, c);
      DaySplit(hi, a, b, c);
      CutAmongStep(lo, hi, b);
    }
  }

  function CutAmong(lo: int, hi: int, t: int): nat {
    if lo <= DateOf(t) <= hi && Cuts(t) then 1 else 0
  }

  lemma CutAmongStep(lo: int, hi: int, t: int)
    requires lo <= hi
    ensures CutAmong(lo, hi, t) == CutAmong(lo, hi - 1, t) + CutAmong(hi, hi, t)
  {
  }

  lemma DayOutside(d: int, a: int, b: int)
    requires b <= a || d < DateOf(a) || DateOf(b) < d
    ensures DayMinutes(d, a, b) == 0
  {
    DayMinutesUnfolded(d, a, b);
  }

  /** Widening the range of dates adds nothing. */
  lemma DatesCover(lo: int, hi: int, a: int, b: int)
    requires a < b ==> lo <= DateOf(a) && DateOf(b) <= hi
    ensures DatesMinutes(lo, hi, a, b) == Count(a, b)
    decreases hi - lo
  {
    if b <= a {
      if lo <= hi {
        DayOutside(hi, a, b);
        DatesCover(lo, hi - 1, a, b);
      }
    } else if DateOf(b) < hi {
      DayOutside(hi, a, b);
      DatesCover(lo, hi - 1, a, b);
    } else {
      DatesFrom(lo, hi, a, b);
    }
  }

  lemma DatesFrom(lo: int, hi: int, a: int, b: int)
    requires lo <= DateOf(a) <= hi
    ensures DatesMinutes(lo, hi, a, b) == DatesMinutes(DateOf(a), hi, a, b)
    decreases hi - lo
  {
    if DateOf(a) < hi {
      DatesFrom(lo, hi - 1, a, b);
    } else {
      DatesBefore(lo, hi - 1, a, b);
    }
  }

  lemma DatesBefore(lo: int, hi: int, a: int, b: int)
    requires hi < DateOf(a)
    ensures DatesMinutes(lo, hi, a, b) == 0
    decreases hi - lo
  {
    if lo <= hi {
      DayOutside(hi, a, b);
      DatesBefore(lo, hi - 1, a, b);
    }
  }

  // ---------- splitting an interval ----------

  /** Cutting an interval never gains a minute and loses at most one, and nothing at all unless the
      cut is strictly inside a scheduled window (so a day boundary is exact). */
  lemma SplitBound(a: int, b: int, c: int)
    requires a <= b <= c
    ensures Count(a, b) + Count(b, c) <= Count(a, c)
    ensures Count(a, c) <= Count(a, b) + Count(b, c) + if Cuts(b) then 1 else 0
    ensures b == DayStart(DateOf(b)) ==> Count(a, b) + Count(b, c) == Count(a, c)
  {
    var lo, hi := DateOf(a), DateOf(c);
    DatesCover(lo, hi, a, b);
    DatesCover(lo, hi, b, c);
    DatesCover(lo, hi, a, c);
    DatesSplit(lo, hi, a, b, c);
  }

  /** A later end never counts less. */
  lemma Monotone(a: int, b: int, c: int)
    requires b <= c
    ensures Count(a, b) <= Count(a, c)
  {
    if a <= b {
      SplitBound(a, b, c);
    }
  }

  // ---------- reference: the studio is open or closed at each instant ----------

  /** The schedule read directly: open 9-13 Monday to Saturday and 14-18 Monday to Friday. */
  predicate Open(t: int) {
    var d := DateOf(t);
    var h := t - DayStart(d);
    (Weekday(d) < 6 && 32_400_000_000 <= h < 46_800_000_000) ||
    (Weekday(d) < 5 && 50_400_000_000 <= h < 64_800_000_000)
  }

  /** The opening hours by the clock and the day of the week alone: 9 to 13 from the first to the sixth day, 14 to 18
      from the first to the fifth. */
  lemma StudioHours(t: int)
    ensures var ofWeek := t % 604_800_000_000;
            var day, hour := ofWeek / 86_400_000_000, ofWeek % 86_400_000_000 / 3_600_000_000;
            Open(t) <==> (day <= 5 && 9 <= hour < 13) || (day <= 4 && 14 <= hour < 18)
  {
    var week, ofWeek := t / 604_800_000_000, t % 604_800_000_000;
    var day, ofDay := ofWeek / 86_400_000_000, ofWeek % 86_400_000_000;
    DayOfWeek(t, week, day, ofDay);
    HourOfDay(ofDay);
    hide DateOf, DayStart, Weekday;
  }

  lemma DayOfWeek(t: int, week: int, day: int, ofDay: int)
    requires t == 604_800_000_000 * week + 86_400_000_000 * day + ofDay && 0 <= day < 7 && 0 <= ofDay < 86_400_000_000
    ensures DateOf(t) == 7 * week + day && t - DayStart(DateOf(t)) == ofDay && Weekday(DateOf(t)) == day
  {
    DateBounds(7 * week + day, t);
    hide DateOf;
  }

  lemma HourOfDay(ofDay: nat)
    ensures var hour := ofDay / 3_600_000_000;
            && (9 <= hour < 13 <==> 32_400_000_000 <= ofDay < 46_800_000_000)
            && (14 <= hour < 18 <==> 50_400_000_000 <= ofDay < 64_800_000_000)
  {
  }

  /** True working time of [a, b), one microsecond at a time. */
  function WorkedTicks(a: int, b: int): nat
    decreases b - a
  {
    if b <= a then 0 else WorkedTicks(a, b - 1) + if Open(b - 1) then 1 else 0
  }

  /** Minutes i..j-1 of the clock during which the studio is open, one minute at a time. */
  function OpenMinutes(i: int, j: int): nat
    decreases j - i
  {
    if j <= i then 0 else OpenMinutes(i, j - 1) + if Open((j - 1) * 60_000_000) then 1 else 0
  }

  function WindowTicks(d: int, w: Window, a: int, b: int): nat {
    var lo, hi := Max(a, DayStart(d) + w.opens), Min(b, DayStart(d) + w.closes);
    if lo < hi then hi - lo else 0
  }

  function DayTicks(d: int, a: int, b: int): nat {
    (if Weekday(d) < 6 then WindowTicks(d, MORNING, a, b) else 0)
    + (if Weekday(d) < 5 then WindowTicks(d, AFTERNOON, a, b) else 0)
  }

  function DatesTicks(lo: int, hi: int, a: int, b: int): nat
    decreases hi - lo
  {
    if hi < lo then 0 else DatesTicks(lo, hi - 1, a, b) + DayTicks(hi, a, b)
  }

  function OpenOn(lo: int, hi: int, t: int): nat {
    if lo <= DateOf(t) <= hi && Open(t) then 1 else 0
  }

  lemma OpenOnStep(lo: int, hi: int, t: int)
    requires lo <= hi
    ensures OpenOn(lo, hi, t) == OpenOn(lo, hi - 1, t) + OpenOn(hi, hi, t)
  {
  }

  lemma DayTicksStep(d: int, a: int, b: int)
    requires a < b
    ensures DayTicks(d, a, b) == DayTicks(d, a, b - 1) + OpenOn(d, d, b - 1)
  {
  }

  lemma DatesTicksStep(lo: int, hi: int, a: int, b: int)
    requires a < b
    ensures DatesTicks(lo, hi, a, b) == DatesTicks(lo, hi, a, b - 1) + OpenOn(lo, hi, b - 1)
    decreases hi - lo
  {
    if lo <= hi {
      DatesTicksStep(lo, hi - 1, a, b);
      DayTicksStep(hi, a, b);
      OpenOnStep(lo, hi, b - 1);
    }
  }

  lemma NoTicks(lo: int, hi: int, a: int)
    ensures DatesTicks(lo, hi, a, a) == 0
    decreases hi - lo
  {
    if lo <= hi {
      NoTicks(lo, hi - 1, a);
    }
  }

  lemma {:induction false} WorkedByDates(lo: int, hi: int, a: int, b: int)
    requires a <= b && lo <= DateOf(a) && DateOf(b) <= hi
    ensures WorkedTicks(a, b) == DatesTicks(lo, hi, a, b)
    decreases b - a
  {
    if a == b {
      NoTicks(lo, hi, a);
    } else {
      WorkedByDates(lo, hi, a, b - 1);
      DatesTicksStep(lo, hi, a, b);
    }
  }

  /** Fractions of a minute dropped on date d: none unless an end of the interval falls on it. */
  function Slack(lo: int, hi: int, t: int): nat {
    if lo <= DateOf(t) <= hi && t % 60_000_000 != 0 then 59_999_999 else 0
  }

  function WindowSlack(d: int, w: Window, t: int): nat {
    if DayStart(d) + w.opens < t < DayStart(d) + w.closes && t % 60_000_000 != 0 then 59_999_999 else 0
  }

  function Fraction(t: int): nat { if t % 60_000_000 != 0 then 59_999_999 else 0 }

  lemma FloorLoss(lo: int, hi: int)
    requires lo < hi
    ensures 60_000_000 * ((hi - lo) / 60_000_000) <= hi - lo
    ensures hi - lo <= 60_000_000 * ((hi - lo) / 60_000_000) + Fraction(lo) + Fraction(hi)
  {
  }

  lemma BoundaryAligned(d: int, h: int)
    requires h % 60_000_000 == 0
    ensures Fraction(DayStart(d) + h) == 0
  {
    Aligned(DayStart(d) + h, 1440 * d + h / 60_000_000);
  }

  lemma WindowLoss(d: int, w: Window, a: int, b: int)
    requires w == MORNING || w == AFTERNOON
    ensures 60_000_000 * WindowMinutes(d, w, a, b) <= WindowTicks(d, w, a, b)
    ensures WindowTicks(d, w, a, b)
         <= 60_000_000 * WindowMinutes(d, w, a, b) + WindowSlack(d, w, a) + WindowSlack(d, w, b)
  {
    var opens, closes := DayStart(d) + w.opens, DayStart(d) + w.closes;
    var lo, hi := Max(a, opens), Min(b, closes);
    if lo < hi {
      FloorLoss(lo, hi);
      BoundaryAligned(d, w.opens);
      BoundaryAligned(d, w.closes);
      assert Fraction(lo) <= WindowSlack(d, w, a);
      assert Fraction(hi) <= WindowSlack(d, w, b);
    }
  }

  lemma Aligned(t: int, m: int)
    requires t == 60_000_000 * m
    ensures t % 60_000_000 == 0
  {
  }

  lemma DayLoss(d: int, a: int, b: int)
    requires a <= b
    ensures 60_000_000 * DayMinutes(d, a, b) <= DayTicks(d, a, b)
    ensures DayTicks(d, a, b) <= 60_000_000 * DayMinutes(d, a, b) + Slack(d, d, a) + Slack(d, d, b)
  {
    DayMinutesUnfolded(d, a, b);
    WindowLoss(d, MORNING, a, b);
    WindowLoss(d, AFTERNOON, a, b);
  }

  lemma DatesLoss(lo: int, hi: int, a: int, b: int)
    requires a <= b
    ensures 60_000_000 * DatesMinutes(lo, hi, a, b) <= DatesTicks(lo, hi, a, b)
    ensures DatesTicks(lo, hi, a, b)
         <= 60_000_000 * DatesMinutes(lo, hi, a, b) + Slack(lo, hi, a) + Slack(lo, hi, b)
    decreases hi - lo
  {
    if lo <= hi {
      DatesLoss(lo, hi - 1, a, b);
      DayLoss(hi, a, b);
    }
  }

  /** Against true working time the count never overstates and stays within two minutes; between
      minute-aligned instants it is exact. */
  lemma TrueTime(a: int, b: int)
    requires a <= b
    ensures 60_000_000 * Count(a, b) <= WorkedTicks(a, b) < 60_000_000 * Count(a, b) + 120_000_000
    ensures a % 60_000_000 == 0 && b % 60_000_000 == 0 ==> WorkedTicks(a, b) == 60_000_000 * Count(a, b)
  {
    var lo, hi := DateOf(a), DateOf(b);
    WorkedByDates(lo, hi, a, b);
    DatesCover(lo, hi, a, b);
    DatesLoss(lo, hi, a, b);
  }

  // ---------- minute by minute ----------

  lemma WorkedSplit(a: int, b: int, c: int)
    requires a <= b <= c
    ensures WorkedTicks(a, c) == WorkedTicks(a, b) + WorkedTicks(b, c)
    decreases c - b
  {
    if b < c {
      WorkedSplit(a, b, c - 1);
    }
  }

  lemma DateBounds(d: int, t: int)
    requires DayStart(d) <= t < DayStart(d + 1)
    ensures DateOf(t) == d
  {
  }

  lemma SameMinute(m: int, t: int)
    requires 60_000_000 * m <= t < 60_000_000 * (m + 1)
    ensures Open(t) == Open(m * 60_000_000)
  {
    hide DateOf;
    var d := m / 1440;
    assert 1440 * d <= m && m + 1 <= 1440 * (d + 1);
    DateBounds(d, t);
    DateBounds(d, m * 60_000_000);
  }

  lemma {:induction false} WithinMinute(m: int, t: int)
    requires 60_000_000 * m <= t <= 60_000_000 * (m + 1)
    ensures WorkedTicks(60_000_000 * m, t) == if Open(m * 60_000_000) then t - 60_000_000 * m else 0
    decreases t - 60_000_000 * m
  {
    if 60_000_000 * m < t {
      WithinMinute(m, t - 1);
      SameMinute(m, t - 1);
    }
  }

  lemma {:induction false} MinutesOfTicks(i: int, j: int)
    requires i <= j
    ensures WorkedTicks(60_000_000 * i, 60_000_000 * j) == 60_000_000 * OpenMinutes(i, j)
    decreases j - i
  {
    if i < j {
      MinutesOfTicks(i, j - 1);
      WorkedSplit(60_000_000 * i, 60_000_000 * (j - 1), 60_000_000 * j);
      WithinMinute(j - 1, 60_000_000 * j);
    }
  }

  /** Between minute-aligned instants the windowed count is the minute-by-minute count. */
  lemma MinuteByMinute(i: int, j: int)
    requires i <= j
    ensures Count(60_000_000 * i, 60_000_000 * j) == OpenMinutes(i, j)
  {
    Aligned(60_000_000 * i, i);
    Aligned(60_000_000 * j, j);
    TrueTime(60_000_000 * i, 60_000_000 * j);
    MinutesOfTicks(i, j);
  }

  // ---------- weeks ----------

  lemma WindowShift(d: int, w: Window, k: int, a: int, b: int)
    ensures WindowMinutes(d + 7 * k, w, a + 604_800_000_000 * k, b + 604_800_000_000 * k) == WindowMinutes(d, w, a, b)
  {
    assert DayStart(d + 7 * k) == DayStart(d) + 604_800_000_000 * k;
  }

  lemma WeekdayShift(d: int, k: int)
    ensures Weekday(d + 7 * k) == Weekday(d)
  {
  }

  lemma DayShift(d: int, k: int, a: int, b: int)
    ensures DayMinutes(d + 7 * k, a + 604_800_000_000 * k, b + 604_800_000_000 * k) == DayMinutes(d, a, b)
  {
    hide DayMinutes, WindowMinutes, Weekday;
    DayMinutesUnfolded(d, a, b);
    DayMinutesUnfolded(d + 7 * k, a + 604_800_000_000 * k, b + 604_800_000_000 * k);
    WindowShift(d, MORNING, k, a, b);
    WindowShift(d, AFTERNOON, k, a, b);
    WeekdayShift(d, k);
  }

  lemma DatesShift(lo: int, hi: int, k: int, a: int, b: int)
    ensures DatesMinutes(lo + 7 * k, hi + 7 * k, a + 604_800_000_000 * k, b + 604_800_000_000 * k)
         == DatesMinutes(lo, hi, a, b)
    decreases hi - lo
  {
    if lo <= hi {
      DatesShift(lo, hi - 1, k, a, b);
      DayShift(hi, k, a, b);
    }
  }

  /** Shifting both ends by whole weeks changes nothing. */
  lemma WeekShift(k: int, a: int, b: int)
    ensures Count(a + 604_800_000_000 * k, b + 604_800_000_000 * k) == Count(a, b)
  {
    DatesShift(DateOf(a), DateOf(b), k, a, b);
    assert DateOf(a + 604_800_000_000 * k) == DateOf(a) + 7 * k;
    assert DateOf(b + 604_800_000_000 * k) == DateOf(b) + 7 * k;
  }

  lemma FullDay(d: int, a: int, b: int)
    requires a <= DayStart(d) && DayStart(d + 1) <= b
    ensures DayMinutes(d, a, b) == if Weekday(d) < 5 then 480 else if Weekday(d) == 5 then 240 else 0
  {
    DayMinutesUnfolded(d, a, b);
  }

  lemma FullWeek(a: int, b: int)
    requires a <= DayStart(0) && DayStart(7) <= b
    ensures DatesMinutes(0, 6, a, b) == WORK_WEEK_MINUTES
  {
    FullDays(6, a, b);
  }

  lemma {:induction false} FullDays(hi: int, a: int, b: int)
    requires -1 <= hi <= 6 && a <= DayStart(0) && DayStart(7) <= b
    ensures DatesMinutes(0, hi, a, b) == if hi < 5 then 480 * (hi + 1) else 2640
  {
    hide DayMinutes;
    if hi >= 0 {
      FullDays(hi - 1, a, b);
      FullDay(hi, a, b);
    }
  }

  function WeekStart(k: int): (t: int)
    ensures DateOf(t) == 7 * k && t == DayStart(7 * k)
  {
    604_800_000_000 * k
  }

  lemma OneWeek(k: int)
    ensures Count(WeekStart(k), WeekStart(k + 1)) == WORK_WEEK_MINUTES
  {
    WeekShift(k, WeekStart(0), WeekStart(1));
    DatesCover(0, 7, WeekStart(0), WeekStart(1));
    DayOutsideNext(7, WeekStart(0), WeekStart(1));
    FullWeek(WeekStart(0), WeekStart(1));
  }

  lemma DayOutsideNext(d: int, a: int, b: int)
    requires b == DayStart(d)
    ensures DayMinutes(d, a, b) == 0
  {
    DayMinutesUnfolded(d, a, b);
  }

  lemma {:induction false} WeeksFromMonday(k: int, n: nat)
    ensures Count(WeekStart(k), WeekStart(k + n)) == n * WORK_WEEK_MINUTES
  {
    if n > 0 {
      WeeksFromMonday(k, n - 1);
      OneWeek(k + n - 1);
      SplitBound(WeekStart(k), WeekStart(k + n - 1), WeekStart(k + n));
    }
  }

  /** A window cut at a misaligned instant loses exactly one minute. */
  lemma WindowCut(d: int, w: Window, a: int, b: int, c: int)
    requires w == MORNING || w == AFTERNOON
    requires a <= DayStart(d) + w.opens < b < DayStart(d) + w.closes <= c
    ensures WindowMinutes(d, w, a, b) + WindowMinutes(d, w, b, c) + (if b % 60_000_000 != 0 then 1 else 0)
         == WindowMinutes(d, w, a, c)
  {
    BoundaryAligned(d, w.opens);
    BoundaryAligned(d, w.closes);
    FloorCut(DayStart(d) + w.opens, b, DayStart(d) + w.closes);
  }

  lemma Quotient(x: int, q: int, rest: int)
    requires x == 60_000_000 * q + rest && 0 <= rest < 60_000_000
    ensures x / 60_000_000 == q && x % 60_000_000 == rest
  {
  }

  lemma FloorCut(x: int, y: int, z: int)
    requires x < y < z && x % 60_000_000 == 0 && z % 60_000_000 == 0
    ensures (y - x) / 60_000_000 + (z - y) / 60_000_000 + (if y % 60_000_000 != 0 then 1 else 0)
         == (z - x) / 60_000_000
  {
    var i, j, k, rest := x / 60_000_000, y / 60_000_000, z / 60_000_000, y % 60_000_000;
    Quotient(y - x, j - i, rest);
    Quotient(z - x, k - i, 0);
    if rest == 0 {
      Quotient(z - y, k - j, 0);
    } else {
      Quotient(z - y, k - j - 1, 60_000_000 - rest);
    }
  }

  /** Cutting whole days at t loses a minute exactly when t is misaligned inside a window. */
  predicate LosesMinute(t: int) { Cuts(t) && t % 60_000_000 != 0 }

  function LostIn(d: int, w: Window, t: int): nat {
    if DayStart(d) + w.opens < t < DayStart(d) + w.closes && t % 60_000_000 != 0 then 1 else 0
  }

  lemma WholeWindowCut(d: int, w: Window, a: int, b: int, c: int)
    requires w == MORNING || w == AFTERNOON
    requires a <= DayStart(d) && DayStart(d + 1) <= c && a <= b <= c
    ensures WindowMinutes(d, w, a, b) + WindowMinutes(d, w, b, c) + LostIn(d, w, b) == WindowMinutes(d, w, a, c)
  {
    if DayStart(d) + w.opens < b < DayStart(d) + w.closes {
      WindowCut(d, w, a, b, c);
    } else {
      WindowSplit(d, w, a, b, c);
    }
  }

  lemma LostOnDate(d: int, t: int)
    ensures (if DateOf(t) == d && LosesMinute(t) then 1 else 0)
         == (if Weekday(d) < 6 then LostIn(d, MORNING, t) else 0)
          + (if Weekday(d) < 5 then LostIn(d, AFTERNOON, t) else 0)
  {
  }

  lemma WholeDayCut(d: int, a: int, b: int, c: int)
    requires a <= DayStart(d) && DayStart(d + 1) <= c && a <= b <= c
    ensures DayMinutes(d, a, b) + DayMinutes(d, b, c) + (if DateOf(b) == d && LosesMinute(b) then 1 else 0)
         == DayMinutes(d, a, c)
  {
    hide DayMinutes, WindowMinutes, LostIn, LosesMinute;
    DayMinutesUnfolded(d, a, b);
    DayMinutesUnfolded(d, b, c);
    DayMinutesUnfolded(d, a, c);
    WholeWindowCut(d, MORNING, a, b, c);
    WholeWindowCut(d, AFTERNOON, a, b, c);
    LostOnDate(d, b);
  }

  lemma DateCut(b: int)
    ensures var x, y := DayStart(DateOf(b)), DayStart(DateOf(b) + 1);
            Count(x, b) + Count(b, y) + (if LosesMinute(b) then 1 else 0) == Count(x, y)
  {
    var d := DateOf(b);
    var x, y := DayStart(d), DayStart(d + 1);
    OneDate(d, x, b);
    OneDate(d, b, y);
    OneDate(d, x, y);
    WholeDayCut(d, x, b, y);
  }

  lemma SplitAtMidnight(a: int, d: int, c: int)
    requires a <= DayStart(d) <= c
    ensures Count(a, c) == Count(a, DayStart(d)) + Count(DayStart(d), c)
  {
    MidnightDate(d);
    SplitBound(a, DayStart(d), c);
  }

  lemma MidnightDate(d: int)
    ensures DateOf(DayStart(d)) == d
  {
  }

  lemma CutBetweenMidnights(lo: int, hi: int, b: int)
    requires lo <= DateOf(b) < hi
    ensures Count(DayStart(lo), b) + Count(b, DayStart(hi)) + (if LosesMinute(b) then 1 else 0)
         == Count(DayStart(lo), DayStart(hi))
  {
    hide Count;
    var d := DateOf(b);
    DateCut(b);
    SplitAtMidnight(DayStart(lo), d, b);
    SplitAtMidnight(b, d + 1, DayStart(hi));
    SplitAtMidnight(DayStart(lo), d, DayStart(hi));
    SplitAtMidnight(DayStart(d), d + 1, DayStart(hi));
  }

  lemma OneDate(d: int, a: int, b: int)
    requires DayStart(d) <= a <= b <= DayStart(d + 1)
    ensures Count(a, b) == DayMinutes(d, a, b)
  {
    DatesCover(d, d + 1, a, b);
    DayMinutesUnfolded(d + 1, a, b);
    assert DatesMinutes(d, d - 1, a, b) == 0;
    assert DatesMinutes(d, d, a, b) == DayMinutes(d, a, b);
  }

  /** n >= 1 whole weeks from any instant count n working weeks, or one minute less; the minute is lost
      exactly when the instant is strictly inside a window and not minute-aligned. */
  lemma WholeWeeks(a: int, n: nat)
    requires n > 0
    ensures Count(a, a + 604_800_000_000 * n) == n * WORK_WEEK_MINUTES - if LosesMinute(a) then 1 else 0
  {
    hide Count, LosesMinute;
    var k := a / 604_800_000_000;
    var c := a + 604_800_000_000 * n;
    WeekOf(a, k, n);
    SplitAtMidnight(a, 7 * (k + 1), c);
    SplitAtMidnight(WeekStart(k + 1), 7 * (k + n), c);
    WeeksLater(k, n, a);
    BrokenWeek(a, k);
    WeeksFromMonday(k + 1, n - 1);
  }

  lemma WeekOf(a: int, k: int, n: nat)
    requires n > 0 && k == a / 604_800_000_000
    ensures 7 * k <= DateOf(a) < 7 * (k + 1)
    ensures a <= WeekStart(k + 1) <= WeekStart(k + n) <= a + 604_800_000_000 * n
  {
  }

  lemma BrokenWeek(a: int, k: int)
    requires 7 * k <= DateOf(a) < 7 * (k + 1)
    ensures Count(WeekStart(k), a) + Count(a, WeekStart(k + 1)) + (if LosesMinute(a) then 1 else 0) == WORK_WEEK_MINUTES
  {
    CutBetweenMidnights(7 * k, 7 * (k + 1), a);
    OneWeek(k);
  }

  lemma WeeksLater(k: int, n: int, a: int)
    ensures Count(WeekStart(k + n), a + 604_800_000_000 * n) == Count(WeekStart(k), a)
  {
    WeekShift(n, WeekStart(k), a);
    assert WeekStart(k + n) == WeekStart(k) + 604_800_000_000 * n;
  }

  /** Such a start: from Monday 09:00:30 one whole week counts one minute less than a working week. */
  lemma MisalignedWeekLosesMinute()
    ensures LosesMinute(32_430_000_000)
    ensures Count(32_430_000_000, 32_430_000_000 + 604_800_000_000) == WORK_WEEK_MINUTES - 1
  {
    assert DateOf(32_430_000_000) == 0;
    WholeWeeks(32_430_000_000, 1);
  }
}
