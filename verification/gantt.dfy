/** The Gantt view's layout arithmetic: the overall date range of a project's
    phases, the months of the header, and each bar's left offset and width as
    percentages of the range. */
module Gantt {
  import opened Common
  import opened Calendar
  import opened Records
  import opened Arith

  /** The memoised `ganttData`. */
  datatype Timeline = Timeline(minDate: CivilDate, maxDate: CivilDate, months: seq<CivilDate>, totalDays: int)

  /** The `left`/`width` style of a phase bar, in percent. */
  datatype Bar = Bar(left: real, width: real)

  /** `phases.map(p => p.startDate)`. */
  function StartDates(phases: seq<Phase>): (r: seq<CivilDate>)
    ensures |r| == |phases|
    ensures forall i :: 0 <= i < |phases| ==> r[i] == phases[i].startDate
  {
    if phases == [] then [] else [phases[0].startDate] + StartDates(phases[1..])
  }

  /** `phases.map(p => p.endDate)`. */
  function EndDates(phases: seq<Phase>): (r: seq<CivilDate>)
    ensures |r| == |phases|
    ensures forall i :: 0 <= i < |phases| ==> r[i] == phases[i].endDate
  {
    if phases == [] then [] else [phases[0].endDate] + EndDates(phases[1..])
  }

  /** `allDates`: every start date followed by every end date. */
  function AllDates(phases: seq<Phase>): (r: seq<CivilDate>)
    ensures |r| == 2 * |phases|
    ensures forall i :: 0 <= i < |phases| ==> r[i] == phases[i].startDate && r[|phases| + i] == phases[i].endDate
  {
    StartDates(phases) + EndDates(phases)
  }

  /** The date with the smallest time value (`Math.min` over `getTime()`). */
  function Earliest(ds: seq<CivilDate>): (r: CivilDate)
    requires |ds| > 0
    ensures r in ds
    ensures forall i :: 0 <= i < |ds| ==> Day(r) <= Day(ds[i])
  {
    if |ds| == 1 then ds[0]
    else
      var m := Earliest(ds[1..]);
      if Day(ds[0]) <= Day(m) then ds[0] else m
  }

  /** The date with the largest time value (`Math.max`). */
  function Latest(ds: seq<CivilDate>): (r: CivilDate)
    requires |ds| > 0
    ensures r in ds
    ensures forall i :: 0 <= i < |ds| ==> Day(ds[i]) <= Day(r)
  {
    if |ds| == 1 then ds[0]
    else
      var m := Latest(ds[1..]);
      if Day(m) <= Day(ds[0]) then ds[0] else m
  }

  /** The header loop: starting from `current`, push it and advance one month
      while it is not after `maxDate`. The result is every first of month from
      `current`'s month through `maxDate`'s month. */
  function MonthsFrom(current: CivilDate, maxDate: CivilDate): (r: seq<CivilDate>)
    requires current.day == 1
    ensures |r| == if MonthIndex(current) <= MonthIndex(maxDate)
                   then MonthIndex(maxDate) - MonthIndex(current) + 1 else 0
    ensures forall i :: 0 <= i < |r| ==> r[i] == FirstOfMonth(MonthIndex(current) + i)
    decreases MonthIndex(maxDate) - MonthIndex(current)
  {
    FirstOfMonthOf(current);
    FirstDayBefore(MonthIndex(current), maxDate);
    if Day(current) <= Day(maxDate) then
      var rest := MonthsFrom(NextMonth(current), maxDate);
      [current] + rest
    else []
  }

  /** `ganttData`; `None` when the project has no phases (the source then
      computes `Math.min()` of nothing, an invalid date). */
  function GanttData(phases: seq<Phase>): (r: Option<Timeline>)
    ensures r.None? <==> |phases| == 0
    ensures r.Some? ==> r.value.minDate in AllDates(phases) && r.value.maxDate in AllDates(phases)
    ensures r.Some? ==> r.value.totalDays == Day(r.value.maxDate) - Day(r.value.minDate) >= 0
    ensures r.Some? ==> |r.value.months| == MonthIndex(r.value.maxDate) - MonthIndex(r.value.minDate) + 1
  {
    if |phases| == 0 then None
    else
      var all := AllDates(phases);
      var minDate := Earliest(all);
      var maxDate := Latest(all);
      assert Day(minDate) <= Day(all[0]) <= Day(maxDate);
      MonthIndexMonotone(minDate, maxDate);
      Some(Timeline(minDate, maxDate, MonthsFrom(Date(minDate.year, minDate.month, 1), maxDate),
                    Day(maxDate) - Day(minDate)))
  }

  /** `minDate` and `maxDate` bound every start and end date. */
  lemma RangeBounds(phases: seq<Phase>, i: int)
    requires 0 <= i < |phases|
    ensures var t := GanttData(phases).value;
      && Day(t.minDate) <= Day(phases[i].startDate) <= Day(t.maxDate)
      && Day(t.minDate) <= Day(phases[i].endDate) <= Day(t.maxDate)
  {
    var all := AllDates(phases);
    var t := GanttData(phases).value;
    assert t.minDate == Earliest(all) && t.maxDate == Latest(all);
    assert all[i] == phases[i].startDate && all[|phases| + i] == phases[i].endDate;
  }

  /** Consecutive header months are one calendar month apart. */
  lemma MonthsFromSteps(current: CivilDate, maxDate: CivilDate)
    requires current.day == 1
    ensures var r := MonthsFrom(current, maxDate);
      forall i :: 0 <= i < |r| - 1 ==> r[i + 1] == NextMonth(r[i])
  {
    var r := MonthsFrom(current, maxDate);
    forall i | 0 <= i < |r| - 1 ensures r[i + 1] == NextMonth(r[i]) {
      NextMonthIsFirstOfNext(MonthIndex(current) + i);
    }
  }

  lemma MonthsFromElementBounded(current: CivilDate, maxDate: CivilDate, i: int)
    requires current.day == 1 && 0 <= i < |MonthsFrom(current, maxDate)|
    ensures MonthsFrom(current, maxDate)[i].day == 1
    ensures Day(MonthsFrom(current, maxDate)[i]) <= Day(maxDate)
  {
    var r := MonthsFrom(current, maxDate);
    var k := MonthIndex(current) + i;
    assert r[i] == FirstOfMonth(k);
    assert k <= MonthIndex(maxDate);
    FirstDayBefore(k, maxDate);
    assert Day(r[i]) == FirstDay(k);
  }

  lemma MonthsFromLastIsMaxMonth(current: CivilDate, maxDate: CivilDate)
    requires current.day == 1 && 0 < |MonthsFrom(current, maxDate)|
    ensures var r := MonthsFrom(current, maxDate);
      Day(maxDate) < Day(NextMonth(r[|r| - 1]))
  {
    var r := MonthsFrom(current, maxDate);
    var k := MonthIndex(current) + |r| - 1;
    assert r[|r| - 1] == FirstOfMonth(k);
    NextMonthStartsAfter(k, maxDate);
  }

  /** Every header month starts on or before `maxDate`, and the month after
      the last one starts after it: no month is missing at the end. */
  lemma MonthsFromCovers(current: CivilDate, maxDate: CivilDate)
    requires current.day == 1 && Day(current) <= Day(maxDate)
    ensures var r := MonthsFrom(current, maxDate);
      && |r| > 0
      && (forall i :: 0 <= i < |r| ==> r[i].day == 1 && Day(r[i]) <= Day(maxDate))
      && Day(maxDate) < Day(NextMonth(r[|r| - 1]))
  {
    var r := MonthsFrom(current, maxDate);
    FirstOfMonthOf(current);
    FirstDayBefore(MonthIndex(current), maxDate);
    assert |r| > 0;
    forall i | 0 <= i < |r| ensures r[i].day == 1 && Day(r[i]) <= Day(maxDate) {
      MonthsFromElementBounded(current, maxDate, i);
    }
    MonthsFromLastIsMaxMonth(current, maxDate);
  }

  /** The month header starts at the first of `minDate`'s month, advances one
      calendar month at a time (December rolling over to January), never
      passes `maxDate`, and stops only when the next month would. */
  lemma MonthsExact(phases: seq<Phase>)
    requires |phases| > 0
    ensures var t := GanttData(phases).value;
      && |t.months| > 0
      && t.months[0] == Date(t.minDate.year, t.minDate.month, 1)
      && (forall i :: 0 <= i < |t.months| ==> t.months[i].day == 1 && Day(t.months[i]) <= Day(t.maxDate))
      && (forall i :: 0 <= i < |t.months| - 1 ==> t.months[i + 1] == NextMonth(t.months[i]))
      && Day(t.maxDate) < Day(NextMonth(t.months[|t.months| - 1]))
  {
    var t := GanttData(phases).value;
    var first := HeaderStart(phases);
    MonthsFromSteps(first, t.maxDate);
    MonthsFromCovers(first, t.maxDate);
    FirstOfMonthOf(first);
  }

  /** The header is generated from the first of `minDate`'s month, which is
      not after `maxDate`. */
  lemma HeaderStart(phases: seq<Phase>) returns (first: CivilDate)
    requires |phases| > 0
    ensures var t := GanttData(phases).value;
      && first == Date(t.minDate.year, t.minDate.month, 1)
      && t.months == MonthsFrom(first, t.maxDate)
      && Day(first) <= Day(t.maxDate)
  {
    var t := GanttData(phases).value;
    first := Date(t.minDate.year, t.minDate.month, 1);
    FirstOfOwnMonth(t.minDate);
  }

  /** Every start and end date equals the first phase's start date. */
  predicate AllOneDay(phases: seq<Phase>)
    requires |phases| > 0
  {
    forall i :: 0 <= i < |phases| ==>
      phases[i].startDate == phases[0].startDate && phases[i].endDate == phases[0].startDate
  }

  lemma ZeroSpanElement(phases: seq<Phase>, i: int)
    requires 0 <= i < |phases| && GanttData(phases).value.totalDays == 0
    ensures phases[i].startDate == phases[0].startDate && phases[i].endDate == phases[0].startDate
  {
    RangeBounds(phases, i);
    RangeBounds(phases, 0);
    DayInjective(phases[i].startDate, phases[0].startDate);
    DayInjective(phases[i].endDate, phases[0].startDate);
  }

  lemma OneDayHasZeroSpan(phases: seq<Phase>)
    requires |phases| > 0 && AllOneDay(phases)
    ensures GanttData(phases).value.totalDays == 0
  {
    var t := GanttData(phases).value;
    var all := AllDates(phases);
    var x := phases[0].startDate;
    assert forall j :: 0 <= j < |all| ==> all[j] == x by {
      forall j | 0 <= j < |all| ensures all[j] == x {
        if j < |phases| {
          assert all[j] == phases[j].startDate;
        } else {
          assert all[j] == phases[j - |phases|].endDate;
        }
      }
    }
    assert t.minDate == x && t.maxDate == x;
  }

  /** The whole-day span is zero exactly when every phase starts and ends on
      the same day. */
  lemma TotalDaysZeroIff(phases: seq<Phase>)
    requires |phases| > 0
    ensures GanttData(phases).value.totalDays == 0 <==> AllOneDay(phases)
  {
    if GanttData(phases).value.totalDays == 0 {
      forall i | 0 <= i < |phases|
        ensures phases[i].startDate == phases[0].startDate && phases[i].endDate == phases[0].startDate
      {
        ZeroSpanElement(phases, i);
      }
    }
    if AllOneDay(phases) {
      OneDayHasZeroSpan(phases);
    }
  }

  /** `n / total * 100` as a real percentage. */
  function Percent(n: int, total: int): real
    requires total > 0
  {
    (n as real / total as real) * 100.0
  }

  lemma PercentScale(a: int, total: int)
    requires total > 0
    ensures Percent(a, total) * (total as real) == 100.0 * (a as real)
  {
    var T := total as real;
    assert (a as real / T) * T == a as real;
  }

  lemma PercentAdd(a: int, b: int, total: int)
    requires total > 0
    ensures Percent(a, total) + Percent(b, total) == Percent(a + b, total)
  {
    var T := total as real;
    PercentScale(a, total);
    PercentScale(b, total);
    PercentScale(a + b, total);
    var pa, pb, ps := Percent(a, total), Percent(b, total), Percent(a + b, total);
    assert (pa + pb - ps) * T == 0.0;
    MulSign(pa + pb - ps, T);
  }

  lemma PercentOrder(a: int, b: int, total: int)
    requires total > 0
    ensures Percent(a, total) <= Percent(b, total) <==> a <= b
  {
    var T := total as real;
    PercentScale(a, total);
    PercentScale(b, total);
    var pa, pb := Percent(a, total), Percent(b, total);
    assert (pb - pa) * T == 100.0 * (b - a) as real;
    MulSign(pb - pa, T);
  }

  lemma PercentEnds(a: int, total: int)
    requires total > 0
    ensures Percent(a, total) == 0.0 <==> a == 0
    ensures Percent(a, total) == 100.0 <==> a == total
  {
    var T := total as real;
    PercentScale(a, total);
    var pa := Percent(a, total);
    MulSign(pa, T);
    assert (pa - 100.0) * T == 100.0 * (a - total) as real;
    MulSign(pa - 100.0, T);
  }

  lemma PercentFacts(a: int, b: int, total: int)
    requires total > 0
    ensures Percent(a, total) + Percent(b, total) == Percent(a + b, total)
    ensures Percent(a, total) <= Percent(b, total) <==> a <= b
    ensures Percent(a, total) == 0.0 <==> a == 0
    ensures Percent(a, total) == 100.0 <==> a == total
  {
    PercentAdd(a, b, total);
    PercentOrder(a, b, total);
    PercentEnds(a, total);
  }

  /** A bar from a whole-day offset and duration over a `total`-day track. */
  function BarFor(offset: int, duration: int, total: int): (b: Bar)
    requires total > 0
    ensures b.left * total as real == 100.0 * offset as real
    ensures b.width * total as real == 100.0 * duration as real
    ensures 0 <= offset && 0 <= duration && offset + duration <= total ==>
      && 0.0 <= b.left && 0.0 <= b.width && b.left + b.width <= 100.0
      && (b.left == 0.0 <==> offset == 0)
      && (b.left + b.width == 100.0 <==> offset + duration == total)
  {
    PercentFacts(offset, duration, total);
    PercentFacts(0, offset, total);
    PercentFacts(0, duration, total);
    PercentFacts(offset + duration, total, total);
    PercentFacts(total, 0, total);
    PercentScale(offset, total);
    PercentScale(duration, total);
    Bar(Percent(offset, total), Percent(duration, total))
  }

  /** `getPhasePosition`: whole-day offset from `minDate` and whole-day
      duration, each divided by `totalDays`. The division is unguarded in the
      source, hence the precondition. */
  function PhasePosition(t: Timeline, start: CivilDate, end: CivilDate): (b: Bar)
    requires t.totalDays > 0
    ensures b.left == (Day(start) - Day(t.minDate)) as real / t.totalDays as real * 100.0
    ensures b.width == (Day(end) - Day(start)) as real / t.totalDays as real * 100.0
    ensures Day(t.minDate) <= Day(start) <= Day(end) <= Day(t.minDate) + t.totalDays ==>
      && 0.0 <= b.left && 0.0 <= b.width && b.left + b.width <= 100.0
      && (b.left == 0.0 <==> Day(start) == Day(t.minDate))
      && (b.left + b.width == 100.0 <==> Day(end) == Day(t.minDate) + t.totalDays)
  {
    BarFor(Day(start) - Day(t.minDate), Day(end) - Day(start), t.totalDays)
  }

  /** A phase spanning the whole range fills the track. */
  lemma FullSpanFillsTrack(t: Timeline, start: CivilDate, end: CivilDate)
    requires t.totalDays > 0 && t.totalDays == Day(t.maxDate) - Day(t.minDate)
    requires start == t.minDate && end == t.maxDate
    ensures PhasePosition(t, start, end) == Bar(0.0, 100.0)
  {
  }

  /** `x / span * 100` for a positive span. */
  function Fraction(x: real, span: real): (r: real)
    requires span > 0.0
    ensures r * span == 100.0 * x
    ensures r < 0.0 <==> x < 0.0
    ensures r == 0.0 <==> x == 0.0
    ensures r > 100.0 <==> x > span
    ensures r == 100.0 <==> x == span
  {
    QuotientFacts(x, span);
    assert (x / span) * span == x;
    (x / span) * 100.0
  }

  lemma QuotientFacts(x: real, span: real)
    requires span > 0.0
    ensures x / span < 0.0 <==> x < 0.0
    ensures x / span == 0.0 <==> x == 0.0
    ensures x / span > 1.0 <==> x > span
    ensures x / span == 1.0 <==> x == span
  {
    var q := x / span;
    assert q * span == x;
    MulSign(q, span);
    assert (q - 1.0) * span == x - span;
    MulSign(q - 1.0, span);
  }

  lemma FractionMonotone(x1: real, x2: real, span: real)
    requires span > 0.0 && x1 <= x2
    ensures Fraction(x1, span) <= Fraction(x2, span)
  {
    var q1, q2 := x1 / span, x2 / span;
    assert q1 * span == x1 && q2 * span == x2;
    assert (q2 - q1) * span == x2 - x1;
    MulSign(q2 - q1, span);
  }

  /** The "today" marker: `(now - minDate) / (maxDate - minDate) * 100`, with
      `now` in days since 1970-01-01 (wall-clock time is a parameter). It is
      not clamped: negative before `minDate`, beyond 100 after `maxDate`. The
      division is unguarded in the source, hence the precondition. */
  function TodayPercent(t: Timeline, now: real): (r: real)
    requires Day(t.minDate) < Day(t.maxDate)
    ensures r * (Day(t.maxDate) - Day(t.minDate)) as real == 100.0 * (now - Day(t.minDate) as real)
    ensures r < 0.0 <==> now < Day(t.minDate) as real
    ensures r == 0.0 <==> now == Day(t.minDate) as real
    ensures r > 100.0 <==> now > Day(t.maxDate) as real
    ensures r == 100.0 <==> now == Day(t.maxDate) as real
  {
    var lo, hi := Day(t.minDate), Day(t.maxDate);
    Fraction(now - lo as real, (hi - lo) as real)
  }

  /** The marker moves right as time passes. */
  lemma TodayMonotone(t: Timeline, now1: real, now2: real)
    requires Day(t.minDate) < Day(t.maxDate) && now1 <= now2
    ensures TodayPercent(t, now1) <= TodayPercent(t, now2)
  {
    var lo, span := Day(t.minDate) as real, (Day(t.maxDate) - Day(t.minDate)) as real;
    FractionMonotone(now1 - lo, now2 - lo, span);
  }

  /** The header rolls over year boundaries (2025-11-15 .. 2026-02-10). */
  lemma MonthsAcrossNewYear(c: CivilDate, m: CivilDate)
    requires c == Date(2025, 11, 1) && m == Date(2026, 2, 10)
    ensures MonthsFrom(c, m) == [Date(2025, 11, 1), Date(2025, 12, 1), Date(2026, 1, 1), Date(2026, 2, 1)]
  {
    MonthsOfSpan(c, m, 24310);
  }

  lemma MonthsOfSpan(c: CivilDate, m: CivilDate, k: int)
    requires c.day == 1 && MonthIndex(c) == k && MonthIndex(m) == k + 3
    ensures MonthsFrom(c, m)
         == [FirstOfMonth(k), FirstOfMonth(k + 1), FirstOfMonth(k + 2), FirstOfMonth(k + 3)]
  {
    var r := MonthsFrom(c, m);
    assert |r| == 4;
    assert r[0] == FirstOfMonth(k);
    assert r[1] == FirstOfMonth(k + 1);
    assert r[2] == FirstOfMonth(k + 2);
    assert r[3] == FirstOfMonth(k + 3);
  }
}
