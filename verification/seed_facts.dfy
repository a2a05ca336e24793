/** What the views show for the mock data the root component starts with:
    the timeline of project 1, its KPI cards, the dashboard cards and the
    document summary. */
module SeedFacts {
  import opened Calendar
  import opened Seqs
  import opened Records
  import opened App
  import Gantt
  import KpiView
  import Dashboard
  import DocumentsView

  /** Every phase date is on or after the first phase's start and on or
      before the last phase's end. */
  lemma SeedPhaseDatesWithin()
    ensures var ph := SeedPhases();
      forall i :: 0 <= i < |ph| ==>
        && Day(ph[0].startDate) <= Day(ph[i].startDate) <= Day(ph[4].endDate)
        && Day(ph[0].startDate) <= Day(ph[i].endDate) <= Day(ph[4].endDate)
  {
    var ph := SeedPhases();
    SeedPhasesOrdered();
    assert Day(ph[0].endDate) < Day(ph[1].startDate) && Day(ph[1].endDate) < Day(ph[2].startDate);
    assert Day(ph[2].endDate) < Day(ph[3].startDate) && Day(ph[3].endDate) < Day(ph[4].startDate);
  }

  /** The range of a timeline whose dates all lie between the first start
      and the last end is exactly that pair. */
  lemma RangeIsFirstToLast(ph: seq<Phase>, last: int)
    requires 0 <= last < |ph|
    requires forall i :: 0 <= i < |ph| ==>
        && Day(ph[0].startDate) <= Day(ph[i].startDate) <= Day(ph[last].endDate)
        && Day(ph[0].startDate) <= Day(ph[i].endDate) <= Day(ph[last].endDate)
    ensures var t := Gantt.GanttData(ph).value;
      t.minDate == ph[0].startDate && t.maxDate == ph[last].endDate
  {
    var all := Gantt.AllDates(ph);
    var t := Gantt.GanttData(ph).value;
    Gantt.RangeBounds(ph, 0);
    Gantt.RangeBounds(ph, last);
    var a :| 0 <= a < |all| && all[a] == t.minDate;
    var b :| 0 <= b < |all| && all[b] == t.maxDate;
    assert a < |ph| ==> all[a] == ph[a].startDate;
    assert a >= |ph| ==> all[a] == ph[a - |ph|].endDate;
    assert b < |ph| ==> all[b] == ph[b].startDate;
    assert b >= |ph| ==> all[b] == ph[b - |ph|].endDate;
    DayInjective(t.minDate, ph[0].startDate);
    DayInjective(t.maxDate, ph[last].endDate);
  }

  lemma SeedSpan(lo: Date, hi: Date)
    requires lo == Date(2025, 1, 15) && hi == Date(2025, 12, 31)
    ensures Day(hi) - Day(lo) == 350 && MonthIndex(hi) - MonthIndex(lo) + 1 == 12
  {
  }

  /** The timeline of project 1 runs from 2025-01-15 to 2025-12-31: 350 days
      under a header of twelve months. */
  lemma SeedTimeline(ph: seq<Phase>)
    requires ph == SeedPhases()
    ensures var t := Gantt.GanttData(ph);
      && t.Some?
      && t.value.minDate == Date(2025, 1, 15) && t.value.maxDate == Date(2025, 12, 31)
      && t.value.totalDays == 350 && |t.value.months| == 12
  {
    SeedPhaseDatesWithin();
    RangeIsFirstToLast(ph, 4);
    var t := Gantt.GanttData(ph).value;
    SeedSpan(t.minDate, t.maxDate);
  }

  /** When the range runs from the first phase's start to the last phase's
      end, the first bar starts at the left edge and the last one ends at the
      right edge. */
  lemma BarsTouchEdges(ph: seq<Phase>, last: int)
    requires 0 <= last < |ph| && Gantt.GanttData(ph).Some?
    requires var t := Gantt.GanttData(ph).value;
      t.minDate == ph[0].startDate && t.maxDate == ph[last].endDate && t.totalDays > 0
    ensures var t := Gantt.GanttData(ph).value;
      && Gantt.PhasePosition(t, ph[0].startDate, ph[0].endDate).left == 0.0
      && var b := Gantt.PhasePosition(t, ph[last].startDate, ph[last].endDate);
         b.left + b.width == 100.0
  {
    Gantt.RangeBounds(ph, 0);
    Gantt.RangeBounds(ph, last);
  }

  /** On project 1's timeline phase p1 starts at the left edge and phase p5
      ends at the right edge. */
  lemma SeedBarsTouchEdges(ph: seq<Phase>)
    requires ph == SeedPhases()
    ensures Gantt.GanttData(ph).Some? && Gantt.GanttData(ph).value.totalDays > 0
    ensures var t := Gantt.GanttData(ph).value;
      && Gantt.PhasePosition(t, ph[0].startDate, ph[0].endDate).left == 0.0
      && var last := Gantt.PhasePosition(t, ph[4].startDate, ph[4].endDate);
         last.left + last.width == 100.0
  {
    SeedTimeline(ph);
    assert ph[0].startDate == Date(2025, 1, 15) && ph[4].endDate == Date(2025, 12, 31);
    BarsTouchEdges(ph, 4);
  }

  /** Three of project 1's four KPIs are on target. The bug KPI, with two
      open bugs against a target of zero, is a warning, yet its progress bar
      is full because `2 / 0` is +Infinity. */
  lemma SeedKpiCards()
    ensures var ks := SeedKpis();
      && KpiView.Status(ks[0]) == KpiView.Excellent
      && KpiView.Status(ks[1]) == KpiView.Excellent
      && KpiView.Status(ks[2]) == KpiView.Warning
      && KpiView.Status(ks[3]) == KpiView.Excellent
      && KpiView.OnTargetCount(ks) == 3
      && KpiView.BarPercent(ks[2]) == KpiView.Finite(100.0)
  {
    var ks := SeedKpis();
    assert ks[2].name == KpiView.BugKpiName;
    assert ks[0].name != KpiView.BugKpiName && ks[1].name != KpiView.BugKpiName;
    assert ks[3].name != KpiView.BugKpiName;
    assert ks == [ks[0]] + [ks[1]] + [ks[2]] + [ks[3]];
    FilterAppend(KpiView.OnTarget, [ks[0]] + [ks[1]] + [ks[2]], [ks[3]]);
    FilterAppend(KpiView.OnTarget, [ks[0]] + [ks[1]], [ks[2]]);
    FilterAppend(KpiView.OnTarget, [ks[0]], [ks[1]]);
  }

  /** The number of `true` entries. */
  function Trues(flags: seq<bool>): nat {
    if flags == [] then 0 else (if flags[0] then 1 else 0) + Trues(flags[1..])
  }

  /** A count over a sequence whose elements pass `p` as `flags` says. */
  lemma {:induction false} CountByFlags<T(!new)>(p: T -> bool, s: seq<T>, flags: seq<bool>)
    requires |s| == |flags|
    requires forall i :: 0 <= i < |s| ==> p(s[i]) == flags[i]
    ensures Count(p, s) == Trues(flags)
  {
    if s != [] {
      FilterStep(p, s);
      CountByFlags(p, s[1..], flags[1..]);
    }
  }

  const SeedTaskCompleted: seq<bool> := [true, true, false, false]

  const DocumentIsGuide: seq<bool> := [false, false, false, true, true, true, false, true]

  /** Which mock tasks are completed. */
  lemma SeedTaskFlags(ts: seq<Task>)
    requires ts == SeedTasks()
    ensures |ts| == |SeedTaskCompleted|
    ensures forall i :: 0 <= i < |ts| ==> Dashboard.IsCompletedTask(ts[i]) == SeedTaskCompleted[i]
  {
  }

  /** Which documents are guides. */
  lemma DocumentFlags(ds: seq<DocumentsView.Document>)
    requires ds == DocumentsView.Documents()
    ensures |ds| == |DocumentIsGuide|
    ensures forall i :: 0 <= i < |ds| ==> DocumentsView.IsGuide(ds[i]) == DocumentIsGuide[i]
  {
  }

  /** The mock projects: all three active, with budgets 150000, 80000 and
      45000, and tasks only in the first. */
  lemma SeedProjectsShape(ps: seq<Project>)
    requires ps == SeedProjects()
    ensures |ps| == 3 && Dashboard.IsActive(ps[0]) && Dashboard.IsActive(ps[1]) && Dashboard.IsActive(ps[2])
    ensures ps[0].budget == 150000.0 && ps[1].budget == 80000.0 && ps[2].budget == 45000.0
    ensures ps[0].tasks == SeedTasks() && ps[1].tasks == [] && ps[2].tasks == []
  {
  }

  /** The summary of three active projects whose budgets and completed tasks
      are known. */
  lemma SummaryOfThree(ps: seq<Project>)
    requires |ps| == 3 && Dashboard.IsActive(ps[0]) && Dashboard.IsActive(ps[1]) && Dashboard.IsActive(ps[2])
    requires ps[0].budget == 150000.0 && ps[1].budget == 80000.0 && ps[2].budget == 45000.0
    requires |ps[0].tasks| == |SeedTaskCompleted|
    requires forall i :: 0 <= i < |ps[0].tasks| ==> Dashboard.IsCompletedTask(ps[0].tasks[i]) == SeedTaskCompleted[i]
    requires ps[1].tasks == [] && ps[2].tasks == []
    ensures Dashboard.Summarize(ps) == Dashboard.Summary(3, 3, 275000.0, 2)
  {
    CountByFlags(Dashboard.IsActive, ps, [true, true, true]);
    CountByFlags(Dashboard.IsCompletedTask, ps[0].tasks, SeedTaskCompleted);
    assert Dashboard.CompletedIn(ps[0]) == 2;
    assert Dashboard.CompletedIn(ps[1]) == 0 && Dashboard.CompletedIn(ps[2]) == 0;
    SumsOfThree(ps);
  }

  /** The budget and completed-task sums of three projects, term by term. */
  lemma SumsOfThree(ps: seq<Project>)
    requires |ps| == 3
    ensures Dashboard.BudgetSum(ps) == ps[0].budget + ps[1].budget + ps[2].budget
    ensures Dashboard.CompletedSum(ps) ==
      Dashboard.CompletedIn(ps[0]) + Dashboard.CompletedIn(ps[1]) + Dashboard.CompletedIn(ps[2])
  {
    var rest := ps[1..];
    var last := rest[1..];
    assert last[1..] == [];
    assert Dashboard.BudgetSum(last) == ps[2].budget;
    assert Dashboard.CompletedSum(last) == Dashboard.CompletedIn(ps[2]);
  }

  /** The dashboard cards for the three mock projects: three projects, all
      active, a budget of 275000 and two completed tasks. */
  lemma SeedDashboard(ps: seq<Project>)
    requires ps == SeedProjects()
    ensures Dashboard.Summarize(ps) == Dashboard.Summary(3, 3, 275000.0, 2)
  {
    SeedProjectsShape(ps);
    SeedTaskFlags(ps[0].tasks);
    SummaryOfThree(ps);
  }

  /** The summary of eight documents that are guides as `DocumentIsGuide`
      says. */
  lemma SummaryOfEight(ds: seq<DocumentsView.Document>)
    requires |ds| == |DocumentIsGuide|
    requires forall i :: 0 <= i < |ds| ==> DocumentsView.IsGuide(ds[i]) == DocumentIsGuide[i]
    ensures DocumentsView.Summary(ds) == DocumentsView.SummaryCards(8, 4, 4)
  {
    CountByFlags(DocumentsView.IsGuide, ds, DocumentIsGuide);
  }

  /** The document summary cards: eight documents, four guides and four
      technical ones. */
  lemma SeedDocumentCards(ds: seq<DocumentsView.Document>)
    requires ds == DocumentsView.Documents()
    ensures DocumentsView.Summary(ds) == DocumentsView.SummaryCards(8, 4, 4)
  {
    DocumentFlags(ds);
    SummaryOfEight(ds);
  }
}
