/** The KPI view: the status classifier (`getKPIStatus`), the clamped progress
    percentage of each card, the "KPIs en Meta" count and the shortened label
    of the comparison chart. KPI values are JavaScript numbers, modelled as
    exact reals; a division by a zero target follows IEEE 754. */
module KpiView {
  import opened Text
  import opened Seqs
  import opened Records
  import opened Arith

  datatype KpiStatus = Excellent | Good | Warning | Critical

  /** The one KPI that is judged by its bug count instead of a percentage. */
  const BugKpiName: string := "Bugs críticos abiertos"

  /** A JavaScript number result: a finite value, an infinity or NaN. */
  datatype Number = Finite(v: real) | PosInf | NegInf | NaN

  /** `current / target * 100` as JavaScript evaluates it, with a zero target
      giving an infinity or NaN (`0 / 0`). */
  function Percentage(current: real, target: real): (r: Number)
    ensures target != 0.0 ==> r.Finite?
    ensures target == 0.0 ==> (r == PosInf <==> current > 0.0) && (r == NaN <==> current == 0.0)
  {
    if target != 0.0 then Finite((current / target) * 100.0)
    else if current > 0.0 then PosInf
    else if current < 0.0 then NegInf
    else NaN
  }

  /** `n >= bound`; every comparison with NaN is false. */
  predicate AtLeast(n: Number, bound: real) {
    match n
    case Finite(v) => v >= bound
    case PosInf => true
    case NegInf => false
    case NaN => false
  }

  /** `current / target * 100 >= bound`, stated without the division. */
  predicate Reaches(current: real, target: real, bound: real) {
    if target > 0.0 then 100.0 * current >= bound * target
    else if target < 0.0 then 100.0 * current <= bound * target
    else current > 0.0
  }

  lemma AtLeastIffReaches(current: real, target: real, bound: real)
    ensures AtLeast(Percentage(current, target), bound) <==> Reaches(current, target, bound)
  {
    if target > 0.0 {
      PercentAtLeast(current, target, bound);
    } else if target < 0.0 {
      PercentAtLeastNegative(current, target, bound);
    }
  }

  /** `getKPIStatus`. The bug KPI is excellent at zero bugs, good up to its
      target and a warning above it, never critical. Every other KPI is
      classified by the 90 / 70 / 50 percent thresholds of `current / target`. */
  function Status(k: Kpi): (s: KpiStatus)
    ensures k.name == BugKpiName ==>
      && s != Critical
      && (s == Excellent <==> k.current == 0.0)
      && (s == Good <==> k.current != 0.0 && k.current <= k.target)
    ensures k.name != BugKpiName ==>
      && (s == Excellent <==> Reaches(k.current, k.target, 90.0))
      && (s == Good <==> Reaches(k.current, k.target, 70.0) && !Reaches(k.current, k.target, 90.0))
      && (s == Warning <==> Reaches(k.current, k.target, 50.0) && !Reaches(k.current, k.target, 70.0))
      && (s == Critical <==> !Reaches(k.current, k.target, 50.0))
  {
    AtLeastIffReaches(k.current, k.target, 90.0);
    AtLeastIffReaches(k.current, k.target, 70.0);
    AtLeastIffReaches(k.current, k.target, 50.0);
    if k.name == BugKpiName then
      if k.current == 0.0 then Excellent
      else if k.current <= k.target then Good
      else Warning
    else
      var percentage := Percentage(k.current, k.target);
      if AtLeast(percentage, 90.0) then Excellent
      else if AtLeast(percentage, 70.0) then Good
      else if AtLeast(percentage, 50.0) then Warning
      else Critical
  }

  lemma QuotientTimes(c: real, t: real)
    ensures t != 0.0 ==> (c / t) * t == c
  {
  }

  /** Statuses from worst (0) to best (3). */
  function Rank(s: KpiStatus): nat {
    match s
    case Critical => 0
    case Warning => 1
    case Good => 2
    case Excellent => 3
  }

  /** For a percentage KPI with a non-negative target, a higher current value
      never gives a worse status. */
  lemma StatusMonotone(k: Kpi, higher: real)
    requires k.name != BugKpiName && k.target >= 0.0 && k.current <= higher
    ensures Rank(Status(k)) <= Rank(Status(k.(current := higher)))
  {
    var k2 := k.(current := higher);
    if k.target > 0.0 {
      assert 100.0 * k.current <= 100.0 * higher;
    }
    assert Reaches(k.current, k.target, 90.0) ==> Reaches(higher, k.target, 90.0);
    assert Reaches(k.current, k.target, 70.0) ==> Reaches(higher, k.target, 70.0);
    assert Reaches(k.current, k.target, 50.0) ==> Reaches(higher, k.target, 50.0);
  }

  /** For the bug KPI, more open bugs never give a better status. */
  lemma BugStatusAntitone(k: Kpi, higher: real)
    requires k.name == BugKpiName && 0.0 <= k.current <= higher
    ensures Rank(Status(k.(current := higher))) <= Rank(Status(k))
  {
  }

  /** The card's progress value `Math.min(current / target * 100, 100)`;
      `Math.min` returns NaN for NaN and the finite bound for +Infinity. */
  function BarPercent(k: Kpi): (r: Number)
    ensures k.target > 0.0 && k.current >= 0.0 ==>
      && r.Finite? && 0.0 <= r.v <= 100.0
      && (r.v == 100.0 <==> k.current >= k.target)
      && (k.current < k.target ==> r.v * k.target == 100.0 * k.current)
    ensures k.target == 0.0 ==>
      && (k.current > 0.0 ==> r == Finite(100.0))
      && (k.current == 0.0 ==> r == NaN)
  {
    AtLeastIffReaches(k.current, k.target, 100.0);
    AtLeastIffReaches(k.current, k.target, 0.0);
    QuotientTimes(k.current, k.target);
    match Percentage(k.current, k.target)
    case Finite(v) => Finite(if v <= 100.0 then v else 100.0)
    case PosInf => Finite(100.0)
    case NegInf => NegInf
    case NaN => NaN
  }

  /** A percentage KPI with a positive target is excellent exactly when its
      progress bar reaches 90. */
  lemma ExcellentIffBarAtNinety(k: Kpi)
    requires k.name != BugKpiName && k.target > 0.0 && k.current >= 0.0
    ensures Status(k) == Excellent <==> BarPercent(k).v >= 90.0
  {
    AtLeastIffReaches(k.current, k.target, 90.0);
    AtLeastIffReaches(k.current, k.target, 100.0);
  }

  predicate OnTarget(k: Kpi) {
    Status(k) == Excellent || Status(k) == Good
  }

  predicate IsExcellent(k: Kpi) {
    Status(k) == Excellent
  }

  predicate IsGood(k: Kpi) {
    Status(k) == Good
  }

  /** The "KPIs en Meta" figure: how many KPIs are excellent or good. */
  function OnTargetCount(kpis: seq<Kpi>): (n: nat)
    ensures n <= |kpis|
    ensures n == |kpis| <==> forall i :: 0 <= i < |kpis| ==> OnTarget(kpis[i])
    ensures n == 0 <==> forall i :: 0 <= i < |kpis| ==> !OnTarget(kpis[i])
  {
    FilterFullIff(OnTarget, kpis);
    FilterEmptyIff(OnTarget, kpis);
    Count(OnTarget, kpis)
  }

  /** The on-target count is the excellent count plus the good count. */
  lemma {:induction false} OnTargetSplits(kpis: seq<Kpi>)
    ensures OnTargetCount(kpis) == Count(IsExcellent, kpis) + Count(IsGood, kpis)
  {
    if kpis != [] {
      var k, rest := kpis[0], kpis[1..];
      assert kpis == [k] + rest;
      FilterAppend(OnTarget, [k], rest);
      FilterAppend(IsExcellent, [k], rest);
      FilterAppend(IsGood, [k], rest);
      OnTargetSplits(rest);
    }
  }

  /** The comparison chart's label `name.split(' ').slice(0, 2).join(' ')`. */
  function ChartLabel(name: string): string {
    var pieces := Split(name, ' ');
    Join(pieces[..if |pieces| < 2 then |pieces| else 2], ' ')
  }

  /** A name with at most one space is its own label; otherwise the label is
      the part of the name before its second space. */
  lemma ChartLabelFacts(name: string)
    ensures CountChar(name, ' ') <= 1 ==> ChartLabel(name) == name
    ensures CountChar(name, ' ') >= 2 ==>
      ChartLabel(name) + [' '] <= name && CountChar(ChartLabel(name), ' ') == 1
  {
    var pieces := Split(name, ' ');
    SplitJoin(name, ' ');
    if |pieces| >= 3 {
      TwoPiecesPrefix(pieces, ' ');
      CountCharAppend(pieces[0], [' '], ' ');
      CountCharAppend(pieces[0] + [' '], pieces[1], ' ');
    } else {
      assert pieces[..|pieces|] == pieces;
    }
  }

  /** Joining the first two of at least three pieces, then the separator,
      is a prefix of joining them all. */
  lemma TwoPiecesPrefix(parts: seq<string>, sep: char)
    requires |parts| >= 3
    ensures Join(parts[..2], sep) == parts[0] + [sep] + parts[1]
    ensures Join(parts[..2], sep) + [sep] <= Join(parts, sep)
  {
    assert parts[..2][1..] == [parts[1]];
    var tail := Join(parts[2..], sep);
    assert parts[1..][1..] == parts[2..];
    assert Join(parts[1..], sep) == parts[1] + [sep] + tail;
    assert Join(parts, sep) == (parts[0] + [sep] + parts[1] + [sep]) + tail;
  }
}
