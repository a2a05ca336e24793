/** Proleptic Gregorian civil dates and their day numbers.

    A date string such as "2025-01-15" is parsed by JavaScript as midnight UTC
    of that day, so every difference of two such dates is a whole number of
    days. The model therefore represents an instant by its day number: the
    number of days since 1970-01-01. */
module Calendar {

  datatype Date = Date(year: int, month: int, day: int)

  predicate IsLeapYear(y: int) {
    y % 4 == 0 && (y % 100 != 0 || y % 400 == 0)
  }

  function DaysInMonth(y: int, m: int): (n: int)
    requires 1 <= m <= 12
    ensures 28 <= n <= 31
  {
    if m == 2 then (if IsLeapYear(y) then 29 else 28)
    else if m == 4 || m == 6 || m == 9 || m == 11 then 30
    else 31
  }

  /** A calendar date that actually exists. */
  predicate Valid(d: Date) {
    1 <= d.month <= 12 && 1 <= d.day <= DaysInMonth(d.year, d.month)
  }

  /** The dates an `<input type="date">` or an ISO date literal can denote. */
  type CivilDate = d: Date | Valid(d) witness Date(1970, 1, 1)

  /** Number of leap years in [0, y) (negative when y < 0). */
  function LeapYearsBefore(y: int): int {
    (y + 3) / 4 - (y + 99) / 100 + (y + 399) / 400
  }

  function DaysBeforeYear(y: int): int {
    365 * y + LeapYearsBefore(y)
  }

  function DaysBeforeMonth(y: int, m: int): int
    requires 1 <= m <= 12
  {
    var common :=
      if m == 1 then 0 else if m == 2 then 31 else if m == 3 then 59
      else if m == 4 then 90 else if m == 5 then 120 else if m == 6 then 151
      else if m == 7 then 181 else if m == 8 then 212 else if m == 9 then 243
      else if m == 10 then 273 else if m == 11 then 304 else 334;
    if m > 2 && IsLeapYear(y) then common + 1 else common
  }

  /** Days from 0000-01-01 to 1970-01-01. */
  const EpochDays: int := 719528

  /** Days since 1970-01-01: the value `getTime() / 86400000` of the date
      parsed from its ISO string. */
  function Day(d: Date): int
    requires 1 <= d.month <= 12
  {
    DaysBeforeYear(d.year) + DaysBeforeMonth(d.year, d.month) + d.day - 1 - EpochDays
  }

  /** The months of all years numbered consecutively: 12 * year + month - 1. */
  function MonthIndex(d: Date): int {
    12 * d.year + d.month - 1
  }

  /** The first day of month number `k`. */
  function FirstOfMonth(k: int): (d: Date)
    ensures Valid(d) && d.day == 1 && MonthIndex(d) == k
  {
    Date(k / 12, k % 12 + 1, 1)
  }

  function FirstDay(k: int): int {
    Day(FirstOfMonth(k))
  }

  /** `setMonth(getMonth() + 1)` on a first-of-month date: the next month,
      rolling December over into January of the following year. */
  function NextMonth(d: Date): (r: Date)
    requires Valid(d) && d.day == 1
    ensures Valid(r) && r.day == 1
    ensures MonthIndex(r) == MonthIndex(d) + 1
  {
    if d.month == 12 then Date(d.year + 1, 1, 1) else Date(d.year, d.month + 1, 1)
  }

  lemma FirstOfMonthOf(d: Date)
    requires 1 <= d.month <= 12
    ensures FirstOfMonth(MonthIndex(d)) == Date(d.year, d.month, 1)
  {
    var k := MonthIndex(d);
    assert k == 12 * d.year + (d.month - 1);
    assert k / 12 == d.year && k % 12 == d.month - 1;
  }

  lemma NextMonthIsFirstOfNext(k: int)
    ensures NextMonth(FirstOfMonth(k)) == FirstOfMonth(k + 1)
  {
    FirstOfMonthOf(NextMonth(FirstOfMonth(k)));
  }

  lemma LeapYearsStep(y: int)
    ensures LeapYearsBefore(y + 1) == LeapYearsBefore(y) + (if IsLeapYear(y) then 1 else 0)
  {
    DivStep4(y);
    DivStep100(y);
    DivStep400(y);
    if y % 100 == 0 {
      Mult100IsMult4(y);
    }
    if y % 400 == 0 {
      Mult400IsMult100(y);
    }
  }

  lemma Mult100IsMult4(y: int)
    requires y % 100 == 0
    ensures y % 4 == 0
  {
    var q := y / 100;
    assert y == 4 * (25 * q);
  }

  lemma Mult400IsMult100(y: int)
    requires y % 400 == 0
    ensures y % 100 == 0
  {
    var q := y / 400;
    assert y == 100 * (4 * q);
  }

  /** `(y + n - 1) / n` grows by one exactly when `y` is a multiple of `n`. */
  lemma DivStep4(y: int)
    ensures (y + 4) / 4 == (y + 3) / 4 + (if y % 4 == 0 then 1 else 0)
  {
  }

  lemma DivStep100(y: int)
    ensures (y + 100) / 100 == (y + 99) / 100 + (if y % 100 == 0 then 1 else 0)
  {
  }

  lemma DivStep400(y: int)
    ensures (y + 400) / 400 == (y + 399) / 400 + (if y % 400 == 0 then 1 else 0)
  {
  }

  /** Consecutive first-of-month days are exactly one month length apart. */
  lemma FirstDayStep(k: int)
    ensures FirstDay(k + 1) == FirstDay(k) + DaysInMonth(k / 12, k % 12 + 1)
  {
    var y, m := k / 12, k % 12 + 1;
    if m == 12 {
      assert (k + 1) / 12 == y + 1 && (k + 1) % 12 == 0;
      LeapYearsStep(y);
    } else {
      assert (k + 1) / 12 == y && (k + 1) % 12 + 1 == m + 1;
    }
  }

  /** A function that grows by at least 28 at every step grows by at least
      28 per step over any distance. */
  lemma {:induction false} StepsAccumulate(f: int -> int, j: int, k: int)
    requires forall i :: f(i) + 28 <= f(i + 1)
    requires j <= k
    ensures f(j) + 28 * (k - j) <= f(k)
    decreases k - j
  {
    if j < k {
      StepsAccumulate(f, j, k - 1);
      assert f(k - 1) + 28 <= f(k);
    }
  }

  /** Month starts are at least 28 days apart per month. */
  lemma FirstDayMonotone(j: int, k: int)
    requires j <= k
    ensures FirstDay(j) + 28 * (k - j) <= FirstDay(k)
  {
    forall i ensures FirstDay(i) + 28 <= FirstDay(i + 1) {
      FirstDayStep(i);
    }
    StepsAccumulate(FirstDay, j, k);
  }

  /** A valid date lies within its own month. */
  lemma WithinMonth(d: Date)
    requires Valid(d)
    ensures FirstDay(MonthIndex(d)) <= Day(d) < FirstDay(MonthIndex(d) + 1)
    ensures Day(d) == FirstDay(MonthIndex(d)) + d.day - 1
  {
    var k := MonthIndex(d);
    FirstOfMonthOf(d);
    FirstDayStep(k);
    assert k / 12 == d.year && k % 12 + 1 == d.month;
  }

  /** The first of a date's month is a valid date on or before it. */
  lemma FirstOfOwnMonth(d: Date)
    requires Valid(d)
    ensures Valid(Date(d.year, d.month, 1)) && Day(Date(d.year, d.month, 1)) <= Day(d)
  {
    WithinMonth(d);
    FirstOfMonthOf(d);
  }

  /** The month after a date's month starts after the date. */
  lemma NextMonthStartsAfter(k: int, d: Date)
    requires Valid(d) && k == MonthIndex(d)
    ensures Day(d) < Day(NextMonth(FirstOfMonth(k)))
  {
    NextMonthIsFirstOfNext(k);
    WithinMonth(d);
  }

  /** Day numbers and month indices are ordered alike: a first of month is on
      or before a valid date exactly when its month is not later. */
  lemma FirstDayBefore(k: int, d: Date)
    requires Valid(d)
    ensures FirstDay(k) <= Day(d) <==> k <= MonthIndex(d)
  {
    WithinMonth(d);
    if k <= MonthIndex(d) {
      FirstDayMonotone(k, MonthIndex(d));
    } else {
      FirstDayMonotone(MonthIndex(d) + 1, k);
    }
  }

  lemma MonthIndexMonotone(a: Date, b: Date)
    requires Valid(a) && Valid(b) && Day(a) <= Day(b)
    ensures MonthIndex(a) <= MonthIndex(b)
  {
    WithinMonth(a);
    FirstDayBefore(MonthIndex(a), b);
  }

  /** Distinct valid dates have distinct day numbers. */
  lemma DayInjective(a: Date, b: Date)
    requires Valid(a) && Valid(b) && Day(a) == Day(b)
    ensures a == b
  {
    MonthIndexMonotone(a, b);
    MonthIndexMonotone(b, a);
    WithinMonth(a);
    WithinMonth(b);
    FirstOfMonthOf(a);
    FirstOfMonthOf(b);
  }

  lemma EpochIsDayZero()
    ensures Day(Date(1970, 1, 1)) == 0
  {
  }
}
