/** The dashboard's summary cards (project count, active projects, total
    budget, completed tasks) and the member avatar strip of each project card. */
module Dashboard {
  import opened Common
  import opened Seqs
  import opened Records

  /** A project counts as active while its progress is strictly between 0 and 100. */
  predicate IsActive(p: Project) {
    0.0 < p.progress < 100.0
  }

  predicate IsCompletedTask(t: Task) {
    t.status == Completed
  }

  // ---- Reference sums, recursing from the front ----

  function BudgetSum(ps: seq<Project>): real {
    if ps == [] then 0.0 else ps[0].budget + BudgetSum(ps[1..])
  }

  function CompletedIn(p: Project): nat {
    Count(IsCompletedTask, p.tasks)
  }

  function CompletedSum(ps: seq<Project>): nat {
    if ps == [] then 0 else CompletedIn(ps[0]) + CompletedSum(ps[1..])
  }

  lemma {:induction false} BudgetSumAppend(a: seq<Project>, b: seq<Project>)
    ensures BudgetSum(a + b) == BudgetSum(a) + BudgetSum(b)
  {
    if a == [] {
      assert a + b == b;
    } else {
      assert (a + b)[1..] == a[1..] + b;
      BudgetSumAppend(a[1..], b);
    }
  }

  lemma {:induction false} CompletedSumAppend(a: seq<Project>, b: seq<Project>)
    ensures CompletedSum(a + b) == CompletedSum(a) + CompletedSum(b)
  {
    if a == [] {
      assert a + b == b;
    } else {
      assert (a + b)[1..] == a[1..] + b;
      CompletedSumAppend(a[1..], b);
    }
  }

  // ---- The source's `reduce` folds ----

  /** `projects.reduce((sum, p) => sum + p.budget, acc)`: a left fold. */
  function ReduceBudget(acc: real, ps: seq<Project>): (r: real)
    ensures r == acc + BudgetSum(ps)
    decreases ps
  {
    if ps == [] then acc
    else ReduceBudget(acc + ps[0].budget, ps[1..])
  }

  /** `projects.reduce((sum, p) => sum + <completed tasks of p>, acc)`. */
  function ReduceCompleted(acc: nat, ps: seq<Project>): (r: nat)
    ensures r == acc + CompletedSum(ps)
    decreases ps
  {
    if ps == [] then acc
    else ReduceCompleted(acc + CompletedIn(ps[0]), ps[1..])
  }

  /** The four summary cards. */
  datatype Summary = Summary(totalProjects: nat, activeProjects: nat, totalBudget: real, completedTasks: nat)

  function Summarize(projects: seq<Project>): (s: Summary)
    ensures s.totalProjects == |projects|
    ensures s.activeProjects <= s.totalProjects
    ensures s.totalBudget == BudgetSum(projects)
    ensures s.completedTasks == CompletedSum(projects)
  {
    Summary(|projects|, Count(IsActive, projects), ReduceBudget(0.0, projects), ReduceCompleted(0, projects))
  }

  /** Adding a project raises the count by one, the budget by exactly its
      budget and the completed tasks by exactly its completed tasks; the active
      count rises by one exactly when the new project is active. */
  lemma SummaryAppend(projects: seq<Project>, p: Project)
    ensures var before, after := Summarize(projects), Summarize(projects + [p]);
      && after.totalProjects == before.totalProjects + 1
      && after.activeProjects == before.activeProjects + (if IsActive(p) then 1 else 0)
      && after.totalBudget == before.totalBudget + p.budget
      && after.completedTasks == before.completedTasks + CompletedIn(p)
  {
    CountAppend(IsActive, projects, [p]);
    BudgetSumAppend(projects, [p]);
    CompletedSumAppend(projects, [p]);
    assert [p][1..] == [];
  }

  /** The cards of two lists put together are the sums of their cards. */
  lemma SummaryConcat(a: seq<Project>, b: seq<Project>)
    ensures var sa, sb, s := Summarize(a), Summarize(b), Summarize(a + b);
      && s.totalProjects == sa.totalProjects + sb.totalProjects
      && s.activeProjects == sa.activeProjects + sb.activeProjects
      && s.totalBudget == sa.totalBudget + sb.totalBudget
      && s.completedTasks == sa.completedTasks + sb.completedTasks
  {
    CountAppend(IsActive, a, b);
    BudgetSumAppend(a, b);
    CompletedSumAppend(a, b);
  }

  /** The avatar strip: the first up-to-three members, and a `+n` badge for
      the rest when there are more than three. */
  datatype Avatars = Avatars(shown: seq<TeamMember>, overflow: Option<nat>)

  function AvatarStrip(members: seq<TeamMember>): (a: Avatars)
    ensures |a.shown| == if |members| < 3 then |members| else 3
    ensures a.shown <= members
    ensures a.overflow.Some? <==> |members| > 3
    ensures |a.shown| + a.overflow.GetOr(0) == |members|
  {
    var shown := if |members| < 3 then members else members[..3];
    Avatars(shown, if |members| > 3 then Some(|members| - 3) else None)
  }
}
