/** The task list of a project: the case-insensitive text search combined with
    the priority filter, and the phase badge shown on each task. */
module TasksView {
  import opened Common
  import opened Text
  import opened Seqs
  import opened Records

  /** The priority select: 'all' or one priority. */
  datatype PriorityFilter = AllPriorities | Only(priority: Priority)

  /** The search term occurs, ignoring case, in the task's name or description. */
  predicate MatchesSearch(t: Task, term: string) {
    Contains(Lower(t.name), Lower(term)) || Contains(Lower(t.description), Lower(term))
  }

  predicate MatchesPriority(t: Task, filter: PriorityFilter) {
    filter == AllPriorities || t.priority == filter.priority
  }

  predicate Matches(t: Task, term: string, filter: PriorityFilter) {
    MatchesSearch(t, term) && MatchesPriority(t, filter)
  }

  /** The predicate handed to `filter`. */
  function Keep(term: string, filter: PriorityFilter): Task -> bool {
    t => Matches(t, term, filter)
  }

  /** `filteredTasks`: the tasks passing both the search and the priority
      filter, in their original order. */
  function FilteredTasks(tasks: seq<Task>, term: string, filter: PriorityFilter): (r: seq<Task>)
    ensures IsSubsequence(r, tasks)
    ensures forall i :: 0 <= i < |r| ==> MatchesSearch(r[i], term) && MatchesPriority(r[i], filter)
    ensures forall i :: 0 <= i < |tasks| && MatchesSearch(tasks[i], term) && MatchesPriority(tasks[i], filter)
              ==> tasks[i] in r
    ensures filter.Only? ==> forall i :: 0 <= i < |r| ==> r[i].priority == filter.priority
    ensures forall t :: multiset(r)[t]
              == if Matches(t, term, filter) then multiset(tasks)[t] else 0
  {
    FilterMultiplicity(Keep(term, filter), tasks);
    Filter(Keep(term, filter), tasks)
  }

  /** The initial view (empty search, all priorities) lists every task. */
  lemma EmptySearchKeepsAll(tasks: seq<Task>)
    ensures FilteredTasks(tasks, "", AllPriorities) == tasks
  {
    forall i | 0 <= i < |tasks| ensures Keep("", AllPriorities)(tasks[i]) {
      assert Lower("") == "";
      ContainsEmpty(Lower(tasks[i].name));
    }
    FilterKeepsAll(Keep("", AllPriorities), tasks);
  }

  /** Whatever the search term, the four single-priority lists together are
      exactly as long as the list for all priorities. */
  lemma PrioritiesPartition(tasks: seq<Task>, term: string)
    ensures |FilteredTasks(tasks, term, Only(Critica))| + |FilteredTasks(tasks, term, Only(Alta))|
          + |FilteredTasks(tasks, term, Only(Media))| + |FilteredTasks(tasks, term, Only(Baja))|
         == |FilteredTasks(tasks, term, AllPriorities)|
  {
    PriorityCounts(tasks, term);
  }

  /** The same count, on the bare filters. */
  lemma {:induction false} PriorityCounts(tasks: seq<Task>, term: string)
    ensures |Filter(Keep(term, Only(Critica)), tasks)| + |Filter(Keep(term, Only(Alta)), tasks)|
          + |Filter(Keep(term, Only(Media)), tasks)| + |Filter(Keep(term, Only(Baja)), tasks)|
         == |Filter(Keep(term, AllPriorities), tasks)|
  {
    if tasks != [] {
      PriorityCounts(tasks[1..], term);
      FilterStep(Keep(term, Only(Critica)), tasks);
      FilterStep(Keep(term, Only(Alta)), tasks);
      FilterStep(Keep(term, Only(Media)), tasks);
      FilterStep(Keep(term, Only(Baja)), tasks);
      FilterStep(Keep(term, AllPriorities), tasks);
    }
  }

  lemma OnlyImpliesAll(t: Task, term: string, p: Priority)
    ensures Keep(term, Only(p))(t) ==> Keep(term, AllPriorities)(t)
  {
  }

  /** Narrowing the priority never adds tasks: each single-priority list is
      the all-priorities list filtered once more. */
  lemma OnlyNarrowsAll(tasks: seq<Task>, term: string, p: Priority)
    ensures FilteredTasks(tasks, term, Only(p))
         == Filter(Keep(term, Only(p)), FilteredTasks(tasks, term, AllPriorities))
  {
    forall i | 0 <= i < |tasks|
      ensures Keep(term, Only(p))(tasks[i]) ==> Keep(term, AllPriorities)(tasks[i])
    {
      OnlyImpliesAll(tasks[i], term, p);
    }
    FilterNarrow(Keep(term, Only(p)), Keep(term, AllPriorities), tasks);
  }

  /** `project.phases.find(p => p.id === task.phaseId)`: the badge names the
      first phase carrying the task's phase id, and is absent when none does. */
  function PhaseBadge(phases: seq<Phase>, t: Task): (r: Option<Phase>)
    ensures r.None? <==> forall j :: 0 <= j < |phases| ==> phases[j].id != t.phaseId
    ensures r.Some? ==> exists k :: 0 <= k < |phases| && phases[k] == r.value && r.value.id == t.phaseId
                          && forall j :: 0 <= j < k ==> phases[j].id != t.phaseId
  {
    Find((p: Phase) => p.id == t.phaseId, phases)
  }
}
