# Project dashboard core, modelled in Dafny

A model of the logic inside a React project-management dashboard that has
no backend. The dashboard keeps a list of projects in memory. Each project
has team members, phases, tasks and KPIs. The views and dialogs compute the
following from that list:

- the Gantt timeline: the date range, the month header, the bar of each
  phase and the "today" marker;
- the KPI cards: the status classifier, the clamped progress bar, the
  "KPIs en Meta" count and the chart labels;
- the dashboard's summary cards and the avatar strip;
- the task search with its priority filter, and each task's phase badge;
- the document search, the technical and guide tabs, and the summary cards;
- the create-project wizard (two steps, member and phase drafts, ids
  `m1..` and `p1..`);
- the create-task, create-KPI and edit-project forms;
- the delete guard (progress below 20%);
- the two-view navigation of the root component.

Each handler is a pure function from state to state. A handler's calls to
its parent (`onCreateProject`, `onEditProject`, `onDeleteProject`,
`onOpenChange`, ...) become fields of an `Outcome` value. Dates are civil
dates `Date(year, month, day)`. `Day` turns a date into its number of days
since 1970-01-01, the value JavaScript gives an ISO date string parsed at
midnight UTC. JavaScript numbers are modelled as reals. The one division by
zero the source reaches on purpose (the KPI named "Bugs críticos abiertos"
has target 0) follows IEEE 754 through the `KpiView.Number` type.

Modules:

- `Common`, `Text`, `Seqs`, `Calendar`, `Arith`: the options, strings,
  sequence operations (`filter`, `find`, removal by index), dates and real
  arithmetic facts the components rely on.
- `Records`: the record types of `App.tsx`.
- `App`: the navigation state and the mock data.
- `Gantt`, `KpiView`, `Dashboard`, `TasksView`, `DocumentsView`: the views.
- `ProjectForm`: the project form shared by the create and edit dialogs.
- `CreateProject`, `CreateTask`, `CreateKpi`, `EditProject`,
  `DeleteProject`: the dialogs.
- `SeedFacts`: what the views show for the mock data.

Two inputs the code does not handle, and what the model does with them:

- With an empty phase list the code computes `Math.min()` of nothing, which
  is an invalid date. It does not signal an error, so `Gantt.GanttData`
  returns `None` there.
- With a zero-day range the code divides by `totalDays` without a guard. It
  has no fallback width, so `Gantt.PhasePosition` requires `totalDays > 0`.

## Model

| member | source | states |
|---|---|---|
| Gantt.AllDates | src/components/GanttView.tsx:11-14 | the date list holds every phase start followed by every phase end, 2n dates for n phases |
| Gantt.Earliest | src/components/GanttView.tsx:16 | the minimum is one of the dates and no date lies before it |
| Gantt.Latest | src/components/GanttView.tsx:17 | the maximum is one of the dates and no date lies after it |
| Gantt.GanttData | src/components/GanttView.tsx:9-31 | no timeline exists exactly for an empty phase list; otherwise minDate and maxDate are phase dates, totalDays = maxDate - minDate >= 0, and the header has one month per calendar month from minDate's through maxDate's |
| Gantt.RangeBounds | src/components/GanttView.tsx:11-17 | every phase's start and end date lies between minDate and maxDate |
| Gantt.MonthsFrom | src/components/GanttView.tsx:20-25 | the header loop yields the firsts of consecutive month numbers, as many as there are months from the starting month through maxDate's month |
| Gantt.MonthsFromSteps | src/components/GanttView.tsx:22-24 | each header month is exactly one calendar month after the previous one |
| Gantt.MonthsFromCovers | src/components/GanttView.tsx:22-25 | every header month starts on or before maxDate, and the month after the last one starts after maxDate |
| Gantt.MonthsExact | src/components/GanttView.tsx:21-25 | the header starts on the 1st of minDate's month, advances one month at a time with December rolling into January, never passes maxDate and stops only when the next month would |
| Gantt.MonthsAcrossNewYear | src/components/GanttView.tsx:21-25 | from 2025-11 to 2026-02-10 the header is 2025-11-01, 2025-12-01, 2026-01-01, 2026-02-01 |
| Gantt.TotalDaysZeroIff | src/components/GanttView.tsx:28 | the span is zero days exactly when every start and end date is the same day |
| Gantt.PercentFacts | src/components/GanttView.tsx:40-41 | day percentages add up, keep the order of day counts, are 0 only for 0 days and 100 only for the whole span |
| Gantt.BarFor | src/components/GanttView.tsx:37-43 | left * total = 100 * offset and width * total = 100 * duration; a bar inside the track has left >= 0 and width >= 0, ends at or before 100, starts at 0 exactly for offset 0 and ends at 100 exactly when it reaches the end of the track |
| Gantt.PhasePosition | src/components/GanttView.tsx:33-44 | left is (start - minDate) / totalDays * 100 and width is (end - start) / totalDays * 100, in whole days; for minDate <= start <= end <= maxDate the bar lies within [0, 100], left is 0 exactly when start is minDate, and left + width is 100 exactly when end is maxDate |
| Gantt.FullSpanFillsTrack | src/components/GanttView.tsx:37-41 | a phase from minDate to maxDate gets left 0 and width 100 |
| Gantt.Fraction | src/components/GanttView.tsx:114 | the result times span is 100 * x; it is negative, zero, 100 or above 100 exactly when x is negative, zero, equal to span or above span |
| Gantt.TodayPercent | src/components/GanttView.tsx:114 | the marker times (maxDate - minDate) is 100 * (now - minDate); it is unclamped: negative exactly before minDate, 0 at minDate, 100 at maxDate and above 100 exactly after maxDate |
| Gantt.TodayMonotone | src/components/GanttView.tsx:114 | a later now never puts the marker further left |
| KpiView.Percentage | src/components/KPIView.tsx:16 | with a non-zero target the percentage is finite; with target 0 it is +Infinity exactly for a positive current value and NaN exactly for 0 |
| KpiView.AtLeastIffReaches | src/components/KPIView.tsx:24-26 | comparing the percentage with a threshold is the same as comparing 100 * current with threshold * target, with the direction set by the target's sign |
| KpiView.Status | src/components/KPIView.tsx:15-28 | the bug KPI is excellent exactly at 0 bugs, good exactly for non-zero bugs up to its target, never critical; any other KPI is excellent, good, warning or critical exactly when it reaches 90%, 70% (not 90%), 50% (not 70%) or not 50% of its target |
| KpiView.StatusMonotone | src/components/KPIView.tsx:24-27 | for a non-bug KPI with target >= 0, raising the current value never gives a worse status |
| KpiView.BugStatusAntitone | src/components/KPIView.tsx:18-22 | for the bug KPI, more open bugs never give a better status |
| KpiView.BarPercent | src/components/KPIView.tsx:82 | with target > 0 and current >= 0 the bar is finite, within [0, 100], 100 exactly when current reaches target and otherwise proportional to current / target; with target 0 it is 100 for a positive current value and NaN for 0 |
| KpiView.ExcellentIffBarAtNinety | src/components/KPIView.tsx:15-28 | a percentage KPI with positive target is excellent exactly when its progress bar shows at least 90 |
| KpiView.OnTargetCount | src/components/KPIView.tsx:195-198 | the count is at most the number of KPIs, equals it exactly when every KPI is excellent or good, and is 0 exactly when none is |
| KpiView.OnTargetSplits | src/components/KPIView.tsx:195-198 | the on-target count is the number of excellent KPIs plus the number of good ones |
| KpiView.ChartLabelFacts | src/components/KPIView.tsx:155 | a name with at most one space is its own label; a name with two or more spaces is labelled by the part before its second space, which holds exactly one space |
| KpiView.ChartLabel | src/components/KPIView.tsx:155 | the chart label; its meaning is given by ChartLabelFacts (the whole name up to one space, otherwise the part before the second space) |
| Dashboard.ReduceBudget | src/components/Dashboard.tsx:16 | the left fold of budgets from an accumulator equals the accumulator plus the reference sum of budgets |
| Dashboard.ReduceCompleted | src/components/Dashboard.tsx:17-19 | the left fold of completed-task counts equals the accumulator plus the reference sum over projects |
| Dashboard.Summarize | src/components/Dashboard.tsx:14-19 | the cards show the number of projects, at most that many active ones, the sum of budgets and the number of completed tasks over all projects |
| Dashboard.SummaryAppend | src/components/Dashboard.tsx:14-19 | adding a project adds one project, its budget, its completed tasks, and one active project exactly when its progress is strictly between 0 and 100 |
| Dashboard.SummaryConcat | src/components/Dashboard.tsx:14-19 | the cards of two lists put together are the sums of their cards |
| Dashboard.AvatarStrip | src/components/Dashboard.tsx:149-167 | the strip shows the first min(3, n) members, has an overflow badge exactly when n > 3, and shown plus overflow is n |
| TasksView.FilteredTasks | src/components/TasksView.tsx:40-45 | the list is an order-preserving subsequence of the tasks; a task is in it exactly when it matches the search and the priority filter; a single-priority filter keeps only that priority; each matching task occurs as often as in the input and no other task occurs |
| TasksView.EmptySearchKeepsAll | src/components/TasksView.tsx:40-45 | an empty search with all priorities lists every task |
| TasksView.PrioritiesPartition | src/components/TasksView.tsx:40-45 | for any search term the four single-priority lists together are as long as the all-priorities list |
| TasksView.OnlyNarrowsAll | src/components/TasksView.tsx:43 | each single-priority list is the all-priorities list filtered once more by that priority |
| TasksView.PhaseBadge | src/components/TasksView.tsx:193 | the badge is the first phase with the task's phase id, and there is none exactly when no phase has that id |
| DocumentsView.FilteredDocuments | src/components/DocumentsView.tsx:88-91 | the matches are an order-preserving subsequence of the documents holding exactly the documents whose name or category contains the term, ignoring case, each as often as in the input |
| DocumentsView.DocumentTabs | src/components/DocumentsView.tsx:93-94 | the technical tab holds only technical documents and the guide tab only guides |
| DocumentsView.TabsPartition | src/components/DocumentsView.tsx:167-173 | every match is in exactly one of the two tabs, and the "all" count is the technical count plus the guide count |
| DocumentsView.EmptySearchKeepsAll | src/components/DocumentsView.tsx:88-91 | an empty term keeps every document |
| DocumentsView.Summary | src/components/DocumentsView.tsx:236-260 | the total card is the number of documents; the guide and technical cards are the sizes of the unsearched guide and technical tabs, and add up to the total |
| DocumentsView.TabsBoundedBySummary | src/components/DocumentsView.tsx:165-260 | the tab counts never exceed the summary cards, which do not depend on the search term |
| ProjectForm.ApplyWritesOnlyItsField | src/components/CreateProjectDialog.tsx:116-117 | an edit sets its own field to the new value, leaves every other field as it was, and writing a field's current value changes nothing |
| ProjectForm.Validate | src/components/CreateProjectDialog.tsx:47-63 | a field has an error exactly when it fails its check (blank name or description, no end date, missing or non-positive budget; methodology never), with the dialog's message |
| ProjectForm.FailsIffTrimEmpty | src/components/CreateProjectDialog.tsx:49-56 | the name and description checks fail exactly when `trim()` leaves the empty string |
| ProjectForm.NoFailureIffValid | src/components/CreateProjectDialog.tsx:47-63 | no field fails its check exactly when the form is valid |
| ProjectForm.ValidateEmptyIffValidForm | src/components/CreateProjectDialog.tsx:49-65 | there are no errors exactly when name and description hold a non-whitespace character, the end date is set and the budget is positive |
| ProjectForm.HandleChange | src/components/CreateProjectDialog.tsx:116-125 | the edited form applies the edit, and the errors keep every entry but the edited field's |
| ProjectForm.HandleChangeKeepsSound | src/components/CreateProjectDialog.tsx:116-125 | if every recorded error belongs to a failing field, that stays true after an edit |
| CreateProject.Submit | src/components/CreateProjectDialog.tsx:45-98 | on step 1 an invalid form records its errors and stays, a valid one moves to step 2 without emitting; on step 2 a project is emitted, the state resets and the dialog closes |
| CreateProject.SubmitEmitsProject | src/components/CreateProjectDialog.tsx:74-92 | the new project has the trimmed non-empty name, the trimmed description, the form's date, positive budget and methodology, progress 0, no tasks or KPIs, and as many members and phases as were added |
| CreateProject.SubmitNumbersEntries | src/components/CreateProjectDialog.tsx:81-89 | member i keeps its contents with id "m(i+1)", and phase i keeps its contents with id "p(i+1)" and status pending |
| CreateProject.SubmitIdsDistinct | src/components/CreateProjectDialog.tsx:81-89 | no two emitted members and no two emitted phases share an id |
| CreateProject.AddMember | src/components/CreateProjectDialog.tsx:127-132 | with name, role and description all non-blank the draft is appended once and cleared; otherwise nothing changes |
| CreateProject.AddPhase | src/components/CreateProjectDialog.tsx:138-143 | with a non-blank name and both dates set a pending phase is appended once and the draft cleared; otherwise nothing changes |
| CreateProject.AddPhaseAcceptsReversedDates | src/components/CreateProjectDialog.tsx:138-143 | a phase ending before it starts is appended |
| CreateProject.HandleChangeAt | src/components/CreateProjectDialog.tsx:116-125 | on step 1 the form takes the edit, the errors lose the edited field's entry with the others kept, and nothing else in the wizard changes |
| CreateProject.EditMemberDraft | src/components/CreateProjectDialog.tsx:283-297 | typing into the member inputs replaces the member draft and nothing else |
| CreateProject.EditPhaseDraft | src/components/CreateProjectDialog.tsx:346-366 | typing into the phase inputs replaces the phase draft and nothing else |
| CreateProject.RemoveMember | src/components/CreateProjectDialog.tsx:134-136 | a valid index removes that member, the members before it keep their positions and those after it move up one; an invalid index changes nothing; nothing else changes |
| CreateProject.RemovePhase | src/components/CreateProjectDialog.tsx:145-147 | the same for phases |
| CreateProject.Back | src/components/CreateProjectDialog.tsx:424-432 | "Anterior" returns to step 1 and changes nothing else |
| CreateProject.BackUndoesNext | src/components/CreateProjectDialog.tsx:66-71 | going from a valid step 1 to step 2 and back returns the same wizard state |
| Seqs.RemoveAt | src/components/CreateProjectDialog.tsx:134-136 | removing a valid index drops that entry only and keeps the others in order; an invalid index changes nothing |
| CreateProject.Cancel | src/components/CreateProjectDialog.tsx:100-114 | cancelling emits nothing, closes, and returns to step 1 with an empty form, methodology Scrum, no members, phases or errors |
| CreateProject.WfPreserved | src/components/CreateProjectDialog.tsx:45-152 | starting from the initial state, every handler keeps recorded errors on failing fields and reaches step 2 only with a valid form |
| CreateTask.Validate | src/components/CreateTaskDialog.tsx:42-66 | a field has an error exactly when it fails its check (blank name or description, no assignee, phase, start or end date), with the dialog's message |
| CreateTask.FailsIffTrimEmpty | src/components/CreateTaskDialog.tsx:44-51 | the name and description checks fail exactly when `trim()` leaves the empty string |
| CreateTask.NoFailureIffValid | src/components/CreateTaskDialog.tsx:42-66 | no field fails its check exactly when the six required fields are filled in |
| CreateTask.ValidateEmptyIffValidForm | src/components/CreateTaskDialog.tsx:42-71 | there are no errors exactly when the six required fields are filled in |
| CreateTask.Submit | src/components/CreateTaskDialog.tsx:38-91 | an invalid form records its errors and emits nothing; a valid one emits a task, resets the form and closes |
| CreateTask.SubmitEmitsTask | src/components/CreateTaskDialog.tsx:74-84 | the new task has trimmed name and description, the other fields as entered, and no images |
| CreateTask.SubmitAcceptsReversedDates | src/components/CreateTaskDialog.tsx:60-66 | a task ending before it starts is created |
| CreateTask.ChangeTouchesOnlyItsField | src/components/CreateTaskDialog.tsx:107-117 | an edit removes its own field's error; every other field keeps its check, whether it has an error and its error message |
| CreateTask.Change | src/components/CreateTaskDialog.tsx:107-117 | the form takes the edit and the errors lose the edited field's entry, every other entry kept with its message; ChangeTouchesOnlyItsField shows no other field's check moves |
| CreateTask.Cancel | src/components/CreateTaskDialog.tsx:93-122 | cancelling emits nothing, closes, and resets to priority Media, status pending, empty fields and no errors |
| CreateKpi.Validate | src/components/CreateKPIDialog.tsx:29-49 | a field has an error exactly when it fails its check (blank name, unit or description; target missing or <= 0; current missing or < 0), with the dialog's message |
| CreateKpi.FailsIffTrimEmpty | src/components/CreateKPIDialog.tsx:31-50 | the name, unit and description checks fail exactly when `trim()` leaves the empty string |
| CreateKpi.NoFailureIffValid | src/components/CreateKPIDialog.tsx:29-49 | no field fails its check exactly when the form is valid |
| CreateKpi.ValidateEmptyIffValidForm | src/components/CreateKPIDialog.tsx:29-54 | there are no errors exactly when the text fields are non-blank, the target is positive and the current value is non-negative |
| CreateKpi.ZeroCurrentAcceptedZeroTargetRejected | src/components/CreateKPIDialog.tsx:35-41 | a target of 0 fails its check while a current value of 0 passes |
| CreateKpi.Submit | src/components/CreateKPIDialog.tsx:26-68 | an invalid form records its errors and emits nothing; a valid one emits a KPI, resets the form and closes |
| CreateKpi.SubmitEmitsKpi | src/components/CreateKPIDialog.tsx:56-62 | the new KPI has trimmed non-empty name, unit and description, the entered positive target and the entered non-negative current value |
| CreateKpi.CreatedKpiBarInRange | src/components/CreateKPIDialog.tsx:56-62 | any KPI created through the dialog shows a finite progress bar within [0, 100] |
| CreateKpi.ChangeTouchesOnlyItsField | src/components/CreateKPIDialog.tsx:81-90 | an edit removes its own field's error; every other field keeps its check, whether it has an error and its error message |
| CreateKpi.Change | src/components/CreateKPIDialog.tsx:81-90 | the form takes the edit and the errors lose the edited field's entry, every other entry kept with its message; ChangeTouchesOnlyItsField shows no other field's check moves |
| CreateKpi.Cancel | src/components/CreateKPIDialog.tsx:70-95 | cancelling emits nothing, closes, and resets to the all-empty form with no errors |
| EditProject.Load | src/components/EditProjectDialog.tsx:29-40 | a present project is copied into the form and the errors cleared; an absent one leaves the state alone |
| EditProject.Change | src/components/EditProjectDialog.tsx:84-94 | the form takes the edit, the errors lose the edited field's entry with the others kept, and errors that belonged to failing fields still do |
| EditProject.Submit | src/components/EditProjectDialog.tsx:42-82 | without a project nothing happens; an invalid form records its errors; a valid one emits the project's id with the trimmed name and description and the entered date, budget and methodology, closes, and keeps the form |
| EditProject.SameValidationAsCreate | src/components/EditProjectDialog.tsx:48-69 | the edit dialog rejects exactly the forms step 1 of the create wizard rejects, with the same errors |
| EditProject.Merge | src/components/EditProjectDialog.tsx:72-80 | applying the update changes name, description, end date, budget and methodology and leaves id, progress, members, phases, tasks and KPIs as they were |
| EditProject.LoadSubmitRoundTrip | src/components/EditProjectDialog.tsx:29-80 | loading a valid project with trimmed name and description and submitting it unchanged writes the project back as it was |
| EditProject.Cancel | src/components/EditProjectDialog.tsx:96-99 | cancelling closes and clears the errors but keeps what was typed |
| DeleteProject.Render | src/components/DeleteProjectDialog.tsx:26-76 | nothing is rendered without a project; otherwise the delete action and the "¿Eliminar proyecto?" title appear exactly when progress is below 20 |
| DeleteProject.CanDelete | src/components/DeleteProjectDialog.tsx:28 | the deletion test, progress below 20; DeletionNeedsLowProgress shows it is the only way a project is deleted and that exactly 20 is refused |
| DeleteProject.HandleDelete | src/components/DeleteProjectDialog.tsx:28-35 | the project's id is sent for deletion, and the dialog closes, exactly when progress is below 20 |
| DeleteProject.DeletionNeedsLowProgress | src/components/DeleteProjectDialog.tsx:26-76 | a deletion needs a present project under 20% progress; a project at exactly 20% is neither offered nor deleted |
| App.SelectedProject | src/App.tsx:264 | the detail shows the first project with the selected id, and nothing exactly when no project has it |
| App.SelectProject | src/App.tsx:254-257 | selecting shows the project view for that id, a state in which the navigation invariant holds |
| App.BackToDashboard | src/App.tsx:259-262 | going back yields the initial dashboard state with nothing selected |
| App.Navigate | src/App.tsx:272-276 | the sidebar's 'dashboard' returns to the initial state; any other view name changes nothing |
| App.CurrentScreen | src/App.tsx:280-291 | the dashboard shows exactly in the dashboard view; a detail shows a listed project carrying the selected id; nothing shows exactly when the project view's id matches no project |
| App.NavTransitionsKeepInvariant | src/App.tsx:68-69 | from the initial state, every navigation keeps "dashboard shown exactly when nothing is selected" |
| App.SelectShowsFirstMatch | src/App.tsx:254-290 | selecting an id shows the first project carrying it |
| App.SelectUnknownShowsNothing | src/App.tsx:280-290 | selecting an id no project carries shows nothing in the main area |
| App.BackReturnsToDashboard | src/App.tsx:259-276 | going back, directly or from the sidebar, gives the initial dashboard state; any other sidebar target changes nothing |
| App.SeedDataWellFormed | src/App.tsx:73-252 | the mock projects have distinct ids, and every phase ends no earlier than it starts |
| SeedFacts.SeedTimeline | src/App.tsx:108-144 | project 1's timeline runs from 2025-01-15 to 2025-12-31: 350 days under twelve months |
| SeedFacts.SeedBarsTouchEdges | src/App.tsx:108-144 | on that timeline phase p1 starts at the left edge and phase p5 ends at the right edge |
| SeedFacts.SeedKpiCards | src/App.tsx:190-223 | three of project 1's four KPIs are on target; the bug KPI is a warning yet shows a full bar |
| SeedFacts.SeedDashboard | src/App.tsx:73-252 | the dashboard shows 3 projects, 3 active, a budget of 275000 and 2 completed tasks |
| SeedFacts.SeedDocumentCards | src/components/DocumentsView.tsx:21-86 | the document cards show 8 documents, 4 guides and 4 technical ones |

## Left out

- JSX layout, styling, icons, colour helpers (`getPhaseColor`, `getStatusColor`, ...), `Sidebar.tsx` rendering and the `Progress` wrapper in `ui/progress.tsx`: presentation only.
- `ProjectDetail.tsx`: tab composition; its `canDelete` is the same test as `DeleteProject.CanDelete`.
- The create-task form drawn inside `TasksView.tsx`: it has no handlers.
- The recharts charts and the `Math.random` day estimate of the KPI view: foreign library code and nondeterminism.
- JavaScript `Date` internals: the header's first month is built in local time (`new Date(y, m, 1)`) while ISO strings parse as UTC; the model uses one calendar and ignores time zones, daylight saving and milliseconds. `toLocaleDateString` formatting is left out.
- Wall-clock time: `Gantt.TodayPercent` takes `now` (in days) as a parameter.
- The HTML `min` attributes of the date inputs: browser behaviour, not enforced by any handler.
- `parseFloat` on arbitrary text: number inputs are `Option<real>` (empty or a number), so a text that parses to NaN is not modelled. Floating-point rounding is not modelled either; values are exact reals.
- `toLowerCase` beyond Latin letters: `Text.Lower` maps A-Z and the Latin-1 accented capitals only.
- The `String(project.budget)` round trip of the edit form: the budget is kept as a number.
- EditProject.Merge: no file of the source applies the `updates` object. `App.tsx` keeps `projects` in a state without a setter and mounts no edit dialog. `Merge` states what applying those five keys to a project means; the applying parent is not in the source.
- Member initials (`name[0]`) on the avatars: display only.
- React scheduling: each handler is one atomic transition, and the dialogs' `open` flag lives in the parent, so only the request to close is modelled.
- The parent handlers that assign ids to created projects, tasks and KPIs and store them: they are passed in by the parent and are not part of this model.
- Gantt.PhasePosition: requires totalDays > 0, because the source divides by it unguarded and has no fallback.
- Gantt.TodayPercent: requires minDate < maxDate for the same reason.
- Gantt.GanttData: an empty phase list gives `None` instead of the invalid date the source computes.
- CreateProject.HandleChangeAt: requires step 1, the only step where the form's inputs are shown.
- CreateProject.Submit: requires the wizard invariant `Wf`, which `CreateProject.WfPreserved` proves for every reachable state.
- KpiView.StatusMonotone: stated for targets >= 0 only; with a negative target a higher value gives a lower percentage.
