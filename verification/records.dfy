/** The application's record types (`Project`, `TeamMember`, `Phase`,
    `Task`, `KPI`). JavaScript numbers are modelled as reals, date strings as
    civil dates. */
module Records {
  import opened Common
  import opened Calendar

  datatype Methodology = Scrum | Kanban | Cascada

  /** Status of a phase or of a task: 'pending' | 'in-progress' | 'completed'. */
  datatype Status = Pending | InProgress | Completed

  /** Task priority: 'Crítica' | 'Alta' | 'Media' | 'Baja'. */
  datatype Priority = Critica | Alta | Media | Baja

  datatype TeamMember = TeamMember(
    id: string,
    name: string,
    role: string,
    roleDescription: string,
    avatar: Option<string>)

  datatype Phase = Phase(
    id: string,
    name: string,
    startDate: CivilDate,
    endDate: CivilDate,
    status: Status)

  datatype Task = Task(
    id: string,
    name: string,
    description: string,
    priority: Priority,
    assignee: string,
    phaseId: string,
    status: Status,
    startDate: CivilDate,
    endDate: CivilDate,
    images: Option<seq<string>>)

  datatype Kpi = Kpi(
    id: string,
    name: string,
    target: real,
    current: real,
    unit: string,
    description: string)

  datatype Project = Project(
    id: string,
    name: string,
    description: string,
    endDate: CivilDate,
    budget: real,
    methodology: Methodology,
    progress: real,
    members: seq<TeamMember>,
    phases: seq<Phase>,
    tasks: seq<Task>,
    kpis: seq<Kpi>)

  /** No phase ends before it starts (the order the date pickers suggest
      through their `min` attributes; no handler enforces it). */
  predicate PhasesOrdered(phases: seq<Phase>) {
    forall i :: 0 <= i < |phases| ==> Day(phases[i].startDate) <= Day(phases[i].endDate)
  }
}
