/** The root component: the in-memory project list and the two-view
    navigation state (dashboard, or one project's detail). */
module App {
  import opened Common
  import opened Calendar
  import opened Records
  import Seqs

  datatype View = DashboardView | ProjectView

  /** `currentView` and `selectedProjectId`. */
  datatype NavState = NavState(view: View, selectedId: Option<string>)

  /** What the main area shows. */
  datatype Screen = DashboardScreen | DetailScreen(project: Project) | NoScreen

  const InitialNav: NavState := NavState(DashboardView, None)

  /** `handleProjectSelect(projectId)`. */
  function SelectProject(s: NavState, projectId: string): (r: NavState)
    ensures r.view == ProjectView && r.selectedId == Some(projectId)
    ensures NavInvariant(r)
  {
    NavState(ProjectView, Some(projectId))
  }

  /** `handleBackToDashboard()`. */
  function BackToDashboard(s: NavState): (r: NavState)
    ensures r == InitialNav && NavInvariant(r)
  {
    NavState(DashboardView, None)
  }

  /** The sidebar's `onNavigate(view)`: only 'dashboard' has an effect. */
  function Navigate(s: NavState, target: string): (r: NavState)
    ensures target == "dashboard" ==> r == InitialNav
    ensures target != "dashboard" ==> r == s
  {
    if target == "dashboard" then BackToDashboard(s) else s
  }

  predicate HasId(selectedId: Option<string>, p: Project) {
    selectedId == Some(p.id)
  }

  /** `projects.find(p => p.id === selectedProjectId)`. */
  function SelectedProject(projects: seq<Project>, s: NavState): (r: Option<Project>)
    ensures r.Some? ==> exists k :: 0 <= k < |projects| && projects[k] == r.value
                          && s.selectedId == Some(r.value.id)
                          && forall j :: 0 <= j < k ==> s.selectedId != Some(projects[j].id)
    ensures r.None? <==> forall j :: 0 <= j < |projects| ==> s.selectedId != Some(projects[j].id)
  {
    Seqs.Find(p => HasId(s.selectedId, p), projects)
  }

  /** The main area: the dashboard, the selected project's detail, or nothing
      when the selected id matches no project. */
  function CurrentScreen(projects: seq<Project>, s: NavState): (r: Screen)
    ensures r == DashboardScreen <==> s.view == DashboardView
    ensures r.DetailScreen? ==> r.project in projects && s.selectedId == Some(r.project.id)
    ensures r == NoScreen <==>
      s.view == ProjectView && forall j :: 0 <= j < |projects| ==> s.selectedId != Some(projects[j].id)
  {
    if s.view == DashboardView then DashboardScreen
    else
      var found := SelectedProject(projects, s);
      if found.Some? then DetailScreen(found.value) else
      assert s.view == ProjectView;
      NoScreen
  }

  /** In every state the application can reach, the dashboard is shown
      exactly when no project is selected. */
  predicate NavInvariant(s: NavState) {
    s.view == DashboardView <==> s.selectedId == None
  }

  lemma NavTransitionsKeepInvariant(s: NavState, projectId: string, target: string)
    requires NavInvariant(s)
    ensures NavInvariant(InitialNav)
    ensures NavInvariant(SelectProject(s, projectId))
    ensures NavInvariant(BackToDashboard(s))
    ensures NavInvariant(Navigate(s, target))
  {
  }

  /** Selecting a project shows the first project carrying that id, and
      nothing when no project carries it. */
  lemma SelectShowsFirstMatch(projects: seq<Project>, s: NavState, projectId: string, k: nat)
    requires k < |projects| && projects[k].id == projectId
    requires forall j :: 0 <= j < k ==> projects[j].id != projectId
    ensures CurrentScreen(projects, SelectProject(s, projectId)) == DetailScreen(projects[k])
  {
    var s' := SelectProject(s, projectId);
    var r := SelectedProject(projects, s');
    assert r.Some?;
    var k' :| 0 <= k' < |projects| && projects[k'] == r.value && s'.selectedId == Some(r.value.id)
              && forall j :: 0 <= j < k' ==> s'.selectedId != Some(projects[j].id);
    assert k' == k;
  }

  lemma SelectUnknownShowsNothing(projects: seq<Project>, s: NavState, projectId: string)
    requires forall j :: 0 <= j < |projects| ==> projects[j].id != projectId
    ensures CurrentScreen(projects, SelectProject(s, projectId)) == NoScreen
  {
  }

  /** Going back, directly or from the sidebar, always returns to the initial
      dashboard state; any other sidebar target changes nothing. */
  lemma BackReturnsToDashboard(projects: seq<Project>, s: NavState, target: string)
    ensures BackToDashboard(s) == InitialNav
    ensures CurrentScreen(projects, BackToDashboard(s)) == DashboardScreen
    ensures target == "dashboard" ==> Navigate(s, target) == InitialNav
    ensures target != "dashboard" ==> Navigate(s, target) == s
  {
  }

  // ---- The mock data held in the root component's state ----
  // Long texts are written as concatenations of short literals: the
  // verifier's cost for a literal grows with the square of its length.

  function SeedProjects(): seq<Project> {
    [SeedProject1(), SeedProject2(), SeedProject3()]
  }

  function SeedProject1(): Project {
    Project(
      "1", "Sistema de Gestión " + "Empresarial",
      "Desarrollo de un " + "sistema integral para " + "la gestión de " + "operaciones " + "empresariales",
      Date(2025, 12, 31), 150000.0, Scrum, 45.0,
      SeedMembers(), SeedPhases(), SeedTasks(), SeedKpis())
  }

  function SeedProject2(): Project {
    Project(
      "2", "Aplicación Móvil " + "E-commerce",
      "App móvil para " + "comercio electrónico " + "con pago integrado",
      Date(2026, 3, 30), 80000.0, Kanban, 15.0, [], [], [], [])
  }

  function SeedProject3(): Project {
    Project(
      "3", "Portal Web Corporativo",
      "Sitio web corporativo " + "con CMS personalizado",
      Date(2025, 8, 15), 45000.0, Cascada, 78.0, [], [], [], [])
  }

  /** The team of project 1. */
  function SeedMembers(): seq<TeamMember> {
    [ TeamMember("m1", "Ana García", "Product Owner",
        "Responsable de " + "definir y priorizar " + "el backlog del " + "producto", None),
      TeamMember("m2", "Carlos Mendoza", "Scrum Master",
        "Facilita el proceso " + "Scrum y elimina " + "impedimentos", None),
      TeamMember("m3", "Laura Martínez", "Desarrolladora Frontend",
        "Desarrollo de " + "interfaces de usuario", None),
      TeamMember("m4", "Pedro Sánchez", "Desarrollador Backend",
        "Desarrollo de API y " + "lógica de negocio", None) ]
  }

  /** The tasks of project 1. */
  function SeedTasks(): seq<Task> {
    [ Task("t1", "Diseño de " + "arquitectura del " + "sistema",
        "Definir la " + "arquitectura general " + "del sistema y " + "componentes " + "principales",
        Critica, "Pedro Sánchez", "p1", Completed, Date(2025, 1, 15), Date(2025, 2, 1), None),
      Task("t2", "Desarrollo del módulo " + "de autenticación",
        "Implementar sistema " + "de login, registro y " + "recuperación de " + "contraseña",
        Alta, "Pedro Sánchez", "p2", Completed, Date(2025, 3, 16), Date(2025, 4, 15), None),
      Task("t3", "Diseño de dashboard " + "principal",
        "Crear el diseño " + "responsive del " + "dashboard con widgets " + "principales",
        Alta, "Laura Martínez", "p2", InProgress, Date(2025, 4, 16), Date(2025, 5, 30), None),
      Task("t4", "Integración con API " + "de pagos",
        "Conectar el sistema " + "con pasarela de pagos " + "externa",
        Media, "Pedro Sánchez", "p2", Pending, Date(2025, 6, 1), Date(2025, 6, 30), None) ]
  }

  /** The phases of project 1. */
  function SeedPhases(): seq<Phase> {
    [ Phase("p1", "Análisis y Diseño", Date(2025, 1, 15), Date(2025, 3, 15), Completed),
      Phase("p2", "Desarrollo Sprint 1-3", Date(2025, 3, 16), Date(2025, 6, 30), InProgress),
      Phase("p3", "Desarrollo Sprint 4-6", Date(2025, 7, 1), Date(2025, 9, 30), Pending),
      Phase("p4", "Testing y QA", Date(2025, 10, 1), Date(2025, 11, 30), Pending),
      Phase("p5", "Despliegue", Date(2025, 12, 1), Date(2025, 12, 31), Pending) ]
  }

  /** The KPIs of project 1. */
  function SeedKpis(): seq<Kpi> {
    [ Kpi("k1", "Velocidad del equipo", 50.0, 45.0, "puntos/sprint",
        "Mide la cantidad de " + "puntos de historia " + "completados por sprint"),
      Kpi("k2", "Cobertura de pruebas", 80.0, 72.0, "%",
        "Porcentaje de código " + "cubierto por pruebas " + "unitarias"),
      Kpi("k3", "Bugs críticos abiertos", 0.0, 2.0, "bugs",
        "Número de bugs " + "críticos sin resolver"),
      Kpi("k4", "Satisfacción del cliente", 90.0, 88.0, "%",
        "Nivel de satisfacción " + "del Product Owner con " + "los entregables") ]
  }

  /** The phases of project 1 do not end before they start. */
  lemma SeedPhasesOrdered()
    ensures PhasesOrdered(SeedPhases())
  {
    var ph := SeedPhases();
    forall i | 0 <= i < |ph|
      ensures Day(ph[i].startDate) <= Day(ph[i].endDate)
    {
      assert MonthIndex(ph[i].startDate) <= MonthIndex(ph[i].endDate);
      assert ph[i].startDate.year == ph[i].endDate.year == 2025;
    }
  }

  /** The mock data has unique project ids and ordered phases, so it
      meets the timeline's preconditions. */
  lemma SeedDataWellFormed()
    ensures forall i, j :: 0 <= i < j < |SeedProjects()| ==> SeedProjects()[i].id != SeedProjects()[j].id
    ensures forall i :: 0 <= i < |SeedProjects()| ==> PhasesOrdered(SeedProjects()[i].phases)
    ensures SeedProjects()[0].phases == SeedPhases()
  {
    var ps := SeedProjects();
    assert |ps| == 3;
    assert ps[0].id == "1" && ps[1].id == "2" && ps[2].id == "3";
    SeedPhasesOrdered();
    assert ps[1].phases == [] && ps[2].phases == [];
  }
}
