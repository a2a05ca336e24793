/** The edit-project dialog: the form is loaded from the project, validated
    exactly like the create wizard's first step, and a valid submit emits an
    update of the five editable fields. */
module EditProject {
  import opened Common
  import opened Text
  import opened Calendar
  import opened Records
  import opened ProjectForm
  import CreateProject

  datatype EditState = EditState(form: Form, errors: map<Field, string>)

  const Initial: EditState := EditState(EmptyForm, map[])

  /** The `Partial<Project>` passed to `onEditProject`: exactly the editable
      fields. */
  datatype ProjectUpdate = ProjectUpdate(
    name: string,
    description: string,
    endDate: CivilDate,
    budget: real,
    methodology: Methodology)

  /** A handler's effect: next state, the `(projectId, updates)` emitted, and
      whether the dialog asks to close. */
  datatype Outcome = Outcome(state: EditState, update: Option<(string, ProjectUpdate)>, closes: bool)

  /** The effect run when the `project` prop changes: a present project is
      copied into the form (the budget is kept as a number, where the source
      stores `String(budget)`) and the errors are cleared; an absent one leaves
      the state alone. */
  function Load(s: EditState, project: Option<Project>): (r: EditState)
    ensures project.None? ==> r == s
    ensures project.Some? ==>
      && r.errors == map[]
      && r.form == Form(project.value.name, project.value.description, Some(project.value.endDate),
                        Some(project.value.budget), project.value.methodology)
  {
    match project
    case None => s
    case Some(p) => EditState(Form(p.name, p.description, Some(p.endDate), Some(p.budget), p.methodology), map[])
  }

  /** `handleSubmit`: nothing without a project; otherwise the create
      wizard's validation, and on success the trimmed update and a close. The
      form is not reset. */
  function Submit(s: EditState, project: Option<Project>): (o: Outcome)
    ensures project.None? ==> o == Outcome(s, None, false)
    ensures project.Some? && !ValidForm(s.form) ==>
      o == Outcome(s.(errors := Validate(s.form)), None, false)
    ensures project.Some? && ValidForm(s.form) ==>
      && o.state == s && o.closes && o.update.Some?
      && o.update.value.0 == project.value.id
      && o.update.value.1.name == Trim(s.form.name) && o.update.value.1.description == Trim(s.form.description)
      && Some(o.update.value.1.endDate) == s.form.endDate && Some(o.update.value.1.budget) == s.form.budget
      && o.update.value.1.methodology == s.form.methodology
  {
    ValidateEmptyIffValidForm(s.form);
    match project
    case None => Outcome(s, None, false)
    case Some(p) =>
      var errors := Validate(s.form);
      if errors != map[] then Outcome(s.(errors := errors), None, false)
      else
        var u := ProjectUpdate(Trim(s.form.name), Trim(s.form.description), s.form.endDate.value,
                               s.form.budget.value, s.form.methodology);
        Outcome(s, Some((p.id, u)), true)
  }

  /** `handleChange`. */
  function Change(s: EditState, e: Edit): (r: EditState)
    ensures r.form == Apply(s.form, e)
    ensures r.errors.Keys == s.errors.Keys - {FieldOf(e)}
    ensures forall field :: field in r.errors ==> r.errors[field] == s.errors[field]
    ensures ErrorsSound(s.form, s.errors) ==> ErrorsSound(r.form, r.errors)
  {
    var (f, errors) := HandleChange(s.form, s.errors, e);
    if ErrorsSound(s.form, s.errors) then
      HandleChangeKeepsSound(s.form, s.errors, e);
      EditState(f, errors)
    else EditState(f, errors)
  }

  /** `handleCancel`: close and clear the errors, keeping what was typed. */
  function Cancel(s: EditState): (o: Outcome)
    ensures o.state.form == s.form && o.state.errors == map[] && o.update.None? && o.closes
  {
    Outcome(s.(errors := map[]), None, true)
  }

  /** Applying the five-key `Partial<Project>` that `handleSubmit` builds:
      its keys replace those fields of the project and nothing else. The
      component that would apply it is outside the dialog. */
  function Merge(p: Project, u: ProjectUpdate): (r: Project)
    ensures r.id == p.id && r.progress == p.progress && r.members == p.members
    ensures r.phases == p.phases && r.tasks == p.tasks && r.kpis == p.kpis
    ensures r.name == u.name && r.description == u.description && r.endDate == u.endDate
    ensures r.budget == u.budget && r.methodology == u.methodology
  {
    p.(name := u.name, description := u.description, endDate := u.endDate,
       budget := u.budget, methodology := u.methodology)
  }

  /** The edit dialog rejects exactly the forms the create wizard's first
      step rejects, with the same errors. */
  lemma SameValidationAsCreate(s: EditState, p: Project, w: CreateProject.Wizard)
    requires CreateProject.Wf(w) && w.step == CreateProject.Details && w.form == s.form
    ensures !ValidForm(s.form) ==> Submit(s, Some(p)).state.errors == CreateProject.Submit(w).state.errors
    ensures Submit(s, Some(p)).update.Some? <==> CreateProject.Submit(w).state.step == CreateProject.Team
  {
  }

  /** Opening the dialog on a project and submitting it unchanged writes the
      project back as it was, when its name and description carry no
      surrounding whitespace and it passes validation. */
  lemma LoadSubmitRoundTrip(s: EditState, p: Project)
    requires Trim(p.name) == p.name != [] && Trim(p.description) == p.description != []
    requires p.budget > 0.0
    ensures var o := Submit(Load(s, Some(p)), Some(p));
      o.update.Some? && o.update.value.0 == p.id && Merge(p, o.update.value.1) == p
  {
    var f := Load(s, Some(p)).form;
    TrimEmptyIffBlank(p.name);
    TrimEmptyIffBlank(p.description);
    assert ValidForm(f);
  }
}
