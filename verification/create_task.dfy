/** The create-task dialog: six required fields, one message per failing
    field, and on success a new task (without id) with an empty image list. */
module CreateTask {
  import opened Common
  import opened Text
  import opened Calendar
  import opened Records

  datatype Field = NameField | DescriptionField | PriorityField | AssigneeField
                 | PhaseField | StatusField | StartDateField | EndDateField

  datatype TaskForm = TaskForm(
    name: string,
    description: string,
    priority: Priority,
    assignee: string,
    phaseId: string,
    status: Status,
    startDate: Option<CivilDate>,
    endDate: Option<CivilDate>)

  /** `resetForm`'s values: priority 'Media', status 'pending', the rest empty. */
  const EmptyForm: TaskForm := TaskForm("", "", Media, "", "", Pending, None, None)

  datatype TaskState = TaskState(form: TaskForm, errors: map<Field, string>)

  const Initial: TaskState := TaskState(EmptyForm, map[])

  datatype Edit =
    | SetName(name: string)
    | SetDescription(description: string)
    | SetPriority(priority: Priority)
    | SetAssignee(assignee: string)
    | SetPhase(phaseId: string)
    | SetStatus(status: Status)
    | SetStartDate(startDate: Option<CivilDate>)
    | SetEndDate(endDate: Option<CivilDate>)

  function FieldOf(e: Edit): Field {
    match e
    case SetName(_) => NameField
    case SetDescription(_) => DescriptionField
    case SetPriority(_) => PriorityField
    case SetAssignee(_) => AssigneeField
    case SetPhase(_) => PhaseField
    case SetStatus(_) => StatusField
    case SetStartDate(_) => StartDateField
    case SetEndDate(_) => EndDateField
  }

  function Apply(f: TaskForm, e: Edit): TaskForm {
    match e
    case SetName(v) => f.(name := v)
    case SetDescription(v) => f.(description := v)
    case SetPriority(v) => f.(priority := v)
    case SetAssignee(v) => f.(assignee := v)
    case SetPhase(v) => f.(phaseId := v)
    case SetStatus(v) => f.(status := v)
    case SetStartDate(v) => f.(startDate := v)
    case SetEndDate(v) => f.(endDate := v)
  }

  /** A blank name or description (one that `trim()` empties, as
      `FailsIffTrimEmpty` shows), no assignee, no phase, or a
      missing date. Priority and status always hold a value. */
  predicate Fails(f: TaskForm, field: Field) {
    match field
    case NameField => IsBlank(f.name)
    case DescriptionField => IsBlank(f.description)
    case AssigneeField => f.assignee == ""
    case PhaseField => f.phaseId == ""
    case StartDateField => f.startDate.None?
    case EndDateField => f.endDate.None?
    case PriorityField => false
    case StatusField => false
  }

  function Message(field: Field): string
    requires field != PriorityField && field != StatusField
  {
    match field
    case NameField => "El nombre de la tarea es requerido"
    case DescriptionField => "La descripción es requerida"
    case AssigneeField => "Debe asignar la tarea a un miembro del equipo"
    case PhaseField => "Debe seleccionar una fase"
    case StartDateField => "La fecha de inicio es requerida"
    case EndDateField => "La fecha de finalización es requerida"
  }

  const AllFields: set<Field> :=
    {NameField, DescriptionField, PriorityField, AssigneeField, PhaseField, StatusField, StartDateField, EndDateField}

  lemma AllFieldsComplete()
    ensures forall field: Field :: field in AllFields
  {
    forall field: Field ensures field in AllFields {
      match field
      case NameField =>
      case DescriptionField =>
      case PriorityField =>
      case AssigneeField =>
      case PhaseField =>
      case StatusField =>
      case StartDateField =>
      case EndDateField =>
    }
  }

  function Validate(f: TaskForm): (errors: map<Field, string>)
    ensures forall field :: field in errors <==> Fails(f, field)
    ensures forall field :: field in errors ==>
      field != PriorityField && field != StatusField && errors[field] == Message(field)
  {
    AllFieldsComplete();
    map field | field in AllFields && Fails(f, field) :: Message(field)
  }

  /** The accepted forms, stated with whitespace instead of `trim`. */
  predicate ValidForm(f: TaskForm) {
    && !IsBlank(f.name) && !IsBlank(f.description) && f.assignee != "" && f.phaseId != ""
    && f.startDate.Some? && f.endDate.Some?
  }

  /** The text fields fail exactly when `trim()` leaves nothing of them. */
  lemma FailsIffTrimEmpty(f: TaskForm)
    ensures Fails(f, NameField) <==> Trim(f.name) == ""
    ensures Fails(f, DescriptionField) <==> Trim(f.description) == ""
  {
    TrimEmptyIffBlank(f.name);
    TrimEmptyIffBlank(f.description);
  }

  /** No field fails exactly when the form is valid. */
  lemma NoFailureIffValid(f: TaskForm)
    ensures (forall field :: !Fails(f, field)) <==> ValidForm(f)
  {
    if !ValidForm(f) {
      if IsBlank(f.name) {
        assert Fails(f, NameField);
      } else if IsBlank(f.description) {
        assert Fails(f, DescriptionField);
      } else if f.assignee == "" {
        assert Fails(f, AssigneeField);
      } else if f.phaseId == "" {
        assert Fails(f, PhaseField);
      } else if f.startDate.None? {
        assert Fails(f, StartDateField);
      } else {
        assert Fails(f, EndDateField);
      }
    }
  }

  lemma ValidateEmptyIffValidForm(f: TaskForm)
    ensures Validate(f) == map[] <==> ValidForm(f)
  {
    NoFailureIffValid(f);
    EmptyIffNoneFails(Validate(f), field => Fails(f, field));
  }


  /** `Omit<Task, 'id'>`: what `onCreateTask` receives. */
  datatype NewTask = NewTask(
    name: string,
    description: string,
    priority: Priority,
    assignee: string,
    phaseId: string,
    status: Status,
    startDate: CivilDate,
    endDate: CivilDate,
    images: seq<string>)

  datatype Outcome = Outcome(state: TaskState, created: Option<NewTask>, closes: bool)

  /** `handleSubmit`: an invalid form records one error per failing field; a
      valid one emits the task, resets the form and closes. */
  function Submit(s: TaskState): (o: Outcome)
    ensures !ValidForm(s.form) ==> o == Outcome(s.(errors := Validate(s.form)), None, false)
    ensures ValidForm(s.form) ==> o.state == Initial && o.closes && o.created.Some?
  {
    ValidateEmptyIffValidForm(s.form);
    var errors := Validate(s.form);
    if errors != map[] then Outcome(s.(errors := errors), None, false)
    else
      var f := s.form;
      Outcome(Initial, Some(NewTask(Trim(f.name), Trim(f.description), f.priority, f.assignee, f.phaseId,
                                    f.status, f.startDate.value, f.endDate.value, [])), true)
  }

  /** The emitted task: trimmed non-empty name and description, the other
      fields as entered, and no images. */
  lemma SubmitEmitsTask(s: TaskState)
    requires ValidForm(s.form)
    ensures var t := Submit(s).created.value;
      && t.name == Trim(s.form.name) && t.name != [] && t.description == Trim(s.form.description)
      && t.priority == s.form.priority && t.assignee == s.form.assignee && t.phaseId == s.form.phaseId
      && t.status == s.form.status
      && Some(t.startDate) == s.form.startDate && Some(t.endDate) == s.form.endDate
      && t.images == []
  {
    TrimEmptyIffBlank(s.form.name);
  }

  /** The start date is never compared with the end date: a task that ends
      before it starts is accepted. */
  lemma SubmitAcceptsReversedDates(s: TaskState)
    requires s.form == TaskForm("Deploy", "Release", Alta, "Ana", "p1", Pending,
                                Some(Date(2025, 6, 30)), Some(Date(2025, 6, 1)))
    ensures Submit(s).created.Some?
    ensures Day(Submit(s).created.value.endDate) < Day(Submit(s).created.value.startDate)
  {
    assert "Deploy"[0] == 'D' && "Release"[0] == 'R';
  }

  /** `handleChange`. */
  function Change(s: TaskState, e: Edit): (r: TaskState)
    ensures r.form == Apply(s.form, e)
    ensures r.errors.Keys == s.errors.Keys - {FieldOf(e)}
    ensures forall field :: field in r.errors ==> r.errors[field] == s.errors[field]
  {
    TaskState(Apply(s.form, e), s.errors - {FieldOf(e)})
  }

  /** An edit can only change the validity and the error of its own field. */
  lemma ChangeTouchesOnlyItsField(s: TaskState, e: Edit, other: Field)
    requires other != FieldOf(e)
    ensures Fails(Change(s, e).form, other) == Fails(s.form, other)
    ensures other in Change(s, e).errors <==> other in s.errors
    ensures other in s.errors ==> Change(s, e).errors[other] == s.errors[other]
    ensures FieldOf(e) !in Change(s, e).errors
  {
  }

  /** `handleCancel`: reset and close. */
  function Cancel(s: TaskState): (o: Outcome)
    ensures o.state == Initial && o.created.None? && o.closes
  {
    Outcome(Initial, None, true)
  }
}
