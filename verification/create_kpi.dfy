/** The create-KPI dialog: five required fields, a positive target and a
    non-negative current value, and on success a new KPI (without id). */
module CreateKpi {
  import opened Common
  import opened Text
  import opened Records
  import KpiView

  datatype Field = NameField | TargetField | CurrentField | UnitField | DescriptionField

  /** The number inputs hold a parsed number, or nothing when empty. */
  datatype KpiForm = KpiForm(
    name: string,
    target: Option<real>,
    current: Option<real>,
    unit: string,
    description: string)

  const EmptyForm: KpiForm := KpiForm("", None, None, "", "")

  datatype KpiState = KpiState(form: KpiForm, errors: map<Field, string>)

  const Initial: KpiState := KpiState(EmptyForm, map[])

  datatype Edit =
    | SetName(name: string)
    | SetTarget(target: Option<real>)
    | SetCurrent(current: Option<real>)
    | SetUnit(unit: string)
    | SetDescription(description: string)

  function FieldOf(e: Edit): Field {
    match e
    case SetName(_) => NameField
    case SetTarget(_) => TargetField
    case SetCurrent(_) => CurrentField
    case SetUnit(_) => UnitField
    case SetDescription(_) => DescriptionField
  }

  function Apply(f: KpiForm, e: Edit): KpiForm {
    match e
    case SetName(v) => f.(name := v)
    case SetTarget(v) => f.(target := v)
    case SetCurrent(v) => f.(current := v)
    case SetUnit(v) => f.(unit := v)
    case SetDescription(v) => f.(description := v)
  }

  /** A blank name, unit or description (one that `trim()` empties, as
      `FailsIffTrimEmpty` shows); a target that is missing or not positive; a
      current value that is missing or negative. */
  predicate Fails(f: KpiForm, field: Field) {
    match field
    case NameField => IsBlank(f.name)
    case TargetField => f.target.None? || f.target.value <= 0.0
    case CurrentField => f.current.None? || f.current.value < 0.0
    case UnitField => IsBlank(f.unit)
    case DescriptionField => IsBlank(f.description)
  }

  function Message(field: Field): string {
    match field
    case NameField => "El nombre del KPI es requerido"
    case TargetField => "El objetivo debe ser mayor a 0"
    case CurrentField => "El valor actual debe ser mayor o igual a 0"
    case UnitField => "La unidad de medida es requerida"
    case DescriptionField => "La descripción es requerida"
  }

  const AllFields: set<Field> := {NameField, TargetField, CurrentField, UnitField, DescriptionField}

  lemma AllFieldsComplete()
    ensures forall field: Field :: field in AllFields
  {
    forall field: Field ensures field in AllFields {
      match field
      case NameField =>
      case TargetField =>
      case CurrentField =>
      case UnitField =>
      case DescriptionField =>
    }
  }

  function Validate(f: KpiForm): (errors: map<Field, string>)
    ensures forall field :: field in errors <==> Fails(f, field)
    ensures forall field :: field in errors ==> errors[field] == Message(field)
  {
    AllFieldsComplete();
    map field | field in AllFields && Fails(f, field) :: Message(field)
  }

  /** The accepted forms, stated with whitespace instead of `trim`. */
  predicate ValidForm(f: KpiForm) {
    && !IsBlank(f.name) && !IsBlank(f.unit) && !IsBlank(f.description)
    && f.target.Some? && f.target.value > 0.0
    && f.current.Some? && f.current.value >= 0.0
  }

  /** The text fields fail exactly when `trim()` leaves nothing of them. */
  lemma FailsIffTrimEmpty(f: KpiForm)
    ensures Fails(f, NameField) <==> Trim(f.name) == ""
    ensures Fails(f, UnitField) <==> Trim(f.unit) == ""
    ensures Fails(f, DescriptionField) <==> Trim(f.description) == ""
  {
    TrimEmptyIffBlank(f.name);
    TrimEmptyIffBlank(f.unit);
    TrimEmptyIffBlank(f.description);
  }

  /** No field fails exactly when the form is valid. */
  lemma NoFailureIffValid(f: KpiForm)
    ensures (forall field :: !Fails(f, field)) <==> ValidForm(f)
  {
    if !ValidForm(f) {
      if IsBlank(f.name) {
        assert Fails(f, NameField);
      } else if IsBlank(f.unit) {
        assert Fails(f, UnitField);
      } else if IsBlank(f.description) {
        assert Fails(f, DescriptionField);
      } else if f.target.None? || f.target.value <= 0.0 {
        assert Fails(f, TargetField);
      } else {
        assert Fails(f, CurrentField);
      }
    }
  }

  lemma ValidateEmptyIffValidForm(f: KpiForm)
    ensures Validate(f) == map[] <==> ValidForm(f)
  {
    NoFailureIffValid(f);
    EmptyIffNoneFails(Validate(f), field => Fails(f, field));
  }


  /** A current value of 0 is accepted, a target of 0 is not. */
  lemma ZeroCurrentAcceptedZeroTargetRejected(f: KpiForm)
    ensures Fails(f.(target := Some(0.0)), TargetField)
    ensures !Fails(f.(current := Some(0.0)), CurrentField)
  {
  }

  /** `Omit<KPI, 'id'>`: what `onCreateKPI` receives. */
  datatype NewKpi = NewKpi(name: string, target: real, current: real, unit: string, description: string)

  datatype Outcome = Outcome(state: KpiState, created: Option<NewKpi>, closes: bool)

  /** `handleSubmit`: an invalid form records one error per failing field; a
      valid one emits the KPI, resets the form and closes. */
  function Submit(s: KpiState): (o: Outcome)
    ensures !ValidForm(s.form) ==> o == Outcome(s.(errors := Validate(s.form)), None, false)
    ensures ValidForm(s.form) ==> o.state == Initial && o.closes && o.created.Some?
  {
    ValidateEmptyIffValidForm(s.form);
    var errors := Validate(s.form);
    if errors != map[] then Outcome(s.(errors := errors), None, false)
    else
      var f := s.form;
      Outcome(Initial, Some(NewKpi(Trim(f.name), f.target.value, f.current.value, Trim(f.unit),
                                   Trim(f.description))), true)
  }

  /** The emitted KPI: trimmed non-empty name, unit and description, and the
      parsed target (positive) and current value (non-negative). */
  lemma SubmitEmitsKpi(s: KpiState)
    requires ValidForm(s.form)
    ensures var k := Submit(s).created.value;
      && k.name == Trim(s.form.name) && k.name != []
      && k.unit == Trim(s.form.unit) && k.unit != []
      && k.description == Trim(s.form.description) && k.description != []
      && Some(k.target) == s.form.target && k.target > 0.0
      && Some(k.current) == s.form.current && k.current >= 0.0
  {
    TrimEmptyIffBlank(s.form.name);
    TrimEmptyIffBlank(s.form.unit);
    TrimEmptyIffBlank(s.form.description);
  }

  /** Whatever id it is given, a KPI created through the dialog shows a
      progress bar within 0..100. */
  lemma CreatedKpiBarInRange(s: KpiState, id: string)
    requires ValidForm(s.form)
    ensures var k := Submit(s).created.value;
      var b := KpiView.BarPercent(Kpi(id, k.name, k.target, k.current, k.unit, k.description));
      b.Finite? && 0.0 <= b.v <= 100.0
  {
  }

  /** `handleChange`. */
  function Change(s: KpiState, e: Edit): (r: KpiState)
    ensures r.form == Apply(s.form, e)
    ensures r.errors.Keys == s.errors.Keys - {FieldOf(e)}
    ensures forall field :: field in r.errors ==> r.errors[field] == s.errors[field]
  {
    KpiState(Apply(s.form, e), s.errors - {FieldOf(e)})
  }

  /** An edit can only change the validity and the error of its own field. */
  lemma ChangeTouchesOnlyItsField(s: KpiState, e: Edit, other: Field)
    requires other != FieldOf(e)
    ensures Fails(Change(s, e).form, other) == Fails(s.form, other)
    ensures other in Change(s, e).errors <==> other in s.errors
    ensures other in s.errors ==> Change(s, e).errors[other] == s.errors[other]
    ensures FieldOf(e) !in Change(s, e).errors
  {
  }

  /** `handleCancel`: reset and close. */
  function Cancel(s: KpiState): (o: Outcome)
    ensures o.state == Initial && o.created.None? && o.closes
  {
    Outcome(Initial, None, true)
  }
}
