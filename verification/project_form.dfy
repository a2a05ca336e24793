/** The project form shared by the create wizard's first step and the edit
    dialog: five fields, the per-field validation messages, and the rule that
    editing a field drops that field's error. Empty `<input>` values are
    `None`; a number input yields a parsed number or nothing. */
module ProjectForm {
  import opened Common
  import opened Text
  import opened Calendar
  import opened Records

  datatype Field = NameField | DescriptionField | EndDateField | BudgetField | MethodologyField

  datatype Form = Form(
    name: string,
    description: string,
    endDate: Option<CivilDate>,
    budget: Option<real>,
    methodology: Methodology)

  const EmptyForm: Form := Form("", "", None, None, Scrum)

  /** One `handleChange(field, value)` call, carrying the new value. */
  datatype Edit =
    | SetName(name: string)
    | SetDescription(description: string)
    | SetEndDate(endDate: Option<CivilDate>)
    | SetBudget(budget: Option<real>)
    | SetMethodology(methodology: Methodology)

  function FieldOf(e: Edit): Field {
    match e
    case SetName(_) => NameField
    case SetDescription(_) => DescriptionField
    case SetEndDate(_) => EndDateField
    case SetBudget(_) => BudgetField
    case SetMethodology(_) => MethodologyField
  }

  /** `setFormData(prev => ({ ...prev, [field]: value }))`. */
  function Apply(f: Form, e: Edit): Form {
    match e
    case SetName(v) => f.(name := v)
    case SetDescription(v) => f.(description := v)
    case SetEndDate(v) => f.(endDate := v)
    case SetBudget(v) => f.(budget := v)
    case SetMethodology(v) => f.(methodology := v)
  }

  /** The edit that would write a field's current value. */
  function Current(f: Form, field: Field): (e: Edit)
    ensures FieldOf(e) == field
  {
    match field
    case NameField => SetName(f.name)
    case DescriptionField => SetDescription(f.description)
    case EndDateField => SetEndDate(f.endDate)
    case BudgetField => SetBudget(f.budget)
    case MethodologyField => SetMethodology(f.methodology)
  }

  /** An edit writes exactly its own field: reading that field back gives the
      edit, every other field reads as before, and writing a field's own value
      changes nothing. */
  lemma ApplyWritesOnlyItsField(f: Form, e: Edit, other: Field)
    ensures Current(Apply(f, e), FieldOf(e)) == e
    ensures other != FieldOf(e) ==> Current(Apply(f, e), other) == Current(f, other)
    ensures Apply(f, Current(f, other)) == f
  {
  }

  /** A field fails validation: a blank name or description (one that
      `trim()` empties, as `FailsIffTrimEmpty` shows), no
      end date, or a budget that is missing or not positive. The methodology
      always has a value. */
  predicate Fails(f: Form, field: Field) {
    match field
    case NameField => IsBlank(f.name)
    case DescriptionField => IsBlank(f.description)
    case EndDateField => f.endDate.None?
    case BudgetField => f.budget.None? || f.budget.value <= 0.0
    case MethodologyField => false
  }

  function Message(field: Field): string
    requires field != MethodologyField
  {
    match field
    case NameField => "El nombre del proyecto es requerido"
    case DescriptionField => "La descripción es requerida"
    case EndDateField => "La fecha de finalización es requerida"
    case BudgetField => "El presupuesto debe ser mayor a 0"
  }

  const AllFields: set<Field> := {NameField, DescriptionField, EndDateField, BudgetField, MethodologyField}

  lemma AllFieldsComplete()
    ensures forall field: Field :: field in AllFields
  {
    forall field: Field ensures field in AllFields {
      match field
      case NameField =>
      case DescriptionField =>
      case EndDateField =>
      case BudgetField =>
      case MethodologyField =>
    }
  }

  /** The validation block: one message per failing field. */
  function Validate(f: Form): (errors: map<Field, string>)
    ensures forall field :: field in errors <==> Fails(f, field)
    ensures forall field :: field in errors ==> field != MethodologyField && errors[field] == Message(field)
  {
    AllFieldsComplete();
    map field | field in AllFields && Fails(f, field) :: Message(field)
  }

  /** A form the validation accepts, stated with whitespace instead of `trim`. */
  predicate ValidForm(f: Form) {
    !IsBlank(f.name) && !IsBlank(f.description) && f.endDate.Some? && f.budget.Some? && f.budget.value > 0.0
  }

  /** The text fields fail exactly when `trim()` leaves nothing of them. */
  lemma FailsIffTrimEmpty(f: Form)
    ensures Fails(f, NameField) <==> Trim(f.name) == ""
    ensures Fails(f, DescriptionField) <==> Trim(f.description) == ""
  {
    TrimEmptyIffBlank(f.name);
    TrimEmptyIffBlank(f.description);
  }

  /** No field fails exactly when the form is valid. */
  lemma NoFailureIffValid(f: Form)
    ensures (forall field :: !Fails(f, field)) <==> ValidForm(f)
  {
    if !ValidForm(f) {
      if IsBlank(f.name) {
        assert Fails(f, NameField);
      } else if IsBlank(f.description) {
        assert Fails(f, DescriptionField);
      } else if f.endDate.None? {
        assert Fails(f, EndDateField);
      } else {
        assert Fails(f, BudgetField);
      }
    }
  }

  lemma ValidateEmptyIffValidForm(f: Form)
    ensures Validate(f) == map[] <==> ValidForm(f)
  {
    NoFailureIffValid(f);
    EmptyIffNoneFails(Validate(f), field => Fails(f, field));
  }


  /** Every recorded error belongs to a field that currently fails. */
  predicate ErrorsSound(f: Form, errors: map<Field, string>) {
    forall field :: field in errors ==> Fails(f, field)
  }

  /** `handleChange`: write the field and drop that field's error. */
  function HandleChange(f: Form, errors: map<Field, string>, e: Edit): (r: (Form, map<Field, string>))
    ensures r.0 == Apply(f, e)
    ensures r.1.Keys == errors.Keys - {FieldOf(e)}
    ensures forall field :: field in r.1 ==> r.1[field] == errors[field]
  {
    (Apply(f, e), errors - {FieldOf(e)})
  }

  /** Fresh validation errors are sound. */
  lemma ValidateSound(f: Form)
    ensures ErrorsSound(f, Validate(f))
  {
  }

  /** Editing keeps the recorded errors sound: the edited field loses its
      error and every other field keeps its value. */
  lemma HandleChangeKeepsSound(f: Form, errors: map<Field, string>, e: Edit)
    requires ErrorsSound(f, errors)
    ensures ErrorsSound(HandleChange(f, errors, e).0, HandleChange(f, errors, e).1)
  {
    var (f', errors') := HandleChange(f, errors, e);
    forall field | field in errors' ensures Fails(f', field) {
      ApplyWritesOnlyItsField(f, e, field);
      assert Current(f', field) == Current(f, field);
    }
  }

  /** Sound errors are empty once the form is valid. */
  lemma SoundErrorsVanishWhenValid(f: Form, errors: map<Field, string>)
    requires ErrorsSound(f, errors) && ValidForm(f)
    ensures errors == map[]
  {
    NoFailureIffValid(f);
    assert errors.Keys == {};
  }
}
