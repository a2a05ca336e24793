/** The two-step create-project wizard: step 1 validates the project form,
    step 2 collects team members and phases, and the final submit emits a new
    project (without id) with members `m1..mn` and phases `p1..pk`. */
module CreateProject {
  import opened Common
  import opened Text
  import opened Seqs
  import opened Calendar
  import opened Records
  import opened ProjectForm

  /** Step 1 (project details) or step 2 (team and phases). */
  datatype Step = Details | Team

  datatype MemberDraft = MemberDraft(name: string, role: string, roleDescription: string)

  datatype PhaseDraft = PhaseDraft(name: string, startDate: Option<CivilDate>, endDate: Option<CivilDate>)

  const EmptyMember: MemberDraft := MemberDraft("", "", "")

  const EmptyPhase: PhaseDraft := PhaseDraft("", None, None)

  /** The dialog's state. */
  datatype Wizard = Wizard(
    step: Step,
    form: Form,
    members: seq<TeamMember>,
    newMember: MemberDraft,
    phases: seq<Phase>,
    newPhase: PhaseDraft,
    errors: map<Field, string>)

  /** The state after mounting and after `resetForm`. */
  const Initial: Wizard := Wizard(Details, EmptyForm, [], EmptyMember, [], EmptyPhase, map[])

  /** `Omit<Project, 'id'>`: what `onCreateProject` receives. */
  datatype NewProject = NewProject(
    name: string,
    description: string,
    endDate: CivilDate,
    budget: real,
    methodology: Methodology,
    progress: real,
    members: seq<TeamMember>,
    phases: seq<Phase>,
    tasks: seq<Task>,
    kpis: seq<Kpi>)

  /** A handler's effect: the next state, the project handed to the parent
      (if any), and whether the dialog asks to close. */
  datatype Outcome = Outcome(state: Wizard, created: Option<NewProject>, closes: bool)

  /** What every reachable state satisfies: recorded errors belong to failing
      fields, and step 2 is only reached with a valid form (its inputs are not
      shown there). */
  predicate Wf(w: Wizard) {
    ErrorsSound(w.form, w.errors) && (w.step == Team ==> ValidForm(w.form))
  }

  /** `m${i + 1}` and `p${i + 1}`. */
  function MemberId(i: nat): string {
    "m" + NatToString(i + 1)
  }

  function PhaseId(i: nat): string {
    "p" + NatToString(i + 1)
  }

  /** A one-letter prefix keeps `${n}` injective. */
  lemma PrefixedInjective(c: char, a: nat, b: nat)
    ensures [c] + NatToString(a) == [c] + NatToString(b) ==> a == b
  {
    var s, t := [c] + NatToString(a), [c] + NatToString(b);
    assert s[1..] == NatToString(a) && t[1..] == NatToString(b);
    if s == t {
      NatToStringInjective(a, b);
    }
  }

  /** Different positions get different ids. */
  lemma IdsDistinct(i: nat, j: nat)
    ensures MemberId(i) == MemberId(j) ==> i == j
    ensures PhaseId(i) == PhaseId(j) ==> i == j
  {
    PrefixedInjective('m', i + 1, j + 1);
    PrefixedInjective('p', i + 1, j + 1);
  }

  /** `teamMembers.map((member, index) => ({ ...member, id: `m${index + 1}` }))`. */
  function NumberMembers(members: seq<TeamMember>): (r: seq<TeamMember>)
    ensures |r| == |members|
    ensures forall i :: 0 <= i < |r| ==> r[i] == members[i].(id := MemberId(i))
  {
    seq(|members|, i requires 0 <= i < |members| => members[i].(id := MemberId(i)))
  }

  /** `phases.map((phase, index) => ({ ...phase, id: `p${index + 1}`, status: 'pending' }))`. */
  function NumberPhases(phases: seq<Phase>): (r: seq<Phase>)
    ensures |r| == |phases|
    ensures forall i :: 0 <= i < |r| ==> r[i] == phases[i].(id := PhaseId(i), status := Pending)
  {
    seq(|phases|, i requires 0 <= i < |phases| => phases[i].(id := PhaseId(i), status := Pending))
  }

  /** The project built by the step-2 submit. */
  function Build(w: Wizard): NewProject
    requires ValidForm(w.form)
  {
    NewProject(Trim(w.form.name), Trim(w.form.description), w.form.endDate.value, w.form.budget.value,
               w.form.methodology, 0.0, NumberMembers(w.members), NumberPhases(w.phases), [], [])
  }

  /** `handleSubmit`. On step 1 an invalid form records one error per failing
      field and stays; a valid form moves to step 2 without emitting anything.
      On step 2 the project is emitted, the form is reset and the dialog closes. */
  function Submit(w: Wizard): (o: Outcome)
    requires Wf(w)
    ensures w.step == Details && !ValidForm(w.form) ==>
      o == Outcome(w.(errors := Validate(w.form)), None, false)
    ensures w.step == Details && ValidForm(w.form) ==>
      o == Outcome(w.(step := Team), None, false) && w.errors == map[]
    ensures w.step == Team ==> o.state == Initial && o.closes && o.created.Some?
  {
    ValidateEmptyIffValidForm(w.form);
    if w.step == Details then
      if Validate(w.form) != map[] then Outcome(w.(errors := Validate(w.form)), None, false)
      else
        SoundErrorsVanishWhenValid(w.form, w.errors);
        Outcome(w.(step := Team), None, false)
    else
      Outcome(Initial, Some(Build(w)), true)
  }

  /** The emitted project: trimmed non-empty name and trimmed description,
      the form's date, positive budget and methodology, progress 0, no tasks
      or KPIs, and as many members and phases as were added. */
  lemma SubmitEmitsProject(w: Wizard)
    requires Wf(w) && w.step == Team
    ensures var p := Submit(w).created.value;
      && p.name == Trim(w.form.name) && p.name != [] && p.description == Trim(w.form.description)
      && Some(p.endDate) == w.form.endDate && Some(p.budget) == w.form.budget && p.budget > 0.0
      && p.methodology == w.form.methodology
      && p.progress == 0.0 && p.tasks == [] && p.kpis == []
      && |p.members| == |w.members| && |p.phases| == |w.phases|
  {
    assert Submit(w).created == Some(Build(w));
    TrimEmptyIffBlank(w.form.name);
  }

  /** The emitted members and phases keep their order and contents; member i
      gets id `m(i+1)`, phase i gets id `p(i+1)` and status pending. */
  lemma SubmitNumbersEntries(w: Wizard)
    requires Wf(w) && w.step == Team
    ensures var p := Submit(w).created.value;
      && (forall i :: 0 <= i < |p.members| ==>
            p.members[i] == w.members[i].(id := "m" + NatToString(i + 1)))
      && (forall i :: 0 <= i < |p.phases| ==>
            p.phases[i] == w.phases[i].(id := "p" + NatToString(i + 1), status := Pending))
  {
    assert Submit(w).created == Some(Build(w));
  }

  /** No two emitted members, and no two emitted phases, share an id. */
  lemma SubmitIdsDistinct(w: Wizard)
    requires Wf(w) && w.step == Team
    ensures var p := Submit(w).created.value;
      && (forall i, j :: 0 <= i < j < |p.members| ==> p.members[i].id != p.members[j].id)
      && (forall i, j :: 0 <= i < j < |p.phases| ==> p.phases[i].id != p.phases[j].id)
  {
    var p := Submit(w).created.value;
    forall i, j | 0 <= i < j < |p.members| ensures p.members[i].id != p.members[j].id {
      IdsDistinct(i, j);
    }
    forall i, j | 0 <= i < j < |p.phases| ensures p.phases[i].id != p.phases[j].id {
      IdsDistinct(i, j);
    }
  }

  /** `handleChange`, reachable only on step 1 where the inputs are shown. */
  function HandleChangeAt(w: Wizard, e: Edit): (r: Wizard)
    requires w.step == Details
    ensures r.form == Apply(w.form, e)
    ensures r.errors.Keys == w.errors.Keys - {FieldOf(e)}
    ensures forall field :: field in r.errors ==> r.errors[field] == w.errors[field]
    ensures r == w.(form := r.form, errors := r.errors)
  {
    var (f, errors) := HandleChange(w.form, w.errors, e);
    w.(form := f, errors := errors)
  }

  /** Typing into the member and phase drafts. */
  function EditMemberDraft(w: Wizard, d: MemberDraft): (r: Wizard)
    ensures r.newMember == d && r.(newMember := w.newMember) == w
  {
    w.(newMember := d)
  }

  function EditPhaseDraft(w: Wizard, d: PhaseDraft): (r: Wizard)
    ensures r.newPhase == d && r.(newPhase := w.newPhase) == w
  {
    w.(newPhase := d)
  }

  /** `handleAddMember`: appends the draft (untrimmed, id '' until submit)
      when name, role and description are all non-blank, then clears the
      draft; otherwise nothing changes. */
  function AddMember(w: Wizard): (r: Wizard)
    ensures var d := w.newMember;
      !IsBlank(d.name) && !IsBlank(d.role) && !IsBlank(d.roleDescription) ==>
        r == w.(members := w.members + [TeamMember("", d.name, d.role, d.roleDescription, None)],
                newMember := EmptyMember)
    ensures var d := w.newMember;
      IsBlank(d.name) || IsBlank(d.role) || IsBlank(d.roleDescription) ==> r == w
  {
    var d := w.newMember;
    TrimEmptyIffBlank(d.name);
    TrimEmptyIffBlank(d.role);
    TrimEmptyIffBlank(d.roleDescription);
    if Trim(d.name) != "" && Trim(d.role) != "" && Trim(d.roleDescription) != "" then
      w.(members := w.members + [TeamMember("", d.name, d.role, d.roleDescription, None)],
         newMember := EmptyMember)
    else w
  }

  /** `handleAddPhase`: appends a pending phase when the name is non-blank and
      both dates are filled in. The dates are not compared. */
  function AddPhase(w: Wizard): (r: Wizard)
    ensures var d := w.newPhase;
      !IsBlank(d.name) && d.startDate.Some? && d.endDate.Some? ==>
        r == w.(phases := w.phases + [Phase("", d.name, d.startDate.value, d.endDate.value, Pending)],
                newPhase := EmptyPhase)
    ensures var d := w.newPhase;
      IsBlank(d.name) || d.startDate.None? || d.endDate.None? ==> r == w
  {
    var d := w.newPhase;
    TrimEmptyIffBlank(d.name);
    if Trim(d.name) != "" && d.startDate.Some? && d.endDate.Some? then
      w.(phases := w.phases + [Phase("", d.name, d.startDate.value, d.endDate.value, Pending)],
         newPhase := EmptyPhase)
    else w
  }

  /** A phase ending before it starts is accepted. */
  lemma AddPhaseAcceptsReversedDates(w: Wizard)
    requires w.newPhase == PhaseDraft("QA", Some(Date(2025, 6, 30)), Some(Date(2025, 6, 1)))
    ensures |AddPhase(w).phases| == |w.phases| + 1
    ensures Day(AddPhase(w).phases[|w.phases|].endDate) < Day(AddPhase(w).phases[|w.phases|].startDate)
  {
    assert "QA"[0] == 'Q' && !IsWhitespace('Q');
  }

  /** `handleRemoveMember(index)` and `handleRemovePhase(index)`. */
  function RemoveMember(w: Wizard, index: int): (r: Wizard)
    ensures 0 <= index < |w.members| ==> |r.members| == |w.members| - 1
    ensures 0 <= index < |w.members| ==>
      forall j :: 0 <= j < |r.members| ==> r.members[j] == w.members[if j < index then j else j + 1]
    ensures !(0 <= index < |w.members|) ==> r == w
    ensures r.(members := w.members) == w
  {
    w.(members := RemoveAt(w.members, index))
  }

  function RemovePhase(w: Wizard, index: int): (r: Wizard)
    ensures 0 <= index < |w.phases| ==> |r.phases| == |w.phases| - 1
    ensures 0 <= index < |w.phases| ==>
      forall j :: 0 <= j < |r.phases| ==> r.phases[j] == w.phases[if j < index then j else j + 1]
    ensures !(0 <= index < |w.phases|) ==> r == w
    ensures r.(phases := w.phases) == w
  {
    w.(phases := RemoveAt(w.phases, index))
  }

  /** The "Anterior" button on step 2. */
  function Back(w: Wizard): (r: Wizard)
    ensures r.step == Details && r.(step := w.step) == w
  {
    w.(step := Details)
  }

  /** "Anterior" undoes "Siguiente": going forward from a valid step 1 and
      back again returns to the same state. */
  lemma BackUndoesNext(w: Wizard)
    requires Wf(w) && w.step == Details && ValidForm(w.form)
    ensures Submit(w).state.step == Team
    ensures Back(Submit(w).state) == w
  {
  }

  /** `handleCancel`: reset and close. */
  function Cancel(w: Wizard): (o: Outcome)
    ensures o.state == Initial && o.created.None? && o.closes
  {
    Outcome(Initial, None, true)
  }

  /** The initial state is well formed and every handler keeps it so. */
  lemma WfPreserved(w: Wizard, e: Edit, m: MemberDraft, d: PhaseDraft, index: int)
    requires Wf(w)
    ensures Wf(Initial)
    ensures w.step == Details ==> Wf(HandleChangeAt(w, e))
    ensures Wf(Submit(w).state)
    ensures Wf(EditMemberDraft(w, m)) && Wf(EditPhaseDraft(w, d))
    ensures Wf(AddMember(w)) && Wf(AddPhase(w))
    ensures Wf(RemoveMember(w, index)) && Wf(RemovePhase(w, index))
    ensures Wf(Back(w)) && Wf(Cancel(w).state)
  {
    assert ErrorsSound(EmptyForm, map[]);
    if w.step == Details {
      WfPreservedByChange(w, e);
    }
    WfPreservedBySubmit(w);
    WfPreservedByLists(w);
  }

  lemma WfPreservedByChange(w: Wizard, e: Edit)
    requires Wf(w) && w.step == Details
    ensures Wf(HandleChangeAt(w, e))
  {
    HandleChangeKeepsSound(w.form, w.errors, e);
  }

  lemma WfPreservedBySubmit(w: Wizard)
    requires Wf(w)
    ensures Wf(Submit(w).state)
  {
    assert ErrorsSound(EmptyForm, map[]);
    if w.step == Details {
      ValidateSound(w.form);
    }
  }

  /** Adding a member or a phase leaves the form alone. */
  lemma WfPreservedByLists(w: Wizard)
    requires Wf(w)
    ensures Wf(AddMember(w)) && Wf(AddPhase(w))
  {
    var d, ph := w.newMember, w.newPhase;
    if !IsBlank(d.name) && !IsBlank(d.role) && !IsBlank(d.roleDescription) {
      assert AddMember(w).form == w.form;
    }
    if !IsBlank(ph.name) && ph.startDate.Some? && ph.endDate.Some? {
      assert AddPhase(w).form == w.form;
    }
  }
}
