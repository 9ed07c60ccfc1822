/** The dialog that creates or edits a project: its form, the staged image,
    the browser's field constraints and the submit protocol. */
module ProjectModal {
  import opened Js
  import opened Http
  import opened Entities
  import opened Ui
  import opened ProjectsApi

  /** The form's fields, by their `name` attribute. */
  datatype Field = Name | Description | Address | Status | StartDate | EndDate

  /** The form, the image staged for upload (`null` is `None`), and whether
      a submit is in flight. */
  datatype State = State(form: ProjectData, image: Option<FileRef>, loading: bool)

  /** What the dialog hands to its parent's `onSubmit`. */
  type Submission = (ProjectData, Option<FileRef>)

  datatype Step = Step(state: State, effects: seq<ModalEffect<Submission>>)

  const FailMessage: string := "Ошибка при сохранении проекта"
  const DefaultStatus: string := "active"

  /** The form before any seeding: every text empty, status `'active'`. */
  const DefaultForm: ProjectData := ProjectData("", "", "", DefaultStatus, "", "")

  /** The dialog as it mounts: the default form, no image, idle. */
  function Init(): (s: State)
    ensures s.form.name == "" && s.form.description == "" && s.form.address == ""
    ensures s.form.status == "active" && s.form.startDate == "" && s.form.endDate == ""
    ensures s.image == None && !s.loading
  {
    State(DefaultForm, None, false)
  }

  function Get(form: ProjectData, field: Field): string {
    match field
    case Name => form.name
    case Description => form.description
    case Address => form.address
    case Status => form.status
    case StartDate => form.startDate
    case EndDate => form.endDate
  }

  /** `formatDateForInput(d) || ''`: an absent or empty date gives `''`;
      otherwise the date's calendar part as the host's date functions
      compute it, which is the parameter `toInputDate`. */
  function DateForInput(toInputDate: string -> string, d: Option<string>): (r: string)
    ensures d.None? || d.value == "" ==> r == ""
    ensures d.Some? && d.value != "" ==> r == toInputDate(d.value)
  {
    if d.None? || d.value == "" then "" else StrOr(Some(toInputDate(d.value)), "")
  }

  /** The seeding effect: when a project is given the whole form is
      replaced by its fields, a missing or empty text becoming `''` and a
      missing or empty status `'active'`; without a project the form stays
      as it is. */
  function Seed(project: Option<Project>, toInputDate: string -> string, form: ProjectData): (f: ProjectData)
    ensures project.None? ==> f == form
    ensures project.Some? ==> f.status != ""
    ensures project.Some? && project.value.status.Some? && project.value.status.value != "" ==>
              f.status == project.value.status.value
    ensures project.Some? && (project.value.status.None? || project.value.status.value == "") ==>
              f.status == DefaultStatus
    ensures project.Some? ==> (project.value.name.Some? ==> f.name == project.value.name.value)
                              && (project.value.name.None? ==> f.name == "")
    ensures project.Some? ==> (project.value.description.Some? ==> f.description == project.value.description.value)
                              && (project.value.description.None? ==> f.description == "")
    ensures project.Some? ==> (project.value.address.Some? ==> f.address == project.value.address.value)
                              && (project.value.address.None? ==> f.address == "")
    ensures project.Some? ==> f.startDate == DateForInput(toInputDate, project.value.startDate)
                              && f.endDate == DateForInput(toInputDate, project.value.endDate)
  {
    match project
    case Some(p) =>
      ProjectData(
        StrOr(p.name, ""),
        StrOr(p.description, ""),
        StrOr(p.address, ""),
        StrOr(p.status, DefaultStatus),
        DateForInput(toInputDate, p.startDate),
        DateForInput(toInputDate, p.endDate))
    case None => form
  }

  /** `handleChange`: the named field takes the control's value. */
  function Edit(form: ProjectData, field: Field, value: string): (f: ProjectData)
    ensures Get(f, field) == value
  {
    match field
    case Name => form.(name := value)
    case Description => form.(description := value)
    case Address => form.(address := value)
    case Status => form.(status := value)
    case StartDate => form.(startDate := value)
    case EndDate => form.(endDate := value)
  }

  /** An edit changes the named field and no other. */
  lemma EditOnlyNamedField(form: ProjectData, field: Field, value: string, other: Field)
    ensures Get(Edit(form, field, value), other) == if other == field then value else Get(form, other)
  {
  }

  /** The last edit of a field wins, and edits of different fields
      commute. */
  lemma EditsCompose(form: ProjectData, a: Field, v: string, b: Field, w: string)
    ensures a == b ==> Edit(Edit(form, a, v), b, w) == Edit(form, b, w)
    ensures a != b ==> Edit(Edit(form, a, v), b, w) == Edit(Edit(form, b, w), a, v)
  {
  }

  /** `handleImageChange` with the first chosen file, if any: a choice
      replaces the staged image, a cancelled dialog keeps it. */
  function ChooseImage(s: State, first: Option<FileRef>): (r: State)
    ensures first.Some? ==> r.image == first
    ensures first.None? ==> r == s
    ensures r.form == s.form && r.loading == s.loading
  {
    if first.Some? then s.(image := first) else s
  }

  /** The status select is offered only when editing. */
  predicate ShowsStatusField(project: Option<Project>) {
    project.Some?
  }

  /** The only declared constraint: the name is required. */
  predicate Valid(form: ProjectData) {
    form.name != ""
  }

  /** The first half of a submit: the browser lets a form with a name
      submit; the dialog becomes busy and hands the form and the staged
      image to its parent. */
  function BeginSubmit(s: State): (r: Step)
    ensures !Valid(s.form) ==> r == Step(s, [])
    ensures Valid(s.form) ==> r.state == s.(loading := true) && r.effects == [Submitted((s.form, s.image))]
  {
    if !Valid(s.form) then Step(s, [])
    else Step(s.(loading := true), [Submitted((s.form, s.image))])
  }

  /** The second half, once the parent's handler settles. */
  function FinishSubmit(s: State, handlerSucceeded: bool): (r: Step)
    ensures r.state == s.(loading := false)
    ensures r.effects == [Settle(handlerSucceeded, FailMessage)]
  {
    Step(s.(loading := false), [Settle(handlerSucceeded, FailMessage)])
  }

  function Attempt(s: State, handlerSucceeded: bool): Step {
    var b := BeginSubmit(s);
    if !Valid(s.form) then b
    else
      var f := FinishSubmit(b.state, handlerSucceeded);
      Step(f.state, b.effects + f.effects)
  }

  /** A named form reaches the parent with the form and the staged image;
      the dialog closes exactly when the parent's handler succeeded,
      alerts otherwise, and is idle afterwards. A form without a name does
      nothing. */
  lemma AttemptProtocol(s: State, handlerSucceeded: bool)
    ensures var r := Attempt(s, handlerSucceeded);
            Valid(s.form) ==> r.effects == [Submitted((s.form, s.image)), Settle(handlerSucceeded, FailMessage)]
    ensures var r := Attempt(s, handlerSucceeded);
            Closed in r.effects <==> Valid(s.form) && handlerSucceeded
    ensures var r := Attempt(s, handlerSucceeded);
            Valid(s.form) ==> r.state == s.(loading := false)
    ensures !Valid(s.form) ==> Attempt(s, handlerSucceeded) == Step(s, [])
  {
    if Valid(s.form) {
      var r := Attempt(s, handlerSucceeded);
      assert r.effects == [Submitted((s.form, s.image)), Settle(handlerSucceeded, FailMessage)];
    }
  }

  /** The submit control is disabled exactly while a submit is in flight. */
  predicate SubmitDisabled(s: State) {
    s.loading
  }

  /** A press of the submit control: nothing while it is disabled,
      otherwise the browser's submit. */
  function Press(s: State): (r: Step)
    ensures SubmitDisabled(s) ==> r == Step(s, [])
    ensures !SubmitDisabled(s) ==> r == BeginSubmit(s)
  {
    if SubmitDisabled(s) then Step(s, []) else BeginSubmit(s)
  }

  /** A press reaches the parent exactly when the dialog is idle and the
      project has a name, and once a submit is in flight a second press
      reaches nobody. */
  lemma NoSecondSubmitInFlight(s: State)
    ensures Press(s).effects != [] <==> !s.loading && Valid(s.form)
    ensures Valid(s.form) ==> Press(BeginSubmit(s).state).effects == []
  {
  }

  /** The dialog as it mounts cannot submit: the name is still empty. */
  lemma InitialFormRejected()
    ensures !Valid(Init().form)
    ensures Press(Init()).effects == []
  {
  }

  /** The status select is offered only when editing. A create form keeps
      the default status, while an edit form starts from the project's
      status or the default. */
  lemma StatusFieldOnlyWhenEditing(project: Option<Project>, toInputDate: string -> string)
    ensures ShowsStatusField(project) <==> project.Some?
    ensures !ShowsStatusField(project) ==> Seed(project, toInputDate, Init().form).status == DefaultStatus
    ensures ShowsStatusField(project) ==> Seed(project, toInputDate, Init().form).status == StrOr(project.value.status, DefaultStatus)
  {
  }

  /** Seeding never leaves an edit form without a status, so an update
      always sends one. */
  lemma SeededEditSendsStatus(p: Project, toInputDate: string -> string, form: ProjectData, id: int)
    ensures var f := Seed(Some(p), toInputDate, form);
            UpdateProject(id, f).payload.fields[3] == ("status", Str(f.status)) && f.status != ""
  {
    var f := Seed(Some(p), toInputDate, form);
    UpdateIsCreatePlusStatus(id, f);
  }
}
