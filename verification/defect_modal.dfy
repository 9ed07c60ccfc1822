/** The dialog that creates or edits a defect: its form, the staged
    images, the browser's field constraints and the submit protocol. */
module DefectModal {
  import opened Js
  import opened Tables
  import opened Http
  import opened Entities
  import opened Ui
  import opened DefectsApi

  /** The form's fields, by their `name` attribute. */
  datatype Field = ProjectId | Title | Description | Priority

  /** The form, the images staged for upload, and whether a submit is in
      flight. */
  datatype State = State(form: DefectData, images: seq<FileRef>, loading: bool)

  /** What the dialog hands to its parent's `onSubmit`. */
  type Submission = (DefectData, seq<FileRef>)

  datatype Step = Step(state: State, effects: seq<ModalEffect<Submission>>)

  const FailMessage: string := "Ошибка при сохранении дефекта"
  const DefaultPriority: string := "medium"
  const TitleMinLength: nat := 3
  const DescriptionMinLength: nat := 10

  /** The form before any seeding: no project, empty texts, priority
      `'medium'`. */
  const DefaultForm: DefectData := DefectData(Str(""), "", "", DefaultPriority)

  /** The dialog as it mounts: the default form, no images, idle. */
  function Init(): (s: State)
    ensures !Truthy(s.form.projectId) && s.form.title == "" && s.form.description == ""
    ensures s.form.priority == "medium"
    ensures s.images == [] && !s.loading
  {
    State(DefaultForm, [], false)
  }

  /** The form field as the page reads it. */
  function Get(form: DefectData, field: Field): Value {
    match field
    case ProjectId => form.projectId
    case Title => Str(form.title)
    case Description => Str(form.description)
    case Priority => Str(form.priority)
  }

  /** The seeding effect. Editing replaces the whole form with the
      defect's fields: a missing or empty text becomes `''`, a missing or
      empty priority `'medium'`, and a project id of 0 (falsy) `''`.
      Creating with at least one project preselects the first one and
      keeps the rest of the form. Otherwise the form stays as it is. */
  function Seed(defect: Option<Defect>, projects: seq<Project>, form: DefectData): (f: DefectData)
    ensures defect.Some? ==> (Truthy(f.projectId) <==> defect.value.projectId != 0)
    ensures defect.Some? && defect.value.projectId != 0 ==> f.projectId == Num(defect.value.projectId)
    ensures defect.Some? && defect.value.projectId == 0 ==> f.projectId == Str("")
    ensures defect.Some? ==> f.priority != ""
    ensures defect.Some? && defect.value.priority.Some? && defect.value.priority.value != "" ==>
              f.priority == defect.value.priority.value
    ensures defect.Some? && (defect.value.priority.None? || defect.value.priority.value == "") ==>
              f.priority == DefaultPriority
    ensures defect.Some? ==> (defect.value.title.Some? ==> f.title == defect.value.title.value)
                             && (defect.value.title.None? ==> f.title == "")
    ensures defect.Some? ==> (defect.value.description.Some? ==> f.description == defect.value.description.value)
                             && (defect.value.description.None? ==> f.description == "")
    ensures defect.None? && |projects| > 0 ==>
              f.projectId == Num(projects[0].id) && f.title == form.title
              && f.description == form.description && f.priority == form.priority
    ensures defect.None? && |projects| == 0 ==> f == form
  {
    match defect
    case Some(d) =>
      DefectData(
        Or(Num(d.projectId), Str("")),
        StrOr(d.title, ""),
        StrOr(d.description, ""),
        StrOr(d.priority, DefaultPriority))
    case None =>
      if |projects| > 0 then form.(projectId := Num(projects[0].id)) else form
  }

  /** `handleChange`: the named field takes the control's (string) value. */
  function Edit(form: DefectData, field: Field, value: string): (f: DefectData)
    ensures Get(f, field) == Str(value)
  {
    match field
    case ProjectId => form.(projectId := Str(value))
    case Title => form.(title := value)
    case Description => form.(description := value)
    case Priority => form.(priority := value)
  }

  /** An edit changes the named field and no other. */
  lemma EditOnlyNamedField(form: DefectData, field: Field, value: string, other: Field)
    ensures Get(Edit(form, field, value), other) == if other == field then Str(value) else Get(form, other)
  {
  }

  /** The last edit of a field wins, and edits of different fields
      commute. */
  lemma EditsCompose(form: DefectData, a: Field, v: string, b: Field, w: string)
    ensures a == b ==> Edit(Edit(form, a, v), b, w) == Edit(form, b, w)
    ensures a != b ==> Edit(Edit(form, a, v), b, w) == Edit(Edit(form, b, w), a, v)
  {
  }

  /** `handleImageChange`: the chosen files replace the staged ones. */
  function ChooseImages(s: State, files: seq<FileRef>): (r: State)
    ensures r.images == files
    ensures r.form == s.form && r.loading == s.loading
  {
    s.(images := files)
  }

  /** The project select is offered only when creating and there is a
      project to choose. */
  predicate ShowsProjectSelect(defect: Option<Defect>, projects: seq<Project>) {
    defect.None? && |projects| > 0
  }

  /** The image input is offered only when creating. */
  predicate ShowsImageInput(defect: Option<Defect>) {
    defect.None?
  }

  /** The required title of at least 3 and the required description of at
      least 10 characters. */
  predicate Valid(form: DefectData) {
    |form.title| >= TitleMinLength && |form.description| >= DescriptionMinLength
  }

  /** The first half of a submit. The browser lets the form submit only
      when its constraints hold; then the dialog becomes busy and hands
      the form and the staged images to its parent. */
  function BeginSubmit(s: State): (r: Step)
    ensures !Valid(s.form) ==> r == Step(s, [])
    ensures Valid(s.form) ==> r.state == s.(loading := true) && r.effects == [Submitted((s.form, s.images))]
  {
    if !Valid(s.form) then Step(s, [])
    else Step(s.(loading := true), [Submitted((s.form, s.images))])
  }

  /** The second half, once the parent's handler settles. */
  function FinishSubmit(s: State, handlerSucceeded: bool): (r: Step)
    ensures r.state == s.(loading := false)
    ensures r.effects == [Settle(handlerSucceeded, FailMessage)]
  {
    Step(s.(loading := false), [Settle(handlerSucceeded, FailMessage)])
  }

  /** One whole submit, given whether the parent's handler succeeds. */
  function Attempt(s: State, handlerSucceeded: bool): Step {
    var b := BeginSubmit(s);
    if !Valid(s.form) then b
    else
      var f := FinishSubmit(b.state, handlerSucceeded);
      Step(f.state, b.effects + f.effects)
  }

  /** A valid form reaches the parent with exactly the form and the staged
      images; the dialog closes exactly when the parent's handler
      succeeded, and only after it was called; afterwards it is idle with
      the form and images as they were. An invalid form does nothing. */
  lemma AttemptProtocol(s: State, handlerSucceeded: bool)
    ensures var r := Attempt(s, handlerSucceeded);
            Valid(s.form) ==> r.effects == [Submitted((s.form, s.images)), Settle(handlerSucceeded, FailMessage)]
    ensures var r := Attempt(s, handlerSucceeded);
            Closed in r.effects <==> Valid(s.form) && handlerSucceeded
    ensures var r := Attempt(s, handlerSucceeded);
            Valid(s.form) ==> r.state == s.(loading := false)
    ensures !Valid(s.form) ==> Attempt(s, handlerSucceeded) == Step(s, [])
  {
    if Valid(s.form) {
      var r := Attempt(s, handlerSucceeded);
      assert r.effects == [Submitted((s.form, s.images)), Settle(handlerSucceeded, FailMessage)];
    }
  }

  /** The submit control is disabled exactly while a submit is in flight. */
  predicate SubmitDisabled(s: State) {
    s.loading
  }

  /** A press of the submit control: nothing while it is disabled,
      otherwise the browser's submit. */
  function Press(s: State): (r: Step)
    ensures SubmitDisabled(s) ==> r == Step(s, [])
    ensures !SubmitDisabled(s) ==> r == BeginSubmit(s)
  {
    if SubmitDisabled(s) then Step(s, []) else BeginSubmit(s)
  }

  /** A press reaches the parent exactly when the dialog is idle and the
      form is valid, and once a submit is in flight a second press reaches
      nobody. */
  lemma NoSecondSubmitInFlight(s: State)
    ensures Press(s).effects != [] <==> !s.loading && Valid(s.form)
    ensures Valid(s.form) ==> Press(BeginSubmit(s).state).effects == []
  {
  }

  /** The dialog as it mounts cannot submit: the title and description
      are still empty. */
  lemma InitialFormRejected()
    ensures !Valid(Init().form)
    ensures Press(Init()).effects == []
  {
  }

  /** Editing offers neither the project select nor the image input;
      creating offers the image input, and the project select exactly when
      there is a project, which is then the one preselected. */
  lemma FieldsByMode(defect: Option<Defect>, projects: seq<Project>, form: DefectData)
    ensures defect.Some? ==> !ShowsProjectSelect(defect, projects) && !ShowsImageInput(defect)
    ensures defect.None? ==> ShowsImageInput(defect) && (ShowsProjectSelect(defect, projects) <==> |projects| > 0)
    ensures ShowsProjectSelect(defect, projects) ==> Seed(defect, projects, form).projectId == Num(projects[0].id)
  {
  }

  /** A seeded edit form always carries a priority, so the update never
      sends an empty one. */
  lemma EditFormCarriesPriority(d: Defect, projects: seq<Project>, form: DefectData, id: int)
    ensures var f := Seed(Some(d), projects, form);
            Lookup(UpdateDefect(id, f).payload.fields, "priority") == Some(Str(f.priority)) && f.priority != ""
  {
  }
}
