/** The registration page: the role choices, the form, its declared
    constraints, and what a submit does with the result of `register`. */
module RegisterPage {
  import opened Js
  import opened Tables
  import opened AuthApi

  /** The selectable roles: code and label, in the order offered. */
  const Roles: Table<string> := [
    ("manager", "Менеджер"),
    ("engineer", "Инженер"),
    ("observer", "Наблюдатель")
  ]

  const DefaultRole: string := "engineer"
  const PasswordMinLength: nat := 6

  /** The form's fields, by their `name` attribute. */
  datatype Field = Email | Password | FirstName | LastName | Phone | RoleCode

  /** The form, the error shown above it (`''` for none), and whether a
      submit is in flight. */
  datatype State = State(form: RegisterData, error: string, loading: bool)

  /** The settled result of the authentication context's `register`. */
  datatype AuthResult = AuthSuccess | AuthFailure(error: string)

  /** What the page does besides changing its state: the call of
      `register` with the form, and navigation. */
  datatype Effect = CallRegister(data: RegisterData) | Navigate(path: string)

  datatype Step = Step(state: State, effects: seq<Effect>)

  /** Exactly three role codes are offered, each once. */
  lemma RolesWellFormed()
    ensures Keys(Roles) == ["manager", "engineer", "observer"]
    ensures DistinctKeys(Roles)
  {
  }

  /** The page as it mounts: every field empty but the role, which is
      `'engineer'`; no error; idle. */
  function Init(): (s: State)
    ensures s.form.email == "" && s.form.password == "" && s.form.firstName == ""
    ensures s.form.lastName == "" && s.form.phone == ""
    ensures s.form.roleCode == "engineer" && s.form.roleCode in Keys(Roles)
    ensures s.error == "" && !s.loading
  {
    State(RegisterData("", "", "", "", "", DefaultRole), "", false)
  }

  function Get(form: RegisterData, field: Field): string {
    match field
    case Email => form.email
    case Password => form.password
    case FirstName => form.firstName
    case LastName => form.lastName
    case Phone => form.phone
    case RoleCode => form.roleCode
  }

  /** `handleChange`: the named field takes the control's value. */
  function Edit(form: RegisterData, field: Field, value: string): (f: RegisterData)
    ensures Get(f, field) == value
  {
    match field
    case Email => form.(email := value)
    case Password => form.(password := value)
    case FirstName => form.(firstName := value)
    case LastName => form.(lastName := value)
    case Phone => form.(phone := value)
    case RoleCode => form.(roleCode := value)
  }

  /** An edit changes the named field and no other. */
  lemma EditOnlyNamedField(form: RegisterData, field: Field, value: string, other: Field)
    ensures Get(Edit(form, field, value), other) == if other == field then value else Get(form, other)
  {
  }

  /** The declared constraints: email, first and last name required, the
      password required and at least 6 characters long; the phone is
      optional and the role select always has a value. */
  predicate Valid(form: RegisterData) {
    form.email != "" && |form.password| >= PasswordMinLength && form.firstName != "" && form.lastName != ""
  }

  /** The first half of a submit: the browser lets a valid form submit;
      the error is cleared, the page becomes busy and `register` is called
      with the form. */
  function BeginSubmit(s: State): (r: Step)
    ensures !Valid(s.form) ==> r == Step(s, [])
    ensures Valid(s.form) ==> r.state == State(s.form, "", true) && r.effects == [CallRegister(s.form)]
  {
    if !Valid(s.form) then Step(s, [])
    else Step(State(s.form, "", true), [CallRegister(s.form)])
  }

  /** The second half, once `register` settles: home on success, the
      result's error otherwise; idle in both cases. */
  function FinishSubmit(s: State, result: AuthResult): (r: Step)
    ensures !r.state.loading && r.state.form == s.form
    ensures result.AuthSuccess? ==> r.effects == [Navigate("/")] && r.state.error == s.error
    ensures result.AuthFailure? ==> r.effects == [] && r.state.error == result.error
  {
    match result
    case AuthSuccess => Step(s.(loading := false), [Navigate("/")])
    case AuthFailure(e) => Step(s.(loading := false, error := e), [])
  }

  function Attempt(s: State, result: AuthResult): Step {
    var b := BeginSubmit(s);
    if !Valid(s.form) then b
    else
      var f := FinishSubmit(b.state, result);
      Step(f.state, b.effects + f.effects)
  }

  /** A valid form is sent to `register` as it is; the page navigates home
      exactly on success, then shows no error; on failure it stays and
      shows the result's error; it is idle afterwards. A form the browser
      rejects changes nothing. */
  lemma AttemptProtocol(s: State, result: AuthResult)
    ensures Valid(s.form) ==> Attempt(s, result).effects[0] == CallRegister(s.form)
    ensures Navigate("/") in Attempt(s, result).effects <==> Valid(s.form) && result.AuthSuccess?
    ensures Valid(s.form) && result.AuthSuccess? ==> Attempt(s, result).state.error == ""
    ensures Valid(s.form) && result.AuthFailure? ==>
              Attempt(s, result).state.error == result.error && Attempt(s, result).effects == [CallRegister(s.form)]
    ensures Valid(s.form) ==> !Attempt(s, result).state.loading
    ensures !Valid(s.form) ==> Attempt(s, result) == Step(s, [])
  {
    if Valid(s.form) {
      var r := Attempt(s, result);
      assert r.effects == [CallRegister(s.form)] + FinishSubmit(BeginSubmit(s).state, result).effects;
    }
  }

  /** A stale error never survives a new submit: whatever the previous
      error, it is cleared, and a successful registration leaves none. */
  lemma SubmitClearsStaleError(s: State, result: AuthResult)
    requires Valid(s.form)
    ensures BeginSubmit(s).state.error == ""
    ensures result.AuthSuccess? ==> Attempt(s, result).state.error == ""
  {
  }

  /** The error banner shows exactly when there is an error. */
  predicate ShowsError(s: State) {
    s.error != ""
  }

  /** The submit control is disabled exactly while a submit is in flight. */
  predicate SubmitDisabled(s: State) {
    s.loading
  }

  /** A press of the submit control: nothing while it is disabled,
      otherwise the browser's submit. */
  function Press(s: State): (r: Step)
    ensures SubmitDisabled(s) ==> r == Step(s, [])
    ensures !SubmitDisabled(s) ==> r == BeginSubmit(s)
  {
    if SubmitDisabled(s) then Step(s, []) else BeginSubmit(s)
  }

  /** A press calls `register` exactly when the page is idle and the form
      is valid, and while that call is in flight a second press calls
      nothing. */
  lemma NoSecondSubmitInFlight(s: State)
    ensures Press(s).effects != [] <==> !s.loading && Valid(s.form)
    ensures Valid(s.form) ==> Press(BeginSubmit(s).state).effects == []
  {
  }

  /** The page as it mounts cannot submit: the required fields are empty. */
  lemma InitialFormRejected()
    ensures !Valid(Init().form)
    ensures Press(Init()).effects == []
  {
  }

  /** After a submit the banner shows exactly when `register` failed with
      a non-empty error; a success shows none. */
  lemma ErrorShownIffFailed(s: State, result: AuthResult)
    requires Valid(s.form)
    ensures ShowsError(Attempt(s, result).state) <==> result.AuthFailure? && result.error != ""
  {
  }

  /** The registration request of a submitted form carries its role code
      under `role_code`. */
  lemma SubmittedRoleReachesServer(s: State, result: AuthResult)
    requires Valid(s.form)
    ensures var c := Attempt(s, result).effects[0];
            c.CallRegister? && Lookup(Register(c.data).payload.fields, "role_code") == Some(Str(s.form.roleCode))
  {
    AttemptProtocol(s, result);
  }
}
