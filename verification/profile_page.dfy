/** The profile page: the description of the user's role, the avatar's
    initials, which view is shown, and the confirmed logout. */
module ProfilePage {
  import opened Js
  import opened Tables
  import opened Entities
  import RegisterPage
  import DefectsPage
  import ProjectsPage

  /** What the page says about a role. */
  datatype RoleInfo = RoleInfo(title: string, description: string, color: string)

  const RoleDescriptions: Table<RoleInfo> := [
    ("manager", RoleInfo(
      "Менеджер",
      "Полный доступ к управлению проектами: создание, редактирование и удаление объектов. Назначение задач, контроль сроков, формирование отчётов.",
      "#2196F3")),
    ("engineer", RoleInfo(
      "Инженер",
      "Регистрация дефектов на объектах, обновление информации о дефектах, изменение статусов работ.",
      "#4CAF50")),
    ("observer", RoleInfo(
      "Наблюдатель",
      "Просмотр прогресса работ и отчётности по проектам. Доступ только для чтения.",
      "#FF9800"))
  ]

  const FallbackRole: string := "observer"

  /** Three roles, each once, told apart by title and by colour. */
  lemma RoleTableWellFormed()
    ensures Keys(RoleDescriptions) == ["manager", "engineer", "observer"]
    ensures DistinctKeys(RoleDescriptions)
    ensures forall i, j :: 0 <= i < j < |RoleDescriptions| ==>
              RoleDescriptions[i].1.title != RoleDescriptions[j].1.title
              && RoleDescriptions[i].1.color != RoleDescriptions[j].1.color
  {
  }

  /** The observer's entry, which unknown roles fall back to. */
  function ObserverInfo(): (r: RoleInfo)
    ensures Lookup(RoleDescriptions, FallbackRole) == Some(r)
  {
    RoleTableWellFormed();
    assert RoleDescriptions[2].0 == FallbackRole;
    RoleDescriptions[2].1
  }

  /** `ROLE_DESCRIPTIONS[code] || ROLE_DESCRIPTIONS.observer`: a known code
      gets its entry, an unknown one the observer's. */
  function RoleInfoOf(code: string): (r: RoleInfo)
    ensures code in Keys(RoleDescriptions) ==> Lookup(RoleDescriptions, code) == Some(r)
    ensures code !in Keys(RoleDescriptions) ==> r == ObserverInfo()
  {
    LookupOr(RoleDescriptions, code, ObserverInfo())
  }

  /** The observer's description is shown exactly for the observer and
      for every code the page does not know. */
  lemma ObserverInfoIffObserverOrUnknown(code: string)
    ensures RoleInfoOf(code) == ObserverInfo() <==> code == FallbackRole || code !in Keys(RoleDescriptions)
  {
    RoleTableWellFormed();
    var r := RoleInfoOf(code);
    if code in Keys(RoleDescriptions) && code != FallbackRole {
      assert (code, r) in RoleDescriptions;
      assert r.title != ObserverInfo().title;
    }
  }

  /** The roles one can register with are exactly the ones the profile
      describes, under the same labels; the roles the list pages gate on
      are among them. */
  lemma RegistrableRolesAreDescribed()
    ensures Keys(RegisterPage.Roles) == Keys(RoleDescriptions)
    ensures forall i :: 0 <= i < |RoleDescriptions| ==> RegisterPage.Roles[i].1 == RoleDescriptions[i].1.title
    ensures DefectsPage.EngineerRole in Keys(RoleDescriptions) && ProjectsPage.ManagerRole in Keys(RoleDescriptions)
  {
    RoleTableWellFormed();
    RegisterPage.RolesWellFormed();
  }

  // ---------------------------------------------------------------------
  // Initials

  /** `name[0]` inside a template literal: the first character, or the text
      `undefined` for an empty name. */
  function FirstCharAsWritten(name: string): (t: string)
    ensures name != "" ==> t == [name[0]]
    ensures name == "" ==> t == "undefined"
  {
    if name == "" then "undefined" else [name[0]]
  }

  /** The initials as the page computes them. */
  function InitialsAsWritten(firstName: string, lastName: string): (t: string)
    ensures firstName != "" && lastName != "" ==> t == [ToUpper(firstName[0]), ToUpper(lastName[0])]
  {
    UpperCase(FirstCharAsWritten(firstName) + FirstCharAsWritten(lastName))
  }

  /** A user without a first name gets the avatar text `UNDEFINEDP` (for
      last name `Petrov`) instead of a single initial. */
  lemma InitialsAsWrittenShowUndefined()
    ensures InitialsAsWritten("", "Petrov") == "UNDEFINEDP"
    ensures |InitialsAsWritten("", "Petrov")| == 10
  {
    var t := FirstCharAsWritten("") + FirstCharAsWritten("Petrov");
    assert t == "undefinedP";
    var u := UpperCase(t);
    assert u[0] == 'U' && u[1] == 'N' && u[2] == 'D' && u[3] == 'E' && u[4] == 'F';
    assert u[5] == 'I' && u[6] == 'N' && u[7] == 'E' && u[8] == 'D' && u[9] == 'P';
  }

  /** The first character of a name, or nothing for an empty name. */
  function FirstChar(name: string): (t: string)
    ensures |t| <= 1
    ensures |t| == 1 <==> name != ""
    ensures name != "" ==> t[0] == name[0]
  {
    if name == "" then "" else [name[0]]
  }

  /** The initials as intended: the upper-cased first character of each
      name that has one. */
  function Initials(firstName: string, lastName: string): (t: string)
    ensures |t| == |FirstChar(firstName)| + |FirstChar(lastName)|
    ensures firstName != "" ==> t[0] == ToUpper(firstName[0])
    ensures lastName != "" ==> t[|t| - 1] == ToUpper(lastName[0])
  {
    UpperCase(FirstChar(firstName) + FirstChar(lastName))
  }

  /** The intended initials agree with the page's whenever both names are
      present, hold at most two characters, and are already upper case. */
  lemma InitialsAgreeWhenNamesPresent(firstName: string, lastName: string)
    ensures firstName != "" && lastName != "" ==> Initials(firstName, lastName) == InitialsAsWritten(firstName, lastName)
    ensures |Initials(firstName, lastName)| <= 2
    ensures UpperCase(Initials(firstName, lastName)) == Initials(firstName, lastName)
  {
    var t := FirstChar(firstName) + FirstChar(lastName);
    UpperCaseIdempotent(t);
    if firstName != "" && lastName != "" {
      assert FirstChar(firstName) == FirstCharAsWritten(firstName);
      assert FirstChar(lastName) == FirstCharAsWritten(lastName);
    }
  }

  // ---------------------------------------------------------------------
  // Views and logout

  /** The page shown; `RenderFails` stands for the error thrown when a
      property of a missing role or of a missing name is read while
      rendering. */
  datatype View =
    | LoadingView
    | NoProfileView
    | RenderFails
    | ProfileView(info: RoleInfo, initials: string, showsPhone: bool, accountStatus: string)

  /** The loading view while the session loads; then the error view when
      there is no user; then the profile, which needs the user's role and
      both names. The profile carries the intended initials, which are the
      page's own whenever both names are non-empty. */
  function ViewOf(loading: bool, user: Option<User>): (v: View)
    ensures loading <==> v.LoadingView?
    ensures !loading && user.None? <==> v.NoProfileView?
    ensures v.RenderFails? <==>
              !loading && user.Some? && (user.value.role.None? || user.value.firstName.None? || user.value.lastName.None?)
    ensures v.ProfileView? ==>
              v.info == RoleInfoOf(user.value.role.value.code)
              && v.initials == Initials(user.value.firstName.value, user.value.lastName.value)
              && (v.showsPhone <==> user.value.phone != "")
              && (v.accountStatus == "Активен" <==> user.value.isActive)
    ensures v.ProfileView? && user.value.firstName.value != "" && user.value.lastName.value != "" ==>
              v.initials == InitialsAsWritten(user.value.firstName.value, user.value.lastName.value)
  {
    if loading then LoadingView
    else if user.None? then NoProfileView
    else if user.value.role.None? || user.value.firstName.None? || user.value.lastName.None? then RenderFails
    else
      var u := user.value;
      InitialsAgreeWhenNamesPresent(u.firstName.value, u.lastName.value);
      ProfileView(RoleInfoOf(u.role.value.code), Initials(u.firstName.value, u.lastName.value), u.phone != "",
                  if u.isActive then "Активен" else "Неактивен")
  }

  /** The views are checked in order: while loading nothing else matters,
      and without a user the role is never read. */
  lemma ViewPrecedence(user: Option<User>, other: Option<User>)
    ensures ViewOf(true, user) == ViewOf(true, other)
    ensures user.None? ==> ViewOf(false, user) == NoProfileView
  {
  }

  datatype Effect = Logout | Navigate(path: string)

  /** `handleLogout`: the session ends and the login page opens only when
      the user confirms. */
  function HandleLogout(confirmed: bool): (es: seq<Effect>)
    ensures Logout in es <==> confirmed
    ensures confirmed ==> es == [Logout, Navigate("/login")]
    ensures !confirmed ==> es == []
  {
    if confirmed then [Logout, Navigate("/login")] else []
  }
}
