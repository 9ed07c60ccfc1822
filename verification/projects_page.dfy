/** The projects list page: role gating, pagination, loading, and the
    create, edit and delete handlers it gives its cards and dialog. */
module ProjectsPage {
  import opened Js
  import opened Tables
  import opened Http
  import opened Entities
  import opened Ui
  import opened Paging
  import opened ProjectsApi
  import ProjectModal
  import DefectsPage

  datatype State = State(
    user: Option<User>,
    projects: seq<Project>,
    loading: bool,
    showModal: bool,
    selected: Option<Project>,
    pagination: Pagination)

  /** The API functions the page calls, with their arguments. */
  datatype Call =
    | ListCall(page: int, limit: int)
    | CreateCall(data: ProjectData)
    | UploadCall(projectId: int, file: FileRef)
    | UpdateCall(id: int, data: ProjectData)
    | DeleteCall(id: int)

  /** The request each call sends. */
  function RequestOf(c: Call): Request {
    match c
    case ListCall(page, limit) => GetProjects(page, limit, Null)
    case CreateCall(data) => CreateProject(data)
    case UploadCall(projectId, file) => UploadProjectImage(projectId, file)
    case UpdateCall(id, data) => UpdateProject(id, data)
    case DeleteCall(id) => DeleteProject(id)
  }

  /** Only the delete call sends a `DELETE`, and only the list call reads
      without writing. */
  lemma RequestVerbs(c: Call)
    ensures RequestOf(c).verb == DELETE <==> c.DeleteCall?
    ensures RequestOf(c).verb == GET <==> c.ListCall?
  {
  }

  datatype Handled = Handled(state: State, flow: Flow<Call>)

  const PageSize: int := 10
  const ManagerRole: string := "manager"

  const LoadFailMessage: string := "Ошибка при загрузке проектов"
  const CreatedMessage: string := "Проект успешно создан"
  const UpdatedMessage: string := "Проект успешно обновлён"
  const DeletedMessage: string := "Проект успешно удалён"
  const DeleteFailMessage: string := "Ошибка при удалении проекта"

  /** The page as it mounts: loading, nothing listed, no dialog, page 1
      of 1. */
  function Init(user: Option<User>): (s: State)
    ensures s.user == user && s.loading && s.projects == []
    ensures !s.showModal && s.selected.None? && s.pagination == Paging.Initial
  {
    State(user, [], true, false, None, Paging.Initial)
  }

  /** Only a manager manages projects (add button, card actions). */
  predicate CanManage(user: Option<User>) {
    user.Some? && user.value.role.Some? && user.value.role.value.code == ManagerRole
  }

  /** Nobody manages both projects and defects: the two pages gate on
      different roles. */
  lemma NoUserManagesBoth(user: Option<User>)
    ensures !(CanManage(user) && DefectsPage.CanManage(user))
  {
  }

  /** `handlePageChange`: only the current page changes. */
  function PageChange(s: State, page: int): (r: State)
    ensures r.pagination.currentPage == page
    ensures r.pagination.totalPages == s.pagination.totalPages && r.pagination.totalItems == s.pagination.totalItems
    ensures r == s.(pagination := r.pagination)
  {
    s.(pagination := GoTo(s.pagination, page))
  }

  // ---------------------------------------------------------------------
  // Loading

  /** The list call of the current page, 10 per page, with no status. */
  function LoadCall(s: State): (c: Call)
    ensures c == ListCall(s.pagination.currentPage, PageSize)
  {
    ListCall(s.pagination.currentPage, PageSize)
  }

  /** The list request is exactly the current page and the page size. */
  lemma LoadRequestIsPageAndLimit(s: State)
    ensures RequestOf(LoadCall(s)).query == [("page", IntToString(s.pagination.currentPage)), ("limit", "10")]
  {
    SmallNumerals();
  }

  /** The synchronous part of `loadProjects`: busy, and the list call
      made. */
  function BeginLoad(s: State): (h: Handled)
    ensures h.state == s.(loading := true)
    ensures h.flow == Flow([Send(LoadCall(s))], Completed)
  {
    Handled(s.(loading := true), Flow([Send(LoadCall(s))], Completed))
  }

  /** The rest of `loadProjects`, once the reply settles: the list
      (`projects || []`) and the server's pagination; a reply without
      pagination fails after the list was set and is reported like a
      failed request, which changes nothing but the alert. Idle afterwards
      in every case. */
  function FinishLoad(s: State, reply: Reply<ProjectList>): (h: Handled)
    ensures !h.state.loading && h.flow.outcome == Completed
    ensures reply.Ok? ==> h.state.projects == (if reply.value.projects.Some? then reply.value.projects.value else [])
    ensures reply.Ok? && reply.value.pagination.Some? ==>
              h.state.pagination == FromEnvelope(reply.value.pagination.value) && h.flow.effects == []
    ensures reply.Ok? && reply.value.pagination.None? ==>
              h.state.pagination == s.pagination && h.flow.effects == [Alert(LoadFailMessage)]
    ensures reply.Failed? ==> h.state == s.(loading := false) && h.flow.effects == [Alert(LoadFailMessage)]
    ensures h.state == s.(loading := false, projects := h.state.projects, pagination := h.state.pagination)
  {
    match reply
    case Failed(_) => Handled(s.(loading := false), Flow([Alert(LoadFailMessage)], Completed))
    case Ok(list) =>
      var listed := s.(projects := if list.projects.Some? then list.projects.value else []);
      match list.pagination
      case Some(e) => Handled(listed.(pagination := FromEnvelope(e), loading := false), Flow([], Completed))
      case None => Handled(listed.(loading := false), Flow([Alert(LoadFailMessage)], Completed))
  }

  // ---------------------------------------------------------------------
  // Views and the dialog

  /** While a load is in flight the placeholder replaces the whole page,
      the dialog included. */
  predicate ShowsLoadingView(s: State) {
    s.loading
  }

  predicate ShowsModal(s: State) {
    !ShowsLoadingView(s) && s.showModal
  }

  /** The pager under a non-empty list. */
  function PagerView(s: State): (v: Option<Pager>)
    ensures v.Some? <==> !s.loading && |s.projects| > 0 && s.pagination.totalPages > 1
    ensures v.Some? ==> Some(v.value) == PagerOf(s.pagination)
  {
    if !s.loading && |s.projects| > 0 then PagerOf(s.pagination) else None
  }

  const CreateFirstHint: string := "Создайте первый проект, нажав на кнопку выше"
  const AwaitManagerHint: string := "Проекты появятся здесь, когда их создаст менеджер"

  /** The role-gated parts of the page: the add button, the actions of
      each card in list order, and the hint under an empty list. */
  datatype Controls = Controls(addButton: bool, cardActions: seq<bool>, emptyHint: Option<string>)

  /** What the page offers outside the loading view: management controls
      exactly when the user may manage projects, and a hint that tells a
      manager to create the first project and anyone else to wait for one. */
  function ControlsView(s: State): (v: Option<Controls>)
    ensures v.None? <==> s.loading
    ensures v.Some? ==> (v.value.addButton <==> CanManage(s.user))
    ensures v.Some? ==> |v.value.cardActions| == |s.projects|
    ensures v.Some? ==> forall i :: 0 <= i < |v.value.cardActions| ==> v.value.cardActions[i] == v.value.addButton
    ensures v.Some? ==> (v.value.emptyHint.Some? <==> s.projects == [])
    ensures v.Some? && s.projects == [] ==>
              v.value.emptyHint == Some(if CanManage(s.user) then CreateFirstHint else AwaitManagerHint)
  {
    if s.loading then None
    else
      var manage := CanManage(s.user);
      Some(Controls(manage, seq(|s.projects|, _ => manage),
               if s.projects == [] then Some(if manage then CreateFirstHint else AwaitManagerHint) else None))
  }

  /** `user?.role?.code === 'manager'`: the controls show exactly for a
      user whose role code is the manager's; no user, or a user without a
      role, sees neither the add button nor any card action. */
  lemma ControlsShownIffManager(s: State)
    ensures ControlsView(s).Some? ==>
              (ControlsView(s).value.addButton <==> s.user.Some? && s.user.value.role == Some(Role(ManagerRole)))
    ensures ControlsView(s).Some? && (s.user.None? || s.user.value.role.None?) ==>
              !ControlsView(s).value.addButton
              && forall i :: 0 <= i < |s.projects| ==> !ControlsView(s).value.cardActions[i]
  {
  }

  /** Each registrable role manages at most one kind of record: a manager
      the projects, an engineer the defects, an observer neither. */
  lemma ManagementByRole(user: User)
    ensures user.role == Some(Role("manager")) ==> CanManage(Some(user)) && !DefectsPage.CanManage(Some(user))
    ensures user.role == Some(Role("engineer")) ==> DefectsPage.CanManage(Some(user)) && !CanManage(Some(user))
    ensures user.role == Some(Role("observer")) ==> !CanManage(Some(user)) && !DefectsPage.CanManage(Some(user))
  {
  }

  /** `handleOpenModal(project = null)`. */
  function OpenModal(s: State, project: Option<Project>): (r: State)
    ensures r.showModal && r.selected == project
    ensures r == s.(showModal := true, selected := project)
  {
    s.(showModal := true, selected := project)
  }

  function CloseModal(s: State): (r: State)
    ensures !r.showModal && r.selected.None?
    ensures r == s.(showModal := false, selected := None)
  {
    s.(showModal := false, selected := None)
  }

  /** Closing the dialog forgets the selection, so the add button always
      opens a create dialog afterwards. */
  lemma ClosingClearsSelection(s: State)
    ensures CloseModal(s).selected.None? && !ShowsModal(CloseModal(s))
    ensures OpenModal(CloseModal(s), None).selected.None?
  {
  }

  // ---------------------------------------------------------------------
  // Create, update, delete

  /** `handleCreateProject`. `created` is the create reply with the new
      project's id (`None` when the reply has no `project`), `uploaded`
      the upload reply. The image, when there is one, is uploaded after
      the creation succeeded and with the new id; then the list is
      reloaded (not awaited) and the success alert shown. Any failure is
      rethrown with nothing undone; a reply without a project fails only
      when there is an image. */
  function HandleCreate(s: State, form: ProjectData, image: Option<FileRef>,
                        created: Reply<Option<int>>, uploaded: Reply<()>): (h: Handled)
    ensures created.Failed? ==> h == Handled(s, Flow([Send(CreateCall(form))], Rethrown(created.message)))
    ensures created.Ok? && image.None? ==>
              h == Handled(s.(loading := true), Flow([Send(CreateCall(form)), Send(LoadCall(s)), Alert(CreatedMessage)], Completed))
    ensures created.Ok? && image.Some? && created.value.None? ==>
              h == Handled(s, Flow([Send(CreateCall(form))], Rethrown(HostTypeError)))
    ensures created.Ok? && image.Some? && created.value.Some? && uploaded.Failed? ==>
              h == Handled(s, Flow([Send(CreateCall(form)), Send(UploadCall(created.value.value, image.value))], Rethrown(uploaded.message)))
    ensures created.Ok? && image.Some? && created.value.Some? && uploaded.Ok? ==>
              h == Handled(s.(loading := true),
                           Flow([Send(CreateCall(form)), Send(UploadCall(created.value.value, image.value)),
                                 Send(LoadCall(s)), Alert(CreatedMessage)], Completed))
  {
    var create := Send(CreateCall(form));
    var done := [Send(LoadCall(s)), Alert(CreatedMessage)];
    if created.Failed? then Handled(s, Flow([create], Rethrown(created.message)))
    else if image.None? then Handled(s.(loading := true), Flow([create] + done, Completed))
    else if created.value.None? then Handled(s, Flow([create], Rethrown(HostTypeError)))
    else
      var upload := Send(UploadCall(created.value.value, image.value));
      if uploaded.Failed? then Handled(s, Flow([create, upload], Rethrown(uploaded.message)))
      else Handled(s.(loading := true), Flow([create, upload] + done, Completed))
  }

  /** The uploads a trace makes, at their positions. */
  predicate UploadAt(effects: seq<Effect<Call>>, i: int) {
    0 <= i < |effects| && effects[i].Send? && effects[i].call.UploadCall?
  }

  /** A create uploads at most once, and does so exactly when an image was
      chosen and the creation succeeded with an id; the upload comes right
      after the create call and carries the new id and the chosen file. */
  lemma CreateUploadsOnlyTheChosenImage(s: State, form: ProjectData, image: Option<FileRef>,
                                        created: Reply<Option<int>>, uploaded: Reply<()>)
    ensures var es := HandleCreate(s, form, image, created, uploaded).flow.effects;
            forall i, j :: UploadAt(es, i) && UploadAt(es, j) ==> i == j
    ensures var es := HandleCreate(s, form, image, created, uploaded).flow.effects;
            (exists i :: UploadAt(es, i)) <==> image.Some? && created.Ok? && created.value.Some?
    ensures var es := HandleCreate(s, form, image, created, uploaded).flow.effects;
            image.Some? && created.Ok? && created.value.Some? ==>
              es[0] == Send(CreateCall(form)) && es[1] == Send(UploadCall(created.value.value, image.value))
  {
    var es := HandleCreate(s, form, image, created, uploaded).flow.effects;
    if image.Some? && created.Ok? && created.value.Some? {
      assert UploadAt(es, 1);
    }
  }

  /** `handleUpdateProject`: the update of the selected project, then the
      image, when there is one, for the same project; then the reload and
      the success alert. A failure is rethrown; without a selection
      reading its id fails. */
  function HandleUpdate(s: State, form: ProjectData, image: Option<FileRef>,
                        updated: Reply<()>, uploaded: Reply<()>): (h: Handled)
    ensures s.selected.None? ==> h == Handled(s, Flow([], Rethrown(HostTypeError)))
    ensures s.selected.Some? && updated.Failed? ==>
              h == Handled(s, Flow([Send(UpdateCall(s.selected.value.id, form))], Rethrown(updated.message)))
    ensures s.selected.Some? && updated.Ok? && image.None? ==>
              h == Handled(s.(loading := true),
                           Flow([Send(UpdateCall(s.selected.value.id, form)), Send(LoadCall(s)), Alert(UpdatedMessage)], Completed))
    ensures s.selected.Some? && updated.Ok? && image.Some? && uploaded.Failed? ==>
              h == Handled(s, Flow([Send(UpdateCall(s.selected.value.id, form)), Send(UploadCall(s.selected.value.id, image.value))],
                                   Rethrown(uploaded.message)))
    ensures s.selected.Some? && updated.Ok? && image.Some? && uploaded.Ok? ==>
              h == Handled(s.(loading := true),
                           Flow([Send(UpdateCall(s.selected.value.id, form)), Send(UploadCall(s.selected.value.id, image.value)),
                                 Send(LoadCall(s)), Alert(UpdatedMessage)], Completed))
  {
    if s.selected.None? then Handled(s, Flow([], Rethrown(HostTypeError)))
    else
      var id := s.selected.value.id;
      var update := Send(UpdateCall(id, form));
      var done := [Send(LoadCall(s)), Alert(UpdatedMessage)];
      if updated.Failed? then Handled(s, Flow([update], Rethrown(updated.message)))
      else if image.None? then Handled(s.(loading := true), Flow([update] + done, Completed))
      else
        var upload := Send(UploadCall(id, image.value));
        if uploaded.Failed? then Handled(s, Flow([update, upload], Rethrown(uploaded.message)))
        else Handled(s.(loading := true), Flow([update, upload] + done, Completed))
  }

  /** An update's upload, when there is one, targets the project being
      edited and follows a successful update. */
  lemma UpdateUploadsForSelectedProject(s: State, form: ProjectData, image: Option<FileRef>,
                                        updated: Reply<()>, uploaded: Reply<()>)
    ensures var es := HandleUpdate(s, form, image, updated, uploaded).flow.effects;
            forall i :: UploadAt(es, i) ==>
              i == 1 && s.selected.Some? && updated.Ok? && es[i] == Send(UploadCall(s.selected.value.id, image.value))
              && es[0] == Send(UpdateCall(s.selected.value.id, form))
  {
  }

  /** A card's delete: nothing unless the user confirms; then the delete,
      and the reload with the success alert, or only the failure alert.
      A delete never rethrows. */
  function HandleDelete(s: State, id: int, confirmed: bool, deleted: Reply<()>): (h: Handled)
    ensures h.flow.outcome == Completed
    ensures !confirmed ==> h == Handled(s, Flow([], Completed))
    ensures confirmed && deleted.Failed? ==>
              h == Handled(s, Flow([Send(DeleteCall(id)), Alert(DeleteFailMessage)], Completed))
    ensures confirmed && deleted.Ok? ==>
              h == Handled(s.(loading := true), Flow([Send(DeleteCall(id)), Send(LoadCall(s)), Alert(DeletedMessage)], Completed))
  {
    if !confirmed then Handled(s, Flow([], Completed))
    else if deleted.Failed? then Handled(s, Flow([Send(DeleteCall(id)), Alert(DeleteFailMessage)], Completed))
    else Handled(s.(loading := true), Flow([Send(DeleteCall(id)), Send(LoadCall(s)), Alert(DeletedMessage)], Completed))
  }

  /** `handleSubmitModal`: an update when a project is selected, a create
      otherwise. */
  function SubmitModal(s: State, form: ProjectData, image: Option<FileRef>,
                       created: Reply<Option<int>>, updated: Reply<()>, uploaded: Reply<()>): (h: Handled)
    ensures s.selected.Some? ==> h == HandleUpdate(s, form, image, updated, uploaded)
    ensures s.selected.None? ==> h == HandleCreate(s, form, image, created, uploaded)
  {
    if s.selected.Some? then HandleUpdate(s, form, image, updated, uploaded)
    else HandleCreate(s, form, image, created, uploaded)
  }

  /** Of the handlers behind the dialog and the cards, only the delete
      swallows its failure; a failed create or update reaches the dialog. */
  lemma OnlyDeleteSwallowsFailure(s: State, form: ProjectData, image: Option<FileRef>, id: int,
                                  created: Reply<Option<int>>, updated: Reply<()>, uploaded: Reply<()>, deleted: Reply<()>)
    ensures s.selected.None? && created.Failed? ==> SubmitModal(s, form, image, created, updated, uploaded).flow.outcome.Rethrown?
    ensures s.selected.Some? && updated.Failed? ==> SubmitModal(s, form, image, created, updated, uploaded).flow.outcome.Rethrown?
    ensures HandleDelete(s, id, true, deleted).flow.outcome == Completed
    ensures deleted.Failed? ==> Alert(DeleteFailMessage) in HandleDelete(s, id, true, deleted).flow.effects
  {
  }

  /** The project dialog closes exactly when the page's handler completes:
      a named form whose create or update, and upload if any, succeeded. */
  lemma ProjectDialogClosesIffHandlerCompletes(ms: ProjectModal.State, s: State,
                                               created: Reply<Option<int>>, updated: Reply<()>, uploaded: Reply<()>)
    ensures var h := SubmitModal(s, ms.form, ms.image, created, updated, uploaded);
            var r := ProjectModal.Attempt(ms, h.flow.outcome == Completed);
            Closed in r.effects <==> ProjectModal.Valid(ms.form) && h.flow.outcome == Completed
  {
    var h := SubmitModal(s, ms.form, ms.image, created, updated, uploaded);
    ProjectModal.AttemptProtocol(ms, h.flow.outcome == Completed);
  }
}
