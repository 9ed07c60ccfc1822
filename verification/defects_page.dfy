/** The defects list page: role gating, filters, pagination, loading,
    and the create, edit, status and delete handlers it gives its cards
    and dialogs. Each handler is one atomic transition; the replies of the
    calls it awaits are parameters. */
module DefectsPage {
  import opened Js
  import opened Tables
  import opened Http
  import opened Entities
  import opened Ui
  import opened Paging
  import opened DefectsApi
  import ProjectsApi
  import DefectModal
  import StatusModal

  datatype Filters = Filters(projectId: string, status: string, priority: string)

  /** The filter selects, by their `name` attribute. */
  datatype FilterField = ProjectFilter | StatusFilter | PriorityFilter

  datatype State = State(
    user: Option<User>,
    defects: seq<Defect>,
    projects: seq<Project>,
    loading: bool,
    showDefectModal: bool,
    showStatusModal: bool,
    selected: Option<Defect>,
    filters: Filters,
    pagination: Pagination)

  /** The API functions the page calls, with their arguments. */
  datatype Call =
    | ListDefectsCall(projectId: Value, page: int, limit: int, status: Value, priority: Value)
    | ListProjectsCall(page: int, limit: int)
    | CreateCall(data: DefectData)
    | UploadCall(defectId: int, file: FileRef)
    | UpdateCall(id: int, data: DefectData)
    | StatusCall(id: int, newStatus: string)
    | DeleteCall(id: int)

  /** The request each call sends. */
  function RequestOf(c: Call): Request {
    match c
    case ListDefectsCall(projectId, page, limit, status, priority) => GetDefects(projectId, page, limit, status, priority)
    case ListProjectsCall(page, limit) => ProjectsApi.GetProjects(page, limit, Null)
    case CreateCall(data) => CreateDefect(data)
    case UploadCall(defectId, file) => UploadDefectImage(defectId, file)
    case UpdateCall(id, data) => UpdateDefect(id, data)
    case StatusCall(id, newStatus) => UpdateDefectStatus(id, newStatus)
    case DeleteCall(id) => DeleteDefect(id)
  }

  /** Only the delete call sends a `DELETE`, and only the list calls read
      without writing. */
  lemma RequestVerbs(c: Call)
    ensures RequestOf(c).verb == DELETE <==> c.DeleteCall?
    ensures RequestOf(c).verb == GET <==> c.ListDefectsCall? || c.ListProjectsCall?
  {
  }

  /** A handler's resulting page state and what it did. */
  datatype Handled = Handled(state: State, flow: Flow<Call>)

  const PageSize: int := 20
  const ProjectsForFilter: int := 100
  const EngineerRole: string := "engineer"

  const LoadFailMessage: string := "Ошибка при загрузке дефектов"
  const CreatedMessage: string := "Дефект успешно создан"
  const UpdatedMessage: string := "Дефект успешно обновлён"
  const StatusChangedMessage: string := "Статус успешно изменён"
  const DeletedMessage: string := "Дефект успешно удалён"
  const DeleteFailMessage: string := "Ошибка при удалении дефекта"

  /** The page as it mounts: loading, nothing listed, no dialog, no
      filter, page 1 of 1. */
  function Init(user: Option<User>): (s: State)
    ensures s.user == user && s.loading && s.defects == [] && s.projects == []
    ensures !s.showDefectModal && !s.showStatusModal && s.selected.None?
    ensures s.filters == Filters("", "", "") && s.pagination == Paging.Initial
  {
    State(user, [], [], true, false, false, None, Filters("", "", ""), Paging.Initial)
  }

  /** Only an engineer manages defects (add button, card actions). */
  predicate CanManage(user: Option<User>) {
    user.Some? && user.value.role.Some? && user.value.role.value.code == EngineerRole
  }

  // ---------------------------------------------------------------------
  // Filters and pages

  function FilterValue(f: Filters, field: FilterField): string {
    match field
    case ProjectFilter => f.projectId
    case StatusFilter => f.status
    case PriorityFilter => f.priority
  }

  /** `handleFilterChange`: the named filter takes the select's value, the
      list goes back to page 1, and nothing else changes. */
  function FilterChange(s: State, field: FilterField, value: string): (r: State)
    ensures FilterValue(r.filters, field) == value
    ensures forall g :: g != field ==> FilterValue(r.filters, g) == FilterValue(s.filters, g)
    ensures r.pagination == s.pagination.(currentPage := 1)
    ensures r == s.(filters := r.filters, pagination := r.pagination)
  {
    var f := match field
      case ProjectFilter => s.filters.(projectId := value)
      case StatusFilter => s.filters.(status := value)
      case PriorityFilter => s.filters.(priority := value);
    s.(filters := f, pagination := s.pagination.(currentPage := 1))
  }

  /** `handlePageChange`: only the current page changes. */
  function PageChange(s: State, page: int): (r: State)
    ensures r.pagination.currentPage == page
    ensures r.pagination.totalPages == s.pagination.totalPages && r.pagination.totalItems == s.pagination.totalItems
    ensures r == s.(pagination := r.pagination)
  {
    s.(pagination := GoTo(s.pagination, page))
  }

  // ---------------------------------------------------------------------
  // Loading

  /** The list call of the current filters and page: the project filter
      or `null`, the current page, 20, and the status and priority filters
      as they are. */
  function LoadCall(s: State): (c: Call)
    ensures c.ListDefectsCall? && c.page == s.pagination.currentPage && c.limit == PageSize
    ensures Truthy(c.projectId) <==> s.filters.projectId != ""
    ensures c.projectId == if s.filters.projectId != "" then Str(s.filters.projectId) else Null
    ensures c.status == Str(s.filters.status) && c.priority == Str(s.filters.priority)
  {
    ListDefectsCall(Or(Str(s.filters.projectId), Null), s.pagination.currentPage, PageSize,
                    Str(s.filters.status), Str(s.filters.priority))
  }

  function LoadRequest(s: State): Request {
    RequestOf(LoadCall(s))
  }

  /** The list request carries the current page, 20 per page, and each
      filter exactly when it is set, with its value unchanged. */
  lemma LoadRequestCarriesFilters(s: State)
    ensures var q := LoadRequest(s).query;
            q[0] == ("page", IntToString(s.pagination.currentPage)) && q[1] == ("limit", IntToString(PageSize))
    ensures Lookup(LoadRequest(s).query, "project_id")
            == (if s.filters.projectId != "" then Some(s.filters.projectId) else None)
    ensures Lookup(LoadRequest(s).query, "status")
            == (if s.filters.status != "" then Some(s.filters.status) else None)
    ensures Lookup(LoadRequest(s).query, "priority")
            == (if s.filters.priority != "" then Some(s.filters.priority) else None)
  {
    var r := LoadRequest(s);
    assert Truthy(Or(Str(s.filters.projectId), Null)) <==> s.filters.projectId != "";
    if s.filters.projectId != "" {
      assert Or(Str(s.filters.projectId), Null) == Str(s.filters.projectId);
    }
  }

  /** After a filter change the next load asks for page 1 with the new
      filter value. */
  lemma FilterChangeReloadsFirstPage(s: State, field: FilterField, value: string)
    ensures LoadRequest(FilterChange(s, field, value)).query[0] == ("page", "1")
    ensures field == StatusFilter ==>
              Lookup(LoadRequest(FilterChange(s, field, value)).query, "status") == (if value != "" then Some(value) else None)
    ensures field == PriorityFilter ==>
              Lookup(LoadRequest(FilterChange(s, field, value)).query, "priority") == (if value != "" then Some(value) else None)
    ensures field == ProjectFilter ==>
              Lookup(LoadRequest(FilterChange(s, field, value)).query, "project_id") == (if value != "" then Some(value) else None)
  {
    var r := FilterChange(s, field, value);
    LoadRequestCarriesFilters(r);
    SmallNumerals();
  }

  /** The synchronous part of `loadDefects`: busy, and the list request
      sent. */
  function BeginLoad(s: State): (h: Handled)
    ensures h.state == s.(loading := true)
    ensures h.flow == Flow([Send(LoadCall(s))], Completed)
  {
    Handled(s.(loading := true), Flow([Send(LoadCall(s))], Completed))
  }

  /** The rest of `loadDefects`, once the list reply settles. A reply
      replaces the list (`defects || []`) and then takes over the server's
      pagination; a reply without pagination fails on reading it, after
      the list was set, and is reported like a failed request. A failed
      request changes nothing but the alert. The page is idle afterwards
      in every case. */
  function FinishLoad(s: State, reply: Reply<DefectList>): (h: Handled)
    ensures !h.state.loading && h.flow.outcome == Completed
    ensures reply.Ok? ==> h.state.defects == (if reply.value.defects.Some? then reply.value.defects.value else [])
    ensures reply.Ok? && reply.value.pagination.Some? ==>
              h.state.pagination == FromEnvelope(reply.value.pagination.value) && h.flow.effects == []
    ensures reply.Ok? && reply.value.pagination.None? ==>
              h.state.pagination == s.pagination && h.flow.effects == [Alert(LoadFailMessage)]
    ensures reply.Failed? ==> h.state == s.(loading := false) && h.flow.effects == [Alert(LoadFailMessage)]
    ensures h.state == s.(loading := false, defects := h.state.defects, pagination := h.state.pagination)
  {
    match reply
    case Failed(_) => Handled(s.(loading := false), Flow([Alert(LoadFailMessage)], Completed))
    case Ok(list) =>
      var listed := s.(defects := if list.defects.Some? then list.defects.value else []);
      match list.pagination
      case Some(e) => Handled(listed.(pagination := FromEnvelope(e), loading := false), Flow([], Completed))
      case None => Handled(listed.(loading := false), Flow([Alert(LoadFailMessage)], Completed))
  }

  /** The projects offered by the project filter: the first 100. */
  const LoadProjectsCall: Call := ListProjectsCall(1, ProjectsForFilter)

  lemma LoadProjectsRequestsFirstHundred()
    ensures RequestOf(LoadProjectsCall).query == [("page", "1"), ("limit", "100")]
  {
    SmallNumerals();
  }

  /** `loadProjects` once its reply settles: the projects (`|| []`) on
      success; a failure is only logged. */
  function FinishLoadProjects(s: State, reply: Reply<ProjectList>): (r: State)
    ensures reply.Ok? ==> r == s.(projects := if reply.value.projects.Some? then reply.value.projects.value else [])
    ensures reply.Failed? ==> r == s
  {
    match reply
    case Ok(list) => s.(projects := if list.projects.Some? then list.projects.value else [])
    case Failed(_) => s
  }

  /** The placeholder replaces the page only while a load is in flight and
      the list is empty. */
  predicate ShowsLoadingView(s: State) {
    s.loading && |s.defects| == 0
  }

  /** The pager under a non-empty list. */
  function PagerView(s: State): (v: Option<Pager>)
    ensures v.Some? <==> !ShowsLoadingView(s) && |s.defects| > 0 && s.pagination.totalPages > 1
    ensures v.Some? ==> Some(v.value) == PagerOf(s.pagination)
  {
    if !ShowsLoadingView(s) && |s.defects| > 0 then PagerOf(s.pagination) else None
  }

  const CreateFirstHint: string := "Создайте первый дефект, нажав на кнопку выше"
  const AwaitEngineerHint: string := "Дефекты появятся здесь, когда их зарегистрирует инженер"

  /** The role-gated parts of the page: the add button, the actions of
      each card in list order, and the hint under an empty list. */
  datatype Controls = Controls(addButton: bool, cardActions: seq<bool>, emptyHint: Option<string>)

  /** What the page offers outside the loading view: management controls
      exactly when the user may manage defects, and a hint that tells a
      user who manages defects (an engineer) to create the first defect and
      anyone else to wait for one. */
  function ControlsView(s: State): (v: Option<Controls>)
    ensures v.None? <==> ShowsLoadingView(s)
    ensures v.Some? ==> (v.value.addButton <==> CanManage(s.user))
    ensures v.Some? ==> |v.value.cardActions| == |s.defects|
    ensures v.Some? ==> forall i :: 0 <= i < |v.value.cardActions| ==> v.value.cardActions[i] == v.value.addButton
    ensures v.Some? ==> (v.value.emptyHint.Some? <==> s.defects == [])
    ensures v.Some? && s.defects == [] ==>
              v.value.emptyHint == Some(if CanManage(s.user) then CreateFirstHint else AwaitEngineerHint)
  {
    if ShowsLoadingView(s) then None
    else
      var manage := CanManage(s.user);
      Some(Controls(manage, seq(|s.defects|, _ => manage),
               if s.defects == [] then Some(if manage then CreateFirstHint else AwaitEngineerHint) else None))
  }

  /** `user?.role?.code === 'engineer'`: the controls show exactly for a
      user whose role code is the engineer's; no user, or a user without a
      role, sees neither the add button nor any card action. */
  lemma ControlsShownIffEngineer(s: State)
    ensures ControlsView(s).Some? ==>
              (ControlsView(s).value.addButton <==> s.user.Some? && s.user.value.role == Some(Role(EngineerRole)))
    ensures ControlsView(s).Some? && (s.user.None? || s.user.value.role.None?) ==>
              !ControlsView(s).value.addButton
              && forall i :: 0 <= i < |s.defects| ==> !ControlsView(s).value.cardActions[i]
  {
  }

  // ---------------------------------------------------------------------
  // Dialogs

  /** `handleOpenDefectModal(defect = null)`: the edit dialog for a card,
      the create dialog for the add button. */
  function OpenDefectModal(s: State, defect: Option<Defect>): (r: State)
    ensures r.showDefectModal && r.selected == defect
    ensures r == s.(showDefectModal := true, selected := defect)
  {
    s.(showDefectModal := true, selected := defect)
  }

  function CloseDefectModal(s: State): (r: State)
    ensures !r.showDefectModal && r.selected.None?
    ensures r == s.(showDefectModal := false, selected := None)
  {
    s.(showDefectModal := false, selected := None)
  }

  function OpenStatusModal(s: State, defect: Defect): (r: State)
    ensures r.showStatusModal && r.selected == Some(defect)
    ensures r == s.(showStatusModal := true, selected := Some(defect))
  {
    s.(showStatusModal := true, selected := Some(defect))
  }

  function CloseStatusModal(s: State): (r: State)
    ensures !r.showStatusModal && r.selected.None?
    ensures r == s.(showStatusModal := false, selected := None)
  {
    s.(showStatusModal := false, selected := None)
  }

  /** The dialogs are drawn after the placeholder check, so neither shows
      while the placeholder does; the status dialog needs a selected
      defect besides. */
  predicate ShowsDefectModal(s: State) {
    !ShowsLoadingView(s) && s.showDefectModal
  }

  predicate ShowsStatusModal(s: State) {
    !ShowsLoadingView(s) && s.showStatusModal && s.selected.Some?
  }

  /** Closing either dialog forgets the selection, so the next dialog
      starts from a clean slate: the defect dialog opened with the add
      button is a create dialog, and the status dialog stays hidden until
      a card opens it. */
  lemma ClosingClearsSelection(s: State)
    ensures CloseDefectModal(s).selected.None? && CloseStatusModal(s).selected.None?
    ensures !ShowsStatusModal(CloseStatusModal(s))
    ensures OpenDefectModal(CloseDefectModal(s), None).selected.None?
  {
  }

  // ---------------------------------------------------------------------
  // Create, with its image uploads

  /** The upload requests of the images, in list order, all for the new
      defect. */
  function UploadEffects(id: int, files: seq<FileRef>): (es: seq<Effect<Call>>)
    ensures |es| == |files|
    ensures forall i :: 0 <= i < |files| ==> es[i] == Send(UploadCall(id, files[i]))
  {
    seq(|files|, i requires 0 <= i < |files| => Send(UploadCall(id, files[i])))
  }

  /** What `handleCreateDefect` does, as a whole. `created` is the create
      reply with the new defect's id (`None` when the reply has no
      `defect`); `uploads` are the upload replies, one per image. The
      create request goes first; a failure of it or of any upload ends the
      handler by rethrowing that error, with no later request and nothing
      undone. A reply without a defect fails only when there is an image
      to upload. After the last upload the list is reloaded (not awaited)
      and the success alert shown. */
  function CreateTrace(s: State, form: DefectData, images: seq<FileRef>,
                       created: Reply<Option<int>>, uploads: seq<Reply<()>>): (h: Handled)
    requires |uploads| == |images|
    ensures |h.flow.effects| > 0 && h.flow.effects[0] == Send(CreateCall(form))
    ensures h.flow.outcome.Rethrown? ==> h.state == s
    ensures h.flow.outcome == Completed ==>
              h.state == s.(loading := true) && |h.flow.effects| >= 3
              && h.flow.effects[|h.flow.effects| - 2..] == [Send(LoadCall(s)), Alert(CreatedMessage)]
  {
    var create := Send(CreateCall(form));
    var done := [Send(LoadCall(s)), Alert(CreatedMessage)];
    if created.Failed? then Handled(s, Flow([create], Rethrown(created.message)))
    else if |images| == 0 then Handled(s.(loading := true), Flow([create] + done, Completed))
    else if created.value.None? then Handled(s, Flow([create], Rethrown(HostTypeError)))
    else
      var id := created.value.value;
      var k := FirstFailure(uploads);
      if k < |images| then Handled(s, Flow([create] + UploadEffects(id, images[..k + 1]), Rethrown(uploads[k].message)))
      else Handled(s.(loading := true), Flow([create] + UploadEffects(id, images) + done, Completed))
  }

  /** `handleCreateDefect` step by step, as the source awaits each call:
      it produces exactly `CreateTrace`. */
  method HandleCreate(s: State, form: DefectData, images: seq<FileRef>,
                      created: Reply<Option<int>>, uploads: seq<Reply<()>>) returns (h: Handled)
    requires |uploads| == |images|
    ensures h == CreateTrace(s, form, images, created, uploads)
  {
    var create := Send(CreateCall(form));
    if created.Failed? {
      return Handled(s, Flow([create], Rethrown(created.message)));
    }
    var effects := [create];
    if |images| > 0 {
      if created.value.None? {
        return Handled(s, Flow(effects, Rethrown(HostTypeError)));
      }
      var id := created.value.value;
      var i := 0;
      while i < |images|
        invariant 0 <= i <= |images|
        invariant i <= FirstFailure(uploads)
        invariant effects == [create] + UploadEffects(id, images[..i])
      {
        effects := effects + [Send(UploadCall(id, images[i]))];
        assert effects == [create] + UploadEffects(id, images[..i + 1]);
        if uploads[i].Failed? {
          return Handled(s, Flow(effects, Rethrown(uploads[i].message)));
        }
        i := i + 1;
      }
      assert images[..i] == images;
    }
    effects := effects + [Send(LoadCall(s)), Alert(CreatedMessage)];
    return Handled(s.(loading := true), Flow(effects, Completed));
  }

  /** A create completes exactly when the create call and every upload
      succeed (a reply without a defect counts as a failure when there is
      an image); it then sends the create request, one upload per image
      in list order with the new id, and the reload, and nothing else. */
  lemma CreateCompletesIffAllSucceed(s: State, form: DefectData, images: seq<FileRef>,
                                     created: Reply<Option<int>>, uploads: seq<Reply<()>>)
    requires |uploads| == |images|
    ensures var h := CreateTrace(s, form, images, created, uploads);
            h.flow.outcome == Completed <==>
              created.Ok? && (|images| == 0 || (created.value.Some? && forall i :: 0 <= i < |uploads| ==> uploads[i].Ok?))
    ensures var h := CreateTrace(s, form, images, created, uploads);
            h.flow.outcome == Completed && |images| > 0 ==>
              var id := created.value.value;
              && |h.flow.effects| == |images| + 3
              && h.flow.effects[0] == Send(CreateCall(form))
              && (forall i :: 0 <= i < |images| ==> h.flow.effects[i + 1] == Send(UploadCall(id, images[i])))
              && h.flow.effects[|images| + 1] == Send(LoadCall(s))
              && h.flow.effects[|images| + 2] == Alert(CreatedMessage)
  {
    FirstFailureIsEndIffAllOk(uploads);
    var h := CreateTrace(s, form, images, created, uploads);
    if h.flow.outcome == Completed && |images| > 0 {
      var id := created.value.value;
      assert h.flow.effects == [Send(CreateCall(form))] + UploadEffects(id, images) + [Send(LoadCall(s)), Alert(CreatedMessage)];
      Framed(Send(CreateCall(form)), UploadEffects(id, images), [Send(LoadCall(s)), Alert(CreatedMessage)]);
    }
  }

  /** The positions of the effects of a trace framed by one effect before
      and two after. */
  lemma Framed(first: Effect<Call>, middle: seq<Effect<Call>>, last: seq<Effect<Call>>)
    requires |last| == 2
    ensures var es := [first] + middle + last;
            && |es| == |middle| + 3
            && es[0] == first
            && (forall i :: 0 <= i < |middle| ==> es[i + 1] == middle[i])
            && es[|middle| + 1] == last[0]
            && es[|middle| + 2] == last[1]
  {
  }

  /** A failed create rethrows the error of the first failing call, after
      sending the create request and the uploads up to and including the
      failing one: nothing is rolled back (no delete is sent), nothing is
      reloaded and no alert is shown. */
  lemma CreateFailureRethrowsWithoutRollback(s: State, form: DefectData, images: seq<FileRef>,
                                             created: Reply<Option<int>>, uploads: seq<Reply<()>>)
    requires |uploads| == |images|
    ensures var h := CreateTrace(s, form, images, created, uploads);
            h.flow.outcome.Rethrown? ==>
              && h.state == s
              && h.flow.effects[0] == Send(CreateCall(form))
              && (forall e :: e in h.flow.effects ==> e.Send? && (e.call.CreateCall? || e.call.UploadCall?))
    ensures created.Ok? && created.value.Some? && FirstFailure(uploads) < |images| ==>
              var k := FirstFailure(uploads);
              CreateTrace(s, form, images, created, uploads).flow
                == Flow([Send(CreateCall(form))] + UploadEffects(created.value.value, images[..k + 1]),
                        Rethrown(uploads[k].message))
  {
    var h := CreateTrace(s, form, images, created, uploads);
    if h.flow.outcome.Rethrown? && created.Ok? && |images| > 0 && created.value.Some? {
      var k := FirstFailure(uploads);
      var ups := UploadEffects(created.value.value, images[..k + 1]);
      assert h.flow.effects == [Send(CreateCall(form))] + ups;
      OnlyUploads(created.value.value, images[..k + 1]);
    }
  }

  /** Every effect of an upload sequence is an upload call. */
  lemma OnlyUploads(id: int, files: seq<FileRef>)
    ensures forall e :: e in UploadEffects(id, files) ==> e.Send? && e.call.UploadCall?
  {
    var es := UploadEffects(id, files);
    forall e | e in es
      ensures e.Send? && e.call.UploadCall?
    {
      var j :| 0 <= j < |es| && es[j] == e;
    }
  }

  // ---------------------------------------------------------------------
  // Edit, status change, delete

  /** `handleUpdateDefect`: the update of the selected defect; then the
      reload and the success alert. A failure is rethrown to the dialog;
      without a selection reading its id fails. */
  function HandleUpdate(s: State, form: DefectData, updated: Reply<()>): (h: Handled)
    ensures s.selected.None? ==> h == Handled(s, Flow([], Rethrown(HostTypeError)))
    ensures s.selected.Some? && updated.Failed? ==>
              h == Handled(s, Flow([Send(UpdateCall(s.selected.value.id, form))], Rethrown(updated.message)))
    ensures s.selected.Some? && updated.Ok? ==>
              h == Handled(s.(loading := true),
                           Flow([Send(UpdateCall(s.selected.value.id, form)), Send(LoadCall(s)), Alert(UpdatedMessage)], Completed))
  {
    if s.selected.None? then Handled(s, Flow([], Rethrown(HostTypeError)))
    else
      var send := Send(UpdateCall(s.selected.value.id, form));
      if updated.Failed? then Handled(s, Flow([send], Rethrown(updated.message)))
      else Handled(s.(loading := true), Flow([send, Send(LoadCall(s)), Alert(UpdatedMessage)], Completed))
  }

  /** `handleUpdateStatus`: the status change of the selected defect;
      then the reload and the success alert; a failure is rethrown. */
  function HandleUpdateStatus(s: State, status: string, updated: Reply<()>): (h: Handled)
    ensures s.selected.None? ==> h == Handled(s, Flow([], Rethrown(HostTypeError)))
    ensures s.selected.Some? && updated.Failed? ==>
              h == Handled(s, Flow([Send(StatusCall(s.selected.value.id, status))], Rethrown(updated.message)))
    ensures s.selected.Some? && updated.Ok? ==>
              h == Handled(s.(loading := true),
                           Flow([Send(StatusCall(s.selected.value.id, status)), Send(LoadCall(s)), Alert(StatusChangedMessage)], Completed))
  {
    if s.selected.None? then Handled(s, Flow([], Rethrown(HostTypeError)))
    else
      var send := Send(StatusCall(s.selected.value.id, status));
      if updated.Failed? then Handled(s, Flow([send], Rethrown(updated.message)))
      else Handled(s.(loading := true), Flow([send, Send(LoadCall(s)), Alert(StatusChangedMessage)], Completed))
  }

  /** A card's delete: nothing unless the user confirms; then the delete,
      and the reload with the success alert, or only the failure alert.
      A delete never rethrows. */
  function HandleDelete(s: State, id: int, confirmed: bool, deleted: Reply<()>): (h: Handled)
    ensures h.flow.outcome == Completed
    ensures !confirmed ==> h == Handled(s, Flow([], Completed))
    ensures confirmed && deleted.Failed? ==>
              h == Handled(s, Flow([Send(DeleteCall(id)), Alert(DeleteFailMessage)], Completed))
    ensures confirmed && deleted.Ok? ==>
              h == Handled(s.(loading := true), Flow([Send(DeleteCall(id)), Send(LoadCall(s)), Alert(DeletedMessage)], Completed))
  {
    if !confirmed then Handled(s, Flow([], Completed))
    else if deleted.Failed? then Handled(s, Flow([Send(DeleteCall(id)), Alert(DeleteFailMessage)], Completed))
    else Handled(s.(loading := true), Flow([Send(DeleteCall(id)), Send(LoadCall(s)), Alert(DeletedMessage)], Completed))
  }

  /** `handleSubmitDefectModal`: an update when a defect is selected, a
      create otherwise. */
  function SubmitDefectModal(s: State, form: DefectData, images: seq<FileRef>,
                             created: Reply<Option<int>>, uploads: seq<Reply<()>>, updated: Reply<()>): (h: Handled)
    requires |uploads| == |images|
    ensures s.selected.Some? ==> h == HandleUpdate(s, form, updated)
    ensures s.selected.None? ==> h == CreateTrace(s, form, images, created, uploads)
  {
    if s.selected.Some? then HandleUpdate(s, form, updated)
    else CreateTrace(s, form, images, created, uploads)
  }

  /** The dispatch sends exactly one of the two: an edit dialog never
      creates (and uploads nothing), a create dialog never updates. */
  lemma DispatchSendsOneKind(s: State, form: DefectData, images: seq<FileRef>,
                             created: Reply<Option<int>>, uploads: seq<Reply<()>>, updated: Reply<()>)
    requires |uploads| == |images|
    ensures var h := SubmitDefectModal(s, form, images, created, uploads, updated);
            s.selected.Some? ==> (forall e :: e in h.flow.effects && e.Send? ==> !e.call.CreateCall? && !e.call.UploadCall?)
    ensures var h := SubmitDefectModal(s, form, images, created, uploads, updated);
            s.selected.None? ==> (forall e :: e in h.flow.effects && e.Send? ==> !e.call.UpdateCall?)
  {
    var h := SubmitDefectModal(s, form, images, created, uploads, updated);
    if s.selected.None? {
      CreateFailureRethrowsWithoutRollback(s, form, images, created, uploads);
      CreateCompletesIffAllSucceed(s, form, images, created, uploads);
      if h.flow.outcome == Completed && |images| > 0 {
        forall e | e in h.flow.effects && e.Send?
          ensures !e.call.UpdateCall?
        {
          var j :| 0 <= j < |h.flow.effects| && h.flow.effects[j] == e;
          if 1 <= j <= |images| {
            assert e == Send(UploadCall(created.value.value, images[j - 1]));
          }
        }
      }
    }
  }

  // ---------------------------------------------------------------------
  // The dialogs and the page together

  /** The defect dialog closes exactly when the page's handler completes:
      a valid form whose create (with an upload of every staged image) or
      update succeeded. */
  lemma DefectDialogClosesIffHandlerCompletes(ms: DefectModal.State, s: State,
                                              created: Reply<Option<int>>, uploads: seq<Reply<()>>, updated: Reply<()>)
    requires |uploads| == |ms.images|
    ensures var h := SubmitDefectModal(s, ms.form, ms.images, created, uploads, updated);
            var r := DefectModal.Attempt(ms, h.flow.outcome == Completed);
            Closed in r.effects <==> DefectModal.Valid(ms.form) && h.flow.outcome == Completed
  {
    var h := SubmitDefectModal(s, ms.form, ms.images, created, uploads, updated);
    DefectModal.AttemptProtocol(ms, h.flow.outcome == Completed);
  }

  /** The status dialog opened from a card submits a changed status as a
      PATCH of that card's defect, and closes exactly when it succeeds. */
  lemma StatusDialogPatchesSelectedDefect(s: State, d: Defect, choice: string, updated: Reply<()>)
    requires choice != d.status
    ensures var p := OpenStatusModal(s, d);
            var ms := StatusModal.Select(StatusModal.Init(d), choice);
            var h := HandleUpdateStatus(p, ms.selected, updated);
            && h.flow.effects[0] == Send(StatusCall(d.id, choice))
            && (Closed in StatusModal.Attempt(ms, h.flow.outcome == Completed).effects <==> updated.Ok?)
  {
    var ms := StatusModal.Select(StatusModal.Init(d), choice);
    var h := HandleUpdateStatus(OpenStatusModal(s, d), ms.selected, updated);
    StatusModal.AttemptClosesOnlyOnSuccess(ms, h.flow.outcome == Completed);
  }
}
