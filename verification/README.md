# Construction-site defect tracker client, as a Dafny model

The client of the system-control service lets the staff of a construction
company manage projects (building sites) and the defects found on them.
Managers create, edit and delete projects. Engineers register defects,
edit them, attach photos and move them through the statuses *registered*,
*in progress* and *completed*. Observers only read. This project models
the deterministic rules underneath the client's React pages:

- the lookup tables of defect statuses, defect priorities, project
  statuses and user roles, with their fallbacks for unknown codes;
- the HTTP requests the API modules build: method, path, ordered query
  parameters, JSON bodies and multipart upload forms;
- the list pages (projects and defects): role gating, filters, pagination,
  the dialogs they open, loading, and the create / update / status / delete
  handlers with their call order and error propagation;
- the three dialogs (project, defect, status): seeding, single-field
  edits, the browser's declared field constraints, and the submit protocol
  (close on success, alert and stay open on failure, idle afterwards);
- the registration page's form and submit, and the profile page's role
  description, avatar initials, view selection and logout.

Every network outcome is a parameter. A `Reply<T>` is `Ok(value)` or
`Failed(message)`. Each page handler is one atomic transition that returns
the new state and a trace of effects (`Send(call)`, `Alert(message)`),
together with how its promise settles (`Completed` or `Rethrown`). A
dialog's handler returns its calls into the parent (`Submitted`, `Closed`,
`Alerted`). The pages emit a datatype of API calls. `RequestOf` maps each
call to the request the API module builds for it.

Modules follow the source files. `Js`, `Tables`, `Http`, `Entities`, `Ui`,
`Labels` and `Paging` hold what several files share: JavaScript
truthiness, `||`, decimal `toString`, ordered tables, request shapes,
server records, effect traces, label lookup and the pager.

A failed load does not always leave the page as it was. `loadDefects`
and `loadProjects` store the list of a response before they read its
`pagination`, so a response without pagination replaces the list and then
alerts the load failure (`FinishLoad` on both list pages).

## Model

| member | source | states |
|---|---|---|
| Js.Or | src/pages/DefectsPage/DefectsPage.js:53 | `a \|\| b` is the first operand when it is truthy and the second otherwise, so it is truthy iff either operand is |
| Js.StrOr | src/components/DefectModal/DefectModal.js:19-21 | `field \|\| d` on a server string yields the field when it is a non-empty string, and the default when the field is missing or empty |
| Js.IntToString | src/api/defectsApi.js:7-8 | an integer's decimal text is non-empty, starts with `-` iff the number is negative, and is digits otherwise |
| Js.SmallNumerals | src/api/defectsApi.js:5 | the literal page numbers and sizes 1, 10, 20 and 100 are written as "1", "10", "20" and "100" |
| Js.NatToStringRoundTrip | src/api/defectsApi.js:77 | the digits written for a natural number denote that number again |
| Js.IntToStringRoundTrip | src/api/defectsApi.js:77 | parsing the decimal text of any integer gives back that integer |
| Js.IntToStringInjective | src/api/projectsApi.js:58 | two different ids never have the same decimal text |
| Js.UpperCase | src/pages/ProfilePage/ProfilePage.js:56 | upper-casing keeps the length and maps every character through the Latin and Cyrillic letter case map |
| Js.UpperCaseIdempotent | src/pages/ProfilePage/ProfilePage.js:56 | upper-casing an upper-cased text changes nothing |
| Tables.Lookup | src/utils/defectUtils.js:15 | the looked-up entry exists iff the key is in the table, is an entry of the table, and with distinct keys is that key's entry |
| Tables.LookupOr | src/utils/defectUtils.js:15 | a lookup with a fallback gives the key's entry when present and the fallback exactly when absent |
| Tables.LookupAppend | src/api/defectsApi.js:11-19 | a lookup in a concatenation finds the first part's entry if it has the key, the second part's otherwise |
| Http.ValueText | src/api/defectsApi.js:12 | a string value's query text is the string itself; a number's text parses back to the number |
| Http.AppendIfTruthy | src/api/defectsApi.js:11-13 | a conditional append keeps the existing query as a prefix and adds the key exactly when the value is truthy |
| Http.LookupAppendIfTruthy | src/api/defectsApi.js:11-19 | a conditional append leaves other keys' values alone and gives a new key the value's text exactly when the value is truthy |
| Http.IdBetweenRoundTrip | src/api/defectsApi.js:27 | a path built as prefix, decimal id and suffix identifies exactly that id |
| Labels.InfoOf | src/utils/defectUtils.js:15 | a known code gets its table entry; an unknown code gets itself as label in colour `#999` |
| Labels.FallbackColorIffUnknown | src/utils/defectUtils.js:14-20 | in a table that never uses `#999`, the colour `#999` appears exactly for unknown codes |
| DefectUtils.DefectTablesWellFormed | src/utils/defectUtils.js:1-12 | exactly the statuses registered, in_progress, completed and the priorities low, medium, high, critical, each once, none coloured `#999` |
| DefectUtils.DefectColorsDistinct | src/utils/defectUtils.js:1-12 | within the status table and within the priority table no two entries share a colour |
| DefectUtils.DefectStatusInfo | src/utils/defectUtils.js:14-16 | a known status gets its entry unchanged, an unknown one its own code in `#999`; `#999` iff unknown |
| DefectUtils.DefectPriorityInfo | src/utils/defectUtils.js:18-20 | a known priority gets its entry unchanged, an unknown one its own code in `#999`; `#999` iff unknown |
| DefectUtils.DefectStatusLabelShowsRawCodeOnlyWhenUnknown | src/utils/defectUtils.js:14-16 | a status label equals the raw code exactly when the code is unknown |
| StatusUtils.ProjectStatusTableWellFormed | src/utils/statusUtils.js:1-5 | exactly active, completed, suspended, each once, with pairwise distinct colours none of which is `#999` |
| StatusUtils.StatusInfo | src/utils/statusUtils.js:7-9 | a known project status gets its entry unchanged, an unknown one its own code in `#999`; `#999` iff unknown |
| StatusUtils.StatusColorIdentifiesKnownStatus | src/utils/statusUtils.js:1-9 | two known project statuses shown in the same colour are the same status |
| AuthApi.Login | src/api/authApi.js:5-11 | login posts exactly `email` and `password`, unchanged |
| AuthApi.Register | src/api/authApi.js:14-24 | registration posts six fields: the camelCase names become first_name, last_name and role_code, the rest keep their names, and no value is altered |
| AuthApi.RegisterBodyRoundTrip | src/api/authApi.js:14-24 | the form's data can be read back from the registration body, so no two forms send the same body |
| AuthApi.GetProfile | src/api/authApi.js:27-30 | the profile is a GET of `/profile` with neither query nor body |
| DefectsApi.DefectPath | src/api/defectsApi.js:27 | the path of a defect names exactly that defect's id |
| DefectsApi.GetDefects | src/api/defectsApi.js:5-23 | the list query starts with page and limit; project_id, status and priority follow in that order, each only when truthy and with its value's text |
| DefectsApi.DefectsQueryKeys | src/api/defectsApi.js:6-19 | the query's keys are page, limit and then the truthy filters in order |
| DefectsApi.DefectsQueryValues | src/api/defectsApi.js:11-19 | each filter key carries its value's text when the value is truthy and is absent otherwise |
| DefectsApi.DefectsQueryProjectId | src/api/defectsApi.js:11-13 | `project_id` is present exactly when the project argument is truthy |
| DefectsApi.DefectsQueryStatus | src/api/defectsApi.js:14-16 | `status` is present exactly when the status argument is truthy |
| DefectsApi.DefectsQueryPriority | src/api/defectsApi.js:17-19 | `priority` is present exactly when the priority argument is truthy |
| DefectsApi.GetDefectsDefaults | src/api/defectsApi.js:5-9 | with the defaults the query is page 1, limit 20, plus the project id only when truthy |
| DefectsApi.GetDefect | src/api/defectsApi.js:26-29 | reading one defect is a GET of that defect's path with no query or body |
| DefectsApi.PriorityOrMedium | src/api/defectsApi.js:37 | the sent priority is never empty and is the form's when the form has one |
| DefectsApi.CreateDefect | src/api/defectsApi.js:32-40 | creation posts exactly project_id, title, description and priority, with the priority defaulting to medium |
| DefectsApi.UpdateDefect | src/api/defectsApi.js:43-50 | an edit PUTs exactly title, description and priority to that defect's path, with the priority as given |
| DefectsApi.UpdateDefectLeavesProjectAndStatus | src/api/defectsApi.js:43-48 | an edit never sends a project id or a status |
| DefectsApi.UpdateDefectStatus | src/api/defectsApi.js:53-58 | a status change PATCHes `status` alone to that defect's status path |
| DefectsApi.DeleteDefect | src/api/defectsApi.js:61-64 | a delete targets that defect's path and has no body |
| DefectsApi.GetProjectDefectsStats | src/api/defectsApi.js:67-70 | the statistics request names exactly that project's id |
| DefectsApi.UploadDefectImage | src/api/defectsApi.js:73-85 | the upload form is files, entity_type `defect` and entity_id, in that order, and the entity_id parses back to the defect's id |
| DefectsApi.GetDefectFiles | src/api/defectsApi.js:88-93 | the file list query is entity_type `defect` and an entity_id that parses back to the defect's id |
| ProjectsApi.ProjectPath | src/api/projectsApi.js:21 | the path of a project names exactly that project's id |
| ProjectsApi.GetProjects | src/api/projectsApi.js:5-17 | the list query is page, then limit, then status only when truthy |
| ProjectsApi.GetProjectsDefaults | src/api/projectsApi.js:5-9 | with the defaults the query is page 1 and limit 10 |
| ProjectsApi.GetProject | src/api/projectsApi.js:20-23 | reading one project is a GET of that project's path with no query or body |
| ProjectsApi.CreateProject | src/api/projectsApi.js:26-35 | creation posts exactly name, description, address, start_date and end_date, with the form's values |
| ProjectsApi.CreateBodyFields | src/api/projectsApi.js:27-33 | the creation body's keys are in source order and each carries its form field |
| ProjectsApi.CreateProjectHasNoStatus | src/api/projectsApi.js:27-33 | creation never sends a status |
| ProjectsApi.StatusIsNoCreateKey | src/api/projectsApi.js:27-33 | `status` is none of the creation body's keys |
| ProjectsApi.UpdateProject | src/api/projectsApi.js:38-48 | an update PUTs every form field, status included, to that project's path |
| ProjectsApi.UpdateBodyFields | src/api/projectsApi.js:39-46 | the update body's keys are in source order and each carries its form field |
| ProjectsApi.UpdateIsCreatePlusStatus | src/api/projectsApi.js:26-46 | the update body is the creation body with status inserted after address |
| ProjectsApi.DeleteProject | src/api/projectsApi.js:51-54 | a delete targets that project's path and has no body |
| ProjectsApi.ProjectImageUrl | src/api/projectsApi.js:57-59 | the image URL starts with the fixed base and names exactly the project's id between `/projects/` and `/image` |
| ProjectsApi.ProjectImageUrlInjective | src/api/projectsApi.js:57-59 | different projects never share an image URL |
| ProjectsApi.UploadProjectImage | src/api/projectsApi.js:62-74 | the upload form is files, entity_type `project` and entity_id, in that order, and the entity_id parses back to the project's id |
| ProjectsApi.UploadsDifferOnlyInEntityType | src/api/projectsApi.js:62-66 | a project upload and a defect upload of the same file and id differ only in the entity_type value |
| ProjectsApi.GetProjectFiles | src/api/projectsApi.js:77-80 | the file list request names exactly that project's id |
| Ui.FirstFailure | src/pages/DefectsPage/DefectsPage.js:80-82 | the position of the first failed reply: every earlier reply succeeded, and the one there failed unless it is the end |
| Ui.FirstFailureIsEndIffAllOk | src/pages/DefectsPage/DefectsPage.js:80-82 | the first failure is past the end exactly when every reply succeeded |
| Ui.Settle | src/components/DefectModal/DefectModal.js:48-56 | a dialog closes exactly when the parent's handler succeeded and alerts its failure message otherwise |
| StatusModal.Init | src/components/StatusModal/StatusModal.js:12-13 | the dialog opens with the defect's own status selected and idle |
| StatusModal.Select | src/components/StatusModal/StatusModal.js:46 | clicking a choice selects it and changes nothing else |
| StatusModal.SubmitCaption | src/components/StatusModal/StatusModal.js:71 | the caption reads "Сохранение..." exactly while a submit is in flight |
| StatusModal.SubmitDisabled | src/components/StatusModal/StatusModal.js:69 | the submit control is disabled while a submit is in flight or while the highlighted status is the defect's own |
| StatusModal.BeginSubmit | src/components/StatusModal/StatusModal.js:15-23 | an unchanged status only alerts; a changed one makes the dialog busy and hands the chosen status to the parent |
| StatusModal.FinishSubmit | src/components/StatusModal/StatusModal.js:22-30 | once the handler settles, the dialog closes on success or alerts on failure, and is idle |
| StatusModal.AttemptSubmitsIffChanged | src/components/StatusModal/StatusModal.js:15-23 | the parent's handler is called exactly when the status changed, and then with the chosen status |
| StatusModal.AttemptClosesOnlyOnSuccess | src/components/StatusModal/StatusModal.js:22-27 | the dialog closes exactly when the status changed and the handler succeeded, only right after calling it; a failure alerts and stays open |
| StatusModal.AttemptLeavesIdle | src/components/StatusModal/StatusModal.js:21-30 | a submit that reached the parent leaves the dialog idle; a rejected one changes nothing |
| StatusModal.EnabledSubmitReachesParent | src/components/StatusModal/StatusModal.js:69 | the submit control is enabled exactly when the dialog is idle and a submit would reach the parent |
| StatusModal.RowsOf | src/components/StatusModal/StatusModal.js:42-56 | one row per table entry in order, with its label and description, highlighted exactly when it is the selection |
| StatusModal.HighlightedRows | src/components/StatusModal/StatusModal.js:45 | with distinct codes at most one row is highlighted, and one is exactly when the selection is among the codes |
| StatusModal.DescriptionsWellFormed | src/components/StatusModal/StatusModal.js:5-9 | the descriptions are keyed by exactly the known statuses, each once, and none is empty |
| StatusModal.DescribedRows | src/components/StatusModal/StatusModal.js:51-53 | descriptions keyed by exactly the table's codes give every row a description |
| StatusModal.Rows | src/components/StatusModal/StatusModal.js:42-56 | one row per known defect status in table order, with its label, highlighted exactly when selected |
| StatusModal.OneRowHighlighted | src/components/StatusModal/StatusModal.js:45 | at most one row is highlighted, and one is exactly when the selection is a known status |
| StatusModal.EveryRowDescribed | src/components/StatusModal/StatusModal.js:5-9 | the descriptions cover exactly the known statuses, so every row has one |
| DefectModal.Init | src/components/DefectModal/DefectModal.js:6-13 | the form starts without a project, with empty texts and priority medium, no images, idle |
| DefectModal.Seed | src/components/DefectModal/DefectModal.js:15-29 | editing replaces the form with the defect's fields: a missing text becomes '', a missing or empty priority 'medium', project id 0 ''; creating preselects the first project and keeps the rest |
| DefectModal.Edit | src/components/DefectModal/DefectModal.js:31-37 | an edit sets the named field to the control's value |
| DefectModal.EditOnlyNamedField | src/components/DefectModal/DefectModal.js:31-37 | an edit leaves every other field as it was |
| DefectModal.EditsCompose | src/components/DefectModal/DefectModal.js:31-37 | the last edit of a field wins and edits of different fields commute |
| DefectModal.ChooseImages | src/components/DefectModal/DefectModal.js:39-42 | a file choice replaces the staged images and nothing else |
| DefectModal.ShowsProjectSelect | src/components/DefectModal/DefectModal.js:73-101 | the project select is rendered only when creating and there is a project to choose |
| DefectModal.ShowsImageInput | src/components/DefectModal/DefectModal.js:153-170 | the image input is rendered only when creating |
| DefectModal.Valid | src/components/DefectModal/DefectModal.js:104-127 | the declared constraints: a title of at least 3 and a description of at least 10 characters |
| DefectModal.FieldsByMode | src/components/DefectModal/DefectModal.js:73-170 | editing offers neither the project select nor the image input; creating offers the image input, and the project select iff there is a project, which is then preselected |
| DefectModal.BeginSubmit | src/components/DefectModal/DefectModal.js:44-49 | a form meeting the constraints makes the dialog busy and hands the form and staged images to the parent; any other form does nothing |
| DefectModal.FinishSubmit | src/components/DefectModal/DefectModal.js:49-56 | once the handler settles, the dialog closes or alerts, and is idle with its data kept |
| DefectModal.AttemptProtocol | src/components/DefectModal/DefectModal.js:44-57 | a valid submit calls the parent with exactly the form and images, closes exactly on success and ends idle; an invalid one does nothing |
| DefectModal.EditFormCarriesPriority | src/components/DefectModal/DefectModal.js:21 | a form seeded for editing always has a priority, so the update never sends an empty one |
| DefectModal.SubmitDisabled | src/components/DefectModal/DefectModal.js:187 | the submit control is disabled exactly while a submit is in flight |
| DefectModal.Press | src/components/DefectModal/DefectModal.js:184-190 | a press of a disabled control does nothing; an enabled one is the browser's submit |
| DefectModal.NoSecondSubmitInFlight | src/components/DefectModal/DefectModal.js:44-49 | a press reaches the parent iff the dialog is idle and the form valid, and a second press during a submit reaches nobody |
| DefectModal.InitialFormRejected | src/components/DefectModal/DefectModal.js:6-11 | the freshly mounted dialog cannot submit: title and description are empty |
| ProjectModal.Init | src/components/ProjectModal/ProjectModal.js:7-17 | the form starts with empty texts and status active, no image, idle |
| ProjectModal.DateForInput | src/components/ProjectModal/ProjectModal.js:26-27 | an absent or empty date gives the empty text, any other date its input form |
| ProjectModal.Seed | src/components/ProjectModal/ProjectModal.js:19-30 | editing replaces the form with the project's fields: a missing text becomes '', a missing or empty status 'active'; without a project the form stays |
| ProjectModal.Edit | src/components/ProjectModal/ProjectModal.js:32-38 | an edit sets the named field to the control's value |
| ProjectModal.EditOnlyNamedField | src/components/ProjectModal/ProjectModal.js:32-38 | an edit leaves every other field as it was |
| ProjectModal.EditsCompose | src/components/ProjectModal/ProjectModal.js:32-38 | the last edit of a field wins and edits of different fields commute |
| ProjectModal.ChooseImage | src/components/ProjectModal/ProjectModal.js:40-43 | the staged image changes only when a file is chosen |
| ProjectModal.ShowsStatusField | src/components/ProjectModal/ProjectModal.js:156-170 | the status select is rendered only when editing |
| ProjectModal.Valid | src/components/ProjectModal/ProjectModal.js:110-119 | the one declared constraint: the name is required |
| ProjectModal.StatusFieldOnlyWhenEditing | src/components/ProjectModal/ProjectModal.js:156-170 | the status select shows iff editing; a create form keeps the default status and an edit form starts from the project's status or the default |
| ProjectModal.BeginSubmit | src/components/ProjectModal/ProjectModal.js:52-57 | a form with a name makes the dialog busy and hands the form and staged image to the parent; a form without one does nothing |
| ProjectModal.FinishSubmit | src/components/ProjectModal/ProjectModal.js:57-64 | once the handler settles, the dialog closes or alerts, and is idle with its data kept |
| ProjectModal.AttemptProtocol | src/components/ProjectModal/ProjectModal.js:52-65 | a named submit calls the parent with the form and image, closes exactly on success and ends idle; an unnamed one does nothing |
| ProjectModal.SeededEditSendsStatus | src/components/ProjectModal/ProjectModal.js:25 | a form seeded for editing always has a status, and the update sends it |
| ProjectModal.SubmitDisabled | src/components/ProjectModal/ProjectModal.js:219 | the submit control is disabled exactly while a submit is in flight |
| ProjectModal.Press | src/components/ProjectModal/ProjectModal.js:216-222 | a press of a disabled control does nothing; an enabled one is the browser's submit |
| ProjectModal.NoSecondSubmitInFlight | src/components/ProjectModal/ProjectModal.js:52-56 | a press reaches the parent iff the dialog is idle and the project named, and a second press during a submit reaches nobody |
| ProjectModal.InitialFormRejected | src/components/ProjectModal/ProjectModal.js:7-14 | the freshly mounted dialog cannot submit: the name is empty |
| Paging.FromEnvelope | src/pages/DefectsPage/DefectsPage.js:60-64 | the page state takes over the server's current page, page count and item count |
| Paging.GoTo | src/pages/DefectsPage/DefectsPage.js:166-171 | a page change sets the current page and keeps the counts |
| Paging.PagerOf | src/pages/DefectsPage/DefectsPage.js:288-303 | the pager exists iff there is more than one page; Prev is enabled iff not on page 1, Next iff not on the last page |
| Paging.Prev | src/pages/DefectsPage/DefectsPage.js:290-296 | Prev acts exactly when it is drawn enabled, and goes one page back |
| Paging.Next | src/pages/DefectsPage/DefectsPage.js:300-306 | Next acts exactly when it is drawn enabled, and goes one page forward |
| Paging.PagerKeepsRange | src/pages/DefectsPage/DefectsPage.js:288-303 | from a page within range the buttons never leave the range |
| Paging.PagerNeverStuck | src/pages/DefectsPage/DefectsPage.js:288-303 | with several pages some button is enabled: only Next on page 1, only Prev on the last page |
| Paging.NextThenPrev | src/pages/DefectsPage/DefectsPage.js:292-302 | Next followed by Prev returns to the starting page |
| DefectsPage.RequestVerbs | src/api/defectsApi.js:61-64 | of the page's calls only the delete sends a DELETE, and only the two list calls are GETs |
| DefectsPage.Init | src/pages/DefectsPage/DefectsPage.js:12-28 | the page mounts loading, with nothing listed, no dialog, no filter and page 1 of 1 |
| DefectsPage.FilterChange | src/pages/DefectsPage/DefectsPage.js:154-164 | a filter change sets the named filter, keeps the others, resets to page 1 and changes nothing else |
| DefectsPage.PageChange | src/pages/DefectsPage/DefectsPage.js:166-171 | a page change sets only the current page |
| DefectsPage.LoadCall | src/pages/DefectsPage/DefectsPage.js:52-58 | the list call carries the project filter when set and null otherwise, the current page, 20, and the status and priority filters |
| DefectsPage.LoadRequestCarriesFilters | src/pages/DefectsPage/DefectsPage.js:52-58 | the list request carries the page, 20, and each filter exactly when it is set, unchanged |
| DefectsPage.FilterChangeReloadsFirstPage | src/pages/DefectsPage/DefectsPage.js:154-164 | after a filter change the next load asks for page 1 with the new filter value |
| DefectsPage.BeginLoad | src/pages/DefectsPage/DefectsPage.js:49-52 | a load makes the page busy and sends the list call of the current filters and page |
| DefectsPage.FinishLoad | src/pages/DefectsPage/DefectsPage.js:49-71 | a reply replaces the list and the pagination; a reply without pagination or a failure alerts; the page is idle afterwards |
| DefectsPage.LoadProjectsRequestsFirstHundred | src/pages/DefectsPage/DefectsPage.js:42 | the project filter's options come from page 1 with limit 100 |
| DefectsPage.FinishLoadProjects | src/pages/DefectsPage/DefectsPage.js:40-47 | a reply sets the filter's projects and a failure changes nothing |
| DefectsPage.PagerView | src/pages/DefectsPage/DefectsPage.js:264-308 | the pager shows only under a non-empty list of several pages, outside the loading view |
| DefectsPage.ShowsLoadingView | src/pages/DefectsPage/DefectsPage.js:173-179 | the placeholder replaces the page only while a load is in flight and the list is empty |
| DefectsPage.ShowsDefectModal | src/pages/DefectsPage/DefectsPage.js:314-321 | the defect dialog is mounted when it is open and the placeholder is not shown |
| DefectsPage.ShowsStatusModal | src/pages/DefectsPage/DefectsPage.js:323-329 | the status dialog is mounted when it is open, a defect is selected and the placeholder is not shown |
| DefectsPage.CanManage | src/pages/DefectsPage/DefectsPage.js:30 | only a user whose role code is engineer manages defects |
| DefectsPage.ControlsView | src/pages/DefectsPage/DefectsPage.js:186-193 | outside the loading view the add button and every card's actions show iff the user manages defects, and an empty list carries the hint matching the role |
| DefectsPage.ControlsShownIffEngineer | src/pages/DefectsPage/DefectsPage.js:268-284 | the controls show iff the user's role is the engineer's; without a user or a role no add button and no card action shows |
| DefectsPage.OpenDefectModal | src/pages/DefectsPage/DefectsPage.js:126-129 | opening the defect dialog shows it with the given defect, or none for a create |
| DefectsPage.CloseDefectModal | src/pages/DefectsPage/DefectsPage.js:131-134 | closing the defect dialog hides it and clears the selection |
| DefectsPage.OpenStatusModal | src/pages/DefectsPage/DefectsPage.js:136-139 | opening the status dialog shows it with the card's defect selected |
| DefectsPage.CloseStatusModal | src/pages/DefectsPage/DefectsPage.js:141-144 | closing the status dialog hides it and clears the selection |
| DefectsPage.ClosingClearsSelection | src/pages/DefectsPage/DefectsPage.js:131-144 | after closing, the status dialog stays hidden and the add button opens a create dialog |
| DefectsPage.UploadEffects | src/pages/DefectsPage/DefectsPage.js:80-82 | one upload per image, in list order, all with the new defect's id |
| DefectsPage.HandleCreate | src/pages/DefectsPage/DefectsPage.js:73-91 | awaiting the create and then each upload in turn produces exactly the create trace |
| DefectsPage.CreateTrace | src/pages/DefectsPage/DefectsPage.js:73-91 | the create request goes first; a rethrown failure leaves the page state as it was; a completed create ends with the reload and the success alert |
| DefectsPage.CreateCompletesIffAllSucceed | src/pages/DefectsPage/DefectsPage.js:73-91 | a create completes iff the create and every upload succeed; then it sends the create, each image once in order with the new id, and the reload |
| DefectsPage.CreateFailureRethrowsWithoutRollback | src/pages/DefectsPage/DefectsPage.js:87-90 | a failed create rethrows the first failure's error after the uploads up to it, sends no other call and leaves the page as it was |
| DefectsPage.OnlyUploads | src/pages/DefectsPage/DefectsPage.js:80-82 | the image loop sends nothing but upload calls |
| DefectsPage.HandleUpdate | src/pages/DefectsPage/DefectsPage.js:93-102 | an edit updates the selected defect, then reloads and alerts success; a failure is rethrown |
| DefectsPage.HandleUpdateStatus | src/pages/DefectsPage/DefectsPage.js:104-113 | a status change patches the selected defect, then reloads and alerts success; a failure is rethrown |
| DefectsPage.HandleDelete | src/pages/DefectsPage/DefectsPage.js:115-124 | a confirmed delete sends the delete, then reloads with a success alert or only alerts the failure; it never rethrows |
| DefectsPage.SubmitDefectModal | src/pages/DefectsPage/DefectsPage.js:146-152 | the dialog's submit updates when a defect is selected and creates otherwise |
| DefectsPage.DispatchSendsOneKind | src/pages/DefectsPage/DefectsPage.js:146-152 | an edit dialog never creates or uploads, a create dialog never updates |
| DefectsPage.DefectDialogClosesIffHandlerCompletes | src/pages/DefectsPage/DefectsPage.js:314-321 | the defect dialog closes exactly when its form is valid and the page's handler completes |
| DefectsPage.StatusDialogPatchesSelectedDefect | src/pages/DefectsPage/DefectsPage.js:323-329 | a changed status from a card's dialog is patched onto that card's defect, and the dialog closes iff the patch succeeded |
| ProjectsPage.RequestVerbs | src/api/projectsApi.js:51-54 | of the page's calls only the delete sends a DELETE, and only the list call is a GET |
| ProjectsPage.Init | src/pages/ProjectsPage/ProjectsPage.js:9-18 | the page mounts loading, with nothing listed, no dialog and page 1 of 1 |
| ProjectsPage.NoUserManagesBoth | src/pages/ProjectsPage/ProjectsPage.js:20 | projects are managed by managers and defects by engineers, so no user manages both |
| ProjectsPage.PageChange | src/pages/ProjectsPage/ProjectsPage.js:108-113 | a page change sets only the current page |
| ProjectsPage.LoadCall | src/pages/ProjectsPage/ProjectsPage.js:29 | the list call is the current page with 10 per page |
| ProjectsPage.LoadRequestIsPageAndLimit | src/pages/ProjectsPage/ProjectsPage.js:29 | the list request's query is exactly the current page and limit 10 |
| ProjectsPage.BeginLoad | src/pages/ProjectsPage/ProjectsPage.js:26-29 | a load makes the page busy and sends the list call |
| ProjectsPage.FinishLoad | src/pages/ProjectsPage/ProjectsPage.js:26-42 | a reply replaces the list and the pagination; a reply without pagination or a failure alerts; the page is idle afterwards |
| ProjectsPage.PagerView | src/pages/ProjectsPage/ProjectsPage.js:140-185 | the pager shows only under a non-empty list of several pages, when not loading |
| ProjectsPage.ShowsLoadingView | src/pages/ProjectsPage/ProjectsPage.js:115-121 | the placeholder replaces the whole page while a load is in flight |
| ProjectsPage.ShowsModal | src/pages/ProjectsPage/ProjectsPage.js:188-194 | the project dialog is mounted when it is open and the placeholder is not shown |
| ProjectsPage.CanManage | src/pages/ProjectsPage/ProjectsPage.js:20 | only a user whose role code is manager manages projects |
| ProjectsPage.ControlsView | src/pages/ProjectsPage/ProjectsPage.js:128-135 | when not loading the add button and every card's actions show iff the user manages projects, and an empty list carries the hint matching the role |
| ProjectsPage.ControlsShownIffManager | src/pages/ProjectsPage/ProjectsPage.js:144-160 | the controls show iff the user's role is the manager's; without a user or a role no add button and no card action shows |
| ProjectsPage.ManagementByRole | src/pages/ProjectsPage/ProjectsPage.js:20 | a manager manages projects only, an engineer defects only, an observer neither |
| ProjectsPage.OpenModal | src/pages/ProjectsPage/ProjectsPage.js:90-93 | opening the dialog shows it with the given project, or none for a create |
| ProjectsPage.CloseModal | src/pages/ProjectsPage/ProjectsPage.js:95-98 | closing the dialog hides it and clears the selection |
| ProjectsPage.ClosingClearsSelection | src/pages/ProjectsPage/ProjectsPage.js:95-98 | after closing, the dialog is hidden and the add button opens a create dialog |
| ProjectsPage.HandleCreate | src/pages/ProjectsPage/ProjectsPage.js:44-60 | a create sends the create, then the image with the new id if there is one, then reloads and alerts; any failure is rethrown with nothing undone |
| ProjectsPage.CreateUploadsOnlyTheChosenImage | src/pages/ProjectsPage/ProjectsPage.js:46-52 | a create uploads at most once, exactly when an image was chosen and creation returned an id, right after the create |
| ProjectsPage.HandleUpdate | src/pages/ProjectsPage/ProjectsPage.js:62-77 | an update sends the update, then the image for the same project if there is one, then reloads and alerts; a failure is rethrown |
| ProjectsPage.UpdateUploadsForSelectedProject | src/pages/ProjectsPage/ProjectsPage.js:64-69 | an update's upload targets the edited project and follows a successful update |
| ProjectsPage.HandleDelete | src/pages/ProjectsPage/ProjectsPage.js:79-88 | a confirmed delete sends the delete, then reloads with a success alert or only alerts the failure; it never rethrows |
| ProjectsPage.SubmitModal | src/pages/ProjectsPage/ProjectsPage.js:100-106 | the dialog's submit updates when a project is selected and creates otherwise |
| ProjectsPage.OnlyDeleteSwallowsFailure | src/pages/ProjectsPage/ProjectsPage.js:56-87 | failed creates and updates reach the dialog; a failed delete only alerts |
| ProjectsPage.ProjectDialogClosesIffHandlerCompletes | src/pages/ProjectsPage/ProjectsPage.js:188-194 | the project dialog closes exactly when its form has a name and the page's handler completes |
| RegisterPage.RolesWellFormed | src/pages/RegisterPage/RegisterPage.js:6-10 | the offered roles are exactly manager, engineer and observer, each once |
| RegisterPage.Init | src/pages/RegisterPage/RegisterPage.js:13-22 | the form starts empty with role engineer, one of the offered roles, no error, idle |
| RegisterPage.Edit | src/pages/RegisterPage/RegisterPage.js:26-32 | an edit sets the named field to the control's value |
| RegisterPage.EditOnlyNamedField | src/pages/RegisterPage/RegisterPage.js:26-32 | an edit leaves every other field as it was |
| RegisterPage.BeginSubmit | src/pages/RegisterPage/RegisterPage.js:34-39 | a form meeting the constraints clears the error, becomes busy and is registered as it is; any other form does nothing |
| RegisterPage.FinishSubmit | src/pages/RegisterPage/RegisterPage.js:39-47 | success navigates home; failure shows the result's error; idle in both cases |
| RegisterPage.AttemptProtocol | src/pages/RegisterPage/RegisterPage.js:34-48 | a valid form is registered; the page navigates home exactly on success, shows the result's error otherwise, and ends idle |
| RegisterPage.SubmitClearsStaleError | src/pages/RegisterPage/RegisterPage.js:36 | a submit always clears the previous error, and a successful one leaves none |
| RegisterPage.SubmittedRoleReachesServer | src/api/authApi.js:21 | the chosen role code reaches the registration body under role_code |
| RegisterPage.Valid | src/pages/RegisterPage/RegisterPage.js:62-125 | the declared constraints: email, first and last name required, a password of at least 6 characters |
| RegisterPage.ShowsError | src/pages/RegisterPage/RegisterPage.js:55 | the error banner shows exactly when there is an error |
| RegisterPage.ErrorShownIffFailed | src/pages/RegisterPage/RegisterPage.js:34-49 | after a submit the banner shows iff register failed with a non-empty error |
| RegisterPage.SubmitDisabled | src/pages/RegisterPage/RegisterPage.js:161 | the submit control is disabled exactly while a submit is in flight |
| RegisterPage.Press | src/pages/RegisterPage/RegisterPage.js:157-163 | a press of a disabled control does nothing; an enabled one is the browser's submit |
| RegisterPage.NoSecondSubmitInFlight | src/pages/RegisterPage/RegisterPage.js:34-49 | a press calls register iff the page is idle and the form valid, and a second press during the call calls nothing |
| RegisterPage.InitialFormRejected | src/pages/RegisterPage/RegisterPage.js:12-19 | the freshly mounted page cannot submit: the required fields are empty |
| ProfilePage.RoleTableWellFormed | src/pages/ProfilePage/ProfilePage.js:7-23 | exactly manager, engineer and observer, each once, with distinct titles and colours |
| ProfilePage.ObserverInfo | src/pages/ProfilePage/ProfilePage.js:18-22 | the fallback description is the observer's table entry |
| ProfilePage.RoleInfoOf | src/pages/ProfilePage/ProfilePage.js:55 | a known role gets its entry and an unknown one the observer's |
| ProfilePage.ObserverInfoIffObserverOrUnknown | src/pages/ProfilePage/ProfilePage.js:55 | the observer's description shows exactly for the observer and for unknown codes |
| ProfilePage.RegistrableRolesAreDescribed | src/pages/ProfilePage/ProfilePage.js:7-23 | the roles one can register with are the described ones, under the same titles, and include the roles the list pages gate on |
| ProfilePage.FirstCharAsWritten | src/pages/ProfilePage/ProfilePage.js:56 | a name's first character in a template literal, or the text `undefined` for an empty name |
| ProfilePage.InitialsAsWritten | src/pages/ProfilePage/ProfilePage.js:56 | with both names present, the page's initials are their upper-cased first characters |
| ProfilePage.InitialsAsWrittenShowUndefined | src/pages/ProfilePage/ProfilePage.js:56 | with an empty first name and last name Petrov the page shows the ten characters UNDEFINEDP |
| ProfilePage.FirstChar | src/pages/ProfilePage/ProfilePage.js:56 | a name's first character, or nothing for an empty name |
| ProfilePage.Initials | src/pages/ProfilePage/ProfilePage.js:56 | one upper-cased initial per non-empty name, first name first |
| ProfilePage.InitialsAgreeWhenNamesPresent | src/pages/ProfilePage/ProfilePage.js:56 | the intended initials equal the page's when both names are present, have at most two characters and are upper case |
| ProfilePage.ViewOf | src/pages/ProfilePage/ProfilePage.js:36-56 | loading view iff loading, then the error view iff no user, then a render failure iff the role or either name is missing, otherwise the profile with the role's description, the intended initials (equal to the page's when both names are present), the phone iff set and the account status |
| ProfilePage.ViewPrecedence | src/pages/ProfilePage/ProfilePage.js:36-53 | while loading the user does not matter, and without a user the error view shows |
| ProfilePage.HandleLogout | src/pages/ProfilePage/ProfilePage.js:29-34 | logout and the move to the login page happen exactly when the user confirms |

## Left out

- HTTP transport, the axios client, the bearer token and `localStorage`: a request is modelled by its method, path, query and payload, and every reply is a parameter.
- Percent-encoding of queries (section 5 of the WHATWG URL Standard) and multipart encoding (RFC 7578): queries and forms are ordered key/value sequences.
- `src/utils/dateUtils.js` is not part of this model. `formatDateForInput` is the function parameter `toInputDate` of `ProjectModal.Seed`, so a date the host cannot parse is not modelled.
- Strings are sequences of code points, not UTF-16 units. `ToUpper` covers the Latin and basic Cyrillic letters only, not full Unicode case mapping.
- DefectModal.Valid and RegisterPage.Valid: the browser enforces `minLength` only on values the user typed; the model applies it to every submitted value. The `type=email` syntax check is not modelled.
- Async interleaving, a late reply, a state update after unmount, and the re-fetch that React effects trigger when a dependency changes: each handler is one atomic transition. The reload a handler starts is recorded as a sent list call and is not awaited.
- Console logging, the `FileReader` image preview, and rendering (JSX, CSS, routing, `App.js`, `Layout.js` and the two card components). `window.confirm` in the cards and on the profile page is a boolean parameter.
- The authentication context is not part of this model. The result of its `register` is a parameter; a `register` that rejected instead of returning a failure result would leave the registration page busy.
- ProfilePage.ViewOf: the profile view carries the intended initials of `ProfilePage.Initials`, not the text the page renders. The two agree when both names are non-empty. For an empty name the page renders `undefined` in its place, as the Findings table records; `ProfilePage.InitialsAsWritten` models that.
- Ui.HostTypeError: the text of the host's error for reading a property of `null` is one fixed constant, not the browser's message.
- `getProjectDefectsStats` and the project and defect detail pages, which only fetch and render: the detail pages are left out, and only the request of the statistics call is modelled.
- JavaScript object-prototype keys (a code such as `toString`): each table is a finite list of its literal keys.
- Numbers are integers: every number the client handles is an id, a page number or a page size.

## Findings

| source | as written | input that shows it | evidently intended | confidence | as-written member | corrected member |
|---|---|---|---|---|---|---|
| src/pages/ProfilePage/ProfilePage.js:56 | the initials are `${first_name[0]}${last_name[0]}` upper-cased, so an empty name contributes the text `undefined` | first_name `""`, last_name `"Petrov"` gives the avatar text `UNDEFINEDP` | one initial per name that has one (`P`) | not executed; medium | ProfilePage.InitialsAsWrittenShowUndefined | ProfilePage.InitialsAgreeWhenNamesPresent |
