/** Requests of the defect endpoints. */
module DefectsApi {
  import opened Js
  import opened Tables
  import opened Http

  /** The defect form's data, in the client's camelCase names. The project
      id is a number when seeded from a record and a string once the user
      picks it in the select. */
  datatype DefectData = DefectData(projectId: Value, title: string, description: string, priority: string)

  const DefaultPage: int := 1
  const DefaultLimit: int := 20

  /** The path of one defect, `/defects/:id`. */
  function DefectPath(id: int): (p: string)
    ensures IdBetween(p, "/defects/", "") == Some(id)
  {
    IdBetweenRoundTrip("/defects/", id, "");
    assert "/defects/" + IntToString(id) + "" == "/defects/" + IntToString(id);
    "/defects/" + IntToString(id)
  }

  /** `GET /defects`: `page` then `limit` always; then `project_id`,
      `status` and `priority`, in that order, each only when truthy. */
  function GetDefects(projectId: Value, page: int, limit: int, status: Value, priority: Value): (r: Request)
    ensures r.verb == GET && r.path == "/defects" && r.payload == NoBody
    ensures |r.query| >= 2 && r.query[0] == ("page", IntToString(page)) && r.query[1] == ("limit", IntToString(limit))
    ensures Keys(r.query) == ["page", "limit"]
                             + (if Truthy(projectId) then ["project_id"] else [])
                             + (if Truthy(status) then ["status"] else [])
                             + (if Truthy(priority) then ["priority"] else [])
    ensures Lookup(r.query, "project_id") == (if Truthy(projectId) then Some(ValueText(projectId)) else None)
    ensures Lookup(r.query, "status") == (if Truthy(status) then Some(ValueText(status)) else None)
    ensures Lookup(r.query, "priority") == (if Truthy(priority) then Some(ValueText(priority)) else None)
  {
    DefectsQueryKeys(projectId, page, limit, status, priority);
    DefectsQueryValues(projectId, page, limit, status, priority);
    Request(GET, "/defects", DefectsQuery(projectId, page, limit, status, priority), NoBody)
  }

  function DefectsQuery(projectId: Value, page: int, limit: int, status: Value, priority: Value): Table<string> {
    var q0 := [("page", IntToString(page)), ("limit", IntToString(limit))];
    var q1 := AppendIfTruthy(q0, "project_id", projectId);
    var q2 := AppendIfTruthy(q1, "status", status);
    AppendIfTruthy(q2, "priority", priority)
  }

  lemma DefectsQueryKeys(projectId: Value, page: int, limit: int, status: Value, priority: Value)
    ensures var q := DefectsQuery(projectId, page, limit, status, priority);
      && |q| >= 2 && q[0] == ("page", IntToString(page)) && q[1] == ("limit", IntToString(limit))
      && Keys(q) == ["page", "limit"]
                    + (if Truthy(projectId) then ["project_id"] else [])
                    + (if Truthy(status) then ["status"] else [])
                    + (if Truthy(priority) then ["priority"] else [])
  {
    var q0 := [("page", IntToString(page)), ("limit", IntToString(limit))];
    assert Keys(q0) == ["page", "limit"];
    var q1 := AppendIfTruthy(q0, "project_id", projectId);
    var q2 := AppendIfTruthy(q1, "status", status);
    var q3 := AppendIfTruthy(q2, "priority", priority);
    assert q1[..2] == q0 && q2[..|q1|] == q1 && q3[..|q2|] == q2;
  }

  lemma DefectsQueryValues(projectId: Value, page: int, limit: int, status: Value, priority: Value)
    ensures var q := DefectsQuery(projectId, page, limit, status, priority);
      && Lookup(q, "project_id") == (if Truthy(projectId) then Some(ValueText(projectId)) else None)
      && Lookup(q, "status") == (if Truthy(status) then Some(ValueText(status)) else None)
      && Lookup(q, "priority") == (if Truthy(priority) then Some(ValueText(priority)) else None)
  {
    DefectsQueryProjectId(projectId, page, limit, status, priority);
    DefectsQueryStatus(projectId, page, limit, status, priority);
    DefectsQueryPriority(projectId, page, limit, status, priority);
  }

  lemma DefectsQueryProjectId(projectId: Value, page: int, limit: int, status: Value, priority: Value)
    ensures Lookup(DefectsQuery(projectId, page, limit, status, priority), "project_id")
            == (if Truthy(projectId) then Some(ValueText(projectId)) else None)
  {
    var q0 := [("page", IntToString(page)), ("limit", IntToString(limit))];
    var q1 := AppendIfTruthy(q0, "project_id", projectId);
    var q2 := AppendIfTruthy(q1, "status", status);
    assert Keys(q0) == ["page", "limit"];
    LookupAppendIfTruthy(q0, "project_id", projectId, "project_id");
    LookupAppendIfTruthy(q1, "status", status, "project_id");
    LookupAppendIfTruthy(q2, "priority", priority, "project_id");
  }

  lemma DefectsQueryStatus(projectId: Value, page: int, limit: int, status: Value, priority: Value)
    ensures Lookup(DefectsQuery(projectId, page, limit, status, priority), "status")
            == (if Truthy(status) then Some(ValueText(status)) else None)
  {
    var q0 := [("page", IntToString(page)), ("limit", IntToString(limit))];
    var q1 := AppendIfTruthy(q0, "project_id", projectId);
    var q2 := AppendIfTruthy(q1, "status", status);
    assert Keys(q0) == ["page", "limit"];
    assert "status" !in Keys(q1);
    LookupAppendIfTruthy(q1, "status", status, "status");
    LookupAppendIfTruthy(q2, "priority", priority, "status");
  }

  lemma DefectsQueryPriority(projectId: Value, page: int, limit: int, status: Value, priority: Value)
    ensures Lookup(DefectsQuery(projectId, page, limit, status, priority), "priority")
            == (if Truthy(priority) then Some(ValueText(priority)) else None)
  {
    var q0 := [("page", IntToString(page)), ("limit", IntToString(limit))];
    var q1 := AppendIfTruthy(q0, "project_id", projectId);
    var q2 := AppendIfTruthy(q1, "status", status);
    assert Keys(q0) == ["page", "limit"];
    assert "priority" !in Keys(q2);
    LookupAppendIfTruthy(q2, "priority", priority, "priority");
  }

  /** `getDefects(projectId)` with every default: page 1, limit 20, no
      status or priority filter. */
  lemma GetDefectsDefaults(projectId: Value)
    ensures GetDefects(projectId, DefaultPage, DefaultLimit, Str(""), Str("")).query
            == [("page", "1"), ("limit", "20")] + (if Truthy(projectId) then [("project_id", ValueText(projectId))] else [])
  {
    SmallNumerals();
  }

  /** `GET /defects/:id`. */
  function GetDefect(id: int): (r: Request)
    ensures r.verb == GET && IdBetween(r.path, "/defects/", "") == Some(id)
    ensures r.query == [] && r.payload == NoBody
  {
    Bare(GET, DefectPath(id))
  }

  /** The priority `createDefect` sends: the form's, or `'medium'` when the
      form's is empty. */
  function PriorityOrMedium(priority: string): (p: string)
    ensures p != ""
    ensures priority != "" ==> p == priority
  {
    if priority != "" then priority else "medium"
  }

  /** `POST /defects`: exactly `project_id`, `title`, `description` and
      `priority`, in that order; the priority defaults to `'medium'`. */
  function CreateDefect(data: DefectData): (r: Request)
    ensures r.verb == POST && r.path == "/defects" && r.query == []
    ensures r.payload.Json? && Keys(r.payload.fields) == ["project_id", "title", "description", "priority"]
    ensures Lookup(r.payload.fields, "project_id") == Some(data.projectId)
    ensures Lookup(r.payload.fields, "title") == Some(Str(data.title))
    ensures Lookup(r.payload.fields, "description") == Some(Str(data.description))
    ensures Lookup(r.payload.fields, "priority") == Some(Str(if data.priority == "" then "medium" else data.priority))
  {
    var fields := [
      ("project_id", data.projectId),
      ("title", Str(data.title)),
      ("description", Str(data.description)),
      ("priority", Str(PriorityOrMedium(data.priority)))
    ];
    assert DistinctKeys(fields);
    assert fields[0].0 == "project_id" && fields[1].0 == "title";
    assert fields[2].0 == "description" && fields[3].0 == "priority";
    Request(POST, "/defects", [], Json(fields))
  }

  /** `PUT /defects/:id`: exactly `title`, `description` and `priority`,
      with the priority sent as the form has it (no default). */
  function UpdateDefect(id: int, data: DefectData): (r: Request)
    ensures r.verb == PUT && IdBetween(r.path, "/defects/", "") == Some(id) && r.query == []
    ensures r.payload.Json? && Keys(r.payload.fields) == ["title", "description", "priority"]
    ensures Lookup(r.payload.fields, "title") == Some(Str(data.title))
    ensures Lookup(r.payload.fields, "description") == Some(Str(data.description))
    ensures Lookup(r.payload.fields, "priority") == Some(Str(data.priority))
  {
    var fields := [
      ("title", Str(data.title)),
      ("description", Str(data.description)),
      ("priority", Str(data.priority))
    ];
    assert DistinctKeys(fields);
    assert fields[0].0 == "title" && fields[1].0 == "description" && fields[2].0 == "priority";
    Request(PUT, DefectPath(id), [], Json(fields))
  }

  /** The general edit never touches the project or the status of a
      defect; those fields are not in its body. */
  lemma UpdateDefectLeavesProjectAndStatus(id: int, data: DefectData)
    ensures Lookup(UpdateDefect(id, data).payload.fields, "project_id") == None
    ensures Lookup(UpdateDefect(id, data).payload.fields, "status") == None
  {
  }

  /** `PATCH /defects/:id/status` with `status` as its only field. */
  function UpdateDefectStatus(id: int, status: string): (r: Request)
    ensures r.verb == PATCH && IdBetween(r.path, "/defects/", "/status") == Some(id) && r.query == []
    ensures r.payload.Json? && Keys(r.payload.fields) == ["status"]
    ensures Lookup(r.payload.fields, "status") == Some(Str(status))
  {
    IdBetweenRoundTrip("/defects/", id, "/status");
    Request(PATCH, "/defects/" + IntToString(id) + "/status", [], Json([("status", Str(status))]))
  }

  /** `DELETE /defects/:id` with no body. */
  function DeleteDefect(id: int): (r: Request)
    ensures r.verb == DELETE && IdBetween(r.path, "/defects/", "") == Some(id)
    ensures r.query == [] && r.payload == NoBody
  {
    Bare(DELETE, DefectPath(id))
  }

  /** `GET /projects/:id/defects/stats`. */
  function GetProjectDefectsStats(projectId: int): (r: Request)
    ensures r.verb == GET && IdBetween(r.path, "/projects/", "/defects/stats") == Some(projectId)
    ensures r.query == [] && r.payload == NoBody
  {
    IdBetweenRoundTrip("/projects/", projectId, "/defects/stats");
    Bare(GET, "/projects/" + IntToString(projectId) + "/defects/stats")
  }

  /** `POST /files/upload` as a multipart form of `files`, `entity_type`
      `'defect'` and `entity_id` the decimal id, in that order. */
  function UploadDefectImage(defectId: int, image: FileRef): (r: Request)
    ensures r.verb == POST && r.path == "/files/upload" && r.query == []
    ensures r.payload.Multipart? && Keys(r.payload.parts) == ["files", "entity_type", "entity_id"]
    ensures r.payload.parts[0].1 == FilePart(image)
    ensures r.payload.parts[1].1 == TextPart("defect")
    ensures r.payload.parts[2].1.TextPart? && ParseInt(r.payload.parts[2].1.text) == Some(defectId)
  {
    IntToStringRoundTrip(defectId);
    Request(POST, "/files/upload", [], Multipart([
      ("files", FilePart(image)),
      ("entity_type", TextPart("defect")),
      ("entity_id", TextPart(IntToString(defectId)))
    ]))
  }

  /** `GET /files?entity_type=defect&entity_id=:id`. */
  function GetDefectFiles(defectId: int): (r: Request)
    ensures r.verb == GET && r.path == "/files" && r.payload == NoBody
    ensures Keys(r.query) == ["entity_type", "entity_id"]
    ensures r.query[0].1 == "defect" && ParseInt(r.query[1].1) == Some(defectId)
  {
    IntToStringRoundTrip(defectId);
    Request(GET, "/files", [("entity_type", "defect"), ("entity_id", IntToString(defectId))], NoBody)
  }
}
