/** Requests of the project endpoints, and the project image URL. */
module ProjectsApi {
  import opened Js
  import opened Tables
  import opened Http
  import DefectsApi

  /** The project form's data, in the client's camelCase names. */
  datatype ProjectData = ProjectData(
    name: string,
    description: string,
    address: string,
    status: string,
    startDate: string,
    endDate: string)

  const DefaultPage: int := 1
  const DefaultLimit: int := 10

  /** The fixed origin and prefix the image URL is built on. */
  const ImageUrlBase: string := "http://localhost:8080/api/v1"

  /** The path of one project, `/projects/:id`. */
  function ProjectPath(id: int): (p: string)
    ensures IdBetween(p, "/projects/", "") == Some(id)
  {
    IdBetweenRoundTrip("/projects/", id, "");
    assert "/projects/" + IntToString(id) + "" == "/projects/" + IntToString(id);
    "/projects/" + IntToString(id)
  }

  /** `GET /projects`: `page` then `limit`, then `status` only when it is
      truthy. */
  function GetProjects(page: int, limit: int, status: Value): (r: Request)
    ensures r.verb == GET && r.path == "/projects" && r.payload == NoBody
    ensures |r.query| >= 2 && r.query[0] == ("page", IntToString(page)) && r.query[1] == ("limit", IntToString(limit))
    ensures Keys(r.query) == ["page", "limit"] + (if Truthy(status) then ["status"] else [])
    ensures Lookup(r.query, "status") == (if Truthy(status) then Some(ValueText(status)) else None)
  {
    var q0 := [("page", IntToString(page)), ("limit", IntToString(limit))];
    assert Keys(q0) == ["page", "limit"];
    var q := AppendIfTruthy(q0, "status", status);
    LookupAppendIfTruthy(q0, "status", status, "status");
    Request(GET, "/projects", q, NoBody)
  }

  /** `getProjects()` with every default: page 1, limit 10, no status. */
  lemma GetProjectsDefaults()
    ensures GetProjects(DefaultPage, DefaultLimit, Str("")).query == [("page", "1"), ("limit", "10")]
  {
    SmallNumerals();
  }

  /** `GET /projects/:id`. */
  function GetProject(id: int): (r: Request)
    ensures r.verb == GET && IdBetween(r.path, "/projects/", "") == Some(id)
    ensures r.query == [] && r.payload == NoBody
  {
    Bare(GET, ProjectPath(id))
  }

  /** `POST /projects`: exactly `name`, `description`, `address`,
      `start_date` and `end_date`, in that order; no `status`. */
  function CreateProject(data: ProjectData): (r: Request)
    ensures r.verb == POST && r.path == "/projects" && r.query == []
    ensures r.payload.Json?
    ensures Keys(r.payload.fields) == ["name", "description", "address", "start_date", "end_date"]
    ensures Lookup(r.payload.fields, "name") == Some(Str(data.name))
    ensures Lookup(r.payload.fields, "description") == Some(Str(data.description))
    ensures Lookup(r.payload.fields, "address") == Some(Str(data.address))
    ensures Lookup(r.payload.fields, "start_date") == Some(Str(data.startDate))
    ensures Lookup(r.payload.fields, "end_date") == Some(Str(data.endDate))
  {
    CreateBodyFields(data);
    Request(POST, "/projects", [], Json(CreateBody(data)))
  }

  /** `PUT /projects/:id`: every field of the form, `status` included, so
      the update replaces the whole record. */
  function UpdateProject(id: int, data: ProjectData): (r: Request)
    ensures r.verb == PUT && IdBetween(r.path, "/projects/", "") == Some(id) && r.query == []
    ensures r.payload.Json?
    ensures Keys(r.payload.fields) == ["name", "description", "address", "status", "start_date", "end_date"]
    ensures Lookup(r.payload.fields, "name") == Some(Str(data.name))
    ensures Lookup(r.payload.fields, "description") == Some(Str(data.description))
    ensures Lookup(r.payload.fields, "address") == Some(Str(data.address))
    ensures Lookup(r.payload.fields, "status") == Some(Str(data.status))
    ensures Lookup(r.payload.fields, "start_date") == Some(Str(data.startDate))
    ensures Lookup(r.payload.fields, "end_date") == Some(Str(data.endDate))
  {
    UpdateBodyFields(data);
    Request(PUT, ProjectPath(id), [], Json(UpdateBody(data)))
  }

  function CreateBody(data: ProjectData): Table<Value> {
    [
      ("name", Str(data.name)),
      ("description", Str(data.description)),
      ("address", Str(data.address)),
      ("start_date", Str(data.startDate)),
      ("end_date", Str(data.endDate))
    ]
  }

  function UpdateBody(data: ProjectData): Table<Value> {
    [
      ("name", Str(data.name)),
      ("description", Str(data.description)),
      ("address", Str(data.address)),
      ("status", Str(data.status)),
      ("start_date", Str(data.startDate)),
      ("end_date", Str(data.endDate))
    ]
  }

  lemma CreateBodyFields(data: ProjectData)
    ensures var fields := CreateBody(data);
      && Keys(fields) == ["name", "description", "address", "start_date", "end_date"]
      && Lookup(fields, "name") == Some(Str(data.name))
      && Lookup(fields, "description") == Some(Str(data.description))
      && Lookup(fields, "address") == Some(Str(data.address))
      && Lookup(fields, "start_date") == Some(Str(data.startDate))
      && Lookup(fields, "end_date") == Some(Str(data.endDate))
  {
    var fields := CreateBody(data);
    assert DistinctKeys(fields);
    assert fields[0].0 == "name" && fields[1].0 == "description" && fields[2].0 == "address";
    assert fields[3].0 == "start_date" && fields[4].0 == "end_date";
  }

  lemma UpdateBodyFields(data: ProjectData)
    ensures var fields := UpdateBody(data);
      && Keys(fields) == ["name", "description", "address", "status", "start_date", "end_date"]
      && Lookup(fields, "name") == Some(Str(data.name))
      && Lookup(fields, "description") == Some(Str(data.description))
      && Lookup(fields, "address") == Some(Str(data.address))
      && Lookup(fields, "status") == Some(Str(data.status))
      && Lookup(fields, "start_date") == Some(Str(data.startDate))
      && Lookup(fields, "end_date") == Some(Str(data.endDate))
  {
    var fields := UpdateBody(data);
    assert DistinctKeys(fields);
    assert fields[0].0 == "name" && fields[1].0 == "description" && fields[2].0 == "address";
    assert fields[3].0 == "status" && fields[4].0 == "start_date" && fields[5].0 == "end_date";
  }

  /** The update body is the create body with `status` added after
      `address`. */
  lemma UpdateIsCreatePlusStatus(id: int, data: ProjectData)
    ensures var u := UpdateProject(id, data).payload.fields;
            var c := CreateProject(data).payload.fields;
            u[..3] + u[4..] == c && u[3] == ("status", Str(data.status))
  {
    var u := UpdateBody(data);
    assert u[..3] + u[4..] == CreateBody(data);
  }

  /** Creation never sends a status: the server chooses it. */
  lemma CreateProjectHasNoStatus(data: ProjectData)
    ensures Lookup(CreateProject(data).payload.fields, "status") == None
  {
    var r := CreateProject(data);
    StatusIsNoCreateKey();
    LookupAbsent(r.payload.fields, "status");
  }

  lemma StatusIsNoCreateKey()
    ensures "status" !in ["name", "description", "address", "start_date", "end_date"]
  {
    var ks := ["name", "description", "address", "start_date", "end_date"];
    assert |ks[0]| == 4 && |ks[1]| == 11 && |ks[2]| == 7 && |ks[3]| == 10 && |ks[4]| == 8;
  }

  /** `DELETE /projects/:id` with no body. */
  function DeleteProject(id: int): (r: Request)
    ensures r.verb == DELETE && IdBetween(r.path, "/projects/", "") == Some(id)
    ensures r.query == [] && r.payload == NoBody
  {
    Bare(DELETE, ProjectPath(id))
  }

  /** The absolute URL of a project's image: the fixed base, then
      `/projects/`, the id and `/image`; the id can be read back. */
  function ProjectImageUrl(id: int): (url: string)
    ensures |url| > |ImageUrlBase| && url[..|ImageUrlBase|] == ImageUrlBase
    ensures IdBetween(url, ImageUrlBase + "/projects/", "/image") == Some(id)
  {
    IdBetweenRoundTrip(ImageUrlBase + "/projects/", id, "/image");
    assert ImageUrlBase + "/projects/" + IntToString(id) + "/image"
           == ImageUrlBase + ("/projects/" + IntToString(id) + "/image");
    ImageUrlBase + "/projects/" + IntToString(id) + "/image"
  }

  /** Distinct projects never share an image URL. */
  lemma ProjectImageUrlInjective(a: int, b: int)
    ensures ProjectImageUrl(a) == ProjectImageUrl(b) ==> a == b
  {
  }

  /** `POST /files/upload` as a multipart form of `files`, `entity_type`
      `'project'` and `entity_id` the decimal id, in that order. */
  function UploadProjectImage(projectId: int, image: FileRef): (r: Request)
    ensures r.verb == POST && r.path == "/files/upload" && r.query == []
    ensures r.payload.Multipart? && Keys(r.payload.parts) == ["files", "entity_type", "entity_id"]
    ensures r.payload.parts[0].1 == FilePart(image)
    ensures r.payload.parts[1].1 == TextPart("project")
    ensures r.payload.parts[2].1.TextPart? && ParseInt(r.payload.parts[2].1.text) == Some(projectId)
  {
    IntToStringRoundTrip(projectId);
    Request(POST, "/files/upload", [], Multipart([
      ("files", FilePart(image)),
      ("entity_type", TextPart("project")),
      ("entity_id", TextPart(IntToString(projectId)))
    ]))
  }

  /** A project image upload and a defect image upload of the same file
      for the same id differ only in the `entity_type` value. */
  lemma UploadsDifferOnlyInEntityType(id: int, image: FileRef)
    ensures var p := UploadProjectImage(id, image);
            var d := DefectsApi.UploadDefectImage(id, image);
            && p.verb == d.verb && p.path == d.path && p.query == d.query
            && d.payload.Multipart? && p.payload.Multipart?
            && p.payload.parts == d.payload.parts[1 := ("entity_type", TextPart("project"))]
            && d.payload.parts[1] == ("entity_type", TextPart("defect"))
  {
  }

  /** `GET /projects/:id/files`. */
  function GetProjectFiles(id: int): (r: Request)
    ensures r.verb == GET && IdBetween(r.path, "/projects/", "/files") == Some(id)
    ensures r.query == [] && r.payload == NoBody
  {
    IdBetweenRoundTrip("/projects/", id, "/files");
    Bare(GET, "/projects/" + IntToString(id) + "/files")
  }
}
