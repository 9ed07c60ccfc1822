/** The server's records as the client reads them. String fields the
    client guards with `|| ''`, and the user's names, whose first
    character the profile reads, are `Option<string>`: `None` stands for a
    `null` or missing field. Ids are integers. */
module Entities {
  import opened Js

  datatype Role = Role(code: string)

  datatype User = User(
    id: int,
    email: string,
    firstName: Option<string>,
    lastName: Option<string>,
    phone: string,
    role: Option<Role>,
    isActive: bool)

  datatype Project = Project(
    id: int,
    name: Option<string>,
    description: Option<string>,
    address: Option<string>,
    status: Option<string>,
    startDate: Option<string>,
    endDate: Option<string>)

  datatype Defect = Defect(
    id: int,
    projectId: int,
    title: Option<string>,
    description: Option<string>,
    priority: Option<string>,
    status: string)

  /** The `pagination` object of a list response. */
  datatype Envelope = Envelope(currentPage: int, totalPages: int, totalItems: int)

  /** The body of `GET /defects`; either part may be missing. */
  datatype DefectList = DefectList(defects: Option<seq<Defect>>, pagination: Option<Envelope>)

  /** The body of `GET /projects`; either part may be missing. */
  datatype ProjectList = ProjectList(projects: Option<seq<Project>>, pagination: Option<Envelope>)
}
