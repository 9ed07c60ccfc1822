/** Requests of the authentication endpoints. */
module AuthApi {
  import opened Js
  import opened Tables
  import opened Http

  /** The registration form's data, in the client's camelCase names. */
  datatype RegisterData = RegisterData(
    email: string,
    password: string,
    firstName: string,
    lastName: string,
    phone: string,
    roleCode: string)

  /** `POST /auth/login` with exactly the two credentials, unchanged. */
  function Login(email: string, password: string): (r: Request)
    ensures r.verb == POST && r.path == "/auth/login" && r.query == []
    ensures r.payload.Json? && Keys(r.payload.fields) == ["email", "password"]
    ensures Lookup(r.payload.fields, "email") == Some(Str(email))
    ensures Lookup(r.payload.fields, "password") == Some(Str(password))
  {
    Request(POST, "/auth/login", [], Json([("email", Str(email)), ("password", Str(password))]))
  }

  /** `POST /auth/register`: the camelCase names become snake_case, the
      other fields keep their names, and no value is altered. */
  function Register(data: RegisterData): (r: Request)
    ensures r.verb == POST && r.path == "/auth/register" && r.query == []
    ensures r.payload.Json?
    ensures Keys(r.payload.fields) == ["email", "password", "first_name", "last_name", "phone", "role_code"]
    ensures Lookup(r.payload.fields, "email") == Some(Str(data.email))
    ensures Lookup(r.payload.fields, "password") == Some(Str(data.password))
    ensures Lookup(r.payload.fields, "first_name") == Some(Str(data.firstName))
    ensures Lookup(r.payload.fields, "last_name") == Some(Str(data.lastName))
    ensures Lookup(r.payload.fields, "phone") == Some(Str(data.phone))
    ensures Lookup(r.payload.fields, "role_code") == Some(Str(data.roleCode))
  {
    var fields := [
      ("email", Str(data.email)),
      ("password", Str(data.password)),
      ("first_name", Str(data.firstName)),
      ("last_name", Str(data.lastName)),
      ("phone", Str(data.phone)),
      ("role_code", Str(data.roleCode))
    ];
    assert DistinctKeys(fields);
    assert fields[0].0 == "email" && fields[1].0 == "password" && fields[2].0 == "first_name";
    assert fields[3].0 == "last_name" && fields[4].0 == "phone" && fields[5].0 == "role_code";
    Request(POST, "/auth/register", [], Json(fields))
  }

  /** `GET /profile` carries neither query nor body. */
  function GetProfile(): (r: Request)
    ensures r.verb == GET && r.path == "/profile"
    ensures r.query == [] && r.payload == NoBody
  {
    Bare(GET, "/profile")
  }

  /** Reads a registration body back into the form's data. */
  function DecodeRegister(fields: Table<Value>): (d: Option<RegisterData>)
  {
    match (TextField(fields, "email"), TextField(fields, "password"), TextField(fields, "first_name"),
           TextField(fields, "last_name"), TextField(fields, "phone"), TextField(fields, "role_code"))
    case (Some(e), Some(p), Some(f), Some(l), Some(ph), Some(rc)) => Some(RegisterData(e, p, f, l, ph, rc))
    case _ => None
  }

  /** The registration body loses nothing: the form's data can be read
      back from it, so two different forms never send the same body. */
  lemma RegisterBodyRoundTrip(data: RegisterData)
    ensures DecodeRegister(Register(data).payload.fields) == Some(data)
  {
  }
}
