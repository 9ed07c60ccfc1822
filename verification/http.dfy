/** The shape of the HTTP requests the API modules issue. Transport,
    headers, the bearer token and percent-encoding are not modelled: a
    request is its method, its path below `/api/v1`, its ordered query
    parameters and its payload. */
module Http {
  import opened Js
  import opened Tables

  datatype Method = GET | POST | PUT | PATCH | DELETE

  /** A browser `File` chosen in an `<input type="file">`; opaque here. */
  datatype FileRef = FileRef(name: string)

  /** One field of a multipart form: the raw file or a text value. */
  datatype Part = FilePart(file: FileRef) | TextPart(text: string)

  datatype Payload =
    | NoBody
    | Json(fields: Table<Value>)
    | Multipart(parts: Table<Part>)

  datatype Request = Request(verb: Method, path: string, query: Table<string>, payload: Payload)

  /** A request with no query and no body. */
  function Bare(verb: Method, path: string): (r: Request)
    ensures r.query == [] && r.payload == NoBody
  {
    Request(verb, path, [], NoBody)
  }

  /** `String(v)`, the text `URLSearchParams.append` stores. */
  function ValueText(v: Value): (s: string)
    ensures v.Str? ==> s == v.s
    ensures v.Num? ==> ParseInt(s) == Some(v.n)
  {
    match v
    case Null => "null"
    case Str(s) => s
    case Num(n) => IntToStringRoundTrip(n); IntToString(n)
  }

  /** `if (v) params.append(key, v.toString())`. */
  function AppendIfTruthy(q: Table<string>, key: string, v: Value): (r: Table<string>)
    ensures Keys(r) == Keys(q) + (if Truthy(v) then [key] else [])
    ensures r[..|q|] == q
  {
    if Truthy(v) then
      KeysAppend(q, [(key, ValueText(v))]);
      q + [(key, ValueText(v))]
    else q
  }

  /** Appending leaves the other keys' values alone and, for a key the
      query did not have, adds its text exactly when the value is truthy. */
  lemma LookupAppendIfTruthy(q: Table<string>, key: string, v: Value, k: string)
    ensures k != key ==> Lookup(AppendIfTruthy(q, key, v), k) == Lookup(q, k)
    ensures k == key && key !in Keys(q) ==>
      Lookup(AppendIfTruthy(q, key, v), k) == (if Truthy(v) then Some(ValueText(v)) else None)
  {
    if Truthy(v) {
      LookupAppend(q, [(key, ValueText(v))], k);
    }
  }

  /** The text of a JSON body field, when the field is there and is a
      string. */
  function TextField(fields: Table<Value>, key: string): (r: Option<string>)
    ensures r.Some? <==> Lookup(fields, key).Some? && Lookup(fields, key).value.Str?
    ensures r.Some? ==> Lookup(fields, key) == Some(Str(r.value))
  {
    var v := Lookup(fields, key);
    if v.Some? && v.value.Str? then Some(v.value.s) else None
  }

  /** The integer written between a known prefix and suffix of a path or
      URL (`/defects/42/status` read with `/defects/` and `/status`). */
  function IdBetween(s: string, prefix: string, suffix: string): (r: Option<int>)
    ensures r.Some? ==> |prefix| + |suffix| < |s|
  {
    if |prefix| + |suffix| < |s| && s[..|prefix|] == prefix && s[|s| - |suffix|..] == suffix
    then ParseInt(s[|prefix|..|s| - |suffix|])
    else None
  }

  /** A path built as prefix, decimal id, suffix names exactly that id. */
  lemma IdBetweenRoundTrip(prefix: string, id: int, suffix: string)
    ensures IdBetween(prefix + IntToString(id) + suffix, prefix, suffix) == Some(id)
  {
    var m := IntToString(id);
    var s := prefix + m + suffix;
    assert s[..|prefix|] == prefix;
    assert s[|s| - |suffix|..] == suffix;
    assert s[|prefix|..|s| - |suffix|] == m;
    IntToStringRoundTrip(id);
  }
}
