/** Values shared by both services: errors, the JSON documents the manifest
    and HTTP payloads are made of, the parsed client DN and the user record
    the Authority sends. */
module Common {

  datatype Option<+T> = None | Some(value: T)

  /** What a handler raises instead of returning. */
  datatype Error =
    | HttpError(status: int)   // fastapi HTTPException(status_code=status)
    | KeyError(key: string)    // subscript of a dict that lacks the key
    | TypeMismatch             // subscript, .get or .replace on a value of the wrong type
    | JsonDecodeError          // json.loads on text that is not JSON

  datatype Result<+T> = Ok(value: T) | Err(error: Error)

  const Forbidden := HttpError(403)
  const NotFound := HttpError(404)

  /** A JSON value as json.loads produces it (numbers are integers here). */
  datatype Json =
    | JNull
    | JBool(b: bool)
    | JNumber(n: int)
    | JString(s: string)
    | JArray(items: seq<Json>)
    | JObject(fields: map<string, Json>)

  /** Python `doc[key]` on a parsed JSON value. */
  function Subscript(doc: Json, key: string): (r: Result<Json>)
    ensures r.Ok? <==> doc.JObject? && key in doc.fields
    ensures r.Ok? ==> r.value == doc.fields[key]
    ensures !doc.JObject? ==> r == Err(TypeMismatch)
    ensures doc.JObject? && key !in doc.fields ==> r == Err(KeyError(key))
  {
    match doc
    case JObject(fields) => if key in fields then Ok(fields[key]) else Err(KeyError(key))
    case _ => Err(TypeMismatch)
  }

  /** Python `doc[k0][k1]...` along a path of keys, failing at the first step that fails. */
  function SubscriptPath(doc: Json, path: seq<string>): (r: Result<Json>)
    ensures path == [] ==> r == Ok(doc)
    ensures r.Err? ==> r.error == TypeMismatch || (r.error.KeyError? && r.error.key in path)
    decreases |path|
  {
    if path == [] then Ok(doc)
    else
      match Subscript(doc, path[0])
      case Err(e) => Err(e)
      case Ok(next) => SubscriptPath(next, path[1..])
  }

  /** The Subject DN of the caller's client certificate, already parsed
      into attribute name -> value by the mTLS middleware. */
  type Dn = map<string, string>

  /** Python `dn.get("CN")`: the CN as a JSON-comparable value, None as null. */
  function DnCn(dn: Dn): (r: Json)
    ensures "CN" in dn <==> r.JString?
    ensures "CN" in dn ==> r == JString(dn["CN"])
    ensures "CN" !in dn ==> r == JNull
  {
    if "CN" in dn then JString(dn["CN"]) else JNull
  }

  /** The body the Authority posts for every user event (UserCRUDRequest). */
  datatype UserCrudRequest = UserCrudRequest(uuid: string, callsign: string, x509cert: string)
}
