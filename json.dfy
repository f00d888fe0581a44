/**
 * Decoded JSON, as `encoding/json` hands it to the runtime core: objects become
 * `map[string]interface{}`, and a missing key reads back as a nil interface, which
 * behaves exactly like a JSON `null` for every access the core makes.
 *
 * The byte-level parser is not modelled. A response body is its raw text together with
 * what a streaming decoder reads from it: the documents it decodes, in order, and why it
 * stopped after the last one.
 */
module Json {
  import opened Wrappers

  datatype Json =
    | JNull
    | JBool(b: bool)
    | JNumber(n: real)
    | JString(s: string)
    | JArray(items: seq<Json>)
    | JObject(fields: Obj)

  type Obj = map<string, Json>

  /** Why the stream of documents ended: the input ran out, or the next bytes are not JSON. */
  datatype Stop = AtEof | AtSyntaxError

  datatype Body = Body(text: string, docs: seq<Json>, stop: Stop)

  datatype DecodeError = SyntaxError | TypeError

  /** `m[key]` on a Go map of interfaces: absent keys read as nil. */
  function Get(m: Obj, key: string): Json
  {
    if key in m then m[key] else JNull
  }

  /** The comma-ok assertion `v.(map[string]interface{})`. */
  function AsObject(v: Json): Option<Obj>
  {
    if v.JObject? then Some(v.fields) else None
  }

  /** The comma-ok assertion `v.(string)`. */
  function AsString(v: Json): Option<string>
  {
    if v.JString? then Some(v.s) else None
  }

  /** `json.Unmarshal`: the body must hold exactly one document and nothing after it. */
  function Unmarshal(b: Body): (r: Result<Json, DecodeError>)
    ensures r.Success? <==> |b.docs| == 1 && b.stop == AtEof
    ensures r.Success? ==> r.value == b.docs[0]
  {
    if |b.docs| == 1 && b.stop == AtEof then Success(b.docs[0]) else Failure(SyntaxError)
  }

  /**
   * `json.Unmarshal` into a `map[string]interface{}`: an object gives its fields, `null`
   * leaves the map nil (which reads like an empty map), any other document is a type error.
   */
  function UnmarshalObject(b: Body): (r: Result<Obj, DecodeError>)
    ensures r.Success? ==> Unmarshal(b).Success? && (Unmarshal(b).value == JObject(r.value) || (Unmarshal(b).value == JNull && r.value == map[]))
    ensures r.Failure? ==> Unmarshal(b).Failure? || !(Unmarshal(b).value.JObject? || Unmarshal(b).value.JNull?)
  {
    match Unmarshal(b)
    case Failure(e) => Failure(e)
    case Success(JObject(m)) => Success(m)
    case Success(JNull) => Success(map[])
    case Success(_) => Failure(TypeError)
  }
}
