/**
 * JSON values as they arrive in request bodies, payloads, metadata and error
 * details, together with the two host languages' readings of them: JavaScript's
 * `typeof` and truthiness, and Python's truthiness.
 */
module Json {
  import opened Wrappers

  /** A JSON value. Numbers are exact reals; NaN and the infinities are not JSON. */
  datatype Json =
    | JNull
    | JBool(b: bool)
    | JNumber(n: real)
    | JString(s: string)
    | JArray(items: seq<Json>)
    | JObject(fields: map<string, Json>)

  /** A JSON object body, such as an Express `req.body`: absent keys read as `undefined`. */
  type JsonObject = map<string, Json>

  /** Reads a property of an object; None stands for JavaScript's `undefined`. */
  function Field(o: JsonObject, key: string): Option<Json> {
    if key in o then Some(o[key]) else None
  }

  /** JavaScript's `typeof` on a value decoded from JSON. */
  function TypeOf(v: Json): string {
    match v
    case JNull => "object"
    case JBool(_) => "boolean"
    case JNumber(_) => "number"
    case JString(_) => "string"
    case JArray(_) => "object"
    case JObject(_) => "object"
  }

  /** JavaScript truthiness (`!!v`): every array and object is truthy, even an empty one. */
  predicate JsTruthy(v: Json) {
    match v
    case JNull => false
    case JBool(b) => b
    case JNumber(n) => n != 0.0
    case JString(s) => s != ""
    case JArray(_) => true
    case JObject(_) => true
  }

  /** Python truthiness (`bool(v)`) of the decoded value: empty containers are falsy. */
  predicate PyTruthy(v: Json) {
    match v
    case JNull => false
    case JBool(b) => b
    case JNumber(n) => n != 0.0
    case JString(s) => s != ""
    case JArray(items) => |items| > 0
    case JObject(fields) => |fields| > 0
  }

  /** The two truthiness rules disagree exactly on the empty array and the empty object. */
  lemma TruthinessDisagreement(v: Json)
    ensures JsTruthy(v) != PyTruthy(v) <==> v == JArray([]) || v == JObject(map[])
  {
    match v
    case JArray(items) =>
      if |items| == 0 { assert items == []; }
    case JObject(fields) =>
      if |fields| == 0 { assert fields == map[]; }
    case _ =>
  }
}
