/**
 * What the message handler sees of `JSON.parse(data.toString())`.
 * The parser itself is not modelled: the environment hands the handler the
 * outcome of parsing, and the handler only ever looks at the `type` field.
 */
module Json {
  import opened Wrappers

  /** A JSON value, kept only as detailed as JavaScript truthiness and `typeof` need. */
  datatype JsonValue =
    | JNull
    | JBool(b: bool)
    | JNumber(n: real)
    | JString(str: string)
    | JArray
    | JObject

  /**
   * The outcome of parsing one incoming payload.
   * `JsonNull` is the document `null`, on which reading `.type` throws.
   * `Parsed` is every other document; `typeField` is the value of its `type`
   * property, `None` when that property is `undefined` (an object without it,
   * or a number, string, boolean or array document).
   */
  datatype Incoming =
    | InvalidJson
    | JsonNull
    | Parsed(typeField: Option<JsonValue>)

  /** JavaScript truthiness of a parsed value (JSON never yields NaN). */
  predicate Truthy(v: JsonValue) {
    match v
    case JNull => false
    case JBool(b) => b
    case JNumber(n) => n != 0.0
    case JString(s) => s != ""
    case JArray => true
    case JObject => true
  }

  /**
   * The guard `!msg.type || typeof msg.type !== 'string'`: the message type
   * when the guard lets the message through, `None` when the handler answers
   * with the "missing or invalid type" error. The guard accepts exactly the
   * non-empty strings.
   */
  function MessageType(typeField: Option<JsonValue>): (r: Option<string>)
    ensures r.Some? <==> typeField.Some? && typeField.value.JString? && typeField.value.str != ""
    ensures r.Some? ==> typeField == Some(JString(r.value))
  {
    match typeField
    case None => None
    case Some(v) => if !Truthy(v) || !v.JString? then None else Some(v.str)
  }
}
