/**
 * JavaScript values as they arrive from `JSON.parse` or a parsed request body,
 * with the few pieces of JavaScript semantics the handlers rely on: property
 * reads, `typeof`, truthiness and the nullish default `??`.
 */
module JsValue {
  import opened Wrappers

  /** A parsed JSON value. Numbers are carried as reals: only whether a number
      is zero ever takes part in a decision. */
  datatype Json =
    | JNull
    | JBool(b: bool)
    | JNumber(n: real)
    | JString(s: string)
    | JArray(items: seq<Json>)
    | JObject(fields: map<string, Json>)

  /** `typeof v` for the values JSON can denote: arrays and null are "object". */
  function TypeOf(v: Json): (r: string)
    ensures r == "object" <==> v.JNull? || v.JArray? || v.JObject?
  {
    match v
    case JNull => "object"
    case JBool(_) => "boolean"
    case JNumber(_) => "number"
    case JString(_) => "string"
    case JArray(_) => "object"
    case JObject(_) => "object"
  }

  /** The property read `v.key`; `None` stands for `undefined`. Only a parsed
      object has own properties with the names the handlers read. */
  function Get(v: Json, key: string): (r: Option<Json>)
  {
    if v.JObject? && key in v.fields then Some(v.fields[key]) else None
  }

  /** JavaScript truthiness of a possibly undefined value: `undefined`, `null`,
      `false`, `0` and `""` are falsy; every array and object is truthy. */
  predicate Truthy(v: Option<Json>)
  {
    match v
    case None => false
    case Some(JNull) => false
    case Some(JBool(b)) => b
    case Some(JNumber(n)) => n != 0.0
    case Some(JString(s)) => s != ""
    case Some(JArray(_)) => true
    case Some(JObject(_)) => true
  }

  /** `typeof v === 'string'`, with `undefined` not a string. */
  predicate IsString(v: Option<Json>)
  {
    v.Some? && v.value.JString?
  }

  /** A property of a typed record as it arrives in a request body: missing,
      present as `null`, or present with a value. */
  datatype Field<+T> = Absent | Null | Val(value: T)

  /** Truthiness of a text property: only a present, non-empty string is truthy. */
  predicate TruthyText(f: Field<string>)
  {
    f.Val? && f.value != ""
  }

  /** Truthiness of an object or array property: any present value is truthy,
      however empty it is. */
  predicate TruthyObject<T>(f: Field<T>)
  {
    f.Val?
  }

  /** `f ?? d`: the default replaces `undefined` and `null` only. */
  function Coalesce<T>(f: Field<T>, d: T): T
  {
    if f.Val? then f.value else d
  }
}
