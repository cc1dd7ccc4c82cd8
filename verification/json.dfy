/**
 * JSON values as JavaScript sees them after `JSON.parse`, with the two
 * pieces of JavaScript semantics the handlers depend on: truthiness and
 * property access. A property that is absent reads as `undefined`, which is
 * `None` here.
 */
module Json {
  import opened Common

  datatype JsValue =
    | JNull
    | JBool(b: bool)
    | JNumber(n: real)
    | JString(s: string)
    | JArray(items: seq<JsValue>)
    | JObject(fields: map<string, JsValue>)

  /** JavaScript truthiness: `null`, `false`, `0` and `""` are falsy; arrays and objects are truthy. */
  predicate Truthy(v: JsValue) {
    match v
    case JNull => false
    case JBool(b) => b
    case JNumber(n) => n != 0.0
    case JString(s) => |s| > 0
    case JArray(_) => true
    case JObject(_) => true
  }

  /** Truthiness of a value that may be `undefined` (which is falsy). */
  predicate TruthyOrUndefined(v: Option<JsValue>) {
    v.Some? && Truthy(v.value)
  }

  /**
   * `v[key]` for a non-null value parsed from JSON. Only objects carry
   * the keys read here; strings, numbers, booleans and arrays read them as
   * `undefined`. (Reading a property of `null` throws; callers handle that
   * case before calling.)
   */
  function Member(v: JsValue, key: string): (r: Option<JsValue>)
    ensures r.Some? <==> v.JObject? && key in v.fields
    ensures r.Some? ==> r.value == v.fields[key]
  {
    match v
    case JObject(fields) => if key in fields then Some(fields[key]) else None
    case _ => None
  }

  /** `typeof v[key] === 'number'`, giving the number. */
  function NumberMember(v: JsValue, key: string): (r: Option<real>)
    ensures r.Some? <==> Member(v, key).Some? && Member(v, key).value.JNumber?
    ensures r.Some? ==> Member(v, key) == Some(JNumber(r.value))
  {
    match Member(v, key)
    case Some(JNumber(n)) => Some(n)
    case _ => None
  }

  /** `Array.isArray(v) ? v : []` */
  function ArrayItems(v: Option<JsValue>): (items: seq<JsValue>)
    ensures v.Some? && v.value.JArray? ==> items == v.value.items
    ensures !(v.Some? && v.value.JArray?) ==> items == []
  {
    match v
    case Some(JArray(items)) => items
    case _ => []
  }

  /** A list of strings as a JSON array. */
  function StringArray(codes: seq<string>): (v: seq<JsValue>)
    ensures |v| == |codes|
    ensures forall i :: 0 <= i < |codes| ==> v[i] == JString(codes[i])
  {
    seq(|codes|, i requires 0 <= i < |codes| => JString(codes[i]))
  }
}
