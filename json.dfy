/** The JSON values a request body can hold, as `req.json()` yields them. */
module Json {
  import opened Wrappers

  datatype JsValue =
    | JsNull
    | JsBool(b: bool)
    | JsNumber(n: real)
    | JsString(s: string)
    | JsArray(items: seq<JsValue>)
    | JsObject(fields: map<string, JsValue>)

  /** A parsed object body: property name to value. */
  type JsRecord = map<string, JsValue>

  /** A property read: `None` is `undefined`. */
  function Get(obj: JsRecord, key: string): (v: Option<JsValue>)
    ensures v.Some? <==> key in obj
    ensures v.Some? ==> v.value == obj[key]
  {
    if key in obj then Some(obj[key]) else None
  }

  predicate IsInteger(x: real) {
    x.Floor as real == x
  }
}
