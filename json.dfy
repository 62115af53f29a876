/**
 * JSON values as the frontend sees them after `JSON.parse`, and as the backend reads them from configuration
 * files, with the JavaScript and Python coercions the code relies on.
 */
module Json {
  import opened Wrappers
  import opened Text

  /** A JSON value. Numbers are kept as mathematical reals; objects map keys to values. */
  datatype Json =
    | JNull
    | JBool(b: bool)
    | JNum(n: real)
    | JStr(s: string)
    | JArr(items: seq<Json>)
    | JObj(fields: map<string, Json>)

  /** JavaScript truthiness of a parsed JSON value: `null`, `false`, `0` and `""` are falsy, arrays and objects are not. */
  predicate JsTruthy(v: Json) {
    match v
    case JNull => false
    case JBool(b) => b
    case JNum(n) => n != 0.0
    case JStr(s) => s != []
    case _ => true
  }

  /** Python truthiness of the same value: empty lists and dicts are falsy too. */
  predicate PyTruthy(v: Json) {
    match v
    case JNull => false
    case JBool(b) => b
    case JNum(n) => n != 0.0
    case JStr(s) => s != []
    case JArr(xs) => xs != []
    case JObj(m) => m != map[]
  }

  /** JavaScript property access on a parsed value: `undefined` (None) unless it is an object holding the key. */
  function Field(v: Json, key: string): (r: Option<Json>)
    ensures r.Some? <==> v.JObj? && key in v.fields
    ensures r.Some? ==> r.value == v.fields[key]
  {
    if v.JObj? && key in v.fields then Some(v.fields[key]) else None
  }

  /** JavaScript `a || b` where either side may be `undefined`: the first truthy operand, else the second. */
  function JsOr(a: Option<Json>, b: Option<Json>): (r: Option<Json>)
    ensures a.Some? && JsTruthy(a.value) ==> r == a
    ensures !(a.Some? && JsTruthy(a.value)) ==> r == b
  {
    if a.Some? && JsTruthy(a.value) then a else b
  }

  /**
   * JavaScript `String(v)`. Arrays join their elements' strings with "," (null elements give ""), objects give
   * "[object Object]". Number formatting is a parameter.
   */
  function JsString(v: Json, showNumber: real -> string): string
    decreases v, 1
  {
    match v
    case JNull => "null"
    case JBool(b) => if b then "true" else "false"
    case JNum(n) => showNumber(n)
    case JStr(s) => s
    case JArr(xs) => JoinElements(v, xs, 0, showNumber)
    case JObj(_) => "[object Object]"
  }

  /** `Array.prototype.join(",")` over `xs[i..]`, part of `String` on an array. */
  function JoinElements(v: Json, xs: seq<Json>, i: nat, showNumber: real -> string): string
    requires v.JArr? && xs == v.items && i <= |xs|
    decreases v, 0, |xs| - i
  {
    if i == |xs| then ""
    else
      var e := if xs[i].JNull? then "" else JsString(xs[i], showNumber);
      if i + 1 == |xs| then e else e + "," + JoinElements(v, xs, i + 1, showNumber)
  }

  /** A one-element array prints as its element; an empty one as the empty string. */
  lemma JsStringOfSmallArrays(x: Json, showNumber: real -> string)
    ensures JsString(JArr([]), showNumber) == ""
    ensures !x.JNull? ==> JsString(JArr([x]), showNumber) == JsString(x, showNumber)
  {
  }
}
