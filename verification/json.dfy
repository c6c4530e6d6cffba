/**
 * Values of a parsed JSON request body and the JavaScript conversions the API
 * applies to them: `Number(v)`, `String(v)`, `Boolean(v)` and `v ?? d`.
 * A field that is absent from the body (`undefined`) is `None`.
 */
module JsValue {
  import opened JsText
  import opened JsNumber

  /**
   * A JSON value. A number carries its `String(n)` rendering, which this model
   * does not compute; the members of an object are not modelled.
   */
  datatype Json = JNull | JBool(b: bool) | JNumber(n: JsNum, text: string) | JString(s: string)
                | JArray(elems: seq<Json>) | JObject

  /** `Number(v)`: an array converts through its `String(v)` rendering. */
  function ToNumber(v: Json): (r: JsNum)
    ensures v.JString? ==> r == StrToNumber(v.s)
    ensures v.JArray? ==> r == StrToNumber(ToStr(v))
    ensures v.JObject? ==> r == NaN
    ensures v.JNull? || v == JArray([]) ==> r == Finite(0.0)
  {
    match v
    case JNull => Finite(0.0)
    case JBool(b) => Finite(if b then 1.0 else 0.0)
    case JNumber(n, _) => n
    case JString(s) => StrToNumber(s)
    case JArray(_) => StrToNumber(ToStr(v))
    case JObject => NaN
  }

  /**
   * `String(v)`: null renders as "null", an object as "[object Object]", and an
   * array as its elements joined with commas, a null element as "".
   */
  function ToStr(v: Json): (r: string)
    ensures v.JString? ==> r == v.s
    ensures v == JArray([]) || v == JArray([JNull]) ==> r == []
    ensures v.JArray? && |v.elems| == 1 && !v.elems[0].JNull? ==> r == ToStr(v.elems[0])
    ensures !v.JString? && !v.JNumber? && !v.JArray? ==> r != []
    decreases v, 0
  {
    match v
    case JNull => "null"
    case JBool(b) => if b then "true" else "false"
    case JNumber(_, text) => text
    case JString(s) => s
    case JArray(elems) => Join(seq(|elems|, i requires 0 <= i < |elems| => ElemStr(elems[i])), ",")
    case JObject => "[object Object]"
  }

  /** An array element as `join` renders it: "" for null. */
  function ElemStr(e: Json): string
    decreases e, 1
  {
    if e.JNull? then "" else ToStr(e)
  }

  /** `Boolean(v)`: false for null, false, 0, NaN and "". */
  predicate JsTruthy(v: Json)
  {
    match v
    case JNull => false
    case JBool(b) => b
    case JNumber(n, _) => !n.NaN? && n != Finite(0.0)
    case JString(s) => s != []
    case JArray(_) => true
    case JObject => true
  }

  /** `v ?? d`: the default replaces an absent field and null. */
  function OrElse(v: Option<Json>, d: Json): (r: Json)
    ensures v.None? || v == Some(JNull) ==> r == d
    ensures v.Some? && !v.value.JNull? ==> r == v.value
  {
    if v.None? || v.value.JNull? then d else v.value
  }

  /** `String(v ?? d)` for a string default `d`. */
  function StrOr(v: Option<Json>, d: string): (r: string)
    ensures v.None? || v == Some(JNull) ==> r == d
    ensures v.Some? && v.value.JString? ==> r == v.value.s
  {
    ToStr(OrElse(v, JString(d)))
  }
}
