/**
 * The few JavaScript value notions the application's logic depends on:
 * optional values, the two "absent" values that `??` replaces, and the
 * truthiness that `!!` and `||` test.
 */
module JsValues {

  datatype Option<+T> = None | Some(value: T)

  /** An optional attribute as JavaScript can pass it: left out, explicitly `null`, or present. */
  datatype Nullish<+T> = Undefined | Null | Present(value: T)

  /** `x ?? d`: only `undefined` and `null` are replaced; every present value is kept. */
  function Coalesce<T>(x: Nullish<T>, d: T): (r: T)
    ensures x.Present? ==> r == x.value
    ensures !x.Present? ==> r == d
  {
    match x
    case Present(v) => v
    case _ => d
  }

  /**
   * A dynamically typed value as it reaches a form descriptor or a control.
   * Numbers are modelled as integers (NaN and fractions are not modelled);
   * objects and arrays are not modelled.
   */
  datatype JsValue = JsUndefined | JsNull | JsBool(b: bool) | JsNum(n: int) | JsStr(s: string)

  /** JavaScript truthiness: `undefined`, `null`, `false`, `0` and `''` are falsy, everything else truthy. */
  predicate Truthy(v: JsValue)
    ensures Truthy(v) <==> v !in {JsUndefined, JsNull, JsBool(false), JsNum(0), JsStr("")}
  {
    match v
    case JsUndefined => false
    case JsNull => false
    case JsBool(b) => b
    case JsNum(n) => n != 0
    case JsStr(s) => s != ""
  }

  /** `x || d`: the value itself when truthy, otherwise the fallback. */
  function OrElse(x: JsValue, d: JsValue): (r: JsValue)
    ensures Truthy(x) ==> r == x
    ensures !Truthy(x) ==> r == d
  {
    if Truthy(x) then x else d
  }

  /** What a subscriber to an HTTP GET receives: the response body, or an error. */
  datatype Fetch<+T> = Fetched(data: T) | FetchFailed
}
