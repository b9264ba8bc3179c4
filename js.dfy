/**
 * The slice of JavaScript value semantics the application's unwrapping code relies on:
 * parsed JSON values, truthiness, `a || b`, property reads (which throw on `null` and
 * `undefined`) and thrown errors.
 */
module Js {

  datatype JsValue =
    | Undefined
    | Null
    | Bool(b: bool)
    | Num(n: real)
    | Str(s: string)
    | Arr(items: seq<JsValue>)
    | Obj(fields: map<string, JsValue>)

  /** JavaScript truthiness (NaN is not represented). */
  predicate Truthy(v: JsValue) {
    match v
    case Undefined => false
    case Null => false
    case Bool(b) => b
    case Num(n) => n != 0.0
    case Str(s) => s != ""
    case Arr(_) => true
    case Obj(_) => true
  }

  /** `a || b`. */
  function Or(a: JsValue, b: JsValue): (r: JsValue)
    ensures Truthy(a) ==> r == a
    ensures !Truthy(a) ==> r == b
  {
    if Truthy(a) then a else b
  }

  datatype JsError =
    | Error(message: string)
    | TypeError
    | SyntaxError

  /** How an expression or an async step completes: with a value or by throwing. */
  datatype Completion<T> = Normal(value: T) | Thrown(error: JsError)

  /**
   * `v.key` for one of the application's own field names (`data`, `message`, ...):
   * throws on `null`/`undefined`, reads an object's own field, and is `undefined`
   * on every other value.
   */
  function Prop(v: JsValue, key: string): (r: Completion<JsValue>)
    ensures r.Thrown? <==> (v.Undefined? || v.Null?)
    ensures r.Thrown? ==> r.error == TypeError
    ensures v.Obj? && key in v.fields ==> r == Normal(v.fields[key])
    ensures v.Obj? && key !in v.fields ==> r == Normal(Undefined)
    ensures !v.Obj? && !v.Undefined? && !v.Null? ==> r == Normal(Undefined)
  {
    match v
    case Undefined => Thrown(TypeError)
    case Null => Thrown(TypeError)
    case Obj(fields) => Normal(if key in fields then fields[key] else Undefined)
    case _ => Normal(Undefined)
  }

  /** `v` is an object whose `data` field is truthy. */
  predicate HasTruthyData(v: JsValue) {
    v.Obj? && "data" in v.fields && Truthy(v.fields["data"])
  }

  /** `response.data || response`, the unwrapping used for every API payload. */
  function DataOrSelf(response: JsValue): (r: Completion<JsValue>)
    ensures r.Thrown? <==> (response.Undefined? || response.Null?)
    ensures r.Normal? && HasTruthyData(response) ==> r.value == response.fields["data"]
    ensures r.Normal? && !HasTruthyData(response) ==> r.value == response
  {
    match Prop(response, "data")
    case Thrown(e) => Thrown(e)
    case Normal(d) => Normal(Or(d, response))
  }
}
