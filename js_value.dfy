/** The conventional Some/None wrapper, used for values that may be absent. */
module Wrappers {
  datatype Option<+T> = None | Some(value: T)
}

/**
 * The JavaScript values the dispatcher handles: request ids and params,
 * handler results, the properties of a caught error, and the response
 * objects it pushes.
 */
module JsValue {

  /** A JavaScript value, restricted to what JSON-like payloads carry plus
      `undefined` and BigInt. Numbers are integers here (see README). */
  datatype Value =
    | Undefined
    | Null
    | Bool(b: bool)
    | Num(n: int)
    | BigInt(big: int)
    | Str(s: string)
    | Arr(items: seq<Value>)
    | Obj(fields: map<string, Value>)

  /** JavaScript truthiness, as used by `!` and `||`. */
  predicate Truthy(v: Value)
  {
    match v
    case Undefined => false
    case Null => false
    case Bool(b) => b
    case Num(n) => n != 0
    case BigInt(n) => n != 0
    case Str(s) => s != ""
    case Arr(_) => true
    case Obj(_) => true
  }

  /**
   * A caught JavaScript value, seen through the two things the dispatcher
   * reads from it: `message` is `error?.message` (Undefined when the value
   * is null, undefined, or has no such property) and `text` is
   * `String(error)`, whose computation (a possibly user-defined
   * `toString`) is outside the model.
   */
  datatype Thrown = Thrown(message: Value, text: string)

  /** `new Error(m)`: its message is `m`, and `String` of it is "Error: m". */
  function ErrorObject(m: string): (t: Thrown)
    requires m != ""
    ensures Truthy(t.message) && t.message == Str(m)
  {
    Thrown(Str(m), "Error: " + m)
  }

  /**
   * The text the dispatcher reports for a caught value,
   * `error?.message || String(error)`: the message when it is truthy,
   * otherwise the string conversion of the value.
   */
  function ErrorText(t: Thrown): (v: Value)
    ensures Truthy(t.message) ==> v == t.message
    ensures !Truthy(t.message) ==> v == Str(t.text)
  {
    if Truthy(t.message) then t.message else Str(t.text)
  }
}
