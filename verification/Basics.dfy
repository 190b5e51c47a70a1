/** Values shared by the models of the access package, its stores and the legacy service. */
module Basics {

  datatype Option<+T> = None | Some(value: T)

  /** `Number.MAX_SAFE_INTEGER`, the largest integer a JavaScript number holds exactly. */
  const MAX_SAFE_INTEGER: int := 9007199254740991

  predicate SafeInteger(n: int) {
    -MAX_SAFE_INTEGER <= n <= MAX_SAFE_INTEGER
  }

  /** An untrusted JavaScript value, as far as the checks of the access package can tell values apart.
      `Opaque` stands for everything that is never accepted: functions, symbols, nested objects, arrays. */
  datatype JsValue =
    | Undefined
    | JsNull
    | Bool(b: bool)
    | Integer(i: int)
    | OtherNumber
    | Text(s: string)
    | Opaque

  /** The own properties of an object. */
  type JsRecord = map<string, JsValue>

  /** A value at a position where the code asks "is this a non-array object?". */
  datatype JsThing = Object(fields: JsRecord) | NotAnObject

  /** Reading a property: a missing one yields `undefined`. */
  function Get(fields: JsRecord, key: string): JsValue {
    if key in fields then fields[key] else Undefined
  }

  predicate IsNonEmptyText(v: JsValue) {
    v.Text? && v.s != ""
  }

  predicate IsSafeInteger(v: JsValue) {
    v.Integer? && SafeInteger(v.i)
  }
}
