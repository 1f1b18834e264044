/**
 Values the mock server stores and answers with: decoded JSON, and the
 Option type used for results that JavaScript signals with NaN or undefined.
 */
module Json {

  datatype Option<+T> = None | Some(value: T)

  datatype Result<+T, +E> = Success(value: T) | Failure(error: E)

  /** A decoded JSON value. Every JSON number is a JavaScript double; `JNum`
      holds its value, so `a === b` on two numbers is equality of `JNum`s. */
  datatype Json =
    | JNull
    | JBool(b: bool)
    | JNum(n: real)
    | JStr(s: string)
    | JArr(elems: seq<Json>)
    | JObj(fields: map<string, Json>)

  /** The own enumerable fields of a JavaScript object, as a spread `{...o}`
      copies them (key order is not modelled). */
  type Fields = map<string, Json>

  /** A stored record: the fields of an object, one of which is normally
      `id`. */
  type Item = Fields
}
