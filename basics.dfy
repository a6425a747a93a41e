/** Values shared by every route: optional values, the JSON values a request
    body can carry, and the reply a handler sends (a status code with either a
    payload or an error message). */
module Basics {

  datatype Option<T> = None | Some(value: T)

  /** A JSON value as Express's body parser hands it to a handler. `Undefined`
      is a key that is absent from the body. NaN cannot occur in JSON, and
      arrays and objects are grouped as `Composite` (always truthy). */
  datatype JsValue = Undefined | Null | Bool(b: bool) | Num(n: real) | Str(s: string) | Composite

  /** JavaScript truthiness of a JSON value (`!v` in the handlers). */
  predicate Falsy(v: JsValue)
  {
    v.Undefined? || v.Null? || v == Bool(false) || v == Num(0.0) || v == Str("")
  }

  /** `typeof v !== 'number' || v <= 0`. */
  predicate NotPositiveNumber(v: JsValue)
  {
    !(v.Num? && v.n > 0.0)
  }

  /** A body field that the handlers use as text or as an id: absent, JSON
      null, or a string. */
  datatype Field = Absent | Null | Given(s: string)

  predicate FieldFalsy(f: Field)
  {
    f.Absent? || f.Null? || f == Given("")
  }

  /** `field || null`: a falsy field is stored as SQL NULL. */
  function OrNull(f: Field): (r: Option<string>)
    ensures r.None? <==> FieldFalsy(f)
    ensures r.Some? ==> f == Given(r.value) && r.value != ""
  {
    if FieldFalsy(f) then None else Some(f.s)
  }

  /** What a handler sends back: a status code with a JSON payload, or an
      error status with the `{ error: message }` body. */
  datatype Reply<T> = Ok(status: nat, payload: T) | Fail(status: nat, message: string)

  /** The `{ success: true }` payload. */
  datatype Done = Success

  const InternalError := "Internal server error"

  /** Every database error is caught by the handler's try/catch. */
  function ServerError<T>(): (r: Reply<T>)
    ensures r.Fail? && r.status == 500
  {
    Fail(500, InternalError)
  }
}
