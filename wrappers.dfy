/** Small datatypes shared by the model's modules. */
module Wrappers {

  /** A value that may be absent (a nullable column, an optional query parameter). */
  datatype Option<+T> = None | Some(value: T)

  /** The outcome of a request handler: a value, or the error it reports. */
  datatype Result<+T, +E> = Success(value: T) | Failure(error: E)

  /** A field of a partial update: left out of the request, or supplied with a value. */
  datatype Patch<+T> = Unset | Set(value: T)

  function Max(a: int, b: int): (m: int)
    ensures m >= a && m >= b && (m == a || m == b)
  {
    if a >= b then a else b
  }

  function Min(a: int, b: int): (m: int)
    ensures m <= a && m <= b && (m == a || m == b)
  {
    if a <= b then a else b
  }
}
