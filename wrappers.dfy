/** Wrappers shared by the modules of the weather app model. */
module Wrappers {

  /** A value that may be absent (`undefined` / `null` in the application). */
  datatype Option<+T> = None | Some(value: T)

  /** The outcome of an operation that can fail with an error value. */
  datatype Result<+R, +E> = Success(value: R) | Failure(error: E)

  /** The value of an optional argument, or its default when it is omitted. */
  function OrDefault<T>(o: Option<T>, default: T): T
  {
    match o
    case Some(v) => v
    case None => default
  }

  function Min(a: int, b: int): int
  {
    if a <= b then a else b
  }
}
