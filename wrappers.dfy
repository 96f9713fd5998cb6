/** Option and Result types shared by the modules of the routing model. */
module Wrappers {

  /** An optional value: `None` where the engine's Python code has no value (a missing key, no route). */
  datatype Option<+T> = None | Some(value: T)

  /** The result of an operation that the engine's Python code lets fail with an exception. */
  datatype Result<+T, +E> = Success(value: T) | Failure(error: E)
}
