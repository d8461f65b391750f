/** Failure-compatible helper datatypes shared by every module of the model.
    `Option` stands for a TypeScript value that may be `undefined`;
    `Result` stands for the outcome of a schema `safeParse` call. */
module Wrappers {

  /** `None` is TypeScript's `undefined` (or a nullable column holding `null`). */
  datatype Option<+T> = None | Some(value: T) {

    /** JavaScript `x ?? default` / `x || default` on a value that is not falsy when present. */
    function GetOr(default: T): T {
      match this
      case Some(v) => v
      case None => default
    }
  }

  /** The outcome of validating a request body: the parsed payload or the error message. */
  datatype Result<+T, +E> = Success(value: T) | Failure(error: E)
}
