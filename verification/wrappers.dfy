/** Optional values and results with an error payload, used across the model. */
module Wrappers {

  /** An optional value; `None` stands for JavaScript's `undefined`/`null` where the source tests for it. */
  datatype Option<+T> = None | Some(value: T) {

    /** Returns the value in `Some`, or `default` when there is none (the `x || default` idiom). */
    function GetOr(default: T): T {
      match this
      case Some(v) => v
      case None => default
    }
  }

  /** The outcome of an operation that may fail with an error value. */
  datatype Result<+T, +E> = Ok(value: T) | Err(error: E)
}
