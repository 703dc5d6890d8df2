/** Option and Result, the two failure-carrying datatypes the rest of the model uses. */
module Wrappers {

  /** A value that may be absent: `None` stands for JavaScript's `null`/`undefined` and Python's `None`. */
  datatype Option<+T> = None | Some(value: T) {

    /** The value, or `default` when there is none (Python's `dict.get(key, default)`). */
    function GetOr(default: T): T {
      match this
      case Some(v) => v
      case None => default
    }
  }

  /** The outcome of an operation that can fail with an error value. */
  datatype Result<+T, +E> = Ok(value: T) | Err(error: E)
}
