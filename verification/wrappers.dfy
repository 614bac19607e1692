/** Option and Result, the model's stand-ins for JavaScript's `null` and for
    the error paths the components take instead of submitting. */
module Wrappers {

  /** `None` models `null`/`undefined`; `Some(v)` a present value. */
  datatype Option<+T> = None | Some(value: T) {

    /** Returns the wrapped value, or `default` when there is none. */
    function GetOr(default: T): T
    {
      match this
      case Some(v) => v
      case None => default
    }
  }

  /** The outcome of a validation: a value to submit, or an error message. */
  datatype Result<+R, +E> = Success(value: R) | Failure(error: E)
}
