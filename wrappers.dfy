/** Option and Result values for the model's "None" and exception paths. */
module Wrappers {

  /** Python's `None` or a present value. */
  datatype Option<+T> = None | Some(value: T) {
    function GetOr(default: T): T {
      match this
      case Some(v) => v
      case None => default
    }
  }

  /** A successful value or the exception an operation raises. */
  datatype Result<+T, +E> = Ok(value: T) | Err(error: E)
}
