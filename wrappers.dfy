/** Option and Result, the two failure-carrying shapes the rest of the model uses:
    Python's `None` and a raised exception become `None` and `Err`. */
module Wrappers {

  datatype Option<+T> = None | Some(value: T) {
    function GetOr(default: T): T {
      match this
      case Some(v) => v
      case None => default
    }
  }

  datatype Result<+T, +E> = Ok(value: T) | Err(error: E)
}
