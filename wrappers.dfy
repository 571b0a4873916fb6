/** Option and Result: the shapes used for the Python code's `None` returns and raised exceptions. */
module Wrappers {

  datatype Option<+T> = None | Some(value: T) {
    function GetOr(default: T): T {
      match this
      case Some(v) => v
      case None => default
    }
  }

  /** `Err(msg)` stands for an exception whose `str(e)` is `msg`. */
  datatype Result<+T> = Ok(value: T) | Err(msg: string)
}
