/** Option and Result, the shapes used for Python's `None` and for exceptions. */
module Wrappers {

  datatype Option<T> = None | Some(value: T) {
    /** `x or default` / `d.get(k, default)` for a value that may be absent. */
    function GetOr(default: T): T {
      match this
      case Some(v) => v
      case None => default
    }
  }

  /** `Err` stands for an exception that the source lets propagate. */
  datatype Result<T, E> = Ok(value: T) | Err(error: E)
}
