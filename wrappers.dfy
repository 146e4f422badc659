/** Optional values, used wherever the Python code returns `None` or a
    value, or reads a key that may be missing; and results, used wherever
    it raises an exception that the caller sees. */
module Wrappers {

  datatype Option<+T> = None | Some(value: T) {

    function GetOr(default: T): T {
      match this
      case Some(v) => v
      case None => default
    }
  }

  datatype Result<+T, +E> = Ok(value: T) | Err(error: E)
}
