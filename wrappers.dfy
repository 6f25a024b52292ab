/** Rust's `Option<T>` and `Result<T, E>`, as plain datatypes. */
module Wrappers {

  datatype Option<T> = None | Some(value: T)
  {
    /** The payload when present, otherwise `default` (Rust's `unwrap_or`). */
    function GetOr(default: T): T
    {
      match this
      case Some(v) => v
      case None => default
    }
  }

  datatype Result<T, E> = Success(value: T) | Failure(error: E)
}
