// The result types the other modules share.
module Wrappers {
  datatype Option<+T> = None | Some(value: T) {
    // Rust's `unwrap_or`.
    function GetOr(default: T): T {
      match this
      case None => default
      case Some(v) => v
    }
  }

  datatype Result<+T, +E> = Ok(value: T) | Err(error: E)
}
