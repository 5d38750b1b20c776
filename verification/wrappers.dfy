/** Failure-carrying wrapper types shared by every module of the model:
    `Option` stands for Rust's `Option<T>`, `Result` for `Result<T, E>`. */
module Wrappers {

  datatype Option<+T> = None | Some(value: T) {

    /** Returns the value held in `Some`, or `default` for `None`
        (Rust's `unwrap_or`). */
    function GetOr(default: T): T {
      match this
      case Some(v) => v
      case None => default
    }
  }

  datatype Result<+T, +E> = Ok(value: T) | Err(error: E)
}
