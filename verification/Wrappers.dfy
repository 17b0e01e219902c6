/** Option and Result, the carriers of absence and of error answers, and bytes. */
module Wrappers {

  type byte = n: int | 0 <= n < 256

  datatype Option<+T> = None | Some(value: T) {

    /** The value, or `default` when there is none. */
    function GetOr(default: T): (r: T) {
      match this
      case Some(v) => v
      case None => default
    }
  }

  datatype Result<+T, +E> = Ok(value: T) | Err(error: E)
}
