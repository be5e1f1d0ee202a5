/** Option and Result datatypes shared by the modules of the oEmbed model. */
module Wrappers {

  /** A value that may be absent (Go's nil pointer, -1 index, or an absent JSON key). */
  datatype Option<+T> = None | Some(value: T) {
    function GetOr(default: T): T {
      match this
      case Some(v) => v
      case None => default
    }
  }

  /** A value or the error that prevented computing it. */
  datatype Result<+T, +E> = Ok(value: T) | Err(error: E)
}
