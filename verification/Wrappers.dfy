/** Option, result and byte strings, shared by all pallets. */
module Wrappers {
  type Byte = b: nat | b < 256
  type Bytes = seq<Byte>

  datatype Option<+T> = None | Some(value: T) {
    function GetOr(default: T): T {
      match this
      case Some(v) => v
      case None => default
    }
  }

  datatype Result<+T, +E> = Ok(value: T) | Err(error: E)

  /** The value of a dispatch that returns nothing. */
  datatype Done = Done
}
