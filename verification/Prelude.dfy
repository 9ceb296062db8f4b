/** Datatypes shared by every module of the model. */
module Prelude {

  datatype Option<+T> = None | Some(value: T) {
    function GetOr(default: T): T {
      match this
      case Some(v) => v
      case None => default
    }
  }

  /** A repository call either commits and returns a value, or raises and rolls back. */
  datatype Result<+T, +E> = Ok(value: T) | Err(error: E)

  /** Microseconds since the epoch. */
  type Time = int

  type byte = b: int | 0 <= b < 256
  type bytes = seq<byte>

  function Max(x: int, y: int): int { if x < y then y else x }

  function Min(x: int, y: int): int { if x < y then x else y }
}
