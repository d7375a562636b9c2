/** Shared value types: Rust's `Option`/`Result` and the fixed-width
    unsigned integer the client uses. */
module Basics {

  datatype Option<+T> = None | Some(value: T) {
    /** `Option::unwrap_or` */
    function GetOr(default: T): T {
      match this
      case Some(v) => v
      case None => default
    }

    /** `Option::or` */
    function Or(other: Option<T>): Option<T> {
      if this.Some? then this else other
    }
  }

  datatype Result<+T, +E> = Ok(value: T) | Err(error: E)

  newtype u16 = x: int | 0 <= x < 0x1_0000

  /** Largest value of Rust's `u32`. */
  const U32Max: nat := 0xFFFF_FFFF
}
