/** Small value types shared by the whole model: optional values, results of
    fallible operations, bytes, and the bounds of Swift's 64-bit `Int`. */
module Types {

  /** Swift's `Optional`. */
  datatype Option<+T> = None | Some(value: T) {
    /** `x ?? default` */
    function GetOr(default: T): T {
      match this
      case Some(v) => v
      case None => default
    }
  }

  /** Swift's `Result`, also used for a `throws` function: `Failure(e)` is a thrown `e`. */
  datatype Result<+T, +E> = Success(value: T) | Failure(error: E)

  /** An unsigned byte (`UInt8`). */
  type Byte = b: int | 0 <= b < 256

  /** Raw bytes (`Data`). */
  type Bytes = seq<Byte>

  const IntMin: int := -0x8000_0000_0000_0000
  const IntMax: int := 0x7FFF_FFFF_FFFF_FFFF

  /** Swift's `Int` on a 64-bit platform. */
  type Int64 = x: int | IntMin <= x <= IntMax
}
