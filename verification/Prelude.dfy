/** Types shared by every part of the model. */
module Prelude {
  type byte = x: int | 0 <= x < 256

  type bytes = seq<byte>

  datatype Option<+T> = None | Some(value: T)

  const INT32_MIN: int := -0x8000_0000
  const INT32_MAX: int := 0x7fff_ffff

  predicate IsInt32(v: int) {
    INT32_MIN <= v <= INT32_MAX
  }

  /** Byte length of an encodable string or array: .NET lengths are non-negative Int32 values. */
  predicate IsLength(n: int) {
    0 <= n <= INT32_MAX
  }

  /** A connection id. */
  type Guid = g: bytes | |g| == 16 witness seq(16, i => 0)
}
