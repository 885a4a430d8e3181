/** Small shared vocabulary: optional values and the byte type. */
module Common {

  /** A value that may be absent (Python's `None`, a missing key, a raised exception). */
  datatype Option<T> = None | Some(value: T)

  /** An octet, as held by Python `bytes` and `bytearray`. */
  type byte = x: int | 0 <= x < 256

  function Min(a: int, b: int): int { if a <= b then a else b }

  function Max(a: int, b: int): int { if a >= b then a else b }
}
