/** Datatypes and machine-integer arithmetic the other modules share. */
module Prelude {
  datatype Option<+T> = None | Some(value: T)

  const MAX_INT64: int := 0x7FFF_FFFF_FFFF_FFFF
  const TWO64: int := 0x1_0000_0000_0000_0000

  /** The signed 64-bit integer with the same bits as `x` modulo 2^64. */
  function Int64(x: int): (r: int)
    ensures -MAX_INT64 - 1 <= r <= MAX_INT64
  {
    var low := x % TWO64;
    if low <= MAX_INT64 then low else low - TWO64
  }

  /** Division that truncates towards zero. */
  function Quotient(a: int, b: int): int
    requires b > 0
  {
    if a >= 0 then a / b else -(-a / b)
  }
}
