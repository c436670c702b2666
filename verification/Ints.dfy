/** Go's fixed-width integers as ranges of int, with wrap-around and conversions written out. */
module Ints {
  const MIN32: int := -2147483648
  const MAX32: int := 2147483647
  const MIN64: int := -9223372036854775808
  const MAX64: int := 9223372036854775807

  predicate Is32(x: int) {
    MIN32 <= x <= MAX32
  }

  /** What an int32 operation leaves of its exact result. */
  function Wrap32(x: int): (r: int)
    ensures Is32(r)
    ensures Is32(x) ==> r == x
  {
    (x - MIN32) % 4294967296 + MIN32
  }

  /** uint32(x). */
  function Unsigned32(x: int): (r: nat)
    ensures r < 4294967296
  {
    x % 4294967296
  }
}
