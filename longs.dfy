/** Kotlin `Long` arithmetic: 64-bit two's complement. */
module Longs {

  const LONG_MIN: int := -0x8000_0000_0000_0000
  const LONG_MAX: int := 0x7FFF_FFFF_FFFF_FFFF
  const TWO_TO_64: int := 0x1_0000_0000_0000_0000

  predicate InLongRange(x: int) {
    LONG_MIN <= x <= LONG_MAX
  }

  /** `Double.toLong()` on an integral value: values beyond the range saturate. */
  function SaturateToLong(x: int): (r: int)
    ensures InLongRange(r)
    ensures InLongRange(x) ==> r == x
    ensures x < LONG_MIN ==> r == LONG_MIN
    ensures x > LONG_MAX ==> r == LONG_MAX
  {
    if x < LONG_MIN then LONG_MIN else if x > LONG_MAX then LONG_MAX else x
  }

  /** The `Long` that an unbounded result wraps around to. */
  function WrapLong(x: int): (r: int)
    ensures InLongRange(r)
    ensures (r - x) % TWO_TO_64 == 0
    ensures InLongRange(x) ==> r == x
  {
    (x - LONG_MIN) % TWO_TO_64 + LONG_MIN
  }
}
