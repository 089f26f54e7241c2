/** Java's 32-bit `int`: its range, the two's-complement wrap-around of an
    `int` arithmetic result, and the saturating narrowing that an `(int)`
    cast applies to a `double`. */
module Int32 {

  const MIN: int := -0x8000_0000
  const MAX: int := 0x7fff_ffff
  const MODULUS: int := 0x1_0000_0000

  type int32 = x: int | -0x8000_0000 <= x <= 0x7fff_ffff

  predicate InRange(x: int) {
    MIN <= x <= MAX
  }

  /** The value Java's `int` arithmetic yields when the exact result is `x`. */
  function Wrap(x: int): (r: int32)
    ensures InRange(x) ==> r == x
    ensures MAX < x <= MAX + MODULUS ==> r == x - MODULUS
    ensures MIN - MODULUS <= x < MIN ==> r == x + MODULUS
    ensures (x - r) % MODULUS == 0
  {
    (x + 0x8000_0000) % MODULUS - 0x8000_0000
  }

  /** The `(int)` conversion of a number that is already whole: values beyond
      the range stick to the nearest bound. */
  function Saturate(x: int): (r: int32)
    ensures InRange(x) ==> r == x
    ensures x > MAX ==> r == MAX
    ensures x < MIN ==> r == MIN
  {
    if x > MAX then MAX else if x < MIN then MIN else x
  }
}
