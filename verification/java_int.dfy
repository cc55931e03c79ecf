/**
 * Java's 32-bit `int`: the board dimensions and the body coordinates are read
 * into `int` variables, and the neighbour coordinates are computed with `int`
 * addition and subtraction, which wrap around in two's complement.
 */
module JavaInt {

  const TWO_32: int := 0x1_0000_0000
  const MIN: int := -0x8000_0000
  const MAX: int := 0x7fff_ffff

  /** The values a Java `int` can hold. */
  type Int32 = x: int | MIN <= x <= MAX

  /** Reduces a mathematical integer to the Java `int` with the same low 32 bits. */
  function Wrap(v: int): (r: Int32)
    ensures MIN <= v <= MAX ==> r == v
    ensures (v - r) % TWO_32 == 0
  {
    var m := (v - MIN) % TWO_32;
    m + MIN
  }

  /** Java `a + b` on two `int` operands. */
  function Add(a: Int32, b: Int32): (r: Int32)
    ensures MIN <= a + b <= MAX ==> r == a + b
    ensures a + b > MAX ==> r == a + b - TWO_32
    ensures a + b < MIN ==> r == a + b + TWO_32
  {
    Wrap(a + b)
  }
}
