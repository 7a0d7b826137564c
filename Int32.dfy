/** Java's `int`: 32-bit two's complement integers and the wrapping subtraction
    the JVM performs on them. */
module Int32 {

  const MIN: int := -0x8000_0000
  const MAX: int := 0x7FFF_FFFF
  const MODULUS: int := 0x1_0000_0000

  newtype int32 = x: int | MIN <= x <= MAX

  predicate InRange(x: int) {
    MIN <= x <= MAX
  }

  /** `a - b` as the JVM computes it: the mathematical difference reduced
      modulo 2^32 into the signed range. */
  function Sub(a: int32, b: int32): (r: int32)
    ensures InRange(a as int - b as int) ==> r as int == a as int - b as int
    ensures (r as int - (a as int - b as int)) % MODULUS == 0
  {
    var d := a as int - b as int;
    if d > MAX then (d - MODULUS) as int32
    else if d < MIN then (d + MODULUS) as int32
    else d as int32
  }

  /** The subtraction overflows exactly when the mathematical difference leaves
      the 32-bit range, and then the result has the opposite sign of the true one. */
  lemma SubOverflowFlipsSign(a: int32, b: int32)
    requires !InRange(a as int - b as int)
    ensures a as int - b as int > MAX ==> Sub(a, b) < 0
    ensures a as int - b as int < MIN ==> Sub(a, b) >= 0
  {
  }

}
