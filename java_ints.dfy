/** Java's fixed-width integer conversions, written out over unbounded integers. */
module JavaInts {

  const TWO_32: int := 0x1_0000_0000
  const INT_MIN: int := -0x8000_0000
  const INT_MAX: int := 0x7FFF_FFFF

  /** The values of a Java `int`. */
  predicate IsInt(x: int) {
    INT_MIN <= x <= INT_MAX
  }

  /**
   * Java's narrowing conversion `(int) x` of a `long` (also `NativeLong.intValue()`):
   * the low 32 bits read as two's complement. The three facts below determine it.
   */
  function ToInt(x: int): (r: int)
    ensures IsInt(r)
    ensures (x - r) % TWO_32 == 0
    ensures IsInt(x) ==> r == x
  {
    var low := (x - INT_MIN) % TWO_32;
    assert x - INT_MIN == TWO_32 * ((x - INT_MIN) / TWO_32) + low;
    low + INT_MIN
  }

  /**
   * `x & (modulus - 1)` for a power-of-two `modulus`, as the widening masks
   * `0xFF`, `0xFFFF` and `0xFFFFFFFFL` compute it on a sign-extended value:
   * the unique value in [0, modulus) congruent to x.
   */
  function Mask(x: int, modulus: int): (r: int)
    requires IsMaskModulus(modulus)
    ensures 0 <= r < modulus
    ensures (x - r) % modulus == 0
    ensures 0 <= x < modulus ==> r == x
    ensures -modulus <= x < 0 ==> r == x + modulus
  {
    x % modulus
  }

  /** The moduli of the masks 0xFF, 0xFFFF and 0xFFFFFFFFL. */
  predicate IsMaskModulus(modulus: int) {
    modulus == 0x100 || modulus == 0x1_0000 || modulus == TWO_32
  }
}
