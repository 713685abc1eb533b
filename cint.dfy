/** The C integer semantics the game relies on: 32-bit signed range, the
    unsigned 8-bit conversion, and C's remainder, which truncates toward zero
    (Dafny's `%` is Euclidean). */
module CInt {

  const I32Min: int := -0x8000_0000
  const I32Max: int := 0x7fff_ffff

  predicate IsI32(v: int) {
    I32Min <= v <= I32Max
  }

  /** Conversion to `u8`: C keeps the value modulo 2^8. */
  function U8(v: int): (r: int)
    ensures 0 <= r < 256
    ensures 0 <= v < 256 ==> r == v
    ensures 256 <= v < 512 ==> r == v - 256
    ensures -256 <= v < 0 ==> r == v + 256
    ensures -512 <= v < -256 ==> r == v + 512
  {
    v % 256
  }

  /** C's `a % m` for a positive divisor: the remainder has the sign of `a`,
      agrees with the Euclidean remainder on non-negative operands and is odd
      in `a`. */
  function CRem(a: int, m: int): (r: int)
    requires m > 0
    ensures a >= 0 ==> 0 <= r < m && r == a % m
    ensures a < 0 ==> -m < r <= 0 && -r == (-a) % m
  {
    if a >= 0 then a % m else -((-a) % m)
  }
}
