/** The 64-bit two's complement integers behind every BIGINT column and Go int64. */
module Int64 {
  const MODULUS: int := 0x1_0000_0000_0000_0000
  const MIN: int := -0x8000_0000_0000_0000
  const MAX: int := 0x7fff_ffff_ffff_ffff

  predicate Fits(x: int) {
    MIN <= x <= MAX
  }

  type int64 = x: int | MIN <= x <= MAX

  /** What a Go int64 register holds after an operation whose exact value is x. */
  function Wrap(x: int): (r: int64)
    ensures (r - x) % MODULUS == 0
    ensures Fits(x) ==> r == x
  {
    (x - MIN) % MODULUS + MIN
  }
}
