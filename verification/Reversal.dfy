/** The proportional claw-back target, computed in 128-bit machine arithmetic. */
module Reversal {
  import opened Int64
  import opened Results

  type uint64 = x: int | 0 <= x < MODULUS

  /** bits.Mul64: the full product of two words as a high and a low word. */
  function Mul64(x: uint64, y: uint64): (p: (uint64, uint64))
    ensures p.0 * MODULUS + p.1 == x * y
  {
    ProductBelowSquare(x, y);
    ((x * y) / MODULUS, (x * y) % MODULUS)
  }

  /** bits.Div64 divides hi·2^64 + lo by y; it panics unless y is above the high word. */
  function Div64(hi: uint64, lo: uint64, y: uint64): (q: uint64)
    requires y > hi
    ensures q * y <= hi * MODULUS + lo < (q + 1) * y
  {
    var n := hi * MODULUS + lo;
    QuotientFitsWord(hi, lo, y);
    n / y
  }

  /** Multiplication by a positive number reflects strict order. */
  lemma CancelLess(a: int, b: int, y: int)
    requires y > 0 && a * y < b * y
    ensures a < b
  {
    assert (b - a) * y == b * y - a * y;
  }

  lemma MultiplyOrdered(a: int, b: int, y: int)
    requires y >= 0 && a <= b
    ensures a * y <= b * y
  {
  }

  lemma ProductBelowSquare(x: uint64, y: uint64)
    ensures 0 <= x * y
    ensures (x * y) / MODULUS < MODULUS
  {
    MultiplyOrdered(x, MODULUS, y);
    FloorBounds(x * y, MODULUS);
    CancelLess((x * y) / MODULUS, MODULUS, MODULUS);
  }

  lemma QuotientFitsWord(hi: uint64, lo: uint64, y: uint64)
    requires y > hi
    ensures var n := hi * MODULUS + lo;
            && 0 <= n / y < MODULUS
            && (n / y) * y <= n < (n / y + 1) * y
  {
    var n := hi * MODULUS + lo;
    FloorBounds(n, y);
    MultiplyOrdered(hi + 1, y, MODULUS);
    CancelLess(n / y, MODULUS, y);
  }

  lemma FloorBounds(n: nat, y: int)
    requires y > 0
    ensures 0 <= n / y
    ensures (n / y) * y <= n < (n / y + 1) * y
  {
    assert n == y * (n / y) + n % y;
  }

  /** A floor is pinned down by its two bounds. */
  lemma FloorUnique(n: nat, y: int, q: int)
    requires y > 0 && q * y <= n < (q + 1) * y
    ensures n / y == q
  {
    FloorBounds(n, y);
    CancelLess(n / y, q + 1, y);
    CancelLess(q, n / y + 1, y);
  }

  /** The high word of C·R is below P, because R < P and C fits 63 bits. */
  lemma HighWordBelowDivisor(credits: int64, refunded: int64, paid: int64)
    requires credits > 0 && 0 <= refunded < paid
    ensures Mul64(credits, refunded).0 < paid
  {
    MultiplyOrdered(refunded, paid, credits);
    MultiplyOrdered(credits, MODULUS - 1, paid);
    CancelLess(Mul64(credits, refunded).0, paid, MODULUS);
  }

  function ReversalTarget(credits: int64, refunded: int64, paid: int64): Result<int64> {
    if paid <= 0 then Err(ReconciliationFailed)
    else if refunded < 0 || refunded > paid then Err(ReconciliationFailed)
    else if credits <= 0 then Err(ReconciliationFailed)
    else if refunded == paid then Ok(credits)
    else
      var (hi, lo) := Mul64(credits, refunded);
      HighWordBelowDivisor(credits, refunded, paid);
      var quo := Div64(hi, lo, paid);
      if quo > MAX then Err(ReconciliationFailed) else Ok(quo)
  }

  /** The exact share of the grant a cumulative refund takes back. */
  function Share(credits: nat, refunded: nat, paid: int): int
    requires paid > 0
  {
    (credits * refunded) / paid
  }

  /**
   The machine computation is the exact floor for every accepted input, refuses exactly the
   inputs outside its domain (the overflow branch is dead), never exceeds the grant and
   reaches it at a full refund.
   */
  lemma TargetIsExactFloor(credits: int64, refunded: int64, paid: int64)
    ensures ReversalTarget(credits, refunded, paid).Ok? <==> (0 < paid && 0 <= refunded <= paid && 0 < credits)
    ensures ReversalTarget(credits, refunded, paid).Ok? ==>
              && ReversalTarget(credits, refunded, paid).value == Share(credits, refunded, paid)
              && 0 <= Share(credits, refunded, paid) <= credits
              && Share(credits, paid, paid) == credits
  {
    if 0 < paid && 0 <= refunded <= paid && 0 < credits {
      ShareBounds(credits, refunded, paid);
      if refunded < paid {
        HighWordBelowDivisor(credits, refunded, paid);
        var (hi, lo) := Mul64(credits, refunded);
        FloorUnique(credits * refunded, paid, Div64(hi, lo, paid));
      }
    }
  }

  lemma ShareBounds(credits: nat, refunded: nat, paid: int)
    requires paid > 0 && refunded <= paid
    ensures 0 <= Share(credits, refunded, paid) <= credits
    ensures Share(credits, paid, paid) == credits
  {
    FloorUnique(credits * paid, paid, credits);
    ShareMonotone(credits, refunded, paid, paid);
    FloorBounds(credits * refunded, paid);
  }

  /** A larger cumulative refund never takes back less. */
  lemma ShareMonotone(credits: nat, less: nat, more: nat, paid: int)
    requires paid > 0 && less <= more
    ensures Share(credits, less, paid) <= Share(credits, more, paid)
  {
    var a, b := credits * less, credits * more;
    MultiplyOrdered(less, more, credits);
    FloorBounds(a, paid);
    FloorBounds(b, paid);
    CancelLess(a / paid, b / paid + 1, paid);
  }
}
