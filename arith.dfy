/** Integer facts shared by the register conversions: powers of two, C's
    truncating division, ceiling division, and the uniqueness and
    cancellation laws of Dafny's (Euclidean) division. */
module Arith {

  /** 2^n. */
  function Pow2(n: nat): (r: nat)
    ensures r >= 1
  {
    if n == 0 then 1 else 2 * Pow2(n - 1)
  }

  /** The powers of two the register formulas use. */
  lemma Pow2Values()
    ensures Pow2(5) == 32 && Pow2(8) == 256 && Pow2(9) == 512
    ensures Pow2(16) == 0x1_0000 && Pow2(19) == 0x8_0000 && Pow2(20) == 0x10_0000
    ensures Pow2(24) == 0x100_0000
  {
  }

  /** A product of two non-negative factors is monotone in each of them. */
  lemma MulMono(a: int, b: int, k: int)
    requires a <= b && 0 <= k
    ensures a * k <= b * k
  {
  }

  /** Division by a positive divisor has exactly one quotient: the q with
      q * b <= a < (q + 1) * b. */
  lemma DivUnique(a: int, b: int, q: int)
    requires b > 0
    requires q * b <= a < (q + 1) * b
    ensures a / b == q
  {
    var q0 := a / b;
    assert a == q0 * b + a % b && 0 <= a % b < b;
    if q0 < q {
      assert (q0 + 1) * b == q0 * b + b;
      MulMono(q0 + 1, q, b);
    } else if q < q0 {
      assert (q + 1) * b == q * b + b;
      MulMono(q + 1, q0, b);
    }
  }

  /** Floor of a / b, as a pair of bounds. */
  lemma DivBounds(a: int, b: int)
    requires b > 0
    ensures (a / b) * b <= a < (a / b + 1) * b
  {
  }

  /** A common positive factor of numerator and denominator cancels. */
  lemma {:induction false} DivCancel(a: nat, b: nat, k: nat)
    requires b > 0 && k > 0
    ensures (a * k) / (b * k) == a / b
  {
    var q := a / b;
    DivBounds(a, b);
    assert q * b <= a < (q + 1) * b;
    var qb := q * b;
    MulMono(qb, a, k);
    assert (q * b) * k <= a * k;
    assert (q * b) * k == q * (b * k);
    assert a * k < ((q + 1) * b) * k by {
      var hi := (q + 1) * b;
      assert a + 1 <= hi;
      MulMono(a + 1, hi, k);
      assert a * k + k <= hi * k;
    }
    assert ((q + 1) * b) * k == (q + 1) * (b * k);
    DivUnique(a * k, b * k, q);
  }

  /** Floor division by a positive divisor is monotone in the dividend. */
  lemma DivMono(a1: int, a2: int, b: int)
    requires b > 0 && a1 <= a2
    ensures a1 / b <= a2 / b
  {
    DivBounds(a1, b);
    DivBounds(a2, b);
    if a2 / b < a1 / b {
      MulMono(a2 / b + 1, a1 / b, b);
    }
  }

  /** A common divisor of x and y divides every combination x * a - y * b. */
  lemma CommonDivisorDividesCombination(x: int, y: int, a: int, b: int, d: int)
    requires d > 0
    ensures x % d == 0 && y % d == 0 ==> (x * a - y * b) % d == 0
  {
    if x % d == 0 && y % d == 0 {
      var p, q := x / d, y / d;
      assert x == p * d && y == q * d;
      var k := p * a - q * b;
      assert x * a - y * b == k * d;
      DivUnique(k * d, d, k);
    }
  }

  /** x and y share no divisor above 1 when some combination x * a - y * b
      is 1 (Bezout's identity). */
  lemma BezoutCoprime(x: int, y: int, a: int, b: int)
    requires x * a - y * b == 1
    ensures forall d: int :: 1 < d && x % d == 0 ==> y % d != 0
  {
    forall d: int | 1 < d && x % d == 0
      ensures y % d != 0
    {
      CommonDivisorDividesCombination(x, y, a, b, d);
      DivUnique(1, d, 0);
    }
  }

  /** Bounds on the negated floor of -a / b, the C quotient of a negative a. */
  lemma NegatedDivBounds(a: int, b: int)
    requires b > 0 && a < 0
    ensures var q := -((-a) / b); (q - 1) * b < a <= q * b
  {
    var p := (-a) / b;
    DivBounds(-a, b);
    assert (-p - 1) * b == -((p + 1) * b);
    assert (-p) * b == -(p * b);
  }

  /** Integer division as C defines it: the quotient is truncated toward
      zero, so a negative dividend rounds up rather than down. */
  function TruncDiv(a: int, b: int): (q: int)
    requires b > 0
    ensures 0 <= a ==> 0 <= q && q * b <= a < (q + 1) * b
    ensures a < 0 ==> q <= 0 && (q - 1) * b < a <= q * b
  {
    if a >= 0 then
      DivBounds(a, b);
      a / b
    else
      NegatedDivBounds(a, b);
      -((-a) / b)
  }

  /** The least q with a <= q * b. */
  function CeilDiv(a: nat, b: nat): (q: nat)
    requires b > 0
    ensures a <= q * b
    ensures q == 0 || (q - 1) * b < a
  {
    (a + b - 1) / b
  }
}
