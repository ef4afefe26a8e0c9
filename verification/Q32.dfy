/** 32-bit fixed point on unbounded integers: 1.0 is 2^32, products are floored. */
module Q32 {

  const ONE: int := 0x1_0000_0000

  /** `(a * b) >> 32`, rounding towards minus infinity. */
  function Mul(a: int, b: int): int {
    (a * b) / ONE
  }

  lemma MulBounds(a: int, b: int)
    ensures Mul(a, b) * ONE <= a * b < Mul(a, b) * ONE + ONE
  {
  }

  function Max(a: int, b: int): int { if a < b then b else a }

  function Min(a: int, b: int): int { if b < a then b else a }

  /** `max(lo, min(hi, value))`: when the bounds cross, `lo` wins. */
  function Clamp(value: int, lo: int, hi: int): int { Max(lo, Min(hi, value)) }

  /** `q` is `n / d` rounded towards minus infinity, said without dividing. */
  predicate IsFloor(q: int, n: int, d: int) {
    q * d <= n < q * d + d
  }

  /** A floor determines and is determined by its two inequalities. */
  lemma FloorIff(q: int, n: int, d: int)
    requires d > 0
    ensures IsFloor(q, n, d) <==> q == n / d
  {
    FloorIsGreatest(n, d, q);
    FloorIsGreatest(n, d, q + 1);
    assert (q + 1) * d == q * d + d;
  }

  lemma MulIff(q: int, a: int, b: int)
    ensures IsFloor(q, a * b, ONE) <==> q == Mul(a, b)
  {
    FloorIff(q, a * b, ONE);
  }

  /** Two floored products in a row lose less than two units in the last place. */
  lemma TwoFloors(a: int, b: int, c: int, x: int, y: int)
    requires IsFloor(x, a * b, ONE) && IsFloor(y, x * c, ONE) && 0 <= c <= ONE
    ensures a * b * c - 2 * ONE * ONE < y * ONE * ONE <= a * b * c
  {
    ScaledFloor(x, a * b, c);
  }

  lemma ScaledFloor(x: int, v: int, c: int)
    requires x * ONE <= v < x * ONE + ONE && 0 <= c
    ensures (x * c) * ONE <= v * c <= (x * c) * ONE + ONE * c
  {
    var w := v - x * ONE;
    assert v * c == (x * c) * ONE + w * c;
    assert 0 <= w * c <= ONE * c;
  }

  lemma MaxMinMeaning(a: int, b: int)
    ensures a <= Max(a, b) && b <= Max(a, b) && (Max(a, b) == a || Max(a, b) == b)
    ensures Min(a, b) <= a && Min(a, b) <= b && (Min(a, b) == a || Min(a, b) == b)
  {
  }

  /** Clamping keeps what is in range and replaces the rest by the nearer bound. */
  lemma ClampMeaning(value: int, lo: int, hi: int)
    requires lo <= hi
    ensures lo <= Clamp(value, lo, hi) <= hi
    ensures lo <= value <= hi ==> Clamp(value, lo, hi) == value
    ensures value < lo ==> Clamp(value, lo, hi) == lo
    ensures hi < value ==> Clamp(value, lo, hi) == hi
  {
  }

  /** The largest value whose product with ONE is at most `n`. */
  lemma FloorIsGreatest(n: int, d: int, x: int)
    requires d > 0
    ensures x * d <= n <==> x <= n / d
  {
    var q := n / d;
    assert n == q * d + n % d;
    if x <= q {
      assert x * d <= q * d;
    } else {
      assert (q + 1) * d <= x * d;
    }
  }

  lemma MulMonotone(a: int, b: int, c: int, d: int)
    requires 0 <= a <= c && 0 <= b <= d
    ensures 0 <= Mul(a, b) <= Mul(c, d)
  {
    assert 0 <= a * b;
    assert a * b <= c * b <= c * d;
  }

  lemma MulMonotoneRight(a: int, b: int, c: int)
    requires 0 <= a && b <= c
    ensures Mul(a, b) <= Mul(a, c)
  {
    assert a * b <= a * c;
  }

  /** Multiplying by a fraction never increases, by a proper one decreases. */
  lemma MulFraction(a: int, b: int)
    requires 0 <= a && 0 <= b <= ONE
    ensures 0 <= Mul(a, b) <= a
    ensures 0 < a && b < ONE ==> Mul(a, b) < a
    ensures b == ONE ==> Mul(a, b) == a
  {
    assert 0 <= a * b <= a * ONE;
    if 0 < a && b < ONE {
      assert a * b < a * ONE;
    }
  }

  /** Scaling a signed difference by a fraction moves it towards zero. */
  lemma MulTowardsZero(rate: int, d: int)
    requires 0 <= rate <= ONE
    ensures 0 <= d ==> 0 <= Mul(rate, d) <= d
    ensures d <= 0 ==> d <= Mul(rate, d) <= 0
  {
    if 0 <= d {
      assert 0 <= rate * d <= ONE * d;
    } else {
      assert ONE * d <= rate * d <= 0;
    }
  }

  /** A difference that grows by `e` moves the scaled value by at most `e`. */
  lemma MulContracts(rate: int, d: int, e: int)
    requires 0 <= rate <= ONE && 0 <= e
    ensures Mul(rate, d) <= Mul(rate, d + e) <= Mul(rate, d) + e
  {
    assert rate * (d + e) == rate * d + rate * e;
    assert 0 <= rate * e <= ONE * e;
  }
}
