/** Facts about floor and ceiling division of unbounded naturals. The quote proofs work from these
    characterisations and never from the solver's own reasoning about `/`. */
module Arithmetic {

  /** Division rounded up; `d` is a positive divisor. */
  function CeilDiv(n: nat, d: nat): nat
    requires d > 0
  {
    if n % d == 0 then n / d else n / d + 1
  }

  /** Division rounded down. */
  function FloorDiv(n: nat, d: nat): (q: nat)
    requires d > 0
    ensures q <= n
  {
    FloorShrinks(n, d);
    n / d
  }

  /** `a * b / d` with an unbounded intermediate product, rounded down. */
  function MulDiv(a: nat, b: nat, d: nat): nat
    requires d > 0
  {
    MulNonNeg(a, b);
    (a * b) / d
  }

  lemma MulLe(a: int, b: int, c: int)
    requires a <= b && 0 <= c
    ensures a * c <= b * c && c * a <= c * b
  {
    assert 0 <= (b - a) * c;
  }

  lemma MulLt(a: int, b: int, c: int)
    requires a < b && 0 < c
    ensures a * c < b * c && c * a < c * b
  {
    assert 0 < (b - a) * c;
  }

  lemma MulNonNeg(a: int, b: int)
    requires 0 <= a && 0 <= b
    ensures 0 <= a * b
  {}

  lemma Distribute(a: int, b: int, c: int)
    ensures (a + b) * c == a * c + b * c && c * (a + b) == c * a + c * b
    ensures (a - b) * c == a * c - b * c && c * (a - b) == c * a - c * b
  {}

  lemma Associate(a: int, b: int, c: int)
    ensures a * (b * c) == (a * b) * c
    ensures (a * c) * b == (a * b) * c
  {}

  /** A common positive factor can be cancelled from both sides of an inequality. */
  lemma CancelLe(a: int, b: int, c: int)
    requires 0 < c && a * c <= b * c
    ensures a <= b
  {
    if b < a { MulLt(b, a, c); }
  }

  lemma CancelLt(a: int, b: int, c: int)
    requires 0 < c && a * c < b * c
    ensures a < b
  {
    if b <= a { MulLe(b, a, c); }
  }

  lemma FloorBounds(n: nat, d: nat)
    requires d > 0
    ensures (n / d) * d <= n < (n / d + 1) * d
  {
    assert n == (n / d) * d + n % d;
    Distribute(n / d, 1, d);
  }

  lemma FloorShrinks(n: nat, d: nat)
    requires d > 0
    ensures n / d <= n
  {
    FloorLargest(n, d, n / d);
    ShrinkBy(n / d, d, n);
  }

  lemma ShrinkBy(q: nat, d: nat, n: nat)
    requires d > 0 && q * d <= n
    ensures q <= n
  {
    MulLe(1, d, q);
  }

  /** `n / d` is the largest `q` with `q * d <= n`. */
  lemma FloorLargest(n: nat, d: nat, q: nat)
    requires d > 0
    ensures q <= n / d <==> q * d <= n
  {
    FloorBounds(n, d);
    if q <= n / d {
      MulLe(q, n / d, d);
    } else {
      MulLe(n / d + 1, q, d);
    }
  }

  lemma CeilBounds(n: nat, d: nat)
    requires d > 0
    ensures n <= CeilDiv(n, d) * d
    ensures (CeilDiv(n, d) - 1) * d < n || (n == 0 && CeilDiv(n, d) == 0)
  {
    assert n == (n / d) * d + n % d;
    Distribute(n / d, 1, d);
  }

  /** `CeilDiv(n, d)` is the least `q` with `n <= q * d`. */
  lemma CeilLeast(n: nat, d: nat, q: nat)
    requires d > 0
    ensures CeilDiv(n, d) <= q <==> n <= q * d
  {
    CeilBounds(n, d);
    if CeilDiv(n, d) <= q {
      MulLe(CeilDiv(n, d), q, d);
    } else {
      MulLe(q, CeilDiv(n, d) - 1, d);
    }
  }

  lemma CeilPositive(n: nat, d: nat)
    requires n > 0 && d > 0
    ensures CeilDiv(n, d) > 0
  {
    CeilLeast(n, d, 0);
  }

  lemma FloorMonotone(m: nat, n: nat, d: nat)
    requires d > 0 && m <= n
    ensures m / d <= n / d
  {
    var q := m / d;
    assert q * d <= n by { FloorBounds(m, d); }
    FloorLargest(n, d, q);
  }

  /** Two floors in a row are one floor by the product of the divisors. */
  lemma NestedFloor(n: nat, a: nat, b: nat)
    requires a > 0 && b > 0 && a * b > 0
    ensures (n / a) / b == n / (a * b)
  {
    var inner := n / a;
    var outer, flat := inner / b, n / (a * b);
    NestedFloorLe(n, a, b, inner, outer, flat);
    NestedFloorGe(n, a, b, inner, outer, flat);
  }

  lemma NestedFloorLe(n: nat, a: nat, b: nat, inner: nat, outer: nat, flat: nat)
    requires a > 0 && b > 0 && a * b > 0
    requires inner == n / a && outer == inner / b && flat == n / (a * b)
    ensures outer <= flat
  {
    assert outer * b <= inner by { FloorBounds(inner, b); }
    assert (outer * b) * a <= n by { FloorLargest(n, a, outer * b); }
    assert outer * (a * b) == (outer * b) * a;
    FloorLargest(n, a * b, outer);
  }

  lemma NestedFloorGe(n: nat, a: nat, b: nat, inner: nat, outer: nat, flat: nat)
    requires a > 0 && b > 0 && a * b > 0
    requires inner == n / a && outer == inner / b && flat == n / (a * b)
    ensures flat <= outer
  {
    assert flat * (a * b) <= n by { FloorBounds(n, a * b); }
    assert flat * (a * b) == (flat * b) * a;
    assert flat * b <= inner by { FloorLargest(n, a, flat * b); }
    FloorLargest(inner, b, flat);
  }
}
