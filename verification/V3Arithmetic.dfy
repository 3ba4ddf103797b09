/** The rounding behaviour of the single-tick swap step, over unbounded naturals.

    `n` is the virtual reserve L * q of token0, `s` the current price, `a` the input net of fee and
    `q` the fixed-point scale. */
module V3Arithmetic {
  import opened Arithmetic

  /** The floored reciprocal plus a positive input exceeds the true reciprocal, so the price
      cannot rise. */
  lemma NextDownFalls(n: nat, s: nat, a: nat)
    requires s > 0 && a > 0
    ensures CeilDiv(n, n / s + a) <= s
  {
    FloorBounds(n, s);
    MulLe(n / s + 1, n / s + a, s);
    CeilLeast(n, n / s + a, s);
  }

  /** Flooring the reciprocal first leaves the price at or above the exact rounded-up price. */
  lemma NextDownAboveExact(n: nat, s: nat, a: nat)
    requires s > 0 && a > 0
    ensures CeilDiv(n * s, n + a * s) <= CeilDiv(n, n / s + a)
  {
    var c := CeilDiv(n, n / s + a);
    CeilBounds(n, n / s + a);
    FloorBounds(n, s);
    ExactBelow(n, s, a, n / s, c);
    CeilLeast(n * s, n + a * s, c);
  }

  lemma ExactBelow(n: nat, s: nat, a: nat, m: nat, c: nat)
    requires n <= c * (m + a) && m * s <= n
    ensures n * s <= c * (n + a * s)
  {
    MulLe(n, c * (m + a), s);
    Associate(c, m + a, s);
    Distribute(m, a, s);
    MulLe((m + a) * s, n + a * s, c);
  }

  /** ... and less than s^2 / n + 1 above it. */
  lemma NextDownGap(n: nat, s: nat, a: nat, c: nat, exact: nat)
    requires n > 0 && s > 0 && a > 0
    requires c == CeilDiv(n, n / s + a) && exact == CeilDiv(n * s, n + a * s)
    ensures (c - exact - 1) * n < s * s
  {
    FloorBounds(n, s);
    CeilBounds(n, n / s + a);
    CeilBounds(n * s, n + a * s);
    GapFromBounds(n, s, a, n / s, c, exact);
  }

  lemma GapFromBounds(n: nat, s: nat, a: nat, m: nat, c: nat, exact: nat)
    requires n > 0 && s > 0 && a > 0
    requires m * s <= n < (m + 1) * s
    requires (c - 1) * (m + a) < n && n * s <= exact * (n + a * s)
    ensures (c - exact - 1) * n < s * s
  {
    var t, k, d := c - 1 - exact, m + a, n + a * s;
    if t <= 0 {
      MulLe(t, 0, n);
      MulLt(0, s, s);
    } else {
      Distribute(m, 1, s);
      Distribute(m, a, s);
      GapTimesDivisors(n, s, k, d, c, exact);
      MulLe(m + 1, k, s);
      GapCancel(n, s, k, d, t);
    }
  }

  lemma GapTimesDivisors(n: nat, s: nat, k: nat, d: nat, c: nat, exact: nat)
    requires n > 0 && k > 0 && k * s <= d < k * s + s
    requires (c - 1) * k < n
    requires n * s <= exact * d
    ensures (c - 1 - exact) * (k * d) < n * s
  {
    MulLe((c - 1) * k, n, d);
    MulLe(n * s, exact * d, k);
    Distribute(c - 1, exact, k * d);
    Associate(c - 1, k, d);
    Associate(exact, d, k);
    Distribute(d, k * s, n);
    MulLt(d - k * s, s, n);
    Associate(n, k, s);
  }

  lemma GapCancel(n: nat, s: nat, k: nat, d: nat, t: nat)
    requires n > 0 && s > 0 && d >= n && n <= k * s
    requires t * (k * d) < n * s
    ensures t * n < s * s
  {
    var tk := t * k;
    Associate(t, k, d);
    MulLe(n, d, tk);
    CancelLt(tk, s, n);
    MulLt(tk, s, s);
    Associate(t, k, s);
    MulLe(n, k * s, t);
  }

  /** A price gap turned into an output gap, both outputs rounded down. */
  lemma OutputGap(liquidity: nat, q: nat, s: nat, c: nat, exact: nat, out: nat, outExact: nat)
    requires q > 0 && exact <= c <= s
    requires out == (liquidity * (s - c)) / q && outExact == (liquidity * (s - exact)) / q
    requires (c - exact - 1) * (liquidity * q) < s * s
    ensures out <= outExact
    ensures (outExact - out - 1) * (q * q) < s * s + liquidity * q
  {
    MulLe(s - c, s - exact, liquidity);
    FloorMonotone(liquidity * (s - c), liquidity * (s - exact), q);
    FloorBounds(liquidity * (s - c), q);
    FloorBounds(liquidity * (s - exact), q);
    OutputGapScaled(liquidity, q, s, c, exact, out, outExact);
  }

  lemma OutputGapScaled(liquidity: nat, q: nat, s: nat, c: nat, exact: nat, out: nat, outExact: nat)
    requires q > 0 && exact <= c <= s
    requires liquidity * (s - c) < (out + 1) * q && outExact * q <= liquidity * (s - exact)
    requires (c - exact - 1) * (liquidity * q) < s * s
    ensures (outExact - out - 1) * (q * q) < s * s + liquidity * q
  {
    var gap, rise := outExact - out - 1, c - exact;
    Distribute(outExact, out + 1, q);
    Distribute(s - exact, s - c, liquidity);
    ScaleGap(liquidity, q, gap, rise);
    Distribute(rise, 1, liquidity * q);
  }

  lemma ScaleGap(liquidity: int, q: int, gap: int, rise: int)
    requires q > 0 && gap * q < liquidity * rise
    ensures gap * (q * q) < rise * (liquidity * q)
  {
    MulLt(gap * q, liquidity * rise, q);
    Associate(gap, q, q);
    Associate(rise, liquidity, q);
  }

  /** Two token0 steps in a row: the reciprocal price grows by at most the inputs. `sum` bounds the
      reciprocal before the step, and so does its floor `m`. */
  lemma DownAgain(n: nat, c: nat, m: nat, sum: nat, a: nat, c2: nat)
    requires c > 0 && a > 0 && c2 == CeilDiv(n, m + a) && (m <= sum || (m * c <= n && n <= c * sum))
    ensures n <= c2 * (sum + a)
  {
    if m > sum {
      CancelLe(m, sum, c);
    }
    CeilBounds(n, m + a);
    MulLe(m + a, sum + a, c2);
  }

  /** Token0 paid for two moves in a row covers the whole move; `first` and `second` are net payments,
      negative for what is taken out. */
  lemma MovesCompose(n: int, s0: nat, s1: nat, s2: nat, first: int, second: int)
    requires 0 < s0 && 0 < s1 && 0 < s2
    requires first * (s0 * s1) >= n * (s0 - s1) && second * (s1 * s2) >= n * (s1 - s2)
    ensures (first + second) * (s0 * s2) >= n * (s0 - s2)
  {
    MulLe(n * (s0 - s1), first * (s0 * s1), s2);
    MulLe(n * (s1 - s2), second * (s1 * s2), s0);
    MovesRegroup(n, s0, s1, s2);
    Associate(first, s0 * s1, s2);
    Associate(first, s0 * s2, s1);
    Associate(second, s1 * s2, s0);
    Associate(second, s0 * s2, s1);
    SamePrices(s0, s1, s2);
    Distribute(first, second, s0 * s2);
    Distribute(first * (s0 * s2), second * (s0 * s2), s1);
    CancelLe(n * (s0 - s2), (first + second) * (s0 * s2), s1);
  }

  /** Two token1 steps in a row release no more token0 than the whole move. */
  lemma UpAgain(n: nat, s0: nat, s1: nat, s2: nat, paid: nat, out: nat)
    requires 0 < s0 <= s1 <= s2
    requires paid * (s0 * s1) <= n * (s1 - s0) && out * (s1 * s2) <= n * (s2 - s1)
    ensures (paid + out) * (s0 * s2) <= n * (s2 - s0)
  {
    Negate(paid, s0 * s1);
    Negate(out, s1 * s2);
    Negate(paid + out, s0 * s2);
    Negate(s1 - s0, n);
    Negate(s2 - s1, n);
    Negate(s2 - s0, n);
    MovesCompose(n, s0, s1, s2, 0 - paid, 0 - out);
  }

  lemma Negate(a: int, b: int)
    ensures (0 - a) * b == 0 - a * b && b * (0 - a) == 0 - b * a
  {}

  /** A token0 step is paid for in full: `m` is the floored reciprocal of the price before. */
  lemma DownPaid(n: nat, s: nat, m: nat, a: nat, c: nat)
    requires n <= c * (m + a) && m * s <= n
    ensures a * (s * c) >= n * (s - c)
  {
    ExactBelow(n, s, a, m, c);
    Distribute(n, a * s, c);
    Associate(a, s, c);
    Distribute(s, c, n);
  }

  lemma SamePrices(s0: int, s1: int, s2: int)
    ensures (s0 * s1) * s2 == (s0 * s2) * s1 && (s1 * s2) * s0 == (s0 * s2) * s1
  {}

  lemma MovesRegroup(n: int, s0: int, s1: int, s2: int)
    ensures (n * (s0 - s1)) * s2 + (n * (s1 - s2)) * s0 == (n * (s0 - s2)) * s1
  {
    Distribute(s0, s1, n);
    Distribute(s1, s2, n);
    Distribute(s0, s2, n);
    Distribute(n * s0, n * s1, s2);
    Distribute(n * s1, n * s2, s0);
    Distribute(n * s0, n * s2, s1);
    Associate(n, s0, s2);
    Associate(n, s1, s2);
    Associate(n, s0, s1);
  }
}
