/** The constant-product formula over unbounded naturals. Reserves are scaled by 10000: `x` is the
    scaled input reserve, `y` the output reserve and `f` the input after the fee, also scaled. */
module V2Arithmetic {
  import opened Arithmetic

  /** The fee-adjusted constant product does not fall when `out` leaves the pool. */
  predicate Keeps(x: nat, y: nat, f: nat, out: int) {
    x * y <= (x + f) * (y - out)
  }

  /** The quoted output is the largest one that keeps the product from falling. */
  lemma OutputLargest(x: nat, y: nat, f: nat, out: nat)
    requires x + f > 0
    ensures 0 <= f * y
    ensures out <= (f * y) / (x + f) <==> Keeps(x, y, f, out)
  {
    MulNonNeg(f, y);
    FloorLargest(f * y, x + f, out);
    Distribute(y, out, x + f);
    Distribute(x, f, y);
  }

  lemma OutputBelowReserve(x: nat, y: nat, f: nat)
    requires x > 0 && y > 0
    ensures 0 <= f * y
    ensures (f * y) / (x + f) < y
  {
    MulNonNeg(f, y);
    MulLt(f, x + f, y);
    FloorLargest(f * y, x + f, y);
  }

  /** Without the fee the product still does not fall: the pool keeps the fee. */
  lemma ProductRises(x: nat, a: nat, y: nat, f: nat, out: nat)
    requires out <= y && f <= 10_000 * a && Keeps(10_000 * x, y, f, out)
    ensures x * y <= (x + a) * (y - out)
  {
    MulLe(10_000 * x + f, 10_000 * (x + a), y - out);
    Associate(10_000, x + a, y - out);
    Associate(10_000, x, y);
  }

  /** One more swap of a split order. `total` is the scaled input so far, `f` the same after the
      fee, `w` the output reserve left, and `z` what is left after the next part `g`. */
  lemma SplitStep(x: nat, y: nat, total: nat, f: nat, g: nat, w: nat, z: nat)
    requires x > 0 && f <= total
    requires x * y <= (x + f) * w
    requires (x + total) * w <= (x + total + g) * z
    ensures x * y <= (x + f + g) * z
  {
    var wide, narrow := x + total, x + f;
    // (narrow + g) * wide >= narrow * (wide + g)
    assert narrow * (wide + g) <= (narrow + g) * wide by {
      Distribute(wide, g, narrow);
      Distribute(narrow, g, wide);
      MulLe(narrow, wide, g);
    }
    assert (narrow * w) * (wide + g) <= ((narrow + g) * z) * (wide + g) by {
      MulLe(narrow * (wide + g), (narrow + g) * wide, w);
      Associate(narrow, w, wide + g);
      MulLe(wide * w, (wide + g) * z, narrow + g);
      Associate(narrow + g, wide, w);
      Associate(narrow + g, z, wide + g);
    }
    CancelLe(narrow * w, (narrow + g) * z, wide + g);
  }

  /** The realized price never exceeds the marginal price. */
  lemma RealizedBelowQuoted(x: nat, y: nat, a: nat, f: nat, out: nat)
    requires x > 0 && a > 0 && f <= 10_000 * a
    requires out * (10_000 * x + f) <= f * y
    ensures 0 <= out * 10_000 && 0 <= y * 10_000
    ensures (out * 10_000) / a <= (y * 10_000) / x
  {
    var realized := (out * 10_000) / a;
    assert out * x <= a * y by {
      MulLe(10_000 * x, 10_000 * x + f, out);
      MulLe(f, 10_000 * a, y);
      Associate(10_000, x, out);
      Associate(10_000, a, y);
    }
    FloorBounds(out * 10_000, a);
    PriceTransfer(x, y, a, out, realized);
    FloorLargest(y * 10_000, x, realized);
  }

  lemma PriceTransfer(x: nat, y: nat, a: nat, out: nat, realized: nat)
    requires a > 0 && out * x <= a * y && realized * a <= out * 10_000
    ensures realized * x <= y * 10_000
  {
    MulLe(realized * a, out * 10_000, x);
    MulLe(out * x, a * y, 10_000);
    Associate(realized, a, x);
    Associate(realized, x, a);
    Associate(out, 10_000, x);
    Associate(a, y, 10_000);
    CancelLe(realized * x, y * 10_000, a);
  }

  /** A quoted output is strictly below the marginal rate times the input. */
  lemma BelowMarginal(x: nat, y: nat, f: nat, out: nat)
    requires f > 0 && out > 0 && out * (x + f) <= f * y
    ensures out * x < f * y
  {
    Distribute(x, f, out);
    MulLt(0, f, out);
  }
}
