/** Tick-to-price conversion: the port of `TickMath.getSqrtRatioAtTick`. */
module TickMath {
  import opened Common
  import opened Arithmetic
  import opened Market
  import opened V3Pool

  const MIN_TICK: int := -887272
  const MAX_TICK: int := 887272

  const FACTORS: seq<nat> := [
    0xfffcb933bd6fad37aa2d162d1a594001,
    0xfff97272373d413259a46990580e213a,
    0xfff2e50f5f656932ef12357cf3c7fdcc,
    0xffe5caca7e10e4e61c3624eaa0941cd0,
    0xffcb9843d60f6159c9db58835c926644,
    0xff973b41fa98c081472e6896dfb254c0,
    0xff2ea16466c96a3843ec78b326b52861,
    0xfe5dee046a99a2a811c461f1969c3053,
    0xfcbe86c7900a88aedcffc83b479aa3a4,
    0xf987a7253ac413176f2b074cf7815e54,
    0xf3392b0822b70005940c7a398e4b70f3,
    0xe7159475a2c29b7443b29c7fa6e889d9,
    0xd097f3bdfd2022b8845ad8f792aa5825,
    0xa9f746462d870fdf8a65dc1f90e061e5,
    0x70d869a156d2a1b890bb3df62baf32f7,
    0x31be135f97d08fd981231505542fcfa6,
    0x9aa508b5b7a84e1c677de54f3e99bc9,
    0x5d6af8dedb81196699c329225ee604,
    0x2216e584f5fa1ea926041bedfe98,
    0x48a170391f7dc42444e8fa2]

  /** One table step: multiply by a factor and drop 128 fraction bits. */
  function Scale(x: nat, factor: nat): nat {
    MulDiv(x, factor, TWO_128)
  }

  /** The table steps left once the low `i` bits are consumed; `v` holds the remaining bits. */
  function FoldFrom(table: seq<nat>, v: nat, i: nat, x: nat): nat
    requires i <= |table|
    decreases |table| - i
  {
    if i == |table| then x
    else FoldFrom(table, v / 2, i + 1, if v % 2 == 1 then Scale(x, table[i]) else x)
  }

  /** The product of the factors of the set bits of `a`, in Q128: a uniform fold over all twenty
      constants. */
  function Ratio(a: nat): nat {
    FoldFrom(FACTORS, a, 0, TWO_128)
  }

  /** The 256-bit reciprocal for positive ticks, then Q128 to Q96 rounded up. */
  function SqrtRatioAt(tick: int): nat
    requires MIN_TICK <= tick <= MAX_TICK
  {
    if tick > 0 then
      RatioBounds(tick);
      CeilDiv((TWO_256 - 1) / Ratio(tick), TWO_32)
    else CeilDiv(Ratio(-tick), TWO_32)
  }

  // ----- The table -----

  /** The running product when every lower bit is set. */
  const ONES: seq<nat> := [
    0x100000000000000000000000000000000,
    0xfffcb933bd6fad37aa2d162d1a594001,
    0xfff62bbb6d458ec3c792106391dc463e,
    0xffe9114b9cf28d394c3203dbd44eb085,
    0xffcede6f1d8be90b88f350424e84e5b7,
    0xff9a80c1ada7480b1daa871d7c4d9b36,
    0xff31e58d5a53c84fc142023ec1b1dfd7,
    0xfe612f8183b1ea21b72fb71b03542ae4,
    0xfcc1c2f380536bc67ee1ff564d1080b2,
    0xf98ad8c8d7ecc0a3f8a42c9724cffb6a,
    0xf33c480189b415235ad119427d89a1f6,
    0xe71889a85903fd03cb7cc40bdf371a9c,
    0xd09a9f3e93db5812d4820c2fc67a3e3a,
    0xa9f973345b9e647c4163af91d00b255f,
    0x70d9db6485f04ddd567e07c7b89f8e7c,
    0x31beb65d91af63ae717a760be3b374dc,
    0x9aa7036fd2355429c4030b032e1cf71,
    0x5d6c2af97aaa8de0e5a6bf23f5e547,
    0x221755388a6658e120f4a3c503cf,
    0x48a25e36942a4fc0c1f899f]

  /** Every factor is below one, and smaller by more than 4 parts in 100000 than the product `ones`
      of all factors before it: carrying into bit `k` always lowers the ratio. */
  predicate CarryLowers(table: seq<nat>, ones: seq<nat>) {
    && |table| == |ones| > 0 && ones[0] == TWO_128
    && (forall k :: 0 <= k < |table| ==> 0 < table[k] < TWO_128)
    && (forall k :: 0 <= k < |table| ==> 100_004 * table[k] <= 100_000 * ones[k])
    && (forall k :: 0 < k < |table| ==> Scale(ones[k - 1], table[k - 1]) == ones[k])
  }

  lemma FactorsCarry()
    ensures |FACTORS| == 20 && CarryLowers(FACTORS, ONES)
  {
    FactorsBelowOne();
    forall k | 0 < k < 20
      ensures Scale(ONES[k - 1], FACTORS[k - 1]) == ONES[k]
    {
      OnesStep(k - 1);
    }
  }

  lemma FactorsBelowOne()
    ensures forall k :: 0 <= k < 20 ==> 0 < FACTORS[k] < TWO_128
    ensures forall k :: 0 <= k < 20 ==> 100_004 * FACTORS[k] <= 100_000 * ONES[k]
  {}

  lemma OnesStep(k: nat)
    requires k < 19
    ensures Scale(ONES[k], FACTORS[k]) == ONES[k + 1]
  {
    if k == 0 { assert MulDiv(ONES[0], FACTORS[0], TWO_128) == ONES[1]; }
    else if k == 1 { assert MulDiv(ONES[1], FACTORS[1], TWO_128) == ONES[2]; }
    else if k == 2 { assert MulDiv(ONES[2], FACTORS[2], TWO_128) == ONES[3]; }
    else if k == 3 { assert MulDiv(ONES[3], FACTORS[3], TWO_128) == ONES[4]; }
    else if k == 4 { assert MulDiv(ONES[4], FACTORS[4], TWO_128) == ONES[5]; }
    else if k == 5 { assert MulDiv(ONES[5], FACTORS[5], TWO_128) == ONES[6]; }
    else if k == 6 { assert MulDiv(ONES[6], FACTORS[6], TWO_128) == ONES[7]; }
    else if k == 7 { assert MulDiv(ONES[7], FACTORS[7], TWO_128) == ONES[8]; }
    else if k == 8 { assert MulDiv(ONES[8], FACTORS[8], TWO_128) == ONES[9]; }
    else if k == 9 { assert MulDiv(ONES[9], FACTORS[9], TWO_128) == ONES[10]; }
    else if k == 10 { assert MulDiv(ONES[10], FACTORS[10], TWO_128) == ONES[11]; }
    else if k == 11 { assert MulDiv(ONES[11], FACTORS[11], TWO_128) == ONES[12]; }
    else if k == 12 { assert MulDiv(ONES[12], FACTORS[12], TWO_128) == ONES[13]; }
    else if k == 13 { assert MulDiv(ONES[13], FACTORS[13], TWO_128) == ONES[14]; }
    else if k == 14 { assert MulDiv(ONES[14], FACTORS[14], TWO_128) == ONES[15]; }
    else if k == 15 { assert MulDiv(ONES[15], FACTORS[15], TWO_128) == ONES[16]; }
    else if k == 16 { assert MulDiv(ONES[16], FACTORS[16], TWO_128) == ONES[17]; }
    else if k == 17 { assert MulDiv(ONES[17], FACTORS[17], TWO_128) == ONES[18]; }
    else if k == 18 { assert MulDiv(ONES[18], FACTORS[18], TWO_128) == ONES[19]; }
  }

  /** The ratio at the largest tick, a few bits at a time. */
  lemma RatioAtMaxTick()
    ensures Ratio(MAX_TICK) == 18447437462383981825
  {
    MaxTickBits0(0x100000000000000000000000000000000, 0xffe5caca7e10e4e61c3624eaa0941cd0);
    MaxTickBits5(0xffe5caca7e10e4e61c3624eaa0941cd0, 0xfeac1d4052f7714818b490c1138ea058);
    MaxTickBits7(0xfeac1d4052f7714818b490c1138ea058, 0xf9d459c5817dbafa9e376ae84dcfeb8b);
    MaxTickBits10(0xf9d459c5817dbafa9e376ae84dcfeb8b, 0xe183ac4e25d5949966242a64e9c80e2f);
    MaxTickBits15(0xe183ac4e25d5949966242a64e9c80e2f, 0x1000276a221a17501);
  }

  lemma MaxTickBits0(start: nat, end: nat)
    requires start == 0x100000000000000000000000000000000 && end == 0xffe5caca7e10e4e61c3624eaa0941cd0
    ensures FoldFrom(FACTORS, 887272, 0, start) == FoldFrom(FACTORS, 27727, 5, end)
  {
    EvenStep(FACTORS, 443636, 0, start);
    EvenStep(FACTORS, 221818, 1, start);
    EvenStep(FACTORS, 110909, 2, start);
    OddStep(FACTORS, 55454, 3, start, end);
    EvenStep(FACTORS, 27727, 4, end);
  }

  lemma MaxTickBits5(start: nat, end: nat)
    requires start == 0xffe5caca7e10e4e61c3624eaa0941cd0 && end == 0xfeac1d4052f7714818b490c1138ea058
    ensures FoldFrom(FACTORS, 27727, 5, start) == FoldFrom(FACTORS, 6931, 7, end)
  {
    OddStep(FACTORS, 13863, 5, start, 0xff7d10c63a977157da4140deb6f31a7b);
    OddStep(FACTORS, 6931, 6, 0xff7d10c63a977157da4140deb6f31a7b, end);
  }

  lemma MaxTickBits7(start: nat, end: nat)
    requires start == 0xfeac1d4052f7714818b490c1138ea058 && end == 0xf9d459c5817dbafa9e376ae84dcfeb8b
    ensures FoldFrom(FACTORS, 6931, 7, start) == FoldFrom(FACTORS, 866, 10, end)
  {
    OddStep(FACTORS, 3465, 7, start, 0xfd0c3654da9e033741d1a9f93707f6f6);
    OddStep(FACTORS, 1732, 8, 0xfd0c3654da9e033741d1a9f93707f6f6, end);
    EvenStep(FACTORS, 866, 9, end);
  }

  lemma MaxTickBits10(start: nat, end: nat)
    requires start == 0xf9d459c5817dbafa9e376ae84dcfeb8b && end == 0xe183ac4e25d5949966242a64e9c80e2f
    ensures FoldFrom(FACTORS, 866, 10, start) == FoldFrom(FACTORS, 27, 15, end)
  {
    EvenStep(FACTORS, 433, 10, start);
    OddStep(FACTORS, 216, 11, start, end);
    EvenStep(FACTORS, 108, 12, end);
    EvenStep(FACTORS, 54, 13, end);
    EvenStep(FACTORS, 27, 14, end);
  }

  lemma MaxTickBits15(start: nat, end: nat)
    requires start == 0xe183ac4e25d5949966242a64e9c80e2f && end == 0x1000276a221a17501
    ensures FoldFrom(FACTORS, 27, 15, start) == FoldFrom(FACTORS, 0, 20, end)
  {
    OddStep(FACTORS, 13, 15, start, 0x2bd1a4c5d2a1181aca1ef15e64c2e3cf);
    OddStep(FACTORS, 6, 16, 0x2bd1a4c5d2a1181aca1ef15e64c2e3cf, 0x1a785cbbdc050483e3be5812760be73);
    EvenStep(FACTORS, 3, 17, 0x1a785cbbdc050483e3be5812760be73);
    OddStep(FACTORS, 1, 18, 0x1a785cbbdc050483e3be5812760be73, 0x3865a6455d07d2bc87c5956d2e);
    OddStep(FACTORS, 0, 19, 0x3865a6455d07d2bc87c5956d2e, end);
  }

  lemma EvenStep(table: seq<nat>, v: nat, i: nat, x: nat)
    requires i < |table|
    ensures FoldFrom(table, 2 * v, i, x) == FoldFrom(table, v, i + 1, x)
  {}

  lemma OddStep(table: seq<nat>, v: nat, i: nat, x: nat, scaled: nat)
    requires i < |table| && scaled == Scale(x, table[i])
    ensures FoldFrom(table, 2 * v + 1, i, x) == FoldFrom(table, v, i + 1, scaled)
  {}

  // ----- Size of the ratio -----

  lemma ScaleShrinks(x: nat, factor: nat)
    requires factor < TWO_128
    ensures Scale(x, factor) <= x
    ensures x <= TWO_128 ==> x * factor < TWO_256
  {
    MulLe(factor, TWO_128, x);
    FloorBounds(x * factor, TWO_128);
    CancelLe(Scale(x, factor), x, TWO_128);
    if x <= TWO_128 { MulLe(x, TWO_128, factor); }
  }

  /** Table steps never increase a value. */
  lemma FoldShrinks(table: seq<nat>, v: nat, i: nat, x: nat)
    requires i <= |table| && forall k :: 0 <= k < |table| ==> table[k] < TWO_128
    ensures FoldFrom(table, v, i, x) <= x
    decreases |table| - i
  {
    if i < |table| {
      ScaleShrinks(x, table[i]);
      FoldShrinks(table, v / 2, i + 1, if v % 2 == 1 then Scale(x, table[i]) else x);
    }
  }

  /** A relative gap of 4 parts in 100000 between two values survives every further table step up
      to one unit per step. */
  lemma FoldKeepsGap(table: seq<nat>, v: nat, i: nat, x: nat, y: nat, slack: nat)
    requires i <= |table| && forall k :: 0 <= k < |table| ==> table[k] < TWO_128
    requires 100_004 * y <= 100_000 * (x + slack)
    ensures 100_004 * FoldFrom(table, v, i, y) <= 100_000 * (FoldFrom(table, v, i, x) + slack + (|table| - i))
    decreases |table| - i
  {
    if i < |table| {
      if v % 2 == 1 {
        ScaleKeepsGap(x, y, slack, table[i]);
        FoldKeepsGap(table, v / 2, i + 1, Scale(x, table[i]), Scale(y, table[i]), slack + 1);
      } else {
        FoldKeepsGap(table, v / 2, i + 1, x, y, slack);
      }
    }
  }

  lemma ScaleKeepsGap(x: nat, y: nat, slack: nat, factor: nat)
    requires factor < TWO_128 && 100_004 * y <= 100_000 * (x + slack)
    ensures 100_004 * Scale(y, factor) <= 100_000 * (Scale(x, factor) + slack + 1)
  {
    var xf, yf, sf := x * factor, y * factor, slack * factor;
    FloorBounds(xf, TWO_128);
    FloorBounds(yf, TWO_128);
    assert 100_004 * yf <= 100_000 * (xf + sf) by {
      MulLe(100_004 * y, 100_000 * (x + slack), factor);
      Associate(100_004, y, factor);
      Associate(100_000, x + slack, factor);
      Distribute(x, slack, factor);
    }
    MulLe(factor, TWO_128, slack);
  }

  /** Adding one to the remaining bits, while every consumed bit of the smaller value was set,
      lowers the fold by 4 parts in 100000 up to one unit per table entry. */
  lemma IncrementGap(table: seq<nat>, ones: seq<nat>, v: nat, i: nat)
    requires CarryLowers(table, ones) && i < |table| && v + 1 < Pow2(|table| - i)
    ensures 100_004 * FoldFrom(table, v + 1, i, TWO_128)
         <= 100_000 * (FoldFrom(table, v, i, ones[i]) + |table|)
    decreases |table| - i
  {
    if v % 2 == 1 {
      assert (v + 1) / 2 == v / 2 + 1;
      IncrementGap(table, ones, v / 2, i + 1);
      EvenStep(table, v / 2 + 1, i, TWO_128);
      OddStep(table, v / 2, i, ones[i], ones[i + 1]);
    } else {
      OddStep(table, v / 2, i, TWO_128, table[i]);
      EvenStep(table, v / 2, i, ones[i]);
      FoldKeepsGap(table, v / 2, i + 1, ones[i], table[i], 0);
    }
  }

  function Pow2(k: nat): (p: nat)
    ensures p > 0
  {
    if k == 0 then 1 else 2 * Pow2(k - 1)
  }

  lemma RatioGap(a: nat)
    requires a < MAX_TICK
    ensures 100_004 * Ratio(a + 1) <= 100_000 * (Ratio(a) + 20)
  {
    FactorsCarry();
    TwentyBits();
    IncrementGap(FACTORS, ONES, a, 0);
  }

  lemma TwentyBits()
    ensures Pow2(20) == 1048576
  {
    assert Pow2(10) == 1024;
  }

  lemma GapIsDrop(x: nat, y: nat)
    requires 100_004 * y <= 100_000 * (x + 20) && TWO_64 <= y
    ensures y + 2 * TWO_32 <= x
  {}

  /** Every ratio is positive and at most one in Q128, so the reciprocal is defined. */
  lemma RatioBounds(a: nat)
    requires a <= MAX_TICK
    ensures TWO_64 <= Ratio(a) <= TWO_128
    decreases MAX_TICK - a
  {
    RatioAtMostOne(a);
    if a == MAX_TICK {
      RatioAtMaxTick();
    } else {
      RatioBounds(a + 1);
      RatioGap(a);
      GapIsDrop(Ratio(a), Ratio(a + 1));
    }
  }

  lemma RatioAtMostOne(a: nat)
    ensures Ratio(a) <= TWO_128
  {
    FactorsCarry();
    FoldShrinks(FACTORS, a, 0, TWO_128);
  }

  /** One tick lowers the ratio by at least 2^33. */
  lemma RatioDrops(a: nat)
    requires a < MAX_TICK
    ensures Ratio(a + 1) + 2 * TWO_32 <= Ratio(a)
  {
    RatioBounds(a + 1);
    RatioGap(a);
    GapIsDrop(Ratio(a), Ratio(a + 1));
  }

  // ----- The price is strictly increasing in the tick -----

  lemma CeilDivSeparates(x: nat, y: nat)
    requires x + TWO_32 <= y
    ensures CeilDiv(x, TWO_32) < CeilDiv(y, TWO_32)
  {
    var q := CeilDiv(x, TWO_32);
    CeilBounds(x, TWO_32);
    CeilLeast(y, TWO_32, q);
  }

  lemma ReciprocalRises(x: nat, y: nat)
    requires 0 < y && y + 2 * TWO_32 <= x <= TWO_128
    ensures (TWO_256 - 1) / x + TWO_32 <= (TWO_256 - 1) / y
    ensures TWO_128 - 1 <= (TWO_256 - 1) / x
  {
    var g := (TWO_256 - 1) / x;
    assert TWO_128 - 1 <= g by {
      MulLe(x, TWO_128, TWO_128 - 1);
      FloorLargest(TWO_256 - 1, x, TWO_128 - 1);
    }
    assert g * x <= TWO_256 - 1 by { FloorBounds(TWO_256 - 1, x); }
    Distribute(x, y, g);
    MulLe(2 * TWO_32, x - y, g);
    Distribute(g, TWO_32, y);
    FloorLargest(TWO_256 - 1, y, g + TWO_32);
  }

  lemma TickStep(tick: int)
    requires MIN_TICK <= tick < MAX_TICK
    ensures SqrtRatioAt(tick) < SqrtRatioAt(tick + 1)
  {
    if tick < 0 {
      var a := -tick - 1;
      NegativeTickStep(a);
    } else if tick == 0 {
      ZeroTick();
      PositiveTickStep(0);
    } else {
      PositiveTickStep(tick);
    }
  }

  lemma NegativeTickStep(a: int)
    requires 0 <= a < MAX_TICK
    ensures SqrtRatioAt(-a - 1) < SqrtRatioAt(-a)
  {
    RatioDrops(a);
    CeilDivSeparates(Ratio(a + 1), Ratio(a));
  }

  lemma PositiveTickStep(a: nat)
    requires a < MAX_TICK
    ensures a > 0 ==> SqrtRatioAt(a) < SqrtRatioAt(a + 1)
    ensures TWO_96 < SqrtRatioAt(a + 1)
  {
    RatioDrops(a);
    RatioBounds(a);
    RatioBounds(a + 1);
    PositiveStep(Ratio(a), Ratio(a + 1));
  }

  lemma PositiveStep(x: nat, y: nat)
    requires 0 < y && y + 2 * TWO_32 <= x <= TWO_128
    ensures CeilDiv((TWO_256 - 1) / x, TWO_32) < CeilDiv((TWO_256 - 1) / y, TWO_32)
    ensures TWO_96 < CeilDiv((TWO_256 - 1) / y, TWO_32)
  {
    ReciprocalRises(x, y);
    CeilDivSeparates((TWO_256 - 1) / x, (TWO_256 - 1) / y);
    CeilLeast((TWO_256 - 1) / x, TWO_32, TWO_96 - 1);
  }

  /** Tick zero is price one. */
  lemma ZeroTick()
    ensures SqrtRatioAt(0) == TWO_96
  {
    ZeroFolds(FACTORS, 0, TWO_128);
  }

  /** The ratio of the first tick is the first constant. Both arguments are variables that equal one:
      literals would have the fold computed out over the whole table. */
  lemma FirstTickRatio(a: nat, i: nat)
    requires a == 1 && i == 1
    ensures Ratio(a) == FACTORS[0]
  {
    FirstFactor(a);
    HalfOfOne(a);
    ZeroFolds(FACTORS, i, FACTORS[0]);
  }

  lemma HalfOfOne(a: nat)
    requires a == 1
    ensures a / 2 == 0 && a % 2 == 1
  {}

  lemma ZeroFolds(table: seq<nat>, i: nat, x: nat)
    requires i <= |table|
    ensures FoldFrom(table, 0, i, x) == x
    decreases |table| - i
  {
    if i < |table| { ZeroFolds(table, i + 1, x); }
  }

  /** Higher ticks have strictly higher prices. */
  lemma StrictlyIncreasing(low: int, high: int)
    requires MIN_TICK <= low < high <= MAX_TICK
    ensures SqrtRatioAt(low) < SqrtRatioAt(high)
    decreases high - low
  {
    TickStep(high - 1);
    if low < high - 1 { StrictlyIncreasing(low, high - 1); }
  }

  /** The protocol price range is the range of the tick map, both ends attained. */
  lemma TicksSpanPriceRange(tick: int)
    requires MIN_TICK <= tick <= MAX_TICK
    ensures SqrtRatioAt(MIN_TICK) == MIN_SQRT_PRICE && SqrtRatioAt(MAX_TICK) == MAX_SQRT_PRICE
    ensures InPriceRange(SqrtRatioAt(tick))
  {
    RatioAtMaxTick();
    if tick < MAX_TICK { StrictlyIncreasing(tick, MAX_TICK); }
    if MIN_TICK < tick { StrictlyIncreasing(MIN_TICK, tick); }
  }

  /** Opposite ticks are reciprocal up to the final round-ups. */
  lemma OppositeTicksReciprocal(tick: int)
    requires 0 < tick <= MAX_TICK
    ensures
      var up, down := SqrtRatioAt(tick), SqrtRatioAt(-tick);
      TWO_192 - TWO_64 <= up * down < TWO_192 + up + down
  {
    RatioBounds(tick);
    var r := Ratio(tick);
    var g := (TWO_256 - 1) / r;
    assert TWO_256 - r <= g * r < TWO_256 by {
      FloorBounds(TWO_256 - 1, r);
      Distribute(g, 1, r);
    }
    CeilBounds(r, TWO_32);
    CeilBounds(g, TWO_32);
    ReciprocalProduct(r, g, SqrtRatioAt(tick), SqrtRatioAt(-tick));
  }

  lemma ReciprocalProduct(r: nat, g: nat, up: nat, down: nat)
    requires r <= TWO_128 && TWO_256 - r <= g * r < TWO_256
    requires g <= up * TWO_32 && r <= down * TWO_32
    requires (up - 1) * TWO_32 < g && (down - 1) * TWO_32 < r
    requires up > 0 && down > 0
    ensures TWO_192 - TWO_64 <= up * down < TWO_192 + up + down
  {
    ScaledProduct(up, down, g, r);
    ScaledProduct(up - 1, down - 1, g, r);
    Distribute(up, 1, down);
    Distribute(down, 1, up - 1);
  }

  lemma ScaledProduct(u: nat, d: nat, g: nat, r: nat)
    ensures g <= u * TWO_32 && r <= d * TWO_32 ==> g * r <= (u * d) * TWO_64
    ensures u * TWO_32 <= g && d * TWO_32 <= r ==> (u * d) * TWO_64 <= g * r
  {
    var us, ds := u * TWO_32, d * TWO_32;
    assert us * ds == (u * d) * TWO_64 by {
      Associate(us, d, TWO_32);
      Associate(u, TWO_32, d);
      Associate(u * d, TWO_32, TWO_32);
    }
    if g <= us && r <= ds {
      MulLe(g, us, r);
      MulLe(r, ds, us);
    }
    if us <= g && ds <= r {
      MulLe(us, g, ds);
      MulLe(ds, r, g);
    }
  }

  // ----- The conversion itself -----

  /** Rejects ticks outside the protocol bounds and otherwise computes `SqrtRatioAt`; the products
      wrap at 256 bits. */
  method GetSqrtRatioAtTick(tick: int) returns (r: Result<nat, MarketError>)
    ensures tick < MIN_TICK || tick > MAX_TICK ==> r == Err(InvalidPool)
    ensures MIN_TICK <= tick <= MAX_TICK ==> r == Ok(SqrtRatioAt(tick))
  {
    if tick < MIN_TICK || tick > MAX_TICK {
      return Err(InvalidPool);
    }
    var absTick: nat := if tick < 0 then -tick else tick;
    FactorsCarry();
    FirstFactor(absTick);
    var ratio: nat := if absTick % 2 == 1 then FACTORS[0] else TWO_128;
    ratio := FoldFactors(FACTORS, absTick, ratio);
    r := Ok(Reciprocate(tick, absTick, ratio));
  }

  /** The last steps of the conversion: reciprocal, shift and round up. */
  function Reciprocate(tick: int, absTick: nat, ratio: nat): (result: nat)
    requires MIN_TICK <= tick <= MAX_TICK && absTick == (if tick < 0 then -tick else tick)
    requires ratio == Ratio(absTick)
    ensures result == SqrtRatioAt(tick)
  {
    RatioBounds(absTick);
    var q128 := if tick > 0 then (TWO_256 - 1) / ratio else ratio;
    if q128 % TWO_32 == 0 then q128 / TWO_32 else q128 / TWO_32 + 1
  }

  /** The loop over the constants after the first, applied to `start`. */
  method FoldFactors(table: seq<nat>, absTick: nat, start: nat) returns (ratio: nat)
    requires |table| > 0 && start <= TWO_128 && forall k :: 0 <= k < |table| ==> table[k] < TWO_128
    ensures ratio == FoldFrom(table, absTick / 2, 1, start)
  {
    ratio := start;
    var idx := 1;
    while idx < |table|
      invariant 1 <= idx <= |table|
      invariant ratio <= TWO_128
      invariant FoldFrom(table, ShiftRight(absTick, idx), idx, ratio) == FoldFrom(table, absTick / 2, 1, start)
    {
      if ShiftRight(absTick, idx) % 2 == 1 {
        ScaleWithoutWrap(ratio, table[idx]);
        ratio := ((ratio * table[idx]) % TWO_256) / TWO_128;
      }
      idx := idx + 1;
    }
  }

  function ShiftRight(a: nat, i: nat): nat {
    if i == 0 then a else ShiftRight(a, i - 1) / 2
  }

  lemma ScaleWithoutWrap(x: nat, factor: nat)
    requires x <= TWO_128 && factor < TWO_128
    ensures ((x * factor) % TWO_256) / TWO_128 == Scale(x, factor) <= x
  {
    ScaleShrinks(x, factor);
  }

  lemma FirstFactor(a: nat)
    ensures Ratio(a) == FoldFrom(FACTORS, a / 2, 1, if a % 2 == 1 then FACTORS[0] else TWO_128)
  {
    if a % 2 == 1 {
      assert Scale(TWO_128, FACTORS[0]) == FACTORS[0];
      OddStep(FACTORS, a / 2, 0, TWO_128, FACTORS[0]);
    } else {
      EvenStep(FACTORS, a / 2, 0, TWO_128);
    }
  }
}
