/** What the in-range quote guarantees: arithmetic safety, exactly when it is given, and agreement with
    the reference implementation of the swap step. */
module V3Quote {
  import opened Common
  import opened Arithmetic
  import opened Market
  import opened V3Pool
  import opened V3Arithmetic

  // ----- The values a quote computes, without overflow checks -----

  /** Input net of fee. */
  function NetInput(feePips: nat, amountIn: nat): nat
    requires feePips < FEE_PIPS_DENOMINATOR
  {
    MulDiv(amountIn, FEE_PIPS_DENOMINATOR - feePips, FEE_PIPS_DENOMINATOR)
  }

  /** Post-swap price. */
  function NextPrice(s: nat, liquidity: nat, amount: nat, zeroForOne: bool): nat
    requires s > 0 && liquidity > 0 && amount > 0
  {
    if zeroForOne
    then CeilDiv(liquidity * Q96, (liquidity * Q96) / s + amount)
    else s + MulDiv(amount, Q96, liquidity)
  }

  /** Distance between two prices. */
  function Moved(s: nat, next: nat): nat {
    if next <= s then s - next else next - s
  }

  // ----- Arithmetic safety -----

  /** For every in-range price, positive liquidity and positive net input, the price computation
      never overflows, token0 input never raises the price and token1 input never lowers it. */
  lemma PriceStepNeverOverflows(s: nat, liquidity: nat, amount: nat, zeroForOne: bool)
    requires InPriceRange(s) && 0 < liquidity < TWO_128 && 0 < amount < TWO_128
    ensures NextSqrtPrice(s, liquidity, amount, zeroForOne)
         == Ok(NextPrice(s, liquidity, amount, zeroForOne))
    ensures zeroForOne ==> 0 < NextPrice(s, liquidity, amount, zeroForOne) <= s
    ensures !zeroForOne ==> s <= NextPrice(s, liquidity, amount, zeroForOne) <= s + amount * Q96
  {
    if zeroForOne {
      TokenZeroStep(s, liquidity, amount);
    } else {
      TokenOneStep(s, liquidity, amount);
    }
  }

  lemma TokenZeroStep(s: nat, liquidity: nat, amount: nat)
    requires InPriceRange(s) && 0 < liquidity < TWO_128 && 0 < amount < TWO_128
    ensures NextSqrtPrice(s, liquidity, amount, true) == Ok(NextPrice(s, liquidity, amount, true))
    ensures 0 < NextPrice(s, liquidity, amount, true) <= s
  {
    PriceStepDown(s, liquidity * Q96, amount);
  }

  lemma TokenOneStep(s: nat, liquidity: nat, amount: nat)
    requires InPriceRange(s) && 0 < liquidity < TWO_128 && 0 < amount < TWO_128
    ensures NextSqrtPrice(s, liquidity, amount, false) == Ok(NextPrice(s, liquidity, amount, false))
    ensures s <= NextPrice(s, liquidity, amount, false) <= s + amount * Q96
  {
    ScaledFits(amount);
    ScaledFits(liquidity);
    assert CheckedMul(liquidity, Q96, TWO_256).Ok?;
    assert CheckedMul(amount, Q96, TWO_256) == Ok(amount * Q96);
    PriceStepUp(s, amount, liquidity);
  }

  lemma ScaledFits(x: nat)
    requires x < TWO_128
    ensures 0 <= x * Q96 < TWO_224
  {}

  lemma PriceStepUp(s: nat, amount: nat, liquidity: nat)
    requires InPriceRange(s) && 0 <= amount * Q96 < TWO_224 && liquidity > 0
    ensures CheckedAdd(s, MulDiv(amount, Q96, liquidity), TWO_256) == Ok(s + MulDiv(amount, Q96, liquidity))
    ensures MulDiv(amount, Q96, liquidity) <= amount * Q96
  {
    FloorShrinks(amount * Q96, liquidity);
  }

  lemma PriceStepDown(s: nat, n: nat, amount: nat)
    requires s > 0 && 0 < n < TWO_224 && 0 < amount < TWO_128
    ensures n / s + amount < TWO_256
    ensures DivRoundUp(n, n / s + amount) == Ok(CeilDiv(n, n / s + amount))
    ensures 0 < CeilDiv(n, n / s + amount) <= s
  {
    FloorShrinks(n, s);
    FloorShrinks(n, n / s + amount);
    NextDownFalls(n, s, amount);
    CeilPositive(n, n / s + amount);
  }

  /** The unchecked product of the impact estimate never wraps, and the estimate passes the cap
      exactly when the price moved by less than 501/20000 of itself. */
  lemma ImpactCapExact(s: nat, next: nat, zeroForOne: bool)
    requires InPriceRange(s) && next < TWO_160 + TWO_224
    requires if zeroForOne then next <= s else s <= next
    ensures Moved(s, next) * 20_000 < TWO_256
    ensures PriceImpactBps(s, next, zeroForOne) <= MAX_IN_RANGE_IMPACT_BPS
       <==> 20_000 * Moved(s, next) < 501 * s
  {
    var scaled := Moved(s, next) * 20_000;
    if Moved(s, next) > 0 {
      assert scaled % TWO_256 == scaled;
      FloorLargest(scaled, s, 501);
    }
  }

  /** The output of a move between two prices, over unbounded integers. */
  function Released(s: nat, next: nat, liquidity: nat, zeroForOne: bool): nat
    requires s > 0
  {
    MulNonNeg(liquidity, Moved(s, next));
    if zeroForOne then MulDiv(liquidity, Moved(s, next), Q96)
    else if next == 0 then 0
    else
      MulLt(0, next, s);
      MulDiv(liquidity * Moved(s, next), Q96, s * next)
  }

  /** The checked 256-bit products of the output fit. Token0 input needs nothing beyond the bound on
      the output itself. */
  predicate ProductsFit(s: nat, next: nat, liquidity: nat, zeroForOne: bool) {
    !zeroForOne ==> liquidity * Moved(s, next) < TWO_160 && s * next < TWO_256
  }

  /** The checked output computation succeeds with a nonzero `u128` exactly when the products fit
      and the unbounded output is in range, and then it is that output. */
  lemma OutputExactly(s: nat, next: nat, liquidity: nat, zeroForOne: bool)
    requires s > 0 && next > 0
    requires if zeroForOne then next <= s else s <= next
    ensures
      var out, exact := AmountOut(s, next, liquidity, zeroForOne), Released(s, next, liquidity, zeroForOne);
      && (out.Ok? && 0 < out.value < TWO_128 <==>
            ProductsFit(s, next, liquidity, zeroForOne) && 0 < exact < TWO_128)
      && (out.Ok? ==> out.value == exact)
  {
    if zeroForOne {
      TokenOneOutput(s, next, liquidity);
    } else {
      TokenZeroOutput(s, next, liquidity);
    }
  }

  lemma TokenOneOutput(s: nat, next: nat, liquidity: nat)
    requires 0 < next <= s
    ensures
      var out, exact := AmountOut(s, next, liquidity, true), MulDiv(liquidity, s - next, Q96);
      (exact < TWO_128 ==> out == Ok(exact)) && (out.Ok? ==> out.value == exact)
  {
    MulNonNeg(liquidity, s - next);
    var product := liquidity * (s - next);
    if product / Q96 < TWO_128 {
      FloorBounds(product, Q96);
    }
  }

  lemma TokenZeroOutput(s: nat, next: nat, liquidity: nat)
    requires 0 < s <= next
    ensures AmountOut(s, next, liquidity, false).Ok? <==> ProductsFit(s, next, liquidity, false)
    ensures AmountOut(s, next, liquidity, false).Ok? ==>
              AmountOut(s, next, liquidity, false).value == Released(s, next, liquidity, false)
  {
    MulNonNeg(liquidity, next - s);
    MulLt(0, next, s);
  }

  /** The price after the net input, or the current price where there is no step to take. */
  function StepPrice(pool: V3PoolState, tokenIn: Address, amountIn: nat): nat
    requires InRange(pool)
  {
    if pool.liquidity == 0 || NetInput(pool.feePips, amountIn) == 0 then pool.sqrtPriceX96
    else NextPrice(pool.sqrtPriceX96, pool.liquidity, NetInput(pool.feePips, amountIn), tokenIn == pool.token0)
  }

  /** When a quote can be given: liquidity and a net input, in one of the pool's tokens; a fee product
      that fits 128 bits; a price move within the cap; output products that fit 256 bits; and a
      nonzero output of at most 128 bits. */
  ghost predicate Quotable(pool: V3PoolState, tokenIn: Address, amountIn: Amount)
    requires InRange(pool)
  {
    var s, zeroForOne, next := pool.sqrtPriceX96, tokenIn == pool.token0, StepPrice(pool, tokenIn, amountIn);
    && pool.liquidity > 0 && (tokenIn == pool.token0 || tokenIn == pool.token1)
    && amountIn * (FEE_PIPS_DENOMINATOR - pool.feePips) < TWO_128 && NetInput(pool.feePips, amountIn) > 0
    && 20_000 * Moved(s, next) < 501 * s
    && ProductsFit(s, next, pool.liquidity, zeroForOne)
    && 0 < Released(s, next, pool.liquidity, zeroForOne) < TWO_128
  }

  /** The exact success condition of a quote, in arithmetic over its inputs, and its output. */
  lemma QuoteSucceedsExactly(pool: V3PoolState, tokenIn: Address, amountIn: Amount)
    requires InRange(pool)
    ensures QuoteExactIn(pool, tokenIn, amountIn).Ok? <==> Quotable(pool, tokenIn, amountIn)
    ensures
      var s, zeroForOne, next := pool.sqrtPriceX96, tokenIn == pool.token0, StepPrice(pool, tokenIn, amountIn);
      QuoteExactIn(pool, tokenIn, amountIn).Ok? ==>
        var quote := QuoteExactIn(pool, tokenIn, amountIn).value;
        && 0 < next && (if zeroForOne then next <= s else s <= next)
        && quote.amountOut == Released(s, next, pool.liquidity, zeroForOne)
        && quote.tokenOut == (if zeroForOne then pool.token1 else pool.token0)
  {
    if pool.liquidity > 0 && NetInput(pool.feePips, amountIn) > 0 {
      StepAndOutput(pool, tokenIn == pool.token0, amountIn);
    } else {
      NetInputOfZero(pool.feePips);
    }
  }

  lemma NetInputOfZero(feePips: nat)
    requires feePips < FEE_PIPS_DENOMINATOR
    ensures NetInput(feePips, 0) == 0
  {}

  /** What the price step and the output computation give for a positive net input. */
  lemma StepAndOutput(pool: V3PoolState, zeroForOne: bool, amountIn: Amount)
    requires InRange(pool) && pool.liquidity > 0 && NetInput(pool.feePips, amountIn) > 0
    ensures
      var s, amount := pool.sqrtPriceX96, NetInput(pool.feePips, amountIn);
      var next := NextPrice(s, pool.liquidity, amount, zeroForOne);
      && NextSqrtPrice(s, pool.liquidity, amount, zeroForOne) == Ok(next)
      && 0 < next && (if zeroForOne then next <= s else s <= next)
      && (PriceImpactBps(s, next, zeroForOne) <= MAX_IN_RANGE_IMPACT_BPS <==> 20_000 * Moved(s, next) < 501 * s)
      && var out, exact := AmountOut(s, next, pool.liquidity, zeroForOne), Released(s, next, pool.liquidity, zeroForOne);
      && (out.Ok? && 0 < out.value < TWO_128 <==>
            ProductsFit(s, next, pool.liquidity, zeroForOne) && 0 < exact < TWO_128)
      && (out.Ok? ==> out.value == exact)
  {
    var s, amount := pool.sqrtPriceX96, NetInput(pool.feePips, amountIn);
    NetInputBounded(pool.feePips, amountIn);
    PriceStepNeverOverflows(s, pool.liquidity, amount, zeroForOne);
    var next := NextPrice(s, pool.liquidity, amount, zeroForOne);
    ScaledFits(amount);
    ImpactCapExact(s, next, zeroForOne);
    OutputExactly(s, next, pool.liquidity, zeroForOne);
  }

  lemma NetInputBounded(feePips: nat, amountIn: nat)
    requires feePips < FEE_PIPS_DENOMINATOR
    ensures NetInput(feePips, amountIn) <= amountIn
  {
    var kept := FEE_PIPS_DENOMINATOR - feePips;
    MulNonNeg(amountIn, kept);
    MulLe(kept, FEE_PIPS_DENOMINATOR, amountIn);
    FloorBounds(amountIn * kept, FEE_PIPS_DENOMINATOR);
    CancelLe((amountIn * kept) / FEE_PIPS_DENOMINATOR, amountIn, FEE_PIPS_DENOMINATOR);
  }

  /** The values behind a successful quote. */
  lemma QuoteParts(pool: V3PoolState, tokenIn: Address, amountIn: Amount)
    requires InRange(pool) && QuoteExactIn(pool, tokenIn, amountIn).Ok?
    ensures pool.liquidity > 0 && (tokenIn == pool.token0 || tokenIn == pool.token1)
    ensures 0 < NetInput(pool.feePips, amountIn) <= amountIn
    ensures
      var s, zeroForOne := pool.sqrtPriceX96, tokenIn == pool.token0;
      var next := NextPrice(s, pool.liquidity, NetInput(pool.feePips, amountIn), zeroForOne);
      && 20_000 * Moved(s, next) < 501 * s
      && (if zeroForOne then 0 < next <= s else s <= next)
      && AmountOut(s, next, pool.liquidity, zeroForOne)
           == Ok(QuoteExactIn(pool, tokenIn, amountIn).value.amountOut)
  {
    NetInputBounded(pool.feePips, amountIn);
    QuoteSucceedsExactly(pool, tokenIn, amountIn);
    PriceStepNeverOverflows(pool.sqrtPriceX96, pool.liquidity, NetInput(pool.feePips, amountIn),
                            tokenIn == pool.token0);
  }

  /** The price the pool holds once the quoted swap has executed. */
  function PostSwapPrice(pool: V3PoolState, tokenIn: Address, amountIn: Amount): nat
    requires InRange(pool) && QuoteExactIn(pool, tokenIn, amountIn).Ok?
  {
    QuoteParts(pool, tokenIn, amountIn);
    NextPrice(pool.sqrtPriceX96, pool.liquidity, NetInput(pool.feePips, amountIn), tokenIn == pool.token0)
  }

  // ----- Token1 input that is refused for its size -----

  /** Token1 input is only ever quoted below price 2^128, and only up to a net input of
      2^64 + 2^32 - 1: beyond either the 256-bit products overflow. */
  lemma TokenOneQuoteIsSmall(pool: V3PoolState, amountIn: Amount)
    requires InRange(pool) && QuoteExactIn(pool, pool.token1, amountIn).Ok?
    ensures pool.sqrtPriceX96 < TWO_128 && PostSwapPrice(pool, pool.token1, amountIn) < TWO_160
    ensures NetInput(pool.feePips, amountIn) < TWO_64 + TWO_32
  {
    QuoteParts(pool, pool.token1, amountIn);
    var s, next := pool.sqrtPriceX96, PostSwapPrice(pool, pool.token1, amountIn);
    TokenZeroOutput(s, next, pool.liquidity);
    if s >= TWO_128 {
      MulLe(TWO_128, s, TWO_128);
      MulLe(TWO_128, next, s);
    }
    NumeratorBySize(pool.liquidity, NetInput(pool.feePips, amountIn));
  }

  /** The numerator fits for every net token1 input below 2^64, at every price and liquidity, and for
      none from 2^64 + 2^32 up. */
  lemma NumeratorBySize(liquidity: nat, amount: nat)
    requires 0 < liquidity < TWO_128
    ensures amount < TWO_64 ==> liquidity * MulDiv(amount, Q96, liquidity) < TWO_160
    ensures amount >= TWO_64 + TWO_32 ==> liquidity * MulDiv(amount, Q96, liquidity) >= TWO_160
  {
    var moved := MulDiv(amount, Q96, liquidity);
    FloorBounds(amount * Q96, liquidity);
    Distribute(moved, 1, liquidity);
  }

  /** A whole family of ordinary inputs: a net token1 input of 2^64 + 2^32 or more is refused in every
      pool. */
  lemma LargeTokenOneInputRefused(pool: V3PoolState, amountIn: Amount)
    requires InRange(pool) && pool.liquidity > 0 && NetInput(pool.feePips, amountIn) >= TWO_64 + TWO_32
    ensures QuoteExactIn(pool, pool.token1, amountIn).Err?
  {
    if QuoteExactIn(pool, pool.token1, amountIn).Ok? {
      TokenOneQuoteIsSmall(pool, amountIn);
    }
  }

  const TWO_16: nat := 0x1_0000
  const TWO_80: nat := 0x1_0000_0000_0000_0000_0000
  const HUNDRED_TOKENS: Amount := 100_000_000_000_000_000_000

  /** At price one with liquidity 2^80 and a fee of 0.3%, a hundred tokens of eighteen decimals
      overflow here, while the reference step swaps them. */
  lemma HundredTokensOverflow(pool: V3PoolState)
    requires pool == V3PoolState("pool", "a", "b", 3000, 60, TWO_96, TWO_80, 0, None)
    ensures InRange(pool) && QuoteExactIn(pool, "b", HUNDRED_TOKENS) == Err(ArithmeticOverflow)
    ensures NetInput(3000, HUNDRED_TOKENS) > 0 && ReferenceAmountOut(pool, false, HUNDRED_TOKENS).Some?
  {
    var net := 99_700_000_000_000_000_000;
    assert NetInput(3000, HUNDRED_TOKENS) == net;
    assert MulDiv(net, Q96, TWO_80) == net * TWO_16;
  }

  // ----- The reference swap step (Uniswap v3-core SwapMath and SqrtPriceMath) -----

  /** `getNextSqrtPriceFromInput`: rounded up for token0, with the divisor-first fallback when the
      256-bit product or sum overflows; rounded down for token1, reverting beyond 160 bits. */
  function ReferenceNext(s: nat, liquidity: nat, amount: nat, zeroForOne: bool): Option<nat>
    requires s > 0 && liquidity > 0 && amount > 0
  {
    var n := liquidity * Q96;
    MulNonNeg(n, s);
    MulNonNeg(amount, s);
    if zeroForOne then
      if amount * s < TWO_256 && n + amount * s < TWO_256
      then Some(CeilDiv(n * s, n + amount * s))
      else Some(CeilDiv(n, n / s + amount))
    else
      var next := s + MulDiv(amount, Q96, liquidity);
      if next < TWO_160 then Some(next) else None
  }

  /** `getAmount1Delta` and `getAmount0Delta`, rounded down; `mulDiv` has a 512-bit intermediate. */
  function ReferenceDelta(s: nat, next: nat, liquidity: nat, zeroForOne: bool): nat
    requires s > 0 && next > 0
    requires if zeroForOne then next <= s else s <= next
  {
    if zeroForOne
    then MulDiv(liquidity, s - next, Q96)
    else MulDiv(liquidity * Q96, next - s, next) / s
  }

  /** The output of the within-tick branch of `computeSwapStep`, or None where it reverts. */
  function ReferenceAmountOut(pool: V3PoolState, zeroForOne: bool, amountIn: nat): Option<nat>
    requires InRange(pool) && pool.liquidity > 0 && NetInput(pool.feePips, amountIn) > 0
  {
    var s, amount := pool.sqrtPriceX96, NetInput(pool.feePips, amountIn);
    var next :- ReferenceNext(s, pool.liquidity, amount, zeroForOne);
    if next == 0 || (zeroForOne && next > s) || (!zeroForOne && next < s) then None
    else Some(ReferenceDelta(s, next, pool.liquidity, zeroForOne))
  }

  /** The engine never over-quotes. A successful quote is backed by a reference result: equal to it
      for token1 input, and for token0 input below it by a gap with
      (gap - 1) * 2^192 < S^2 + L * 2^96. */
  lemma NeverOverQuotes(pool: V3PoolState, tokenIn: Address, amountIn: Amount)
    requires InRange(pool) && QuoteExactIn(pool, tokenIn, amountIn).Ok?
    ensures pool.liquidity > 0 && NetInput(pool.feePips, amountIn) > 0
    ensures
      var zeroForOne, out := tokenIn == pool.token0, QuoteExactIn(pool, tokenIn, amountIn).value.amountOut;
      var reference := ReferenceAmountOut(pool, zeroForOne, amountIn);
      && reference.Some?
      && out <= reference.value
      && (!zeroForOne ==> out == reference.value)
      && (reference.value - out - 1) * (Q96 * Q96)
           < pool.sqrtPriceX96 * pool.sqrtPriceX96 + pool.liquidity * Q96
  {
    QuoteParts(pool, tokenIn, amountIn);
    var s, liquidity, amount := pool.sqrtPriceX96, pool.liquidity, NetInput(pool.feePips, amountIn);
    if tokenIn == pool.token0 {
      TokenZeroAgainstReference(s, liquidity, amount);
    } else {
      TokenOneQuoteIsSmall(pool, amountIn);
      TokenOneAgainstReference(s, NextPrice(s, liquidity, amount, false), liquidity);
    }
  }

  lemma TokenZeroAgainstReference(s: nat, liquidity: nat, amount: nat)
    requires s > 0 && liquidity > 0 && amount > 0
    ensures
      var next, reference := NextPrice(s, liquidity, amount, true), ReferenceNext(s, liquidity, amount, true).value;
      && 0 < reference <= next <= s
      && var out, exact := MulDiv(liquidity, s - next, Q96), ReferenceDelta(s, reference, liquidity, true);
      && out <= exact
      && (exact - out - 1) * (Q96 * Q96) < s * s + liquidity * Q96
  {
    var n := liquidity * Q96;
    var next, reference := NextPrice(s, liquidity, amount, true), ReferenceNext(s, liquidity, amount, true).value;
    ReferencePriceGap(s, n, amount, next, reference);
    OutputGap(liquidity, Q96, s, next, reference, MulDiv(liquidity, s - next, Q96),
              MulDiv(liquidity, s - reference, Q96));
  }

  lemma ReferencePriceGap(s: nat, n: nat, amount: nat, next: nat, reference: nat)
    requires s > 0 && n > 0 && amount > 0
    requires next == CeilDiv(n, n / s + amount)
    requires reference == next || reference == CeilDiv(n * s, n + amount * s)
    ensures 0 < reference <= next <= s
    ensures (next - reference - 1) * n < s * s
  {
    NextDownFalls(n, s, amount);
    if reference == next {
      CeilPositive(n, n / s + amount);
      MulLt(0, s, s);
    } else {
      NextDownAboveExact(n, s, amount);
      NextDownGap(n, s, amount, next, reference);
      MulLt(0, n, s);
      CeilPositive(n * s, n + amount * s);
    }
  }

  lemma TokenOneAgainstReference(s: nat, next: nat, liquidity: nat)
    requires 0 < s <= next && AmountOut(s, next, liquidity, false).Ok?
    ensures AmountOut(s, next, liquidity, false).value == ReferenceDelta(s, next, liquidity, false)
    ensures -1 * (Q96 * Q96) < s * s + liquidity * Q96
  {
    var n := (liquidity * Q96) * (next - s);
    Associate(liquidity, next - s, Q96);
    MulLt(0, next, s);
    NestedFloor(n, next, s);
    MulLt(0, s, s);
  }

  // ----- Executing a quote -----

  /** The pool after the quoted swap: the post-swap price is adopted, liquidity is unchanged. */
  function AfterSwap(pool: V3PoolState, tokenIn: Address, amountIn: Amount): V3PoolState
    requires InRange(pool) && QuoteExactIn(pool, tokenIn, amountIn).Ok?
  {
    QuoteParts(pool, tokenIn, amountIn);
    pool.(sqrtPriceX96 := PostSwapPrice(pool, tokenIn, amountIn))
  }
}
