/** The tick-spacing boundary and the quote: the quote does not look at it. */
module V3Spacing {
  import opened Common
  import opened Arithmetic
  import opened V3Pool
  import opened V3Quote
  import T = TickMath

  /** The nearest multiples of the spacing around the current tick. */
  function BoundaryBelow(pool: V3PoolState): int
    requires InRange(pool)
  {
    (pool.tick / pool.tickSpacing) * pool.tickSpacing
  }

  function BoundaryAbove(pool: V3PoolState): int
    requires InRange(pool)
  {
    BoundaryBelow(pool) + pool.tickSpacing
  }

  /** The post-swap price lies strictly outside the current spacing interval. */
  ghost predicate Crosses(pool: V3PoolState, tokenIn: Address, amountIn: nat)
    requires InRange(pool) && T.MIN_TICK <= BoundaryBelow(pool) && BoundaryAbove(pool) <= T.MAX_TICK
  {
    var next := StepPrice(pool, tokenIn, amountIn);
    next < T.SqrtRatioAt(BoundaryBelow(pool)) || T.SqrtRatioAt(BoundaryAbove(pool)) < next
  }

  /** Changing tick and spacing changes no quote. */
  lemma SpacingIsIgnored(pool: V3PoolState, tick: int, spacing: int, tokenIn: Address, amountIn: Amount)
    requires InRange(pool) && spacing > 0
    ensures QuoteExactIn(pool.(tick := tick, tickSpacing := spacing), tokenIn, amountIn)
         == QuoteExactIn(pool, tokenIn, amountIn)
  {}

  /** The current price lies inside its spacing interval. */
  predicate Inside(pool: V3PoolState)
    requires InRange(pool)
  {
    && T.MIN_TICK <= BoundaryBelow(pool) && BoundaryAbove(pool) <= T.MAX_TICK
    && T.SqrtRatioAt(BoundaryBelow(pool)) <= pool.sqrtPriceX96 <= T.SqrtRatioAt(BoundaryAbove(pool))
  }

  /** An input that crosses has liquidity and a net input to cross with; it is quoted all the same
      exactly when its fee product fits, its move is within the impact cap, and its output products
      and output are in range. */
  lemma CrossingQuotedExactly(pool: V3PoolState, tokenIn: Address, amountIn: Amount)
    requires InRange(pool) && Inside(pool) && Crosses(pool, tokenIn, amountIn)
    requires tokenIn == pool.token0 || tokenIn == pool.token1
    ensures
      var s, zeroForOne, next := pool.sqrtPriceX96, tokenIn == pool.token0, StepPrice(pool, tokenIn, amountIn);
      QuoteExactIn(pool, tokenIn, amountIn).Ok? <==>
        && amountIn * (FEE_PIPS_DENOMINATOR - pool.feePips) < TWO_128
        && 20_000 * Moved(s, next) < 501 * s
        && ProductsFit(s, next, pool.liquidity, zeroForOne)
        && 0 < Released(s, next, pool.liquidity, zeroForOne) < TWO_128
  {
    QuoteSucceedsExactly(pool, tokenIn, amountIn);
  }

  /** A boundary at least 501/20000 of the price away is never crossed by a quote. */
  lemma FarBoundaryIsNeverCrossed(pool: V3PoolState, tokenIn: Address, amountIn: Amount)
    requires InRange(pool) && Inside(pool)
    requires 20_000 * Moved(pool.sqrtPriceX96, T.SqrtRatioAt(BoundaryBelow(pool))) >= 501 * pool.sqrtPriceX96
    requires 20_000 * Moved(pool.sqrtPriceX96, T.SqrtRatioAt(BoundaryAbove(pool))) >= 501 * pool.sqrtPriceX96
    requires QuoteExactIn(pool, tokenIn, amountIn).Ok?
    ensures !Crosses(pool, tokenIn, amountIn)
  {
    QuoteSucceedsExactly(pool, tokenIn, amountIn);
  }

  /** A quote across a boundary: at price one with spacing 1, selling a thousandth of the liquidity
      passes the next tick and is quoted. */
  lemma QuoteAcrossSpacing(pool: V3PoolState, amountIn: Amount)
    requires pool == V3PoolState("pool", "a", "b", 100, 1, TWO_96, 1_000_000_000_000_000_000, 0, None)
    requires amountIn == 1_000_000_000_000_000
    ensures InRange(pool) && BoundaryBelow(pool) == 0 && BoundaryAbove(pool) == 1
    ensures Crosses(pool, "b", amountIn) && QuoteExactIn(pool, "b", amountIn).Ok?
  {
    ThousandthMoves(pool, amountIn);
    FirstTickPrice(BoundaryAbove(pool));
    QuoteSucceedsExactly(pool, "b", amountIn);
  }

  /** The price after that sale: above 79.3 * 10^27, with everything else in bounds. */
  lemma ThousandthMoves(pool: V3PoolState, amountIn: Amount)
    requires pool == V3PoolState("pool", "a", "b", 100, 1, TWO_96, 1_000_000_000_000_000_000, 0, None)
    requires amountIn == 1_000_000_000_000_000
    ensures StepPrice(pool, "b", amountIn) > 79_300_000_000_000_000_000_000_000_000
    ensures Quotable(pool, "b", amountIn)
  {
    assert NetInput(100, amountIn) == 999_900_000_000_000;
  }

  lemma FirstTickPrice(tick: int)
    requires tick == 1
    ensures T.SqrtRatioAt(tick) < 79_300_000_000_000_000_000_000_000_000
  {
    T.FirstTickRatio(tick, 1);
    ReciprocalOfFirst(T.Ratio(tick), 79_300_000_000_000_000_000_000_000_000);
  }

  lemma ReciprocalOfFirst(ratio: nat, bound: nat)
    requires ratio == 0xfffcb933bd6fad37aa2d162d1a594001 && bound == 79_300_000_000_000_000_000_000_000_000
    ensures CeilDiv((TWO_256 - 1) / ratio, TWO_32) < bound
  {}
}
