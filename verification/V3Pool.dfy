/** Concentrated-liquidity pools: the in-range exact-input quote and the Swap-log update. */
module V3Pool {
  import opened Common
  import opened Market

  const FEE_PIPS_DENOMINATOR: nat := 1_000_000
  const MAX_IN_RANGE_IMPACT_BPS: nat := 500
  const Q96: nat := TWO_96
  const MIN_SQRT_PRICE: nat := 4295128739
  const MAX_SQRT_PRICE: nat := 1461446703485210103287273052203988822378723970342

  datatype V3PoolState = V3PoolState(
    address: Address,
    token0: Address,
    token1: Address,
    feePips: U32,
    tickSpacing: int,
    sqrtPriceX96: U256,
    liquidity: Amount,
    tick: int,
    lastUpdatedBlock: Option<U64>)

  predicate InPriceRange(sqrtPrice: nat) {
    MIN_SQRT_PRICE <= sqrtPrice <= MAX_SQRT_PRICE
  }

  /** What every pool in the book satisfies: `Validate` without positive liquidity, which a Swap log
      may take away. */
  predicate InRange(pool: V3PoolState) {
    && pool.token0 != pool.token1
    && pool.feePips < FEE_PIPS_DENOMINATOR
    && pool.tickSpacing > 0
    && InPriceRange(pool.sqrtPriceX96)
  }

  function Validate(pool: V3PoolState): (r: Result<(), MarketError>)
    ensures r.Ok? <==> InRange(pool) && pool.liquidity > 0
  {
    if pool.token0 == pool.token1 then Err(InvalidPool)
    else if pool.feePips >= FEE_PIPS_DENOMINATOR then Err(InvalidPool)
    else if pool.tickSpacing <= 0 then Err(InvalidPool)
    else if pool.sqrtPriceX96 < MIN_SQRT_PRICE || pool.sqrtPriceX96 > MAX_SQRT_PRICE then Err(InvalidPool)
    else if pool.liquidity == 0 then Err(InsufficientLiquidity)
    else Ok(())
  }

  /** The input after the fee, which is taken on the way in; the product is a checked `u128`. */
  function AmountLessFee(feePips: nat, amountIn: nat): Result<nat, MarketError>
    requires feePips < FEE_PIPS_DENOMINATOR
  {
    var scaled :- CheckedMul(amountIn, FEE_PIPS_DENOMINATOR - feePips, TWO_128);
    Ok(scaled / FEE_PIPS_DENOMINATOR)
  }

  function DivRoundUp(numerator: nat, denominator: nat): Result<nat, MarketError> {
    if denominator == 0 then Err(ArithmeticOverflow)
    else if numerator % denominator == 0 then Ok(numerator / denominator)
    else CheckedAdd(numerator / denominator, 1, TWO_256)
  }

  /** The price after `amount` (net of fee) enters the pool. */
  function NextSqrtPrice(sqrtPrice: nat, liquidity: nat, amount: nat, zeroForOne: bool)
      : Result<nat, MarketError>
    requires sqrtPrice > 0 && liquidity > 0
  {
    var numerator1 :- CheckedMul(liquidity, Q96, TWO_256);
    if zeroForOne then
      var divisor :- CheckedAdd(numerator1 / sqrtPrice, amount, TWO_256);
      DivRoundUp(numerator1, divisor)
    else
      var scaled :- CheckedMul(amount, Q96, TWO_256);
      CheckedAdd(sqrtPrice, scaled / liquidity, TWO_256)
  }

  /** Price impact in basis points. The product is a wrapping 256-bit multiplication. */
  function PriceImpactBps(before: nat, after: nat, zeroForOne: bool): U32
    requires before > 0
  {
    if zeroForOne && after >= before then 0
    else if !zeroForOne && after <= before then 0
    else
      var moved: nat := if zeroForOne then before - after else after - before;
      var bps := ((moved * 20_000) % TWO_256) / before;
      if bps > U32_MAX then U32_MAX else bps
  }

  /** The output released by the move from `sqrtPrice` to `next`. */
  function AmountOut(sqrtPrice: nat, next: nat, liquidity: nat, zeroForOne: bool)
      : Result<nat, MarketError>
  {
    if zeroForOne then
      if sqrtPrice < next then Err(ArithmeticOverflow) else
      var product :- CheckedMul(liquidity, sqrtPrice - next, TWO_256);
      Ok(product / Q96)
    else
      if next < sqrtPrice then Err(ArithmeticOverflow) else
      var product :- CheckedMul(liquidity, next - sqrtPrice, TWO_256);
      var numerator :- CheckedMul(product, Q96, TWO_256);
      var denominator :- CheckedMul(sqrtPrice, next, TWO_256);
      // the source divides here; a zero denominator cannot arise from a positive price
      if denominator == 0 then Err(ArithmeticOverflow) else
      Ok(numerator / denominator)
  }

  function QuoteExactIn(pool: V3PoolState, tokenIn: Address, amountIn: Amount): Result<PoolQuote, MarketError>
    requires InRange(pool)
  {
    if amountIn == 0 then Err(InsufficientInput)
    else if pool.liquidity == 0 then Err(InsufficientLiquidity)
    else if tokenIn != pool.token0 && tokenIn != pool.token1 then Err(UnknownToken(pool.address, tokenIn))
    else
      var zeroForOne := tokenIn == pool.token0;
      var amount :- AmountLessFee(pool.feePips, amountIn);
      if amount == 0 then Err(InsufficientInput) else
      var next :- NextSqrtPrice(pool.sqrtPriceX96, pool.liquidity, amount, zeroForOne);
      var impact := PriceImpactBps(pool.sqrtPriceX96, next, zeroForOne);
      if impact > MAX_IN_RANGE_IMPACT_BPS then Err(InsufficientLiquidity) else
      var out :- AmountOut(pool.sqrtPriceX96, next, pool.liquidity, zeroForOne);
      if out >= TWO_128 then Err(ArithmeticOverflow)
      else if out == 0 then Err(InsufficientLiquidity)
      else
        var feeBps := if pool.feePips % 100 == 0 then pool.feePips / 100 else pool.feePips / 100 + 1;
        Ok(PoolQuote(pool.address, tokenIn, if zeroForOne then pool.token1 else pool.token0,
                     amountIn, out, feeBps, impact))
  }
}
