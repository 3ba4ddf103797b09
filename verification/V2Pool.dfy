/** Constant-product pools: the fee-adjusted quote, the Sync update and the undo snapshot. */
module V2Pool {
  import opened Common
  import opened Arithmetic
  import opened Market

  const BPS_DENOMINATOR: nat := 10_000

  datatype V2PoolState = V2PoolState(
    address: Address,
    token0: Address,
    token1: Address,
    reserve0: Amount,
    reserve1: Amount,
    feeBps: U32,
    lastUpdatedBlock: Option<U64>)

  datatype V2SyncSnapshot = V2SyncSnapshot(reserve0: Amount, reserve1: Amount, lastUpdatedBlock: Option<U64>)

  predicate Valid(pool: V2PoolState) {
    && pool.token0 != pool.token1
    && pool.reserve0 > 0 && pool.reserve1 > 0
    && pool.feeBps < BPS_DENOMINATOR
  }

  function Validate(pool: V2PoolState): (r: Result<(), MarketError>)
    ensures r.Ok? <==> Valid(pool)
  {
    if pool.token0 == pool.token1 then Err(InvalidPool)
    else if pool.reserve0 == 0 || pool.reserve1 == 0 then Err(InvalidPool)
    else if pool.feeBps >= BPS_DENOMINATOR then Err(InvalidPool)
    else Ok(())
  }

  /** Address, tokens and fee agree; only reserves and the update block may differ. */
  predicate SamePool(a: V2PoolState, b: V2PoolState) {
    a.address == b.address && a.token0 == b.token0 && a.token1 == b.token1 && a.feeBps == b.feeBps
  }

  function ApplySync(pool: V2PoolState, reserve0: Amount, reserve1: Amount, block: Option<U64>)
      : (r: Result<V2PoolState, MarketError>)
    ensures r.Ok? <==> reserve0 > 0 && reserve1 > 0
    ensures r.Ok? ==> SamePool(pool, r.value) && Snapshot(r.value) == V2SyncSnapshot(reserve0, reserve1, block)
    ensures r.Ok? && Valid(pool) ==> Valid(r.value)
  {
    if reserve0 == 0 || reserve1 == 0 then Err(InvalidPool)
    else Ok(pool.(reserve0 := reserve0, reserve1 := reserve1, lastUpdatedBlock := block))
  }

  function Snapshot(pool: V2PoolState): V2SyncSnapshot {
    V2SyncSnapshot(pool.reserve0, pool.reserve1, pool.lastUpdatedBlock)
  }

  function Restore(pool: V2PoolState, snapshot: V2SyncSnapshot): (restored: V2PoolState)
    ensures SamePool(pool, restored) && Snapshot(restored) == snapshot
  {
    pool.(reserve0 := snapshot.reserve0, reserve1 := snapshot.reserve1,
          lastUpdatedBlock := snapshot.lastUpdatedBlock)
  }

  /** Reserves seen from the side of `tokenIn`. */
  function ReserveIn(pool: V2PoolState, tokenIn: Address): Amount {
    if tokenIn == pool.token0 then pool.reserve0 else pool.reserve1
  }

  function ReserveOut(pool: V2PoolState, tokenIn: Address): Amount {
    if tokenIn == pool.token0 then pool.reserve1 else pool.reserve0
  }

  predicate ContainsToken(pool: V2PoolState, token: Address) {
    token == pool.token0 || token == pool.token1
  }

  function OtherToken(pool: V2PoolState, token: Address): Option<Address> {
    if token == pool.token0 then Some(pool.token1)
    else if token == pool.token1 then Some(pool.token0)
    else None
  }

  /** Shortfall of the realized against the quoted price, in basis points, clamped to `u32`. */
  function EstimatePriceImpactBps(reserveIn: nat, reserveOut: nat, amountIn: nat, amountOut: nat)
      : Result<U32, MarketError>
    requires reserveIn > 0
  {
    var quotedNumerator :- CheckedMul(reserveOut, BPS_DENOMINATOR, TWO_128);
    var quoted := FloorDiv(quotedNumerator, reserveIn);
    var realizedNumerator :- CheckedMul(amountOut, BPS_DENOMINATOR, TWO_128);
    var realized := FloorDiv(realizedNumerator, if amountIn == 0 then 1 else amountIn);
    if quoted == 0 || realized >= quoted then Ok(0) else
    var scaled :- CheckedMul(quoted - realized, BPS_DENOMINATOR, TWO_128);
    var impact := FloorDiv(scaled, quoted);
    Ok(if impact > U32_MAX then U32_MAX else impact)
  }

  function QuoteExactIn(pool: V2PoolState, tokenIn: Address, amountIn: Amount): Result<PoolQuote, MarketError>
    requires Valid(pool)
  {
    if amountIn == 0 then Err(InsufficientInput)
    else if !ContainsToken(pool, tokenIn) then Err(UnknownToken(pool.address, tokenIn))
    else
      var reserveIn, reserveOut := ReserveIn(pool, tokenIn), ReserveOut(pool, tokenIn);
      var withFee :- CheckedMul(amountIn, BPS_DENOMINATOR - pool.feeBps, TWO_128);
      var numerator :- CheckedMul(withFee, reserveOut, TWO_128);
      var scaledReserve :- CheckedMul(reserveIn, BPS_DENOMINATOR, TWO_128);
      var denominator :- CheckedAdd(scaledReserve, withFee, TWO_128);
      var amountOut := FloorDiv(numerator, denominator);
      if amountOut == 0 then Err(InsufficientLiquidity) else
      var impact :- EstimatePriceImpactBps(reserveIn, reserveOut, amountIn, amountOut);
      Ok(PoolQuote(pool.address, tokenIn, if tokenIn == pool.token0 then pool.token1 else pool.token0,
                   amountIn, amountOut, pool.feeBps, impact))
  }
}
