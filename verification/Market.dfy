/** Errors, quotes and checked 256-bit arithmetic shared by the two pool families. */
module Market {
  import opened Common

  datatype MarketError =
    | InvalidPool
    | UnknownToken(poolAddress: Address, token: Address)
    | InsufficientInput
    | InsufficientLiquidity
    | ArithmeticOverflow
    | MissingDecodedField
    | MissingLogIdentity
    | MissingRevertSnapshot(txHash: string, logIndex: U64)

  datatype PoolQuote = PoolQuote(
    poolAddress: Address,
    tokenIn: Address,
    tokenOut: Address,
    amountIn: Amount,
    amountOut: Amount,
    feeBps: U32,
    priceImpactBps: U32)

  /** A product that must fit the given width, or `ArithmeticOverflow`. */
  function CheckedMul(a: nat, b: nat, limit: nat): Result<nat, MarketError> {
    if a * b < limit then Ok(a * b) else Err(ArithmeticOverflow)
  }

  function CheckedAdd(a: nat, b: nat, limit: nat): Result<nat, MarketError> {
    if a + b < limit then Ok(a + b) else Err(ArithmeticOverflow)
  }
}
