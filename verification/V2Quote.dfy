/** What the constant-product quote guarantees: optimality, bounded impact, and that no way of
    trading through one pool beats a single swap or extracts value. */
module V2Quote {
  import opened Common
  import opened Arithmetic
  import opened V2Pool
  import opened V2Arithmetic

  /** Input after the fee, scaled by 10000. */
  function WithFee(pool: V2PoolState, amountIn: nat): nat
    requires Valid(pool)
  {
    MulNonNeg(amountIn, BPS_DENOMINATOR - pool.feeBps);
    amountIn * (BPS_DENOMINATOR - pool.feeBps)
  }

  lemma WithFeeBounds(pool: V2PoolState, amountIn: nat)
    requires Valid(pool)
    ensures amountIn <= WithFee(pool, amountIn) <= BPS_DENOMINATOR * amountIn
  {
    MulLe(BPS_DENOMINATOR - pool.feeBps, BPS_DENOMINATOR, amountIn);
    MulLe(1, BPS_DENOMINATOR - pool.feeBps, amountIn);
  }

  /** The fee-adjusted constant product does not fall when `out` is paid for `amountIn`. */
  predicate KeepsProduct(pool: V2PoolState, tokenIn: Address, amountIn: nat, out: int)
    requires Valid(pool)
  {
    Keeps(BPS_DENOMINATOR * ReserveIn(pool, tokenIn), ReserveOut(pool, tokenIn), WithFee(pool, amountIn), out)
  }

  // ----- When a quote is given -----

  /** The output over unbounded integers. */
  function ExactOutput(pool: V2PoolState, tokenIn: Address, amountIn: nat): (out: nat)
    requires Valid(pool)
    ensures out < ReserveOut(pool, tokenIn)
  {
    var x, y, f := BPS_DENOMINATOR * ReserveIn(pool, tokenIn), ReserveOut(pool, tokenIn), WithFee(pool, amountIn);
    OutputBelowReserve(x, y, f);
    MulDiv(f, y, x + f)
  }

  /** Quoted and realized price in basis points, over unbounded integers. */
  function QuotedPrice(pool: V2PoolState, tokenIn: Address): nat
    requires Valid(pool)
  {
    FloorDiv(ReserveOut(pool, tokenIn) * BPS_DENOMINATOR, ReserveIn(pool, tokenIn))
  }

  function RealizedPrice(amountIn: nat, amountOut: nat): nat {
    FloorDiv(amountOut * BPS_DENOMINATOR, if amountIn == 0 then 1 else amountIn)
  }

  /** The four products that must fit 128 bits. */
  predicate Representable(pool: V2PoolState, tokenIn: Address, amountIn: nat)
    requires Valid(pool)
  {
    var x, y, f := ReserveIn(pool, tokenIn), ReserveOut(pool, tokenIn), WithFee(pool, amountIn);
    && f * y < TWO_128
    && BPS_DENOMINATOR * x + f < TWO_128
    && BPS_DENOMINATOR * y < TWO_128
    && (QuotedPrice(pool, tokenIn) - RealizedPrice(amountIn, ExactOutput(pool, tokenIn, amountIn))) * BPS_DENOMINATOR < TWO_128
  }

  /** A quote is given exactly when the token is in the pool, the exact output is not zero and the
      products fit; it then pays the exact output. */
  lemma QuoteSucceedsExactly(pool: V2PoolState, tokenIn: Address, amountIn: Amount)
    requires Valid(pool)
    ensures QuoteExactIn(pool, tokenIn, amountIn).Ok? <==>
            && ContainsToken(pool, tokenIn) && ExactOutput(pool, tokenIn, amountIn) > 0
            && Representable(pool, tokenIn, amountIn)
    ensures QuoteExactIn(pool, tokenIn, amountIn).Ok? ==>
              && QuoteExactIn(pool, tokenIn, amountIn).value.amountOut == ExactOutput(pool, tokenIn, amountIn)
              && OtherToken(pool, tokenIn) == Some(QuoteExactIn(pool, tokenIn, amountIn).value.tokenOut)
  {
    var x, y, f := ReserveIn(pool, tokenIn), ReserveOut(pool, tokenIn), WithFee(pool, amountIn);
    var out := ExactOutput(pool, tokenIn, amountIn);
    MulNonNeg(f, y);
    MulLe(1, y, f);
    if amountIn > 0 {
      ImpactSucceedsExactly(x, y, amountIn, out);
    } else {
      NothingForNothing(pool, tokenIn);
    }
  }

  lemma NothingForNothing(pool: V2PoolState, tokenIn: Address)
    requires Valid(pool)
    ensures ExactOutput(pool, tokenIn, 0) == 0
  {
    assert WithFee(pool, 0) == 0;
    FloorShrinks(0, BPS_DENOMINATOR * ReserveIn(pool, tokenIn));
  }

  /** The impact estimate of an output below the reserve fails exactly on its quoted-price product and
      on the product of the shortfall. */
  lemma ImpactSucceedsExactly(x: nat, y: nat, amountIn: nat, out: nat)
    requires x > 0 && out < y && amountIn > 0
    ensures EstimatePriceImpactBps(x, y, amountIn, out).Ok? <==>
            && BPS_DENOMINATOR * y < TWO_128
            && (FloorDiv(y * BPS_DENOMINATOR, x) - RealizedPrice(amountIn, out)) * BPS_DENOMINATOR < TWO_128
  {}

  /** The floor behind a successful quote. */
  lemma QuoteParts(pool: V2PoolState, tokenIn: Address, amountIn: Amount)
    requires Valid(pool) && QuoteExactIn(pool, tokenIn, amountIn).Ok?
    ensures
      var x, y, f := BPS_DENOMINATOR * ReserveIn(pool, tokenIn), ReserveOut(pool, tokenIn), WithFee(pool, amountIn);
      var quote := QuoteExactIn(pool, tokenIn, amountIn).value;
      && amountIn > 0 && ContainsToken(pool, tokenIn) && 0 <= f * y
      && quote.amountOut == (f * y) / (x + f) && quote.amountOut > 0
      && quote.amountOut * (x + f) <= f * y
      && OtherToken(pool, tokenIn) == Some(quote.tokenOut)
  {
    var x, y, f := BPS_DENOMINATOR * ReserveIn(pool, tokenIn), ReserveOut(pool, tokenIn), WithFee(pool, amountIn);
    MulNonNeg(f, y);
    FloorBounds(f * y, x + f);
  }

  /** A successful quote is strictly below the output reserve and is exactly the largest output that
      keeps the fee-adjusted product from falling. */
  lemma QuoteIsOptimal(pool: V2PoolState, tokenIn: Address, amountIn: Amount, out: nat)
    requires Valid(pool) && QuoteExactIn(pool, tokenIn, amountIn).Ok?
    ensures 0 < QuoteExactIn(pool, tokenIn, amountIn).value.amountOut < ReserveOut(pool, tokenIn)
    ensures out <= QuoteExactIn(pool, tokenIn, amountIn).value.amountOut
       <==> KeepsProduct(pool, tokenIn, amountIn, out)
  {
    QuoteParts(pool, tokenIn, amountIn);
    var x, y, f := BPS_DENOMINATOR * ReserveIn(pool, tokenIn), ReserveOut(pool, tokenIn), WithFee(pool, amountIn);
    OutputLargest(x, y, f, out);
    OutputBelowReserve(x, y, f);
  }

  /** The realized price never exceeds the quoted one, so the impact is at most 10000 basis points
      and the `u32` clamp never binds. */
  lemma ImpactIsBounded(pool: V2PoolState, tokenIn: Address, amountIn: Amount)
    requires Valid(pool) && QuoteExactIn(pool, tokenIn, amountIn).Ok?
    ensures
      var quote := QuoteExactIn(pool, tokenIn, amountIn).value;
      var quoted := FloorDiv(ReserveOut(pool, tokenIn) * BPS_DENOMINATOR, ReserveIn(pool, tokenIn));
      var realized := FloorDiv(quote.amountOut * BPS_DENOMINATOR, amountIn);
      && realized <= quoted
      && quote.priceImpactBps <= BPS_DENOMINATOR
      && (quoted > 0 ==> quote.priceImpactBps == FloorDiv((quoted - realized) * BPS_DENOMINATOR, quoted))
  {
    QuoteParts(pool, tokenIn, amountIn);
    WithFeeBounds(pool, amountIn);
    var out := QuoteExactIn(pool, tokenIn, amountIn).value.amountOut;
    var x, y := ReserveIn(pool, tokenIn), ReserveOut(pool, tokenIn);
    RealizedBelowQuoted(x, y, amountIn, WithFee(pool, amountIn), out);
    var quoted, realized := FloorDiv(y * BPS_DENOMINATOR, x), FloorDiv(out * BPS_DENOMINATOR, amountIn);
    if quoted > 0 {
      ShareOfWhole(quoted - realized, quoted);
    }
  }

  lemma ShareOfWhole(part: nat, whole: nat)
    requires part <= whole && whole > 0
    ensures FloorDiv(part * BPS_DENOMINATOR, whole) <= BPS_DENOMINATOR
  {
    MulLe(part, whole, BPS_DENOMINATOR);
    FloorBounds(part * BPS_DENOMINATOR, whole);
    CancelLe(FloorDiv(part * BPS_DENOMINATOR, whole), BPS_DENOMINATOR, whole);
  }

  // ----- Executing quotes -----

  datatype Trade = Trade(tokenIn: Address, amountIn: Amount)

  /** Execute a trade at its quote and sync the post-trade reserves; None when the quote fails or
      the grown reserve no longer fits. */
  function Execute(pool: V2PoolState, trade: Trade): (r: Option<V2PoolState>)
    requires Valid(pool)
    ensures r.Some? ==> Valid(r.value) && r.value.token0 == pool.token0 && r.value.token1 == pool.token1
    ensures r.Some? ==> r.value.feeBps == pool.feeBps
  {
    var quote := QuoteExactIn(pool, trade.tokenIn, trade.amountIn);
    if quote.Err? || ReserveIn(pool, trade.tokenIn) + trade.amountIn >= TWO_128 then None else
    QuoteIsOptimal(pool, trade.tokenIn, trade.amountIn, 0);
    var grown, shrunk := ReserveIn(pool, trade.tokenIn) + trade.amountIn,
                         ReserveOut(pool, trade.tokenIn) - quote.value.amountOut;
    var synced := if trade.tokenIn == pool.token0
                  then ApplySync(pool, grown, shrunk, pool.lastUpdatedBlock)
                  else ApplySync(pool, shrunk, grown, pool.lastUpdatedBlock);
    Some(synced.value)
  }

  /** An executed trade moves exactly the input in and the quote out, and keeps the product. */
  lemma ExecuteEffect(pool: V2PoolState, trade: Trade)
    requires Valid(pool) && Execute(pool, trade).Some?
    ensures
      var after, tokenIn := Execute(pool, trade).value, trade.tokenIn;
      && ContainsToken(pool, tokenIn)
      && ReserveIn(after, tokenIn) == ReserveIn(pool, tokenIn) + trade.amountIn
      && ReserveOut(after, tokenIn) < ReserveOut(pool, tokenIn)
      && KeepsProduct(pool, tokenIn, trade.amountIn, ReserveOut(pool, tokenIn) - ReserveOut(after, tokenIn))
  {
    QuoteParts(pool, trade.tokenIn, trade.amountIn);
    QuoteIsOptimal(pool, trade.tokenIn, trade.amountIn,
                   QuoteExactIn(pool, trade.tokenIn, trade.amountIn).value.amountOut);
  }

  /** The pool after a list of trades, each quoted on the reserves the previous one left. */
  function ExecuteAll(pool: V2PoolState, trades: seq<Trade>): (r: Option<V2PoolState>)
    requires Valid(pool)
    ensures r.Some? ==> Valid(r.value) && r.value.token0 == pool.token0 && r.value.token1 == pool.token1
    ensures r.Some? ==> r.value.feeBps == pool.feeBps
    decreases |trades|
  {
    if trades == [] then Some(pool) else
    var before :- ExecuteAll(pool, trades[..|trades| - 1]);
    Execute(before, trades[|trades| - 1])
  }

  function Split(tokenIn: Address, parts: seq<Amount>): seq<Trade> {
    seq(|parts|, i requires 0 <= i < |parts| => Trade(tokenIn, parts[i]))
  }

  function Sum(parts: seq<Amount>): nat {
    if parts == [] then 0 else Sum(parts[..|parts| - 1]) + parts[|parts| - 1]
  }

  /** `after` is what swaps of `total` in all can leave of `pool`. */
  predicate Drained(pool: V2PoolState, after: V2PoolState, tokenIn: Address, total: nat)
    requires Valid(pool)
  {
    && after.token0 == pool.token0 && after.token1 == pool.token1 && after.feeBps == pool.feeBps
    && ReserveIn(after, tokenIn) == ReserveIn(pool, tokenIn) + total
    && ReserveOut(after, tokenIn) <= ReserveOut(pool, tokenIn)
    && KeepsProduct(pool, tokenIn, total, ReserveOut(pool, tokenIn) - ReserveOut(after, tokenIn))
  }

  /** Splitting an order into any number of consecutive swaps never yields more than one swap of the
      whole: what left the pool is at most the single quote. */
  lemma SplittingNeverGains(pool: V2PoolState, tokenIn: Address, parts: seq<Amount>, after: V2PoolState)
    requires Valid(pool) && ContainsToken(pool, tokenIn)
    requires ExecuteAll(pool, Split(tokenIn, parts)) == Some(after)
    requires Sum(parts) < TWO_128 && QuoteExactIn(pool, tokenIn, Sum(parts)).Ok?
    ensures ReserveOut(pool, tokenIn) - ReserveOut(after, tokenIn)
         <= QuoteExactIn(pool, tokenIn, Sum(parts)).value.amountOut
  {
    SplitInvariant(pool, tokenIn, parts, after);
    DrainedAtMostQuote(pool, after, tokenIn, Sum(parts));
  }

  lemma DrainedAtMostQuote(pool: V2PoolState, after: V2PoolState, tokenIn: Address, total: Amount)
    requires Valid(pool) && Drained(pool, after, tokenIn, total) && QuoteExactIn(pool, tokenIn, total).Ok?
    ensures ReserveOut(pool, tokenIn) - ReserveOut(after, tokenIn)
         <= QuoteExactIn(pool, tokenIn, total).value.amountOut
  {
    QuoteIsOptimal(pool, tokenIn, total, ReserveOut(pool, tokenIn) - ReserveOut(after, tokenIn));
  }

  lemma {:induction false} SplitInvariant(pool: V2PoolState, tokenIn: Address, parts: seq<Amount>, after: V2PoolState)
    requires Valid(pool) && ContainsToken(pool, tokenIn)
    requires ExecuteAll(pool, Split(tokenIn, parts)) == Some(after)
    ensures Drained(pool, after, tokenIn, Sum(parts))
    decreases |parts|
  {
    if parts == [] {
      DrainedByNothing(pool, tokenIn);
    } else {
      var last := |parts| - 1;
      assert Split(tokenIn, parts)[..last] == Split(tokenIn, parts[..last]);
      var mid := ExecuteAll(pool, Split(tokenIn, parts[..last])).value;
      SplitInvariant(pool, tokenIn, parts[..last], mid);
      SplitOnce(pool, mid, tokenIn, Sum(parts[..last]), parts[last], after);
    }
  }

  lemma DrainedByNothing(pool: V2PoolState, tokenIn: Address)
    requires Valid(pool)
    ensures Drained(pool, pool, tokenIn, 0)
  {}

  lemma SplitOnce(pool: V2PoolState, mid: V2PoolState, tokenIn: Address, total: nat, g: Amount, after: V2PoolState)
    requires Valid(pool) && Valid(mid) && ContainsToken(pool, tokenIn)
    requires Drained(pool, mid, tokenIn, total)
    requires Execute(mid, Trade(tokenIn, g)) == Some(after)
    ensures Drained(pool, after, tokenIn, total + g)
  {
    ExecuteEffect(mid, Trade(tokenIn, g));
    WithFeeBounds(pool, total);
    Distribute(total, g, BPS_DENOMINATOR - pool.feeBps);
    SplitStep(BPS_DENOMINATOR * ReserveIn(pool, tokenIn), ReserveOut(pool, tokenIn),
              BPS_DENOMINATOR * total, WithFee(pool, total), WithFee(pool, g),
              ReserveOut(mid, tokenIn), ReserveOut(after, tokenIn));
  }

  /** Over every run of trades through one pool, in both directions, the product of the reserves
      never falls. */
  lemma {:induction false} ProductNeverFalls(pool: V2PoolState, trades: seq<Trade>)
    requires Valid(pool) && ExecuteAll(pool, trades).Some?
    ensures
      var after := ExecuteAll(pool, trades).value;
      pool.reserve0 * pool.reserve1 <= after.reserve0 * after.reserve1
    decreases |trades|
  {
    if trades != [] {
      var last := |trades| - 1;
      ProductNeverFalls(pool, trades[..last]);
      TradeRaisesProduct(ExecuteAll(pool, trades[..last]).value, trades[last]);
    }
  }

  lemma TradeRaisesProduct(pool: V2PoolState, trade: Trade)
    requires Valid(pool) && Execute(pool, trade).Some?
    ensures
      var after := Execute(pool, trade).value;
      pool.reserve0 * pool.reserve1 <= after.reserve0 * after.reserve1
  {
    ExecuteEffect(pool, trade);
    SidesRaiseProduct(pool, Execute(pool, trade).value, trade.tokenIn, trade.amountIn);
  }

  lemma SidesRaiseProduct(pool: V2PoolState, after: V2PoolState, tokenIn: Address, amountIn: nat)
    requires Valid(pool) && after.token0 == pool.token0
    requires ReserveIn(after, tokenIn) == ReserveIn(pool, tokenIn) + amountIn
    requires ReserveOut(after, tokenIn) < ReserveOut(pool, tokenIn)
    requires KeepsProduct(pool, tokenIn, amountIn, ReserveOut(pool, tokenIn) - ReserveOut(after, tokenIn))
    ensures pool.reserve0 * pool.reserve1 <= after.reserve0 * after.reserve1
  {
    WithFeeBounds(pool, amountIn);
    ProductRises(ReserveIn(pool, tokenIn), amountIn, ReserveOut(pool, tokenIn), WithFee(pool, amountIn),
                 ReserveOut(pool, tokenIn) - ReserveOut(after, tokenIn));
  }

  /** Hence no run of trades takes one token out of the pool without putting the other in; in
      particular a round trip that restores one reserve returns at most what was put in. */
  lemma NoFreeLunch(pool: V2PoolState, trades: seq<Trade>)
    requires Valid(pool) && ExecuteAll(pool, trades).Some?
    ensures
      var after := ExecuteAll(pool, trades).value;
      && (after.reserve0 < pool.reserve0 ==> pool.reserve1 < after.reserve1)
      && (after.reserve1 < pool.reserve1 ==> pool.reserve0 < after.reserve0)
  {
    ProductNeverFalls(pool, trades);
    var after := ExecuteAll(pool, trades).value;
    if after.reserve0 < pool.reserve0 && after.reserve1 <= pool.reserve1 {
      MulLt(after.reserve0, pool.reserve0, pool.reserve1);
      MulLe(after.reserve1, pool.reserve1, after.reserve0);
    }
    if after.reserve1 < pool.reserve1 && after.reserve0 <= pool.reserve0 {
      MulLt(after.reserve1, pool.reserve1, pool.reserve0);
      MulLe(after.reserve0, pool.reserve0, after.reserve1);
    }
  }
}
