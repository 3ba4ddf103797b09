/** Any run of swaps in both directions through a concentrated-liquidity pool: what the pool keeps of
    each token covers the move of its price, so nothing can be taken out for nothing. */
module V3Runs {
  import opened Common
  import opened Arithmetic
  import opened V3Pool
  import opened V3Arithmetic
  import opened V3Quote
  import S = V3Splitting

  datatype Trade = Trade(tokenIn: Address, amountIn: Amount)

  /** A pool after some trades, and what it has received of each token, less what it paid. */
  datatype Account = Account(pool: V3PoolState, net0: int, net1: int)

  /** What the pool receives of each token in one trade, less what it pays. */
  function Received0(pool: V3PoolState, trade: Trade): int
    requires InRange(pool) && QuoteExactIn(pool, trade.tokenIn, trade.amountIn).Ok?
  {
    if trade.tokenIn == pool.token0 then trade.amountIn
    else 0 - QuoteExactIn(pool, trade.tokenIn, trade.amountIn).value.amountOut
  }

  function Received1(pool: V3PoolState, trade: Trade): int
    requires InRange(pool) && QuoteExactIn(pool, trade.tokenIn, trade.amountIn).Ok?
  {
    if trade.tokenIn == pool.token0 then 0 - QuoteExactIn(pool, trade.tokenIn, trade.amountIn).value.amountOut
    else trade.amountIn
  }

  /** Trade after trade, each quoted at the price the previous one left, with constant liquidity; none
      when a quote fails or the price leaves the protocol range. */
  function RunTrades(pool: V3PoolState, trades: seq<Trade>): (r: Option<Account>)
    requires InRange(pool)
    ensures r.Some? ==> InRange(r.value.pool) && r.value.pool == pool.(sqrtPriceX96 := r.value.pool.sqrtPriceX96)
    decreases |trades|
  {
    if trades == [] then Some(Account(pool, 0, 0)) else
    var before :- RunTrades(pool, trades[..|trades| - 1]);
    var trade := trades[|trades| - 1];
    if QuoteExactIn(before.pool, trade.tokenIn, trade.amountIn).Err? then None
    else if !InPriceRange(PostSwapPrice(before.pool, trade.tokenIn, trade.amountIn)) then None
    else Some(Account(AfterSwap(before.pool, trade.tokenIn, trade.amountIn),
                      before.net0 + Received0(before.pool, trade), before.net1 + Received1(before.pool, trade)))
  }

  /** Received token0 and token1 cover a price move from `s` to `c`. */
  predicate Covers(s: nat, c: nat, liquidity: nat, net0: int, net1: int) {
    && net0 * (s * c) >= (liquidity * Q96) * (s - c)
    && net1 * Q96 >= liquidity * (c - s)
  }

  /** One trade covers its own move. */
  lemma TradeCovers(pool: V3PoolState, trade: Trade)
    requires InRange(pool) && QuoteExactIn(pool, trade.tokenIn, trade.amountIn).Ok?
    ensures PostSwapPrice(pool, trade.tokenIn, trade.amountIn) > 0
    ensures Covers(pool.sqrtPriceX96, PostSwapPrice(pool, trade.tokenIn, trade.amountIn), pool.liquidity,
                   Received0(pool, trade), Received1(pool, trade))
  {
    QuoteParts(pool, trade.tokenIn, trade.amountIn);
    QuoteSucceedsExactly(pool, trade.tokenIn, trade.amountIn);
    var s, next := pool.sqrtPriceX96, PostSwapPrice(pool, trade.tokenIn, trade.amountIn);
    var net, out := NetInput(pool.feePips, trade.amountIn),
                    QuoteExactIn(pool, trade.tokenIn, trade.amountIn).value.amountOut;
    if trade.tokenIn == pool.token0 {
      DownCovers(s, next, pool.liquidity, net, trade.amountIn, out);
    } else {
      UpCovers(s, next, pool.liquidity, net, trade.amountIn, out);
    }
  }

  lemma PriceCovers(n: nat, s: nat, a: nat, c: nat)
    requires s > 0 && a > 0 && c == CeilDiv(n, n / s + a)
    ensures n <= c * (n / s + a) && (n / s) * s <= n
  {
    CeilBounds(n, n / s + a);
    FloorBounds(n, s);
  }

  lemma DownCovers(s: nat, next: nat, liquidity: nat, net: nat, gross: nat, out: nat)
    requires s > 0 && liquidity > 0 && 0 < net <= gross && next == NextPrice(s, liquidity, net, true) && 0 < next <= s
    requires out == Released(s, next, liquidity, true)
    ensures Covers(s, next, liquidity, gross, 0 - out)
  {
    MulNonNeg(liquidity, Q96);
    PriceCovers(liquidity * Q96, s, net, next);
    DownPaid(liquidity * Q96, s, (liquidity * Q96) / s, net, next);
    MulNonNeg(s, next);
    MulLe(net, gross, s * next);
    MulNonNeg(liquidity, s - next);
    FloorBounds(liquidity * (s - next), Q96);
    Negate(out, Q96);
    Negate(s - next, liquidity);
  }

  lemma UpCovers(s: nat, next: nat, liquidity: nat, net: nat, gross: nat, out: nat)
    requires 0 < s && liquidity > 0 && 0 < net <= gross && next == NextPrice(s, liquidity, net, false)
    requires out == Released(s, next, liquidity, false)
    ensures Covers(s, next, liquidity, 0 - out, gross)
  {
    S.ReleasedBounds(s, next, liquidity, out);
    Negate(out, s * next);
    Negate(next - s, liquidity * Q96);
    FloorBounds(net * Q96, liquidity);
    MulLe(net, gross, Q96);
  }

  lemma CoverAgain(s: nat, c: nat, next: nat, liquidity: nat, net0: int, net1: int, add0: int, add1: int)
    requires 0 < s && 0 < c && 0 < next
    requires Covers(s, c, liquidity, net0, net1) && Covers(c, next, liquidity, add0, add1)
    ensures Covers(s, next, liquidity, net0 + add0, net1 + add1)
  {
    MovesCompose(liquidity * Q96, s, c, next, net0, add0);
    Distribute(net1, add1, Q96);
    Distribute(c - s, next - c, liquidity);
  }

  /** Over every run of trades, in any order and direction, what the pool has kept of each token covers
      the move of its price. */
  lemma {:induction false} RunsCoverTheirMove(pool: V3PoolState, trades: seq<Trade>)
    requires InRange(pool) && RunTrades(pool, trades).Some?
    ensures Covered(pool, RunTrades(pool, trades).value)
    decreases |trades|
  {
    if trades == [] {
      NoMove(pool);
    } else {
      var last := |trades| - 1;
      RunsCoverTheirMove(pool, trades[..last]);
      CoverOneMore(pool, RunTrades(pool, trades[..last]).value, trades[last], RunTrades(pool, trades).value);
    }
  }

  predicate Covered(pool: V3PoolState, done: Account) {
    Covers(pool.sqrtPriceX96, done.pool.sqrtPriceX96, pool.liquidity, done.net0, done.net1)
  }

  lemma NoMove(pool: V3PoolState)
    ensures Covered(pool, Account(pool, 0, 0))
  {}

  lemma CoverOneMore(pool: V3PoolState, before: Account, trade: Trade, after: Account)
    requires InRange(pool) && InRange(before.pool) && before.pool.liquidity == pool.liquidity
    requires QuoteExactIn(before.pool, trade.tokenIn, trade.amountIn).Ok? && Covered(pool, before)
    requires after.pool.sqrtPriceX96 == PostSwapPrice(before.pool, trade.tokenIn, trade.amountIn)
    requires after.net0 == before.net0 + Received0(before.pool, trade)
    requires after.net1 == before.net1 + Received1(before.pool, trade)
    ensures Covered(pool, after)
  {
    TradeCovers(before.pool, trade);
    CoverAgain(pool.sqrtPriceX96, before.pool.sqrtPriceX96, after.pool.sqrtPriceX96, pool.liquidity,
               before.net0, before.net1, Received0(before.pool, trade), Received1(before.pool, trade));
  }

  /** Hence no run takes one token out without putting the other in, and a run that puts in neither
      takes out neither. */
  lemma NoFreeLunch(pool: V3PoolState, trades: seq<Trade>)
    requires InRange(pool) && pool.liquidity > 0 && RunTrades(pool, trades).Some?
    ensures
      var done := RunTrades(pool, trades).value;
      && (done.net0 < 0 ==> done.net1 > 0)
      && (done.net1 < 0 ==> done.net0 > 0)
  {
    RunsCoverTheirMove(pool, trades);
    var done := RunTrades(pool, trades).value;
    CoveredMove(pool.sqrtPriceX96, done.pool.sqrtPriceX96, pool.liquidity, done.net0, done.net1);
  }

  lemma CoveredMove(s: nat, c: nat, liquidity: nat, net0: int, net1: int)
    requires 0 < s && 0 < c && liquidity > 0 && Covers(s, c, liquidity, net0, net1)
    ensures (net0 < 0 ==> net1 > 0) && (net1 < 0 ==> net0 > 0)
  {
    MulLt(0, s, c);
    MulLt(0, liquidity, Q96);
    if net0 < 0 {
      MulLt(net0, 0, s * c);
      SignOfMove(liquidity * Q96, s - c);
      MulLt(0, c - s, liquidity);
    }
    if net1 < 0 {
      MulLt(net1, 0, Q96);
      SignOfMove(liquidity, c - s);
      MulLt(0, s - c, liquidity * Q96);
      SignOfMove(s * c, net0);
    }
  }

  /** With a positive factor, the product has the sign of the move. */
  lemma SignOfMove(factor: int, move: int)
    requires factor > 0
    ensures (factor * move < 0 <==> move < 0) && (move * factor > 0 <==> move > 0)
  {
    if move < 0 {
      MulLt(move, 0, factor);
    } else if move > 0 {
      MulLt(0, move, factor);
    }
  }

  /** Swapping in either direction and quoting the output back never returns more than was put in,
      for every price, liquidity, fee and amount. */
  lemma RoundTripNeverProfits(pool: V3PoolState, tokenIn: Address, amountIn: Amount)
    requires InRange(pool) && QuoteExactIn(pool, tokenIn, amountIn).Ok?
    requires
      var there := QuoteExactIn(pool, tokenIn, amountIn).value;
      && InRange(AfterSwap(pool, tokenIn, amountIn))
      && QuoteExactIn(AfterSwap(pool, tokenIn, amountIn), there.tokenOut, there.amountOut).Ok?
    ensures
      var there := QuoteExactIn(pool, tokenIn, amountIn).value;
      QuoteExactIn(AfterSwap(pool, tokenIn, amountIn), there.tokenOut, there.amountOut).value.amountOut <= amountIn
  {
    var there, after := QuoteExactIn(pool, tokenIn, amountIn).value, AfterSwap(pool, tokenIn, amountIn);
    var first, second := Trade(tokenIn, amountIn), Trade(there.tokenOut, there.amountOut);
    QuoteParts(pool, tokenIn, amountIn);
    QuoteSucceedsExactly(pool, tokenIn, amountIn);
    TradeCovers(pool, first);
    TradeCovers(after, second);
    var end := PostSwapPrice(after, second.tokenIn, second.amountIn);
    var net0, net1 := Received0(pool, first) + Received0(after, second), Received1(pool, first) + Received1(after, second);
    CoverAgain(pool.sqrtPriceX96, after.sqrtPriceX96, end, pool.liquidity,
               Received0(pool, first), Received1(pool, first), Received0(after, second), Received1(after, second));
    CoveredMove(pool.sqrtPriceX96, end, pool.liquidity, net0, net1);
  }
}
