/** Order splitting in a concentrated-liquidity pool: consecutive swaps of the parts of an order never
    pay more than one swap of the whole. */
module V3Splitting {
  import opened Common
  import opened Arithmetic
  import opened V3Pool
  import opened V3Arithmetic
  import opened V3Quote

  /** A pool after some swaps, what they paid, and the net input they took. */
  datatype Progress = Progress(pool: V3PoolState, paid: nat, net: nat)

  /** Swap the parts one after the other, each quoted at the price the previous one left, with
      constant liquidity; none when a quote fails or the price leaves the protocol range. */
  function SwapAll(pool: V3PoolState, tokenIn: Address, parts: seq<Amount>): (r: Option<Progress>)
    requires InRange(pool)
    ensures r.Some? ==> InRange(r.value.pool) && r.value.pool == pool.(sqrtPriceX96 := r.value.pool.sqrtPriceX96)
    decreases |parts|
  {
    if parts == [] then Some(Progress(pool, 0, 0)) else
    var before :- SwapAll(pool, tokenIn, parts[..|parts| - 1]);
    var part := parts[|parts| - 1];
    if QuoteExactIn(before.pool, tokenIn, part).Err? then None else
    var price := PostSwapPrice(before.pool, tokenIn, part);
    if !InPriceRange(price) then None
    else Some(Progress(AfterSwap(before.pool, tokenIn, part),
                       before.paid + QuoteExactIn(before.pool, tokenIn, part).value.amountOut,
                       before.net + NetInput(pool.feePips, part)))
  }

  function Total(parts: seq<Amount>): nat {
    if parts == [] then 0 else Total(parts[..|parts| - 1]) + parts[|parts| - 1]
  }

  /** What any swaps of net input `net` in all can have done to price and payments. */
  predicate Spent(s: nat, liquidity: nat, zeroForOne: bool, price: nat, paid: nat, net: nat)
    requires s > 0
  {
    var n := liquidity * Q96;
    if zeroForOne then
      && 0 < price <= s && 0 <= n && paid * Q96 <= liquidity * (s - price)
      && ((price == s && net == 0) || n <= price * (n / s + net))
    else
      && s <= price && (price - s) * liquidity <= net * Q96
      && paid * (s * price) <= n * (price - s)
  }

  /** One more swap keeps it. */
  lemma SpendDown(s: nat, liquidity: nat, price: nat, paid: nat, net: nat, a: nat, next: nat, out: nat)
    requires s > 0 && liquidity > 0 && a > 0 && Spent(s, liquidity, true, price, paid, net)
    requires next == NextPrice(price, liquidity, a, true) && 0 < next <= price
    requires out == Released(price, next, liquidity, true)
    ensures Spent(s, liquidity, true, next, paid + out, net + a)
  {
    var n := liquidity * Q96;
    assert (n / price) * price <= n by { FloorBounds(n, price); }
    DownAgain(n, price, n / price, n / s + net, a, next);
    assert out * Q96 <= liquidity * (price - next) by {
      MulNonNeg(liquidity, price - next);
      FloorBounds(liquidity * (price - next), Q96);
    }
    Distribute(s - price, price - next, liquidity);
  }

  lemma SpendUp(s: nat, liquidity: nat, price: nat, paid: nat, net: nat, a: nat, next: nat, out: nat)
    requires s > 0 && liquidity > 0 && a > 0 && Spent(s, liquidity, false, price, paid, net)
    requires next == NextPrice(price, liquidity, a, false) && out == Released(price, next, liquidity, false)
    ensures Spent(s, liquidity, false, next, paid + out, net + a)
  {
    var d := MulDiv(a, Q96, liquidity);
    assert d * liquidity <= a * Q96 by { FloorBounds(a * Q96, liquidity); }
    Distribute(price - s, d, liquidity);
    Distribute(net, a, Q96);
    ReleasedBounds(price, next, liquidity, out);
    UpAgain(liquidity * Q96, s, price, next, paid, out);
  }

  lemma ReleasedBounds(s: nat, next: nat, liquidity: nat, out: nat)
    requires 0 < s <= next && out == Released(s, next, liquidity, false)
    ensures out * (s * next) <= (liquidity * Q96) * (next - s)
  {
    MulNonNeg(liquidity, next - s);
    MulLt(0, next, s);
    MulNonNeg(liquidity * (next - s), Q96);
    FloorBounds((liquidity * (next - s)) * Q96, s * next);
    Associate(liquidity, next - s, Q96);
  }

  /** Progress within what a net input of the parts so far allows. */
  ghost predicate Accounted(pool: V3PoolState, tokenIn: Address, done: Progress, total: nat)
    requires InRange(pool)
  {
    && Spent(pool.sqrtPriceX96, pool.liquidity, tokenIn == pool.token0, done.pool.sqrtPriceX96, done.paid, done.net)
    && done.net <= NetInput(pool.feePips, total)
  }

  lemma NothingSpent(pool: V3PoolState, tokenIn: Address)
    requires InRange(pool)
    ensures Accounted(pool, tokenIn, Progress(pool, 0, 0), 0)
  {
    MulNonNeg(pool.liquidity, Q96);
  }

  lemma {:induction false} SplitSpends(pool: V3PoolState, tokenIn: Address, parts: seq<Amount>)
    requires InRange(pool) && pool.liquidity > 0 && SwapAll(pool, tokenIn, parts).Some?
    ensures Accounted(pool, tokenIn, SwapAll(pool, tokenIn, parts).value, Total(parts))
    decreases |parts|
  {
    if parts == [] {
      NothingSpent(pool, tokenIn);
    } else {
      var last := |parts| - 1;
      SplitSpends(pool, tokenIn, parts[..last]);
      AccountOne(pool, SwapAll(pool, tokenIn, parts[..last]).value, tokenIn, Total(parts[..last]), parts[last],
                 SwapAll(pool, tokenIn, parts).value);
    }
  }

  lemma AccountOne(pool: V3PoolState, before: Progress, tokenIn: Address, total: nat, part: Amount, after: Progress)
    requires InRange(pool) && pool.liquidity > 0 && InRange(before.pool)
    requires before.pool == pool.(sqrtPriceX96 := before.pool.sqrtPriceX96)
    requires QuoteExactIn(before.pool, tokenIn, part).Ok? && Accounted(pool, tokenIn, before, total)
    requires after.pool.sqrtPriceX96 == PostSwapPrice(before.pool, tokenIn, part)
    requires after.paid == before.paid + QuoteExactIn(before.pool, tokenIn, part).value.amountOut
    requires after.net == before.net + NetInput(pool.feePips, part)
    ensures Accounted(pool, tokenIn, after, total + part)
  {
    NetSuperadditive(pool.feePips, total, part);
    OneMoreSwap(pool, before, tokenIn, part);
  }

  lemma OneMoreSwap(pool: V3PoolState, before: Progress, tokenIn: Address, part: Amount)
    requires InRange(pool) && pool.liquidity > 0 && InRange(before.pool)
    requires before.pool == pool.(sqrtPriceX96 := before.pool.sqrtPriceX96)
    requires QuoteExactIn(before.pool, tokenIn, part).Ok?
    requires Spent(pool.sqrtPriceX96, pool.liquidity, tokenIn == pool.token0, before.pool.sqrtPriceX96,
                   before.paid, before.net)
    ensures Spent(pool.sqrtPriceX96, pool.liquidity, tokenIn == pool.token0,
                  PostSwapPrice(before.pool, tokenIn, part),
                  before.paid + QuoteExactIn(before.pool, tokenIn, part).value.amountOut,
                  before.net + NetInput(pool.feePips, part))
  {
    QuoteParts(before.pool, tokenIn, part);
    QuoteSucceedsExactly(before.pool, tokenIn, part);
    var price, next := before.pool.sqrtPriceX96, PostSwapPrice(before.pool, tokenIn, part);
    var out, a := QuoteExactIn(before.pool, tokenIn, part).value.amountOut, NetInput(pool.feePips, part);
    if tokenIn == pool.token0 {
      SpendDown(pool.sqrtPriceX96, pool.liquidity, price, before.paid, before.net, a, next, out);
    } else {
      SpendUp(pool.sqrtPriceX96, pool.liquidity, price, before.paid, before.net, a, next, out);
    }
  }

  lemma NetSuperadditive(feePips: nat, x: nat, y: nat)
    requires feePips < FEE_PIPS_DENOMINATOR
    ensures NetInput(feePips, x) + NetInput(feePips, y) <= NetInput(feePips, x + y)
  {
    var kept := FEE_PIPS_DENOMINATOR - feePips;
    MulNonNeg(x, kept);
    MulNonNeg(y, kept);
    Distribute(x, y, kept);
    FloorBounds(x * kept, FEE_PIPS_DENOMINATOR);
    FloorBounds(y * kept, FEE_PIPS_DENOMINATOR);
    FloorLargest((x + y) * kept, FEE_PIPS_DENOMINATOR, NetInput(feePips, x) + NetInput(feePips, y));
  }

  /** A single swap of at least the same net input pays at least as much. */
  lemma WholePaysMore(s: nat, liquidity: nat, zeroForOne: bool, price: nat, paid: nat, net: nat, whole: nat, next: nat)
    requires s > 0 && liquidity > 0 && net <= whole && 0 < whole
    requires Spent(s, liquidity, zeroForOne, price, paid, net)
    requires next == NextPrice(s, liquidity, whole, zeroForOne) && 0 < next
    requires if zeroForOne then next <= s else s <= next
    ensures paid <= Released(s, next, liquidity, zeroForOne)
  {
    if zeroForOne {
      WholeFallsFurther(liquidity * Q96, s, price, net, whole, next);
      MulLe(s - price, s - next, liquidity);
      MulNonNeg(liquidity, s - next);
      FloorLargest(liquidity * (s - next), Q96, paid);
    } else {
      WholeRisesFurther(s, liquidity, price, net, whole, next);
      WholeReleases(s, liquidity, price, paid, next);
    }
  }

  lemma WholeFallsFurther(n: nat, s: nat, price: nat, net: nat, whole: nat, next: nat)
    requires s > 0 && price > 0 && 0 < whole && net <= whole && next == CeilDiv(n, n / s + whole) && next <= s
    requires (price == s && net == 0) || n <= price * (n / s + net)
    ensures next <= price
  {
    if price != s {
      MulLe(n / s + net, n / s + whole, price);
      CeilLeast(n, n / s + whole, price);
    }
  }

  lemma WholeRisesFurther(s: nat, liquidity: nat, price: nat, net: nat, whole: nat, next: nat)
    requires liquidity > 0 && s <= price && net <= whole && next == s + MulDiv(whole, Q96, liquidity)
    requires (price - s) * liquidity <= net * Q96
    ensures price <= next
  {
    MulLe(net, whole, Q96);
    FloorLargest(whole * Q96, liquidity, price - s);
  }

  lemma WholeReleases(s: nat, liquidity: nat, price: nat, paid: nat, next: nat)
    requires 0 < s <= price <= next && paid * (s * price) <= (liquidity * Q96) * (price - s)
    ensures paid <= Released(s, next, liquidity, false)
  {
    MulNonNeg(liquidity * Q96, next - price);
    UpAgain(liquidity * Q96, s, price, next, paid, 0);
    MulLt(0, next, s);
    MulNonNeg(liquidity, next - s);
    MulNonNeg(liquidity * (next - s), Q96);
    Associate(liquidity, next - s, Q96);
    FloorLargest((liquidity * (next - s)) * Q96, s * next, paid);
  }

  /** Splitting an order into any number of consecutive swaps, in either direction, never pays more
      than one swap of the whole. */
  lemma SplittingNeverGains(pool: V3PoolState, tokenIn: Address, parts: seq<Amount>)
    requires InRange(pool) && SwapAll(pool, tokenIn, parts).Some?
    requires Total(parts) < TWO_128 && QuoteExactIn(pool, tokenIn, Total(parts)).Ok?
    ensures SwapAll(pool, tokenIn, parts).value.paid <= QuoteExactIn(pool, tokenIn, Total(parts)).value.amountOut
  {
    QuoteParts(pool, tokenIn, Total(parts));
    QuoteSucceedsExactly(pool, tokenIn, Total(parts));
    SplitSpends(pool, tokenIn, parts);
    var done := SwapAll(pool, tokenIn, parts).value;
    WholePaysMore(pool.sqrtPriceX96, pool.liquidity, tokenIn == pool.token0, done.pool.sqrtPriceX96, done.paid, done.net,
                  NetInput(pool.feePips, Total(parts)), PostSwapPrice(pool, tokenIn, Total(parts)));
  }
}
