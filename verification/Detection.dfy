/** Two-leg loops: when one is reported, and what a report implies about the two pools. */
module Detection {
  import opened Common
  import opened Arithmetic
  import opened V2Pool
  import opened V2Quote
  import opened V2Arithmetic
  import opened Decision

  /** One token of eighteen decimals. */
  const UNIT: Amount := 1_000_000_000_000_000_000

  datatype LoopInput = LoopInput(
    blockContext: BlockContext,
    settlementToken: Address,
    amountIn: Amount,
    firstPool: V2PoolState,
    secondPool: V2PoolState,
    triggerTxHash: Option<string>)

  function Digit(n: nat): char
    requires n < 10
  {
    "0123456789"[n]
  }

  /** The number of decimal digits, counting from those of numbers below `bound`. */
  function DigitCount(n: nat, bound: nat): nat
    requires bound > 0
    decreases if n < bound then 0 else n - bound + 1
  {
    if n < bound then 1 else 1 + DigitCount(n, 10 * bound)
  }

  function PowerOfTen(k: nat): (p: nat)
    ensures p > 0
  {
    if k == 0 then 1 else 10 * PowerOfTen(k - 1)
  }

  function Decimal(n: nat): string {
    var count := DigitCount(n, 10);
    seq(count, i requires 0 <= i < count => Digit((n / PowerOfTen(count - 1 - i)) % 10))
  }

  function OpportunityId(settlement: Address, first: Address, second: Address, amount: Amount): string {
    "loop:" + settlement + ":" + first + ":" + second + ":" + Decimal(amount)
  }

  function Detect(input: LoopInput): (r: Option<Opportunity>)
    requires Valid(input.firstPool) && Valid(input.secondPool)
  {
    if input.amountIn == 0 then None else
    var settlement, first, second := input.settlementToken, input.firstPool, input.secondPool;
    match QuoteExactIn(first, settlement, input.amountIn)
    case Err(_) => None
    case Ok(firstQuote) =>
      match QuoteExactIn(second, firstQuote.tokenOut, firstQuote.amountOut)
      case Err(_) => None
      case Ok(secondQuote) =>
        if secondQuote.tokenOut != settlement || secondQuote.amountOut <= input.amountIn then None
        else Some(Opportunity(
          OpportunityId(settlement, first.address, second.address, input.amountIn),
          TwoLegLoop, input.blockContext, settlement, input.amountIn, secondQuote.amountOut,
          secondQuote.amountOut - input.amountIn,
          [RouteLeg(first.address, Some(first.address), firstQuote.tokenIn, firstQuote.tokenOut,
                    Some(firstQuote.amountIn), Some(firstQuote.amountOut)),
           RouteLeg(second.address, Some(second.address), firstQuote.tokenOut, secondQuote.tokenOut,
                    Some(secondQuote.amountIn), Some(secondQuote.amountOut))],
          input.triggerTxHash))
  }

  // ----- What a report means -----

  /** The pools trade the same two tokens. */
  predicate SharePair(p: V2PoolState, q: V2PoolState) {
    (p.token0 == q.token0 && p.token1 == q.token1) || (p.token0 == q.token1 && p.token1 == q.token0)
  }

  /** What `amount` of the settlement token sent through `p` and back through `q` returns, over
      unbounded integers. */
  function LoopOutput(p: V2PoolState, q: V2PoolState, settlement: Address, amount: nat): nat
    requires Valid(p) && Valid(q)
  {
    match OtherToken(p, settlement)
    case None => 0
    case Some(middle) => ExactOutput(q, middle, ExactOutput(p, settlement, amount))
  }

  /** The loop closes and returns more than it takes. */
  predicate Profitable(p: V2PoolState, q: V2PoolState, settlement: Address, amount: nat)
    requires Valid(p) && Valid(q)
  {
    SharePair(p, q) && ContainsToken(p, settlement) && LoopOutput(p, q, settlement, amount) > amount
  }

  /** The 128-bit products of both quotes fit. */
  predicate LegsRepresentable(p: V2PoolState, q: V2PoolState, settlement: Address, amount: nat)
    requires Valid(p) && Valid(q)
  {
    && OtherToken(p, settlement).Some? && Representable(p, settlement, amount)
    && Representable(q, OtherToken(p, settlement).value, ExactOutput(p, settlement, amount))
  }

  /** A loop is reported exactly when it is profitable in exact arithmetic and its products fit; the
      report is a closed two-leg route whose profit is the exact gain. */
  lemma DetectsExactly(input: LoopInput)
    requires Valid(input.firstPool) && Valid(input.secondPool)
    ensures
      var p, q, settlement, amount := input.firstPool, input.secondPool, input.settlementToken, input.amountIn;
      && (Detect(input).Some? <==> Profitable(p, q, settlement, amount) && LegsRepresentable(p, q, settlement, amount))
      && (Detect(input).Some? ==>
            var found := Detect(input).value;
            && found.kind == TwoLegLoop && found.inputAmount == amount && found.settlementToken == settlement
            && found.expectedOutputAmount == LoopOutput(p, q, settlement, amount)
            && found.expectedOutputAmount == found.inputAmount + found.expectedNetProfit
            && ClosedRoute(found, OtherToken(p, settlement).value)
            && found.route[0].target == p.address && found.route[1].target == q.address)
  {
    var p, q, settlement := input.firstPool, input.secondPool, input.settlementToken;
    QuoteSucceedsExactly(p, settlement, input.amountIn);
    if OtherToken(p, settlement).Some? {
      LegsNeedOutput(p, q, settlement, input.amountIn);
      QuoteSucceedsExactly(q, OtherToken(p, settlement).value, ExactOutput(p, settlement, input.amountIn));
    }
  }

  /** A loop that returns anything has a nonzero first leg. */
  lemma LegsNeedOutput(p: V2PoolState, q: V2PoolState, settlement: Address, amount: nat)
    requires Valid(p) && Valid(q) && OtherToken(p, settlement).Some?
    ensures LoopOutput(p, q, settlement, amount) > 0 ==> amount > 0 && ExactOutput(p, settlement, amount) > 0
  {
    NothingForNothing(p, settlement);
    NothingForNothing(q, OtherToken(p, settlement).value);
  }

  /** A profitable loop at everyday reserves of eighteen decimals that is not reported: it nearly
      doubles its input, but the first product does not fit. */
  lemma ProfitableLoopMissed(input: LoopInput)
    requires input.settlementToken == "a" && input.amountIn == UNIT
    requires input.firstPool == V2PoolState("p", "a", "b", 1000 * UNIT, 2000 * UNIT, 30, None)
    requires input.secondPool == V2PoolState("q", "b", "a", 1000 * UNIT, 1000 * UNIT, 30, None)
    ensures Profitable(input.firstPool, input.secondPool, "a", UNIT)
    ensures 10 * LoopOutput(input.firstPool, input.secondPool, "a", UNIT) > 19 * UNIT
    ensures Detect(input).None?
  {
    FirstLegOverflows(input.firstPool);
    SecondLegPays(input.secondPool);
    DetectsExactly(input);
  }

  lemma FirstLegOverflows(p: V2PoolState)
    requires p == V2PoolState("p", "a", "b", 1000 * UNIT, 2000 * UNIT, 30, None)
    ensures ExactOutput(p, "a", UNIT) == 1_992_013_962_079_806_432 && !Representable(p, "a", UNIT)
  {
    assert WithFee(p, UNIT) == 9970 * UNIT;
  }

  lemma SecondLegPays(q: V2PoolState)
    requires q == V2PoolState("q", "b", "a", 1000 * UNIT, 1000 * UNIT, 30, None)
    ensures ExactOutput(q, "b", 1_992_013_962_079_806_432) == 1_982_101_391_668_045_832
  {
    assert WithFee(q, 1_992_013_962_079_806_432) == 19_860_379_201_935_670_127_040;
  }

  /** Two legs that leave the settlement token for `middle` and come back, each leg's minimum output
      being the next one's input. */
  predicate ClosedRoute(found: Opportunity, middle: Address) {
    && |found.route| == 2
    && found.route[0].tokenIn == found.settlementToken && found.route[0].tokenOut == middle
    && found.route[1].tokenIn == middle && found.route[1].tokenOut == found.settlementToken
    && found.route[0].amountIn == Some(found.inputAmount)
    && found.route[0].minAmountOut == found.route[1].amountIn
    && found.route[1].minAmountOut == Some(found.expectedOutputAmount)
  }

  // ----- Soundness -----

  /** What is left of an input after the fee, in basis points. */
  function Keep(pool: V2PoolState): nat
    requires Valid(pool)
  {
    BPS_DENOMINATOR - pool.feeBps
  }

  /** The fee-adjusted product of the marginal rates of selling `token` into `p` and its counterpart
      into `q` strictly exceeds one. */
  predicate EdgeAboveOne(p: V2PoolState, q: V2PoolState, token: Address)
    requires Valid(p) && Valid(q) && OtherToken(p, token).Some?
  {
    var other := OtherToken(p, token).value;
    (BPS_DENOMINATOR * ReserveIn(p, token)) * (BPS_DENOMINATOR * ReserveIn(q, other))
      < (Keep(p) * ReserveOut(p, token)) * (Keep(q) * ReserveOut(q, other))
  }

  /** A loop is reported only where the marginal rates alone already promise a profit. */
  lemma ReportNeedsEdge(input: LoopInput)
    requires Valid(input.firstPool) && Valid(input.secondPool) && Detect(input).Some?
    ensures OtherToken(input.firstPool, input.settlementToken).Some?
    ensures EdgeAboveOne(input.firstPool, input.secondPool, input.settlementToken)
  {
    DetectsExactly(input);
    ProfitNeedsEdge(input.firstPool, input.secondPool, input.settlementToken, input.amountIn);
  }

  lemma ProfitNeedsEdge(p: V2PoolState, q: V2PoolState, token: Address, amount: nat)
    requires Valid(p) && Valid(q) && Profitable(p, q, token, amount)
    ensures EdgeAboveOne(p, q, token)
  {
    var other, out := OtherToken(p, token).value, ExactOutput(p, token, amount);
    LegsNeedOutput(p, q, token, amount);
    BelowMarginalRate(p, token, amount);
    BelowMarginalRate(q, other, out);
    Compose(amount, out, ExactOutput(q, other, out),
            BPS_DENOMINATOR * ReserveIn(p, token), Keep(p) * ReserveOut(p, token),
            BPS_DENOMINATOR * ReserveIn(q, other), Keep(q) * ReserveOut(q, other));
  }

  /** A positive output is strictly below the fee-adjusted marginal rate. */
  lemma BelowMarginalRate(pool: V2PoolState, token: Address, amount: nat)
    requires Valid(pool) && amount > 0 && ExactOutput(pool, token, amount) > 0
    ensures 0 < BPS_DENOMINATOR * ReserveIn(pool, token) && 0 < Keep(pool) * ReserveOut(pool, token)
    ensures ExactOutput(pool, token, amount) * (BPS_DENOMINATOR * ReserveIn(pool, token))
          < amount * (Keep(pool) * ReserveOut(pool, token))
  {
    var x, y, f := BPS_DENOMINATOR * ReserveIn(pool, token), ReserveOut(pool, token), WithFee(pool, amount);
    WithFeeBounds(pool, amount);
    MulLt(0, Keep(pool), y);
    MulNonNeg(f, y);
    FloorBounds(f * y, x + f);
    BelowMarginal(x, y, f, ExactOutput(pool, token, amount));
    Associate(amount, Keep(pool), y);
  }

  /** Chaining two rates below their marginal bounds and still gaining. */
  lemma Compose(amount: nat, out: nat, back: nat, x1: nat, y1: nat, x2: nat, y2: nat)
    requires 0 < amount < back && 0 < x1 && 0 < y1 && 0 < x2 && 0 < y2
    requires out * x1 < amount * y1 && back * x2 < out * y2
    ensures x1 * x2 < y1 * y2
  {
    MulLt(back * x2, out * y2, x1);
    MulLt(out * x1, amount * y1, y2);
    Associate(out, x1, y2);
    Associate(amount, y1, y2);
    Associate(back, x1, x2);
    MulLt(0, x1, x2);
    MulLt(amount, back, x1 * x2);
    assert amount * (x1 * x2) < amount * (y1 * y2);
    CancelLt(x1 * x2, y1 * y2, amount);
  }

  /** The edge cannot be above one in both directions. */
  lemma EdgeIsOneWay(p: V2PoolState, q: V2PoolState, token: Address)
    requires Valid(p) && Valid(q) && SharePair(p, q) && ContainsToken(p, token)
    ensures !(EdgeAboveOne(p, q, token) && EdgeAboveOne(p, q, OtherToken(p, token).value))
  {
    var other := OtherToken(p, token).value;
    NotBoth(ReserveIn(p, token), ReserveOut(p, token), ReserveIn(q, other), ReserveOut(q, other), Keep(p), Keep(q));
  }

  lemma NotBoth(a: nat, b: nat, c: nat, d: nat, k: nat, l: nat)
    requires k <= BPS_DENOMINATOR && l <= BPS_DENOMINATOR
    ensures !((BPS_DENOMINATOR * a) * (BPS_DENOMINATOR * c) < (k * b) * (l * d)
           && (BPS_DENOMINATOR * b) * (BPS_DENOMINATOR * d) < (k * a) * (l * c))
  {
    KeepShrinks(b, d, k, l);
    KeepShrinks(a, c, k, l);
  }

  lemma KeepShrinks(b: nat, d: nat, k: nat, l: nat)
    requires k <= BPS_DENOMINATOR && l <= BPS_DENOMINATOR
    ensures (k * b) * (l * d) <= (BPS_DENOMINATOR * b) * (BPS_DENOMINATOR * d)
  {
    MulNonNeg(k, b);
    MulLe(k, BPS_DENOMINATOR, b);
    MulLe(l, BPS_DENOMINATOR, d);
    MulLe(l * d, BPS_DENOMINATOR * d, k * b);
    MulLe(k * b, BPS_DENOMINATOR * b, BPS_DENOMINATOR * d);
  }

  /** The same edge seen from the other pool. */
  lemma EdgeMirrors(p: V2PoolState, q: V2PoolState, token: Address)
    requires Valid(p) && Valid(q) && SharePair(p, q) && ContainsToken(p, token)
    ensures EdgeAboveOne(p, q, token) <==> EdgeAboveOne(q, p, OtherToken(p, token).value)
  {
    var other := OtherToken(p, token).value;
    Commute(BPS_DENOMINATOR * ReserveIn(p, token), BPS_DENOMINATOR * ReserveIn(q, other));
    Commute(Keep(p) * ReserveOut(p, token), Keep(q) * ReserveOut(q, other));
  }

  lemma Commute(a: int, b: int)
    ensures a * b == b * a
  {}

  /** Between two pools only one direction is ever reported, at any amounts: neither the pools
      swapped for the same settlement token, nor the same order settled in the other token. */
  lemma OneDirectionOnly(input: LoopInput, opposite: LoopInput)
    requires Valid(input.firstPool) && Valid(input.secondPool)
    requires
      || (&& opposite.firstPool == input.secondPool && opposite.secondPool == input.firstPool
          && opposite.settlementToken == input.settlementToken)
      || (&& opposite.firstPool == input.firstPool && opposite.secondPool == input.secondPool
          && opposite.settlementToken != input.settlementToken)
    ensures Detect(input).None? || Detect(opposite).None?
  {
    if Detect(input).Some? && Detect(opposite).Some? {
      DetectsExactly(input);
      DetectsExactly(opposite);
      ReportNeedsEdge(input);
      ReportNeedsEdge(opposite);
      var p, q, token := input.firstPool, input.secondPool, input.settlementToken;
      EdgeIsOneWay(p, q, token);
      if opposite.firstPool == q {
        EdgeMirrors(p, q, OtherToken(p, token).value);
      }
    }
  }
}
