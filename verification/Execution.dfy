/** Execution attempts: preparation under the submission policy, the router plan built from a
    request, and the attempt's life from built to final. */
module Execution {
  import opened Arithmetic
  import opened Common
  import opened Decision
  import R = Router

  datatype ExecutionMode = Shadow | Canary | Live

  /** Configuration with its numeric strings already parsed. */
  datatype ExecutionConfig = ExecutionConfig(
    mode: ExecutionMode,
    canaryMaxTradeWei: Option<Amount>,
    canaryMaxDailyWei: Option<Amount>,
    gasLimitMultiplierBps: U32,
    maxFeePerGas: Option<Amount>,
    maxPriorityFeePerGas: Option<Amount>,
    routerAddress: Option<Address>,
    planDeadlineSecs: U64,
    useFlashloan: bool,
    ethcallPreflightRequired: bool)

  datatype ExecutionStatus = Built | Submitted | Included | Reverted | Dropped | Replaced | ProfitRealized

  datatype BlockedReason = BuildOnlyMode | AboveCanaryTrade | AboveCanaryDaily

  datatype ExecutionAttempt = ExecutionAttempt(
    requestId: string,
    txHash: Option<string>,
    status: ExecutionStatus,
    mode: ExecutionMode,
    submissionAllowed: bool,
    blockedReason: Option<BlockedReason>,
    requestedNotional: Amount,
    gasLimit: Option<U64>,
    maxFeePerGas: Option<Amount>,
    maxPriorityFeePerGas: Option<Amount>)

  datatype ExecutionReceipt = ExecutionReceipt(
    requestId: string,
    txHash: string,
    blockNumber: Option<U64>,
    success: bool,
    gasUsed: Option<U64>,
    effectiveGasPrice: Option<Amount>,
    l1FeePaid: Option<Amount>,
    revertReason: Option<string>)

  datatype ExecutionOutcome = ExecutionOutcome(
    requestId: string,
    finalStatus: ExecutionStatus,
    txHash: string,
    blockNumber: Option<U64>,
    totalFeePaid: Option<Amount>,
    realizedSurplus: Option<Amount>)

  datatype FinalizedExecution = FinalizedExecution(attempt: ExecutionAttempt, outcome: ExecutionOutcome)

  datatype ExecutionError =
    | NoSteps
    | ZeroNotional
    | GasLimitOverflow
    | MissingConfig
    | LedgerOverflow
    | MissingField
    | BadAddress
    | InvalidPoolFee
    | UnsupportedHint(step: nat)
    | DeadlineOverflow
    | NotBuilt
    | SubmissionBlocked
    | BlankHash
    | NotFinalizable
    | HashMismatch
    | FeeOverflow
    | NotSubmitted
    | BlankReason

  // ----- Preparation -----

  /** Ceiling of gas * multiplier / 10000, if it fits a `u64`. */
  function PaddedGasLimit(gasEstimate: U64, multiplierBps: U32): (r: Result<U64, ExecutionError>)
    ensures r.Ok? <==> gasEstimate * multiplierBps <= 10_000 * U64_MAX
    ensures r.Ok? ==> 10_000 * (r.value - 1) < gasEstimate * multiplierBps <= 10_000 * r.value
  {
    var numerator := gasEstimate * multiplierBps;
    var padded := (numerator + 9_999) / 10_000;
    if 0 <= padded <= U64_MAX then Ok(padded) else Err(GasLimitOverflow)
  }

  /** Whether submission is allowed, given the notional already submittable today; none when it is. */
  function SubmissionPolicy(config: ExecutionConfig, notional: Amount, ledger: Amount)
      : Result<Option<BlockedReason>, ExecutionError>
  {
    match config.mode
    case Shadow => Ok(Some(BuildOnlyMode))
    case Live => Ok(None)
    case Canary =>
      if config.canaryMaxTradeWei.None? || config.canaryMaxDailyWei.None? then Err(MissingConfig)
      else if notional > config.canaryMaxTradeWei.value then Ok(Some(AboveCanaryTrade))
      else if ledger + notional >= TWO_128 then Err(LedgerOverflow)
      else if ledger + notional > config.canaryMaxDailyWei.value then Ok(Some(AboveCanaryDaily))
      else Ok(None)
  }

  function RequestedNotional(request: ExecutionRequest): Amount {
    request.flashloanAmount.GetOr(request.minRepay)
  }

  predicate Within(limit: Option<Amount>, total: nat) {
    limit.Some? && total <= limit.value
  }

  /** Live mode, or canary mode within its trade and daily limits. */
  predicate Submittable(config: ExecutionConfig, notional: Amount, ledger: Amount) {
    || config.mode == Live
    || (&& config.mode == Canary && Within(config.canaryMaxTradeWei, notional)
        && Within(config.canaryMaxDailyWei, ledger + notional))
  }

  /** Canary mode needs both limits, and a ledger sum that fits unless the trade limit decides first. */
  predicate PolicyDecides(config: ExecutionConfig, notional: Amount, ledger: Amount) {
    config.mode == Canary ==>
      && config.canaryMaxTradeWei.Some? && config.canaryMaxDailyWei.Some?
      && (notional > config.canaryMaxTradeWei.value || ledger + notional < TWO_128)
  }

  function PrepareExecution(config: ExecutionConfig, request: ExecutionRequest, simulation: SimulationResult,
                            ledger: Amount): (r: Result<ExecutionAttempt, ExecutionError>)
    ensures r.Ok? ==> Sound(r.value) && r.value.status == Built && r.value.requestId == request.opportunityId
    ensures r.Ok? ==> r.value.requestedNotional == RequestedNotional(request) > 0
    ensures r.Ok? ==> (r.value.submissionAllowed <==> Submittable(config, RequestedNotional(request), ledger))
    ensures r.Ok? <==>
            && request.steps != [] && RequestedNotional(request) > 0
            && simulation.gasEstimate * config.gasLimitMultiplierBps <= 10_000 * U64_MAX
            && PolicyDecides(config, RequestedNotional(request), ledger)
  {
    if request.steps == [] then Err(NoSteps) else
    var notional := RequestedNotional(request);
    if notional == 0 then Err(ZeroNotional) else
    var gasLimit :- PaddedGasLimit(simulation.gasEstimate, config.gasLimitMultiplierBps);
    var blocked :- SubmissionPolicy(config, notional, ledger);
    Ok(ExecutionAttempt(request.opportunityId, None, Built, config.mode, blocked.None?, blocked, notional,
                        Some(gasLimit), config.maxFeePerGas, config.maxPriorityFeePerGas))
  }

  // ----- Router plan -----

  const V3_FEE_LIMIT: nat := 1_000_000

  predicate HexDigit(c: char) {
    '0' <= c <= '9' || 'a' <= c <= 'f'
  }

  /** An address in canonical spelling: "0x" and forty hexadecimal digits. */
  predicate IsAddress(text: Address) {
    |text| == 42 && text[..2] == "0x" && forall i | 2 <= i < 42 :: HexDigit(text[i])
  }

  function ParseAddress(text: Address): Result<Address, ExecutionError> {
    if IsAddress(text) then Ok(text) else Err(BadAddress)
  }

  function BuildRouteStep(step: ExecutionStep, index: nat): Result<R.Step, ExecutionError> {
    if step.calldataHint.None? then Err(MissingField) else
    var hint := step.calldataHint.value;
    var _ :- ParseAddress(step.target);
    var _ :- ParseAddress(step.tokenIn);
    var _ :- ParseAddress(step.tokenOut);
    if hint == "uniswap_v3_exact_input_single" || hint == "v3_exact_input_single" then
      if step.poolFee.None? then Err(MissingField)
      else if step.poolFee.value > V3_FEE_LIMIT then Err(InvalidPoolFee)
      else Ok(R.Step(R.UniswapV3Single, step.target, step.tokenIn, step.tokenOut, step.poolFee.value,
                     step.minAmountOut, R.Undecodable))
    else if hint == "v2_exact_input" || hint == "uniswap_v2_exact_input" then
      Ok(R.Step(R.UniswapV2, step.target, step.tokenIn, step.tokenOut, 0, step.minAmountOut, R.Undecodable))
    else if hint == "aerodrome_v2_volatile" || hint == "aerodrome_v2_stable" then
      if step.auxAddress.None? then Err(MissingField)
      else if !IsAddress(step.auxAddress.value) then Err(BadAddress)
      else Ok(R.Step(R.AerodromeV2, step.target, step.tokenIn, step.tokenOut, 0, step.minAmountOut,
                     R.Encoded(hint == "aerodrome_v2_stable", step.auxAddress.value)))
    else Err(UnsupportedHint(index))
  }

  /** Step `i` cannot be built, and every step before it can. */
  predicate FirstBadStep(steps: seq<ExecutionStep>, i: nat)
    requires i < |steps|
  {
    BuildRouteStep(steps[i], i).Err? && forall j | 0 <= j < i :: BuildRouteStep(steps[j], j).Ok?
  }

  /** The first `n` steps, or the first error among them. */
  function BuildRouteSteps(steps: seq<ExecutionStep>, n: nat): (r: Result<seq<R.Step>, ExecutionError>)
    requires n <= |steps|
    ensures r.Ok? ==> |r.value| == n && forall i | 0 <= i < n :: BuildRouteStep(steps[i], i) == Ok(r.value[i])
    ensures r.Err? ==> exists i | 0 <= i < n :: FirstBadStep(steps, i) && BuildRouteStep(steps[i], i) == Err(r.error)
  {
    if n == 0 then Ok([]) else
    var built :- BuildRouteSteps(steps, n - 1);
    var step :- BuildRouteStep(steps[n - 1], n - 1);
    Ok(built + [step])
  }

  function BuildPlan(config: ExecutionConfig, request: ExecutionRequest, now: U64): Result<R.Plan, ExecutionError> {
    if config.routerAddress.None? then Err(MissingConfig) else
    var _ :- ParseAddress(config.routerAddress.value);
    if request.flashloanAsset.None? then Err(MissingField) else
    var _ :- ParseAddress(request.flashloanAsset.value);
    if request.flashloanAmount.None? then Err(MissingField)
    else
      var steps :- BuildRouteSteps(request.steps, |request.steps|);
      if now + config.planDeadlineSecs > U64_MAX then Err(DeadlineOverflow)
      else Ok(R.Plan(request.flashloanAsset.value, request.flashloanAmount.value, request.minRepay,
                     request.minSurplus, now + config.planDeadlineSecs, steps, request.riskHash))
  }

  // ----- Life of an attempt -----

  predicate Whitespace(c: char) {
    c == ' ' || c == '\t' || c == '\n' || c == '\r'
  }

  predicate Blank(text: string) {
    forall i | 0 <= i < |text| :: Whitespace(text[i])
  }

  function MarkSubmitted(attempt: ExecutionAttempt, txHash: string): Result<ExecutionAttempt, ExecutionError> {
    if attempt.status != Built then Err(NotBuilt)
    else if !attempt.submissionAllowed then Err(SubmissionBlocked)
    else if Blank(txHash) then Err(BlankHash)
    else Ok(attempt.(status := Submitted, txHash := Some(txHash)))
  }

  /** Execution fee plus L1 fee where both gas figures are known, else the L1 fee. */
  function TotalFeePaid(receipt: ExecutionReceipt): (r: Result<Option<Amount>, ExecutionError>)
    ensures r.Err? <==>
              && receipt.gasUsed.Some? && receipt.effectiveGasPrice.Some?
              && receipt.gasUsed.value * receipt.effectiveGasPrice.value + receipt.l1FeePaid.GetOr(0) >= TWO_128
    ensures r.Ok? && receipt.gasUsed.Some? && receipt.effectiveGasPrice.Some? ==>
              && r.value.Some?
              && r.value.value == receipt.gasUsed.value * receipt.effectiveGasPrice.value + receipt.l1FeePaid.GetOr(0)
    ensures receipt.gasUsed.None? || receipt.effectiveGasPrice.None? ==> r == Ok(receipt.l1FeePaid)
  {
    if receipt.gasUsed.Some? && receipt.effectiveGasPrice.Some? then
      MulNonNeg(receipt.gasUsed.value, receipt.effectiveGasPrice.value);
      var fee := receipt.gasUsed.value * receipt.effectiveGasPrice.value;
      if fee >= TWO_128 || fee + receipt.l1FeePaid.GetOr(0) >= TWO_128 then Err(FeeOverflow)
      else Ok(Some(fee + receipt.l1FeePaid.GetOr(0)))
    else Ok(receipt.l1FeePaid)
  }

  function ClassifySuccess(realizedSurplus: Option<Amount>, minSurplus: Amount): ExecutionStatus {
    if realizedSurplus.Some? && realizedSurplus.value >= minSurplus then ProfitRealized else Included
  }

  function FinalizeFromReceipt(attempt: ExecutionAttempt, receipt: ExecutionReceipt,
                               realizedSurplus: Option<Amount>, minSurplus: Amount)
      : (r: Result<FinalizedExecution, ExecutionError>)
    ensures r.Ok? <==>
            && (attempt.status == Submitted || attempt.status == Included)
            && (attempt.txHash.Some? ==> attempt.txHash.value == receipt.txHash)
            && TotalFeePaid(receipt).Ok?
    ensures r.Ok? ==>
              && r.value.outcome.finalStatus == r.value.attempt.status
              && r.value.attempt.txHash == Some(r.value.outcome.txHash)
              && (attempt.txHash.Some? ==> r.value.attempt.txHash == attempt.txHash)
              && (r.value.attempt.status == Reverted <==> !receipt.success)
              && (r.value.attempt.status == ProfitRealized <==>
                    receipt.success && realizedSurplus.Some? && realizedSurplus.value >= minSurplus)
  {
    if attempt.status != Submitted && attempt.status != Included then Err(NotFinalizable)
    else if attempt.txHash.Some? && attempt.txHash.value != receipt.txHash then Err(HashMismatch)
    else
      var fee :- TotalFeePaid(receipt);
      var status := if receipt.success then ClassifySuccess(realizedSurplus, minSurplus) else Reverted;
      Ok(FinalizedExecution(
        attempt.(txHash := Some(receipt.txHash), status := status),
        ExecutionOutcome(attempt.requestId, status, receipt.txHash, receipt.blockNumber, fee, realizedSurplus)))
  }

  function MarkDropped(attempt: ExecutionAttempt, reason: string): (r: Result<FinalizedExecution, ExecutionError>)
    ensures r.Ok? <==> attempt.status == Submitted && !Blank(reason) && attempt.txHash.Some?
    ensures r.Ok? ==> r.value.attempt == attempt.(status := Dropped) && r.value.outcome.finalStatus == Dropped
    ensures r.Ok? ==> attempt.txHash == Some(r.value.outcome.txHash)
  {
    if attempt.status != Submitted then Err(NotSubmitted)
    else if Blank(reason) then Err(BlankReason)
    else if attempt.txHash.None? then Err(MissingField)
    else Ok(FinalizedExecution(
      attempt.(status := Dropped),
      ExecutionOutcome(attempt.requestId, Dropped, attempt.txHash.value, None, None, None)))
  }

  /** Any transition that may be asked of an attempt; a refused one leaves it as it was. */
  datatype Transition =
    | Submit(txHash: string)
    | Finalize(receipt: ExecutionReceipt, realizedSurplus: Option<Amount>, minSurplus: Amount)
    | Drop(reason: string)

  function Advance(attempt: ExecutionAttempt, transition: Transition): ExecutionAttempt {
    match transition
    case Submit(txHash) =>
      (match MarkSubmitted(attempt, txHash)
       case Ok(updated) => updated
       case Err(_) => attempt)
    case Finalize(receipt, surplus, minSurplus) =>
      (match FinalizeFromReceipt(attempt, receipt, surplus, minSurplus)
       case Ok(done) => done.attempt
       case Err(_) => attempt)
    case Drop(reason) =>
      (match MarkDropped(attempt, reason)
       case Ok(done) => done.attempt
       case Err(_) => attempt)
  }

  function Life(attempt: ExecutionAttempt, transitions: seq<Transition>): ExecutionAttempt {
    if transitions == [] then attempt
    else Advance(Life(attempt, transitions[..|transitions| - 1]), transitions[|transitions| - 1])
  }

  /** Only allowed attempts have left `Built`, and exactly those carry a transaction hash. */
  predicate Sound(attempt: ExecutionAttempt) {
    && (attempt.status != Built ==> attempt.submissionAllowed)
    && (attempt.status == Built <==> attempt.txHash.None?)
    && (attempt.submissionAllowed <==> attempt.blockedReason.None?)
  }

  predicate Terminal(status: ExecutionStatus) {
    status == Reverted || status == Dropped || status == ProfitRealized
  }

  /** Over every sequence of requested transitions: the attempt stays sound, a blocked attempt never
      moves, a hash once set never changes, and final states absorb. */
  lemma {:induction false} LifeIsSound(attempt: ExecutionAttempt, transitions: seq<Transition>)
    requires Sound(attempt)
    ensures
      var after := Life(attempt, transitions);
      && Sound(after) && after.submissionAllowed == attempt.submissionAllowed
      && (!attempt.submissionAllowed ==> after == attempt)
      && (attempt.txHash.Some? ==> after.txHash == attempt.txHash)
      && (Terminal(attempt.status) ==> after == attempt)
      && (attempt.status != Replaced ==> after.status != Replaced)
  {
    if transitions != [] {
      LifeIsSound(attempt, transitions[..|transitions| - 1]);
    }
  }

  /** A run may be cut anywhere: what holds of any start holds of every intermediate attempt. */
  lemma {:induction false} LifeSplits(attempt: ExecutionAttempt, first: seq<Transition>, second: seq<Transition>)
    ensures Life(attempt, first + second) == Life(Life(attempt, first), second)
  {
    if second == [] {
      assert first + second == first;
    } else {
      var last := |second| - 1;
      LifeSplits(attempt, first, second[..last]);
      assert (first + second)[..|first + second| - 1] == first + second[..last];
    }
  }
}
