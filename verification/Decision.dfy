/** Records exchanged between detection, simulation, risk and execution. */
module Decision {
  import opened Common

  datatype OpportunityKind = TwoLegLoop | Triangle | Backrun | JitLiquidity

  datatype RouteLeg = RouteLeg(
    target: Address,
    poolAddress: Option<Address>,
    tokenIn: Address,
    tokenOut: Address,
    amountIn: Option<Amount>,
    minAmountOut: Option<Amount>)

  datatype Opportunity = Opportunity(
    id: string,
    kind: OpportunityKind,
    blockContext: BlockContext,
    settlementToken: Address,
    inputAmount: Amount,
    expectedOutputAmount: Amount,
    expectedNetProfit: Amount,
    route: seq<RouteLeg>,
    triggerTxHash: Option<string>)

  datatype SimulationResult = SimulationResult(
    opportunityId: string,
    accepted: bool,
    expectedGrossProfit: Amount,
    expectedNetProfit: Amount,
    gasEstimate: U64,
    gasCostWei: Amount,
    l1DataFee: Amount)

  /** The hash of a decision, as the tuple of values it commits to. */
  datatype RiskHash = RiskHash(
    id: string,
    expectedOutputAmount: Amount,
    expectedNetProfit: Amount,
    gasCostWei: Amount,
    l1DataFee: Amount,
    minSurplus: Amount)

  datatype DenyReason =
    | KillSwitchFile
    | SimulationRejected
    | BelowMinNetProfit
    | BelowMinProfitBps
    | AboveTradeCap
    | TokenRejected
    | PathShortfall
    | OperatorKilled
    | BreakerTripped(reverts: U32)
    | AboveBlockCap(projected: Amount)
    | AboveDailyCap(projected: Amount)

  datatype RiskDecision = RiskDecision(
    opportunityId: string,
    accepted: bool,
    reason: Option<DenyReason>,
    riskHash: RiskHash,
    minSurplus: Amount)

  datatype ExecutionStep = ExecutionStep(
    target: Address,
    tokenIn: Address,
    tokenOut: Address,
    poolFee: Option<U32>,
    amountIn: Option<Amount>,
    minAmountOut: Amount,
    calldataHint: Option<string>,
    auxAddress: Option<Address>)

  datatype ExecutionRequest = ExecutionRequest(
    opportunityId: string,
    steps: seq<ExecutionStep>,
    minRepay: Amount,
    minSurplus: Amount,
    flashloanAsset: Option<Address>,
    flashloanAmount: Option<Amount>,
    riskHash: RiskHash)
}
