/** From a detected loop to settlement: every plan built from a detected, simulated and accepted loop
    is well routed, and committing it pays the caller at least what the simulation promised. */
module EndToEnd {
  import opened Common
  import opened Decision
  import opened Detection
  import V2 = V2Pool
  import Q = Requests
  import K = RiskEngine
  import X = Execution
  import R = Router
  import opened RouterProtocol
  import opened RouterFunds
  import opened RouterRoutes

  /** The pipeline's inputs besides the pools: cost model, risk engine, configuration and clocks. */
  datatype Pipeline = Pipeline(
    input: LoopInput,
    costs: Q.SimulationConfig,
    policy: K.RiskPolicy,
    risk: K.RiskState,
    assessedAt: U64,
    killFile: bool,
    config: X.ExecutionConfig,
    builtAt: U64)

  ghost predicate ValidPools(p: Pipeline) {
    V2.Valid(p.input.firstPool) && V2.Valid(p.input.secondPool)
  }

  function DecisionOf(p: Pipeline, found: Opportunity, simulation: SimulationResult): RiskDecision {
    K.Decide(p.policy, p.risk, K.Assessment(found, simulation, p.assessedAt, p.killFile))
  }

  /** The plan, if the loop is detected, simulated, accepted and built. */
  function PlanOf(p: Pipeline): Option<R.Plan>
    requires V2.Valid(p.input.firstPool) && V2.Valid(p.input.secondPool)
  {
    var found :- Detect(p.input);
    var simulation :- Q.Simulate(found, p.costs);
    var request :- Q.RequestFor(found, DecisionOf(p, found, simulation));
    match X.BuildPlan(p.config, request, p.builtAt)
    case Ok(plan) => Some(plan)
    case Err(_) => None
  }

  /** The simulated gross profit. */
  function GrossProfit(p: Pipeline): nat
    requires V2.Valid(p.input.firstPool) && V2.Valid(p.input.secondPool) && Detect(p.input).Some?
  {
    Detect(p.input).value.expectedNetProfit
  }

  /** What the plan says: a chained route whose last minimum is the funding plus the gross profit,
      and a gross profit that covers the costs and the configured minimum. */
  lemma PlanKeepsPromise(p: Pipeline)
    requires ValidPools(p) && PlanOf(p).Some?
    ensures Detect(p.input).Some?
    ensures
      var plan := PlanOf(p).value;
      && Chained(plan)
      && plan.steps[|plan.steps| - 1].minAmountOut == plan.fundingAmount + GrossProfit(p)
      && plan.settlementToken == p.input.settlementToken
      && plan.fundingAmount == plan.minRepayAmount == p.input.amountIn
      && plan.minSurplus == p.policy.minNetProfitWei && plan.deadline >= p.builtAt
    ensures GrossProfit(p) >= p.policy.minNetProfitWei + p.costs.gasCostWei + p.costs.l1DataFeeWei
  {
    var found := Detect(p.input).value;
    DetectsExactly(p.input);
    var simulation := Q.Simulate(found, p.costs).value;
    var decision := DecisionOf(p, found, simulation);
    RequestToPlan(p, found, decision);
    AcceptedCovers(p, found, simulation);
  }

  /** A request for a closed two-leg loop becomes a chained two-step plan. */
  lemma RequestToPlan(p: Pipeline, found: Opportunity, decision: RiskDecision)
    requires |found.route| == 2 && ClosedRoute(found, found.route[0].tokenOut)
    requires Q.RequestFor(found, decision).Some?
    requires X.BuildPlan(p.config, Q.RequestFor(found, decision).value, p.builtAt).Ok?
    ensures
      var plan := X.BuildPlan(p.config, Q.RequestFor(found, decision).value, p.builtAt).value;
      && Chained(plan)
      && plan.steps[|plan.steps| - 1].minAmountOut == found.expectedOutputAmount
      && plan.settlementToken == found.settlementToken
      && plan.fundingAmount == plan.minRepayAmount == found.inputAmount
      && plan.minSurplus == decision.minSurplus && plan.deadline >= p.builtAt
  {
    var request := Q.RequestFor(found, decision).value;
    var plan := X.BuildPlan(p.config, request, p.builtAt).value;
    assert X.BuildRouteStep(request.steps[0], 0) == Ok(plan.steps[0]);
    assert X.BuildRouteStep(request.steps[1], 1) == Ok(plan.steps[1]);
    StepTokens(request.steps[0], 0);
    StepTokens(request.steps[1], 1);
  }

  lemma StepTokens(step: ExecutionStep, index: nat)
    requires X.BuildRouteStep(step, index).Ok?
    ensures
      var built := X.BuildRouteStep(step, index).value;
      && built.tokenIn == step.tokenIn && built.tokenOut == step.tokenOut
      && built.minAmountOut == step.minAmountOut
  {}

  lemma AcceptedCovers(p: Pipeline, found: Opportunity, simulation: SimulationResult)
    requires Q.Simulate(found, p.costs) == Some(simulation) && DecisionOf(p, found, simulation).accepted
    ensures DecisionOf(p, found, simulation).minSurplus == p.policy.minNetProfitWei
    ensures found.expectedOutputAmount - found.inputAmount
         >= p.policy.minNetProfitWei + p.costs.gasCostWei + p.costs.l1DataFeeWei
  {
    var a := K.Assessment(found, simulation, p.assessedAt, p.killFile);
    assert K.EarlyReject(p.policy, p.risk, a).None?;
    assert K.StatelessReject(p.policy, a).None?;
  }

  /** The two tokens and the two pools of a loop are spelled as addresses. */
  predicate Addressed(p: Pipeline)
    requires V2.Valid(p.input.firstPool) && V2.Valid(p.input.secondPool)
  {
    && X.IsAddress(p.input.firstPool.address) && X.IsAddress(p.input.secondPool.address)
    && X.IsAddress(p.input.firstPool.token0) && X.IsAddress(p.input.firstPool.token1)
  }

  /** An accepted loop yields a plan if and only if a router address is configured, the deadline fits,
      and the loop's pools and tokens are spelled as addresses. */
  lemma AcceptedLoopsBecomePlans(p: Pipeline)
    requires ValidPools(p) && Detect(p.input).Some? && Q.Simulate(Detect(p.input).value, p.costs).Some?
    requires DecisionOf(p, Detect(p.input).value, Q.Simulate(Detect(p.input).value, p.costs).value).accepted
    ensures PlanOf(p).Some? <==>
            && p.config.routerAddress.Some? && X.IsAddress(p.config.routerAddress.value)
            && p.builtAt + p.config.planDeadlineSecs <= U64_MAX
            && Addressed(p)
  {
    var found := Detect(p.input).value;
    DetectsExactly(p.input);
    LoopStepsBuild(found, DecisionOf(p, found, Q.Simulate(found, p.costs).value));
  }

  lemma LoopStepsBuild(found: Opportunity, decision: RiskDecision)
    requires |found.route| == 2 && ClosedRoute(found, found.route[0].tokenOut) && decision.accepted
    requires found.route[0].minAmountOut.Some?
    ensures Q.RequestFor(found, decision).Some?
    ensures
      var steps := Q.RequestFor(found, decision).value.steps;
      && |steps| == 2
      && (X.BuildRouteSteps(steps, 2).Ok? <==>
            && X.IsAddress(found.route[0].target) && X.IsAddress(found.route[1].target)
            && X.IsAddress(found.settlementToken) && X.IsAddress(found.route[0].tokenOut))
  {
    assert Q.Complete(found.route);
    var steps := Q.RequestFor(found, decision).value.steps;
    StepBuilds(steps[0], 0);
    StepBuilds(steps[1], 1);
    TwoStepsBuild(steps);
  }

  lemma StepBuilds(step: ExecutionStep, index: nat)
    requires step.calldataHint == Some(Q.V2_EXACT_INPUT)
    ensures X.BuildRouteStep(step, index).Ok? <==>
            X.IsAddress(step.target) && X.IsAddress(step.tokenIn) && X.IsAddress(step.tokenOut)
  {}

  lemma TwoStepsBuild(steps: seq<ExecutionStep>)
    requires |steps| == 2
    ensures X.BuildRouteSteps(steps, 2).Ok? <==> X.BuildRouteStep(steps[0], 0).Ok? && X.BuildRouteStep(steps[1], 1).Ok?
  {
    assert X.BuildRouteSteps(steps, 0) == Ok([]);
  }

  /** A chained plan whose last minimum is its funding plus a promise. */
  predicate Promises(plan: R.Plan, gain: nat) {
    Chained(plan) && plan.steps[|plan.steps| - 1].minAmountOut == plan.fundingAmount + gain
  }

  lemma SelfFundedPays(host: R.Host, chain: R.Chain, sender: Address, plan: R.Plan, replies: seq<R.Reply>, gain: nat)
    requires Promises(plan, gain)
    ensures
      var r := R.ExecutePlan(host, chain, sender, plan, replies);
      && (r.Err? ==> !Misroute(r.error))
      && (r.Ok? && sender != host.router && SparesReplies(replies, sender) ==>
            R.Balance(r.value, plan.settlementToken, sender) >= R.Balance(chain, plan.settlementToken, sender) + gain)
  {
    PlanMisroutesOnlyUnchained(host, chain, sender, plan, replies);
    if R.ExecutePlan(host, chain, sender, plan, replies).Ok? && sender != host.router && SparesReplies(replies, sender) {
      PlanSettlesOnce(host, chain, sender, plan, replies);
      PlanGain(host, chain, sender, plan, replies);
    }
  }

  lemma FlashLoanedPays(host: R.Host, chain: R.Chain, sender: Address, plan: R.Plan, vault: seq<R.Action>, gain: nat)
    requires Promises(plan, gain)
    ensures
      var r := R.ExecutePlanWithFlashLoan(host, chain, sender, plan, vault);
      && (r.Err? ==> !Misroute(r.error))
      && (r.Ok? && sender != host.router && Spares(vault, sender) ==>
            R.Balance(r.value, plan.settlementToken, sender) >= R.Balance(chain, plan.settlementToken, sender) + gain)
  {
    if R.ExecutePlanWithFlashLoan(host, chain, sender, plan, vault).Err? {
      LoanMisroutesOnlyUnchained(host, chain, sender, plan, vault);
    } else if sender != host.router && Spares(vault, sender) {
      LoanSettlesOnce(host, chain, sender, plan, vault);
      LoanGain(host, chain, sender, plan, vault);
    }
  }

  /** Self-funded: never misrouted; if it commits, the caller gains at least the gross profit. */
  lemma SelfFundedKeepsPromise(p: Pipeline, plan: R.Plan, host: R.Host, chain: R.Chain, sender: Address,
                               replies: seq<R.Reply>)
    requires ValidPools(p) && PlanOf(p) == Some(plan)
    ensures Detect(p.input).Some?
    ensures
      var r := R.ExecutePlan(host, chain, sender, plan, replies);
      && (r.Err? ==> !Misroute(r.error))
      && (r.Ok? && sender != host.router && SparesReplies(replies, sender) ==>
            R.Balance(r.value, p.input.settlementToken, sender)
              >= R.Balance(chain, p.input.settlementToken, sender) + GrossProfit(p))
  {
    PlanKeepsPromise(p);
    SelfFundedPays(host, chain, sender, plan, replies, GrossProfit(p));
  }

  /** Flash-loaned: the same, for every behaviour of the vault and the venues. */
  lemma FlashLoanedKeepsPromise(p: Pipeline, plan: R.Plan, host: R.Host, chain: R.Chain, sender: Address,
                                vault: seq<R.Action>)
    requires ValidPools(p) && PlanOf(p) == Some(plan)
    ensures Detect(p.input).Some?
    ensures
      var r := R.ExecutePlanWithFlashLoan(host, chain, sender, plan, vault);
      && (r.Err? ==> !Misroute(r.error))
      && (r.Ok? && sender != host.router && Spares(vault, sender) ==>
            R.Balance(r.value, p.input.settlementToken, sender)
              >= R.Balance(chain, p.input.settlementToken, sender) + GrossProfit(p))
  {
    PlanKeepsPromise(p);
    FlashLoanedPays(host, chain, sender, plan, vault, GrossProfit(p));
  }
}
