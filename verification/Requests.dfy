/** From a detected loop to an execution request: simulation under a cost model, and the steps built
    from an accepted opportunity. */
module Requests {
  import opened Common
  import opened Decision

  datatype SimulationConfig = SimulationConfig(gasEstimate: U64, gasCostWei: Amount, l1DataFeeWei: Amount)

  /** Simulation of a two-leg loop; none when the loop is malformed or does not cover its costs. */
  function Simulate(opportunity: Opportunity, config: SimulationConfig): (r: Option<SimulationResult>)
    ensures r.Some? <==>
            && opportunity.kind == TwoLegLoop && |opportunity.route| == 2
            && opportunity.expectedOutputAmount >= opportunity.inputAmount + config.gasCostWei + config.l1DataFeeWei
    ensures r.Some? ==>
              && r.value.opportunityId == opportunity.id
              && opportunity.expectedOutputAmount
                 == opportunity.inputAmount + r.value.expectedNetProfit + r.value.gasCostWei + r.value.l1DataFee
              && r.value.gasCostWei == config.gasCostWei && r.value.l1DataFee == config.l1DataFeeWei
              && opportunity.expectedOutputAmount == opportunity.inputAmount + r.value.expectedGrossProfit
              && (r.value.accepted <==> opportunity.expectedOutputAmount
                                        > opportunity.inputAmount + config.gasCostWei + config.l1DataFeeWei)
  {
    if opportunity.kind != TwoLegLoop || |opportunity.route| != 2 then None
    else if opportunity.expectedOutputAmount < opportunity.inputAmount then None
    else
      var gross := opportunity.expectedOutputAmount - opportunity.inputAmount;
      if gross < config.gasCostWei then None
      else if gross - config.gasCostWei < config.l1DataFeeWei then None
      else
        var net := gross - config.gasCostWei - config.l1DataFeeWei;
        Some(SimulationResult(opportunity.id, net > 0, gross, net, config.gasEstimate,
                              config.gasCostWei, config.l1DataFeeWei))
  }

  const V2_EXACT_INPUT := "v2_exact_input"

  function StepFor(leg: RouteLeg): ExecutionStep
    requires leg.minAmountOut.Some?
  {
    ExecutionStep(leg.target, leg.tokenIn, leg.tokenOut, None, leg.amountIn, leg.minAmountOut.value,
                  Some(V2_EXACT_INPUT), None)
  }

  /** Every leg states a minimum output. */
  predicate Complete(route: seq<RouteLeg>) {
    forall i | 0 <= i < |route| :: route[i].minAmountOut.Some?
  }

  function StepsFor(route: seq<RouteLeg>): (steps: seq<ExecutionStep>)
    requires Complete(route)
    ensures |steps| == |route| && forall i | 0 <= i < |route| :: steps[i] == StepFor(route[i])
  {
    seq(|route|, i requires 0 <= i < |route| => StepFor(route[i]))
  }

  /** The request of an accepted opportunity: one step per leg, in order, repaying the input. */
  function RequestFor(opportunity: Opportunity, risk: RiskDecision): Option<ExecutionRequest> {
    if !risk.accepted || !Complete(opportunity.route) then None
    else Some(ExecutionRequest(
      opportunity.id, StepsFor(opportunity.route), opportunity.inputAmount, risk.minSurplus,
      Some(opportunity.settlementToken), Some(opportunity.inputAmount), risk.riskHash))
  }

  method BuildExecutionRequest(opportunity: Opportunity, risk: RiskDecision) returns (r: Option<ExecutionRequest>)
    ensures r == RequestFor(opportunity, risk)
  {
    if !risk.accepted {
      return None;
    }
    var steps: seq<ExecutionStep> := [];
    for i := 0 to |opportunity.route|
      invariant |steps| == i && Complete(opportunity.route[..i])
      invariant forall k | 0 <= k < i :: steps[k] == StepFor(opportunity.route[k])
    {
      var leg := opportunity.route[i];
      if leg.minAmountOut.None? {
        return None;
      }
      steps := steps + [StepFor(leg)];
    }
    assert opportunity.route[..|opportunity.route|] == opportunity.route;
    assert steps == StepsFor(opportunity.route);
    return Some(ExecutionRequest(opportunity.id, steps, opportunity.inputAmount, risk.minSurplus,
                                 Some(opportunity.settlementToken), Some(opportunity.inputAmount), risk.riskHash));
  }
}
