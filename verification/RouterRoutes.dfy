/** Which plans can be misrouted: exactly those whose tokens do not form a closed chain. */
module RouterRoutes {
  import opened Common
  import opened Router
  import opened RouterProtocol

  predicate Misroute(e: Revert) {
    e.EmptyRoute? || e.InvalidRouteToken?
  }

  /** The token the route holds before step `n`. */
  function TokenAt(plan: Plan, n: nat): Address
    requires n <= |plan.steps|
  {
    if n == 0 then plan.settlementToken else plan.steps[n - 1].tokenOut
  }

  /** Steps that hand on their token and end where they began. */
  predicate Chained(plan: Plan) {
    && plan.steps != []
    && (forall n | 0 <= n < |plan.steps| :: plan.steps[n].tokenIn == TokenAt(plan, n))
    && TokenAt(plan, |plan.steps|) == plan.settlementToken
  }

  /** While sealed, nothing the environment does fails as a misroute: nested calls fail earlier. */
  lemma {:induction false} SealedErrors(host: Host, chain: Chain, script: seq<Action>)
    requires Sealed(chain) && RunScript(host, chain, script).Err?
    ensures !Misroute(RunScript(host, chain, script).error)
    decreases script, 0
  {
    var last := |script| - 1;
    if RunScript(host, chain, script[..last]).Ok? {
      SealedScript(host, chain, script[..last]);
      SealedActionErrors(host, RunScript(host, chain, script[..last]).value, script[last]);
    } else {
      SealedErrors(host, chain, script[..last]);
    }
  }

  lemma SealedActionErrors(host: Host, chain: Chain, action: Action)
    requires Sealed(chain) && RunAction(host, chain, action).Err?
    ensures !Misroute(RunAction(host, chain, action).error)
  {}

  lemma SwapErrors(host: Host, chain: Chain, step: Step, amountIn: U256, reply: Reply)
    requires Sealed(chain) && SwapStep(host, chain, step, amountIn, reply).Err?
    ensures !Misroute(SwapStep(host, chain, step, amountIn, reply).error)
  {
    var approved := Approve(chain, step.tokenIn, step.target, amountIn);
    if RunScript(host, approved, reply.inner).Err? {
      SealedErrors(host, approved, reply.inner);
    }
  }

  lemma StepTokens(host: Host, chain: Chain, plan: Plan, replies: seq<Reply>, n: nat)
    requires 0 < n <= |plan.steps| && RouteAfter(host, chain, plan, replies, n).Ok?
    ensures RouteAfter(host, chain, plan, replies, n - 1).Ok?
    ensures RouteAfter(host, chain, plan, replies, n - 1).value.token == plan.steps[n - 1].tokenIn
    ensures RouteAfter(host, chain, plan, replies, n).value.token == plan.steps[n - 1].tokenOut
  {}

  /** A route that got through `n` steps holds the token they lead to. */
  lemma {:induction false} RouteTokens(host: Host, chain: Chain, plan: Plan, replies: seq<Reply>, n: nat)
    requires n <= |plan.steps| && RouteAfter(host, chain, plan, replies, n).Ok?
    ensures RouteAfter(host, chain, plan, replies, n).value.token == TokenAt(plan, n)
    ensures forall i | 0 <= i < n :: plan.steps[i].tokenIn == TokenAt(plan, i)
  {
    if n > 0 {
      StepTokens(host, chain, plan, replies, n);
      RouteTokens(host, chain, plan, replies, n - 1);
    }
  }

  lemma {:induction false} RouteErrors(host: Host, chain: Chain, plan: Plan, replies: seq<Reply>, n: nat)
    requires Sealed(chain) && Chained(plan) && n <= |plan.steps| && RouteAfter(host, chain, plan, replies, n).Err?
    ensures !Misroute(RouteAfter(host, chain, plan, replies, n).error)
  {
    var before := RouteAfter(host, chain, plan, replies, n - 1);
    if before.Err? {
      RouteErrors(host, chain, plan, replies, n - 1);
    } else {
      RouteTokens(host, chain, plan, replies, n - 1);
      SealedRoute(host, chain, plan, replies, n - 1);
      LastStepErrors(host, chain, plan, replies, n, before.value);
    }
  }

  lemma LastStepErrors(host: Host, chain: Chain, plan: Plan, replies: seq<Reply>, n: nat, before: Flow)
    requires 0 < n <= |plan.steps| && RouteAfter(host, chain, plan, replies, n).Err?
    requires RouteAfter(host, chain, plan, replies, n - 1) == Ok(before)
    requires Sealed(before.chain) && plan.steps[n - 1].tokenIn == before.token
    ensures !Misroute(RouteAfter(host, chain, plan, replies, n).error)
  {
    if n - 1 < |replies| && SwapStep(host, before.chain, plan.steps[n - 1], before.amount, replies[n - 1]).Err? {
      SwapErrors(host, before.chain, plan.steps[n - 1], before.amount, replies[n - 1]);
    }
  }

  /** A chained route never fails as a misroute, and a route that completes is chained. */
  lemma RunRouteErrors(host: Host, chain: Chain, plan: Plan, replies: seq<Reply>)
    requires Sealed(chain)
    ensures
      var r := RunRoute(host, chain, plan, replies);
      (r.Ok? ==> Chained(plan)) && (r.Err? && Chained(plan) ==> !Misroute(r.error))
  {
    if RouteAfter(host, chain, plan, replies, |plan.steps|).Ok? {
      RouteTokens(host, chain, plan, replies, |plan.steps|);
    } else if Chained(plan) {
      RouteErrors(host, chain, plan, replies, |plan.steps|);
    }
  }

  /** The self-funded entry point: misroutes only plans that are not chained, and commits only
      chained ones. */
  lemma PlanMisroutesOnlyUnchained(host: Host, chain: Chain, sender: Address, plan: Plan, replies: seq<Reply>)
    ensures
      var r := ExecutePlan(host, chain, sender, plan, replies);
      (r.Ok? ==> Chained(plan)) && (r.Err? && Chained(plan) ==> !Misroute(r.error))
  {
    if CheckEntry(host, chain, sender, plan).Ok? {
      var funded := Transfer(chain.(entered := true), plan.settlementToken, sender, host.router, plan.fundingAmount);
      if funded.Ok? {
        RunRouteErrors(host, funded.value, plan, replies);
      }
    }
  }

  // ----- Flash loans -----

  lemma CallbackErrors(host: Host, chain: Chain, sender: Address, tokens: seq<Address>, amounts: seq<U256>,
                       fees: seq<U256>, userData: UserData, replies: seq<Reply>, caller: Address, plan: Plan)
    requires chain.entered && chain.loan == Some(LoanData(caller, plan))
    ensures
      var r := ReceiveFlashLoan(host, chain, sender, tokens, amounts, fees, userData, replies);
      (r.Ok? ==> Chained(plan)) && (r.Err? && Chained(plan) ==> !Misroute(r.error))
  {
    if userData == LoanData(caller, plan) {
      RunRouteErrors(host, chain.(loan := None), plan, replies);
      var flow := RunRoute(host, chain.(loan := None), plan, replies);
      if flow.Ok? {
        RepayErrors(host, flow.value, caller, plan);
      }
    }
  }

  lemma RepayErrors(host: Host, flow: Flow, caller: Address, plan: Plan)
    ensures Repay(host, flow, caller, plan).Err? ==> !Misroute(Repay(host, flow, caller, plan).error)
  {}

  lemma {:induction false} ArmedErrors(host: Host, chain: Chain, script: seq<Action>, caller: Address, plan: Plan)
    requires chain.entered && chain.loan == Some(LoanData(caller, plan)) && Chained(plan)
    requires RunScript(host, chain, script).Err?
    ensures !Misroute(RunScript(host, chain, script).error)
    decreases script, 0
  {
    var last := |script| - 1;
    if RunScript(host, chain, script[..last]).Err? {
      ArmedErrors(host, chain, script[..last], caller, plan);
    } else {
      ArmedScript(host, chain, script[..last], caller, plan);
      var before := RunScript(host, chain, script[..last]).value;
      if before.loan.Some? {
        ArmedActionErrors(host, before, script[last], caller, plan);
      } else {
        SealedActionErrors(host, before, script[last]);
      }
    }
  }

  lemma ArmedActionErrors(host: Host, chain: Chain, action: Action, caller: Address, plan: Plan)
    requires chain.entered && chain.loan == Some(LoanData(caller, plan)) && Chained(plan)
    requires RunAction(host, chain, action).Err?
    ensures !Misroute(RunAction(host, chain, action).error)
  {
    match action
    case CallReceive(sender, tokens, amounts, fees, userData, replies) =>
      CallbackErrors(host, chain, sender, tokens, amounts, fees, userData, replies, caller, plan);
    case _ =>
  }

  /** The flash-loan entry point never misroutes a chained plan, whatever the vault does. */
  lemma LoanMisroutesOnlyUnchained(host: Host, chain: Chain, sender: Address, plan: Plan, vault: seq<Action>)
    requires Chained(plan) && ExecutePlanWithFlashLoan(host, chain, sender, plan, vault).Err?
    ensures !Misroute(ExecutePlanWithFlashLoan(host, chain, sender, plan, vault).error)
  {
    if CheckEntry(host, chain, sender, plan).Ok? {
      var armed := chain.(entered := true, loan := Some(LoanData(sender, plan)));
      if RunScript(host, armed, vault).Err? {
        ArmedErrors(host, armed, vault, sender, plan);
      }
    }
  }
}
