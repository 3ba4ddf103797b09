/** What a caller gains from a committed plan, whatever vault and venues do short of spending the
    caller's own tokens. */
module RouterFunds {
  import opened Common
  import opened Router
  import opened RouterProtocol

  // ----- The caller's gain -----

  /** No action, at any depth, spends `who`'s tokens. */
  predicate Spares(script: seq<Action>, who: Address)
    decreases script, 0
  {
    forall i | 0 <= i < |script| :: SparesAction(script[i], who)
  }

  predicate SparesAction(action: Action, who: Address)
    decreases action
  {
    match action
    case Move(_, holder, _, _) => holder != who
    case Pull(_, _, _, _) => true
    case CallExecutePlan(_, _, replies) => SparesReplies(replies, who)
    case CallWithFlashLoan(_, _, vault) => Spares(vault, who)
    case CallReceive(_, _, _, _, _, replies) => SparesReplies(replies, who)
    case Try(script) => Spares(script, who)
  }

  predicate SparesReplies(replies: seq<Reply>, who: Address)
    decreases replies, 0
  {
    forall i | 0 <= i < |replies| :: Spares(replies[i].inner, who)
  }

  lemma TransferSpares(chain: Chain, token: Address, holder: Address, to: Address, amount: nat,
                       asset: Address, who: Address)
    requires Transfer(chain, token, holder, to, amount).Ok? && (holder != who || token != asset)
    ensures
      var after := Transfer(chain, token, holder, to, amount).value;
      Balance(after, asset, who)
        == Balance(chain, asset, who) + if asset == token && who == to then amount else 0
  {}

  /** While sealed, a script that spares `who` cannot lower any of its balances. */
  lemma {:induction false} SparedScript(host: Host, chain: Chain, script: seq<Action>, asset: Address, who: Address)
    requires Sealed(chain) && who != host.router && Spares(script, who) && RunScript(host, chain, script).Ok?
    ensures Balance(RunScript(host, chain, script).value, asset, who) >= Balance(chain, asset, who)
    decreases script, 0
  {
    if script != [] {
      var last := |script| - 1;
      SparedScript(host, chain, script[..last], asset, who);
      SealedScript(host, chain, script[..last]);
      SparedAction(host, RunScript(host, chain, script[..last]).value, script[last], asset, who);
    }
  }

  lemma {:induction false} SparedAction(host: Host, chain: Chain, action: Action, asset: Address, who: Address)
    requires Sealed(chain) && who != host.router && SparesAction(action, who) && RunAction(host, chain, action).Ok?
    ensures Balance(RunAction(host, chain, action).value, asset, who) >= Balance(chain, asset, who)
    decreases action
  {
    match action
    case Move(token, holder, to, amount) =>
      TransferSpares(chain, token, holder, to, amount, asset, who);
    case Pull(token, spender, to, amount) =>
      TransferSpares(Approve(chain, token, spender, Allowance(chain, token, spender) - amount),
                     token, host.router, to, amount, asset, who);
    case Try(script) =>
      if RunScript(host, chain, script).Ok? {
        SparedScript(host, chain, script, asset, who);
      }
    case _ =>
  }

  lemma {:induction false} SparedRoute(host: Host, chain: Chain, plan: Plan, replies: seq<Reply>, n: nat,
                                       asset: Address, who: Address)
    requires Sealed(chain) && who != host.router && SparesReplies(replies, who)
    requires n <= |plan.steps| && RouteAfter(host, chain, plan, replies, n).Ok?
    ensures Balance(RouteAfter(host, chain, plan, replies, n).value.chain, asset, who) >= Balance(chain, asset, who)
  {
    if n > 0 {
      SparedRoute(host, chain, plan, replies, n - 1, asset, who);
      SealedRoute(host, chain, plan, replies, n - 1);
      var flow, step := RouteAfter(host, chain, plan, replies, n - 1).value, plan.steps[n - 1];
      SparedScript(host, Approve(flow.chain, step.tokenIn, step.target, flow.amount), replies[n - 1].inner, asset, who);
    }
  }

  /** The settled output of the last committed plan. */
  function LastOutput(chain: Chain): nat
    requires chain.log != []
  {
    chain.log[|chain.log| - 1].amountOut
  }

  /** A committed self-funded plan pays its caller the settled output for the funding, whatever the
      venues do short of spending the caller's own tokens. */
  lemma PlanGain(host: Host, chain: Chain, sender: Address, plan: Plan, replies: seq<Reply>)
    requires sender != host.router && SparesReplies(replies, sender)
    requires ExecutePlan(host, chain, sender, plan, replies).Ok?
    ensures
      var after, token := ExecutePlan(host, chain, sender, plan, replies).value, plan.settlementToken;
      && after.log != []
      && Balance(after, token, sender) + plan.fundingAmount >= Balance(chain, token, sender) + LastOutput(after)
  {
    var token := plan.settlementToken;
    var funded := Transfer(chain.(entered := true), token, sender, host.router, plan.fundingAmount).value;
    SparedRoute(host, funded, plan, replies, |plan.steps|, token, sender);
    var flow := RunRoute(host, funded, plan, replies).value;
    TransferSpares(flow.chain, token, host.router, sender, flow.amount, token, sender);
  }

  /** From a pending loan on: the caller's balance holds, and rises by the surplus once settled. */
  predicate Gained(before: Chain, after: Chain, caller: Address, plan: Plan) {
    if |after.log| == |before.log| then
      Balance(after, plan.settlementToken, caller) >= Balance(before, plan.settlementToken, caller)
    else
      && after.log != []
      && Balance(after, plan.settlementToken, caller) + plan.fundingAmount
         >= Balance(before, plan.settlementToken, caller) + LastOutput(after)
  }

  lemma CallbackGain(host: Host, chain: Chain, sender: Address, tokens: seq<Address>, amounts: seq<U256>,
                     fees: seq<U256>, userData: UserData, replies: seq<Reply>)
    requires chain.entered && userData.LoanData?
    requires userData.caller != host.router && SparesReplies(replies, userData.caller)
    requires ReceiveFlashLoan(host, chain, sender, tokens, amounts, fees, userData, replies).Ok?
    ensures
      var after := ReceiveFlashLoan(host, chain, sender, tokens, amounts, fees, userData, replies).value;
      Gained(chain, after, userData.caller, userData.plan)
  {
    CallbackSettles(host, chain, sender, tokens, amounts, fees, userData, replies);
    var plan, caller := userData.plan, userData.caller;
    SparedRoute(host, chain.(loan := None), plan, replies, |plan.steps|, plan.settlementToken, caller);
    RepayPays(host, RunRoute(host, chain.(loan := None), plan, replies).value, caller, plan);
  }

  lemma RepayPays(host: Host, flow: Flow, caller: Address, plan: Plan)
    requires caller != host.router && Repay(host, flow, caller, plan).Ok?
    ensures Balance(Repay(host, flow, caller, plan).value, plan.settlementToken, caller) + plan.fundingAmount
         >= Balance(flow.chain, plan.settlementToken, caller) + flow.amount
  {
    var token := plan.settlementToken;
    var repaid := Transfer(flow.chain, token, host.router, host.vault, plan.fundingAmount).value;
    TransferSpares(flow.chain, token, host.router, host.vault, plan.fundingAmount, token, caller);
    if flow.amount > plan.fundingAmount {
      TransferSpares(repaid, token, host.router, caller, flow.amount - plan.fundingAmount, token, caller);
    }
  }

  lemma {:induction false} ArmedGain(host: Host, chain: Chain, script: seq<Action>, caller: Address, plan: Plan)
    requires chain.entered && chain.loan == Some(LoanData(caller, plan))
    requires caller != host.router && Spares(script, caller) && RunScript(host, chain, script).Ok?
    ensures Gained(chain, RunScript(host, chain, script).value, caller, plan)
    decreases script, 0
  {
    if script != [] {
      var last := |script| - 1;
      ArmedGain(host, chain, script[..last], caller, plan);
      ArmedScript(host, chain, script[..last], caller, plan);
      var before := RunScript(host, chain, script[..last]).value;
      if before.loan.Some? {
        ArmedActionGain(host, before, script[last], caller, plan);
      } else {
        SealedAction(host, before, script[last]);
        SparedAction(host, before, script[last], plan.settlementToken, caller);
      }
    }
  }

  lemma {:induction false} ArmedActionGain(host: Host, chain: Chain, action: Action, caller: Address, plan: Plan)
    requires chain.entered && chain.loan == Some(LoanData(caller, plan))
    requires caller != host.router && SparesAction(action, caller) && RunAction(host, chain, action).Ok?
    ensures Gained(chain, RunAction(host, chain, action).value, caller, plan)
    decreases action
  {
    var token := plan.settlementToken;
    match action
    case Move(asset, holder, to, amount) =>
      TransferSpares(chain, asset, holder, to, amount, token, caller);
    case Pull(asset, spender, to, amount) =>
      TransferSpares(Approve(chain, asset, spender, Allowance(chain, asset, spender) - amount),
                     asset, host.router, to, amount, token, caller);
    case CallReceive(sender, tokens, amounts, fees, userData, replies) =>
      CallbackGain(host, chain, sender, tokens, amounts, fees, userData, replies);
    case Try(script) =>
      if RunScript(host, chain, script).Ok? {
        ArmedGain(host, chain, script, caller, plan);
      }
    case _ =>
  }

  /** A committed flash-loan plan raises its caller's balance by at least output minus funding. */
  lemma LoanGain(host: Host, chain: Chain, sender: Address, plan: Plan, vault: seq<Action>)
    requires sender != host.router && Spares(vault, sender)
    requires ExecutePlanWithFlashLoan(host, chain, sender, plan, vault).Ok?
    ensures
      var after, token := ExecutePlanWithFlashLoan(host, chain, sender, plan, vault).value, plan.settlementToken;
      && after.log != []
      && Balance(after, token, sender) + plan.fundingAmount >= Balance(chain, token, sender) + LastOutput(after)
  {
    var armed := chain.(entered := true, loan := Some(LoanData(sender, plan)));
    ArmedScript(host, armed, vault, sender, plan);
    ArmedGain(host, armed, vault, sender, plan);
  }
}
