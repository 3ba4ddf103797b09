/** The flash-loan protocol over every behaviour of the environment: who can settle what, when. */
module RouterProtocol {
  import opened Common
  import opened Router

  /** Inside a call with no loan pending: nothing can be settled from outside. */
  predicate Sealed(chain: Chain) {
    chain.entered && chain.loan.None?
  }

  /** Between top-level calls. */
  predicate Quiet(chain: Chain) {
    !chain.entered && chain.loan.None?
  }

  /** A settlement that honours its plan. */
  predicate Honoured(settled: Settlement) {
    && settled.plan.steps != []
    && settled.amountOut >= settled.plan.steps[|settled.plan.steps| - 1].minAmountOut
    && settled.amountOut >= settled.plan.minRepayAmount + settled.plan.minSurplus
    && (settled.flashLoaned ==> settled.amountOut >= settled.plan.fundingAmount)
  }

  /** One more settlement than before: of exactly this caller and plan. */
  predicate SettledOnce(before: Chain, after: Chain, caller: Address, plan: Plan, flashLoaned: bool) {
    && |after.log| == |before.log| + 1 && after.log[..|before.log|] == before.log
    && var settled := after.log[|before.log|];
    && settled.caller == caller && settled.plan == plan && settled.flashLoaned == flashLoaned
    && Honoured(settled)
  }

  // ----- Inside a call -----

  lemma TransferKeeps(chain: Chain, token: Address, holder: Address, to: Address, amount: nat)
    requires Transfer(chain, token, holder, to, amount).Ok?
    ensures
      var after := Transfer(chain, token, holder, to, amount).value;
      after.loan == chain.loan && after.entered == chain.entered && after.log == chain.log
  {}

  /** While sealed, no script settles anything or lifts the seal. */
  lemma {:induction false} SealedScript(host: Host, chain: Chain, script: seq<Action>)
    requires Sealed(chain) && RunScript(host, chain, script).Ok?
    ensures Sealed(RunScript(host, chain, script).value)
    ensures RunScript(host, chain, script).value.log == chain.log
    decreases script, 0
  {
    if script != [] {
      var last := |script| - 1;
      SealedScript(host, chain, script[..last]);
      SealedAction(host, RunScript(host, chain, script[..last]).value, script[last]);
    }
  }

  lemma {:induction false} SealedAction(host: Host, chain: Chain, action: Action)
    requires Sealed(chain) && RunAction(host, chain, action).Ok?
    ensures Sealed(RunAction(host, chain, action).value)
    ensures RunAction(host, chain, action).value.log == chain.log
    decreases action
  {
    match action
    case Try(script) =>
      if RunScript(host, chain, script).Ok? {
        SealedScript(host, chain, script);
      }
    case _ =>
  }

  lemma {:induction false} SealedRoute(host: Host, chain: Chain, plan: Plan, replies: seq<Reply>, n: nat)
    requires Sealed(chain) && n <= |plan.steps| && RouteAfter(host, chain, plan, replies, n).Ok?
    ensures
      var flow := RouteAfter(host, chain, plan, replies, n).value;
      && Sealed(flow.chain) && flow.chain.log == chain.log
      && (n > 0 ==> flow.amount >= plan.steps[n - 1].minAmountOut)
  {
    if n > 0 {
      SealedRoute(host, chain, plan, replies, n - 1);
      var flow := RouteAfter(host, chain, plan, replies, n - 1).value;
      SealedScript(host, Approve(flow.chain, plan.steps[n - 1].tokenIn, plan.steps[n - 1].target, flow.amount),
                   replies[n - 1].inner);
    }
  }

  // ----- The callback -----

  /** A successful callback consumes exactly the pending loan and settles it. */
  lemma CallbackSettles(host: Host, chain: Chain, sender: Address, tokens: seq<Address>, amounts: seq<U256>,
                        fees: seq<U256>, userData: UserData, replies: seq<Reply>)
    requires chain.entered
    requires ReceiveFlashLoan(host, chain, sender, tokens, amounts, fees, userData, replies).Ok?
    ensures sender == host.vault && chain.loan == Some(userData) && userData.LoanData?
    ensures
      var after := ReceiveFlashLoan(host, chain, sender, tokens, amounts, fees, userData, replies).value;
      Sealed(after) && SettledOnce(chain, after, userData.caller, userData.plan, true)
  {
    var plan := userData.plan;
    SealedRoute(host, chain.(loan := None), plan, replies, |plan.steps|);
    var flow := RunRoute(host, chain.(loan := None), plan, replies).value;
    RepayKeeps(host, flow, userData.caller, plan);
  }

  lemma RepayKeeps(host: Host, flow: Flow, caller: Address, plan: Plan)
    requires Repay(host, flow, caller, plan).Ok?
    ensures
      var after := Repay(host, flow, caller, plan).value;
      && after.loan == flow.chain.loan && after.entered == flow.chain.entered && after.log == flow.chain.log
      && flow.amount >= plan.fundingAmount
  {}

  /** The pending loan is untouched, or has been settled once and is gone. */
  predicate LoanStep(before: Chain, after: Chain, caller: Address, plan: Plan) {
    && after.entered
    && (|| (after.loan == before.loan && after.log == before.log)
        || (after.loan.None? && SettledOnce(before, after, caller, plan, true)))
  }

  lemma {:induction false} ArmedScript(host: Host, chain: Chain, script: seq<Action>, caller: Address, plan: Plan)
    requires chain.entered && chain.loan == Some(LoanData(caller, plan))
    requires RunScript(host, chain, script).Ok?
    ensures LoanStep(chain, RunScript(host, chain, script).value, caller, plan)
    decreases script, 0
  {
    if script != [] {
      var last := |script| - 1;
      ArmedScript(host, chain, script[..last], caller, plan);
      var before := RunScript(host, chain, script[..last]).value;
      if before.loan.Some? {
        ArmedAction(host, before, script[last], caller, plan);
      } else {
        SealedAction(host, before, script[last]);
      }
    }
  }

  lemma {:induction false} ArmedAction(host: Host, chain: Chain, action: Action, caller: Address, plan: Plan)
    requires chain.entered && chain.loan == Some(LoanData(caller, plan))
    requires RunAction(host, chain, action).Ok?
    ensures LoanStep(chain, RunAction(host, chain, action).value, caller, plan)
    decreases action
  {
    match action
    case CallReceive(sender, tokens, amounts, fees, userData, replies) =>
      CallbackSettles(host, chain, sender, tokens, amounts, fees, userData, replies);
    case Try(script) =>
      if RunScript(host, chain, script).Ok? {
        ArmedScript(host, chain, script, caller, plan);
      }
    case _ =>
  }

  // ----- Whole calls -----

  /** A committed flash-loan call contains exactly one successful callback, for its own caller and
      plan, whatever the vault and the venues do. */
  lemma LoanSettlesOnce(host: Host, chain: Chain, sender: Address, plan: Plan, vault: seq<Action>)
    requires ExecutePlanWithFlashLoan(host, chain, sender, plan, vault).Ok?
    ensures
      var after := ExecutePlanWithFlashLoan(host, chain, sender, plan, vault).value;
      Quiet(after) && sender in host.executors && SettledOnce(chain, after, sender, plan, true)
  {
    ArmedScript(host, chain.(entered := true, loan := Some(LoanData(sender, plan))), vault, sender, plan);
  }

  /** A committed self-funded call settles exactly its own plan. */
  lemma PlanSettlesOnce(host: Host, chain: Chain, sender: Address, plan: Plan, replies: seq<Reply>)
    requires ExecutePlan(host, chain, sender, plan, replies).Ok?
    ensures
      var after := ExecutePlan(host, chain, sender, plan, replies).value;
      Quiet(after) && sender in host.executors && SettledOnce(chain, after, sender, plan, false)
  {
    var funded := Transfer(chain.(entered := true), plan.settlementToken, sender, host.router, plan.fundingAmount).value;
    SealedRoute(host, funded, plan, replies, |plan.steps|);
    var flow := RunRoute(host, funded, plan, replies).value;
    TransferKeeps(flow.chain, plan.settlementToken, host.router, sender, flow.amount);
  }

  /** Settlements appended since `before` are by executors and honour their plans. */
  ghost predicate Extends(host: Host, before: Chain, after: Chain) {
    && |before.log| <= |after.log| && after.log[..|before.log|] == before.log
    && forall k | |before.log| <= k < |after.log| :: after.log[k].caller in host.executors && Honoured(after.log[k])
  }

  lemma ExtendsTransitive(host: Host, a: Chain, b: Chain, c: Chain)
    requires Extends(host, a, b) && Extends(host, b, c)
    ensures Extends(host, a, c)
  {
    assert c.log[..|a.log|] == c.log[..|b.log|][..|a.log|];
    forall k | |a.log| <= k < |c.log| ensures c.log[k].caller in host.executors && Honoured(c.log[k]) {
      if k < |b.log| {
        assert c.log[k] == c.log[..|b.log|][k];
      }
    }
  }

  /** Over every run of top-level calls and other actions, the guard and the fingerprint are clear
      between calls, and every settlement is an executor's and honours its plan. */
  lemma {:induction false} RunsStayQuiet(host: Host, chain: Chain, script: seq<Action>)
    requires Quiet(chain) && RunScript(host, chain, script).Ok?
    ensures Quiet(RunScript(host, chain, script).value)
    ensures Extends(host, chain, RunScript(host, chain, script).value)
    decreases script, 0
  {
    if script != [] {
      var last := |script| - 1;
      RunsStayQuiet(host, chain, script[..last]);
      var before := RunScript(host, chain, script[..last]).value;
      ActionsStayQuiet(host, before, script[last]);
      ExtendsTransitive(host, chain, before, RunScript(host, chain, script).value);
    }
  }

  lemma {:induction false} ActionsStayQuiet(host: Host, chain: Chain, action: Action)
    requires Quiet(chain) && RunAction(host, chain, action).Ok?
    ensures Quiet(RunAction(host, chain, action).value)
    ensures Extends(host, chain, RunAction(host, chain, action).value)
    decreases action
  {
    match action
    case CallExecutePlan(sender, plan, replies) =>
      PlanSettlesOnce(host, chain, sender, plan, replies);
    case CallWithFlashLoan(sender, plan, vault) =>
      LoanSettlesOnce(host, chain, sender, plan, vault);
    case Try(script) =>
      if RunScript(host, chain, script).Ok? {
        RunsStayQuiet(host, chain, script);
      }
    case _ =>
  }

  // ----- Transactions -----

  /** A transaction, with the executors, pause flag and block time in force when it runs. */
  datatype Transaction = Transaction(host: Host, script: seq<Action>)

  /** Transactions one after the other; a reverting one changes nothing. */
  function RunTransactions(chain: Chain, transactions: seq<Transaction>): Chain {
    if transactions == [] then chain else
    var before, last := RunTransactions(chain, transactions[..|transactions| - 1]), transactions[|transactions| - 1];
    match RunScript(last.host, before, last.script)
    case Ok(after) => after
    case Err(_) => before
  }

  /** Over every history of transactions, while administration changes executors, pause flag and time
      at will: guard and fingerprint are clear between transactions, and what the last transaction
      settled is by executors of its time and honours its plans. */
  lemma {:induction false} HistoriesStayQuiet(chain: Chain, transactions: seq<Transaction>)
    requires Quiet(chain)
    ensures Quiet(RunTransactions(chain, transactions))
    ensures transactions != [] ==>
              Extends(transactions[|transactions| - 1].host,
                      RunTransactions(chain, transactions[..|transactions| - 1]), RunTransactions(chain, transactions))
  {
    if transactions != [] {
      var last := transactions[|transactions| - 1];
      HistoriesStayQuiet(chain, transactions[..|transactions| - 1]);
      var before := RunTransactions(chain, transactions[..|transactions| - 1]);
      if RunScript(last.host, before, last.script).Ok? {
        RunsStayQuiet(last.host, before, last.script);
      }
    }
  }
}
