/** The router contract itself: storage updated in place, the route loop, and revert as rollback.
    Every method is proved against the state function of the same name. */
module RouterContract {
  import opened Common
  import opened R = Router

  /** An error in a prefix of the route is the error of the route. */
  lemma {:induction false} RouteErrorPersists(host: Host, chain: Chain, plan: Plan, replies: seq<Reply>, i: nat, n: nat)
    requires i <= n <= |plan.steps| && R.RouteAfter(host, chain, plan, replies, i).Err?
    ensures R.RouteAfter(host, chain, plan, replies, n) == R.RouteAfter(host, chain, plan, replies, i)
    decreases n
  {
    if i < n { RouteErrorPersists(host, chain, plan, replies, i, n - 1); }
  }

  lemma {:induction false} ScriptErrorPersists(host: Host, chain: Chain, script: seq<Action>, i: nat)
    requires i <= |script| && R.RunScript(host, chain, script[..i]).Err?
    ensures R.RunScript(host, chain, script) == R.RunScript(host, chain, script[..i])
    decreases |script|
  {
    if i == |script| {
      assert script[..i] == script;
    } else {
      var prefix := script[..|script| - 1];
      assert prefix[..i] == script[..i];
      ScriptErrorPersists(host, chain, prefix, i);
    }
  }

  class BaseExecutionRouter {
    const host: Host
    var balances: map<(Address, Address), nat>
    var allowances: map<(Address, Address), nat>
    var activeLoanFingerprint: Option<UserData>
    var entered: bool
    var log: seq<Settlement>

    ghost function State(): Chain
      reads this
    {
      Chain(balances, allowances, activeLoanFingerprint, entered, log)
    }

    constructor (host: Host, balances: map<(Address, Address), nat>)
      ensures this.host == host && State() == Chain(balances, map[], None, false, [])
    {
      this.host, this.balances := host, balances;
      allowances, activeLoanFingerprint, entered, log := map[], None, false, [];
    }

    method Snapshot() returns (saved: Chain)
      ensures saved == State()
    {
      saved := Chain(balances, allowances, activeLoanFingerprint, entered, log);
    }

    method Rollback(saved: Chain)
      modifies this
      ensures State() == saved
    {
      balances, allowances := saved.balances, saved.allowances;
      activeLoanFingerprint, entered, log := saved.loan, saved.entered, saved.log;
    }

    method Transfer(token: Address, holder: Address, to: Address, amount: nat) returns (r: Result<(), Revert>)
      modifies this
      ensures match R.Transfer(old(State()), token, holder, to, amount)
              case Ok(after) => r.Ok? && State() == after
              case Err(e) => r == Err(e) && State() == old(State())
    {
      var held := if (token, holder) in balances then balances[(token, holder)] else 0;
      if held < amount {
        return Err(TransferFailed);
      }
      balances := balances[(token, holder) := held - amount];
      var received := if (token, to) in balances then balances[(token, to)] else 0;
      balances := balances[(token, to) := received + amount];
      return Ok(());
    }

    // ----- Route -----

    method ExecuteStep(step: Step, amountIn: U256, reply: Reply) returns (r: Result<U256, Revert>)
      modifies this
      ensures match R.SwapStep(host, old(State()), step, amountIn, reply)
              case Ok((after, amount)) => r == Ok(amount) && State() == after
              case Err(e) => r == Err(e)
      decreases reply
    {
      if step.venueKind.Unsupported? {
        return Err(UnsupportedVenue);
      }
      if step.venueKind.AerodromeV2? && step.extraData.Undecodable? {
        return Err(UndecodableData);
      }
      if step.target == host.router {
        return Err(VenueReverted);
      }
      allowances := allowances[(step.tokenIn, step.target) := amountIn];
      var called := RunScript(reply.inner);
      if called.Err? {
        return Err(called.error);
      }
      return if reply.reported.None? then Err(VenueReverted) else Ok(reply.reported.value);
    }

    method RunRoute(plan: Plan, replies: seq<Reply>) returns (r: Result<U256, Revert>)
      modifies this
      ensures match R.RunRoute(host, old(State()), plan, replies)
              case Ok(flow) => r == Ok(flow.amount) && State() == flow.chain
              case Err(e) => r == Err(e)
      decreases replies, |plan.steps| + 1
    {
      ghost var start := State();
      if |plan.steps| == 0 {
        return Err(EmptyRoute);
      }
      var currentAmount: U256, currentToken: Address := plan.fundingAmount, plan.settlementToken;
      for i := 0 to |plan.steps|
        invariant R.RouteAfter(host, start, plan, replies, i) == Ok(Flow(State(), currentAmount, currentToken))
      {
        var step := plan.steps[i];
        if step.tokenIn != currentToken {
          RouteErrorPersists(host, start, plan, replies, i + 1, |plan.steps|);
          return Err(InvalidRouteToken(i));
        }
        if i >= |replies| {
          RouteErrorPersists(host, start, plan, replies, i + 1, |plan.steps|);
          return Err(VenueReverted);
        }
        var next := ExecuteStep(step, currentAmount, replies[i]);
        if next.Err? {
          RouteErrorPersists(host, start, plan, replies, i + 1, |plan.steps|);
          return next;
        }
        if next.value < step.minAmountOut {
          RouteErrorPersists(host, start, plan, replies, i + 1, |plan.steps|);
          return Err(InsufficientStepOutput(i));
        }
        currentAmount, currentToken := next.value, step.tokenOut;
      }
      if currentToken != plan.settlementToken {
        return Err(InvalidRouteToken(|plan.steps|));
      }
      return Ok(currentAmount);
    }

    // ----- Entry points -----

    /** Modifiers and first checks of the two plan entry points. */
    method CheckEntry(sender: Address, plan: Plan) returns (r: Result<(), Revert>)
      ensures r == R.CheckEntry(host, State(), sender, plan)
    {
      if sender !in host.executors { return Err(ExecutorNotAuthorized); }
      if host.paused { return Err(EnforcedPause); }
      if entered { return Err(ReentrantCall); }
      if plan.deadline < host.now { return Err(PlanExpired); }
      if activeLoanFingerprint.Some? { return Err(FlashLoanContextActive); }
      return Ok(());
    }

    method ExecutePlan(sender: Address, plan: Plan, replies: seq<Reply>) returns (r: Result<U256, Revert>)
      modifies this
      ensures match R.ExecutePlan(host, old(State()), sender, plan, replies)
              case Ok(after) => r.Ok? && State() == after && log != [] && r.value == log[|log| - 1].amountOut
              case Err(e) => r == Err(e) && State() == old(State())
      decreases replies, |plan.steps| + 3
    {
      var saved := Snapshot();
      r := ExecutePlanBody(sender, plan, replies);
      if r.Err? {
        Rollback(saved);
      }
    }

    method ExecutePlanBody(sender: Address, plan: Plan, replies: seq<Reply>) returns (r: Result<U256, Revert>)
      modifies this
      ensures match R.ExecutePlan(host, old(State()), sender, plan, replies)
              case Ok(after) => r.Ok? && State() == after && log != [] && r.value == log[|log| - 1].amountOut
              case Err(e) => r == Err(e)
      decreases replies, |plan.steps| + 2
    {
      var checked := CheckEntry(sender, plan);
      if checked.Err? { return Err(checked.error); }
      entered := true;
      var funded := Transfer(plan.settlementToken, sender, host.router, plan.fundingAmount);
      if funded.Err? { return Err(funded.error); }
      r := RunRoute(plan, replies);
      if r.Err? { return; }
      var enough := R.CheckSettlement(plan, r.value);
      if enough.Err? { return Err(enough.error); }
      var paid := Transfer(plan.settlementToken, host.router, sender, r.value);
      if paid.Err? { return Err(paid.error); }
      log := log + [PlanExecuted(sender, plan, r.value, false)];
      entered := false;
    }

    method ExecutePlanWithFlashLoan(sender: Address, plan: Plan, vault: seq<Action>) returns (r: Result<(), Revert>)
      modifies this
      ensures match R.ExecutePlanWithFlashLoan(host, old(State()), sender, plan, vault)
              case Ok(after) => r.Ok? && State() == after
              case Err(e) => r == Err(e) && State() == old(State())
      decreases vault, 1
    {
      var saved := Snapshot();
      r := CheckEntry(sender, plan);
      if r.Err? { return; }
      entered := true;
      activeLoanFingerprint := Some(LoanData(sender, plan));
      r := RunScript(vault);
      if r.Ok? && activeLoanFingerprint.Some? {
        activeLoanFingerprint := None;
        r := Err(LoanFingerprintMismatch);
      }
      if r.Err? {
        Rollback(saved);
        return;
      }
      entered := false;
    }

    method ReceiveFlashLoan(sender: Address, tokens: seq<Address>, amounts: seq<U256>, fees: seq<U256>,
                            userData: UserData, replies: seq<Reply>) returns (r: Result<(), Revert>)
      modifies this
      ensures match R.ReceiveFlashLoan(host, old(State()), sender, tokens, amounts, fees, userData, replies)
              case Ok(after) => r.Ok? && State() == after
              case Err(e) => r == Err(e) && State() == old(State())
      decreases replies, if userData.LoanData? then |userData.plan.steps| + 3 else 1
    {
      var saved := Snapshot();
      r := ReceiveBody(sender, tokens, amounts, fees, userData, replies);
      if r.Err? {
        Rollback(saved);
      }
    }

    method ReceiveBody(sender: Address, tokens: seq<Address>, amounts: seq<U256>, fees: seq<U256>,
                       userData: UserData, replies: seq<Reply>) returns (r: Result<(), Revert>)
      modifies this
      ensures match R.ReceiveFlashLoan(host, old(State()), sender, tokens, amounts, fees, userData, replies)
              case Ok(after) => r.Ok? && State() == after
              case Err(e) => r == Err(e)
      decreases replies, if userData.LoanData? then |userData.plan.steps| + 2 else 0
    {
      if sender != host.vault { return Err(UnexpectedFlashLoanCaller); }
      if activeLoanFingerprint != Some(userData) { return Err(LoanFingerprintMismatch); }
      if userData.Foreign? { return Err(UndecodableData); }
      activeLoanFingerprint := None;
      var plan := userData.plan;
      r := R.CheckLoan(plan, tokens, amounts, fees);
      if r.Err? { return; }
      var out := RunRoute(plan, replies);
      if out.Err? { return Err(out.error); }
      r := SettleLoan(out.value, userData.caller, plan);
    }

    method SettleLoan(amountOut: U256, caller: Address, plan: Plan) returns (r: Result<(), Revert>)
      modifies this
      ensures match R.SettleLoan(host, Flow(old(State()), amountOut, plan.settlementToken), caller, plan)
              case Ok(after) => r.Ok? && State() == after
              case Err(e) => r == Err(e)
    {
      r := R.CheckSettlement(plan, amountOut);
      if r.Err? { return; }
      r := Repay(amountOut, caller, plan);
      if r.Err? { return; }
      log := log + [PlanExecuted(caller, plan, amountOut, true)];
    }

    method Repay(amountOut: U256, caller: Address, plan: Plan) returns (r: Result<(), Revert>)
      modifies this
      ensures match R.Repay(host, Flow(old(State()), amountOut, plan.settlementToken), caller, plan)
              case Ok(after) => r.Ok? && State() == after
              case Err(e) => r == Err(e)
    {
      r := Transfer(plan.settlementToken, host.router, host.vault, plan.fundingAmount);
      if r.Err? { return; }
      if amountOut < plan.fundingAmount { return Err(ArithmeticPanic); }
      var surplus := amountOut - plan.fundingAmount;
      if surplus > 0 {
        r := Transfer(plan.settlementToken, host.router, caller, surplus);
      }
    }

    // ----- Environment -----

    method RunScript(script: seq<Action>) returns (r: Result<(), Revert>)
      modifies this
      ensures match R.RunScript(host, old(State()), script)
              case Ok(after) => r.Ok? && State() == after
              case Err(e) => r == Err(e)
      decreases script, 0
    {
      ghost var start := State();
      for i := 0 to |script|
        invariant R.RunScript(host, start, script[..i]) == Ok(State())
      {
        r := RunAction(script[i]);
        assert script[..i + 1][..i] == script[..i];
        if r.Err? {
          ScriptErrorPersists(host, start, script, i + 1);
          return;
        }
      }
      assert script[..|script|] == script;
      return Ok(());
    }

    method RunAction(action: Action) returns (r: Result<(), Revert>)
      modifies this
      ensures match R.RunAction(host, old(State()), action)
              case Ok(after) => r.Ok? && State() == after
              case Err(e) => r == Err(e)
      decreases action
    {
      match action {
        case Move(token, holder, to, amount) =>
          if holder == host.router { return Err(CallRefused); }
          r := Transfer(token, holder, to, amount);
        case Pull(token, spender, to, amount) =>
          var allowed := if (token, spender) in allowances then allowances[(token, spender)] else 0;
          if allowed < amount { return Err(TransferFailed); }
          allowances := allowances[(token, spender) := allowed - amount];
          r := Transfer(token, host.router, to, amount);
        case CallExecutePlan(sender, plan, replies) =>
          if sender == host.router { return Err(CallRefused); }
          var out := ExecutePlan(sender, plan, replies);
          r := if out.Ok? then Ok(()) else Err(out.error);
        case CallWithFlashLoan(sender, plan, vault) =>
          if sender == host.router { return Err(CallRefused); }
          r := ExecutePlanWithFlashLoan(sender, plan, vault);
        case CallReceive(sender, tokens, amounts, fees, userData, replies) =>
          if sender == host.router { return Err(CallRefused); }
          r := ReceiveFlashLoan(sender, tokens, amounts, fees, userData, replies);
        case Try(script) =>
          var saved := Snapshot();
          r := RunScript(script);
          if r.Err? {
            Rollback(saved);
            r := Ok(());
          }
      }
    }
  }
}
