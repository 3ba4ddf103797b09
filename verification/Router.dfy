/** The execution router as a function of chain state. Everything outside the router (venues, the
    vault, tokens' other holders, callers) is an arbitrary finite script of actions, in which every
    router entry point may be re-entered. A revert is an error, and drops the state it happened in. */
module Router {
  import opened Common
  import opened Decision

  datatype VenueKind = Unsupported | UniswapV2 | UniswapV3Single | AerodromeV2

  /** Venue-specific bytes: a decodable (stable, factory) pair, or anything else. */
  datatype ExtraData = Encoded(stable: bool, factory: Address) | Undecodable

  datatype Step = Step(
    venueKind: VenueKind,
    target: Address,
    tokenIn: Address,
    tokenOut: Address,
    fee: U32,
    minAmountOut: U256,
    extraData: ExtraData)

  datatype Plan = Plan(
    settlementToken: Address,
    fundingAmount: U256,
    minRepayAmount: U256,
    minSurplus: U256,
    deadline: U256,
    steps: seq<Step>,
    riskHash: RiskHash)

  /** Flash-loan user data: the encoding of a caller and a plan, or foreign bytes. The stored
      fingerprint is a collision-free hash, so it is represented by the data itself. */
  datatype UserData = LoanData(caller: Address, plan: Plan) | Foreign(bytes: seq<bv8>)

  /** The event of a committed plan. */
  datatype Settlement = PlanExecuted(caller: Address, plan: Plan, amountOut: U256, flashLoaned: bool)

  datatype Chain = Chain(
    balances: map<(Address, Address), nat>,
    allowances: map<(Address, Address), nat>,
    loan: Option<UserData>,
    entered: bool,
    log: seq<Settlement>)

  /** What does not change during a transaction; the owner is among the executors. */
  datatype Host = Host(router: Address, vault: Address, executors: set<Address>, paused: bool, now: U256)

  datatype Revert =
    | ExecutorNotAuthorized
    | EnforcedPause
    | ReentrantCall
    | PlanExpired
    | FlashLoanContextActive
    | EmptyRoute
    | UnsupportedVenue
    | InvalidRouteToken(stepIndex: nat)
    | InsufficientStepOutput(stepIndex: nat)
    | InsufficientSettlement
    | UnexpectedFlashLoanCaller
    | LoanFingerprintMismatch
    | UndecodableData
    | UnexpectedFlashLoanArrayLength
    | UnexpectedFlashLoanToken
    | UnexpectedFlashLoanAmount
    | UnexpectedFlashLoanFee
    | ArithmeticPanic
    | TransferFailed
    | VenueReverted
    | CallRefused

  /** What the environment does. A failing action reverts its script unless it is caught. */
  datatype Action =
    | Move(token: Address, holder: Address, to: Address, amount: nat)
    | Pull(token: Address, spender: Address, to: Address, amount: nat)
    | CallExecutePlan(sender: Address, plan: Plan, replies: seq<Reply>)
    | CallWithFlashLoan(sender: Address, plan: Plan, vault: seq<Action>)
    | CallReceive(sender: Address, tokens: seq<Address>, amounts: seq<U256>, fees: seq<U256>,
                  userData: UserData, replies: seq<Reply>)
    | Try(script: seq<Action>)

  /** How a venue answers a swap: what it does, and the output it reports unless it reverts. */
  datatype Reply = Reply(inner: seq<Action>, reported: Option<U256>)

  /** A route in flight: the state and the amount and token it has reached. */
  datatype Flow = Flow(chain: Chain, amount: U256, token: Address)

  // ----- Tokens -----

  function Balance(chain: Chain, token: Address, holder: Address): nat {
    if (token, holder) in chain.balances then chain.balances[(token, holder)] else 0
  }

  function Allowance(chain: Chain, token: Address, spender: Address): nat {
    if (token, spender) in chain.allowances then chain.allowances[(token, spender)] else 0
  }

  function Credited(chain: Chain, token: Address, holder: Address, balance: nat): Chain {
    chain.(balances := chain.balances[(token, holder) := balance])
  }

  function Transfer(chain: Chain, token: Address, holder: Address, to: Address, amount: nat)
      : (r: Result<Chain, Revert>)
  {
    if Balance(chain, token, holder) < amount then Err(TransferFailed) else
    var debited := Credited(chain, token, holder, Balance(chain, token, holder) - amount);
    Ok(Credited(debited, token, to, Balance(debited, token, to) + amount))
  }

  /** Set the router's allowance for a venue, whatever it was. */
  function Approve(chain: Chain, token: Address, spender: Address, amount: nat): Chain {
    chain.(allowances := chain.allowances[(token, spender) := amount])
  }

  // ----- Route -----

  function SwapStep(host: Host, chain: Chain, step: Step, amountIn: U256, reply: Reply)
      : Result<(Chain, U256), Revert>
    decreases reply
  {
    if step.venueKind.Unsupported? then Err(UnsupportedVenue)
    else if step.venueKind.AerodromeV2? && step.extraData.Undecodable? then Err(UndecodableData)
    else if step.target == host.router then Err(VenueReverted)
    else
      var approved := Approve(chain, step.tokenIn, step.target, amountIn);
      var after :- RunScript(host, approved, reply.inner);
      if reply.reported.None? then Err(VenueReverted) else Ok((after, reply.reported.value))
  }

  /** The route after its first `n` steps. */
  function RouteAfter(host: Host, chain: Chain, plan: Plan, replies: seq<Reply>, n: nat)
      : Result<Flow, Revert>
    requires n <= |plan.steps|
    decreases replies, n
  {
    if n == 0 then Ok(Flow(chain, plan.fundingAmount, plan.settlementToken)) else
    var flow :- RouteAfter(host, chain, plan, replies, n - 1);
    var i, step := n - 1, plan.steps[n - 1];
    if step.tokenIn != flow.token then Err(InvalidRouteToken(i))
    else if i >= |replies| then Err(VenueReverted)
    else
      var (after, amount) :- SwapStep(host, flow.chain, step, flow.amount, replies[i]);
      if amount < step.minAmountOut then Err(InsufficientStepOutput(i))
      else Ok(Flow(after, amount, step.tokenOut))
  }

  function RunRoute(host: Host, chain: Chain, plan: Plan, replies: seq<Reply>)
      : Result<Flow, Revert>
    decreases replies, |plan.steps| + 1
  {
    if plan.steps == [] then Err(EmptyRoute) else
    var flow :- RouteAfter(host, chain, plan, replies, |plan.steps|);
    if flow.token != plan.settlementToken then Err(InvalidRouteToken(|plan.steps|)) else Ok(flow)
  }

  /** The final check, with checked addition. */
  function CheckSettlement(plan: Plan, amountOut: U256): Result<(), Revert> {
    if plan.minRepayAmount + plan.minSurplus >= TWO_256 then Err(ArithmeticPanic)
    else if amountOut < plan.minRepayAmount + plan.minSurplus then Err(InsufficientSettlement)
    else Ok(())
  }

  // ----- Entry points -----

  /** Modifiers and checks shared by the two plan entry points, in order. */
  function CheckEntry(host: Host, chain: Chain, sender: Address, plan: Plan): Result<(), Revert> {
    if sender !in host.executors then Err(ExecutorNotAuthorized)
    else if host.paused then Err(EnforcedPause)
    else if chain.entered then Err(ReentrantCall)
    else if plan.deadline < host.now then Err(PlanExpired)
    else if chain.loan.Some? then Err(FlashLoanContextActive)
    else Ok(())
  }

  function ExecutePlan(host: Host, chain: Chain, sender: Address, plan: Plan, replies: seq<Reply>)
      : Result<Chain, Revert>
    decreases replies, |plan.steps| + 2
  {
    var _ :- CheckEntry(host, chain, sender, plan);
    var funded :- Transfer(chain.(entered := true), plan.settlementToken, sender, host.router, plan.fundingAmount);
    var flow :- RunRoute(host, funded, plan, replies);
    var _ :- CheckSettlement(plan, flow.amount);
    var paid :- Transfer(flow.chain, plan.settlementToken, host.router, sender, flow.amount);
    Ok(paid.(entered := false, log := paid.log + [PlanExecuted(sender, plan, flow.amount, false)]))
  }

  function ExecutePlanWithFlashLoan(host: Host, chain: Chain, sender: Address, plan: Plan,
                                       vault: seq<Action>)
      : Result<Chain, Revert>
    decreases vault, 1
  {
    var _ :- CheckEntry(host, chain, sender, plan);
    var after :- RunScript(host, chain.(entered := true, loan := Some(LoanData(sender, plan))), vault);
    if after.loan.Some? then Err(LoanFingerprintMismatch) else Ok(after.(entered := false))
  }

  function CheckLoan(plan: Plan, tokens: seq<Address>, amounts: seq<U256>, fees: seq<U256>): Result<(), Revert> {
    if |tokens| != 1 || |amounts| != 1 || |fees| != 1 then Err(UnexpectedFlashLoanArrayLength)
    else if tokens[0] != plan.settlementToken then Err(UnexpectedFlashLoanToken)
    else if amounts[0] != plan.fundingAmount then Err(UnexpectedFlashLoanAmount)
    else if fees[0] != 0 then Err(UnexpectedFlashLoanFee)
    else Ok(())
  }

  /** Repay the vault, then forward the surplus, with checked subtraction. */
  function Repay(host: Host, flow: Flow, caller: Address, plan: Plan): Result<Chain, Revert> {
    var repaid :- Transfer(flow.chain, plan.settlementToken, host.router, host.vault, plan.fundingAmount);
    if flow.amount < plan.fundingAmount then Err(ArithmeticPanic)
    else if flow.amount == plan.fundingAmount then Ok(repaid)
    else Transfer(repaid, plan.settlementToken, host.router, caller, flow.amount - plan.fundingAmount)
  }

  /** The callback once its route has run: check the output, repay, and record the settlement. */
  function SettleLoan(host: Host, flow: Flow, caller: Address, plan: Plan): Result<Chain, Revert> {
    var _ :- CheckSettlement(plan, flow.amount);
    var paid :- Repay(host, flow, caller, plan);
    Ok(paid.(log := paid.log + [PlanExecuted(caller, plan, flow.amount, true)]))
  }

  function ReceiveFlashLoan(host: Host, chain: Chain, sender: Address, tokens: seq<Address>,
                               amounts: seq<U256>, fees: seq<U256>, userData: UserData, replies: seq<Reply>)
      : Result<Chain, Revert>
    decreases replies, if userData.LoanData? then |userData.plan.steps| + 2 else 0
  {
    if sender != host.vault then Err(UnexpectedFlashLoanCaller)
    else if chain.loan != Some(userData) then Err(LoanFingerprintMismatch)
    else if userData.Foreign? then Err(UndecodableData)
    else
      var plan := userData.plan;
      var _ :- CheckLoan(plan, tokens, amounts, fees);
      var flow :- RunRoute(host, chain.(loan := None), plan, replies);
      SettleLoan(host, flow, userData.caller, plan)
  }

  // ----- Environment -----

  /** One action. Nobody can act as the router. */
  function RunAction(host: Host, chain: Chain, action: Action): Result<Chain, Revert>
    decreases action
  {
    match action
    case Move(token, holder, to, amount) =>
      if holder == host.router then Err(CallRefused) else Transfer(chain, token, holder, to, amount)
    case Pull(token, spender, to, amount) =>
      if Allowance(chain, token, spender) < amount then Err(TransferFailed)
      else Transfer(Approve(chain, token, spender, Allowance(chain, token, spender) - amount),
                    token, host.router, to, amount)
    case CallExecutePlan(sender, plan, replies) =>
      if sender == host.router then Err(CallRefused) else ExecutePlan(host, chain, sender, plan, replies)
    case CallWithFlashLoan(sender, plan, vault) =>
      if sender == host.router then Err(CallRefused) else ExecutePlanWithFlashLoan(host, chain, sender, plan, vault)
    case CallReceive(sender, tokens, amounts, fees, userData, replies) =>
      if sender == host.router then Err(CallRefused)
      else ReceiveFlashLoan(host, chain, sender, tokens, amounts, fees, userData, replies)
    case Try(script) =>
      match RunScript(host, chain, script)
      case Ok(after) => Ok(after)
      case Err(_) => Ok(chain)
  }

  function RunScript(host: Host, chain: Chain, script: seq<Action>): Result<Chain, Revert>
    decreases script, 0
  {
    if script == [] then Ok(chain) else
    var before :- RunScript(host, chain, script[..|script| - 1]);
    RunAction(host, before, script[|script| - 1])
  }
}
