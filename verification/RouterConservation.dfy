/** Conservation: with honest venues, a committed plan leaves no token in the router and none out of
    the vault, and the caller is paid exactly the surplus. */
module RouterConservation {
  import opened Common
  import opened Router
  import opened RouterProtocol
  import opened RouterFunds

  /** A swap took exactly the input from the router, delivered what it reported, and left the
      balances of `parties` alone. */
  ghost predicate HonestSwap(host: Host, before: Chain, after: Chain, step: Step, amountIn: nat, reported: nat,
                             parties: set<Address>) {
    && (forall token :: Exchanged(host, before, after, token, step.tokenIn, amountIn, step.tokenOut, reported))
    && (forall token, party | party in parties :: Same(before, after, token, party))
  }

  predicate Exchanged(host: Host, before: Chain, after: Chain, token: Address,
                      tokenIn: Address, spent: nat, tokenOut: Address, got: nat) {
    Balance(after, token, host.router) + (if token == tokenIn then spent else 0)
      == Balance(before, token, host.router) + (if token == tokenOut then got else 0)
  }

  predicate Same(before: Chain, after: Chain, token: Address, holder: Address) {
    Balance(after, token, holder) == Balance(before, token, holder)
  }

  /** Step `k` of the route, if it succeeds, is an honest swap. */
  ghost predicate HonestStep(host: Host, chain: Chain, plan: Plan, replies: seq<Reply>, k: nat, parties: set<Address>)
    requires k < |plan.steps|
  {
    RouteAfter(host, chain, plan, replies, k + 1).Ok? && RouteAfter(host, chain, plan, replies, k).Ok? ==>
      var before := RouteAfter(host, chain, plan, replies, k).value;
      var after := RouteAfter(host, chain, plan, replies, k + 1).value;
      HonestSwap(host, before.chain, after.chain, plan.steps[k], before.amount, after.amount, parties)
  }

  ghost predicate HonestRoute(host: Host, chain: Chain, plan: Plan, replies: seq<Reply>, parties: set<Address>) {
    forall k | 0 <= k < |plan.steps| :: HonestStep(host, chain, plan, replies, k, parties)
  }

  /** Loop invariant of the route: the router holds the current amount of the current token in place
      of the funding, and the parties' balances have not moved. */
  lemma {:induction false} RouteConserves(host: Host, chain: Chain, plan: Plan, replies: seq<Reply>, n: nat,
                                          parties: set<Address>)
    requires n <= |plan.steps| && RouteAfter(host, chain, plan, replies, n).Ok?
    requires HonestRoute(host, chain, plan, replies, parties)
    ensures
      var flow := RouteAfter(host, chain, plan, replies, n).value;
      && (forall token :: Exchanged(host, chain, flow.chain, token, plan.settlementToken, plan.fundingAmount,
                                    flow.token, flow.amount))
      && (forall token, party | party in parties :: Same(chain, flow.chain, token, party))
  {
    if n > 0 {
      RouteConserves(host, chain, plan, replies, n - 1, parties);
      assert HonestStep(host, chain, plan, replies, n - 1, parties);
      var before := RouteAfter(host, chain, plan, replies, n - 1).value;
      var after := RouteAfter(host, chain, plan, replies, n).value;
      forall token
        ensures Exchanged(host, chain, after.chain, token, plan.settlementToken, plan.fundingAmount,
                          after.token, after.amount)
      {
        assert Exchanged(host, chain, before.chain, token, plan.settlementToken, plan.fundingAmount,
                         before.token, before.amount);
        assert Exchanged(host, before.chain, after.chain, token, plan.steps[n - 1].tokenIn, before.amount,
                         plan.steps[n - 1].tokenOut, after.amount);
      }
      forall token, party | party in parties ensures Same(chain, after.chain, token, party) {
        assert Same(chain, before.chain, token, party) && Same(before.chain, after.chain, token, party);
      }
    }
  }

  // ----- Flash loans -----

  /** The caller's balances change by exactly the surplus in the settlement token. */
  predicate PaidExactly(before: Chain, after: Chain, token: Address, caller: Address, plan: Plan, amountOut: nat) {
    Balance(after, token, caller) + (if token == plan.settlementToken then plan.fundingAmount else 0)
      == Balance(before, token, caller) + (if token == plan.settlementToken then amountOut else 0)
  }

  /** What one token shows of a loan: the funding has moved from the vault to the router, and the
      caller has nothing to do with it. */
  predicate Lent(host: Host, before: Chain, after: Chain, token: Address, sender: Address, plan: Plan) {
    var funding := if token == plan.settlementToken then plan.fundingAmount else 0;
    && Balance(after, token, host.router) == Balance(before, token, host.router) + funding
    && Balance(after, token, host.vault) + funding == Balance(before, token, host.vault)
    && Same(before, after, token, sender)
  }

  function Armed(chain: Chain, sender: Address, plan: Plan): Chain {
    chain.(entered := true, loan := Some(LoanData(sender, plan)))
  }

  predicate Untouched(host: Host, before: Chain, after: Chain, token: Address, sender: Address) {
    Same(before, after, token, host.router) && Same(before, after, token, host.vault) && Same(before, after, token, sender)
  }

  /** A vault that, whatever else it does, has lent exactly the funding by the time of its callback,
      calls back outside any catch, and afterwards leaves vault, router and caller alone; and venues
      that are honest during the callback. */
  ghost predicate HonestLoan(host: Host, chain: Chain, sender: Address, plan: Plan,
                             prelude: seq<Action>, callback: Action, epilogue: seq<Action>) {
    var lent := RunScript(host, Armed(chain, sender, plan), prelude);
    && callback.CallReceive? && callback.userData == LoanData(sender, plan)
    && (lent.Ok? ==>
          && lent.value.loan == Some(LoanData(sender, plan))
          && (forall token :: Lent(host, chain, lent.value, token, sender, plan))
          && HonestRoute(host, lent.value.(loan := None), plan, callback.replies, {host.vault, sender})
          && var settled := RunAction(host, lent.value, callback);
          settled.Ok? ==>
            var done := RunScript(host, settled.value, epilogue);
            done.Ok? ==> forall token :: Untouched(host, settled.value, done.value, token, sender))
  }

  /** Every committed flash-loan run of an honest loan leaves every balance of the vault and of the
      router unchanged and pays the caller exactly amountOut - fundingAmount >= 0, whatever the
      minimum repayment is. */
  lemma FlashLoanConserves(host: Host, chain: Chain, sender: Address, plan: Plan,
                           prelude: seq<Action>, callback: Action, epilogue: seq<Action>)
    requires host.router != host.vault && sender != host.router && sender != host.vault
    requires HonestLoan(host, chain, sender, plan, prelude, callback, epilogue)
    requires ExecutePlanWithFlashLoan(host, chain, sender, plan, prelude + [callback] + epilogue).Ok?
    ensures
      var after := ExecutePlanWithFlashLoan(host, chain, sender, plan, prelude + [callback] + epilogue).value;
      && after.log != [] && LastOutput(after) >= plan.fundingAmount
      && (forall token :: Same(chain, after, token, host.vault) && Same(chain, after, token, host.router))
      && (forall token :: PaidExactly(chain, after, token, sender, plan, LastOutput(after)))
  {
    ThreeParts(host, Armed(chain, sender, plan), prelude, callback, epilogue);
    var lent := RunScript(host, Armed(chain, sender, plan), prelude).value;
    var settled := RunAction(host, lent, callback).value;
    var done := RunScript(host, settled, epilogue).value;
    ArmedScript(host, Armed(chain, sender, plan), prelude, sender, plan);
    CallbackPays(host, chain, lent, sender, plan, callback);
    SealedScript(host, settled, epilogue);
    var after := ExecutePlanWithFlashLoan(host, chain, sender, plan, prelude + [callback] + epilogue).value;
    forall token
      ensures Same(chain, after, token, host.vault) && Same(chain, after, token, host.router)
      ensures PaidExactly(chain, after, token, sender, plan, LastOutput(after))
    {
      assert Untouched(host, settled, done, token, sender);
      assert Restored(host, chain, settled, token, sender, plan, LastOutput(settled));
    }
  }

  predicate Restored(host: Host, before: Chain, after: Chain, token: Address, sender: Address, plan: Plan, amountOut: nat) {
    && Same(before, after, token, host.vault) && Same(before, after, token, host.router)
    && PaidExactly(before, after, token, sender, plan, amountOut)
  }

  /** The callback of an honest loan restores vault and router and pays the caller. */
  lemma CallbackPays(host: Host, chain: Chain, lent: Chain, sender: Address, plan: Plan, callback: Action)
    requires host.router != host.vault && sender != host.router && sender != host.vault
    requires callback.CallReceive? && callback.userData == LoanData(sender, plan)
    requires lent.entered && lent.loan == Some(LoanData(sender, plan))
    requires forall token :: Lent(host, chain, lent, token, sender, plan)
    requires HonestRoute(host, lent.(loan := None), plan, callback.replies, {host.vault, sender})
    requires RunAction(host, lent, callback).Ok?
    ensures
      var settled := RunAction(host, lent, callback).value;
      && Sealed(settled) && settled.log != [] && LastOutput(settled) >= plan.fundingAmount
      && forall token :: Restored(host, chain, settled, token, sender, plan, LastOutput(settled))
  {
    var settled := RunAction(host, lent, callback).value;
    var flow := CallbackRun(host, lent, sender, plan, callback);
    RouteConserves(host, lent.(loan := None), plan, callback.replies, |plan.steps|, {host.vault, sender});
    var paid := Repay(host, flow, sender, plan).value;
    forall token ensures Restored(host, chain, settled, token, sender, plan, LastOutput(settled)) {
      assert Lent(host, chain, lent, token, sender, plan);
      assert Exchanged(host, lent.(loan := None), flow.chain, token, plan.settlementToken, plan.fundingAmount,
                       flow.token, flow.amount);
      assert Same(lent.(loan := None), flow.chain, token, host.vault) && Same(lent.(loan := None), flow.chain, token, sender);
      LoanRoundTrip(host, chain, lent, sender, plan, flow, token);
      SameBalances(paid, settled, token, host.vault);
      SameBalances(paid, settled, token, host.router);
      SameBalances(paid, settled, token, sender);
    }
  }

  /** The route and repayment inside a successful callback. */
  lemma CallbackRun(host: Host, lent: Chain, sender: Address, plan: Plan, callback: Action) returns (flow: Flow)
    requires callback.CallReceive? && callback.userData == LoanData(sender, plan)
    requires lent.entered && lent.loan == Some(LoanData(sender, plan)) && RunAction(host, lent, callback).Ok?
    ensures RunRoute(host, lent.(loan := None), plan, callback.replies) == Ok(flow)
    ensures RouteAfter(host, lent.(loan := None), plan, callback.replies, |plan.steps|) == Ok(flow)
    ensures flow.token == plan.settlementToken && Repay(host, flow, sender, plan).Ok? && flow.amount >= plan.fundingAmount
    ensures
      var settled := RunAction(host, lent, callback).value;
      && Sealed(settled) && settled.balances == Repay(host, flow, sender, plan).value.balances
      && settled.log != [] && LastOutput(settled) == flow.amount
  {
    CallbackSettles(host, lent, callback.sender, callback.tokens, callback.amounts, callback.fees,
                    callback.userData, callback.replies);
    flow := RunRoute(host, lent.(loan := None), plan, callback.replies).value;
  }

  lemma LoanRoundTrip(host: Host, chain: Chain, lent: Chain, sender: Address, plan: Plan, flow: Flow, token: Address)
    requires host.router != host.vault && sender != host.router && sender != host.vault
    requires Lent(host, chain, lent, token, sender, plan) && Repay(host, flow, sender, plan).Ok?
    requires flow.token == plan.settlementToken
    requires Exchanged(host, lent, flow.chain, token, plan.settlementToken, plan.fundingAmount, flow.token, flow.amount)
    requires Same(lent, flow.chain, token, host.vault) && Same(lent, flow.chain, token, sender)
    ensures Restored(host, chain, Repay(host, flow, sender, plan).value, token, sender, plan, flow.amount)
  {
    var asset := plan.settlementToken;
    var repaid := Transfer(flow.chain, asset, host.router, host.vault, plan.fundingAmount).value;
    Moves(flow.chain, asset, host.router, host.vault, plan.fundingAmount, token, sender);
    if flow.amount > plan.fundingAmount {
      Moves(repaid, asset, host.router, sender, flow.amount - plan.fundingAmount, token, host.vault);
    }
  }

  /** A transfer between two accounts, seen from either and from a third. */
  lemma Moves(chain: Chain, asset: Address, holder: Address, to: Address, amount: nat, token: Address, other: Address)
    requires Transfer(chain, asset, holder, to, amount).Ok? && holder != to
    ensures
      var after, moved := Transfer(chain, asset, holder, to, amount).value, if token == asset then amount else 0;
      && Balance(after, token, holder) + moved == Balance(chain, token, holder)
      && Balance(after, token, to) == Balance(chain, token, to) + moved
      && (other != holder && other != to ==> Same(chain, after, token, other))
  {}

  lemma SameBalances(a: Chain, b: Chain, token: Address, holder: Address)
    requires a.balances == b.balances
    ensures Balance(a, token, holder) == Balance(b, token, holder)
  {}

  /** A script runs as its parts, one after the other. */
  lemma {:induction false} ScriptSplits(host: Host, chain: Chain, first: seq<Action>, second: seq<Action>)
    ensures RunScript(host, chain, first + second) ==
            match RunScript(host, chain, first)
            case Ok(middle) => RunScript(host, middle, second)
            case Err(e) => Err(e)
    decreases |second|
  {
    if second == [] {
      assert first + second == first;
    } else {
      var last := |second| - 1;
      assert (first + second)[..|first + second| - 1] == first + second[..last];
      ScriptSplits(host, chain, first, second[..last]);
    }
  }

  lemma ThreeParts(host: Host, chain: Chain, prelude: seq<Action>, callback: Action, epilogue: seq<Action>)
    requires RunScript(host, chain, prelude + [callback] + epilogue).Ok?
    ensures RunScript(host, chain, prelude).Ok?
    ensures RunAction(host, RunScript(host, chain, prelude).value, callback).Ok?
    ensures RunScript(host, chain, prelude + [callback] + epilogue)
         == RunScript(host, RunAction(host, RunScript(host, chain, prelude).value, callback).value, epilogue)
  {
    ScriptSplits(host, chain, prelude + [callback], epilogue);
    assert (prelude + [callback])[..|prelude|] == prelude;
  }

  /** A Balancer-style vault, which lends the funding and calls back once, lends honestly wherever the
      venues are honest. */
  lemma BalancerLoanIsHonest(host: Host, chain: Chain, sender: Address, plan: Plan, replies: seq<Reply>)
    requires host.router != host.vault && sender != host.router && sender != host.vault
    requires
      var lent := Transfer(chain.(entered := true), plan.settlementToken, host.vault, host.router, plan.fundingAmount);
      lent.Ok? ==> HonestRoute(host, lent.value.(loan := None), plan, replies, {host.vault, sender})
    ensures HonestLoan(host, chain, sender, plan, [Lend(host, plan)], Callback(host, sender, plan, replies), [])
  {
    var armed := Armed(chain, sender, plan);
    OneAction(host, armed, Lend(host, plan));
    var lent := RunScript(host, armed, [Lend(host, plan)]);
    LendIgnoresLoan(chain, sender, plan, host);
    if lent.Ok? {
      forall token ensures Lent(host, chain, lent.value, token, sender, plan) {
        Moves(armed, plan.settlementToken, host.vault, host.router, plan.fundingAmount, token, sender);
        SameBalances(armed, chain, token, host.router);
        SameBalances(armed, chain, token, host.vault);
        SameBalances(armed, chain, token, sender);
      }
    }
  }

  lemma OneAction(host: Host, chain: Chain, action: Action)
    ensures RunScript(host, chain, [action]) == RunAction(host, chain, action)
  {
    assert [action][..0] == [];
    assert RunScript(host, chain, []) == Ok(chain);
  }

  lemma LendIgnoresLoan(chain: Chain, sender: Address, plan: Plan, host: Host)
    ensures
      var lent := Transfer(Armed(chain, sender, plan), plan.settlementToken, host.vault, host.router, plan.fundingAmount);
      var plain := Transfer(chain.(entered := true), plan.settlementToken, host.vault, host.router, plan.fundingAmount);
      (lent.Ok? <==> plain.Ok?) && (lent.Ok? ==> lent.value.(loan := None) == plain.value.(loan := None))
  {}

  function Lend(host: Host, plan: Plan): Action {
    Move(plan.settlementToken, host.vault, host.router, plan.fundingAmount)
  }

  function Callback(host: Host, sender: Address, plan: Plan, replies: seq<Reply>): Action {
    CallReceive(host.vault, [plan.settlementToken], [plan.fundingAmount], [0], LoanData(sender, plan), replies)
  }

  // ----- Self-funded plans -----

  /** A committed self-funded run with honest venues leaves the router's balances unchanged and pays
      the caller exactly the output for the funding. */
  lemma PlanConserves(host: Host, chain: Chain, sender: Address, plan: Plan, replies: seq<Reply>)
    requires sender != host.router && ExecutePlan(host, chain, sender, plan, replies).Ok?
    requires
      var funded := Transfer(chain.(entered := true), plan.settlementToken, sender, host.router, plan.fundingAmount);
      funded.Ok? ==> HonestRoute(host, funded.value, plan, replies, {sender})
    ensures
      var after := ExecutePlan(host, chain, sender, plan, replies).value;
      && after.log != []
      && (forall token :: Same(chain, after, token, host.router))
      && (forall token :: PaidExactly(chain, after, token, sender, plan, LastOutput(after)))
  {
    var funded := Transfer(chain.(entered := true), plan.settlementToken, sender, host.router, plan.fundingAmount).value;
    RouteConserves(host, funded, plan, replies, |plan.steps|, {sender});
    var flow := RunRoute(host, funded, plan, replies).value;
    var after := ExecutePlan(host, chain, sender, plan, replies).value;
    forall token
      ensures Same(chain, after, token, host.router) && PaidExactly(chain, after, token, sender, plan, flow.amount)
    {
      assert Exchanged(host, funded, flow.chain, token, plan.settlementToken, plan.fundingAmount,
                       flow.token, flow.amount);
      assert Same(funded, flow.chain, token, sender);
    }
  }

  // ----- Re-entering venues -----

  /** Caught calls into the router's entry points. */
  predicate ReentryAttempts(script: seq<Action>) {
    forall i | 0 <= i < |script| :: IsAttempt(script[i])
  }

  predicate IsAttempt(action: Action) {
    && action.Try? && |action.script| == 1
    && (action.script[0].CallExecutePlan? || action.script[0].CallWithFlashLoan? || action.script[0].CallReceive?)
  }

  /** While a route runs, every re-entry attempt fails and changes nothing. */
  lemma {:induction false} AttemptsAreInert(host: Host, chain: Chain, script: seq<Action>)
    requires Sealed(chain) && ReentryAttempts(script)
    ensures RunScript(host, chain, script) == Ok(chain)
  {
    if script != [] {
      var last := |script| - 1;
      AttemptsAreInert(host, chain, script[..last]);
      AttemptFails(host, chain, script[last]);
    }
  }

  lemma AttemptFails(host: Host, chain: Chain, action: Action)
    requires Sealed(chain) && IsAttempt(action)
    ensures RunAction(host, chain, action) == Ok(chain)
  {
    var call := action.script;
    assert call[..0] == [];
    assert RunScript(host, chain, []) == Ok(chain);
    assert RunAction(host, chain, call[0]).Err?;
  }

  /** A venue that first tries to re-enter in any way, then takes the input and delivers `out`. */
  function ReenteringVenue(host: Host, step: Step, amountIn: nat, out: U256, attempts: seq<Action>): Reply {
    Reply(attempts + [Pull(step.tokenIn, step.target, step.target, amountIn),
                      Move(step.tokenOut, step.target, host.router, out)],
          Some(out))
  }

  lemma ReenteringVenueIsHonest(host: Host, chain: Chain, step: Step, amountIn: U256, out: U256,
                                attempts: seq<Action>, parties: set<Address>)
    requires Sealed(chain) && ReentryAttempts(attempts) && step.target !in parties && host.router !in parties
    requires SwapStep(host, chain, step, amountIn, ReenteringVenue(host, step, amountIn, out, attempts)).Ok?
    ensures
      var (after, reported) := SwapStep(host, chain, step, amountIn,
                                        ReenteringVenue(host, step, amountIn, out, attempts)).value;
      reported == out && HonestSwap(host, chain, after, step, amountIn, out, parties)
  {
    var approved := Approve(chain, step.tokenIn, step.target, amountIn);
    var pull, move := Pull(step.tokenIn, step.target, step.target, amountIn),
                      Move(step.tokenOut, step.target, host.router, out);
    AttemptsAreInert(host, approved, attempts);
    TwoActions(host, approved, attempts, pull, move);
    PullIsTransfer(host, chain, step, amountIn);
    var spent := Approve(approved, step.tokenIn, step.target, 0);
    var pulled := Transfer(spent, step.tokenIn, host.router, step.target, amountIn).value;
    var after := Transfer(pulled, step.tokenOut, step.target, host.router, out).value;
    forall token, party | party in parties ensures Same(chain, after, token, party) {
      SwapBalances(host, chain, spent, pulled, after, step, amountIn, out, token, party);
    }
    forall token ensures Exchanged(host, chain, after, token, step.tokenIn, amountIn, step.tokenOut, out) {
      SwapBalances(host, chain, spent, pulled, after, step, amountIn, out, token, host.vault);
    }
  }

  /** Spending the whole allowance is a transfer that leaves none. */
  lemma PullIsTransfer(host: Host, chain: Chain, step: Step, amountIn: nat)
    ensures
      var approved := Approve(chain, step.tokenIn, step.target, amountIn);
      RunAction(host, approved, Pull(step.tokenIn, step.target, step.target, amountIn))
        == Transfer(Approve(approved, step.tokenIn, step.target, 0), step.tokenIn, host.router, step.target, amountIn)
  {}

  lemma SwapBalances(host: Host, chain: Chain, spent: Chain, pulled: Chain, after: Chain, step: Step,
                     amountIn: nat, out: nat, token: Address, party: Address)
    requires step.target != host.router && spent.balances == chain.balances
    requires Transfer(spent, step.tokenIn, host.router, step.target, amountIn) == Ok(pulled)
    requires Transfer(pulled, step.tokenOut, step.target, host.router, out) == Ok(after)
    ensures Exchanged(host, chain, after, token, step.tokenIn, amountIn, step.tokenOut, out)
    ensures party != step.target && party != host.router ==> Same(chain, after, token, party)
  {
    Moves(spent, step.tokenIn, host.router, step.target, amountIn, token, party);
    Moves(pulled, step.tokenOut, step.target, host.router, out, token, party);
    SameBalances(chain, spent, token, host.router);
    SameBalances(chain, spent, token, party);
  }

  lemma TwoActions(host: Host, chain: Chain, script: seq<Action>, first: Action, second: Action)
    requires RunScript(host, chain, script) == Ok(chain)
    requires RunScript(host, chain, script + [first, second]).Ok?
    ensures RunAction(host, chain, first).Ok?
    ensures RunScript(host, chain, script + [first, second])
         == RunAction(host, RunAction(host, chain, first).value, second)
  {
    var whole := script + [first, second];
    assert whole[..|whole| - 1] == script + [first];
    assert (script + [first])[..|script|] == script;
  }
}
