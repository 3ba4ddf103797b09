# Verified model of the base execution engine

The engine keeps a book of AMM pools from chain logs, looks for two-pool loops that return more of a
settlement token than they take, simulates them under a cost model, gates them with a stateful risk
engine, and executes accepted loops through an atomic on-chain router, either self-funded or funded by
a Balancer flash loan. This project models that pipeline in Dafny 4.11 and proves what it guarantees.
`dafny verify dfyconfig.toml` checks all of it.

## What is proved

- **End to end** (`EndToEnd.dfy`). Every plan built from a detected, simulated and accepted loop is a
  closed chain of tokens, so the router never reverts it with `EmptyRoute` or `InvalidRouteToken`. If
  it commits, by either entry point and whatever vault and venues do short of spending the caller's
  own tokens, the caller gains at least the simulated gross profit, which is at least the minimum net
  profit plus gas cost plus L1 fee.
- **Concentrated-liquidity quotes** (`V3Pool`, `V3Arithmetic`, `V3Quote`, `V3Splitting`, `V3Runs`,
  `V3Spacing`). Every successful quote is at most the result of the Uniswap v3-core swap step, equal to
  it for token1 input and within an explicit gap for token0 input. Splitting an order never gains. Over
  every run of swaps in both directions what the pool keeps covers the move of its price, so no run
  takes one token out without putting the other in. The price step never overflows; when the output
  does is stated exactly.
- **Tick math** (`TickMath`). The wrapping loop equals a fold over the twenty constants, nothing wraps,
  the tick map is strictly increasing onto the protocol price range, and opposite ticks are reciprocal
  up to their round-ups.
- **Constant-product quotes** (`V2Pool`, `V2Arithmetic`, `V2Quote`). A quote is exactly the largest
  output that keeps the fee-adjusted product, and when it is given is stated exactly. Splitting an order
  into any number of parts never gains. No run of trades extracts value from a pool.
- **Pool book** (`PoolBook`, `Replay`, `ReplayRuns`, `BookFailures`). For every interleaving of Syncs with
  fresh keys and removals of a pool's newest live Sync, the book equals a replay of the surviving logs,
  and over whole runs this order of removals is also necessary.
- **Loop detection** (`Detection`, `Scan`, `Requests`). A loop is reported exactly when it is profitable
  in exact arithmetic and its 128-bit products fit, only when the fee-adjusted product of the marginal
  rates exceeds one, and never in both directions. The scan's result is the same for every hash-map
  iteration order.
- **Risk engine** (`RiskEngine`, `RiskRuns`, `RiskDenials`, `RiskCaps`). The rolling queue is exactly the
  recent accepted entries, no closed 86400-second window exceeds the daily cap, denied assessments can
  be deleted from a run without changing any other decision, and the per-block and daily caps hold
  exactly under the stated conditions.
- **Router** (`Router`, `RouterContract`, `RouterProtocol`, `RouterRoutes`, `RouterFunds`,
  `RouterConservation`). The environment is an arbitrary finite tree of actions that may re-enter every
  entry point. A committed flash-loan call contains exactly one successful callback, for its own caller
  and plan. Guard and fingerprint are clear between top-level calls. With honest venues the vault and
  the router keep every balance and the caller receives exactly output minus funding.
- **Nonces** (`Nonce`). Under every interleaving of submissions and delayed releases, unreleased nonces
  are distinct and no two broadcasts share one.
- **Attempts and the engine loop** (`Execution`, `App`, `AppRuns`). Attempt life cycle and circuit
  breaker over whole sequential runs of a process, and the daily canary limit over every history of
  processes that restart on the same stored table.

## How it is modelled

Pools, opportunities, plans and attempts are values. `PoolBook`, `RiskEngine`, `BaseExecutionRouter`,
`NonceManager` and the engine loop `Engine` are classes whose fields change in place. Each of their
methods is proved equal to a function on the object's abstract state, and the run theorems are about
those functions. A Solidity revert is an error result, and entry points roll back on it. Machine widths
are explicit: `Amount` is 128 bits, `U256` is 256 bits, and checked, saturating and wrapping operations
are written out as the source has them.

What the code does not do, although a comment or a name suggests it. Each item has a concrete input and
the exact condition under which the code does it; the model follows the code.

- **Token1 input overflows** although `crates/markets/src/v3.rs:44-45` and 276-277 say nothing does. It
  is refused at every price from 2^128 up, and at every price and liquidity for a net input from
  2^64 + 2^32 up (`LargeTokenOneInputRefused`, `HundredTokensOverflow`). The exact condition is in
  `QuoteSucceedsExactly`.
- **Profitable loops are missed** at everyday reserves of eighteen decimals, because the V2 quote works
  in 128 bits (`ProfitableLoopMissed`). A loop is reported exactly when it is profitable in exact
  arithmetic and four products per leg fit (`DetectsExactly`).
- **Tick spacing is not looked at** (`SpacingIsIgnored`, `QuoteAcrossSpacing`), although
  `crates/markets/src/v3.rs:9-13` and 224-226 describe a refusal at its boundary. An input that
  crosses the boundary is quoted exactly when the fee product fits, the move is within the impact cap,
  and the output products and the output are in range (`CrossingQuotedExactly`); boundaries beyond the
  impact cap are never crossed (`FarBoundaryIsNeverCrossed`).
- **A denial can change the counters** although `crates/decision/src/risk.rs:182-185` says otherwise
  (`DenialPrunes`). It does so exactly when it comes from the daily cap and the window has an expired
  entry (`DenialKeepsStateExactly`). No decision depends on it (`DenialsAreSilent`).
- **The per-block cap** remembers one bucket and saturates; it bounds each block exactly under the
  condition of `PerBlockCapExactly`. **The daily cap** saturates too (`DailyCapExactly`).
- **A log that fails loses its pool** (`ZeroReserveLosesPool`), exactly when it is malformed for that
  pool (`LogFailsExactly`).
- **Undo is newest-first.** Over a run, the book follows replay for all reserves exactly when every
  removal takes its pool's newest live Sync (`RunMatchesReplayExactly`, `OlderRemovalDiverges`).
- **V3 pools do not undo.** A removed Swap is restored exactly when it had changed nothing
  (`RemovedSwapRestoresExactly`, `RemovedSwapStays`).

Two consequences of the order of the engine loop: once the breaker has tripped no success can follow in
the same process, so the reset described at `crates/decision/src/risk.rs:15-17` never happens there
(`BreakerIsPermanent`), although a restart begins with fresh counters; and no realized surplus is ever
reported, so no stored attempt becomes `ProfitRealized` (`AttemptsAreStoredSoundly`).

## Model

| member | source | states |
|---|---|---|
| V3Pool.Validate | crates/markets/src/v3.rs:126-151 | accepts exactly the pools in price range with positive liquidity, distinct tokens, fee below one and positive spacing |
| V3Quote.PriceStepNeverOverflows | crates/markets/src/v3.rs:278-291 | for every in-range price, positive liquidity and input, the step succeeds; token0 input never raises the price and token1 input never lowers it |
| V3Quote.ImpactCapExact | crates/markets/src/v3.rs:374-396 | the unchecked product never wraps, and the cap passes exactly when 20000 times the move is below 501 times the price |
| V3Quote.QuoteSucceedsExactly | crates/markets/src/v3.rs:227-341 | a quote succeeds if and only if there is liquidity and a net input in one of the tokens, the fee product fits, the move is within the cap, for token1 input L(S'-S) < 2^160 and S S' < 2^256, and the unbounded output is in 1 .. 2^128-1; it then pays that output |
| V3Quote.TokenOneQuoteIsSmall | crates/markets/src/v3.rs:303-319 | token1 input is quoted only below price 2^128 and below a net input of 2^64 + 2^32 |
| V3Quote.NumeratorBySize | crates/markets/src/v3.rs:316-316 | the checked numerator fits for every net token1 input below 2^64 and for none from 2^64 + 2^32 up, at every price and liquidity |
| V3Quote.LargeTokenOneInputRefused | crates/markets/src/v3.rs:303-319 | every net token1 input from 2^64 + 2^32 up is refused in every pool |
| V3Quote.HundredTokensOverflow | crates/markets/src/v3.rs:303-319 | a concrete pool in which a hundred tokens overflow while the reference step swaps them |
| V3Quote.NeverOverQuotes | crates/markets/src/v3.rs:271-319 | every successful quote is at most the v3-core result, equal for token1 input, with (gap-1) 2^192 < S^2 + L 2^96 |
| V3Splitting.SplittingNeverGains | crates/markets/src/v3.rs:227-341 | any number of consecutive swaps in one direction pays at most one swap of their sum |
| V3Splitting.SplitSpends | crates/markets/src/v3.rs:227-341 | what the swaps so far have done to price and payments is within what their net input in all allows |
| V3Runs.TradeCovers | crates/markets/src/v3.rs:227-341 | one quoted swap from price S to C receives net token0 with net0 S C >= L 2^96 (S-C) and net token1 with net1 2^96 >= L (C-S) |
| V3Runs.RunsCoverTheirMove | crates/markets/src/v3.rs:227-341 | the same two inequalities over every run of swaps in both directions |
| V3Runs.NoFreeLunch | crates/markets/src/v3.rs:227-341 | a run that takes one token out has put the other in |
| V3Runs.RoundTripNeverProfits | crates/markets/src/v3.rs:227-341 | adopting the post-swap price and quoting the output back never returns more than the input |
| V3Spacing.SpacingIsIgnored | crates/markets/src/v3.rs:227-341 | changing tick and tick spacing changes no quote |
| V3Spacing.CrossingQuotedExactly | crates/markets/src/v3.rs:227-341 | from a price inside its boundaries, an input that crosses one is quoted if and only if the fee product fits, the move is within the cap, the output products fit and the output is in range |
| V3Spacing.FarBoundaryIsNeverCrossed | crates/markets/src/v3.rs:293-301 | a boundary at least 501/20000 of the price away is never crossed by a quote |
| V3Spacing.QuoteAcrossSpacing | crates/markets/src/v3.rs:293-301 | a concrete quote that passes the next tick at spacing 1 |
| TickMath.GetSqrtRatioAtTick | crates/markets/src/v3.rs:402-464 | rejects exactly the ticks out of bounds and otherwise returns the fold over all constants, reciprocated and rounded up |
| TickMath.FoldFactors | crates/markets/src/v3.rs:435-449 | the loop with 256-bit products equals the unbounded fold |
| TickMath.ScaleWithoutWrap | crates/markets/src/v3.rs:442-449 | no intermediate product reaches 2^256 |
| TickMath.RatioBounds | crates/markets/src/v3.rs:435-453 | the ratio stays positive and at most 2^128, so the reciprocal is defined |
| TickMath.StrictlyIncreasing | crates/markets/src/v3.rs:402-464 | a higher tick has a strictly higher price |
| TickMath.TicksSpanPriceRange | crates/markets/src/v3.rs:46-66 | the extreme ticks give exactly the protocol price bounds and every tick lies between them |
| TickMath.OppositeTicksReciprocal | crates/markets/src/v3.rs:451-463 | the product of opposite prices is between 2^192 - 2^64 and 2^192 plus the two prices |
| V2Pool.Validate | crates/markets/src/lib.rs:116-136 | accepts exactly pools with distinct tokens, positive reserves and a fee below 10000 |
| V2Pool.ApplySync | crates/markets/src/lib.rs:138-154 | refuses exactly zero reserves, adopts reserves and block, keeps everything else and keeps a valid pool valid |
| V2Pool.Restore | crates/markets/src/lib.rs:255-267 | gives the pool exactly the snapshot and keeps address, tokens and fee |
| V2Quote.QuoteSucceedsExactly | crates/markets/src/lib.rs:156-207 | a quote succeeds if and only if the token is in the pool, the exact output is not zero and four products fit 128 bits; it then pays the exact output |
| V2Quote.ImpactSucceedsExactly | crates/markets/src/lib.rs:436-463 | the impact estimate fails exactly on its quoted-price product and on the product of the shortfall |
| V2Quote.QuoteIsOptimal | crates/markets/src/lib.rs:156-207 | the quote is below the output reserve, and an output keeps the fee-adjusted product if and only if it is at most the quote |
| V2Quote.ImpactIsBounded | crates/markets/src/lib.rs:436-463 | realized price is at most quoted price, so impact is at most 10000 bps and the clamp never binds |
| V2Quote.SplittingNeverGains | crates/markets/src/lib.rs:138-207 | any number of consecutive swaps yields at most one swap of their sum |
| V2Quote.ProductNeverFalls | crates/markets/src/lib.rs:138-207 | over every run of trades in both directions the product of the reserves never falls |
| V2Quote.NoFreeLunch | crates/markets/src/lib.rs:138-207 | a run that takes one token out puts the other in; round trips never gain |
| V2Quote.ExecuteEffect | crates/markets/src/lib.rs:138-207 | an executed trade moves the input in and the quote out and keeps the product |
| PoolBook.PoolBook.constructor | crates/markets/src/lib.rs:306-309 | a new book has no pools and no history |
| PoolBook.PoolBook.InsertV2Pool | crates/markets/src/lib.rs:311-314 | stores the pool under its address and nothing else changes |
| PoolBook.PoolBook.InsertV3Pool | crates/markets/src/lib.rs:316-319 | stores the pool under its address and nothing else changes |
| PoolBook.PoolBook.ApplyLog | crates/markets/src/lib.rs:353-369 | state and outcome are those of the book function, including the loss of the pool on error |
| PoolBook.PoolBook.ApplyV2LogInPlace | crates/markets/src/lib.rs:371-403 | pool, undo history and outcome of one V2 log |
| PoolBook.V3ApplyLog | crates/markets/src/v3.rs:171-222 | refused exactly for a Swap of this pool with a missing or out-of-range field, applied exactly for a complete one, which adopts price, liquidity, tick and block and keeps the rest; any other log changes nothing |
| Replay.BookRefinesReplay | crates/markets/src/lib.rs:353-403 | after every expected run each V2 pool is its bootstrap state overwritten by its last surviving Sync, the history holds exactly the live keys, reserves stay positive and every log succeeds |
| Replay.StepRefines | crates/markets/src/lib.rs:353-403 | every expected log, Sync, removal or other, keeps the refinement |
| Replay.RemovalMatchesReplayExactly | crates/markets/src/lib.rs:383-391 | one removal of a live Sync forgets its key, and gives the replayed pool if and only if the Sync is the newest or the state below it equals the newest Sync |
| Replay.OlderRemovalDiverges | crates/markets/src/lib.rs:383-391 | a concrete run: two Syncs, then removal of the older one |
| ReplayRuns.RunMatchesReplayExactly | crates/markets/src/lib.rs:353-403 | over every feasible run of Syncs and removals the book is its replay after every log, whatever the reserves, if and only if every removal takes its pool's newest live Sync |
| BookFailures.LogFailsExactly | crates/markets/src/lib.rs:353-403 | a log fails exactly when it is malformed for its pool; a failure takes that pool out and changes nothing else, a success touches only its own pool |
| BookFailures.ZeroReserveLosesPool | crates/markets/src/lib.rs:353-369 | a concrete Sync with a zero reserve that loses its pool |
| BookFailures.RemovedSwapRestoresExactly | crates/markets/src/v3.rs:171-222 | the removal of a V3 Swap repeats the Swap, and gives the book back if and only if the Swap had changed nothing |
| BookFailures.RemovedSwapStays | crates/markets/src/v3.rs:171-222 | a concrete Swap whose removal leaves the new price |
| Detection.DetectsExactly | crates/decision/src/lib.rs:57-122 | reported exactly when the loop returns more in exact arithmetic and the products of both quotes fit, and then as a closed two-leg route through the two pools whose profit is the exact gain |
| Detection.ProfitableLoopMissed | crates/decision/src/lib.rs:57-122 | a concrete loop at reserves of eighteen decimals that nearly doubles its input and is not reported |
| Detection.ReportNeedsEdge | crates/decision/src/lib.rs:57-122 | a report implies that the fee-adjusted product of marginal rates strictly exceeds one |
| Detection.ProfitNeedsEdge | crates/decision/src/lib.rs:57-122 | so does any loop that is profitable in exact arithmetic |
| Detection.OneDirectionOnly | crates/decision/src/lib.rs:57-122 | for any two pools, at any amounts, opposite loops are never both reported |
| Detection.BelowMarginalRate | crates/markets/src/lib.rs:156-207 | a positive exact output is strictly below the fee-adjusted marginal rate |
| Scan.DetectFromBook | crates/decision/src/lib.rs:124-178 | the nested scan, sort and dedup compute the scan result of its iteration order |
| Scan.ScanFirstPools | crates/decision/src/lib.rs:134-168 | the outer loop concatenates the rows of all first pools |
| Scan.ScanSecondPools | crates/decision/src/lib.rs:143-167 | the inner loop collects one row of pairs |
| Scan.CheckPair | crates/decision/src/lib.rs:134-167 | the filters and the detection for one pair |
| Scan.ScanIsExact | crates/decision/src/lib.rs:124-178 | the result holds exactly the ordered pairs of distinct pools sharing both tokens that are profitable in exact arithmetic and whose products fit, strictly sorted by profit then id, and dedup removes nothing |
| Scan.ScanIgnoresOrder | crates/decision/src/lib.rs:124-178 | the result is the same for every iteration order of the same book |
| Scan.SortedIsUnique | crates/decision/src/lib.rs:170-175 | a strictly sorted list is determined by its members |
| Scan.IdNamesPools | crates/decision/src/lib.rs:82-88 | equal ids name the same two pools in the same order |
| Requests.Simulate | crates/decision/src/lib.rs:180-208 | given exactly when a two-leg loop covers its costs; output equals input plus net profit plus costs, and acceptance is a strictly positive net |
| Requests.BuildExecutionRequest | crates/decision/src/lib.rs:238-271 | one step per leg in order, repaying the input; none when denied or a leg lacks a minimum |
| RiskEngine.RiskEngine.constructor | crates/decision/src/risk.rs:143-154 | starts with empty counters |
| RiskEngine.RiskEngine.TriggerKillSwitch | crates/decision/src/risk.rs:160-166 | sets the operator kill and nothing else |
| RiskEngine.RiskEngine.RecordOutcome | crates/decision/src/risk.rs:168-180 | resets or saturatingly increments the failure count and nothing else |
| RiskEngine.RiskEngine.PruneDailyEntries | crates/decision/src/risk.rs:384-394 | the loop drops expired entries from the front and subtracts each |
| RiskEngine.RiskEngine.Assess | crates/decision/src/risk.rs:186-277 | decision and new state of the gates in order |
| RiskRuns.AcceptedExactly | crates/decision/src/risk.rs:186-365 | accepted if and only if the kill switches, profit floors, trade cap, token lists and shortfall bound pass and the breaker and both caps allow it |
| RiskRuns.StatelessExactly | crates/decision/src/risk.rs:282-365 | the gates on the opportunity alone pass exactly the admissible ones, saturation included |
| RiskRuns.QueueIsRecentAccepted | crates/decision/src/risk.rs:186-277 | the queue is exactly the accepted entries not older than the last prune horizon and the total is its sum |
| RiskRuns.AcceptanceFits | crates/decision/src/risk.rs:247-267 | an acceptance leaves the whole trailing window within the cap |
| RiskRuns.RollingCap | crates/decision/src/risk.rs:186-277 | notional accepted in any closed 86400-second window never exceeds the cap |
| RiskRuns.PruneKeepsRecent | crates/decision/src/risk.rs:384-394 | on a sorted exact queue pruning keeps exactly the recent entries and the sum |
| RiskDenials.DenialsAreSilent | crates/decision/src/risk.rs:199-277 | deleting any set of denied assessments leaves every other decision unchanged |
| RiskDenials.DenialKeepsStateExactly | crates/decision/src/risk.rs:199-258 | a denial leaves the state unchanged if and only if it came before the window or the window has no expired entry at its front |
| RiskDenials.DenialPrunes | crates/decision/src/risk.rs:247-258 | a concrete run whose last offer is denied and still changes the counters |
| RiskCaps.StreaksCapped | crates/decision/src/risk.rs:229-265 | the block counter is the current streak and no streak exceeds the cap |
| RiskCaps.ContiguousBlocksCapped | crates/decision/src/risk.rs:229-265 | when each block is assessed in one piece the cap bounds the block |
| RiskCaps.PerBlockCapExactly | crates/decision/src/risk.rs:229-265 | the cap bounds every block for all positive amounts if and only if it is zero, or below u128::MAX with no block left and returned to, or u128::MAX with no block offered twice |
| RiskCaps.DailyCapExactly | crates/decision/src/risk.rs:247-267 | the daily cap bounds every window of every run if and only if it is below u128::MAX |
| Nonce.NonceManager.constructor | crates/execution/src/nonce.rs:31-35 | starts uninitialised |
| Nonce.NonceManager.SyncFromChain | crates/execution/src/nonce.rs:40-56 | overwrites the counter with the chain's pending nonce |
| Nonce.NonceManager.Next | crates/execution/src/nonce.rs:61-69 | hands out the counter, or errs when uninitialised or at the end of the range |
| Nonce.NonceManager.ReleaseNonce | crates/execution/src/nonce.rs:73-78 | rewinds only when the released nonce is the last one handed out |
| Nonce.RunsAreSafe | crates/execution/src/submit.rs:95-141 | over every interleaving unreleased nonces are pairwise distinct and between the synced value and the counter |
| Nonce.ReleaseIsSafe | crates/execution/src/submit.rs:186-191 | a release, however delayed, rewinds only past a nonce nobody else holds |
| Nonce.BroadcastsNeverCollide | crates/execution/src/submit.rs:95-141 | a broadcast or given-up nonce equals no other unreleased one and is not handed out next |
| RouterContract.BaseExecutionRouter.RunRoute | contracts/src/BaseExecutionRouter.sol:267-298 | the route loop ends in the state and amount of the route function, or with its first error |
| RouterContract.BaseExecutionRouter.ExecutePlan | contracts/src/BaseExecutionRouter.sol:139-170 | commits the plan function's state or rolls back completely |
| RouterContract.BaseExecutionRouter.ExecutePlanWithFlashLoan | contracts/src/BaseExecutionRouter.sol:178-205 | commits only with the fingerprint cleared, else rolls back completely |
| RouterContract.BaseExecutionRouter.ReceiveFlashLoan | contracts/src/BaseExecutionRouter.sol:208-261 | the callback commits the callback function's state or rolls back completely |
| RouterProtocol.SealedScript | contracts/src/BaseExecutionRouter.sol:178-223 | inside a call with no loan pending, no behaviour of the environment settles anything or lifts the guard |
| RouterProtocol.CallbackSettles | contracts/src/BaseExecutionRouter.sol:208-261 | a successful callback comes from the vault, carries the pending data, and settles it once |
| RouterProtocol.ArmedScript | contracts/src/BaseExecutionRouter.sol:178-261 | with a loan pending, any behaviour either leaves it pending or settles it exactly once |
| RouterProtocol.LoanSettlesOnce | contracts/src/BaseExecutionRouter.sol:178-261 | a committed flash-loan call contains exactly one successful callback, for its own caller and plan, and honours the plan |
| RouterProtocol.PlanSettlesOnce | contracts/src/BaseExecutionRouter.sol:139-170 | a committed self-funded call settles exactly its own plan and honours it |
| RouterProtocol.RunsStayQuiet | contracts/src/BaseExecutionRouter.sol:139-261 | within one transaction guard and fingerprint are clear between calls, and every settlement is an executor's and honours its plan |
| RouterProtocol.HistoriesStayQuiet | contracts/src/BaseExecutionRouter.sol:111-261 | the same over every history of transactions in which executors, pause flag and time change between transactions |
| RouterRoutes.PlanMisroutesOnlyUnchained | contracts/src/BaseExecutionRouter.sol:267-298 | chained plans never fail as misroutes, and committed plans are chained |
| RouterRoutes.LoanMisroutesOnlyUnchained | contracts/src/BaseExecutionRouter.sol:267-298 | the flash-loan entry point never fails a chained plan as a misroute, whatever the vault does |
| RouterFunds.TransferSpares | contracts/src/BaseExecutionRouter.sol:149-159 | a transfer changes a third party's balance only by what it receives |
| RouterFunds.SparedScript | contracts/src/BaseExecutionRouter.sol:139-170 | inside a call, behaviour that spares an account cannot lower its balances |
| RouterFunds.PlanGain | contracts/src/BaseExecutionRouter.sol:139-170 | a committed self-funded plan pays its caller at least output for funding |
| RouterFunds.LoanGain | contracts/src/BaseExecutionRouter.sol:178-261 | a committed flash-loan plan raises the caller's balance by at least output minus funding |
| RouterConservation.RouteConserves | contracts/src/BaseExecutionRouter.sol:267-298 | with honest venues the router holds the current amount of the current token in place of the funding, for routes of any length |
| RouterConservation.FlashLoanConserves | contracts/src/BaseExecutionRouter.sol:208-261 | for every vault behaviour that has lent the funding by its callback and leaves vault, router and caller alone afterwards, with honest venues: vault and router keep every balance and the caller is paid exactly output minus funding, never negative |
| RouterConservation.CallbackPays | contracts/src/BaseExecutionRouter.sol:208-261 | the callback itself restores vault and router and pays the caller |
| RouterConservation.BalancerLoanIsHonest | contracts/src/BaseExecutionRouter.sol:178-205 | a Balancer-style vault lends in this sense wherever the venues are honest |
| RouterConservation.PlanConserves | contracts/src/BaseExecutionRouter.sol:139-170 | with honest venues the router keeps every balance and the caller is paid exactly output for funding |
| RouterConservation.AttemptsAreInert | contracts/src/BaseExecutionRouter.sol:139-223 | while a route runs every caught re-entry into any entry point fails and changes nothing |
| RouterConservation.ReenteringVenueIsHonest | contracts/src/BaseExecutionRouter.sol:300-375 | a venue that attempts re-entry in any way and then swaps is honest |
| Execution.PaddedGasLimit | crates/execution/src/lib.rs:512-522 | the least limit covering the padded estimate, failing exactly when it does not fit |
| Execution.PrepareExecution | crates/execution/src/lib.rs:173-219 | succeeds exactly with steps, a notional, a gas limit that fits and a policy that can decide; submission is allowed exactly in live mode or within both canary limits |
| Execution.FinalizeFromReceipt | crates/execution/src/lib.rs:376-430 | refused exactly on a wrong status, a foreign hash or a fee overflow; Reverted exactly on failure, ProfitRealized exactly when the surplus reaches the minimum |
| Execution.MarkDropped | crates/execution/src/lib.rs:432-467 | refused exactly on a wrong status, a blank reason or a missing hash; otherwise only the status changes, to Dropped |
| Execution.TotalFeePaid | crates/execution/src/lib.rs:639-654 | the total is execution plus L1 fee, or the L1 fee where a gas figure is unknown, and fails exactly when the sum overflows |
| Execution.BuildRouteSteps | crates/execution/src/lib.rs:547-621 | one router step per request step, or the error of the first step that cannot be built |
| Execution.LifeIsSound | crates/execution/src/lib.rs:350-467 | over every sequence of transitions only allowed attempts leave Built, a set hash never changes, and final states absorb |
| Execution.LifeSplits | crates/execution/src/lib.rs:350-467 | a life can be cut anywhere, so the guarantees hold from every intermediate attempt |
| App.Engine.constructor | crates/app/src/main.rs:64-78 | starts on the stored table with a fresh risk engine |
| App.Engine.HandleDecisionOutput | crates/app/src/main.rs:346-483 | one turn in the order assess, build, prepare, persist, submit, record |
| App.Engine.SubmitPrepared | crates/app/src/main.rs:418-479 | a blocked attempt is left alone; a failed required simulation counts as a failure; else the attempt is driven |
| App.Engine.DriveExecutionAttempt | crates/app/src/main.rs:575-771 | stored attempt, recorded outcome and survival for every answer of the transport |
| App.Engine.TodaysSubmittableNotional | crates/storage/src/lib.rs:476-496 | the ledger is the sum of allowed notional stored since the start of the day |
| AppRuns.BreakerNeverExceeded | crates/app/src/main.rs:346-483 | within a process consecutive failures never exceed a positive limit, whatever the table held at start |
| AppRuns.BreakerIsPermanent | crates/decision/src/risk.rs:171-227 | once the limit is reached no later turn of the same process resets it or stores an attempt |
| AppRuns.SubmissionIsLife | crates/app/src/main.rs:575-771 | what the loop stores is a life of the prepared attempt |
| AppRuns.TurnAddsOneRow | crates/app/src/main.rs:369-416 | a turn stores at most one attempt, sound, and within the canary limit it was checked against |
| AppRuns.AttemptsAreStoredSoundly | crates/app/src/main.rs:346-483 | every stored attempt is sound and none is ProfitRealized or Replaced |
| AppRuns.RowsAreFinal | crates/app/src/main.rs:346-483 | later turns never touch the row of an earlier one |
| AppRuns.CanaryDailyLimit | crates/app/src/main.rs:369-416 | through one process, started on a table within the limit, the allowed canary notional of every day stays within it |
| AppRuns.CanaryLimitSurvivesRestarts | crates/storage/src/lib.rs:476-496 | the same through every history of processes that start on the table the last one left, with fresh risk counters |
| AppRuns.RestartsKeepAttempts | crates/app/src/main.rs:346-483 | through every such history stored attempts stay as they are and new ones are sound |
| EndToEnd.PlanKeepsPromise | crates/execution/src/lib.rs:230-277 | the plan of an accepted loop is chained, funding and repayment are the input, its last minimum is funding plus gross profit, its surplus is the policy minimum, and gross profit covers minimum, gas and L1 fee |
| EndToEnd.AcceptedLoopsBecomePlans | crates/execution/src/lib.rs:230-277 | an accepted loop yields a plan if and only if a router is configured, its address and those of the loop's pools and tokens parse, and the deadline fits |
| EndToEnd.SelfFundedKeepsPromise | contracts/src/BaseExecutionRouter.sol:139-170 | never misrouted, and a commit raises the caller's balance by at least the gross profit |
| EndToEnd.FlashLoanedKeepsPromise | contracts/src/BaseExecutionRouter.sol:178-261 | the same for the flash-loan entry point, for every behaviour of vault and venues that does not spend the caller's own tokens |

## Left out

- Spellings of addresses: they are compared exactly and contain no ':' where ids are concerned; where plans are built an address is "0x" and forty lower-case hexadecimal digits, so mixed-case and unprefixed spellings are absent.
- Exchange and protocol tags of pools and legs, and the texts of reasons and notes; token rejections share one reason.
- Aliasing of pools: they are owned values in the source and values here.
- Hashes: the risk hash is the tuple of the values it commits to, and the loan fingerprint is the user data itself, so both are collision-free.
- ERC-20 internals: transfers are plain, unbounded sums of balances, and a caller's approval of the router is taken as given.
- Call parameters of venues (path, fee, deadline, recipient): a venue's behaviour is arbitrary, so the model does not depend on them.
- Owner, executor and pause administration and token rescue: executors, pause flag and time may differ between transactions and are fixed within one; rescued tokens are absent.
- AcceptedLoopsBecomePlans: does not model the parse failure of the risk hash, because the hash is a value here.
- V3 tick crossing, Mint and Burn, and undo of V3 logs: not implemented in the source.
- Parsing of configuration strings: numeric settings arrive parsed, so parse errors are absent.
- Unicode whitespace beyond space, tab, newline and carriage return in the blank-hash check.
- Storage: one table of attempts with insertion times, always enabled, that outlives processes; storage failures and the other tables are absent.
- A broadcast that fails ambiguously, where the node kept the transaction: a failed broadcast is taken as not sent.
- A second chain sync of the nonce counter: the engine performs one, at start.
- Mutex poisoning, task scheduling and timeouts beyond their outcomes.
- Ingest streams, log decoding, discovery, RPC, signing, gas pricing, receipt polling, observability and deployment: input, output and plumbing around short logic.
- The legacy stateless risk entry point: it is the profit floor of the risk engine alone.
