/** The risk engine: hard gates, rolling notional caps and the circuit breaker. */
module RiskEngine {
  import opened Common
  import opened Decision

  const SECONDS_PER_DAY: nat := 86_400

  datatype RiskPolicy = RiskPolicy(
    minNetProfitWei: Amount,
    minProfitBps: U32,
    maxTradeNotionalWei: Option<Amount>,
    maxPerBlockNotionalWei: Option<Amount>,
    maxDailyNotionalWei: Option<Amount>,
    maxSlippageBps: U32,
    tokenAllowlist: set<Address>,
    tokenDenylist: set<Address>,
    maxConsecutiveReverts: U32,
    killSwitchPath: bool)

  datatype Entry = Entry(time: U64, amount: Amount)

  datatype RiskState = RiskState(
    blockNotional: Option<(U64, Amount)>,
    dailyEntries: seq<Entry>,
    dailyTotal: Amount,
    consecutiveReverts: U32,
    operatorKilled: bool)

  const INITIAL: RiskState := RiskState(None, [], 0, 0, false)

  /** One call of `assess`: the opportunity, the clock reading, and whether the kill-switch file
      exists at that moment. */
  datatype Assessment = Assessment(opportunity: Opportunity, simulation: SimulationResult, now: U64, killFile: bool)

  /** Pending contexts share one bucket. */
  function Bucket(a: Assessment): U64 {
    match a.opportunity.blockContext
    case Block(number) => number
    case Pending => U64_MAX
  }

  function Horizon(now: U64): U64 {
    if now < SECONDS_PER_DAY then 0 else now - SECONDS_PER_DAY
  }

  /** On the denylist, or missing from a nonempty allowlist. */
  predicate Barred(policy: RiskPolicy, token: Address) {
    token in policy.tokenDenylist || (policy.tokenAllowlist != {} && token !in policy.tokenAllowlist)
  }

  predicate BarredLegs(policy: RiskPolicy, route: seq<RouteLeg>) {
    && route != []
    && (Barred(policy, route[0].tokenIn) || Barred(policy, route[0].tokenOut) || BarredLegs(policy, route[1..]))
  }

  function StatelessReject(policy: RiskPolicy, a: Assessment): Option<DenyReason> {
    var Assessment(opportunity, simulation, _, killFile) := a;
    if policy.killSwitchPath && killFile then Some(KillSwitchFile)
    else if !simulation.accepted then Some(SimulationRejected)
    else if simulation.expectedNetProfit < policy.minNetProfitWei then Some(BelowMinNetProfit)
    else if && policy.minProfitBps > 0 && opportunity.inputAmount > 0
            && simulation.expectedNetProfit < SaturatingMul(opportunity.inputAmount, policy.minProfitBps) / 10_000
      then Some(BelowMinProfitBps)
    else if policy.maxTradeNotionalWei.Some? && opportunity.inputAmount > policy.maxTradeNotionalWei.value
      then Some(AboveTradeCap)
    else if Barred(policy, opportunity.settlementToken) || BarredLegs(policy, opportunity.route)
      then Some(TokenRejected)
    else if && policy.maxSlippageBps < 10_000
            && opportunity.expectedOutputAmount < opportunity.inputAmount
            && opportunity.inputAmount - opportunity.expectedOutputAmount
                 > SaturatingMul(opportunity.inputAmount, policy.maxSlippageBps) / 10_000
      then Some(PathShortfall)
    else None
  }

  function Hash(policy: RiskPolicy, a: Assessment): RiskHash {
    RiskHash(a.opportunity.id, a.opportunity.expectedOutputAmount, a.simulation.expectedNetProfit,
             a.simulation.gasCostWei, a.simulation.l1DataFee, policy.minNetProfitWei)
  }

  function Deny(policy: RiskPolicy, a: Assessment, reason: DenyReason): RiskDecision {
    RiskDecision(a.opportunity.id, false, Some(reason), Hash(policy, a), policy.minNetProfitWei)
  }

  function Accept(policy: RiskPolicy, a: Assessment): RiskDecision {
    RiskDecision(a.opportunity.id, true, None, Hash(policy, a), policy.minNetProfitWei)
  }

  /** Drop expired entries from the front of the queue, subtracting each from the total. */
  function PruneFrom(entries: seq<Entry>, total: Amount, horizon: U64): (seq<Entry>, Amount) {
    if entries != [] && entries[0].time < horizon
    then PruneFrom(entries[1..], SaturatingSub(total, entries[0].amount), horizon)
    else (entries, total)
  }

  function Prune(s: RiskState, now: U64): RiskState {
    var (entries, total) := PruneFrom(s.dailyEntries, s.dailyTotal, Horizon(now));
    s.(dailyEntries := entries, dailyTotal := total)
  }

  function BlockUsed(s: RiskState, bucket: U64): Amount {
    if s.blockNotional.Some? && s.blockNotional.value.0 == bucket then s.blockNotional.value.1 else 0
  }

  /** The gates in front of the rolling window. */
  function EarlyReject(policy: RiskPolicy, s: RiskState, a: Assessment): Option<DenyReason> {
    var stateless := StatelessReject(policy, a);
    var projected := SaturatingAdd(BlockUsed(s, Bucket(a)), a.opportunity.inputAmount);
    if stateless.Some? then stateless
    else if s.operatorKilled then Some(OperatorKilled)
    else if s.consecutiveReverts >= policy.maxConsecutiveReverts && policy.maxConsecutiveReverts > 0
      then Some(BreakerTripped(s.consecutiveReverts))
    else if policy.maxPerBlockNotionalWei.Some? && projected > policy.maxPerBlockNotionalWei.value
      then Some(AboveBlockCap(projected))
    else None
  }

  /** The decision, given the state before the call. */
  function Decide(policy: RiskPolicy, s: RiskState, a: Assessment): RiskDecision {
    var early := EarlyReject(policy, s, a);
    if early.Some? then Deny(policy, a, early.value) else
    var projected := SaturatingAdd(Prune(s, a.now).dailyTotal, a.opportunity.inputAmount);
    if policy.maxDailyNotionalWei.Some? && projected > policy.maxDailyNotionalWei.value
    then Deny(policy, a, AboveDailyCap(projected))
    else Accept(policy, a)
  }

  /** The state after the call. A denial by the daily cap still prunes the window. */
  function AfterAssess(policy: RiskPolicy, s: RiskState, a: Assessment): RiskState {
    if EarlyReject(policy, s, a).Some? then s else
    var pruned := Prune(s, a.now);
    if !Decide(policy, s, a).accepted then pruned else
    var amount := a.opportunity.inputAmount;
    pruned.(blockNotional := Some((Bucket(a), SaturatingAdd(BlockUsed(s, Bucket(a)), amount))),
            dailyEntries := pruned.dailyEntries + [Entry(a.now, amount)],
            dailyTotal := SaturatingAdd(pruned.dailyTotal, amount))
  }

  function AfterOutcome(s: RiskState, success: bool): RiskState {
    s.(consecutiveReverts :=
         if success then 0
         else if s.consecutiveReverts < U32_MAX then s.consecutiveReverts + 1
         else U32_MAX)
  }

  class RiskEngine {
    const policy: RiskPolicy
    var blockNotional: Option<(U64, Amount)>
    var dailyEntries: seq<Entry>
    var dailyTotal: Amount
    var consecutiveReverts: U32
    var operatorKilled: bool

    ghost function State(): RiskState
      reads this
    {
      RiskState(blockNotional, dailyEntries, dailyTotal, consecutiveReverts, operatorKilled)
    }

    constructor (policy: RiskPolicy)
      ensures this.policy == policy && State() == INITIAL
    {
      this.policy := policy;
      blockNotional, dailyEntries, dailyTotal, consecutiveReverts, operatorKilled := None, [], 0, 0, false;
    }

    method TriggerKillSwitch()
      modifies this
      ensures State() == old(State()).(operatorKilled := true)
    {
      operatorKilled := true;
    }

    method RecordOutcome(success: bool)
      modifies this
      ensures State() == AfterOutcome(old(State()), success)
    {
      if success {
        consecutiveReverts := 0;
      } else if consecutiveReverts < U32_MAX {
        consecutiveReverts := consecutiveReverts + 1;
      }
    }

    method PruneDailyEntries(now: U64)
      modifies this`dailyEntries, this`dailyTotal
      ensures State() == Prune(old(State()), now)
    {
      var horizon := Horizon(now);
      while dailyEntries != [] && dailyEntries[0].time < horizon
        invariant PruneFrom(dailyEntries, dailyTotal, horizon) == PruneFrom(old(dailyEntries), old(dailyTotal), horizon)
        decreases |dailyEntries|
      {
        dailyEntries, dailyTotal := dailyEntries[1..], SaturatingSub(dailyTotal, dailyEntries[0].amount);
      }
    }

    method Assess(a: Assessment) returns (decision: RiskDecision)
      modifies this
      ensures decision == Decide(policy, old(State()), a)
      ensures State() == AfterAssess(policy, old(State()), a)
    {
      var amount := a.opportunity.inputAmount;
      var stateless := StatelessReject(policy, a);
      if stateless.Some? {
        return Deny(policy, a, stateless.value);
      }
      if operatorKilled {
        return Deny(policy, a, OperatorKilled);
      }
      if consecutiveReverts >= policy.maxConsecutiveReverts && policy.maxConsecutiveReverts > 0 {
        return Deny(policy, a, BreakerTripped(consecutiveReverts));
      }
      var blockUsed: Amount := 0;
      if blockNotional.Some? && blockNotional.value.0 == Bucket(a) {
        blockUsed := blockNotional.value.1;
      }
      if policy.maxPerBlockNotionalWei.Some? {
        var projected := SaturatingAdd(blockUsed, amount);
        if projected > policy.maxPerBlockNotionalWei.value {
          return Deny(policy, a, AboveBlockCap(projected));
        }
      }
      PruneDailyEntries(a.now);
      if policy.maxDailyNotionalWei.Some? {
        var projected := SaturatingAdd(dailyTotal, amount);
        if projected > policy.maxDailyNotionalWei.value {
          return Deny(policy, a, AboveDailyCap(projected));
        }
      }
      blockNotional := Some((Bucket(a), SaturatingAdd(blockUsed, amount)));
      dailyEntries := dailyEntries + [Entry(a.now, amount)];
      dailyTotal := SaturatingAdd(dailyTotal, amount);
      decision := Accept(policy, a);
    }
  }
}
