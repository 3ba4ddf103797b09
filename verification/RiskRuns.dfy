/** Guarantees of the risk engine over whole runs: every sequence of assessments, recorded outcomes
    and kill-switch triggers, from a fresh engine. */
module RiskRuns {
  import opened Common
  import opened Decision
  import opened RiskEngine

  datatype Event = Assessed(assessment: Assessment) | Recorded(success: bool) | Killed

  function Step(policy: RiskPolicy, s: RiskState, e: Event): RiskState {
    match e
    case Assessed(a) => AfterAssess(policy, s, a)
    case Recorded(success) => AfterOutcome(s, success)
    case Killed => s.(operatorKilled := true)
  }

  function Run(policy: RiskPolicy, events: seq<Event>): RiskState {
    if events == [] then INITIAL
    else Step(policy, Run(policy, events[..|events| - 1]), events[|events| - 1])
  }

  /** Whether the last event of a run is an accepted assessment. */
  predicate AcceptsLast(policy: RiskPolicy, events: seq<Event>)
    requires events != []
  {
    var e := events[|events| - 1];
    e.Assessed? && Decide(policy, Run(policy, events[..|events| - 1]), e.assessment).accepted
  }

  /** The accepted notional of a run, with its acceptance times. */
  function Accepted(policy: RiskPolicy, events: seq<Event>): seq<Entry> {
    if events == [] then [] else
    var earlier := Accepted(policy, events[..|events| - 1]);
    if AcceptsLast(policy, events)
    then var a := events[|events| - 1].assessment; earlier + [Entry(a.now, a.opportunity.inputAmount)]
    else earlier
  }

  /** The horizon of the last assessment that reached the rolling window. */
  function LastHorizon(policy: RiskPolicy, events: seq<Event>): U64 {
    if events == [] then 0 else
    var e := events[|events| - 1];
    if e.Assessed? && EarlyReject(policy, Run(policy, events[..|events| - 1]), e.assessment).None?
    then Horizon(e.assessment.now)
    else LastHorizon(policy, events[..|events| - 1])
  }

  /** The clock never goes back. */
  predicate Clocked(events: seq<Event>) {
    forall i, j :: 0 <= i < j < |events| && events[i].Assessed? && events[j].Assessed? ==>
      events[i].assessment.now <= events[j].assessment.now
  }

  function Sum(entries: seq<Entry>): nat {
    if entries == [] then 0 else entries[0].amount + Sum(entries[1..])
  }

  /** The entries not older than `horizon`, in order. */
  function Recent(entries: seq<Entry>, horizon: nat): seq<Entry> {
    if entries == [] then []
    else (if entries[0].time >= horizon then [entries[0]] else []) + Recent(entries[1..], horizon)
  }

  /** The notional of the entries with `low <= time <= high`. */
  function WindowSum(entries: seq<Entry>, low: nat, high: nat): nat {
    if entries == [] then 0
    else (if low <= entries[0].time <= high then entries[0].amount else 0) + WindowSum(entries[1..], low, high)
  }

  /** The notional of one closed day from `start`. */
  function DaySum(entries: seq<Entry>, start: nat): nat {
    WindowSum(entries, start, start + SECONDS_PER_DAY)
  }

  predicate Sorted(entries: seq<Entry>) {
    forall i, j :: 0 <= i < j < |entries| ==> entries[i].time <= entries[j].time
  }

  predicate ExactCap(policy: RiskPolicy) {
    policy.maxDailyNotionalWei.Some? && policy.maxDailyNotionalWei.value < AMOUNT_MAX
  }

  // ----- Policies and offers with nothing but a cap -----

  function OpenPolicy(perBlock: Option<Amount>, daily: Option<Amount>): RiskPolicy {
    RiskPolicy(0, 0, None, perBlock, daily, 10_000, {}, {}, 0, false)
  }

  function Offer(block: U64, amount: Amount, now: U64): Event {
    Assessed(Assessment(
      Opportunity("", TwoLegLoop, Block(block), "", amount, amount, 0, [], None),
      SimulationResult("", true, 0, 0, 0, 0, 0), now, false))
  }

  // ----- The queue -----

  lemma SumAppend(xs: seq<Entry>, e: Entry)
    ensures Sum(xs + [e]) == Sum(xs) + e.amount
  {
    if xs == [] {
      assert xs + [e] == [e];
    } else {
      assert (xs + [e])[1..] == xs[1..] + [e];
      SumAppend(xs[1..], e);
    }
  }

  lemma {:induction false} RecentAppend(xs: seq<Entry>, e: Entry, h: nat)
    ensures Recent(xs + [e], h) == Recent(xs, h) + (if e.time >= h then [e] else [])
  {
    if xs == [] {
      assert xs + [e] == [e];
    } else {
      var head := if xs[0].time >= h then [xs[0]] else [];
      assert (xs + [e])[1..] == xs[1..] + [e];
      RecentAppend(xs[1..], e, h);
      assert Recent(xs + [e], h) == head + Recent(xs[1..] + [e], h);
      assert Recent(xs, h) == head + Recent(xs[1..], h);
    }
  }

  lemma WindowAppend(xs: seq<Entry>, e: Entry, low: nat, high: nat)
    ensures WindowSum(xs + [e], low, high)
         == WindowSum(xs, low, high) + (if low <= e.time <= high then e.amount else 0)
  {
    if xs == [] {
      assert xs + [e] == [e];
    } else {
      assert (xs + [e])[1..] == xs[1..] + [e];
      WindowAppend(xs[1..], e, low, high);
    }
  }

  lemma RecentOfRecent(xs: seq<Entry>, g: nat, h: nat)
    requires g <= h
    ensures Recent(Recent(xs, g), h) == Recent(xs, h)
  {
    if xs != [] {
      RecentOfRecent(xs[1..], g, h);
      if xs[0].time >= g {
        assert Recent(xs, g)[1..] == Recent(xs[1..], g);
      } else {
        assert Recent(xs, g) == Recent(xs[1..], g);
      }
    }
  }

  lemma AllRecent(xs: seq<Entry>, h: nat)
    requires forall i :: 0 <= i < |xs| ==> xs[i].time >= h
    ensures Recent(xs, h) == xs
  {
    if xs != [] { AllRecent(xs[1..], h); }
  }

  lemma RecentSumShrinks(xs: seq<Entry>, h: nat)
    ensures Sum(Recent(xs, h)) <= Sum(xs)
  {
    if xs != [] {
      RecentSumShrinks(xs[1..], h);
      if xs[0].time >= h {
        assert Recent(xs, h)[1..] == Recent(xs[1..], h);
      } else {
        assert Recent(xs, h) == Recent(xs[1..], h);
      }
    }
  }

  lemma {:induction false} RecentMembers(xs: seq<Entry>, h: nat, e: Entry)
    requires e in Recent(xs, h)
    ensures e in xs
  {
    if e != xs[0] { RecentMembers(xs[1..], h, e); }
  }

  lemma {:induction false} RecentSorted(xs: seq<Entry>, h: nat)
    requires Sorted(xs)
    ensures Sorted(Recent(xs, h))
  {
    if xs != [] {
      RecentSorted(xs[1..], h);
      var rest := Recent(xs[1..], h);
      forall j | 0 <= j < |rest| ensures xs[0].time <= rest[j].time {
        RecentMembers(xs[1..], h, rest[j]);
      }
      assert Recent(xs, h) == (if xs[0].time >= h then [xs[0]] else []) + rest;
    }
  }

  /** On a sorted queue whose total is exact, pruning keeps exactly the recent entries and the
      total stays exact. */
  lemma PruneKeepsRecent(entries: seq<Entry>, total: Amount, h: U64)
    requires Sorted(entries) && total == Sum(entries)
    ensures PruneFrom(entries, total, h).0 == Recent(entries, h)
    ensures PruneFrom(entries, total, h).1 == Sum(Recent(entries, h))
  {
    if entries != [] {
      if entries[0].time < h {
        PruneKeepsRecent(entries[1..], total - entries[0].amount, h);
        assert Recent(entries, h) == Recent(entries[1..], h);
      } else {
        AllRecent(entries, h);
      }
    }
  }

  lemma WindowWithinRecent(xs: seq<Entry>, low: nat, high: nat, h: nat)
    requires h <= low
    ensures WindowSum(xs, low, high) <= Sum(Recent(xs, h))
  {
    if xs != [] {
      WindowWithinRecent(xs[1..], low, high, h);
      if xs[0].time >= h {
        assert Recent(xs, h)[1..] == Recent(xs[1..], h);
      } else {
        assert Recent(xs, h) == Recent(xs[1..], h);
      }
    }
  }

  // ----- The rolling window over a run -----

  /** The queue is exactly the accepted entries not older than the last prune horizon, and
      `daily_total` is its sum and within the cap. */
  predicate QueueExact(policy: RiskPolicy, events: seq<Event>)
    requires ExactCap(policy)
  {
    var s := Run(policy, events);
    && s.dailyEntries == Recent(Accepted(policy, events), LastHorizon(policy, events))
    && s.dailyTotal == Sum(s.dailyEntries) <= policy.maxDailyNotionalWei.value
  }

  /** ... after every run with a forward clock and a cap below `u128::MAX`. */
  lemma {:induction false} QueueIsRecentAccepted(policy: RiskPolicy, events: seq<Event>)
    requires ExactCap(policy) && Clocked(events)
    ensures QueueExact(policy, events)
  {
    if events != [] {
      var before, e := events[..|events| - 1], events[|events| - 1];
      QueueIsRecentAccepted(policy, before);
      if e.Assessed? && EarlyReject(policy, Run(policy, before), e.assessment).None? {
        AcceptedSorted(policy, before);
        HorizonReached(policy, before, e.assessment.now);
        WindowStep(policy, events);
      }
    }
  }

  lemma WindowStep(policy: RiskPolicy, events: seq<Event>)
    requires ExactCap(policy) && events != [] && events[|events| - 1].Assessed?
    requires
      var before, now := events[..|events| - 1], events[|events| - 1].assessment.now;
      && QueueExact(policy, before)
      && EarlyReject(policy, Run(policy, before), events[|events| - 1].assessment).None?
      && Sorted(Accepted(policy, before)) && LastHorizon(policy, before) <= Horizon(now)
    ensures QueueExact(policy, events)
  {
    var before, a := events[..|events| - 1], events[|events| - 1].assessment;
    PrunedWindow(policy, before, a.now);
    if AcceptsLast(policy, events) {
      var entry := Entry(a.now, a.opportunity.inputAmount);
      SumAppend(Recent(Accepted(policy, before), Horizon(a.now)), entry);
      RecentAppend(Accepted(policy, before), entry, Horizon(a.now));
    }
  }

  /** Accepted entries are in time order, and none is later than any assessment of the run. */
  lemma {:induction false} AcceptedSorted(policy: RiskPolicy, events: seq<Event>)
    requires Clocked(events)
    ensures Sorted(Accepted(policy, events))
    ensures forall e :: e in Accepted(policy, events) ==> FromRun(e, events)
  {
    if events != [] {
      var before, last := events[..|events| - 1], |events| - 1;
      AcceptedSorted(policy, before);
      forall e | e in Accepted(policy, before)
        ensures FromRun(e, events)
      {
        var i :| 0 <= i < |before| && before[i].Assessed? && before[i].assessment.now == e.time;
        assert events[i].Assessed? && events[i].assessment.now == e.time;
      }
      if AcceptsLast(policy, events) {
        assert events[last].Assessed?;
        var earlier := Accepted(policy, before);
        forall i | 0 <= i < |earlier|
          ensures earlier[i].time <= events[last].assessment.now
        {
          assert FromRun(earlier[i], before);
        }
        assert FromRun(Entry(events[last].assessment.now, events[last].assessment.opportunity.inputAmount), events);
      }
    }
  }

  predicate FromRun(e: Entry, events: seq<Event>) {
    exists i :: 0 <= i < |events| && events[i].Assessed? && events[i].assessment.now == e.time
  }

  lemma {:induction false} HorizonReached(policy: RiskPolicy, events: seq<Event>, now: U64)
    requires forall i :: 0 <= i < |events| && events[i].Assessed? ==> events[i].assessment.now <= now
    ensures LastHorizon(policy, events) <= Horizon(now)
  {
    if events != [] { HorizonReached(policy, events[..|events| - 1], now); }
  }

  /** What pruning at `now` leaves, in terms of the run alone. */
  lemma PrunedWindow(policy: RiskPolicy, events: seq<Event>, now: U64)
    requires
      var s := Run(policy, events);
      && s.dailyEntries == Recent(Accepted(policy, events), LastHorizon(policy, events))
      && s.dailyTotal == Sum(s.dailyEntries)
    requires Sorted(Accepted(policy, events)) && LastHorizon(policy, events) <= Horizon(now)
    ensures Prune(Run(policy, events), now).dailyEntries == Recent(Accepted(policy, events), Horizon(now))
    ensures Prune(Run(policy, events), now).dailyTotal == Sum(Recent(Accepted(policy, events), Horizon(now)))
    ensures Prune(Run(policy, events), now).dailyTotal <= Run(policy, events).dailyTotal
  {
    var s, accepted := Run(policy, events), Accepted(policy, events);
    RecentSorted(accepted, LastHorizon(policy, events));
    PruneKeepsRecent(s.dailyEntries, s.dailyTotal, Horizon(now));
    RecentOfRecent(accepted, LastHorizon(policy, events), Horizon(now));
    RecentSumShrinks(s.dailyEntries, Horizon(now));
  }

  /** An acceptance leaves the whole trailing window within the cap. */
  lemma AcceptanceFits(policy: RiskPolicy, events: seq<Event>, a: Assessment)
    requires ExactCap(policy) && Clocked(events)
    requires forall i :: 0 <= i < |events| && events[i].Assessed? ==> events[i].assessment.now <= a.now
    requires Decide(policy, Run(policy, events), a).accepted
    ensures Sum(Recent(Accepted(policy, events), Horizon(a.now))) + a.opportunity.inputAmount
         <= policy.maxDailyNotionalWei.value
  {
    QueueIsRecentAccepted(policy, events);
    AcceptedSorted(policy, events);
    HorizonReached(policy, events, a.now);
    PrunedWindow(policy, events, a.now);
  }

  /** The rolling cap: over every run, the notional accepted in any closed window of 86400 seconds
      is at most the daily cap. */
  lemma {:induction false} RollingCap(policy: RiskPolicy, events: seq<Event>, start: nat)
    requires ExactCap(policy) && Clocked(events)
    ensures DaySum(Accepted(policy, events), start) <= policy.maxDailyNotionalWei.value
  {
    if events != [] {
      var before := events[..|events| - 1];
      RollingCap(policy, before, start);
      if AcceptsLast(policy, events) {
        var a := events[|events| - 1].assessment;
        WindowAppend(Accepted(policy, before), Entry(a.now, a.opportunity.inputAmount), start, start + SECONDS_PER_DAY);
        if start <= a.now <= start + SECONDS_PER_DAY {
          AcceptanceFits(policy, before, a);
          WindowWithinRecent(Accepted(policy, before), start, start + SECONDS_PER_DAY, Horizon(a.now));
        }
      }
    }
  }

  // ----- The gates -----

  /** Some leg of the route trades a barred token. */
  lemma {:induction false} BarredLegsExactly(policy: RiskPolicy, route: seq<RouteLeg>)
    ensures BarredLegs(policy, route) <==>
            exists i :: 0 <= i < |route| && (Barred(policy, route[i].tokenIn) || Barred(policy, route[i].tokenOut))
  {
    if route != [] {
      BarredLegsExactly(policy, route[1..]);
      if i :| 0 <= i < |route| && (Barred(policy, route[i].tokenIn) || Barred(policy, route[i].tokenOut)) {
        assert i > 0 ==> route[1..][i - 1] == route[i];
      }
      if BarredLegs(policy, route[1..]) {
        var i :| 0 <= i < |route[1..]| && (Barred(policy, route[1..][i].tokenIn) || Barred(policy, route[1..][i].tokenOut));
        assert route[1..][i] == route[i + 1];
      }
    }
  }

  /** Every token of the route may be traded. */
  ghost predicate TokensAllowed(policy: RiskPolicy, opportunity: Opportunity) {
    && !Barred(policy, opportunity.settlementToken)
    && forall i | 0 <= i < |opportunity.route| ::
         !Barred(policy, opportunity.route[i].tokenIn) && !Barred(policy, opportunity.route[i].tokenOut)
  }

  /** The two basis-point gates, multiplied out; the products saturate at `u128::MAX`. */
  predicate ProfitShareEnough(policy: RiskPolicy, a: Assessment) {
    10_000 * (a.simulation.expectedNetProfit + 1) > SaturatingMul(a.opportunity.inputAmount, policy.minProfitBps)
  }

  predicate ShortfallTolerated(policy: RiskPolicy, a: Assessment) {
    policy.maxSlippageBps < 10_000 ==>
      10_000 * (a.opportunity.inputAmount - a.opportunity.expectedOutputAmount)
        <= SaturatingMul(a.opportunity.inputAmount, policy.maxSlippageBps)
  }

  /** What an opportunity must satisfy by itself. */
  ghost predicate Admissible(policy: RiskPolicy, a: Assessment) {
    && !(policy.killSwitchPath && a.killFile)
    && a.simulation.accepted && a.simulation.expectedNetProfit >= policy.minNetProfitWei
    && ProfitShareEnough(policy, a)
    && (policy.maxTradeNotionalWei.Some? ==> a.opportunity.inputAmount <= policy.maxTradeNotionalWei.value)
    && TokensAllowed(policy, a.opportunity)
    && ShortfallTolerated(policy, a)
  }

  /** Kill switch, breaker and the two caps, on the counters the engine holds. */
  predicate CountersAllow(policy: RiskPolicy, s: RiskState, a: Assessment) {
    && !s.operatorKilled
    && (policy.maxConsecutiveReverts > 0 ==> s.consecutiveReverts < policy.maxConsecutiveReverts)
    && (policy.maxPerBlockNotionalWei.Some? ==>
          SaturatingAdd(BlockUsed(s, Bucket(a)), a.opportunity.inputAmount) <= policy.maxPerBlockNotionalWei.value)
    && (policy.maxDailyNotionalWei.Some? ==>
          SaturatingAdd(Prune(s, a.now).dailyTotal, a.opportunity.inputAmount) <= policy.maxDailyNotionalWei.value)
  }

  /** The gates that look at the opportunity alone pass exactly the admissible ones. */
  lemma StatelessExactly(policy: RiskPolicy, a: Assessment)
    ensures StatelessReject(policy, a).None? <==> Admissible(policy, a)
  {
    BarredLegsExactly(policy, a.opportunity.route);
    ProfitGate(policy, a);
    ShortfallGate(policy, a);
  }

  lemma ProfitGate(policy: RiskPolicy, a: Assessment)
    ensures ProfitShareEnough(policy, a) <==>
            !(&& policy.minProfitBps > 0 && a.opportunity.inputAmount > 0
              && a.simulation.expectedNetProfit < SaturatingMul(a.opportunity.inputAmount, policy.minProfitBps) / 10_000)
  {
    NothingOfNothing(a.opportunity.inputAmount, policy.minProfitBps);
  }

  lemma ShortfallGate(policy: RiskPolicy, a: Assessment)
    ensures ShortfallTolerated(policy, a) <==>
            !(&& policy.maxSlippageBps < 10_000
              && a.opportunity.expectedOutputAmount < a.opportunity.inputAmount
              && a.opportunity.inputAmount - a.opportunity.expectedOutputAmount
                   > SaturatingMul(a.opportunity.inputAmount, policy.maxSlippageBps) / 10_000)
  {}

  lemma NothingOfNothing(amount: Amount, bps: Amount)
    ensures amount == 0 || bps == 0 ==> SaturatingMul(amount, bps) == 0
  {}

  /** An assessment is accepted exactly when it is admissible and the counters allow it. */
  lemma AcceptedExactly(policy: RiskPolicy, s: RiskState, a: Assessment)
    ensures Decide(policy, s, a).accepted <==> Admissible(policy, a) && CountersAllow(policy, s, a)
  {
    StatelessExactly(policy, a);
  }
}
