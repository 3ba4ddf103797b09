/** What the engine loop guarantees over whole runs: the circuit breaker, the canary ledger and the
    stored life of every attempt. */
module AppRuns {
  import opened Common
  import opened Decision
  import opened Execution
  import opened App
  import K = RiskEngine
  import Q = Requests

  // ----- Circuit breaker -----

  lemma AssessKeepsReverts(policy: K.RiskPolicy, s: K.RiskState, a: K.Assessment)
    ensures K.AfterAssess(policy, s, a).consecutiveReverts == s.consecutiveReverts
    ensures K.Decide(policy, s, a).accepted && policy.maxConsecutiveReverts > 0 ==>
              s.consecutiveReverts < policy.maxConsecutiveReverts
  {}

  lemma TurnKeepsBreaker(config: ExecutionConfig, policy: K.RiskPolicy, app: AppState, turn: Turn)
    requires policy.maxConsecutiveReverts > 0
    requires app.risk.consecutiveReverts <= policy.maxConsecutiveReverts
    ensures
      var after := AfterTurn(config, policy, app, turn);
      && after.risk.consecutiveReverts <= policy.maxConsecutiveReverts
      && (app.risk.consecutiveReverts == policy.maxConsecutiveReverts ==>
            after.risk.consecutiveReverts == policy.maxConsecutiveReverts && after.rows == app.rows)
  {
    AssessKeepsReverts(policy, app.risk, turn.assessment);
  }

  /** Within a process, consecutive failures never exceed a positive limit. */
  lemma {:induction false} BreakerNeverExceeded(config: ExecutionConfig, policy: K.RiskPolicy,
                                                rows: seq<Row>, turns: seq<Turn>)
    requires policy.maxConsecutiveReverts > 0
    ensures RunTurns(config, policy, rows, turns).risk.consecutiveReverts <= policy.maxConsecutiveReverts
  {
    if turns != [] {
      var last := |turns| - 1;
      BreakerNeverExceeded(config, policy, rows, turns[..last]);
      TurnKeepsBreaker(config, policy, RunTurns(config, policy, rows, turns[..last]), turns[last]);
    }
  }

  /** Reaching the limit is permanent within the process: no later turn resets the count or prepares an
      attempt. */
  lemma {:induction false} BreakerIsPermanent(config: ExecutionConfig, policy: K.RiskPolicy,
                                              rows: seq<Row>, turns: seq<Turn>, more: seq<Turn>)
    requires policy.maxConsecutiveReverts > 0
    requires RunTurns(config, policy, rows, turns).risk.consecutiveReverts == policy.maxConsecutiveReverts
    ensures
      var before, after := RunTurns(config, policy, rows, turns), RunTurns(config, policy, rows, turns + more);
      after.risk.consecutiveReverts == policy.maxConsecutiveReverts && after.rows == before.rows
    decreases |more|
  {
    if more == [] {
      assert turns + more == turns;
    } else {
      var last := |more| - 1;
      BreakerIsPermanent(config, policy, rows, turns, more[..last]);
      assert (turns + more)[..|turns + more| - 1] == turns + more[..last];
      TurnKeepsBreaker(config, policy, RunTurns(config, policy, rows, turns + more[..last]), more[last]);
    }
  }

  // ----- One turn's row -----

  lemma SubmissionIsLife(config: ExecutionConfig, request: ExecutionRequest, attempt: ExecutionAttempt, turn: Turn)
      returns (transitions: seq<Transition>)
    ensures Submission(config, request, attempt, turn).attempt == Life(attempt, transitions)
    ensures forall i | 0 <= i < |transitions| :: transitions[i].Finalize? ==> transitions[i].realizedSurplus.None?
  {
    transitions := [];
    if turn.submit.Accepted? && Submission(config, request, attempt, turn).attempt != attempt {
      var submit := Submit(turn.submit.txHash);
      var rest := match turn.receipt
        case Found(receipt) => [Finalize(receipt, None, request.minSurplus)]
        case NotFound => [Drop("timed out while waiting for execution receipt")]
        case LookupFailed => [];
      transitions := [submit] + rest;
      LifeSplits(attempt, [submit], rest);
      assert [submit][..0] == [];
      assert Life(attempt, [submit]) == Advance(attempt, submit);
      var submitted := Advance(attempt, submit);
      if rest != [] {
        assert rest[..0] == [];
        assert Life(submitted, rest) == Advance(submitted, rest[0]);
      }
    }
  }

  /** A stored attempt: sound, and in a state the loop can reach. No realized surplus is ever
      reported, so `ProfitRealized` is not among them. */
  predicate StoredSoundly(attempt: ExecutionAttempt) {
    Sound(attempt) && attempt.status != Replaced && attempt.status != ProfitRealized
  }

  lemma {:induction false} NoSurplusNoProfit(attempt: ExecutionAttempt, transitions: seq<Transition>)
    requires attempt.status != ProfitRealized
    requires forall i | 0 <= i < |transitions| :: transitions[i].Finalize? ==> transitions[i].realizedSurplus.None?
    ensures Life(attempt, transitions).status != ProfitRealized
  {
    if transitions != [] {
      NoSurplusNoProfit(attempt, transitions[..|transitions| - 1]);
    }
  }

  /** The one row a turn may add: the prepared attempt, driven. */
  lemma TurnAddsOneRow(config: ExecutionConfig, policy: K.RiskPolicy, app: AppState, turn: Turn)
    ensures
      var after := AfterTurn(config, policy, app, turn);
      || after.rows == app.rows
      || (&& |after.rows| == |app.rows| + 1 && after.rows[..|app.rows|] == app.rows
          && after.rows[|app.rows|].observedAt == turn.insertedAt
          && StoredSoundly(after.rows[|app.rows|].attempt)
          && FitsCanary(config, after.rows[|app.rows|].attempt, Ledger(app.rows, turn.queriedAt)))
  {
    var decision := K.Decide(policy, app.risk, turn.assessment);
    var built := Q.RequestFor(turn.assessment.opportunity, decision);
    var ledger := Ledger(app.rows, turn.queriedAt);
    if app.alive && built.Some? && ledger < TWO_128 {
      var prepared := PrepareExecution(config, built.value, turn.assessment.simulation, ledger);
      if prepared.Ok? {
        DrivenRow(config, built.value, prepared.value, turn);
      }
    }
  }

  /** An allowed canary attempt fits the daily limit on top of the ledger it was checked against. */
  predicate FitsCanary(config: ExecutionConfig, attempt: ExecutionAttempt, ledger: nat) {
    config.mode == Canary && attempt.submissionAllowed ==>
      Within(config.canaryMaxDailyWei, ledger + attempt.requestedNotional)
  }

  lemma DrivenRow(config: ExecutionConfig, request: ExecutionRequest, attempt: ExecutionAttempt, turn: Turn)
    requires Sound(attempt) && attempt.status == Built
    ensures
      var driven := Submission(config, request, attempt, turn).attempt;
      && StoredSoundly(driven) && driven.submissionAllowed == attempt.submissionAllowed
      && driven.requestedNotional == attempt.requestedNotional
  {
    var transitions := SubmissionIsLife(config, request, attempt, turn);
    LifeIsSound(attempt, transitions);
    NoSurplusNoProfit(attempt, transitions);
  }

  // ----- Stored attempts -----

  ghost predicate AllStoredSoundly(rows: seq<Row>) {
    forall k | 0 <= k < |rows| :: StoredSoundly(rows[k].attempt)
  }

  /** In every run only allowed attempts have left `Built`, and exactly those carry a hash. */
  lemma {:induction false} AttemptsAreStoredSoundly(config: ExecutionConfig, policy: K.RiskPolicy,
                                                    rows: seq<Row>, turns: seq<Turn>)
    requires AllStoredSoundly(rows)
    ensures AllStoredSoundly(RunTurns(config, policy, rows, turns).rows)
  {
    if turns != [] {
      var last := |turns| - 1;
      AttemptsAreStoredSoundly(config, policy, rows, turns[..last]);
      var app := RunTurns(config, policy, rows, turns[..last]);
      TurnAddsOneRow(config, policy, app, turns[last]);
      OneMoreSound(app.rows, RunTurns(config, policy, rows, turns).rows);
    }
  }

  lemma OneMoreSound(rows: seq<Row>, after: seq<Row>)
    requires AllStoredSoundly(rows)
    requires || after == rows
             || (|after| == |rows| + 1 && after[..|rows|] == rows && StoredSoundly(after[|rows|].attempt))
    ensures AllStoredSoundly(after)
  {
    forall k | 0 <= k < |after| ensures StoredSoundly(after[k].attempt) {
      if k < |rows| { assert after[k] == after[..|rows|][k]; }
    }
  }

  /** Once a turn is over its row is never touched again: hashes and statuses stay. */
  lemma {:induction false} RowsAreFinal(config: ExecutionConfig, policy: K.RiskPolicy, rows: seq<Row>,
                                        turns: seq<Turn>, more: seq<Turn>)
    ensures
      var before, after := RunTurns(config, policy, rows, turns).rows, RunTurns(config, policy, rows, turns + more).rows;
      |before| <= |after| && after[..|before|] == before
    decreases |more|
  {
    if more == [] {
      assert turns + more == turns;
    } else {
      var last := |more| - 1;
      RowsAreFinal(config, policy, rows, turns, more[..last]);
      assert (turns + more)[..|turns + more| - 1] == turns + more[..last];
      var before := RunTurns(config, policy, rows, turns + more[..last]);
      TurnAddsOneRow(config, policy, before, more[last]);
      RowsExtend(RunTurns(config, policy, rows, turns).rows, before.rows, RunTurns(config, policy, rows, turns + more).rows);
    }
  }

  lemma RowsExtend(a: seq<Row>, b: seq<Row>, c: seq<Row>)
    requires |a| <= |b| <= |c| && b[..|a|] == a && c[..|b|] == b
    ensures c[..|a|] == a
  {
    assert c[..|a|] == c[..|b|][..|a|];
  }

  // ----- Canary ledger -----

  /** The ledger only shrinks as the day advances. */
  lemma {:induction false} LedgerShrinks(rows: seq<Row>, early: nat, late: nat)
    requires early <= late
    ensures Ledger(rows, late) <= Ledger(rows, early)
  {
    if rows != [] {
      LedgerShrinks(rows[..|rows| - 1], early, late);
      DayMonotone(early, late);
    }
  }

  lemma DayMonotone(early: nat, late: nat)
    requires early <= late
    ensures Day(early) <= Day(late)
  {}

  /** Allowed notional stored on one day. */
  function DayTotal(rows: seq<Row>, day: nat): nat {
    if rows == [] then 0 else
    var last := rows[|rows| - 1];
    DayTotal(rows[..|rows| - 1], day)
      + if last.attempt.submissionAllowed && Day(last.observedAt) == day then last.attempt.requestedNotional else 0
  }

  /** The last insertion time of some turns, or `since` before any. */
  function Until(turns: seq<Turn>, since: nat): nat {
    if turns == [] then since else turns[|turns| - 1].insertedAt
  }

  /** Database time does not run backwards, within a turn or between turns. */
  predicate Clocked(turns: seq<Turn>, since: nat) {
    turns != [] ==>
      var last := |turns| - 1;
      && Clocked(turns[..last], since)
      && Until(turns[..last], since) <= turns[last].queriedAt <= turns[last].insertedAt
  }

  predicate StoredBy(rows: seq<Row>, time: nat) {
    forall k | 0 <= k < |rows| :: rows[k].observedAt <= time
  }

  lemma {:induction false} LedgerIsDayTotal(rows: seq<Row>, now: nat)
    requires StoredBy(rows, now)
    ensures Ledger(rows, now) == DayTotal(rows, Day(now))
  {
    if rows != [] {
      LedgerIsDayTotal(rows[..|rows| - 1], now);
      DayMonotone(rows[|rows| - 1].observedAt, now);
    }
  }

  ghost predicate DaysWithin(rows: seq<Row>, limit: nat) {
    forall day :: DayTotal(rows, day) <= limit
  }

  /** A table whose days are within the limit stays so through a process, and its rows are stored by the
      process's last insertion. */
  lemma {:induction false} CanaryDailyLimit(config: ExecutionConfig, policy: K.RiskPolicy, rows: seq<Row>,
                                            turns: seq<Turn>, limit: Amount, since: nat)
    requires config.mode == Canary && config.canaryMaxDailyWei == Some(limit) && Clocked(turns, since)
    requires DaysWithin(rows, limit) && StoredBy(rows, since)
    ensures
      var after := RunTurns(config, policy, rows, turns).rows;
      DaysWithin(after, limit) && StoredBy(after, Until(turns, since))
  {
    if turns != [] {
      var last := |turns| - 1;
      CanaryDailyLimit(config, policy, rows, turns[..last], limit, since);
      var app := RunTurns(config, policy, rows, turns[..last]);
      StoredLater(app.rows, Until(turns[..last], since), turns[last].queriedAt);
      TurnAddsOneRow(config, policy, app, turns[last]);
      CanaryTurn(config, app.rows, RunTurns(config, policy, rows, turns).rows, turns[last], limit);
    }
  }

  lemma StoredLater(rows: seq<Row>, early: nat, late: nat)
    requires StoredBy(rows, early) && early <= late
    ensures StoredBy(rows, late)
  {}

  // ----- Restarts -----

  function UntilLast(processes: seq<Process>, since: nat): nat {
    if processes == [] then since
    else Until(processes[|processes| - 1].turns, UntilLast(processes[..|processes| - 1], since))
  }

  /** Every process is a canary with this daily limit, and time does not run backwards across restarts. */
  predicate CanaryHistory(processes: seq<Process>, limit: Amount, since: nat) {
    processes != [] ==>
      var last := |processes| - 1;
      && CanaryHistory(processes[..last], limit, since)
      && processes[last].config.mode == Canary && processes[last].config.canaryMaxDailyWei == Some(limit)
      && Clocked(processes[last].turns, UntilLast(processes[..last], since))
  }

  /** However often the process restarts, and with whatever risk policies, no day's allowed canary
      notional ever exceeds the daily limit. */
  lemma {:induction false} CanaryLimitSurvivesRestarts(rows: seq<Row>, processes: seq<Process>, limit: Amount, since: nat)
    requires CanaryHistory(processes, limit, since) && DaysWithin(rows, limit) && StoredBy(rows, since)
    ensures DaysWithin(RunProcesses(rows, processes), limit)
    ensures StoredBy(RunProcesses(rows, processes), UntilLast(processes, since))
  {
    if processes != [] {
      var last, earlier := processes[|processes| - 1], processes[..|processes| - 1];
      CanaryLimitSurvivesRestarts(rows, earlier, limit, since);
      CanaryDailyLimit(last.config, last.policy, RunProcesses(rows, earlier), last.turns, limit, UntilLast(earlier, since));
    }
  }

  /** Restarts neither touch stored attempts nor store unsound ones. */
  lemma {:induction false} RestartsKeepAttempts(rows: seq<Row>, processes: seq<Process>)
    requires AllStoredSoundly(rows)
    ensures
      var after := RunProcesses(rows, processes);
      AllStoredSoundly(after) && |rows| <= |after| && after[..|rows|] == rows
  {
    if processes != [] {
      var last, earlier := processes[|processes| - 1], RunProcesses(rows, processes[..|processes| - 1]);
      RestartsKeepAttempts(rows, processes[..|processes| - 1]);
      AttemptsAreStoredSoundly(last.config, last.policy, earlier, last.turns);
      RowsAreFinal(last.config, last.policy, earlier, [], last.turns);
      assert [] + last.turns == last.turns;
      RowsExtend(rows, earlier, RunProcesses(rows, processes));
    }
  }

  lemma CanaryTurn(config: ExecutionConfig, rows: seq<Row>, after: seq<Row>, turn: Turn, limit: Amount)
    requires config.mode == Canary && config.canaryMaxDailyWei == Some(limit)
    requires DaysWithin(rows, limit) && StoredBy(rows, turn.queriedAt) && turn.queriedAt <= turn.insertedAt
    requires || after == rows
             || (&& |after| == |rows| + 1 && after[..|rows|] == rows
                 && after[|rows|].observedAt == turn.insertedAt
                 && FitsCanary(config, after[|rows|].attempt, Ledger(rows, turn.queriedAt)))
    ensures DaysWithin(after, limit) && StoredBy(after, turn.insertedAt)
  {
    if after != rows {
      LedgerShrinks(rows, turn.queriedAt, turn.insertedAt);
      LedgerIsDayTotal(rows, turn.insertedAt);
      forall day ensures DayTotal(after, day) <= limit {
        assert DayTotal(rows, day) <= limit;
      }
    }
  }
}
