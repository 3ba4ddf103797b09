/** The sequential engine loop: assess, prepare, persist, simulate, submit, settle and record. */
module App {
  import opened Common
  import opened Decision
  import opened Execution
  import K = RiskEngine
  import Q = Requests

  /** A stored attempt and the time of its insertion. */
  datatype Row = Row(observedAt: nat, attempt: ExecutionAttempt)

  /** `alive` is false once an error has ended the process. */
  datatype AppState = AppState(risk: K.RiskState, rows: seq<Row>, alive: bool)

  datatype SubmitReply = Accepted(txHash: string) | Rejected | SubmitTimeout

  datatype ReceiptReply = Found(receipt: ExecutionReceipt) | NotFound | LookupFailed

  /** One decision-pipeline output, with everything the outside world answers while it is handled:
      clock readings of the risk engine, of the two database statements and of the two payload
      builds, the simulated call, the submission and the receipt. */
  datatype Turn = Turn(
    assessment: K.Assessment,
    queriedAt: nat,
    insertedAt: nat,
    simulatedAt: U64,
    builtAt: U64,
    ethcallOk: bool,
    submit: SubmitReply,
    receipt: ReceiptReply)

  const DAY: nat := 86_400

  function Day(time: nat): nat {
    time / DAY
  }

  // ----- Ledger -----

  /** Notional of allowed attempts stored on or after the day of `now`. */
  function Ledger(rows: seq<Row>, now: nat): nat {
    if rows == [] then 0 else
    var last := rows[|rows| - 1];
    Ledger(rows[..|rows| - 1], now)
      + if last.attempt.submissionAllowed && Day(last.observedAt) >= Day(now) then last.attempt.requestedNotional else 0
  }

  // ----- One turn -----

  /** What becomes of an allowed attempt: its final stored form, the outcome reported to the risk
      engine if any, and whether the process survives. */
  datatype Driven = Driven(attempt: ExecutionAttempt, outcome: Option<bool>, alive: bool)

  function Settle(attempt: ExecutionAttempt, minSurplus: Amount, reply: ReceiptReply): Driven {
    match reply
    case Found(receipt) =>
      (match FinalizeFromReceipt(attempt, receipt, None, minSurplus)
       case Err(_) => Driven(attempt, None, false)
       case Ok(done) =>
         Driven(done.attempt, Some(done.outcome.finalStatus == Included || done.outcome.finalStatus == ProfitRealized), true))
    case NotFound =>
      (match MarkDropped(attempt, "timed out while waiting for execution receipt")
       case Err(_) => Driven(attempt, None, false)
       case Ok(done) => Driven(done.attempt, Some(false), true))
    case LookupFailed => Driven(attempt, None, true)
  }

  function Drive(config: ExecutionConfig, request: ExecutionRequest, attempt: ExecutionAttempt, turn: Turn): Driven {
    if BuildPlan(config, request, turn.builtAt).Err? then Driven(attempt, None, true) else
    match turn.submit
    case Rejected => Driven(attempt, Some(false), true)
    case SubmitTimeout => Driven(attempt, Some(false), true)
    case Accepted(txHash) =>
      match MarkSubmitted(attempt, txHash)
      case Err(_) => Driven(attempt, None, false)
      case Ok(submitted) => Settle(submitted, request.minSurplus, turn.receipt)
  }

  function Submission(config: ExecutionConfig, request: ExecutionRequest, attempt: ExecutionAttempt, turn: Turn): Driven {
    if !attempt.submissionAllowed then Driven(attempt, None, true)
    else if BuildPlan(config, request, turn.simulatedAt).Err? then Driven(attempt, None, false)
    else if !turn.ethcallOk && config.ethcallPreflightRequired then Driven(attempt, Some(false), true)
    else Drive(config, request, attempt, turn)
  }

  function AfterTurn(config: ExecutionConfig, policy: K.RiskPolicy, app: AppState, turn: Turn): AppState {
    if !app.alive then app else
    var decision := K.Decide(policy, app.risk, turn.assessment);
    var assessed := app.(risk := K.AfterAssess(policy, app.risk, turn.assessment));
    match Q.RequestFor(turn.assessment.opportunity, decision)
    case None => assessed
    case Some(request) =>
      var ledger := Ledger(app.rows, turn.queriedAt);
      if ledger >= TWO_128 then assessed.(alive := false) else
      match PrepareExecution(config, request, turn.assessment.simulation, ledger)
      case Err(_) => assessed.(alive := false)
      case Ok(attempt) =>
        var driven := Submission(config, request, attempt, turn);
        AppState(if driven.outcome.Some? then K.AfterOutcome(assessed.risk, driven.outcome.value) else assessed.risk,
                 app.rows + [Row(turn.insertedAt, driven.attempt)],
                 driven.alive)
  }

  /** A process starting on a table: the table outlives processes, the risk state does not. */
  function Started(rows: seq<Row>): AppState {
    AppState(K.INITIAL, rows, true)
  }

  /** One process, started on `rows`. */
  function RunTurns(config: ExecutionConfig, policy: K.RiskPolicy, rows: seq<Row>, turns: seq<Turn>): AppState {
    if turns == [] then Started(rows)
    else AfterTurn(config, policy, RunTurns(config, policy, rows, turns[..|turns| - 1]), turns[|turns| - 1])
  }

  datatype Process = Process(config: ExecutionConfig, policy: K.RiskPolicy, turns: seq<Turn>)

  /** The table after one process after another, each ended by an error, a kill or a restart. */
  function RunProcesses(rows: seq<Row>, processes: seq<Process>): seq<Row> {
    if processes == [] then rows else
    var last := processes[|processes| - 1];
    RunTurns(last.config, last.policy, RunProcesses(rows, processes[..|processes| - 1]), last.turns).rows
  }

  // ----- The loop body as the process runs it -----

  class Engine {
    const config: ExecutionConfig
    const risk: K.RiskEngine
    var rows: seq<Row>
    var alive: bool

    ghost function State(): AppState
      reads this, risk
    {
      AppState(risk.State(), rows, alive)
    }

    constructor (config: ExecutionConfig, policy: K.RiskPolicy, stored: seq<Row>)
      ensures fresh(risk) && risk.policy == policy && this.config == config && State() == Started(stored)
    {
      var engine := new K.RiskEngine(policy);
      this.config, risk, rows, alive := config, engine, stored, true;
    }

    method HandleDecisionOutput(turn: Turn)
      modifies this, risk
      ensures State() == AfterTurn(config, risk.policy, old(State()), turn)
    {
      if !alive {
        return;
      }
      var decision := risk.Assess(turn.assessment);
      var built := Q.BuildExecutionRequest(turn.assessment.opportunity, decision);
      if built.None? {
        return;
      }
      var request := built.value;
      var ledger := TodaysSubmittableNotional(turn.queriedAt);
      if ledger >= TWO_128 {
        alive := false;
        return;
      }
      var prepared := PrepareExecution(config, request, turn.assessment.simulation, ledger);
      if prepared.Err? {
        alive := false;
        return;
      }
      var attempt := prepared.value;
      rows := rows + [Row(turn.insertedAt, attempt)];
      SubmitPrepared(request, attempt, turn);
    }

    /** From the stored attempt on: nothing if it is blocked, else validate by simulated call and drive it. */
    method SubmitPrepared(request: ExecutionRequest, attempt: ExecutionAttempt, turn: Turn)
      requires rows != [] && rows[|rows| - 1] == Row(turn.insertedAt, attempt)
      modifies this, risk
      ensures
        var driven := Submission(config, request, attempt, turn);
        && rows == old(rows)[|old(rows)| - 1 := Row(turn.insertedAt, driven.attempt)]
        && alive == (old(alive) && driven.alive)
        && risk.State() == if driven.outcome.Some? then K.AfterOutcome(old(risk.State()), driven.outcome.value)
                           else old(risk.State())
    {
      if !attempt.submissionAllowed {
        return;
      }
      if BuildPlan(config, request, turn.simulatedAt).Err? {
        alive := false;
        return;
      }
      if !turn.ethcallOk && config.ethcallPreflightRequired {
        risk.RecordOutcome(false);
        return;
      }
      DriveExecutionAttempt(request, attempt, turn);
    }

    method DriveExecutionAttempt(request: ExecutionRequest, attempt: ExecutionAttempt, turn: Turn)
      requires rows != [] && rows[|rows| - 1] == Row(turn.insertedAt, attempt)
      modifies this, risk
      ensures
        var driven := Drive(config, request, attempt, turn);
        && rows == old(rows)[|old(rows)| - 1 := Row(turn.insertedAt, driven.attempt)]
        && alive == (old(alive) && driven.alive)
        && risk.State() == if driven.outcome.Some? then K.AfterOutcome(old(risk.State()), driven.outcome.value)
                           else old(risk.State())
    {
      if BuildPlan(config, request, turn.builtAt).Err? {
        return;
      }
      if !turn.submit.Accepted? {
        risk.RecordOutcome(false);
        return;
      }
      var submitted := MarkSubmitted(attempt, turn.submit.txHash);
      if submitted.Err? {
        alive := false;
        return;
      }
      rows := rows[|rows| - 1 := Row(turn.insertedAt, submitted.value)];
      match turn.receipt {
        case Found(receipt) =>
          var done := FinalizeFromReceipt(submitted.value, receipt, None, request.minSurplus);
          if done.Err? {
            alive := false;
            return;
          }
          var status := done.value.outcome.finalStatus;
          risk.RecordOutcome(status == Included || status == ProfitRealized);
          rows := rows[|rows| - 1 := Row(turn.insertedAt, done.value.attempt)];
        case NotFound =>
          var dropped := MarkDropped(submitted.value, "timed out while waiting for execution receipt");
          if dropped.Err? {
            alive := false;
            return;
          }
          risk.RecordOutcome(false);
          rows := rows[|rows| - 1 := Row(turn.insertedAt, dropped.value.attempt)];
        case LookupFailed =>
      }
    }

    method TodaysSubmittableNotional(now: nat) returns (total: nat)
      ensures total == Ledger(rows, now)
    {
      total := 0;
      for i := 0 to |rows|
        invariant total == Ledger(rows[..i], now)
      {
        assert rows[..i + 1][..i] == rows[..i];
        if rows[i].attempt.submissionAllowed && Day(rows[i].observedAt) >= Day(now) {
          total := total + rows[i].attempt.requestedNotional;
        }
      }
      assert rows[..|rows|] == rows;
    }
  }
}
