/**
 One action of one deal from approval to completion: the plan in memory, the persisted step log,
 the run row and the adapters, under approve and reject calls, retries, exceptions and process ends.
 `Orchestrator` is the in-place form of the calls.
 */
module Approval {
  import opened Options
  import opened Policy
  import opened StableSort
  import opened Execution
  import CrmResults
  import CrmTables = Crm

  // ----- The persisted step log -----

  datatype StepRow = StepRow(stepId: string, order: int, status: StepStatus, retryCount: nat, receipt: Receipt)

  function RowFor(step: ActionStep): StepRow {
    StepRow(step.id, step.order, step.status, step.retryCount, step.receipt)
  }

  /** The step results of a completed attempt, in the order of execution. */
  function RowsFor(steps: seq<ActionStep>): (rows: seq<StepRow>)
    ensures |rows| == |steps|
  {
    var idx := Ordered(steps);
    seq(|steps|, i requires 0 <= i < |steps| => RowFor(steps[idx[i]]))
  }

  function OrderOfRow(): StepRow -> real {
    (row: StepRow) => row.order as real
  }

  /** `{row["step_id"]: row for row in rows}`: the last row of a step wins. */
  function ByStep(rows: seq<StepRow>): map<string, StepRow> {
    if rows == [] then map[] else ByStep(rows[..|rows| - 1])[rows[|rows| - 1].stepId := rows[|rows| - 1]]
  }

  /** What a resume reads back: the rows of the action by step order, by step id. */
  function Persisted(rows: seq<StepRow>): map<string, StepRow> {
    ByStep(Sort(rows, OrderOfRow()))
  }

  // ----- State -----

  /** The plan, its statuses and the history of the envelope: lost when the process ends. */
  datatype Memory = Memory(steps: seq<ActionStep>, planStatus: StepStatus, actionStatus: StepStatus,
          history: seq<string>)

  datatype RunStatus = Running | WaitingApproval | Completed | Skipped | RunFailed

  datatype RunRow = RunRow(status: RunStatus, completed: bool)

  /** `completed_at=COALESCE(?, completed_at)`: a completion time is never taken back. */
  function UpdateRun(run: RunRow, status: RunStatus, complete: bool): RunRow {
    RunRow(status, complete || run.completed)
  }

  /**
   `saved` is the memory in the latest envelope snapshot; `recorded` says whether an execution row
   exists, `outcome` whether the action has an outcome row; `insights` counts the appended insights.
   The CRM store in `world` is memory too: its dictionaries end with the process.
   */
  datatype Session = Session(
    memory: Memory,
    saved: Memory,
    rows: seq<StepRow>,
    recorded: bool,
    outcome: bool,
    insights: nat,
    run: RunRow,
    world: World)

  // ----- Approve and reject -----

  function Mark(steps: seq<ActionStep>, scope: Option<string>, status: StepStatus): (r: seq<ActionStep>)
    ensures |r| == |steps|
  {
    seq(|steps|, i requires 0 <= i < |steps| =>
      if scope.None? || steps[i].id == scope.value then steps[i].WithStatus(status) else steps[i])
  }

  predicate AllHave(steps: seq<ActionStep>, status: StepStatus) {
    steps != [] && forall i :: 0 <= i < |steps| ==> steps[i].status == status
  }

  function ApproveIn(m: Memory, scope: Option<string>): Memory {
    var steps := Mark(m.steps, scope, Approved);
    if scope.None? then m.(steps := steps, planStatus := Approved, actionStatus := Approved)
    else m.(steps := steps, planStatus := if AllHave(steps, Approved) then Approved else m.planStatus)
  }

  function RejectIn(m: Memory, scope: Option<string>): Memory {
    var steps := Mark(m.steps, scope, Rejected);
    if scope.None? then m.(steps := steps, planStatus := Rejected, actionStatus := Rejected) else m.(steps := steps)
  }

  // ----- Resume -----

  /** Every step that is not executed is approved again, whatever its status. */
  function Reopen(steps: seq<ActionStep>): (r: seq<ActionStep>)
    ensures |r| == |steps|
  {
    seq(|steps|, i requires 0 <= i < |steps| =>
      if steps[i].status != Executed then steps[i].WithStatus(Approved) else steps[i])
  }

  function RestoreOne(step: ActionStep, persisted: map<string, StepRow>): ActionStep {
    if step.id !in persisted then step
    else
      var row := persisted[step.id];
      step.(status := row.status, retryCount := row.retryCount, receipt := row.receipt)
  }

  function Restore(steps: seq<ActionStep>, persisted: map<string, StepRow>): (r: seq<ActionStep>)
    ensures |r| == |steps|
  {
    seq(|steps|, i requires 0 <= i < |steps| => RestoreOne(steps[i], persisted))
  }

  /** The steps a resume hands to the execution agent. */
  function Prepared(s: Session): (r: seq<ActionStep>)
    ensures |r| == |s.memory.steps|
  {
    if s.recorded then Restore(Reopen(s.memory.steps), Persisted(s.rows)) else Reopen(s.memory.steps)
  }

  /** Nothing is left to do: every step reads back as executed. */
  predicate Finished(s: Session) {
    s.recorded && AllHave(Prepared(s), Executed)
  }

  const RETRIES := 2

  function Execute(ctx: Context, env: Environment, s: Session): Pass {
    Attempts(ctx, env, s.world, Prepared(s), RETRIES)
  }

  /** The plan and the action approved, with the steps the agent is handed. */
  function Readied(s: Session): Session {
    s.(memory := s.memory.(steps := Prepared(s), planStatus := Approved, actionStatus := Approved))
  }

  function AfterExecution(s: Session, p: Pass): Session {
    s.(world := p.world, memory := s.memory.(steps := p.steps))
  }

  // ----- What a resume does after the execution agent -----

  /** Two changes of the envelope in memory, and the separate commits to the database. */
  datatype Event =
    | AddRecord(agent: string)
    | RecordRows
    | SetRun(status: RunStatus, complete: bool)
    | SaveSnapshot
    | RecordOutcome
    | AddInsight

  const EXECUTED: seq<Event> := [AddRecord("execution_agent"), RecordRows, SetRun(Running, false), SaveSnapshot]
  const EVALUATED: seq<Event> :=
    [AddRecord("evaluator_agent"), RecordOutcome, AddInsight, SetRun(Completed, true), SaveSnapshot]
  const FAILED: seq<Event> := [SetRun(RunFailed, true)]

  /** In order, after an execution that raised or not. */
  function Events(raised: bool, evaluatorRaises: bool): seq<Event> {
    if raised then FAILED else EXECUTED + (if evaluatorRaises then FAILED else EVALUATED)
  }

  function Happen(s: Session, e: Event): Session {
    match e
    case AddRecord(agent) => s.(memory := s.memory.(history := s.memory.history + [agent]))
    case RecordRows => s.(rows := s.rows + RowsFor(s.memory.steps), recorded := true)
    case SetRun(status, complete) => s.(run := UpdateRun(s.run, status, complete))
    case SaveSnapshot => s.(saved := s.memory)
    case RecordOutcome => s.(outcome := true)
    case AddInsight => s.(insights := s.insights + 1)
  }

  /** The session once the first `n` events happened. */
  function After(s: Session, events: seq<Event>, n: nat): Session
    requires n <= |events|
  {
    if n == 0 then s else Happen(After(s, events, n - 1), events[n - 1])
  }

  /** How a call ends: the evaluator may raise, and the process may end once some events happened. */
  datatype Fate =
    | Lives(evaluatorRaises: bool)
    | Dies(evaluatorRaises: bool, events: nat)

  /** How many of `n` events happen. */
  function Reached(fate: Fate, n: nat): (m: nat)
    ensures m <= n
  {
    if fate.Dies? && fate.events < n then fate.events else n
  }

  predicate Happened(e: Event, raised: bool, fate: Fate) {
    var events := Events(raised, fate.evaluatorRaises);
    e in events[..Reached(fate, |events|)]
  }

  /** The process ends: the envelope is that of the latest snapshot, the CRM dictionaries are empty. */
  function Crashed(s: Session): Session {
    s.(memory := s.saved, world := s.world.(crm := CrmTables.EMPTY_STORE))
  }

  function Conclusion(s: Session, raised: bool, fate: Fate): Session {
    var events := Events(raised, fate.evaluatorRaises);
    After(s, events, Reached(fate, |events|))
  }

  /** A resume as far as the process lives. */
  function Progress(ctx: Context, env: Environment, s: Session, fate: Fate): Session {
    if Finished(s) then Readied(s)
    else
      var p := Execute(ctx, env, s);
      Conclusion(AfterExecution(Readied(s), p), p.raised.Some?, fate)
  }

  function Resume(ctx: Context, env: Environment, s: Session, fate: Fate): Session {
    var t := Progress(ctx, env, s, fate);
    if fate.Dies? then Crashed(t) else t
  }

  // ----- Runs -----

  /**
   `Restart` is a process end between calls; `SaveFailedRun` the further snapshot of a workflow run
   whose own resume raised.
   */
  datatype Op =
    | Approve(scope: Option<string>, fate: Fate)
    | Reject(scope: Option<string>)
    | Restart
    | SaveFailedRun
    | OtherCrmCall(call: CrmResults.Call)

  function Step(ctx: Context, env: Environment, s: Session, op: Op): Session {
    match op
    case Approve(_, fate) => Resume(ctx, env, Ready(s, op), fate)
    case Reject(scope) => s.(memory := RejectIn(s.memory, scope))
    case Restart => Crashed(s)
    case SaveFailedRun => Happen(s, SaveSnapshot)
    case OtherCrmCall(call) => s.(world := s.world.(crm := CrmResults.Perform(s.world.crm, call).0))
  }

  function Run(ctx: Context, env: Environment, s: Session, ops: seq<Op>): Session {
    if ops == [] then s else Step(ctx, env, Run(ctx, env, s, ops[..|ops| - 1]), ops[|ops| - 1])
  }

  function Ready(s: Session, op: Op): Session
    requires op.Approve?
  {
    s.(memory := ApproveIn(s.memory, op.scope))
  }

  /** The resume ran the agent, and the rows were recorded. */
  predicate Recorded(ctx: Context, env: Environment, s: Session, fate: Fate) {
    !Finished(s) && Happened(RecordRows, Execute(ctx, env, s).raised.Some?, fate)
  }

  /** The resume ran the agent and what it did was not recorded: an exception escaped, or the process ended. */
  predicate Lost(ctx: Context, env: Environment, s: Session, fate: Fate) {
    !Finished(s) && !Happened(RecordRows, Execute(ctx, env, s).raised.Some?, fate)
  }

  predicate Records(ctx: Context, env: Environment, s: Session, op: Op) {
    op.Approve? && Recorded(ctx, env, Ready(s, op), op.fate)
  }

  predicate Loses(ctx: Context, env: Environment, s: Session, op: Op) {
    op.Approve? && Lost(ctx, env, Ready(s, op), op.fate)
  }

  function Losses(ctx: Context, env: Environment, s: Session, ops: seq<Op>): nat {
    if ops == [] then 0
    else
      var before := ops[..|ops| - 1];
      Losses(ctx, env, s, before) + (if Loses(ctx, env, Run(ctx, env, s, before), ops[|ops| - 1]) then 1 else 0)
  }
}
