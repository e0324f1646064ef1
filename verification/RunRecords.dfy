/**
 What any sequence of calls leaves in the envelope's history, the step log, the insights and the
 run row, when the process may end between any two commits.
 */
module RunRecords {
  import opened Counts
  import opened Options
  import opened Policy
  import opened StableSort
  import opened Execution
  import opened ExecutionResults
  import opened Approval
  import opened ApprovalResults

  // ----- Single events -----

  /** The agents that the first `n` events add to the history in memory. */
  function Added(events: seq<Event>, n: nat): seq<string>
    requires n <= |events|
  {
    if n == 0 then []
    else Added(events, n - 1) + (if events[n - 1].AddRecord? then [events[n - 1].agent] else [])
  }

  /** Those that the last snapshot among the first `n` events holds. */
  function Saved(events: seq<Event>, n: nat): seq<string>
    requires n <= |events|
  {
    if n == 0 then [] else if events[n - 1].SaveSnapshot? then Added(events, n - 1) else Saved(events, n - 1)
  }

  /** The run status that the first `n` events set last. */
  function LastSet(events: seq<Event>, n: nat): Option<RunStatus>
    requires n <= |events|
  {
    if n == 0 then None else if events[n - 1].SetRun? then Some(events[n - 1].status) else LastSet(events, n - 1)
  }

  predicate Completes(events: seq<Event>, n: nat)
    requires n <= |events|
  {
    n > 0 && ((events[n - 1].SetRun? && events[n - 1].complete) || Completes(events, n - 1))
  }

  function Insights(events: seq<Event>, n: nat): nat
    requires n <= |events|
  {
    if n == 0 then 0 else Insights(events, n - 1) + One(events[n - 1].AddInsight?)
  }

  predicate Decides(events: seq<Event>, n: nat)
    requires n <= |events|
  {
    n > 0 && (events[n - 1].RecordOutcome? || Decides(events, n - 1))
  }

  function OrElse(x: Option<RunStatus>, y: RunStatus): RunStatus {
    if x.Some? then x.value else y
  }

  /** What `n` events leave, by what each table and the history see of them. */
  predicate Leaves(s: Session, events: seq<Event>, n: nat, t: Session)
    requires n <= |events|
  {
    && t.memory.steps == s.memory.steps && t.world == s.world
    && t.memory.history == s.memory.history + Added(events, n)
    && (s.saved.history == s.memory.history ==> t.saved.history == s.memory.history + Saved(events, n))
    && t.run == RunRow(OrElse(LastSet(events, n), s.run.status), s.run.completed || Completes(events, n))
    && t.insights == s.insights + Insights(events, n) && (t.outcome <==> s.outcome || Decides(events, n))
    && (RecordRows !in events[..n] ==> t.rows == s.rows && t.recorded == s.recorded)
  }

  lemma {:induction false} EventsLeave(s: Session, events: seq<Event>, n: nat)
    requires n <= |events|
    ensures Leaves(s, events, n, After(s, events, n))
  {
    if n > 0 {
      EventsLeave(s, events, n - 1);
      assert events[..n] == events[..n - 1] + [events[n - 1]];
    }
  }

  /** An execution that did not raise records its rows with the second event. */
  lemma {:induction false} RowsAreRecordedOnce(s: Session, raised: bool, evaluatorRaises: bool, n: nat)
    requires n <= |Events(raised, evaluatorRaises)| && n >= 2
    ensures var t := After(s, Events(raised, evaluatorRaises), n);
            t.rows == s.rows + RowsFor(s.memory.steps) && t.recorded
  {
    var events := Events(raised, evaluatorRaises);
    RowsHappen(raised, Lives(evaluatorRaises));
    if n == 2 {
      assert events[0] == AddRecord("execution_agent") && events[1] == RecordRows;
      assert After(s, events, 1) == Happen(After(s, events, 0), events[0]);
    } else {
      RowsAreRecordedOnce(s, raised, evaluatorRaises, n - 1);
    }
  }

  // ----- The events of a resume -----

  lemma EventAt(evaluatorRaises: bool)
    ensures var events := Events(false, evaluatorRaises);
            && |events| == (if evaluatorRaises then 5 else 9)
            && events[0] == AddRecord("execution_agent") && events[1] == RecordRows
            && events[2] == SetRun(Running, false) && events[3] == SaveSnapshot
            && (if evaluatorRaises then events[4] == SetRun(RunFailed, true)
                else events[4] == AddRecord("evaluator_agent") && events[5] == RecordOutcome && events[6] == AddInsight
                     && events[7] == SetRun(Completed, true) && events[8] == SaveSnapshot)
  {
  }

  /** What the first `n` events of an unraised execution add up to. */
  predicate Totals(evaluatorRaises: bool, n: nat)
    requires n <= |Events(false, evaluatorRaises)|
  {
    var events := Events(false, evaluatorRaises);
    && Saved(events, n) == (if n < 4 then [] else if n < 9 then ["execution_agent"]
                            else ["execution_agent", "evaluator_agent"])
    && Added(events, n) == (if n < 1 then [] else if evaluatorRaises || n < 5 then ["execution_agent"]
                            else ["execution_agent", "evaluator_agent"])
    && LastSet(events, n)
       == (if n < 3 then None
           else if evaluatorRaises then (if n < 5 then Some(Running) else Some(RunFailed))
           else if n < 8 then Some(Running) else Some(Completed))
    && (Completes(events, n) <==> n >= (if evaluatorRaises then 5 else 8))
    && Insights(events, n) == One(!evaluatorRaises && n >= 7) && (Decides(events, n) <==> !evaluatorRaises && n >= 6)
  }

  lemma {:induction false} TotalsAre(evaluatorRaises: bool, n: nat)
    requires n <= |Events(false, evaluatorRaises)|
    ensures Totals(evaluatorRaises, n)
  {
    EventAt(evaluatorRaises);
    if n > 0 { TotalsAre(evaluatorRaises, n - 1); }
  }

  lemma FailedTotals(n: nat)
    requires n <= |FAILED|
    ensures Saved(FAILED, n) == [] && Added(FAILED, n) == [] && Insights(FAILED, n) == 0 && !Decides(FAILED, n)
    ensures LastSet(FAILED, n) == (if n == 0 then None else Some(RunFailed)) && (Completes(FAILED, n) <==> n == 1)
  {
  }

  // ----- One call -----

  /** The events of a call: none unless it ran the agent. */
  function OpEvents(ctx: Context, env: Environment, s: Session, op: Op): seq<Event> {
    if op.Approve? && !Finished(Ready(s, op))
    then Events(Execute(ctx, env, Ready(s, op)).raised.Some?, op.fate.evaluatorRaises)
    else []
  }

  function OpReached(ctx: Context, env: Environment, s: Session, op: Op): (n: nat)
    ensures n <= |OpEvents(ctx, env, s, op)|
  {
    if op.Approve? then Reached(op.fate, |OpEvents(ctx, env, s, op)|) else 0
  }

  /** What a call leaves at rest: history in memory and snapshot, run row, outcome and insights. */
  predicate LeavesAtRest(s: Session, events: seq<Event>, n: nat, t: Session)
    requires n <= |events|
  {
    && t.memory.history == t.saved.history == s.memory.history + Saved(events, n)
    && t.run == RunRow(OrElse(LastSet(events, n), s.run.status), s.run.completed || Completes(events, n))
    && t.insights == s.insights + Insights(events, n) && (t.outcome <==> s.outcome || Decides(events, n))
  }

  /** A process that lives leaves nothing in memory that is not saved. */
  lemma AllIsSaved(raised: bool, evaluatorRaises: bool)
    ensures var events := Events(raised, evaluatorRaises);
            Added(events, |events|) == Saved(events, |events|)
  {
    if raised {
      FailedTotals(|FAILED|);
    } else {
      EventAt(evaluatorRaises);
      TotalsAre(evaluatorRaises, |Events(false, evaluatorRaises)|);
    }
  }

  lemma ConclusionLeaves(s: Session, raised: bool, fate: Fate)
    requires s.saved.history == s.memory.history
    ensures var events, t := Events(raised, fate.evaluatorRaises), Conclusion(s, raised, fate);
            LeavesAtRest(s, events, Reached(fate, |events|), if fate.Dies? then Crashed(t) else t)
  {
    var events := Events(raised, fate.evaluatorRaises);
    EventsLeave(s, events, Reached(fate, |events|));
    AllIsSaved(raised, fate.evaluatorRaises);
  }

  lemma StepLeaves(ctx: Context, env: Environment, s: Session, op: Op)
    requires s.saved.history == s.memory.history
    ensures LeavesAtRest(s, OpEvents(ctx, env, s, op), OpReached(ctx, env, s, op), Step(ctx, env, s, op))
  {
    if op.Approve? && !Finished(Ready(s, op)) {
      var ready := Ready(s, op);
      var p := Execute(ctx, env, ready);
      ConclusionLeaves(AfterExecution(Readied(ready), p), p.raised.Some?, op.fate);
    } else {
      assert s.memory.history + [] == s.memory.history;
    }
  }

  // ----- The history -----

  function Trails(ctx: Context, env: Environment, s: Session, ops: seq<Op>): seq<string> {
    if ops == [] then []
    else
      var before, op := ops[..|ops| - 1], ops[|ops| - 1];
      var mid := Run(ctx, env, s, before);
      Trails(ctx, env, s, before) + Saved(OpEvents(ctx, env, mid, op), OpReached(ctx, env, mid, op))
  }

  /** The history, in memory and in the latest snapshot, is extended by exactly what the calls saved. */
  lemma {:induction false} HistoryIsTrail(ctx: Context, env: Environment, s: Session, ops: seq<Op>)
    requires s.saved.history == s.memory.history
    ensures var t := Run(ctx, env, s, ops);
            t.saved.history == t.memory.history == s.memory.history + Trails(ctx, env, s, ops)
  {
    hide Step, OpEvents, OpReached, Saved;
    if ops != [] {
      var before, op := ops[..|ops| - 1], ops[|ops| - 1];
      var mid := Run(ctx, env, s, before);
      HistoryIsTrail(ctx, env, s, before);
      StepLeaves(ctx, env, mid, op);
      assert Run(ctx, env, s, ops) == Step(ctx, env, mid, op);
    }
  }

  /** The records of an agent in a history. */
  function CountOf(history: seq<string>, agent: string): nat {
    if history == [] then 0 else CountOf(history[..|history| - 1], agent) + One(history[|history| - 1] == agent)
  }

  lemma {:induction false} CountOfAppend(history: seq<string>, more: seq<string>, agent: string)
    ensures CountOf(history + more, agent) == CountOf(history, agent) + CountOf(more, agent)
  {
    if more == [] {
      assert history + more == history;
    } else {
      assert (history + more)[..|history + more| - 1] == history + more[..|more| - 1];
      CountOfAppend(history, more[..|more| - 1], agent);
    }
  }

  /** The process ended between recording the rows and the snapshot. */
  predicate DiesBeforeSnapshot(fate: Fate) {
    fate.Dies? && 2 <= fate.events < 4
  }

  /** The process ended between appending the insight and the last snapshot. */
  predicate DiesBeforeLastSnapshot(fate: Fate) {
    fate.Dies? && !fate.evaluatorRaises && 7 <= fate.events < 9
  }

  /** How many calls recorded an execution, and how many of these the history misses. */
  function Recordings(ctx: Context, env: Environment, s: Session, ops: seq<Op>): nat {
    if ops == [] then 0
    else
      var before := ops[..|ops| - 1];
      Recordings(ctx, env, s, before) + One(Records(ctx, env, Run(ctx, env, s, before), ops[|ops| - 1]))
  }

  function MissedExecutions(ctx: Context, env: Environment, s: Session, ops: seq<Op>): nat {
    if ops == [] then 0
    else
      var before, op := ops[..|ops| - 1], ops[|ops| - 1];
      MissedExecutions(ctx, env, s, before)
      + One(Records(ctx, env, Run(ctx, env, s, before), op) && DiesBeforeSnapshot(op.fate))
  }

  function MissedEvaluations(ctx: Context, env: Environment, s: Session, ops: seq<Op>): nat {
    if ops == [] then 0
    else
      var before, op := ops[..|ops| - 1], ops[|ops| - 1];
      MissedEvaluations(ctx, env, s, before)
      + One(Records(ctx, env, Run(ctx, env, s, before), op) && DiesBeforeLastSnapshot(op.fate))
  }

  const EXECUTION := "execution_agent"
  const EVALUATION := "evaluator_agent"

  lemma CountsOfTrail()
    ensures CountOf([], EXECUTION) == 0 && CountOf([], EVALUATION) == 0
    ensures CountOf(["execution_agent"], EXECUTION) == 1 && CountOf(["execution_agent"], EVALUATION) == 0
    ensures CountOf(["execution_agent", "evaluator_agent"], EXECUTION) == 1
    ensures CountOf(["execution_agent", "evaluator_agent"], EVALUATION) == 1
  {
    assert EXECUTION[1] == 'x' && EVALUATION[1] == 'v';
    assert ["execution_agent", "evaluator_agent"][..1] == ["execution_agent"];
    assert ["execution_agent"][..0] == [];
  }

  lemma TrailCounts(ctx: Context, env: Environment, s: Session, op: Op)
    ensures var events, n := OpEvents(ctx, env, s, op), OpReached(ctx, env, s, op);
            var records := Records(ctx, env, s, op);
            && CountOf(Saved(events, n), EXECUTION) + One(records && DiesBeforeSnapshot(op.fate)) == One(records)
            && CountOf(Saved(events, n), EVALUATION) + One(records && DiesBeforeLastSnapshot(op.fate))
                == Insights(events, n)
  {
    CountsOfTrail();
    if op.Approve? && !Finished(Ready(s, op)) {
      var raised := Execute(ctx, env, Ready(s, op)).raised.Some?;
      RowsHappen(raised, op.fate);
      if raised {
        FailedTotals(OpReached(ctx, env, s, op));
      } else {
        EventAt(op.fate.evaluatorRaises);
        TotalsAre(op.fate.evaluatorRaises, OpReached(ctx, env, s, op));
      }
    }
  }

  /** The history misses a recorded execution or evaluation exactly for a process that ended before its snapshot. */
  lemma {:induction false} HistoryCountsExecutions(ctx: Context, env: Environment, s: Session, ops: seq<Op>)
    requires s.saved.history == s.memory.history
    ensures var t := Run(ctx, env, s, ops);
            && CountOf(t.memory.history, EXECUTION) + MissedExecutions(ctx, env, s, ops)
               == CountOf(s.memory.history, EXECUTION) + Recordings(ctx, env, s, ops)
            && CountOf(t.memory.history, EVALUATION) + MissedEvaluations(ctx, env, s, ops) + s.insights
               == CountOf(s.memory.history, EVALUATION) + t.insights
  {
    if ops != [] {
      var before, op := ops[..|ops| - 1], ops[|ops| - 1];
      var mid := Run(ctx, env, s, before);
      HistoryCountsExecutions(ctx, env, s, before);
      HistoryIsTrail(ctx, env, s, before);
      CountsStep(ctx, env, mid, op);
    }
  }

  lemma CountsStep(ctx: Context, env: Environment, s: Session, op: Op)
    requires s.saved.history == s.memory.history
    ensures var t, records := Step(ctx, env, s, op), Records(ctx, env, s, op);
            && CountOf(t.memory.history, EXECUTION) + One(records && DiesBeforeSnapshot(op.fate))
               == CountOf(s.memory.history, EXECUTION) + One(records)
            && CountOf(t.memory.history, EVALUATION) + One(records && DiesBeforeLastSnapshot(op.fate)) + s.insights
               == CountOf(s.memory.history, EVALUATION) + t.insights
  {
    var saved := Saved(OpEvents(ctx, env, s, op), OpReached(ctx, env, s, op));
    StepLeaves(ctx, env, s, op);
    TrailCounts(ctx, env, s, op);
    CountOfAppend(s.memory.history, saved, EXECUTION);
    CountOfAppend(s.memory.history, saved, EVALUATION);
  }

  // ----- The run row -----

  predicate Closed(run: RunRow) {
    run.completed <==> run.status in {Completed, Skipped, RunFailed}
  }

  /** The status written last by the calls, and whether one of them wrote a final status. */
  function LastStatus(ctx: Context, env: Environment, s: Session, ops: seq<Op>): Option<RunStatus> {
    if ops == [] then None
    else
      var before, op := ops[..|ops| - 1], ops[|ops| - 1];
      var mid := Run(ctx, env, s, before);
      var own := LastSet(OpEvents(ctx, env, mid, op), OpReached(ctx, env, mid, op));
      if own.Some? then own else LastStatus(ctx, env, s, before)
  }

  predicate EverClosed(ctx: Context, env: Environment, s: Session, ops: seq<Op>) {
    ops != [] &&
    var before, op := ops[..|ops| - 1], ops[|ops| - 1];
    var mid := Run(ctx, env, s, before);
    EverClosed(ctx, env, s, before) || Completes(OpEvents(ctx, env, mid, op), OpReached(ctx, env, mid, op))
  }

  /** The run row holds the status written last, and a completion time once a final status was ever written. */
  lemma {:induction false} RunRowExactly(ctx: Context, env: Environment, s: Session, ops: seq<Op>)
    requires s.saved.history == s.memory.history
    ensures Run(ctx, env, s, ops).run
         == RunRow(OrElse(LastStatus(ctx, env, s, ops), s.run.status), s.run.completed || EverClosed(ctx, env, s, ops))
  {
    if ops != [] {
      var before := ops[..|ops| - 1];
      RunRowExactly(ctx, env, s, before);
      HistoryIsTrail(ctx, env, s, before);
      StepLeaves(ctx, env, Run(ctx, env, s, before), ops[|ops| - 1]);
    }
  }

  /** The statuses a call writes: running only if the process ends after that commit and before the final one. */
  lemma StatusOfCall(ctx: Context, env: Environment, s: Session, op: Op)
    ensures var events, n := OpEvents(ctx, env, s, op), OpReached(ctx, env, s, op);
            && (LastSet(events, n) == Some(Running) <==>
                  Records(ctx, env, s, op) && op.fate.Dies?
                      && 3 <= op.fate.events < (if op.fate.evaluatorRaises then 5 else 8))
            && (LastSet(events, n).Some? ==> LastSet(events, n).value in {Running, Completed, RunFailed})
            && (Completes(events, n) <==> LastSet(events, n) in {Some(Completed), Some(RunFailed)})
  {
    if op.Approve? && !Finished(Ready(s, op)) {
      var raised := Execute(ctx, env, Ready(s, op)).raised.Some?;
      RowsHappen(raised, op.fate);
      if raised {
        FailedTotals(OpReached(ctx, env, s, op));
      } else {
        EventAt(op.fate.evaluatorRaises);
        TotalsAre(op.fate.evaluatorRaises, OpReached(ctx, env, s, op));
      }
    }
  }

  lemma {:induction false} StatusOfRun(ctx: Context, env: Environment, s: Session, ops: seq<Op>)
    ensures LastStatus(ctx, env, s, ops).Some? ==> LastStatus(ctx, env, s, ops).value in {Running, Completed, RunFailed}
    ensures LastStatus(ctx, env, s, ops) in {Some(Completed), Some(RunFailed)} ==> EverClosed(ctx, env, s, ops)
    ensures EverClosed(ctx, env, s, ops) ==> LastStatus(ctx, env, s, ops).Some?
  {
    if ops != [] {
      StatusOfRun(ctx, env, s, ops[..|ops| - 1]);
      StatusOfCall(ctx, env, Run(ctx, env, s, ops[..|ops| - 1]), ops[|ops| - 1]);
    }
  }

  /**
   The row has a completion time exactly when its status is final, except when the last status was
   written by a call whose process ended between running and the final status, and an earlier call
   had completed the run.
   */
  lemma RunRowIsClosedExactly(ctx: Context, env: Environment, s: Session, ops: seq<Op>)
    requires s.saved.history == s.memory.history && Closed(s.run) && !s.run.completed
    ensures Closed(Run(ctx, env, s, ops).run)
        <==> !(LastStatus(ctx, env, s, ops) == Some(Running) && EverClosed(ctx, env, s, ops))
  {
    RunRowExactly(ctx, env, s, ops);
    StatusOfRun(ctx, env, s, ops);
  }

  lemma {:induction false} NoDeathsNoRunning(ctx: Context, env: Environment, s: Session, ops: seq<Op>)
    requires forall i :: 0 <= i < |ops| && ops[i].Approve? ==> ops[i].fate.Lives?
    ensures LastStatus(ctx, env, s, ops) != Some(Running)
  {
    if ops != [] {
      NoDeathsNoRunning(ctx, env, s, ops[..|ops| - 1]);
      StatusOfCall(ctx, env, Run(ctx, env, s, ops[..|ops| - 1]), ops[|ops| - 1]);
    }
  }

  /** As long as no process ends within a call, the row is closed exactly when its status is final, and stays closed. */
  lemma RunRowIsClosed(ctx: Context, env: Environment, s: Session, ops: seq<Op>)
    requires s.saved.history == s.memory.history && Closed(s.run) && !s.run.completed
    requires forall i :: 0 <= i < |ops| && ops[i].Approve? ==> ops[i].fate.Lives?
    ensures Closed(Run(ctx, env, s, ops).run)
  {
    NoDeathsNoRunning(ctx, env, s, ops);
    RunRowIsClosedExactly(ctx, env, s, ops);
  }

  // ----- The step log -----

  lemma ConclusionRows(s: Session, raised: bool, fate: Fate)
    ensures var t := Conclusion(s, raised, fate);
            && t.rows == (if Happened(RecordRows, raised, fate) then s.rows + RowsFor(s.memory.steps) else s.rows)
            && (t.recorded <==> s.recorded || Happened(RecordRows, raised, fate))
            && t.memory.steps == s.memory.steps && t.world == s.world
  {
    var events := Events(raised, fate.evaluatorRaises);
    var n := Reached(fate, |events|);
    EventsLeave(s, events, n);
    RowsHappen(raised, fate);
    if Happened(RecordRows, raised, fate) { RowsAreRecordedOnce(s, raised, fate.evaluatorRaises, n); }
  }

  lemma StepRows(ctx: Context, env: Environment, s: Session, op: Op)
    ensures Step(ctx, env, s, op).rows
         == if Records(ctx, env, s, op) then s.rows + RowsFor(Execute(ctx, env, Ready(s, op)).steps) else s.rows
    ensures Step(ctx, env, s, op).recorded <==> s.recorded || Records(ctx, env, s, op)
  {
    if op.Approve? && !Finished(Ready(s, op)) {
      var p := Execute(ctx, env, Ready(s, op));
      ConclusionRows(AfterExecution(Readied(Ready(s, op)), p), p.raised.Some?, op.fate);
    }
  }

  lemma StepCountsRows(ctx: Context, env: Environment, s: Session, op: Op, n: nat)
    requires |s.memory.steps| == n
    ensures |Step(ctx, env, s, op).rows| == |s.rows| + n * One(Records(ctx, env, s, op))
  {
    hide Step, Records, Execute;
    StepRows(ctx, env, s, op);
    if Records(ctx, env, s, op) { RecordedApproveKeepsLength(ctx, env, s, op); }
  }

  lemma RecordedApproveKeepsLength(ctx: Context, env: Environment, s: Session, op: Op)
    requires Records(ctx, env, s, op)
    ensures op.Approve? && |Execute(ctx, env, Ready(s, op)).steps| == |s.memory.steps|
  {
  }

  lemma RowsDistribute(n: nat, m: nat, b: bool)
    ensures n * (m + One(b)) == n * m + n * One(b)
  {
  }

  /** Each recorded execution adds one row per step of the plan, and nothing else does. */
  lemma {:induction false} RowsCountRecordings(ctx: Context, env: Environment, s: Session, ops: seq<Op>)
    requires Fresh(ctx, s)
    ensures |Run(ctx, env, s, ops).rows| == |s.memory.steps| * Recordings(ctx, env, s, ops)
  {
    if ops != [] {
      var before, op := ops[..|ops| - 1], ops[|ops| - 1];
      var mid := Run(ctx, env, s, before);
      RowsCountRecordings(ctx, env, s, before);
      assert |mid.memory.steps| == |s.memory.steps| by { RunKeepsOk(ctx, env, s, before); }
      StepCountsRows(ctx, env, mid, op, |s.memory.steps|);
      RowsDistribute(|s.memory.steps|, Recordings(ctx, env, s, before), Records(ctx, env, mid, op));
    }
  }
}
