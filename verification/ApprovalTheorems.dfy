/**
 What approving can and cannot still do: completed actions stay completed, the scope of an approval
 is not enforced, pending steps are tried, and only the step log protects against a second send.
 */
module ApprovalTheorems {
  import opened Counts
  import opened Options
  import opened Policy
  import opened StableSort
  import opened Execution
  import opened ExecutionResults
  import opened Approval
  import opened ApprovalResults
  import opened RunRecords
  import Crm

  // ----- A completed action stays completed -----

  ghost predicate AllRowsDone(plan: seq<ActionStep>, s: Session) {
    forall k :: 0 <= k < |plan| ==> RowDone(s, plan[k].id)
  }

  /** No dispatch, no history record, no row and no outcome was added, and the run row was not touched. */
  predicate Quiet(s: Session, t: Session) {
    && t.world.log == s.world.log && t.memory.history == s.memory.history && t.saved.history == s.saved.history
    && t.rows == s.rows && t.recorded == s.recorded && t.run == s.run
    && t.outcome == s.outcome && t.insights == s.insights
  }

  lemma DoneActionIsFinished(ctx: Context, plan: seq<ActionStep>, s: Session, losses: nat)
    requires SessionOk(ctx, plan, s, losses) && AllRowsDone(plan, s)
    ensures Finished(s)
  {
    assert RowDone(s, plan[0].id);
    forall k | 0 <= k < |plan| ensures Prepared(s)[k].status == Executed {
      PreparedStep(ctx, plan, s, losses, k);
    }
  }

  lemma DoneActionStaysQuiet(ctx: Context, env: Environment, plan: seq<ActionStep>, s: Session, losses: nat, op: Op)
    requires SessionOk(ctx, plan, s, losses) && AllRowsDone(plan, s) && s.saved.history == s.memory.history
    ensures Quiet(s, Step(ctx, env, s, op)) && !Loses(ctx, env, s, op)
  {
    if op.Approve? {
      ApproveKeepsOk(ctx, plan, s, op.scope, losses);
      DoneActionIsFinished(ctx, plan, Ready(s, op), losses);
    }
  }

  lemma {:induction false} DoneActionRunsQuiet(ctx: Context, env: Environment, plan: seq<ActionStep>, s: Session,
          losses: nat, ops: seq<Op>)
    requires SessionOk(ctx, plan, s, losses) && AllRowsDone(plan, s) && s.saved.history == s.memory.history
    ensures Quiet(s, Run(ctx, env, s, ops)) && SessionOk(ctx, plan, Run(ctx, env, s, ops), losses)
  {
    if ops != [] {
      var before, op := ops[..|ops| - 1], ops[|ops| - 1];
      DoneActionRunsQuiet(ctx, env, plan, s, losses, before);
      var mid := Run(ctx, env, s, before);
      forall k | 0 <= k < |plan| ensures RowDone(mid, plan[k].id) { assert RowDone(s, plan[k].id); }
      DoneActionStaysQuiet(ctx, env, plan, mid, losses, op);
      StepKeepsOk(ctx, env, plan, mid, losses, op);
    }
  }

  /** Once every step is recorded as executed, no further call adds a dispatch, a history record or an outcome. */
  lemma CompletedActionIsFinal(ctx: Context, env: Environment, s: Session, ops: seq<Op>, more: seq<Op>)
    requires Fresh(ctx, s) && AllRowsDone(s.memory.steps, Run(ctx, env, s, ops))
    ensures Quiet(Run(ctx, env, s, ops), Run(ctx, env, Run(ctx, env, s, ops), more))
  {
    RunKeepsOk(ctx, env, s, ops);
    HistoryIsTrail(ctx, env, s, ops);
    DoneActionRunsQuiet(ctx, env, s.memory.steps, Run(ctx, env, s, ops), Losses(ctx, env, s, ops), more);
  }

  /** What a recorded call that ended as `fate` says makes of the run and the outcome. */
  predicate Decided(s: Session, t: Session, fate: Fate) {
    && (t.run.status == Completed <==>
          if fate.Dies? && fate.events < 3 then s.run.status == Completed
          else !fate.evaluatorRaises && (fate.Lives? || fate.events >= 8))
    && (t.outcome <==> s.outcome || (!fate.evaluatorRaises && (fate.Lives? || fate.events >= 6)))
    && t.insights == s.insights + One(!fate.evaluatorRaises && (fate.Lives? || fate.events >= 7))
  }

  lemma RecordedCallDecides(ctx: Context, env: Environment, s: Session, op: Op)
    requires s.saved.history == s.memory.history && Records(ctx, env, s, op)
    ensures Decided(s, Step(ctx, env, s, op), op.fate)
  {
    StepLeaves(ctx, env, s, op);
    RowsHappen(Execute(ctx, env, Ready(s, op)).raised.Some?, op.fate);
    EventAt(op.fate.evaluatorRaises);
    TotalsAre(op.fate.evaluatorRaises, OpReached(ctx, env, s, op));
  }

  /**
   The call that completes the last step decides once and for all whether the action gets its
   outcome and the run completes: if its evaluator raises, or its process ends first, no later
   call ever makes up for it.
   */
  lemma CompletingCallDecides(ctx: Context, env: Environment, s: Session, ops: seq<Op>, op: Op, more: seq<Op>)
    requires Fresh(ctx, s) && Records(ctx, env, Run(ctx, env, s, ops), op)
    requires AllRowsDone(s.memory.steps, Step(ctx, env, Run(ctx, env, s, ops), op))
    ensures var now := Run(ctx, env, s, ops);
            Decided(now, Run(ctx, env, Step(ctx, env, now, op), more), op.fate)
  {
    var now, losses := Run(ctx, env, s, ops), Losses(ctx, env, s, ops);
    RunKeepsOk(ctx, env, s, ops);
    HistoryIsTrail(ctx, env, s, ops);
    RecordedCallDecides(ctx, env, now, op);
    StepKeepsOk(ctx, env, s.memory.steps, now, losses, op);
    StepLeaves(ctx, env, now, op);
    DoneActionRunsQuiet(ctx, env, s.memory.steps, Step(ctx, env, now, op), losses + One(Loses(ctx, env, now, op)),
        more);
  }

  // ----- The scope of an approval is not enforced -----

  lemma PreparedIgnoresScope(s: Session, scope: Option<string>, k: nat)
    requires k < |s.memory.steps|
    requires s.recorded ==> s.memory.steps[k].id in Persisted(s.rows)
    ensures Prepared(s.(memory := ApproveIn(s.memory, scope)))[k]
        == Prepared(s.(memory := ApproveIn(s.memory, None)))[k]
       <==> s.recorded || s.memory.steps[k].status != Executed || scope.None? || scope.value == s.memory.steps[k].id
  {
  }

  /**
   A scoped approve hands a step to the agent exactly as a whole-action approve does, unless the
   step is out of scope and executed in memory while nothing was recorded yet.
   */
  lemma ScopeIsNotEnforced(ctx: Context, env: Environment, s: Session, ops: seq<Op>, scope: Option<string>, k: nat)
    requires Fresh(ctx, s) && k < |s.memory.steps|
    ensures var now := Run(ctx, env, s, ops);
            |now.memory.steps| == |s.memory.steps| &&
            (Prepared(now.(memory := ApproveIn(now.memory, scope)))[k]
                == Prepared(now.(memory := ApproveIn(now.memory, None)))[k]
             <==> (now.recorded || now.memory.steps[k].status != Executed || scope.None?
                   || scope.value == s.memory.steps[k].id))
  {
    RunKeepsOk(ctx, env, s, ops);
    var now, plan := Run(ctx, env, s, ops), s.memory.steps;
    LogOrdersAgree(plan, now);
    PersistedIsLatest(now.rows, plan[k].id);
    assert SameStep(plan[k], now.memory.steps[k]);
    PreparedIgnoresScope(now, scope, k);
  }

  // ----- Pending steps are tried -----

  lemma AttemptGrowsCalls(ctx: Context, env: Environment, w: World, steps: seq<ActionStep>, k: nat)
    requires DistinctIds(steps) && k < |steps|
    ensures var p := Attempt(ctx, env, w, steps);
            && DistinctIds(p.steps) && p.steps[k].id == steps[k].id
            && Calls(p.world.log, steps[k].id) >= Calls(w.log, steps[k].id)
            && (Dispatches(ctx, steps[k]) ==>
                Calls(p.world.log, steps[k].id) > Calls(w.log, steps[k].id)
                    || (p.steps[k] == steps[k] && p.raised.Some?))
  {
    var reached := AttemptHandlesOnce(ctx, env, w, steps, k);
    ExecuteAtKeepsBalance(ctx, env, w, steps, Ordered(steps), k);
  }

  lemma {:induction false} AttemptsTryEach(ctx: Context, env: Environment, w: World, steps: seq<ActionStep>,
          retries: nat, k: nat)
    requires DistinctIds(steps) && k < |steps|
    ensures var p := Attempts(ctx, env, w, steps, retries);
            && Calls(p.world.log, steps[k].id) >= Calls(w.log, steps[k].id)
            && (Dispatches(ctx, steps[k]) && p.raised.None?
                ==> Calls(p.world.log, steps[k].id) > Calls(w.log, steps[k].id))
    decreases retries
  {
    var p := Attempt(ctx, env, w, steps);
    AttemptGrowsCalls(ctx, env, w, steps, k);
    if p.raised == Some(false) && retries > 0 { AttemptsTryEach(ctx, env, p.world, p.steps, retries - 1, k); }
  }

  /** An execution that ends without an error called the adapter of every step that may be sent and was not done. */
  lemma ResumeTries(ctx: Context, env: Environment, plan: seq<ActionStep>, s: Session, losses: nat, fate: Fate, k: nat)
    requires SessionOk(ctx, plan, s, losses) && k < |plan| && Allowed(plan[k], ctx) && Supported(plan[k])
    requires !Finished(s) && Execute(ctx, env, s).raised.None? && !Prepared(s)[k].Done()
    ensures Calls(Resume(ctx, env, s, fate).world.log, plan[k].id) > Calls(s.world.log, plan[k].id)
  {
    PreparedStep(ctx, plan, s, losses, k);
    PreparedIsPlan(ctx, plan, s, losses);
    SameStepSameGate(plan[k], Prepared(s)[k], ctx);
    AttemptsTryEach(ctx, env, s.world, Prepared(s), RETRIES, k);
    ResumeLog(ctx, env, s, fate);
  }

  lemma ResumeLog(ctx: Context, env: Environment, s: Session, fate: Fate)
    ensures Resume(ctx, env, s, fate).world.log == if Finished(s) then s.world.log else Execute(ctx, env, s).world.log
  {
    if !Finished(s) {
      var p := Execute(ctx, env, s);
      ConclusionRows(AfterExecution(Readied(s), p), p.raised.Some?, fate);
    }
  }

  /** An approve whose execution is recorded calls the adapter of every step that may be sent and is not done. */
  lemma RecordedApproveTriesPendingSteps(ctx: Context, env: Environment, s: Session, ops: seq<Op>, op: Op, k: nat)
    requires Fresh(ctx, s) && k < |s.memory.steps|
    requires Allowed(s.memory.steps[k], ctx) && Supported(s.memory.steps[k])
    requires Records(ctx, env, Run(ctx, env, s, ops), op)
    ensures var now := Run(ctx, env, s, ops);
            |now.memory.steps| == |s.memory.steps| &&
            (Prepared(Ready(now, op))[k].Done()
             || Calls(Step(ctx, env, now, op).world.log, s.memory.steps[k].id)
                > Calls(now.world.log, s.memory.steps[k].id))
  {
    RunKeepsOk(ctx, env, s, ops);
    var plan, now, losses := s.memory.steps, Run(ctx, env, s, ops), Losses(ctx, env, s, ops);
    ApproveKeepsOk(ctx, plan, now, op.scope, losses);
    RowsHappen(Execute(ctx, env, Ready(now, op)).raised.Some?, op.fate);
    if !Prepared(Ready(now, op))[k].Done() { ResumeTries(ctx, env, plan, Ready(now, op), losses, op.fate, k); }
  }

  // ----- Only the step log protects against a second send -----

  /** Every adapter answers. */
  ghost predicate Answering(env: Environment) {
    forall n: nat :: env(n).reaction.Answers?
  }

  lemma {:induction false} AnsweredPassDoesNotRaise(ctx: Context, env: Environment, w: World, steps: seq<ActionStep>,
          idx: seq<int>)
    requires forall i :: 0 <= i < |idx| ==> 0 <= idx[i] < |steps|
    requires Answering(env)
    ensures ExecuteAt(ctx, env, w, steps, idx).raised.None?
    decreases |idx|
  {
    if idx != [] {
      var (next, step, raised) := ExecuteOne(ctx, env, w, steps[idx[0]]);
      assert env(|w.log|).reaction.Answers?;
      AnsweredPassDoesNotRaise(ctx, env, next, steps[idx[0] := step], idx[1..]);
    }
  }

  lemma AnsweredResumeDoesNotRaise(ctx: Context, env: Environment, s: Session)
    requires Answering(env)
    ensures Execute(ctx, env, s).raised.None?
  {
    AnsweredPassDoesNotRaise(ctx, env, s.world, Prepared(s), Ordered(Prepared(s)));
  }

  /** A call whose process lives until the rows are recorded. */
  predicate OutlivesRecord(op: Op) {
    op.Approve? && op.fate.Dies? ==> op.fate.events >= 2
  }

  lemma AnsweredCallLosesNothing(ctx: Context, env: Environment, s: Session, op: Op)
    requires Answering(env) && OutlivesRecord(op)
    ensures !Loses(ctx, env, s, op)
  {
    if op.Approve? {
      AnsweredResumeDoesNotRaise(ctx, env, Ready(s, op));
      RowsHappen(false, op.fate);
      EventAt(op.fate.evaluatorRaises);
    }
  }

  lemma {:induction false} AnsweredRunLosesNothing(ctx: Context, env: Environment, s: Session, ops: seq<Op>)
    requires Answering(env) && forall i :: 0 <= i < |ops| ==> OutlivesRecord(ops[i])
    ensures Losses(ctx, env, s, ops) == 0
  {
    hide Step, Loses, Answering;
    if ops != [] {
      AnsweredRunLosesNothing(ctx, env, s, ops[..|ops| - 1]);
      AnsweredCallLosesNothing(ctx, env, Run(ctx, env, s, ops[..|ops| - 1]), ops[|ops| - 1]);
    }
  }

  /**
   If every adapter answers and no process ends before the rows are recorded, a step succeeds at most
   once and is never dispatched again.
   */
  lemma AnsweredStepIsSentOnce(ctx: Context, env: Environment, s: Session, ops: seq<Op>, k: nat)
    requires Fresh(ctx, s) && k < |s.memory.steps|
    requires Answering(env) && forall i :: 0 <= i < |ops| ==> OutlivesRecord(ops[i])
    ensures var log := Run(ctx, env, s, ops).world.log;
            Wins(log, s.memory.steps[k].id) <= 1 && Settled(log, s.memory.steps[k].id)
  {
    AnsweredRunLosesNothing(ctx, env, s, ops);
    DispatchedUntilFirstSuccess(ctx, env, s, ops, k);
  }

  function AllAnswer(ok: bool): Environment {
    n => Signal(Answers(ok), "", 0)
  }

  lemma DoneRowStaysInResume(ctx: Context, env: Environment, plan: seq<ActionStep>, s: Session, losses: nat, k: nat)
    requires SessionOk(ctx, plan, s, losses) && k < |plan| && RowDone(s, plan[k].id)
    ensures var p := Execute(ctx, env, s);
            && Calls(p.world.log, plan[k].id) == Calls(s.world.log, plan[k].id)
            && Latest(s.rows + RowsFor(p.steps), plan[k].id).Some?
            && var row := Latest(s.rows + RowsFor(p.steps), plan[k].id).value;
               row.status == Executed && row.receipt == Success
  {
    var p := Execute(ctx, env, s);
    PreparedStep(ctx, plan, s, losses, k);
    ExecuteStep(ctx, env, plan, s, losses, k);
    forall i | 0 <= i < |plan| ensures p.steps[i].id == plan[i].id { ExecuteStep(ctx, env, plan, s, losses, i); }
    RowsForCovers(p.steps, s.rows, k);
  }

  /** A step with an executed row is never dispatched again, and keeps an executed row. */
  lemma DoneRowStays(ctx: Context, env: Environment, plan: seq<ActionStep>, s: Session, losses: nat, op: Op, k: nat)
    requires SessionOk(ctx, plan, s, losses) && k < |plan| && RowDone(s, plan[k].id)
    ensures RowDone(Step(ctx, env, s, op), plan[k].id)
    ensures Calls(Step(ctx, env, s, op).world.log, plan[k].id) == Calls(s.world.log, plan[k].id)
  {
    StepRows(ctx, env, s, op);
    StepLog(ctx, env, s, op);
    if op.Approve? {
      ApproveKeepsOk(ctx, plan, s, op.scope, losses);
      DoneRowStaysInResume(ctx, env, plan, Ready(s, op), losses, k);
    }
  }

  lemma StepLog(ctx: Context, env: Environment, s: Session, op: Op)
    ensures Step(ctx, env, s, op).world.log
         == if op.Approve? && !Finished(Ready(s, op)) then Execute(ctx, env, Ready(s, op)).world.log else s.world.log
  {
    if op.Approve? { ResumeLog(ctx, env, Ready(s, op), op.fate); }
  }

  /**
   Under some behaviour of the adapters a whole-action approve calls the adapter of a step (again)
   exactly when its latest row is not executed, whatever it won before.
   */
  lemma OnlyTheLogProtects(ctx: Context, env: Environment, s: Session, ops: seq<Op>, k: nat)
    requires Fresh(ctx, s) && k < |s.memory.steps|
    requires Allowed(s.memory.steps[k], ctx) && Supported(s.memory.steps[k])
    ensures var now, id := Run(ctx, env, s, ops), s.memory.steps[k].id;
            !RowDone(now, id) <==>
            exists next: Environment ::
              Calls(Step(ctx, next, now, Approve(None, Lives(false))).world.log, id) > Calls(now.world.log, id)
  {
    var plan, now, losses := s.memory.steps, Run(ctx, env, s, ops), Losses(ctx, env, s, ops);
    var op, id := Approve(None, Lives(false)), plan[k].id;
    RunKeepsOk(ctx, env, s, ops);
    if RowDone(now, id) {
      forall next: Environment ensures Calls(Step(ctx, next, now, op).world.log, id) == Calls(now.world.log, id) {
        DoneRowStays(ctx, next, plan, now, losses, op, k);
      }
    } else {
      PendingStepIsSent(ctx, plan, now, losses, k);
      assert Calls(Step(ctx, AllAnswer(true), now, op).world.log, id) > Calls(now.world.log, id);
    }
  }

  lemma PendingStepIsSent(ctx: Context, plan: seq<ActionStep>, s: Session, losses: nat, k: nat)
    requires SessionOk(ctx, plan, s, losses) && k < |plan| && Allowed(plan[k], ctx) && Supported(plan[k])
    requires !RowDone(s, plan[k].id)
    ensures var after := Step(ctx, AllAnswer(true), s, Approve(None, Lives(false)));
            Calls(after.world.log, plan[k].id) > Calls(s.world.log, plan[k].id)
  {
    var op := Approve(None, Lives(false));
    var ready := Ready(s, op);
    ApproveKeepsOk(ctx, plan, s, None, losses);
    PreparedStep(ctx, plan, ready, losses, k);
    assert RowDone(ready, plan[k].id) == RowDone(s, plan[k].id);
    assert !Prepared(ready)[k].Done();
    AnsweredResumeDoesNotRaise(ctx, AllAnswer(true), ready);
    ResumeTries(ctx, AllAnswer(true), plan, ready, losses, Lives(false), k);
  }
}
