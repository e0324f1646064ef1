/**
 What each call on an action does, by the columns it writes: marking, preparing the steps, the
 attempts, and the commits that follow.
 */
module ApprovalRules {
  import opened Options
  import opened Policy
  import opened StableSort
  import opened Execution
  import opened ExecutionResults
  import opened Approval
  import opened ApprovalResults
  import opened RunRecords
  import CrmTables = Crm

  // ----- Approve and reject -----

  predicate InScope(step: ActionStep, scope: Option<string>) {
    scope.None? || step.id == scope.value
  }

  /** The steps in scope have the status, and nothing else about any step is different. */
  ghost predicate Marked(steps: seq<ActionStep>, after: seq<ActionStep>, scope: Option<string>, status: StepStatus) {
    && |after| == |steps|
    && forall k :: 0 <= k < |steps| ==>
         after[k] == if InScope(steps[k], scope) then steps[k].(status := status) else steps[k]
  }

  /**
   Approving the action approves every step, the plan and the action.  Approving a step approves just
   that, and the plan if every step is approved now; the action's status stays.
   */
  ghost predicate Approves(m: Memory, after: Memory, scope: Option<string>) {
    && Marked(m.steps, after.steps, scope, Approved)
    && after.history == m.history
    && after.actionStatus == (if scope.None? then Approved else m.actionStatus)
    && after.planStatus
       == (if scope.None? || (m.steps != [] && forall k :: 0 <= k < |m.steps| ==>
                                m.steps[k].status == Approved || m.steps[k].id == scope.value)
           then Approved else m.planStatus)
  }

  /**
   Rejecting the action rejects every step, the plan and the action.  Rejecting a step rejects just
   that; the statuses of the plan and the action stay.
   */
  ghost predicate Rejects(m: Memory, after: Memory, scope: Option<string>) {
    && Marked(m.steps, after.steps, scope, Rejected)
    && after.history == m.history
    && after.planStatus == (if scope.None? then Rejected else m.planStatus)
    && after.actionStatus == (if scope.None? then Rejected else m.actionStatus)
  }

  lemma MarkingApproves(m: Memory, scope: Option<string>)
    ensures Approves(m, ApproveIn(m, scope), scope)
  {
    var steps := ApproveIn(m, scope).steps;
    forall k | 0 <= k < |m.steps|
      ensures steps[k].status == Approved <==> m.steps[k].status == Approved || InScope(m.steps[k], scope)
    {
    }
  }

  /** The whole effect of an approve: it marks the memory and then resumes. */
  lemma ApproveExactly(ctx: Context, env: Environment, s: Session, scope: Option<string>, fate: Fate)
    returns (marked: Memory)
    ensures Approves(s.memory, marked, scope)
    ensures Step(ctx, env, s, Approve(scope, fate)) == Resume(ctx, env, s.(memory := marked), fate)
  {
    marked := ApproveIn(s.memory, scope);
    MarkingApproves(s.memory, scope);
  }

  /** The whole effect of a reject: it marks the memory; database, adapters and run row are as before. */
  lemma RejectExactly(ctx: Context, env: Environment, s: Session, scope: Option<string>)
    ensures var after := Step(ctx, env, s, Reject(scope));
            Rejects(s.memory, after.memory, scope) && after == s.(memory := after.memory)
  {
  }

  // ----- Preparing the steps -----

  /** The step with what its newest row says, or approved unless it reads executed. */
  function PreparedFrom(step: ActionStep, row: Option<StepRow>): ActionStep {
    if row.Some? then
      step.(status := row.value.status, retryCount := row.value.retryCount, receipt := row.value.receipt)
    else step.(status := if step.status == Executed then Executed else Approved)
  }

  /** The plan and the action are approved, and each step is what its newest row says once one is recorded. */
  lemma ReadiedExactly(s: Session, k: nat)
    requires OrdersAgree(s.rows) && k < |s.memory.steps|
    ensures var step, after := s.memory.steps[k], Readied(s);
            && after == s.(memory := after.memory)
            && after.memory.planStatus == Approved && after.memory.actionStatus == Approved
            && after.memory.history == s.memory.history
            && |after.memory.steps| == |s.memory.steps|
            && after.memory.steps[k]
               == PreparedFrom(step, if s.recorded then Latest(s.rows, step.id) else None)
  {
    PersistedIsLatest(s.rows, s.memory.steps[k].id);
    hide Persisted;
  }

  /** In every run a resume has nothing to do exactly if every step's newest row is executed. */
  lemma FinishedExactly(ctx: Context, env: Environment, s: Session, ops: seq<Op>)
    requires Fresh(ctx, s)
    ensures var now := Run(ctx, env, s, ops);
            Finished(now) <==>
              now.recorded && forall k :: 0 <= k < |s.memory.steps| ==>
                var row := Latest(now.rows, s.memory.steps[k].id);
                row.Some? && row.value.status == Executed
  {
    RunKeepsOk(ctx, env, s, ops);
    var plan, now := s.memory.steps, Run(ctx, env, s, ops);
    assert now.memory.steps != [] && plan != [];
    LogOrdersAgree(plan, now);
    forall k | 0 <= k < |plan| && now.recorded
      ensures Prepared(now)[k].status == Executed
         <==> Latest(now.rows, plan[k].id).Some? && Latest(now.rows, plan[k].id).value.status == Executed
    {
      ReadiedExactly(now, k);
      assert SameStep(plan[k], now.memory.steps[k]);
    }
    hide Prepared, Latest;
  }

  // ----- The attempts -----

  /** One execution is one attempt, a second if that raised a retryable error, and a third if that did too. */
  lemma ExecutionExactly(ctx: Context, env: Environment, s: Session)
    ensures var p := Attempt(ctx, env, s.world, Prepared(s));
            var q := Attempt(ctx, env, p.world, p.steps);
            var r := Attempt(ctx, env, q.world, q.steps);
            Execute(ctx, env, s)
            == if p.raised != Some(false) then p else if q.raised != Some(false) then q else r
  {
    hide Attempt, Prepared;
    var p := Attempt(ctx, env, s.world, Prepared(s));
    var q := Attempt(ctx, env, p.world, p.steps);
    assert Attempts(ctx, env, p.world, p.steps, 1)
        == if q.raised == Some(false) then Attempts(ctx, env, q.world, q.steps, 0) else q;
  }

  // ----- The step log -----

  /** The step results of an attempt are the steps in the order of execution, with what the attempt left in them. */
  lemma StepLogExactly(steps: seq<ActionStep>, i: nat)
    requires i < |steps|
    ensures |RowsFor(steps)| == |steps| == |Ordered(steps)| && 0 <= Ordered(steps)[i] < |steps|
    ensures var step, row := steps[Ordered(steps)[i]], RowsFor(steps)[i];
            row.stepId == step.id && row.order == step.order && row.status == step.status
            && row.retryCount == step.retryCount && row.receipt == step.receipt
  {
  }

  lemma RecordedRowIsLatest(ctx: Context, env: Environment, plan: seq<ActionStep>, s: Session, losses: nat, op: Op,
          k: nat)
    requires SessionOk(ctx, plan, s, losses) && Records(ctx, env, s, op) && k < |plan|
    ensures var p, after := Execute(ctx, env, Ready(s, op)), Step(ctx, env, s, op);
            && |p.steps| == |plan| && after.recorded
            && Latest(after.rows, plan[k].id) == Some(RowFor(p.steps[k]))
  {
    ApproveKeepsOk(ctx, plan, s, op.scope, losses);
    var ready := Ready(s, op);
    var p := Execute(ctx, env, ready);
    forall i | 0 <= i < |plan| ensures p.steps[i].id == plan[i].id {
      ExecuteStep(ctx, env, plan, ready, losses, i);
    }
    RowsForCovers(p.steps, s.rows, k);
    StepRows(ctx, env, s, op);
  }

  /**
   What a recorded execution leaves of a step (status, retry count, receipt) is what the next resume
   hands to the agent, whether the process ended after the record or not.
   */
  lemma RestoredAsLeft(ctx: Context, env: Environment, s: Session, ops: seq<Op>, op: Op, k: nat)
    requires Fresh(ctx, s) && k < |s.memory.steps| && Records(ctx, env, Run(ctx, env, s, ops), op)
    ensures var now := Run(ctx, env, s, ops);
            var left, next := Execute(ctx, env, Ready(now, op)).steps, Prepared(Step(ctx, env, now, op));
            && |left| == |next| == |s.memory.steps|
            && next[k].id == left[k].id && next[k].status == left[k].status
            && next[k].retryCount == left[k].retryCount && next[k].receipt == left[k].receipt
  {
    var plan, now, losses := s.memory.steps, Run(ctx, env, s, ops), Losses(ctx, env, s, ops);
    RunKeepsOk(ctx, env, s, ops);
    RestoredAsRecorded(ctx, env, plan, now, losses, op, k);
  }

  lemma RestoredAsRecorded(ctx: Context, env: Environment, plan: seq<ActionStep>, s: Session, losses: nat, op: Op,
          k: nat)
    requires SessionOk(ctx, plan, s, losses) && Records(ctx, env, s, op) && k < |plan|
    ensures var left, next := Execute(ctx, env, Ready(s, op)).steps, Prepared(Step(ctx, env, s, op));
            && |left| == |next| == |plan|
            && next[k].id == left[k].id && next[k].status == left[k].status
            && next[k].retryCount == left[k].retryCount && next[k].receipt == left[k].receipt
  {
    var after := Step(ctx, env, s, op);
    StepKeepsOk(ctx, env, plan, s, losses, op);
    RecordedRowIsLatest(ctx, env, plan, s, losses, op, k);
    assert after.recorded && SameStep(plan[k], after.memory.steps[k]) by { hide Step, Records, Execute; }
    LogOrdersAgree(plan, after);
    hide Step, Execute, Records, SessionOk, Latest, Prepared;
    ReadiedExactly(after, k);
    LatestIsMember(after.rows, plan[k].id);
  }

  // ----- The commits -----

  /** What the first `n` of the nine commits after an execution leave, table by table. */
  lemma CommitsExactly(s: Session, n: nat)
    requires n <= 9
    ensures var t := After(s, EXECUTED + EVALUATED, n);
            var ran := s.memory.history + ["execution_agent"];
            && t.memory == s.memory.(history := if n == 0 then s.memory.history
                                                else if n < 5 then ran else ran + ["evaluator_agent"])
            && t.rows == (if n < 2 then s.rows else s.rows + RowsFor(s.memory.steps))
            && t.recorded == (s.recorded || n >= 2)
            && t.run == (if n < 3 then s.run
                         else if n < 8 then RunRow(Running, s.run.completed) else RunRow(Completed, true))
            && t.saved == (if n < 4 then s.saved
                           else if n < 9 then s.memory.(history := ran)
                           else s.memory.(history := ran + ["evaluator_agent"]))
            && t.outcome == (s.outcome || n >= 6) && t.insights == (if n < 7 then s.insights else s.insights + 1)
            && t.world == s.world
  {
    if n > 0 {
      CommitsExactly(s, n - 1);
      hide RowsFor, After;
      CommitIs(s, n);
    }
  }

  lemma CommitIs(s: Session, n: nat)
    requires 0 < n <= 9
    ensures After(s, EXECUTED + EVALUATED, n)
         == Happen(After(s, EXECUTED + EVALUATED, n - 1),
                   if n == 1 then AddRecord("execution_agent") else if n == 2 then RecordRows
                   else if n == 3 then SetRun(Running, false) else if n == 5 then AddRecord("evaluator_agent")
                   else if n == 6 then RecordOutcome else if n == 7 then AddInsight
                   else if n == 8 then SetRun(Completed, true) else SaveSnapshot)
  {
  }

  /**
   The whole effect of a resume after its execution.  If an error escaped, the run failed and nothing is
   recorded.  Else the commits happen in order, all of them unless the process ends; if the evaluator
   raises, the run failed after the fourth.
   */
  lemma ConclusionExactly(s: Session, raised: bool, fate: Fate)
    ensures var t, n := Conclusion(s, raised, fate), if fate.Dies? then fate.events else 9;
            if raised then t == s.(run := if n == 0 then s.run else RunRow(RunFailed, true))
            else if fate.evaluatorRaises then
              var u := After(s, EXECUTED + EVALUATED, if n < 4 then n else 4);
              t == u.(run := if n < 5 then u.run else RunRow(RunFailed, true))
            else t == After(s, EXECUTED + EVALUATED, if n < 9 then n else 9)
  {
    var n := if fate.Dies? then fate.events else 9;
    if raised {
      assert After(s, FAILED, 0) == s;
    } else if fate.evaluatorRaises {
      var events := EXECUTED + FAILED;
      SameEventsSameSession(s, events, EXECUTED + EVALUATED, if n < 4 then n else 4);
      if n >= 5 {
        SameEventsSameSession(s, events, EXECUTED + EVALUATED, 4);
        assert After(s, events, 5) == Happen(After(s, events, 4), events[4]);
      }
    }
  }

  /** Where the process ends the memory is that of the latest snapshot, and the CRM store is empty. */
  lemma ResumeExactly(ctx: Context, env: Environment, s: Session, fate: Fate)
    ensures var p, t := Execute(ctx, env, s), Resume(ctx, env, s, fate);
            var u := if Finished(s) then Readied(s)
                     else Conclusion(Readied(s).(world := p.world, memory := Readied(s).memory.(steps := p.steps)),
                                     p.raised.Some?, fate);
            if fate.Lives? then t == u
            else
              var empty := CrmTables.Store(CrmTables.Tables(map[], map[]), map[]);
              t == u.(memory := u.saved, world := World(empty, u.world.log))
  {
  }
}
