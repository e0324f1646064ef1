/**
 The guarantees of approving and resuming one action over any sequence of calls.
 */
module ApprovalResults {
  import opened Counts
  import opened Options
  import opened Policy
  import opened StableSort
  import opened Execution
  import opened ExecutionResults
  import opened ExecutionNotes
  import opened Approval
  import Crm
  import CrmNotes
  import CrmResults

  // ----- The step log reads back the latest row of each step -----

  function Latest(rows: seq<StepRow>, id: string): Option<StepRow> {
    if rows == [] then None
    else if rows[|rows| - 1].stepId == id then Some(rows[|rows| - 1])
    else Latest(rows[..|rows| - 1], id)
  }

  function OfStep(id: string): StepRow -> bool {
    (row: StepRow) => row.stepId == id
  }

  lemma {:induction false} LatestIsLastFiltered(rows: seq<StepRow>, id: string)
    ensures var own := Filter(rows, OfStep(id));
            Latest(rows, id) == if own == [] then None else Some(own[|own| - 1])
  {
    if rows != [] { LatestIsLastFiltered(rows[..|rows| - 1], id); }
  }

  lemma {:induction false} ByStepIsLatest(rows: seq<StepRow>, id: string)
    ensures (id in ByStep(rows) <==> Latest(rows, id).Some?)
    ensures id in ByStep(rows) ==> ByStep(rows)[id] == Latest(rows, id).value
  {
    if rows != [] { ByStepIsLatest(rows[..|rows| - 1], id); }
  }

  /** All rows of a step carry the same step order. */
  ghost predicate OrdersAgree(rows: seq<StepRow>) {
    forall i, j :: 0 <= i < |rows| && 0 <= j < |rows| && rows[i].stepId == rows[j].stepId
        ==> rows[i].order == rows[j].order
  }

  /** Ordering the log by step order does not hide the newest row of a step. */
  lemma PersistedIsLatest(rows: seq<StepRow>, id: string)
    requires OrdersAgree(rows)
    ensures (id in Persisted(rows) <==> Latest(rows, id).Some?)
    ensures id in Persisted(rows) ==> Persisted(rows)[id] == Latest(rows, id).value
  {
    var sorted := Sort(rows, OrderOfRow());
    ByStepIsLatest(sorted, id);
    LatestIsLastFiltered(sorted, id);
    LatestIsLastFiltered(rows, id);
    forall x, y | OfStep(id)(x) && OfStep(id)(y) && x in rows && y in rows ensures OrderOfRow()(x) == OrderOfRow()(y) {
    }
    SortIsStable(rows, OrderOfRow(), OfStep(id));
  }

  lemma {:induction false} LatestAppend(rows: seq<StepRow>, more: seq<StepRow>, i: nat)
    requires i < |more| && forall j :: i < j < |more| ==> more[j].stepId != more[i].stepId
    ensures Latest(rows + more, more[i].stepId) == Some(more[i])
  {
    var all := rows + more;
    assert all[|all| - 1] == more[|more| - 1];
    if i < |more| - 1 {
      assert all[..|all| - 1] == rows + more[..|more| - 1];
      LatestAppend(rows, more[..|more| - 1], i);
    }
  }

  lemma RowsForCovers(steps: seq<ActionStep>, rows: seq<StepRow>, k: nat)
    requires DistinctIds(steps) && k < |steps|
    ensures Latest(rows + RowsFor(steps), steps[k].id) == Some(RowFor(steps[k]))
  {
    OrderedIsPermutation(steps);
    var idx, more := Ordered(steps), RowsFor(steps);
    assert k in idx;
    var i :| 0 <= i < |idx| && idx[i] == k;
    forall j | i < j < |more| ensures more[j].stepId != more[i].stepId {
      assert idx[j] != idx[i];
    }
    LatestAppend(rows, more, i);
  }

  // ----- The invariant -----

  predicate RowDone(s: Session, id: string) {
    s.recorded && Latest(s.rows, id).Some?
    && Latest(s.rows, id).value.status == Executed && Latest(s.rows, id).value.receipt == Success
  }

  /** The rows are of steps of the plan, and once an execution is recorded every step has one. */
  ghost predicate LogOk(plan: seq<ActionStep>, rows: seq<StepRow>, recorded: bool) {
    && (forall i :: 0 <= i < |rows| ==> RowOk(plan, rows[i]))
    && (recorded ==> forall k :: 0 <= k < |plan| ==> Latest(rows, plan[k].id).Some?)
  }

  ghost predicate RowOk(plan: seq<ActionStep>, row: StepRow) {
    && (row.status == Executed ==> row.receipt == Success)
    && exists k :: 0 <= k < |plan| && plan[k].id == row.stepId && plan[k].order == row.order
  }

  ghost predicate MemoryOk(plan: seq<ActionStep>, m: Memory) {
    |m.steps| == |plan| && forall k :: 0 <= k < |plan| ==> SameStep(plan[k], m.steps[k]) && Sound(m.steps[k])
  }

  /** The successes of a step are paid for by its latest row or by an execution that was lost. */
  ghost predicate SuccessesOk(ctx: Context, s: Session, step: ActionStep, losses: nat) {
    && Wins(s.world.log, step.id) <= losses + One(RowDone(s, step.id))
    && (RowDone(s, step.id) ==> Wins(s.world.log, step.id) > 0)
    && (!Allowed(step, ctx) || !Supported(step) ==> Calls(s.world.log, step.id) == 0)
    && (losses == 0 ==> Settled(s.world.log, step.id))
  }

  /** What is done in memory or in the snapshot succeeded. */
  predicate DoneOk(s: Session, step: ActionStep, k: nat)
    requires k < |s.memory.steps| && k < |s.saved.steps|
  {
    s.memory.steps[k].Done() || s.saved.steps[k].Done() ==> Wins(s.world.log, step.id) > 0
  }

  ghost predicate SessionOk(ctx: Context, plan: seq<ActionStep>, s: Session, losses: nat) {
    && DistinctIds(plan) && plan != []
    && LogOk(plan, s.rows, s.recorded) && MemoryOk(plan, s.memory) && MemoryOk(plan, s.saved)
    && forall k :: 0 <= k < |plan| ==> SuccessesOk(ctx, s, plan[k], losses) && DoneOk(s, plan[k], k)
  }

  // ----- Marking and preparing -----

  lemma MarkKeepsMemoryOk(ctx: Context, plan: seq<ActionStep>, s: Session, m: Memory, losses: nat)
    requires SessionOk(ctx, plan, s, losses)
    requires |m.steps| == |plan|
    requires forall k :: 0 <= k < |plan| ==>
               m.steps[k] == s.memory.steps[k] || (SameStep(plan[k], m.steps[k]) && m.steps[k].status != Executed)
    ensures SessionOk(ctx, plan, s.(memory := m), losses)
  {
    var after := s.(memory := m);
    forall k | 0 <= k < |plan|
      ensures SuccessesOk(ctx, after, plan[k], losses) && DoneOk(after, plan[k], k)
    {
      assert SuccessesOk(ctx, s, plan[k], losses) && DoneOk(s, plan[k], k);
      assert RowDone(after, plan[k].id) == RowDone(s, plan[k].id);
    }
  }

  lemma ApproveKeepsOk(ctx: Context, plan: seq<ActionStep>, s: Session, scope: Option<string>, losses: nat)
    requires SessionOk(ctx, plan, s, losses)
    ensures SessionOk(ctx, plan, s.(memory := ApproveIn(s.memory, scope)), losses)
  {
    MarkKeepsMemoryOk(ctx, plan, s, ApproveIn(s.memory, scope), losses);
  }

  lemma RejectKeepsOk(ctx: Context, plan: seq<ActionStep>, s: Session, scope: Option<string>, losses: nat)
    requires SessionOk(ctx, plan, s, losses)
    ensures SessionOk(ctx, plan, s.(memory := RejectIn(s.memory, scope)), losses)
  {
    MarkKeepsMemoryOk(ctx, plan, s, RejectIn(s.memory, scope), losses);
  }

  lemma LogOrdersAgree(plan: seq<ActionStep>, s: Session)
    requires DistinctIds(plan) && LogOk(plan, s.rows, s.recorded)
    ensures OrdersAgree(s.rows)
  {
    forall i, j | 0 <= i < |s.rows| && 0 <= j < |s.rows| && s.rows[i].stepId == s.rows[j].stepId
      ensures s.rows[i].order == s.rows[j].order
    {
      assert RowOk(plan, s.rows[i]) && RowOk(plan, s.rows[j]);
      var x :| 0 <= x < |plan| && plan[x].id == s.rows[i].stepId && plan[x].order == s.rows[i].order;
      var y :| 0 <= y < |plan| && plan[y].id == s.rows[j].stepId && plan[y].order == s.rows[j].order;
      assert x == y;
    }
  }

  lemma {:induction false} LatestIsMember(rows: seq<StepRow>, id: string)
    ensures Latest(rows, id).Some? ==> Latest(rows, id).value in rows && Latest(rows, id).value.stepId == id
  {
    if rows != [] { LatestIsMember(rows[..|rows| - 1], id); }
  }

  /**
   A recorded step enters the agent done exactly when its latest row is; memory counts only before
   the first record.
   */
  lemma PreparedStep(ctx: Context, plan: seq<ActionStep>, s: Session, losses: nat, k: nat)
    requires SessionOk(ctx, plan, s, losses) && k < |plan|
    ensures var step := Prepared(s)[k];
            && SameStep(plan[k], step) && Sound(step)
            && (step.Done() <==> if s.recorded then RowDone(s, plan[k].id) else s.memory.steps[k].Done())
            && (step.Done() ==> Wins(s.world.log, plan[k].id) > 0)
  {
    assert SuccessesOk(ctx, s, plan[k], losses) && DoneOk(s, plan[k], k);
    if s.recorded {
      LogOrdersAgree(plan, s);
      PersistedIsLatest(s.rows, plan[k].id);
      LatestIsMember(s.rows, plan[k].id);
    }
  }

  // ----- One execution -----

  /** What one execution does to a step of a session. */
  lemma ExecuteStep(ctx: Context, env: Environment, plan: seq<ActionStep>, s: Session, losses: nat, k: nat)
    requires SessionOk(ctx, plan, s, losses) && k < |plan|
    ensures var p, before := Execute(ctx, env, s), Prepared(s)[k];
            var step, won := p.steps[k], Wins(s.world.log, plan[k].id);
            && SameStep(plan[k], step) && Sound(step)
            && won <= Wins(p.world.log, plan[k].id) <= won + 1
            && (before.Done() ==> step.Done() && Wins(p.world.log, plan[k].id) == won)
            && (step.Done() ==> Wins(p.world.log, plan[k].id) > 0)
            && (Wins(p.world.log, plan[k].id) > won ==> step.Done())
            && (!Allowed(plan[k], ctx) || !Supported(plan[k]) ==> Calls(p.world.log, plan[k].id) == 0)
            && (before.Done() ==> Calls(p.world.log, plan[k].id) == Calls(s.world.log, plan[k].id))
            && (losses == 0 ==> Settled(p.world.log, plan[k].id))
            && (p.raised.None? ==> Concluded(step))
  {
    var steps := Prepared(s);
    assert SuccessesOk(ctx, s, plan[k], losses);
    PreparedIsPlan(ctx, plan, s, losses);
    PreparedStep(ctx, plan, s, losses, k);
    SameStepSameGate(plan[k], steps[k], ctx);
    WinsAreCalls(s.world.log, plan[k].id);
    AttemptsKeepBalance(ctx, env, s.world, steps, RETRIES, k);
    AtMostOneSuccessPerExecution(ctx, env, s.world, steps, RETRIES, k);
    AttemptsAreBounded(ctx, env, s.world, steps, RETRIES, k);
    if losses == 0 {
      if Allowed(plan[k], ctx) {
        AttemptsKeepSettled(ctx, env, s.world, steps, RETRIES, k);
      } else {
        NoCallsMeansSettled(Execute(ctx, env, s).world.log, plan[k].id);
      }
    }
  }

  lemma PreparedIsPlan(ctx: Context, plan: seq<ActionStep>, s: Session, losses: nat)
    requires SessionOk(ctx, plan, s, losses)
    ensures DistinctIds(Prepared(s))
  {
    forall i | 0 <= i < |plan| ensures Prepared(s)[i].id == plan[i].id { PreparedStep(ctx, plan, s, losses, i); }
  }

  lemma {:induction false} NoCallsMeansSettled(log: seq<Dispatch>, id: string)
    requires Calls(log, id) == 0
    ensures forall i :: 0 <= i < |log| ==> log[i].stepId != id
  {
    if log != [] { NoCallsMeansSettled(log[..|log| - 1], id); }
  }

  // ----- Recording an execution -----

  lemma RecordedRowsAreOk(plan: seq<ActionStep>, rows: seq<StepRow>, recorded: bool, steps: seq<ActionStep>)
    requires DistinctIds(plan) && LogOk(plan, rows, recorded) && |steps| == |plan|
    requires forall k :: 0 <= k < |plan| ==> SameStep(plan[k], steps[k]) && Sound(steps[k])
    ensures LogOk(plan, rows + RowsFor(steps), true)
    ensures forall k :: 0 <= k < |plan| ==> Latest(rows + RowsFor(steps), plan[k].id) == Some(RowFor(steps[k]))
  {
    var all, idx := rows + RowsFor(steps), Ordered(steps);
    forall k | 0 <= k < |plan| ensures Latest(all, plan[k].id) == Some(RowFor(steps[k])) {
      RowsForCovers(steps, rows, k);
    }
    forall i | 0 <= i < |all| ensures RowOk(plan, all[i]) {
      if i >= |rows| {
        assert all[i] == RowFor(steps[idx[i - |rows|]]);
        assert plan[idx[i - |rows|]].id == all[i].stepId;
      }
    }
  }

  /** The session right after an execution, before any of its events: one success per step may be unpaid. */
  lemma ExecutionKeepsOk(ctx: Context, env: Environment, plan: seq<ActionStep>, s: Session, losses: nat)
    requires SessionOk(ctx, plan, s, losses)
    ensures SessionOk(ctx, plan, AfterExecution(Readied(s), Execute(ctx, env, s)), losses + 1)
  {
    var p := Execute(ctx, env, s);
    var after := AfterExecution(Readied(s), p);
    forall k | 0 <= k < |plan|
      ensures SameStep(plan[k], p.steps[k]) && Sound(p.steps[k])
           && SuccessesOk(ctx, after, plan[k], losses + 1) && DoneOk(after, plan[k], k)
    {
      ExecutedStepIsOk(ctx, env, plan, s, losses, k);
    }
  }

  lemma ExecutedStepIsOk(ctx: Context, env: Environment, plan: seq<ActionStep>, s: Session, losses: nat, k: nat)
    requires SessionOk(ctx, plan, s, losses) && k < |plan|
    ensures var p := Execute(ctx, env, s);
            var after := AfterExecution(Readied(s), p);
            SameStep(plan[k], p.steps[k]) && Sound(p.steps[k])
            && SuccessesOk(ctx, after, plan[k], losses + 1) && DoneOk(after, plan[k], k)
  {
    var p := Execute(ctx, env, s);
    var after := AfterExecution(Readied(s), p);
    assert SuccessesOk(ctx, s, plan[k], losses) && DoneOk(s, plan[k], k);
    assert RowDone(after, plan[k].id) == RowDone(s, plan[k].id);
    PreparedStep(ctx, plan, s, losses, k);
    ExecuteStep(ctx, env, plan, s, losses, k);
  }

  /** Recording the rows pays for the successes of the execution. */
  lemma RecordingKeepsOk(ctx: Context, env: Environment, plan: seq<ActionStep>, s: Session, losses: nat,
          recorded: Session)
    requires SessionOk(ctx, plan, s, losses)
    requires recorded == After(AfterExecution(Readied(s), Execute(ctx, env, s)), EXECUTED, 2)
    ensures SessionOk(ctx, plan, recorded, losses)
  {
    var p := Execute(ctx, env, s);
    RecordedFields(s, p);
    forall k | 0 <= k < |plan| ensures SameStep(plan[k], p.steps[k]) && Sound(p.steps[k]) {
      ExecuteStep(ctx, env, plan, s, losses, k);
    }
    RecordedRowsAreOk(plan, s.rows, s.recorded, p.steps);
    forall k | 0 <= k < |plan|
      ensures SuccessesOk(ctx, recorded, plan[k], losses) && DoneOk(recorded, plan[k], k)
           && (RowDone(recorded, plan[k].id) <==> p.steps[k].Done())
    {
      RecordedStepIsOk(ctx, env, plan, s, losses, recorded, k);
    }
  }

  lemma RecordedFields(s: Session, p: Pass)
    requires |p.steps| == |s.memory.steps|
    ensures var recorded := After(AfterExecution(Readied(s), p), EXECUTED, 2);
            && recorded.rows == s.rows + RowsFor(p.steps) && recorded.recorded
            && recorded.world == p.world && recorded.memory.steps == p.steps && recorded.saved == s.saved
  {
    var executed := AfterExecution(Readied(s), p);
    assert After(executed, EXECUTED, 1) == Happen(executed, AddRecord("execution_agent"));
  }

  lemma RecordedStepIsOk(ctx: Context, env: Environment, plan: seq<ActionStep>, s: Session, losses: nat,
          recorded: Session, k: nat)
    requires SessionOk(ctx, plan, s, losses) && k < |plan|
    requires recorded.world == Execute(ctx, env, s).world && recorded.memory.steps == Execute(ctx, env, s).steps
    requires recorded.saved == s.saved && recorded.recorded
    requires Latest(recorded.rows, plan[k].id) == Some(RowFor(Execute(ctx, env, s).steps[k]))
    ensures RowDone(recorded, plan[k].id) <==> Execute(ctx, env, s).steps[k].Done()
    ensures SuccessesOk(ctx, recorded, plan[k], losses) && DoneOk(recorded, plan[k], k)
  {
    assert SuccessesOk(ctx, s, plan[k], losses) && DoneOk(s, plan[k], k);
    PreparedStep(ctx, plan, s, losses, k);
    ExecuteStep(ctx, env, plan, s, losses, k);
  }

  // ----- The other events -----

  lemma EventKeepsOk(ctx: Context, plan: seq<ActionStep>, s: Session, e: Event, losses: nat)
    requires SessionOk(ctx, plan, s, losses) && !e.RecordRows?
    ensures SessionOk(ctx, plan, Happen(s, e), losses)
  {
    var after := Happen(s, e);
    forall k | 0 <= k < |plan| ensures SuccessesOk(ctx, after, plan[k], losses) && DoneOk(after, plan[k], k) {
      assert SuccessesOk(ctx, s, plan[k], losses) && DoneOk(s, plan[k], k);
      assert RowDone(after, plan[k].id) == RowDone(s, plan[k].id);
    }
  }

  /** From the `from`-th event on no rows are recorded. */
  lemma {:induction false} EventsKeepOk(ctx: Context, plan: seq<ActionStep>, s: Session, events: seq<Event>,
          from: nat, n: nat, losses: nat)
    requires from <= n <= |events| && SessionOk(ctx, plan, After(s, events, from), losses)
    requires forall i :: from <= i < n ==> !events[i].RecordRows?
    ensures SessionOk(ctx, plan, After(s, events, n), losses)
  {
    hide SessionOk, Happen;
    if from < n {
      EventsKeepOk(ctx, plan, s, events, from, n - 1, losses);
      EventKeepsOk(ctx, plan, After(s, events, n - 1), events[n - 1], losses);
    }
  }

  lemma {:induction false} SameEventsSameSession(s: Session, events: seq<Event>, others: seq<Event>, n: nat)
    requires n <= |events| && n <= |others| && forall i :: 0 <= i < n ==> events[i] == others[i]
    ensures After(s, events, n) == After(s, others, n)
  {
    if n > 0 { SameEventsSameSession(s, events, others, n - 1); }
  }

  /** The rows are the second event of an execution that did not raise. */
  lemma RowsHappen(raised: bool, fate: Fate)
    ensures var events := Events(raised, fate.evaluatorRaises);
            && (Happened(RecordRows, raised, fate) <==> !raised && Reached(fate, |events|) >= 2)
            && (!raised ==> |events| >= 4 && events[..4] == EXECUTED)
            && forall i :: 0 <= i < |events| && i != 1 ==> !events[i].RecordRows?
  {
    var events := Events(raised, fate.evaluatorRaises);
    var n := Reached(fate, |events|);
    if !raised && n >= 2 { assert events[..n][1] == RecordRows; }
    if Happened(RecordRows, raised, fate) {
      var i :| 0 <= i < n && events[..n][i] == RecordRows;
      assert events[i] == RecordRows;
    }
  }

  lemma RecordedConclusionKeepsOk(ctx: Context, plan: seq<ActionStep>, executed: Session, fate: Fate, losses: nat)
    requires Happened(RecordRows, false, fate)
    requires SessionOk(ctx, plan, After(executed, EXECUTED, 2), losses)
    ensures SessionOk(ctx, plan, Conclusion(executed, false, fate), losses)
  {
    var events := Events(false, fate.evaluatorRaises);
    RowsHappen(false, fate);
    assert events[0] == events[..4][0] && events[1] == events[..4][1];
    SameEventsSameSession(executed, events, EXECUTED, 2);
    EventsKeepOk(ctx, plan, executed, events, 2, Reached(fate, |events|), losses);
  }

  lemma UnrecordedConclusionKeepsOk(ctx: Context, plan: seq<ActionStep>, executed: Session, raised: bool, fate: Fate,
          losses: nat)
    requires !Happened(RecordRows, raised, fate) && SessionOk(ctx, plan, executed, losses)
    ensures SessionOk(ctx, plan, Conclusion(executed, raised, fate), losses)
  {
    var events := Events(raised, fate.evaluatorRaises);
    RowsHappen(raised, fate);
    EventsKeepOk(ctx, plan, executed, events, 0, Reached(fate, |events|), losses);
  }

  /** A resume that is recorded keeps the account; one that is not costs one success per step at most. */
  lemma ProgressKeepsOk(ctx: Context, env: Environment, plan: seq<ActionStep>, s: Session, losses: nat, fate: Fate)
    requires SessionOk(ctx, plan, s, losses)
    ensures SessionOk(ctx, plan, Progress(ctx, env, s, fate), losses + One(Lost(ctx, env, s, fate)))
  {
    if Finished(s) {
      FinishedKeepsOk(ctx, plan, s, losses);
    } else {
      var p := Execute(ctx, env, s);
      var executed := AfterExecution(Readied(s), p);
      if Lost(ctx, env, s, fate) {
        ExecutionKeepsOk(ctx, env, plan, s, losses);
        UnrecordedConclusionKeepsOk(ctx, plan, executed, p.raised.Some?, fate, losses + 1);
      } else {
        RowsHappen(p.raised.Some?, fate);
        RecordingKeepsOk(ctx, env, plan, s, losses, After(executed, EXECUTED, 2));
        RecordedConclusionKeepsOk(ctx, plan, executed, fate, losses);
      }
    }
  }

  // ----- Every call keeps the invariant -----

  lemma CrashKeepsOk(ctx: Context, plan: seq<ActionStep>, s: Session, losses: nat)
    requires SessionOk(ctx, plan, s, losses)
    ensures SessionOk(ctx, plan, Crashed(s), losses)
    ensures forall k :: 0 <= k < |plan| ==> RowDone(Crashed(s), plan[k].id) == RowDone(s, plan[k].id)
  {
    var after := Crashed(s);
    forall k | 0 <= k < |plan|
      ensures SuccessesOk(ctx, after, plan[k], losses) && DoneOk(after, plan[k], k)
           && RowDone(after, plan[k].id) == RowDone(s, plan[k].id)
    {
      assert SuccessesOk(ctx, s, plan[k], losses) && DoneOk(s, plan[k], k);
    }
  }

  lemma FinishedKeepsOk(ctx: Context, plan: seq<ActionStep>, s: Session, losses: nat)
    requires SessionOk(ctx, plan, s, losses)
    ensures SessionOk(ctx, plan, Readied(s), losses)
  {
    var after := Readied(s);
    forall k | 0 <= k < |plan|
      ensures SameStep(plan[k], after.memory.steps[k]) && Sound(after.memory.steps[k])
           && SuccessesOk(ctx, after, plan[k], losses) && DoneOk(after, plan[k], k)
    {
      assert SuccessesOk(ctx, s, plan[k], losses) && DoneOk(s, plan[k], k);
      assert RowDone(after, plan[k].id) == RowDone(s, plan[k].id);
      PreparedStep(ctx, plan, s, losses, k);
    }
  }

  lemma ResumeKeepsOk(ctx: Context, env: Environment, plan: seq<ActionStep>, s: Session, losses: nat, fate: Fate)
    requires SessionOk(ctx, plan, s, losses)
    ensures SessionOk(ctx, plan, Resume(ctx, env, s, fate), losses + One(Lost(ctx, env, s, fate)))
  {
    ProgressKeepsOk(ctx, env, plan, s, losses, fate);
    if fate.Dies? { CrashKeepsOk(ctx, plan, Progress(ctx, env, s, fate), losses + One(Lost(ctx, env, s, fate))); }
  }

  lemma OtherCallKeepsOk(ctx: Context, env: Environment, plan: seq<ActionStep>, s: Session, losses: nat,
          call: CrmResults.Call)
    requires SessionOk(ctx, plan, s, losses)
    ensures SessionOk(ctx, plan, Step(ctx, env, s, OtherCrmCall(call)), losses)
  {
    var after := Step(ctx, env, s, OtherCrmCall(call));
    forall k | 0 <= k < |plan| ensures SuccessesOk(ctx, after, plan[k], losses) && DoneOk(after, plan[k], k) {
      assert SuccessesOk(ctx, s, plan[k], losses) && DoneOk(s, plan[k], k);
      assert RowDone(after, plan[k].id) == RowDone(s, plan[k].id);
    }
  }

  lemma StepKeepsOk(ctx: Context, env: Environment, plan: seq<ActionStep>, s: Session, losses: nat, op: Op)
    requires SessionOk(ctx, plan, s, losses)
    ensures SessionOk(ctx, plan, Step(ctx, env, s, op), losses + One(Loses(ctx, env, s, op)))
  {
    match op
    case Approve(scope, fate) =>
      ApproveKeepsOk(ctx, plan, s, scope, losses);
      ResumeKeepsOk(ctx, env, plan, s.(memory := ApproveIn(s.memory, scope)), losses, fate);
    case Reject(scope) => RejectKeepsOk(ctx, plan, s, scope, losses);
    case Restart => CrashKeepsOk(ctx, plan, s, losses);
    case SaveFailedRun => EventKeepsOk(ctx, plan, s, SaveSnapshot, losses);
    case OtherCrmCall(call) => OtherCallKeepsOk(ctx, env, plan, s, losses, call);
  }

  /** A new action: nothing executed, recorded or dispatched, and the CRM store knows none of its notes. */
  ghost predicate Fresh(ctx: Context, s: Session) {
    && s.memory.steps != [] && DistinctIds(s.memory.steps) && s.saved == s.memory
    && (forall k :: 0 <= k < |s.memory.steps| ==> s.memory.steps[k].status != Executed)
    && s.rows == [] && !s.recorded && s.world.log == []
    && s.run.status in {Running, WaitingApproval} && !s.run.completed
    && CrmNotes.Exact(s.world.crm)
    && (forall k :: 0 <= k < |s.memory.steps| ==> StepCacheKey(ctx.deal, s.memory.steps[k].id) !in s.world.crm.cache)
  }

  lemma {:induction false} RunFromKeepsOk(ctx: Context, env: Environment, plan: seq<ActionStep>, s: Session,
          losses: nat, ops: seq<Op>)
    requires SessionOk(ctx, plan, s, losses)
    ensures SessionOk(ctx, plan, Run(ctx, env, s, ops), losses + Losses(ctx, env, s, ops))
  {
    hide Step, SessionOk, Loses;
    if ops != [] {
      var before, op := ops[..|ops| - 1], ops[|ops| - 1];
      RunFromKeepsOk(ctx, env, plan, s, losses, before);
      StepKeepsOk(ctx, env, plan, Run(ctx, env, s, before), losses + Losses(ctx, env, s, before), op);
    }
  }

  lemma FreshIsOk(ctx: Context, s: Session)
    requires Fresh(ctx, s)
    ensures SessionOk(ctx, s.memory.steps, s, 0)
  {
    hide Allowed, Supported, Latest, CrmNotes.Exact;
    var plan := s.memory.steps;
    forall k | 0 <= k < |plan| ensures SuccessesOk(ctx, s, plan[k], 0) && DoneOk(s, plan[k], k) { }
    assert MemoryOk(plan, s.memory) && MemoryOk(plan, s.saved) && LogOk(plan, s.rows, s.recorded);
  }

  lemma RunKeepsOk(ctx: Context, env: Environment, s: Session, ops: seq<Op>)
    requires Fresh(ctx, s)
    ensures SessionOk(ctx, s.memory.steps, Run(ctx, env, s, ops), Losses(ctx, env, s, ops))
  {
    hide SessionOk, Fresh, Run, Losses;
    FreshIsOk(ctx, s);
    RunFromKeepsOk(ctx, env, s.memory.steps, s, 0, ops);
  }

  lemma RunOfOne(ctx: Context, env: Environment, s: Session, op: Op)
    ensures Run(ctx, env, s, [op]) == Step(ctx, env, s, op)
  {
    assert [op][..0] == [];
    assert Run(ctx, env, s, []) == s;
  }

  lemma RunOfNext(ctx: Context, env: Environment, s: Session, ops: seq<Op>, op: Op)
    ensures Run(ctx, env, s, ops + [op]) == Step(ctx, env, Run(ctx, env, s, ops), op)
  {
    assert (ops + [op])[..|ops|] == ops;
  }

  // ----- How often a step is sent -----

  /** A step succeeds at most once, and once more for each execution that was lost. */
  lemma SuccessesAreBounded(ctx: Context, env: Environment, s: Session, ops: seq<Op>, k: nat)
    requires Fresh(ctx, s) && k < |s.memory.steps|
    ensures Wins(Run(ctx, env, s, ops).world.log, s.memory.steps[k].id) <= 1 + Losses(ctx, env, s, ops)
  {
    RunKeepsOk(ctx, env, s, ops);
    assert SuccessesOk(ctx, Run(ctx, env, s, ops), s.memory.steps[k], Losses(ctx, env, s, ops));
  }

  /** When no execution is lost, every step is dispatched until its first success and never again. */
  lemma DispatchedUntilFirstSuccess(ctx: Context, env: Environment, s: Session, ops: seq<Op>, k: nat)
    requires Fresh(ctx, s) && k < |s.memory.steps| && Losses(ctx, env, s, ops) == 0
    ensures var log := Run(ctx, env, s, ops).world.log;
            Wins(log, s.memory.steps[k].id) <= 1 && Settled(log, s.memory.steps[k].id)
  {
    RunKeepsOk(ctx, env, s, ops);
    assert SuccessesOk(ctx, Run(ctx, env, s, ops), s.memory.steps[k], 0);
  }

  /** A step that does not pass the policy, or whose channel has no adapter for its action, is never dispatched. */
  lemma BlockedStepIsNeverSent(ctx: Context, env: Environment, s: Session, ops: seq<Op>, k: nat)
    requires Fresh(ctx, s) && k < |s.memory.steps|
    requires !Passes(s.memory.steps[k], ctx) || !HasAdapter(s.memory.steps[k].channel, s.memory.steps[k].action)
    ensures Calls(Run(ctx, env, s, ops).world.log, s.memory.steps[k].id) == 0
  {
    AllowedExactly(s.memory.steps[k], ctx);
    SupportedExactly(s.memory.steps[k]);
    RunKeepsOk(ctx, env, s, ops);
    assert SuccessesOk(ctx, Run(ctx, env, s, ops), s.memory.steps[k], Losses(ctx, env, s, ops));
  }
}
