/**
 The approval, resume and execution calls on fields that they overwrite in place: the plan's
 steps, the envelope's statuses and history, the step log, the run row and the adapters.  Each
 method is proved to do what its function in `Execution` or `Approval` says.
 */
module Orchestrator {
  import opened Options
  import opened Policy
  import opened StableSort
  import opened Execution
  import opened ExecutionResults
  import opened Approval
  import opened RunRecords
  import opened ApprovalRules
  import Crm
  import CrmTool

  datatype ExecutionStatus = AllExecuted | PartlyExecuted | NothingExecuted

  /** The summary of an execution, from its step results. */
  method Summarise(results: seq<StepRow>) returns (status: ExecutionStatus)
    ensures status == AllExecuted <==> results != [] && forall i :: 0 <= i < |results| ==> results[i].receipt == Success
    ensures status == NothingExecuted <==> forall i :: 0 <= i < |results| ==> results[i].receipt != Success
  {
    var allSuccess, anySuccess := true, false;
    for i := 0 to |results|
      invariant allSuccess <==> forall j :: 0 <= j < i ==> results[j].receipt == Success
      invariant anySuccess <==> exists j :: 0 <= j < i && results[j].receipt == Success
    {
      allSuccess := allSuccess && results[i].receipt == Success;
      anySuccess := anySuccess || results[i].receipt == Success;
    }
    assert |results| > 0 && allSuccess ==> results[0].receipt == Success;
    status :=
      if |results| > 0 && allSuccess then AllExecuted else if anySuccess then PartlyExecuted else NothingExecuted;
  }

  lemma EachStepHasARow(steps: seq<ActionStep>, k: nat) returns (i: nat)
    requires k < |steps|
    ensures i < |steps| && RowsFor(steps)[i] == RowFor(steps[k])
  {
    OrderedIsPermutation(steps);
    assert k in Ordered(steps);
    i :| 0 <= i < |steps| && Ordered(steps)[i] == k;
  }

  /** All step results of a completed attempt are successes exactly when all steps of the plan are done. */
  lemma AllExecutedMeansAllDone(steps: seq<ActionStep>)
    requires forall k :: 0 <= k < |steps| ==> Concluded(steps[k])
    ensures (forall i :: 0 <= i < |steps| ==> RowsFor(steps)[i].receipt == Success)
       <==> forall k :: 0 <= k < |steps| ==> steps[k].Done()
  {
    if forall i :: 0 <= i < |steps| ==> RowsFor(steps)[i].receipt == Success {
      forall k | 0 <= k < |steps| ensures steps[k].Done() {
        var i := EachStepHasARow(steps, k);
        assert RowsFor(steps)[i].receipt == Success;
      }
    }
  }

  /** None of them is exactly when no step is done. */
  lemma NothingExecutedMeansNoneDone(steps: seq<ActionStep>)
    requires forall k :: 0 <= k < |steps| ==> Concluded(steps[k])
    ensures (forall i :: 0 <= i < |steps| ==> RowsFor(steps)[i].receipt != Success)
       <==> forall k :: 0 <= k < |steps| ==> !steps[k].Done()
  {
    if forall i :: 0 <= i < |steps| ==> RowsFor(steps)[i].receipt != Success {
      forall k | 0 <= k < |steps| ensures !steps[k].Done() {
        var i := EachStepHasARow(steps, k);
        assert RowsFor(steps)[i].receipt != Success;
      }
    }
  }

  predicate SameSteps(s: seq<ActionStep>, t: seq<ActionStep>) {
    |s| == |t| && forall k :: 0 <= k < |s| ==> SameStep(s[k], t[k])
  }

  /** The results are the rows of the first `n` handled steps, all concluded. */
  ghost predicate ResultsOf(results: seq<StepRow>, steps: seq<ActionStep>, ordered: seq<int>, n: nat) {
    && Positions(ordered, |steps|) && n <= |ordered| && |results| == n
    && forall j :: 0 <= j < n ==> results[j] == RowFor(steps[ordered[j]]) && Concluded(steps[ordered[j]])
  }

  lemma ResultsExtend(results: seq<StepRow>, steps: seq<ActionStep>, ordered: seq<int>, n: nat, step: ActionStep)
    requires ResultsOf(results, steps, ordered, n) && n < |ordered| && Concluded(step)
    ensures ResultsOf(results + [RowFor(step)], steps[ordered[n] := step], ordered, n + 1)
  {
    var after := steps[ordered[n] := step];
    forall j | 0 <= j < n ensures after[ordered[j]] == steps[ordered[j]] {
      assert ordered[j] != ordered[n];
    }
  }

  predicate ExecutedEvents(events: seq<Event>) {
    |events| == 4 && events[0] == AddRecord("execution_agent") && events[1] == RecordRows
    && events[2] == SetRun(Running, false) && events[3] == SaveSnapshot
  }

  predicate EvaluatedEvents(events: seq<Event>) {
    |events| == 5 && events[0] == AddRecord("evaluator_agent") && events[1] == RecordOutcome && events[2] == AddInsight
    && events[3] == SetRun(Completed, true) && events[4] == SaveSnapshot
  }

  class WorkflowService {
    const ctx: Context
    const env: Environment
    const crm: CrmTool.CrmStore
    const actionId: string

    // The envelope in memory, once it is loaded.
    var loaded: bool
    var steps: seq<ActionStep>
    var planStatus: StepStatus
    var actionStatus: StepStatus
    var history: seq<string>

    // The database and the adapter log.
    var saved: Memory
    var rows: seq<StepRow>
    var recorded: bool
    var outcome: bool
    var insights: nat
    var run: RunRow
    var log: seq<Dispatch>

    function World(): World
      reads this, crm
    {
      Execution.World(crm.Contents(), log)
    }

    /** What a call finds: the envelope in memory, or the one it would load from the latest snapshot. */
    function InMemory(): Memory
      reads this
    {
      if loaded then Memory(steps, planStatus, actionStatus, history) else saved
    }

    function Contents(): Session
      reads this, crm
    {
      Session(InMemory(), saved, rows, recorded, outcome, insights, run, World())
    }

    constructor (ctx: Context, env: Environment, crm: CrmTool.CrmStore, actionId: string, steps: seq<ActionStep>,
                 planStatus: StepStatus, history: seq<string>, run: RunRow)
      ensures this.ctx == ctx && this.env == env && this.crm == crm && this.actionId == actionId
      ensures var m := Memory(steps, planStatus, planStatus, history);
              Contents() == Session(m, m, [], false, false, 0, run, Execution.World(crm.Contents(), []))
    {
      this.ctx, this.env, this.crm, this.actionId, this.loaded := ctx, env, crm, actionId, true;
      this.steps, this.planStatus, this.actionStatus, this.history := steps, planStatus, planStatus, history;
      this.saved := Memory(steps, planStatus, planStatus, history);
      this.rows, this.recorded, this.outcome, this.insights, this.run, this.log := [], false, false, 0, run, [];
    }

    /** Call the adapter of a step. */
    method Send(step: ActionStep) returns (reply: Reply)
      modifies this`log, crm
      ensures (World(), reply) == Execution.Send(ctx, env, old(World()), step)
    {
      var signal := env(|log|);
      var delivered := signal.reaction.Answers? && signal.reaction.ok;
      if step.channel == Policy.Crm && (signal.reaction.Answers? || signal.reaction.acted) {
        var response := crm.UpdateCrm(ctx.deal, step.content.note, MessageId(step.id), signal.id, signal.now);
        delivered := response.success;
      }
      if signal.reaction.Raises? {
        reply := Raised(signal.reaction.terminal);
      } else if delivered {
        reply := Delivered;
      } else {
        reply := Declined;
      }
      log := log + [Dispatch(step.id, step.order, reply)];
    }

    /** Handle the step at position `k`, in place. */
    method HandleStep(k: nat) returns (raised: Option<bool>)
      requires k < |steps|
      modifies this`steps, this`log, crm
      ensures var (next, step, r) := ExecuteOne(ctx, env, old(World()), old(steps)[k]);
              World() == next && steps == old(steps)[k := step] && raised == r
    {
      var step := steps[k];
      var reasons := OutputReasons(step, ctx);
      if reasons != [] {
        steps := steps[k := Settle(step.(retryCount := step.retryCount + 1), Failure(OutputPolicyViolation(reasons)))];
        return None;
      }
      var block := Block(step, ctx);
      if block.Some? {
        steps := steps[k := Settle(step.(retryCount := step.retryCount + 1), Failure(block.value))];
        return None;
      }
      var receipt := step.receipt;
      if !(step.status == Executed && step.receipt == Success) {
        step := step.(retryCount := step.retryCount + 1);
        steps := steps[k := step];
        if !Supported(step) {
          receipt := Failure(UnsupportedStep);
        } else {
          var reply := Send(step);
          match reply {
            case Raised(terminal) => return Some(terminal);
            case Delivered => receipt := Success;
            case Declined => receipt := Failure(AdapterFailed);
          }
        }
      }
      steps := steps[k := Settle(step, receipt)];
      raised := None;
    }

    /** Handle the steps in order; the step results are those of the steps as they are left. */
    method HandleSteps(ordered: seq<int>) returns (raised: Option<bool>, results: seq<StepRow>)
      requires Positions(ordered, |steps|)
      modifies this`steps, this`log, crm
      ensures Pass(World(), steps, raised) == ExecuteAt(ctx, env, old(World()), old(steps), ordered)
      ensures SameSteps(steps, old(steps))
      ensures raised == None ==> ResultsOf(results, steps, ordered, |ordered|)
    {
      raised, results := None, [];
      var i := 0;
      while i < |ordered|
        invariant 0 <= i <= |ordered| && raised.None?
        invariant SameSteps(steps, old(steps))
        invariant ExecuteAt(ctx, env, World(), steps, ordered[i..])
            == ExecuteAt(ctx, env, old(World()), old(steps), ordered)
        invariant ResultsOf(results, steps, ordered, i)
      {
        ghost var w, before := World(), steps;
        OneIsHandled(ctx, env, w, steps[ordered[i]]);
        assert ordered[i..][0] == ordered[i] && ordered[i..][1..] == ordered[i + 1..];
        raised := HandleStep(ordered[i]);
        if raised.Some? {
          return;
        }
        ResultsExtend(results, before, ordered, i, steps[ordered[i]]);
        results := results + [RowFor(steps[ordered[i]])];
        i := i + 1;
      }
    }

    /** One run of the execution agent; its step results if nothing raised, none for a plan that is not approved. */
    method ExecutionAgent() returns (raised: Option<bool>, results: seq<StepRow>)
      modifies this`steps, this`log, crm
      ensures old(planStatus) != Approved ==>
                World() == old(World()) && steps == old(steps) && raised == None && results == []
      ensures old(planStatus) == Approved ==>
                && Pass(World(), steps, raised) == Attempt(ctx, env, old(World()), old(steps))
                && (raised == None ==>
                    results == RowsFor(steps) && forall k :: 0 <= k < |steps| ==> Concluded(steps[k]))
    {
      if planStatus != Approved {
        return None, [];
      }
      OrderedIsPermutation(steps);
      raised, results := HandleSteps(Ordered(steps));
      SameOrdersSameOrdering(old(steps), steps);
      if raised.None? {
        forall k | 0 <= k < |steps| ensures Concluded(steps[k]) {
          assert k in Ordered(steps);
        }
      }
    }

    /** Run the agent again after an error that is not terminal, at most twice. */
    method ExecuteWithRetries() returns (raised: Option<bool>, results: seq<StepRow>)
      requires loaded && DistinctIds(steps) && planStatus == Approved
      modifies this`steps, this`log, crm
      ensures Pass(World(), steps, raised) == Attempts(ctx, env, old(World()), old(steps), RETRIES)
      ensures raised == None ==> results == RowsFor(steps) && forall k :: 0 <= k < |steps| ==> Concluded(steps[k])
    {
      var attempt := 0;
      while true
        invariant 0 <= attempt <= RETRIES && DistinctIds(steps)
        invariant Attempts(ctx, env, World(), steps, RETRIES - attempt)
            == Attempts(ctx, env, old(World()), old(steps), RETRIES)
        decreases RETRIES - attempt
      {
        hide Attempt, Attempts, DistinctIds, RowsFor;
        ghost var w, before := World(), steps;
        raised, results := ExecutionAgent();
        AttemptKeepsIds(ctx, env, w, before);
        NextAttempts(ctx, env, w, before, RETRIES - attempt);
        if raised != Some(false) || attempt >= RETRIES {
          return;
        }
        attempt := attempt + 1;
      }
    }

    /** The retries leave everything but the steps and the adapters as it was. */
    method ExecuteWithStepAudit() returns (raised: Option<bool>, results: seq<StepRow>)
      requires loaded && DistinctIds(steps) && planStatus == Approved
      modifies this`steps, this`log, crm
      ensures Pass(World(), steps, raised) == Attempts(ctx, env, old(World()), old(steps), RETRIES)
      ensures Contents() == AfterExecution(old(Contents()), Pass(World(), steps, raised))
      ensures raised == None ==> results == RowsFor(steps)
    {
      hide Attempts, DistinctIds, RowsFor;
      raised, results := ExecuteWithRetries();
    }

    /** Store the execution and its step results; a new execution id never replaces an earlier row. */
    method RecordExecution(results: seq<StepRow>)
      modifies this`rows, this`recorded
      ensures rows == old(rows) + results && recorded
    {
      recorded := true;
      for i := 0 to |results|
        invariant rows == old(rows) + results[..i] && recorded
      {
        rows := rows + [results[i]];
      }
      assert results[..|results|] == results;
    }

    method ReopenSteps()
      modifies this`steps
      ensures steps == Reopen(old(steps))
    {
      for i := 0 to |steps|
        invariant |steps| == |old(steps)|
        invariant forall j :: 0 <= j < i ==> steps[j] == Reopen(old(steps))[j]
        invariant forall j :: i <= j < |steps| ==> steps[j] == old(steps)[j]
      {
        if steps[i].status != Executed {
          steps := steps[i := steps[i].WithStatus(Approved)];
        }
      }
    }

    method RestoreSteps()
      modifies this`steps
      ensures steps == Restore(old(steps), Persisted(rows))
    {
      var persisted := Persisted(rows);
      for i := 0 to |steps|
        invariant |steps| == |old(steps)|
        invariant forall j :: 0 <= j < i ==> steps[j] == RestoreOne(old(steps)[j], persisted)
        invariant forall j :: i <= j < |steps| ==> steps[j] == old(steps)[j]
      {
        if steps[i].id in persisted {
          var row := persisted[steps[i].id];
          steps := steps[i := steps[i].(status := row.status, retryCount := row.retryCount, receipt := row.receipt)];
        }
      }
    }

    /** The process ends: its envelopes are gone, and so are the dictionaries of the CRM tool. */
    method EndProcess()
      modifies this`loaded, this`steps, this`history, crm
      ensures Contents() == Crashed(old(Contents())) && !loaded
    {
      loaded, steps, history := false, [], [];
      crm.Restart();
    }

    /** The envelope in memory, or else the one in the latest snapshot. */
    method LoadEnvelope()
      modifies this`loaded, this`steps, this`planStatus, this`actionStatus, this`history
      ensures loaded && Contents() == old(Contents())
    {
      if !loaded {
        steps, planStatus, actionStatus, history := saved.steps, saved.planStatus, saved.actionStatus, saved.history;
        loaded := true;
      }
    }

    /** Approve every step that is not executed, then let the step log decide; is anything left to do? */
    method PrepareSteps() returns (finished: bool)
      requires loaded
      modifies this`steps
      ensures steps == Prepared(old(Contents())) && finished == Finished(old(Contents()))
    {
      ReopenSteps();
      if recorded {
        RestoreSteps();
      }
      finished := recorded && AllHave(steps, Executed);
    }

    /** The completion time is `COALESCE(?, completed_at)`. */
    method UpdateRun(status: RunStatus, complete: bool)
      modifies this`run
      ensures Contents() == Happen(old(Contents()), SetRun(status, complete))
    {
      run := RunRow(status, if complete then true else run.completed);
    }

    method RecordOutcome()
      modifies this`outcome
      ensures Contents() == Happen(old(Contents()), Event.RecordOutcome)
    {
      outcome := true;
    }

    method AddPersonaInsight()
      modifies this`insights
      ensures Contents() == Happen(old(Contents()), AddInsight)
    {
      insights := insights + 1;
    }

    method SnapshotEnvelope()
      requires loaded
      modifies this`saved
      ensures Contents() == Happen(old(Contents()), SaveSnapshot)
    {
      saved := Memory(steps, planStatus, actionStatus, history);
    }

    method AddRecord(agent: string)
      requires loaded
      modifies this`history
      ensures Contents() == Happen(old(Contents()), Event.AddRecord(agent))
    {
      history := history + [agent];
    }

    /** Record the execution; the process may end after any of the commits. */
    method Record(results: seq<StepRow>, fate: Fate, ghost events: seq<Event>) returns (alive: bool)
      requires loaded && results == RowsFor(steps) && ExecutedEvents(events)
      modifies this`history, this`rows, this`recorded, this`run, this`saved
      ensures Contents() == After(old(Contents()), events, Reached(fate, 4)) && loaded
      ensures alive <==> fate.Lives? || fate.events >= 4
      ensures steps == old(steps)
    {
      ghost var s := Contents();
      alive := false;
      if fate.Dies? && fate.events == 0 { return; }
      AddRecord("execution_agent");
      assert Contents() == After(s, events, 1);
      if fate.Dies? && fate.events == 1 { return; }
      RecordExecution(results);
      assert Contents() == After(s, events, 2);
      if fate.Dies? && fate.events == 2 { return; }
      UpdateRun(Running, false);
      assert Contents() == After(s, events, 3);
      if fate.Dies? && fate.events == 3 { return; }
      SnapshotEnvelope();
      alive := true;
    }

    /** Record the outcome of the evaluation and complete the run; the process may end after any of the commits. */
    method HandleEvaluatorResult(fate: Fate, ghost events: seq<Event>)
      requires loaded && EvaluatedEvents(events) && (fate.Dies? ==> fate.events >= 4)
      modifies this`history, this`outcome, this`insights, this`run, this`saved
      ensures Contents() == After(old(Contents()), events, Reached(fate, 9) - 4) && loaded
    {
      ghost var s := Contents();
      if fate.Dies? && fate.events == 4 { return; }
      AddRecord("evaluator_agent");
      assert Contents() == After(s, events, 1);
      if fate.Dies? && fate.events == 5 { return; }
      RecordOutcome();
      assert Contents() == After(s, events, 2);
      if fate.Dies? && fate.events == 6 { return; }
      AddPersonaInsight();
      assert Contents() == After(s, events, 3);
      if fate.Dies? && fate.events == 7 { return; }
      UpdateRun(Completed, true);
      assert Contents() == After(s, events, 4);
      if fate.Dies? && fate.events == 8 { return; }
      SnapshotEnvelope();
    }

    /** What follows the execution agent, until the process ends. */
    method Conclude(raised: Option<bool>, results: seq<StepRow>, fate: Fate)
      requires loaded && (raised.None? ==> results == RowsFor(steps))
      modifies this`history, this`rows, this`recorded, this`outcome, this`insights, this`run, this`saved
      ensures Contents() == Conclusion(old(Contents()), raised.Some?, fate) && loaded
    {
      ghost var s := Contents();
      if raised.Some? {
        if !(fate.Dies? && fate.events == 0) {
          UpdateRun(RunFailed, true);
          assert Contents() == After(s, FAILED, 1);
        }
        return;
      }
      var alive := Record(results, fate, EXECUTED);
      ConclusionSplits(s, fate);
      if !alive {
        return;
      }
      if fate.evaluatorRaises {
        if !(fate.Dies? && fate.events == 4) {
          UpdateRun(RunFailed, true);
          assert Contents() == After(After(s, EXECUTED, 4), FAILED, 1);
        }
        return;
      }
      HandleEvaluatorResult(fate, EVALUATED);
    }

    /** Approve the plan and prepare its steps. */
    method Ready() returns (finished: bool)
      requires loaded
      modifies this`steps, this`planStatus, this`actionStatus
      ensures Contents() == Readied(old(Contents())) && finished == Finished(old(Contents()))
    {
      finished := PrepareSteps();
      actionStatus := Approved;
      planStatus := Approved;
    }

    method ResumeAfterApproval(fate: Fate)
      requires loaded && DistinctIds(steps)
      modifies this, crm
      ensures Contents() == Resume(ctx, env, old(Contents()), fate)
    {
      var finished := Ready();
      if !finished {
        assert forall k :: 0 <= k < |steps| ==> steps[k].id == old(steps)[k].id;
        var raised, results := ExecuteWithStepAudit();
        Conclude(raised, results, fate);
      }
      assert Contents() == Progress(ctx, env, old(Contents()), fate);
      if fate.Dies? {
        EndProcess();
      }
    }

    method MarkSteps(scope: Option<string>, status: StepStatus)
      modifies this`steps
      ensures steps == Mark(old(steps), scope, status)
    {
      for i := 0 to |steps|
        invariant |steps| == |old(steps)|
        invariant forall j :: 0 <= j < i ==> steps[j] == Mark(old(steps), scope, status)[j]
        invariant forall j :: i <= j < |steps| ==> steps[j] == old(steps)[j]
      {
        if scope.None? || steps[i].id == scope.value {
          steps := steps[i := steps[i].WithStatus(status)];
        }
      }
    }

    method MarkApproved(scope: Option<string>)
      requires loaded
      modifies this`steps, this`planStatus, this`actionStatus
      ensures InMemory() == ApproveIn(old(InMemory()), scope)
    {
      MarkSteps(scope, Approved);
      if scope.None? {
        actionStatus := Approved;
        planStatus := Approved;
      } else if AllHave(steps, Approved) {
        planStatus := Approved;
      }
    }

    /** Approve the action or one of its steps, then resume; an unknown action is an error. */
    method ApproveAction(action: string, scope: Option<string>, fate: Fate) returns (found: bool)
      requires DistinctIds(Contents().memory.steps)
      modifies this, crm
      ensures found <==> action == actionId
      ensures Contents() == if found then Step(ctx, env, old(Contents()), Approve(scope, fate)) else old(Contents())
    {
      if action != actionId {
        return false;
      }
      LoadEnvelope();
      MarkApproved(scope);
      ghost var marked := Contents();
      assert marked == old(Contents()).(memory := ApproveIn(old(InMemory()), scope));
      ResumeAfterApproval(fate);
      assert Contents() == Resume(ctx, env, marked, fate);
      found := true;
    }

    /** Reject the action or one of its steps; an unknown action is an error. */
    method RejectAction(action: string, scope: Option<string>) returns (found: bool)
      modifies this`loaded, this`steps, this`planStatus, this`actionStatus, this`history
      ensures found <==> action == actionId
      ensures Contents() == if found then Step(ctx, env, old(Contents()), Reject(scope)) else old(Contents())
      ensures found ==> Rejects(old(Contents()).memory, Contents().memory, scope)
    {
      if action != actionId {
        return false;
      }
      LoadEnvelope();
      if scope.None? {
        actionStatus := Rejected;
        planStatus := Rejected;
      }
      MarkSteps(scope, Rejected);
      RejectExactly(ctx, env, old(Contents()), scope);
      found := true;
    }
  }

  /** The events of an execution that did not raise: its record, then the evaluation or its failure. */
  lemma ConclusionSplits(s: Session, fate: Fate)
    ensures var m := Reached(fate, if fate.evaluatorRaises then 5 else 9);
            var recorded := After(s, EXECUTED, Reached(fate, 4));
            Conclusion(s, false, fate)
            == if m <= 4 then recorded else After(recorded, if fate.evaluatorRaises then FAILED else EVALUATED, m - 4)
  {
    EventAt(fate.evaluatorRaises);
    var events, rest := Events(false, fate.evaluatorRaises), if fate.evaluatorRaises then FAILED else EVALUATED;
    AfterOfTwo(s, EXECUTED, rest, Reached(fate, |events|));
  }

  lemma {:induction false} AfterOfTwo(s: Session, first: seq<Event>, second: seq<Event>, n: nat)
    requires n <= |first| + |second|
    ensures After(s, first + second, n)
         == if n <= |first| then After(s, first, n) else After(After(s, first, |first|), second, n - |first|)
  {
    if n > 0 { AfterOfTwo(s, first, second, n - 1); }
  }

  lemma SameOrdersSameOrdering(s: seq<ActionStep>, t: seq<ActionStep>)
    requires |s| == |t| && forall i :: 0 <= i < |s| ==> s[i].order == t[i].order
    ensures Ordered(s) == Ordered(t)
  {
    SameKeysSameSort(s, t, UpTo(|s|));
  }

  lemma {:induction false} SameKeysSameSort(s: seq<ActionStep>, t: seq<ActionStep>, idx: seq<int>)
    requires forall i :: OrderAt(s, i) == OrderAt(t, i)
    ensures Sort(idx, OrderKey(s)) == Sort(idx, OrderKey(t))
  {
    if idx != [] {
      SameKeysSameSort(s, t, idx[..|idx| - 1]);
      SameKeysSameInsert(s, t, Sort(idx[..|idx| - 1], OrderKey(s)), idx[|idx| - 1]);
    }
  }

  lemma {:induction false} SameKeysSameInsert(s: seq<ActionStep>, t: seq<ActionStep>, idx: seq<int>, x: int)
    requires forall i :: OrderAt(s, i) == OrderAt(t, i)
    ensures Insert(idx, x, OrderKey(s)) == Insert(idx, x, OrderKey(t))
  {
    if idx != [] { SameKeysSameInsert(s, t, idx[..|idx| - 1], x); }
  }

  lemma NextAttempts(ctx: Context, env: Environment, w: World, steps: seq<ActionStep>, retries: nat)
    ensures var p := Attempt(ctx, env, w, steps);
            Attempts(ctx, env, w, steps, retries)
            == if p.raised == Some(false) && retries > 0 then Attempts(ctx, env, p.world, p.steps, retries - 1) else p
  {
  }

  lemma AttemptKeepsIds(ctx: Context, env: Environment, w: World, steps: seq<ActionStep>)
    requires DistinctIds(steps)
    ensures DistinctIds(Attempt(ctx, env, w, steps).steps)
  {
    if steps != [] { ExecuteAtKeepsBalance(ctx, env, w, steps, Ordered(steps), 0); }
  }
}
