/**
 Running a workflow: which steps are handled, what plan they leave behind and what the run row
 says when the call returns.
 */
module Workflow {
  import opened Options
  import opened Policy
  import opened Execution
  import opened ExecutionResults
  import opened Approval
  import opened ApprovalResults
  import opened RunRecords
  import opened ApprovalTheorems
  import opened ApprovalRules
  import Crm
  import CrmNotes
  import ExecutionNotes

  datatype StepName =
    | SignalAgent | ContextAgent | StrategistAgent | InterventionAgent
    | ActionAgent | CrmAgent | ExecutionAgent | EvaluatorAgent
    | OtherStep(name: string)

  // ----- Validation -----

  datatype Validation = Valid | NoEvaluator | NoExecution | WrongOrder

  function IndexOf(steps: seq<StepName>, x: StepName): (i: nat)
    ensures i <= |steps| && (i < |steps| ==> steps[i] == x) && (forall j :: 0 <= j < i ==> steps[j] != x)
  {
    if steps == [] || steps[0] == x then 0 else 1 + IndexOf(steps[1..], x)
  }

  function Validate(steps: seq<StepName>): Validation {
    if EvaluatorAgent !in steps then NoEvaluator
    else if ExecutionAgent !in steps then NoExecution
    else if IndexOf(steps, ExecutionAgent) > IndexOf(steps, EvaluatorAgent) then WrongOrder
    else Valid
  }

  /** A list is accepted exactly when it has an execution step before every evaluation step, and an evaluation step. */
  lemma ValidationExact(steps: seq<StepName>)
    ensures Validate(steps) == Valid
       <==> exists i, j :: 0 <= i < j < |steps| && steps[i] == ExecutionAgent && steps[j] == EvaluatorAgent
                           && forall k :: 0 <= k < i ==> steps[k] != EvaluatorAgent
  {
    if Validate(steps) == Valid {
      var i, j := IndexOf(steps, ExecutionAgent), IndexOf(steps, EvaluatorAgent);
      assert i < |steps| && j < |steps| && steps[i] == ExecutionAgent && steps[j] == EvaluatorAgent;
    }
  }

  // ----- The agents of a run -----

  /**
   What the agents of a run do: which calls fail, and the plan that an action or CRM agent returns with
   its confidence in it; and the threshold that the orchestrator holds the confidence against.
   */
  datatype Agents = Agents(fails: nat -> bool, plan: seq<ActionStep>, confidence: real, threshold: real,
          evaluatorRaises: bool)

  predicate Planner(step: StepName) {
    step.ActionAgent? || step.CrmAgent?
  }

  predicate NoOp(step: StepName) {
    step.ExecutionAgent? || step.EvaluatorAgent?
  }

  /** The handler of the step at `i` raises: its agent does, its plan is empty, or there is no such step. */
  predicate HandlerRaises(steps: seq<StepName>, agents: Agents, i: nat)
    requires i < |steps|
  {
    steps[i].OtherStep? || (!NoOp(steps[i]) && agents.fails(i)) || (Planner(steps[i]) && agents.plan == [])
  }

  /** How many steps are handled: up to the first planner or the first failure, and that one. */
  function Reach(steps: seq<StepName>, agents: Agents, i: nat): (n: nat)
    requires i <= |steps|
    ensures i <= n <= |steps|
    decreases |steps| - i
  {
    if i == |steps| then i
    else if HandlerRaises(steps, agents, i) || Planner(steps[i]) then i + 1
    else Reach(steps, agents, i + 1)
  }

  lemma {:induction false} ReachStopsAtFirst(steps: seq<StepName>, agents: Agents, i: nat)
    requires i <= |steps|
    ensures var n := Reach(steps, agents, i);
            && (forall k :: i <= k < n - 1 ==> !HandlerRaises(steps, agents, k) && !Planner(steps[k]))
            && (i < n ==> n == |steps| || HandlerRaises(steps, agents, n - 1) || Planner(steps[n - 1]))
    decreases |steps| - i
  {
    if i < |steps| && !(HandlerRaises(steps, agents, i) || Planner(steps[i])) {
      ReachStopsAtFirst(steps, agents, i + 1);
    }
  }

  function NameOf(step: StepName): string {
    match step
    case SignalAgent => "signal_agent"
    case ContextAgent => "context_agent"
    case StrategistAgent => "strategist_agent"
    case InterventionAgent => "intervention_agent"
    case ActionAgent => "action_agent"
    case CrmAgent => "crm_agent"
    case ExecutionAgent => "execution_agent"
    case EvaluatorAgent => "evaluator_agent"
    case OtherStep(name) => name
  }

  /** The history records that handling the steps leaves: one per agent, none for the two no-ops. */
  function Records(steps: seq<StepName>): seq<string> {
    if steps == [] then []
    else Records(steps[..|steps| - 1]) + (if NoOp(steps[|steps| - 1]) then [] else [NameOf(steps[|steps| - 1])])
  }

  // ----- The plan a planner leaves -----

  function NewPlan(plan: seq<ActionStep>, status: StepStatus, history: seq<string>): Memory {
    Memory(Mark(plan, None, status), status, status, history)
  }

  predicate RequiresApproval(confidence: real, threshold: real) {
    confidence < threshold
  }

  function NewSession(agents: Agents, step: StepName, history: seq<string>, crm: Crm.Store): Session {
    var approved := step.CrmAgent? || !RequiresApproval(agents.confidence, agents.threshold);
    var m := NewPlan(agents.plan, if approved then Approved else PendingApproval, history);
    Session(m, m, [], false, false, 0, RunRow(if approved then Running else WaitingApproval, false), World(crm, []))
  }

  /**
   What the call returns: the run row, the steps handled, the action if one was created, whether it
   raised, and the adapters.
   */
  datatype RunResult = RunResult(run: RunRow, handled: seq<StepName>, action: Option<Session>, raised: bool,
          world: World)

  /** The session that a planner hands back: waiting, approved, or already executed for the CRM agent. */
  function Planned(agents: Agents, step: StepName, history: seq<string>, ctx: Context, env: Environment,
          crm: Crm.Store): Session {
    var session := NewSession(agents, step, history, crm);
    if step.CrmAgent? then Snapped(Resume(ctx, env, session, Lives(agents.evaluatorRaises))) else session
  }

  /** If the resume raised, the run takes a further snapshot. */
  function Snapped(s: Session): Session {
    if s.run.status == RunFailed then s.(saved := s.memory) else s
  }

  /** The result of a run that handled exactly `handled`, ending normally or with the last handler raising. */
  function Ending(handled: seq<StepName>, failed: bool, agents: Agents, ctx: Context, env: Environment,
          crm: Crm.Store): RunResult {
    if failed then RunResult(RunRow(RunFailed, true), handled, None, true, World(crm, []))
    else if handled != [] && Planner(handled[|handled| - 1]) then
      var session := Planned(agents, handled[|handled| - 1], Records(handled), ctx, env, crm);
      RunResult(session.run, handled, Some(session), session.run.status == RunFailed, session.world)
    else RunResult(RunRow(Running, false), handled, None, false, World(crm, []))
  }

  /** Every step of the plan, with this status and as the agent returned it otherwise. */
  predicate PlanWith(steps: seq<ActionStep>, plan: seq<ActionStep>, status: StepStatus) {
    |steps| == |plan| && forall k :: 0 <= k < |plan| ==> steps[k] == plan[k].(status := status)
  }

  /**
   The approval gate of a run: an action agent's plan waits, with its run, exactly if the confidence in
   it is below the threshold, and is approved otherwise.  A CRM agent's plan never waits.
   */
  predicate Gated(r: RunResult, agents: Agents) {
    r.action.Some? && r.handled != [] ==>
      var m, last := r.action.value.memory, r.handled[|r.handled| - 1];
      if last.ActionAgent? && agents.confidence < agents.threshold then
        && PlanWith(m.steps, agents.plan, PendingApproval) && m.planStatus == m.actionStatus == PendingApproval
        && r.run == RunRow(WaitingApproval, false)
      else if last.ActionAgent? then
        && PlanWith(m.steps, agents.plan, Approved) && m.planStatus == m.actionStatus == Approved
        && r.run == RunRow(Running, false)
      else last.CrmAgent? && m.planStatus == m.actionStatus == Approved && r.run.status != WaitingApproval
  }

  predicate LastRaises(steps: seq<StepName>, agents: Agents, n: nat)
    requires n <= |steps|
  {
    n > 0 && HandlerRaises(steps, agents, n - 1)
  }

  /** The last handled step created the action; the CRM agent also resumed it. */
  method FinishWithPlan(handled: seq<StepName>, history: seq<string>, agents: Agents, ctx: Context, env: Environment,
          crm: Crm.Store)
    returns (r: RunResult)
    requires handled != [] && Planner(handled[|handled| - 1]) && history == Records(handled)
    ensures r == Ending(handled, false, agents, ctx, env, crm)
  {
    var step := handled[|handled| - 1];
    var session := NewSession(agents, step, history, crm);
    if step.CrmAgent? {
      session := Resume(ctx, env, session, Lives(agents.evaluatorRaises));
      if session.run.status == RunFailed {
        session := session.(saved := session.memory);
      }
    }
    r := RunResult(session.run, handled, Some(session), session.run.status == RunFailed, session.world);
  }

  /**
   The loop over the steps of a triggered run: how many were handled, the history they left, whether
   the last one raised.
   */
  method HandleSteps(steps: seq<StepName>, agents: Agents) returns (n: nat, history: seq<string>, raised: bool)
    ensures n == Reach(steps, agents, 0)
    ensures raised == LastRaises(steps, agents, n)
    ensures !raised ==> history == Records(steps[..n])
    ensures raised || n == |steps| || (n > 0 && Planner(steps[n - 1]))
  {
    n, history, raised := 0, [], false;
    while n < |steps|
      invariant 0 <= n <= |steps| && Reach(steps, agents, 0) == Reach(steps, agents, n) && !raised
      invariant history == Records(steps[..n])
      invariant n > 0 ==> !HandlerRaises(steps, agents, n - 1) && !Planner(steps[n - 1])
    {
      var step := steps[n];
      assert steps[..n + 1][..n] == steps[..n];
      n := n + 1;
      if HandlerRaises(steps, agents, n - 1) {
        raised := true;
        return;
      }
      if !NoOp(step) {
        history := history + [NameOf(step)];
      }
      if Planner(step) {
        return;
      }
    }
  }

  /** Run the workflow; `None` when its definition is refused before any run is created. */
  method RunWorkflow(steps: seq<StepName>, triggered: bool, agents: Agents, ctx: Context, env: Environment,
          crm: Crm.Store)
    returns (result: Option<RunResult>)
    ensures result.None? <==> Validate(steps) != Valid
    ensures result.Some? && !triggered
        ==> result.value == RunResult(RunRow(Skipped, true), [], None, false, World(crm, []))
    ensures result.Some? && triggered ==>
              var n := Reach(steps, agents, 0);
              result.value == Ending(steps[..n], LastRaises(steps, agents, n), agents, ctx, env, crm)
    ensures result.Some? ==> Gated(result.value, agents)
  {
    if Validate(steps) != Valid {
      return None;
    }
    if !triggered {
      return Some(RunResult(RunRow(Skipped, true), [], None, false, World(crm, [])));
    }
    var n, history, raised := HandleSteps(steps, agents);
    if raised {
      return Some(RunResult(RunRow(RunFailed, true), steps[..n], None, true, World(crm, [])));
    }
    if n > 0 && Planner(steps[n - 1]) {
      var r := FinishWithPlan(steps[..n], history, agents, ctx, env, crm);
      ApprovalGateExactly(steps[..n], false, agents, ctx, env, crm);
      return Some(r);
    }
    result := Some(RunResult(RunRow(Running, false), steps[..n], None, false, World(crm, [])));
  }

  /** Every result of a run keeps the approval gate. */
  lemma ApprovalGateExactly(handled: seq<StepName>, failed: bool, agents: Agents, ctx: Context, env: Environment,
          crm: Crm.Store)
    ensures Gated(Ending(handled, failed, agents, ctx, env, crm), agents)
  {
    hide Resume, Records, NewSession, PlanWith;
    if !failed && handled != [] && Planner(handled[|handled| - 1]) {
      var step := handled[|handled| - 1];
      var s := NewSession(agents, step, Records(handled), crm);
      NewActionExactly(agents, step, Records(handled), crm);
      if step.CrmAgent? { LivingResumeIsApproved(ctx, env, s, agents.evaluatorRaises); }
    }
  }

  lemma LivingResumeIsApproved(ctx: Context, env: Environment, s: Session, evaluatorRaises: bool)
    requires s.run.status == Running
    ensures var t := Resume(ctx, env, s, Lives(evaluatorRaises));
            t.memory.planStatus == t.memory.actionStatus == Approved && t.run.status != WaitingApproval
  {
    if !Finished(s) {
      var p, fate := Execute(ctx, env, s), Lives(evaluatorRaises);
      var executed := AfterExecution(Readied(s), p);
      ConclusionExactly(executed, p.raised.Some?, fate);
      CommitsExactly(executed, 9);
      CommitsExactly(executed, 4);
    }
  }

  /**
   The action that a planner creates, before any resume: the plan, waiting or approved, is in memory and
   in the snapshot, and nothing else is there.
   */
  lemma NewActionExactly(agents: Agents, step: StepName, history: seq<string>, crm: Crm.Store)
    ensures var s, waits := NewSession(agents, step, history, crm),
                            !step.CrmAgent? && agents.confidence < agents.threshold;
            var status := if waits then PendingApproval else Approved;
            && PlanWith(s.memory.steps, agents.plan, status)
            && s.memory == s.saved == Memory(s.memory.steps, status, status, history)
            && s == Session(s.memory, s.saved, [], false, false, 0,
                            RunRow(if waits then WaitingApproval else Running, false), World(crm, []))
  {
  }

  /** Whatever the agents do, the run row of the result is closed exactly when its status is terminal. */
  lemma EndingIsClosed(handled: seq<StepName>, failed: bool, agents: Agents, ctx: Context, env: Environment,
          crm: Crm.Store)
    ensures Closed(Ending(handled, failed, agents, ctx, env, crm).run)
  {
    if !failed && handled != [] && handled[|handled| - 1].CrmAgent? {
      LivingResumeCloses(ctx, env, NewSession(agents, CrmAgent, Records(handled), crm), agents.evaluatorRaises);
    }
  }

  lemma LivingResumeCloses(ctx: Context, env: Environment, s: Session, evaluatorRaises: bool)
    requires Closed(s.run)
    ensures Closed(Resume(ctx, env, s, Lives(evaluatorRaises)).run)
  {
    if !Finished(s) {
      var p, fate := Execute(ctx, env, s), Lives(evaluatorRaises);
      var events := Events(p.raised.Some?, evaluatorRaises);
      EventsLeave(AfterExecution(Readied(s), p), events, |events|);
      if p.raised.Some? {
        FailedTotals(|events|);
      } else {
        EventAt(evaluatorRaises);
        TotalsAre(evaluatorRaises, |events|);
      }
    }
  }

  /** The run goes on after the step: a no-op, or one of the four agents before the planners that did not fail. */
  predicate GoesOn(step: StepName, fails: bool) {
    match step
    case ExecutionAgent => true
    case EvaluatorAgent => true
    case SignalAgent => !fails
    case ContextAgent => !fails
    case StrategistAgent => !fails
    case InterventionAgent => !fails
    case _ => false
  }

  /**
   The steps that a run handles are those up to the first after which it does not go on.  It fails
   before any action exactly if that one is unknown, its agent fails or its plan is empty.
   */
  lemma RunStopsExactly(steps: seq<StepName>, agents: Agents, ctx: Context, env: Environment, crm: Crm.Store)
    ensures var n := Reach(steps, agents, 0);
            var r := Ending(steps[..n], LastRaises(steps, agents, n), agents, ctx, env, crm);
            && r.handled == steps[..n]
            && (forall k :: 0 <= k < n - 1 ==> GoesOn(steps[k], agents.fails(k)))
            && (n < |steps| ==> n > 0 && !GoesOn(steps[n - 1], agents.fails(n - 1)))
            && var fails := n > 0 && !GoesOn(steps[n - 1], agents.fails(n - 1))
                            && (steps[n - 1].OtherStep? || agents.fails(n - 1) || agents.plan == []);
               && (fails ==> r.run == RunRow(RunFailed, true) && r.raised && r.action.None?)
               && (!fails && r.action.None? ==> r.run == RunRow(Running, false) && !r.raised)
               && (r.action.Some? <==> n > 0 && !fails && (steps[n - 1].ActionAgent? || steps[n - 1].CrmAgent?))
  {
    hide Planned, Records;
    ReachStopsAtFirst(steps, agents, 0);
    forall k | 0 <= k < |steps|
      ensures GoesOn(steps[k], agents.fails(k)) <==> !HandlerRaises(steps, agents, k) && !Planner(steps[k])
    {
    }
  }

  // ----- Which runs call the adapters -----

  /** A pass calls an adapter exactly if it meets a step that may be sent and is not done. */
  lemma {:induction false} ExecuteAtSendsSome(ctx: Context, env: Environment, w: World, steps: seq<ActionStep>,
          idx: seq<int>)
    requires Positions(idx, |steps|)
    ensures var p := ExecuteAt(ctx, env, w, steps, idx);
            && |w.log| <= |p.world.log|
            && (|w.log| < |p.world.log| <==> exists i :: 0 <= i < |idx| && Dispatches(ctx, steps[idx[i]]))
            && (p.raised.Some? ==> |w.log| < |p.world.log|)
    decreases |idx|
  {
    if idx != [] {
      var (next, step, raised) := ExecuteOne(ctx, env, w, steps[idx[0]]);
      OneIsHandled(ctx, env, w, steps[idx[0]]);
      var updated := steps[idx[0] := step];
      if raised.None? {
        ExecuteAtSendsSome(ctx, env, next, updated, idx[1..]);
        forall i | 1 <= i < |idx| ensures updated[idx[i]] == steps[idx[i]] && idx[1..][i - 1] == idx[i] {
          assert idx[0] != idx[i];
        }
      }
    }
  }

  /** So does an execution: without such a step nothing raises, and there is only one attempt. */
  lemma AttemptsSendSome(ctx: Context, env: Environment, w: World, steps: seq<ActionStep>, retries: nat)
    ensures var p := Attempts(ctx, env, w, steps, retries);
            && |w.log| <= |p.world.log|
            && (|w.log| < |p.world.log| <==> exists k :: 0 <= k < |steps| && Dispatches(ctx, steps[k]))
    decreases retries
  {
    var p := Attempt(ctx, env, w, steps);
    OrderedIsPermutation(steps);
    ExecuteAtSendsSome(ctx, env, w, steps, Ordered(steps));
    if k :| 0 <= k < |steps| && Dispatches(ctx, steps[k]) {
      assert k in Ordered(steps);
    }
    if p.raised == Some(false) && retries > 0 {
      AttemptsSendSome(ctx, env, p.world, p.steps, retries - 1);
    }
  }

  lemma NewPlanSendsSome(agents: Agents, history: seq<string>, ctx: Context, env: Environment, crm: Crm.Store)
    ensures Planned(agents, CrmAgent, history, ctx, env, crm).world.log != []
       <==> exists k :: 0 <= k < |agents.plan| && Allowed(agents.plan[k], ctx) && Supported(agents.plan[k])
  {
    var s, fate := NewSession(agents, CrmAgent, history, crm), Lives(agents.evaluatorRaises);
    var steps := Prepared(s);
    assert !Finished(s);
    ResumeLog(ctx, env, s, fate);
    AttemptsSendSome(ctx, env, s.world, steps, RETRIES);
    forall k | 0 <= k < |agents.plan|
      ensures Dispatches(ctx, steps[k]) <==> Allowed(agents.plan[k], ctx) && Supported(agents.plan[k])
    {
      SameStepSameGate(agents.plan[k], steps[k], ctx);
    }
  }

  /**
   A run creates a plan only with its last handled step, and calls adapters exactly when that is the
   CRM agent, it did not fail, and some step of its plan may be sent.
   */
  lemma OnlyCrmAgentDispatches(steps: seq<StepName>, agents: Agents, ctx: Context, env: Environment, crm: Crm.Store)
    ensures var n := Reach(steps, agents, 0);
            var r := Ending(steps[..n], LastRaises(steps, agents, n), agents, ctx, env, crm);
            && (forall k :: 0 <= k < n - 1 ==> !Planner(steps[k]) && !HandlerRaises(steps, agents, k))
            && (n < |steps| ==> Planner(steps[n - 1]) || HandlerRaises(steps, agents, n - 1))
            && (r.action.Some? <==> n > 0 && Planner(steps[n - 1]) && !HandlerRaises(steps, agents, n - 1))
            && (r.world.log != [] <==>
                  && n > 0 && steps[n - 1].CrmAgent? && !HandlerRaises(steps, agents, n - 1)
                  && exists k :: 0 <= k < |agents.plan| && Allowed(agents.plan[k], ctx) && Supported(agents.plan[k]))
  {
    var n := Reach(steps, agents, 0);
    ReachStopsAtFirst(steps, agents, 0);
    if n > 0 && steps[n - 1].CrmAgent? {
      NewPlanSendsSome(agents, Records(steps[..n]), ctx, env, crm);
    }
  }

  // ----- What a run starts -----

  /** A new action starts an approval run in which nothing was executed, recorded or dispatched. */
  lemma NewActionIsFresh(agents: Agents, step: StepName, history: seq<string>, crm: Crm.Store, ctx: Context)
    requires agents.plan != [] && DistinctIds(agents.plan) && CrmNotes.Exact(crm)
    requires forall k :: 0 <= k < |agents.plan| ==>
               ExecutionNotes.StepCacheKey(ctx.deal, agents.plan[k].id) !in crm.cache
    ensures Fresh(ctx, NewSession(agents, step, history, crm))
    ensures Closed(NewSession(agents, step, history, crm).run)
  {
    var m := NewSession(agents, step, history, crm).memory;
    assert forall k :: 0 <= k < |agents.plan| ==> m.steps[k].id == agents.plan[k].id;
  }

  /** What the run of a planner does with its action: nothing, or one whole-action approve and its snapshot. */
  function OwnOps(failed: bool, agents: Agents, step: StepName): seq<Op> {
    if !step.CrmAgent? then []
    else [Approve(None, Lives(agents.evaluatorRaises))] + (if failed then [SaveFailedRun] else [])
  }

  lemma OwnResumeIsApprove(ctx: Context, env: Environment, s: Session, fate: Fate)
    requires ApproveIn(s.memory, None) == s.memory
    ensures Resume(ctx, env, s, fate) == Step(ctx, env, s, Approve(None, fate))
  {
    assert Ready(s, Approve(None, fate)) == s;
  }

  lemma NewCrmActionIsApproved(agents: Agents, history: seq<string>, crm: Crm.Store)
    ensures var m := NewSession(agents, CrmAgent, history, crm).memory;
            ApproveIn(m, None) == m
  {
  }

  lemma SavingFailedRun(ctx: Context, env: Environment, s: Session)
    ensures Step(ctx, env, s, SaveFailedRun) == s.(saved := s.memory)
  {
  }

  lemma RunOfOwnOps(ctx: Context, env: Environment, s: Session, approve: Op)
    ensures var t := Step(ctx, env, s, approve);
            Snapped(t) == Run(ctx, env, s, [approve] + (if t.run.status == RunFailed then [SaveFailedRun] else []))
  {
    hide Step, Run;
    var t := Step(ctx, env, s, approve);
    RunOfOne(ctx, env, s, approve);
    assert [approve] + [] == [approve];
    if t.run.status == RunFailed {
      RunOfNext(ctx, env, s, [approve], SaveFailedRun);
      SavingFailedRun(ctx, env, t);
    }
  }

  /** All that holds of approvals of a new action holds of an action that the CRM agent executed itself. */
  lemma PlannedIsRun(agents: Agents, step: StepName, history: seq<string>, ctx: Context, env: Environment,
          crm: Crm.Store)
    ensures var s, t := NewSession(agents, step, history, crm), Planned(agents, step, history, ctx, env, crm);
            t == Run(ctx, env, s, OwnOps(t.run.status == RunFailed, agents, step))
  {
    var s, fate := NewSession(agents, step, history, crm), Lives(agents.evaluatorRaises);
    if step.CrmAgent? {
      NewCrmActionIsApproved(agents, history, crm);
      OwnResumeIsApprove(ctx, env, s, fate);
      RunOfOwnOps(ctx, env, s, Approve(None, fate));
    }
  }

  // ----- Approvals under a higher cap -----

  /** What holds of a session under a medium cap holds of it under a high one, which blocks less. */
  lemma CapMayRise(ctx: Context, plan: seq<ActionStep>, s: Session, losses: nat)
    requires SessionOk(ctx.(maxTier := Medium), plan, s, losses)
    ensures SessionOk(ctx.(maxTier := High), plan, s, losses)
  {
    var low, high := ctx.(maxTier := Medium), ctx.(maxTier := High);
    forall k | 0 <= k < |plan| ensures SuccessesOk(high, s, plan[k], losses) {
      assert SuccessesOk(low, s, plan[k], losses);
      MediumIsMonotone(plan[k], ctx);
    }
  }

  lemma BoundOfOk(ctx: Context, plan: seq<ActionStep>, s: Session, losses: nat, k: nat)
    requires SessionOk(ctx, plan, s, losses) && k < |plan|
    ensures Wins(s.world.log, plan[k].id) <= 1 + losses && (losses == 0 ==> Settled(s.world.log, plan[k].id))
  {
    assert SuccessesOk(ctx, s, plan[k], losses);
  }

  /** Calls under a medium cap, then calls under a high one: the bound on successes carries over. */
  lemma RaisedCapKeepsBound(ctx: Context, env: Environment, s: Session, own: seq<Op>, mid: Session, ops: seq<Op>,
          k: nat)
    requires Fresh(ctx.(maxTier := Medium), s) && k < |s.memory.steps|
    requires mid == Run(ctx.(maxTier := Medium), env, s, own)
    ensures var low, high := ctx.(maxTier := Medium), ctx.(maxTier := High);
            var lost, log := Losses(low, env, s, own) + Losses(high, env, mid, ops), Run(high, env, mid, ops).world.log;
            && Wins(log, s.memory.steps[k].id) <= 1 + lost
            && (lost == 0 ==> Settled(log, s.memory.steps[k].id))
  {
    hide SessionOk, Fresh, Run, Losses, Wins, Settled;
    var low, high, plan := ctx.(maxTier := Medium), ctx.(maxTier := High), s.memory.steps;
    RunKeepsOk(low, env, s, own);
    CapMayRise(ctx, plan, mid, Losses(low, env, s, own));
    RunFromKeepsOk(high, env, plan, mid, Losses(low, env, s, own), ops);
    BoundOfOk(high, plan, Run(high, env, mid, ops), Losses(low, env, s, own) + Losses(high, env, mid, ops), k);
  }

  /**
   The run of a CRM agent executes its plan under the cap of its own workflow, medium, and later
   approvals under that of the follow-up workflow, high.
   */
  lemma OwnResumeThenApprovals(agents: Agents, history: seq<string>, ctx: Context, env: Environment, crm: Crm.Store,
          ops: seq<Op>, k: nat)
    requires k < |agents.plan| && DistinctIds(agents.plan) && CrmNotes.Exact(crm)
    requires forall i :: 0 <= i < |agents.plan| ==>
               ExecutionNotes.StepCacheKey(ctx.deal, agents.plan[i].id) !in crm.cache
    ensures var low, high := ctx.(maxTier := Medium), ctx.(maxTier := High);
            var s := NewSession(agents, CrmAgent, history, crm);
            var mid := Planned(agents, CrmAgent, history, low, env, crm);
            var own := OwnOps(mid.run.status == RunFailed, agents, CrmAgent);
            var lost, log := Losses(low, env, s, own) + Losses(high, env, mid, ops), Run(high, env, mid, ops).world.log;
            && Wins(log, agents.plan[k].id) <= 1 + lost
            && (lost == 0 ==> Settled(log, agents.plan[k].id))
  {
    hide Fresh, Run, Losses, Wins, Settled, Planned, NewSession;
    var low, s := ctx.(maxTier := Medium), NewSession(agents, CrmAgent, history, crm);
    var mid := Planned(agents, CrmAgent, history, low, env, crm);
    NewActionIsFresh(agents, CrmAgent, history, crm, low);
    NewSessionKeepsIds(agents, CrmAgent, history, crm, k);
    PlannedIsRun(agents, CrmAgent, history, low, env, crm);
    RaisedCapKeepsBound(ctx, env, s, OwnOps(mid.run.status == RunFailed, agents, CrmAgent), mid, ops, k);
  }

  lemma NewSessionKeepsIds(agents: Agents, step: StepName, history: seq<string>, crm: Crm.Store, k: nat)
    requires k < |agents.plan|
    ensures var steps := NewSession(agents, step, history, crm).memory.steps;
            |steps| == |agents.plan| && steps[k].id == agents.plan[k].id
  {
  }
}
