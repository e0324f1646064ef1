/**
 Concrete runs in which something one would expect does not hold: a second send, a note that is
 lost or swallowed, a rejected step that is sent, a run row and an outcome that stay wrong.
 */
module FailingRuns {
  import opened Counts
  import opened Options
  import opened Policy
  import opened Execution
  import opened ExecutionResults
  import opened ExecutionNotes
  import opened Approval
  import opened ApprovalResults
  import opened RunRecords
  import opened ApprovalTheorems
  import opened ApprovalNotes
  import Crm
  import CrmNotes
  import CrmResults

  // ----- The sessions and environments of the runs -----

  const PLAIN := Content("note", false, false, false, 0)

  function Mail(id: string, order: int): ActionStep {
    ActionStep(id, order, Email, SendEmail, PLAIN, Approved, 0, NoReceipt, None)
  }

  function CrmStep(id: string, order: int): ActionStep {
    ActionStep(id, order, Policy.Crm, UpdateCrm, PLAIN, Approved, 0, NoReceipt, None)
  }

  function Reviewed(deal: string): Context {
    Context(deal, {Email, Policy.Crm, Sms}, Low, false)
  }

  function NewAction(steps: seq<ActionStep>): Session {
    var m := Memory(steps, Approved, Approved, ["action_agent"]);
    Session(m, m, [], false, false, 0, RunRow(Running, false), World(Crm.EMPTY_STORE, []))
  }

  /** The adapters react as listed, and answer with success from then on. */
  function Script(reactions: seq<Reaction>): Environment {
    n => Signal(if 0 <= n < |reactions| then reactions[n] else Answers(true), "", 0)
  }

  lemma NewActionIsFresh(deal: string, steps: seq<ActionStep>)
    requires steps != [] && DistinctIds(steps) && forall k :: 0 <= k < |steps| ==> steps[k].status != Executed
    ensures Fresh(Reviewed(deal), NewAction(steps))
    ensures SessionOk(Reviewed(deal), steps, NewAction(steps), 0)
  {
    CrmNotes.EmptyStoreIsExact();
    assert Run(Reviewed(deal), AllAnswer(true), NewAction(steps), []) == NewAction(steps);
    RunKeepsOk(Reviewed(deal), AllAnswer(true), NewAction(steps), []);
  }

  /** An e-mail step that the gates let through. */
  predicate MailStep(ctx: Context, step: ActionStep) {
    step.channel == Email && step.action == SendEmail && Allowed(step, ctx)
  }

  lemma MailsAreSendable(deal: string, id: string, order: int)
    ensures Allowed(Mail(id, order), Reviewed(deal)) && Supported(Mail(id, order))
    ensures Allowed(CrmStep(id, order), Reviewed(deal)) && Supported(CrmStep(id, order))
  {
  }

  // ----- Plans of one step -----

  lemma OrderedOne(steps: seq<ActionStep>)
    requires |steps| == 1
    ensures Ordered(steps) == [0]
  {
  }

  /** An execution of a one-step plan whose adapter answers. */
  lemma OneStepExecution(ctx: Context, env: Environment, w: World, steps: seq<ActionStep>, retries: nat)
    requires |steps| == 1 && Dispatches(ctx, steps[0]) && env(|w.log|).reaction.Answers?
    ensures var p, (next, reply) := Attempts(ctx, env, w, steps, retries), Send(ctx, env, w, steps[0]);
            p.raised.None? && p.world == next && |p.steps| == 1 && (p.steps[0].Done() <==> reply == Delivered)
  {
    OrderedOne(steps);
    var (next, step, raised) := ExecuteOne(ctx, env, w, steps[0]);
    assert [0][1..] == [];
    assert ExecuteAt(ctx, env, next, steps[0 := step], []) == Pass(next, steps[0 := step], None);
  }

  lemma OneStepIsReady(ctx: Context, plan: seq<ActionStep>, s: Session, losses: nat, op: Op)
    requires SessionOk(ctx, plan, s, losses) && |plan| == 1 && !RowDone(s, plan[0].id) && op.Approve? && op.scope.None?
    ensures var ready := Ready(s, op);
            && |Prepared(ready)| == 1 && SameStep(plan[0], Prepared(ready)[0]) && !Prepared(ready)[0].Done()
            && !Finished(ready) && ready.world == s.world
  {
    ApproveKeepsOk(ctx, plan, s, None, losses);
    assert RowDone(Ready(s, op), plan[0].id) == RowDone(s, plan[0].id);
    PreparedStep(ctx, plan, Ready(s, op), losses, 0);
  }

  /** Approving a one-step plan whose step is allowed and whose rows do not read executed. */
  lemma OneStepApprove(ctx: Context, env: Environment, plan: seq<ActionStep>, s: Session, losses: nat, fate: Fate)
    requires SessionOk(ctx, plan, s, losses) && |plan| == 1 && Allowed(plan[0], ctx) && Supported(plan[0])
    requires !RowDone(s, plan[0].id) && env(|s.world.log|).reaction.Answers?
    requires fate.Lives? || fate.events >= 2
    ensures var op, (next, reply) := Approve(None, fate), Send(ctx, env, s.world, plan[0]);
            && Records(ctx, env, s, op)
            && Execute(ctx, env, Ready(s, op)).world == next
            && (RowDone(Step(ctx, env, s, op), plan[0].id) <==> reply == Delivered)
  {
    hide Step, SessionOk, Finished, Prepared, Send;
    var op := Approve(None, fate);
    var steps := Prepared(Ready(s, op));
    OneStepIsReady(ctx, plan, s, losses, op);
    SameStepSameGate(plan[0], steps[0], ctx);
    SameStepSameSend(ctx, env, s.world, plan[0], steps[0]);
    OneStepExecution(ctx, env, s.world, steps, RETRIES);
    RowsHappen(false, fate);
    EventAt(fate.evaluatorRaises);
    RecordedRowIsResult(ctx, env, plan, s, losses, op, 0);
  }

  lemma SameStepSameSend(ctx: Context, env: Environment, w: World, step: ActionStep, other: ActionStep)
    requires SameStep(step, other)
    ensures Send(ctx, env, w, step) == Send(ctx, env, w, other)
  {
  }

  /** After a recorded call a step's row reads executed exactly if the call left the step done. */
  lemma RecordedRowIsResult(ctx: Context, env: Environment, plan: seq<ActionStep>, s: Session, losses: nat, op: Op,
          k: nat)
    requires SessionOk(ctx, plan, s, losses) && k < |plan| && Records(ctx, env, s, op)
    ensures RowDone(Step(ctx, env, s, op), plan[k].id) <==> Execute(ctx, env, Ready(s, op)).steps[k].Done()
  {
    ApproveKeepsOk(ctx, plan, s, op.scope, losses);
    var p := Execute(ctx, env, Ready(s, op));
    forall i | 0 <= i < |plan| ensures p.steps[i].id == plan[i].id {
      ExecuteStep(ctx, env, plan, Ready(s, op), losses, i);
    }
    StepRows(ctx, env, s, op);
    RowsForCovers(p.steps, s.rows, k);
  }

  /** A one-step plan is done once its row is. */
  lemma OneRowIsAll(plan: seq<ActionStep>, s: Session)
    requires |plan| == 1 && RowDone(s, plan[0].id)
    ensures AllRowsDone(plan, s)
  {
  }

  /** A session with a one-step plan whose step may be sent. */
  ghost predicate OneStep(ctx: Context, plan: seq<ActionStep>, s: Session) {
    && |plan| == 1 && Allowed(plan[0], ctx) && Supported(plan[0])
    && SessionOk(ctx, plan, s, 0) && s.saved.history == s.memory.history
  }

  lemma FreshOneStep(ctx: Context, plan: seq<ActionStep>, s: Session)
    requires Fresh(ctx, s) && plan == s.memory.steps && |plan| == 1 && Allowed(plan[0], ctx) && Supported(plan[0])
    ensures OneStep(ctx, plan, s) && !RowDone(s, plan[0].id) && Run(ctx, AllAnswer(true), s, []) == s
  {
    assert Run(ctx, AllAnswer(true), s, []) == s;
    RunKeepsOk(ctx, AllAnswer(true), s, []);
  }

  /** An approve of a one-step plan that is recorded. */
  lemma OneStepIsRecorded(ctx: Context, env: Environment, plan: seq<ActionStep>, s: Session, fate: Fate)
    requires OneStep(ctx, plan, s) && !RowDone(s, plan[0].id)
    requires env(|s.world.log|).reaction.Answers? && (fate.Lives? || fate.events >= 2)
    ensures var op, (next, reply) := Approve(None, fate), Send(ctx, env, s.world, plan[0]);
            var after := Step(ctx, env, s, op);
            && Records(ctx, env, s, op)
            && OneStep(ctx, plan, after) && after.world.log == next.log
            && (fate.Lives? ==> after.world == next)
            && (RowDone(after, plan[0].id) <==> reply == Delivered)
  {
    hide Step, Execute, Send, SessionOk;
    var op := Approve(None, fate);
    OneStepApprove(ctx, env, plan, s, 0, fate);
    StepKeepsOk(ctx, env, plan, s, 0, op);
    StepLeaves(ctx, env, s, op);
    RecordedWorld(ctx, env, s, op);
  }

  lemma RecordedWorld(ctx: Context, env: Environment, s: Session, op: Op)
    requires Records(ctx, env, s, op)
    ensures Step(ctx, env, s, op).world.log == Execute(ctx, env, Ready(s, op)).world.log
    ensures op.fate.Lives? ==> Step(ctx, env, s, op).world == Execute(ctx, env, Ready(s, op)).world
  {
    ResumeWorld(ctx, env, Ready(s, op), op.fate);
  }

  // ----- A run row that is never closed -----

  lemma RunAfterRecord(ctx: Context, env: Environment, s: Session, op: Op)
    requires s.saved.history == s.memory.history && Records(ctx, env, s, op)
    ensures Raising(op.fate) ==> Step(ctx, env, s, op).run == RunRow(RunFailed, true)
    ensures Interrupting(op.fate) ==> Step(ctx, env, s, op).run == RunRow(Running, s.run.completed)
  {
    StepLeaves(ctx, env, s, op);
    RowsHappen(Execute(ctx, env, Ready(s, op)).raised.Some?, op.fate);
    EventAt(op.fate.evaluatorRaises);
    TotalsAre(op.fate.evaluatorRaises, OpReached(ctx, env, s, op));
  }

  lemma MailSend(ctx: Context, env: Environment, w: World, step: ActionStep)
    requires step.channel == Email && env(|w.log|).reaction.Answers?
    ensures var (next, reply) := Send(ctx, env, w, step);
            (reply == Delivered <==> env(|w.log|).reaction.ok) && |next.log| == |w.log| + 1
  {
  }

  /** The evaluator raises; the process ends after the status running was written. */
  predicate Raising(fate: Fate) {
    fate.Lives? && fate.evaluatorRaises
  }

  predicate Interrupting(fate: Fate) {
    fate.Dies? && !fate.evaluatorRaises && fate.events == 3
  }

  /** A mail step answered with a failure, or with a success. */
  lemma OneMail(ctx: Context, env: Environment, plan: seq<ActionStep>, s: Session, fate: Fate, after: Session)
    requires OneStep(ctx, plan, s) && !RowDone(s, plan[0].id) && plan[0].channel == Email
    requires env(|s.world.log|).reaction.Answers? && (Raising(fate) || Interrupting(fate))
    requires after == Step(ctx, env, s, Approve(None, fate))
    ensures OneStep(ctx, plan, after) && |after.world.log| == |s.world.log| + 1
    ensures RowDone(after, plan[0].id) <==> env(|s.world.log|).reaction.ok
    ensures after.run == if fate.Lives? then RunRow(RunFailed, true) else RunRow(Running, s.run.completed)
  {
    hide Step, SessionOk;
    MailSend(ctx, env, s.world, plan[0]);
    OneStepIsRecorded(ctx, env, plan, s, fate);
    RunAfterRecord(ctx, env, s, Approve(None, fate));
  }

  /** A one-step e-mail plan after its first adapter call: the run failed, and its row reads executed or not. */
  ghost predicate AfterFirstMail(ctx: Context, plan: seq<ActionStep>, s: Session, done: bool) {
    && OneStep(ctx, plan, s) && plan[0].channel == Email && (RowDone(s, plan[0].id) <==> done)
    && |s.world.log| == 1 && s.run == RunRow(RunFailed, true)
  }

  lemma FirstMail(ctx: Context, env: Environment, plan: seq<ActionStep>, s: Session, fate: Fate, mid: Session)
    requires Fresh(ctx, s) && plan == s.memory.steps && |plan| == 1 && MailStep(ctx, plan[0])
    requires env(0).reaction.Answers? && Raising(fate) && mid == Step(ctx, env, s, Approve(None, fate))
    ensures AfterFirstMail(ctx, plan, mid, env(0).reaction.ok)
    ensures !s.outcome ==> !mid.outcome
  {
    FreshOneStep(ctx, plan, s);
    OneMail(ctx, env, plan, s, fate, mid);
    if !s.outcome { MailEvaluatorRaises(ctx, env, plan, s, fate); }
  }

  lemma MailEvaluatorRaises(ctx: Context, env: Environment, plan: seq<ActionStep>, s: Session, fate: Fate)
    requires OneStep(ctx, plan, s) && !RowDone(s, plan[0].id) && env(|s.world.log|).reaction.Answers? && !s.outcome
    requires Raising(fate)
    ensures !Step(ctx, env, s, Approve(None, fate)).outcome
  {
    OneStepIsRecorded(ctx, env, plan, s, fate);
    RecordedCallDecides(ctx, env, s, Approve(None, fate));
  }

  /** Whatever is called from here on, the run row is this one, and the outcome row is there or not. */
  ghost predicate ForGood(ctx: Context, env: Environment, s: Session, run: RunRow, outcome: bool) {
    forall more: seq<Op> :: Run(ctx, env, s, more).run == run && Run(ctx, env, s, more).outcome == outcome
  }

  lemma DoneStepStays(ctx: Context, env: Environment, plan: seq<ActionStep>, s: Session)
    requires OneStep(ctx, plan, s) && RowDone(s, plan[0].id)
    ensures ForGood(ctx, env, s, s.run, s.outcome)
  {
    OneRowIsAll(plan, s);
    forall more: seq<Op> ensures Run(ctx, env, s, more).run == s.run && Run(ctx, env, s, more).outcome == s.outcome {
      DoneActionRunsQuiet(ctx, env, plan, s, 0, more);
    }
  }

  lemma InterruptedRowStaysOpen(ctx: Context, env: Environment, plan: seq<ActionStep>, mid: Session, fate: Fate,
          late: Session)
    requires AfterFirstMail(ctx, plan, mid, false) && env(1).reaction == Answers(true)
    requires Interrupting(fate) && late == Step(ctx, env, mid, Approve(None, fate))
    ensures ForGood(ctx, env, late, RunRow(Running, true), late.outcome)
  {
    hide Step, SessionOk;
    OneMail(ctx, env, plan, mid, fate, late);
    DoneStepStays(ctx, env, plan, late);
  }

  /**
   An attempt fails and its evaluator raises, so the run is failed with a completion time; the next
   one delivers, and its process ends after the status running was written.  From then on every
   call returns with a running row that has a completion time.
   */
  lemma RunRowStaysOpen(ctx: Context, env: Environment, s: Session, raises: Fate, mid: Session, dies: Fate,
          late: Session)
    requires Fresh(ctx, s) && |s.memory.steps| == 1 && MailStep(ctx, s.memory.steps[0])
    requires env(0).reaction == Answers(false) && env(1).reaction == Answers(true)
    requires Raising(raises) && mid == Step(ctx, env, s, Approve(None, raises))
    requires Interrupting(dies) && late == Step(ctx, env, mid, Approve(None, dies))
    ensures ForGood(ctx, env, late, RunRow(Running, true), late.outcome) && !Closed(RunRow(Running, true))
  {
    hide Step, SessionOk;
    FirstMail(ctx, env, s.memory.steps, s, raises, mid);
    InterruptedRowStaysOpen(ctx, env, s.memory.steps, mid, dies, late);
  }

  // ----- An execution that the history misses -----

  lemma TrailIsEmpty(ctx: Context, env: Environment, s: Session, op: Op)
    requires s.saved.history == s.memory.history && Records(ctx, env, s, op) && DiesBeforeSnapshot(op.fate)
    ensures Step(ctx, env, s, op).memory.history == s.memory.history
  {
    StepLeaves(ctx, env, s, op);
    RowsHappen(Execute(ctx, env, Ready(s, op)).raised.Some?, op.fate);
    EventAt(op.fate.evaluatorRaises);
    TotalsAre(op.fate.evaluatorRaises, OpReached(ctx, env, s, op));
  }

  /**
   A delivery is recorded and its process ends before the snapshot: the row is there, its history
   record in no snapshot.
   */
  lemma HistoryMissesExecution(ctx: Context, env: Environment, s: Session, fate: Fate, after: Session)
    requires Fresh(ctx, s) && |s.memory.steps| == 1 && MailStep(ctx, s.memory.steps[0])
    requires env(0).reaction == Answers(true) && DiesBeforeSnapshot(fate)
        && after == Step(ctx, env, s, Approve(None, fate))
    ensures RowDone(after, s.memory.steps[0].id) && after.memory.history == s.memory.history
  {
    hide Step, Fresh, SessionOk;
    var plan := s.memory.steps;
    FreshLog(ctx, s);
    FreshOneStep(ctx, plan, s);
    MailSend(ctx, env, s.world, plan[0]);
    OneStepIsRecorded(ctx, env, plan, s, fate);
    TrailIsEmpty(ctx, env, s, Approve(None, fate));
  }

  lemma FreshLog(ctx: Context, s: Session)
    requires Fresh(ctx, s)
    ensures s.world.log == []
  {
  }

  // ----- An outcome that is never recorded -----

  /**
   The evaluator raises on the execution that completes the plan: no later call records an outcome or
   completes the run.
   */
  lemma OutcomeStaysMissing(ctx: Context, env: Environment, s: Session, raises: Fate, after: Session)
    requires Fresh(ctx, s) && |s.memory.steps| == 1 && MailStep(ctx, s.memory.steps[0]) && !s.outcome
    requires env(0).reaction == Answers(true)
    requires Raising(raises) && after == Step(ctx, env, s, Approve(None, raises))
    ensures RowDone(after, s.memory.steps[0].id) && ForGood(ctx, env, after, RunRow(RunFailed, true), false)
  {
    FirstMail(ctx, env, s.memory.steps, s, raises, after);
    DoneStepStays(ctx, env, s.memory.steps, after);
  }

  // ----- A note that is lost -----

  /** A one-step CRM plan that may be sent and whose adapter answers. */
  predicate CrmPlan(ctx: Context, env: Environment, plan: seq<ActionStep>) {
    |plan| == 1 && plan[0].channel == Policy.Crm && plan[0].action == UpdateCrm && Allowed(plan[0], ctx)
        && env(0).reaction.Answers?
  }

  lemma CrmStepIsExecuted(ctx: Context, env: Environment, s: Session, fate: Fate)
    requires Fresh(ctx, s) && CrmPlan(ctx, env, s.memory.steps) && fate.Lives?
    ensures RowDone(Step(ctx, env, s, Approve(None, fate)), s.memory.steps[0].id)
  {
    var plan := s.memory.steps;
    FreshOneStep(ctx, plan, s);
    FirstNoteIsDelivered(ctx, env, s.world, plan[0]);
    OneStepIsRecorded(ctx, env, plan, s, fate);
  }

  lemma LostAfterOne(ctx: Context, env: Environment, s: Session, op: Op, now: Session, ending: Op, more: seq<Op>)
    requires Fresh(ctx, s) && s.memory.steps != [] && EndsProcess(ending) && now == Step(ctx, env, s, op)
        && RowDone(now, s.memory.steps[0].id)
    requires forall i :: 0 <= i < |more| ==> !PostsNote(more[i], ctx.deal, s.memory.steps[0].id)
    ensures var id, later := s.memory.steps[0].id, Run(ctx, env, Step(ctx, env, now, ending), more);
            RowDone(later, id) && CrmNotes.Notes(later.world.crm.tables, ctx.deal, StepKey(id)) == 0
  {
    RunOfOne(ctx, env, s, op);
    LostNoteStaysLost(ctx, env, s, [op], ending, more, 0);
  }

  /** A CRM step is delivered and recorded; when the process ends its note is gone, whatever is called then. */
  lemma ExecutedStepWithoutNote(ctx: Context, env: Environment, s: Session, fate: Fate, now: Session, ending: Op,
          more: seq<Op>)
    requires Fresh(ctx, s) && CrmPlan(ctx, env, s.memory.steps)
    requires fate.Lives? && now == Step(ctx, env, s, Approve(None, fate)) && EndsProcess(ending)
    requires forall i :: 0 <= i < |more| ==> !PostsNote(more[i], ctx.deal, s.memory.steps[0].id)
    ensures var id, later := s.memory.steps[0].id, Run(ctx, env, Step(ctx, env, now, ending), more);
            RowDone(later, id) && CrmNotes.Notes(later.world.crm.tables, ctx.deal, StepKey(id)) == 0
  {
    CrmStepIsExecuted(ctx, env, s, fate);
    LostAfterOne(ctx, env, s, Approve(None, fate), now, ending, more);
  }

  lemma FirstNoteIsDelivered(ctx: Context, env: Environment, w: World, step: ActionStep)
    requires step.channel == Policy.Crm && env(|w.log|).reaction.Answers?
    requires StepCacheKey(ctx.deal, step.id) !in w.crm.cache
    ensures Send(ctx, env, w, step).1 == Delivered
  {
    assert Crm.KeyOf(NoteRequest(ctx.deal, step)) == StepCacheKey(ctx.deal, step.id);
  }

  // ----- A note that is swallowed -----

  /** A dispatch under a cached success is delivered and writes nothing. */
  lemma CachedNoteIsNotWritten(ctx: Context, env: Environment, w: World, step: ActionStep)
    requires step.channel == Policy.Crm && env(|w.log|).reaction.Answers?
    requires CrmNotes.Remembered(w.crm, ctx.deal, StepKey(step.id))
    ensures Send(ctx, env, w, step).1 == Delivered && Send(ctx, env, w, step).0.crm == w.crm
  {
    assert Crm.KeyOf(NoteRequest(ctx.deal, step)) == StepCacheKey(ctx.deal, step.id);
  }

  lemma CollidingWriteIsRemembered(s: Crm.Store, r: Crm.Request, activity: string, now: int, deal: string, key: string)
    requires CrmNotes.Exact(s) && !CrmNotes.Honest(r, deal, key) && r.expected.None?
    requires Crm.CacheKey(Crm.ActivityWrite, deal, key) !in s.cache
    ensures var next := Crm.Write(s, r, activity, now).0;
            CrmNotes.Remembered(next, deal, key) && CrmNotes.Notes(next.tables, deal, key) == 0
  {
    assert CrmNotes.ExactAt(s, deal, key);
    CrmNotes.TakeAddsNote(s.tables, r, activity, now, deal, key);
  }

  /**
   For a new one-step CRM plan, every unconditional write that collides with the step's cache key
   and comes before the approve makes the step read executed without a note: its dispatch is answered
   with the other write's success.
   */
  lemma CollidedPlanHasNoNote(ctx: Context, env: Environment, s: Session, r: Crm.Request, activity: string,
          now: int, fate: Fate)
    requires Fresh(ctx, s) && CrmPlan(ctx, env, s.memory.steps) && fate.Lives?
    requires !CrmNotes.Honest(r, ctx.deal, StepKey(s.memory.steps[0].id)) && r.expected.None?
    ensures var id := s.memory.steps[0].id;
            var posted := Step(ctx, env, s, OtherCrmCall(CrmResults.Submit(r, activity, now)));
            var later := Step(ctx, env, posted, Approve(None, fate));
            RowDone(later, id) && CrmNotes.Notes(later.world.crm.tables, ctx.deal, StepKey(id)) == 0
  {
    var plan, post := s.memory.steps, OtherCrmCall(CrmResults.Submit(r, activity, now));
    FreshOneStep(ctx, plan, s);
    CollidingWriteIsRemembered(s.world.crm, r, activity, now, ctx.deal, StepKey(plan[0].id));
    var posted := Step(ctx, env, s, post);
    StepKeepsOk(ctx, env, plan, s, 0, post);
    assert RowDone(posted, plan[0].id) == RowDone(s, plan[0].id);
    CachedNoteIsNotWritten(ctx, env, posted.world, plan[0]);
    OneStepIsRecorded(ctx, env, plan, posted, fate);
  }

  /** Such a write exists for every deal: its deal id continues the step's with a colon. */
  lemma CollidingWriteExists(deal: string, id: string)
    ensures var r := Crm.AppendActivity(deal + ":message", "note", "", MessageId(id), None, map[]);
            !CrmNotes.Honest(r, deal, StepKey(id))
  {
    var r := Crm.AppendActivity(deal + ":message", "note", "", MessageId(id), None, map[]);
    CrmResults.CollisionShape(Crm.ActivityWrite, deal, StepKey(id), r.deal, r.key);
    assert deal + ":message" == deal + ":" + "message";
    assert r.deal[|deal| + 1..] == "message";
    assert "message" + ":" + r.key == "message:" + r.key;
  }

  // ----- A second send -----

  lemma OrderedPair(steps: seq<ActionStep>)
    requires |steps| == 2 && steps[0].order < steps[1].order
    ensures Ordered(steps) == [0, 1]
  {
    OrderedIsPermutation(steps);
    OrderedAscends(steps, 0, 1);
  }

  /** Two pending e-mail steps in order, and an adapter that will deliver the first. */
  ghost predicate MailPair(ctx: Context, env: Environment, w: World, steps: seq<ActionStep>) {
    && |steps| == 2 && DistinctIds(steps) && steps[0].order < steps[1].order
    && MailStep(ctx, steps[0]) && MailStep(ctx, steps[1]) && !steps[0].Done() && !steps[1].Done()
    && env(|w.log|).reaction == Answers(true)
  }

  lemma {:induction false} FirstIsDelivered(ctx: Context, env: Environment, w: World, steps: seq<ActionStep>)
    requires MailPair(ctx, env, w, steps)
    ensures Wins(Attempts(ctx, env, w, steps, RETRIES).world.log, steps[0].id) == Wins(w.log, steps[0].id) + 1
    ensures env(|w.log| + 1).reaction == Raises(true, false) ==>
              var p := Attempts(ctx, env, w, steps, RETRIES);
              p.raised == Some(true) && |p.world.log| == |w.log| + 2
  {
    OrderedPair(steps);
    var (next, step, raised) := ExecuteOne(ctx, env, w, steps[0]);
    var updated := steps[0 := step];
    assert [0, 1][1..] == [1];
    assert Attempt(ctx, env, w, steps) == ExecuteAt(ctx, env, next, updated, [1]);
    assert step.Done();
    FirstStaysDone(ctx, env, w, steps, next, updated);
    AtMostOneSuccessPerExecution(ctx, env, w, steps, RETRIES, 0);
  }

  lemma FirstStaysDone(ctx: Context, env: Environment, w: World, steps: seq<ActionStep>, next: World,
          updated: seq<ActionStep>)
    requires MailPair(ctx, env, w, steps) && |updated| == 2 && updated[1] == steps[1]
    requires SameStep(steps[0], updated[0]) && updated[0].Done() && DistinctIds(updated)
    requires Attempt(ctx, env, w, steps) == ExecuteAt(ctx, env, next, updated, [1])
    ensures Attempts(ctx, env, w, steps, RETRIES).steps[0].Done()
  {
    var p := Attempt(ctx, env, w, steps);
    assert p.steps[0] == updated[0];
    if p.raised == Some(false) {
      ExecuteAtKeepsBalance(ctx, env, next, updated, [1], 0);
      SameStepSameGate(steps[0], p.steps[0], ctx);
      AtMostOneSuccessPerExecution(ctx, env, p.world, p.steps, RETRIES - 1, 0);
    }
  }

  /** Before the first record, a whole-action approve executes the plan with every step approved. */
  lemma WholeApproveSendsFirst(ctx: Context, env: Environment, plan: seq<ActionStep>, s: Session, losses: nat)
    requires SessionOk(ctx, plan, s, losses) && !s.recorded && |plan| == 2 && plan[0].order < plan[1].order
    requires MailStep(ctx, plan[0]) && MailStep(ctx, plan[1]) && env(|s.world.log|).reaction == Answers(true)
    ensures var p := Execute(ctx, env, s.(memory := ApproveIn(s.memory, None)));
            && Wins(p.world.log, plan[0].id) == Wins(s.world.log, plan[0].id) + 1
            && (env(|s.world.log| + 1).reaction == Raises(true, false) ==>
                p.raised == Some(true) && |p.world.log| == |s.world.log| + 2)
  {
    var ready := s.(memory := ApproveIn(s.memory, None));
    ApproveKeepsOk(ctx, plan, s, None, losses);
    PreparedIsPlan(ctx, plan, ready, losses);
    PreparedStep(ctx, plan, ready, losses, 0);
    PreparedStep(ctx, plan, ready, losses, 1);
    SameStepSameGate(plan[0], Prepared(ready)[0], ctx);
    SameStepSameGate(plan[1], Prepared(ready)[1], ctx);
    FirstIsDelivered(ctx, env, ready.world, Prepared(ready));
  }

  lemma UnrecordedApprove(ctx: Context, env: Environment, s: Session, fate: Fate)
    requires !s.recorded
    ensures var op := Approve(None, fate);
            var after, p := Step(ctx, env, s, op), Execute(ctx, env, Ready(s, op));
            after.world.log == p.world.log && (p.raised.Some? ==> !after.recorded)
  {
    var op := Approve(None, fate);
    StepLog(ctx, env, s, op);
    StepRows(ctx, env, s, op);
    RowsHappen(Execute(ctx, env, Ready(s, op)).raised.Some?, fate);
  }

  lemma TwoApprovesSendTwice(ctx: Context, env: Environment, plan: seq<ActionStep>, s: Session, mid: Session,
          after: Session, losses: nat, fate: Fate)
    requires SessionOk(ctx, plan, s, losses) && !s.recorded && |plan| == 2 && plan[0].order < plan[1].order
    requires MailStep(ctx, plan[0]) && MailStep(ctx, plan[1])
    requires mid == Step(ctx, env, s, Approve(None, fate)) && after == Step(ctx, env, mid, Approve(None, fate))
    requires var n := |s.world.log|;
             env(n).reaction == Answers(true) && env(n + 1).reaction == Raises(true, false)
                 && env(n + 2).reaction == Answers(true)
    ensures Wins(after.world.log, plan[0].id) == Wins(s.world.log, plan[0].id) + 2
  {
    hide Step, SessionOk, Execute, Loses;
    StepKeepsOk(ctx, env, plan, s, losses, Approve(None, fate));
    UnrecordedApprove(ctx, env, s, fate);
    WholeApproveSendsFirst(ctx, env, plan, s, losses);
    UnrecordedApprove(ctx, env, mid, fate);
    WholeApproveSendsFirst(ctx, env, plan, mid, losses + One(Loses(ctx, env, s, Approve(None, fate))));
  }

  /**
   The bound on successes is met: the second adapter raises a terminal error, so the first send is
   not recorded, and the next whole-action approve sends the first step again, whatever their ends.
   */
  lemma LostExecutionResends(ctx: Context, env: Environment, s: Session, fate: Fate)
    requires Fresh(ctx, s) && MailPair(ctx, env, s.world, s.memory.steps)
    requires env(1).reaction == Raises(true, false) && env(2).reaction == Answers(true)
    ensures var op := Approve(None, fate);
            Wins(Step(ctx, env, Step(ctx, env, s, op), op).world.log, s.memory.steps[0].id) == 2
  {
    hide Step, SessionOk;
    RunKeepsOk(ctx, env, s, []);
    var mid := Step(ctx, env, s, Approve(None, fate));
    TwoApprovesSendTwice(ctx, env, s.memory.steps, s, mid, Step(ctx, env, mid, Approve(None, fate)), 0, fate);
  }

  // ----- A rejected step that is sent -----

  /** Rejecting a step and then approving another one sends the rejected step. */
  lemma RejectedStepIsSent(ctx: Context, s: Session, k: nat, other: string)
    requires Fresh(ctx, s) && k < |s.memory.steps|
    requires Allowed(s.memory.steps[k], ctx) && Supported(s.memory.steps[k])
    ensures var id, env := s.memory.steps[k].id, AllAnswer(true);
            var rejected := Step(ctx, env, s, Reject(Some(id)));
            Calls(Step(ctx, env, rejected, Approve(Some(other), Lives(false))).world.log, id) > 0
  {
    var plan, id, env, op := s.memory.steps, s.memory.steps[k].id, AllAnswer(true), Approve(Some(other), Lives(false));
    assert Run(ctx, env, s, []) == s;
    RunKeepsOk(ctx, env, s, []);
    var rejected := Step(ctx, env, s, Reject(Some(id)));
    StepKeepsOk(ctx, env, plan, s, 0, Reject(Some(id)));
    ApproveKeepsOk(ctx, plan, rejected, op.scope, 0);
    var ready := Ready(rejected, op);
    assert !ready.recorded && ready.memory.steps[k].status != Executed;
    PreparedStep(ctx, plan, ready, 0, k);
    AnsweredResumeDoesNotRaise(ctx, env, ready);
    ResumeTries(ctx, env, plan, ready, 0, op.fate, k);
  }

  /** In particular with two e-mails, the first rejected and only the second approved. */
  lemma RejectedMailIsSent(deal: string)
    ensures var ctx, env, s := Reviewed(deal), AllAnswer(true), NewAction([Mail("1", 1), Mail("2", 2)]);
            var rejected := Step(ctx, env, s, Reject(Some("1")));
            Calls(Step(ctx, env, rejected, Approve(Some("2"), Lives(false))).world.log, "1") > 0
  {
    var plan := [Mail("1", 1), Mail("2", 2)];
    assert "1"[0] != "2"[0];
    NewActionIsFresh(deal, plan);
    MailsAreSendable(deal, "1", 1);
    RejectedStepIsSent(Reviewed(deal), NewAction(plan), 0, "2");
  }

  // ----- The runs exist -----

  lemma TwoMailsAreReady(deal: string, env: Environment, plan: seq<ActionStep>)
    requires plan == [Mail("1", 1), Mail("2", 2)] && env(0).reaction == Answers(true)
    ensures Fresh(Reviewed(deal), NewAction(plan))
    ensures MailPair(Reviewed(deal), env, NewAction(plan).world, plan)
  {
    assert "1"[0] != "2"[0];
    assert DistinctIds(plan);
    NewActionIsFresh(deal, plan);
  }

  /** For every deal: the two-step plan that is sent twice. */
  lemma TwoMailsAreResent(deal: string, fate: Fate, plan: seq<ActionStep>, env: Environment)
    requires plan == [Mail("1", 1), Mail("2", 2)] && env == Script([Answers(true), Raises(true, false)])
    ensures var op, mid := Approve(None, fate), Step(Reviewed(deal), env, NewAction(plan), Approve(None, fate));
            Wins(Step(Reviewed(deal), env, mid, op).world.log, "1") == 2
  {
    hide Step, Fresh, MailPair, Wins;
    TwoMailsAreReady(deal, env, plan);
    LostExecutionResends(Reviewed(deal), env, NewAction(plan), fate);
  }

  /** The one-step plan whose row stays open. */
  lemma OneMailIsStuck(deal: string, env: Environment, raises: Fate, mid: Session, dies: Fate, late: Session)
    requires env == Script([Answers(false)]) && Raising(raises) && Interrupting(dies)
    requires mid == Step(Reviewed(deal), env, NewAction([Mail("1", 1)]), Approve(None, raises))
    requires late == Step(Reviewed(deal), env, mid, Approve(None, dies))
    ensures ForGood(Reviewed(deal), env, late, RunRow(Running, true), late.outcome)
  {
    hide Step, Fresh, ForGood;
    NewActionIsFresh(deal, [Mail("1", 1)]);
    RunRowStaysOpen(Reviewed(deal), env, NewAction([Mail("1", 1)]), raises, mid, dies, late);
  }

  /** The one-step plan whose outcome stays missing. */
  lemma OneMailHasNoOutcome(deal: string, raises: Fate, after: Session)
    requires Raising(raises)
    requires after == Step(Reviewed(deal), AllAnswer(true), NewAction([Mail("1", 1)]), Approve(None, raises))
    ensures RowDone(after, "1") && ForGood(Reviewed(deal), AllAnswer(true), after, RunRow(RunFailed, true), false)
  {
    hide Step, Fresh, ForGood;
    NewActionIsFresh(deal, [Mail("1", 1)]);
    OutcomeStaysMissing(Reviewed(deal), AllAnswer(true), NewAction([Mail("1", 1)]), raises, after);
  }

  /** The one-step plan whose history misses its execution. */
  lemma OneMailIsMissed(deal: string, dies: Fate, after: Session)
    requires DiesBeforeSnapshot(dies)
    requires after == Step(Reviewed(deal), AllAnswer(true), NewAction([Mail("1", 1)]), Approve(None, dies))
    ensures RowDone(after, "1") && after.memory.history == ["action_agent"]
  {
    hide Step, Fresh;
    NewActionIsFresh(deal, [Mail("1", 1)]);
    HistoryMissesExecution(Reviewed(deal), AllAnswer(true), NewAction([Mail("1", 1)]), dies, after);
  }

  /** The CRM step whose note is lost with the process. */
  lemma OneNoteIsLost(deal: string, lives: Fate, now: Session)
    requires lives.Lives?
    requires now == Step(Reviewed(deal), AllAnswer(true), NewAction([CrmStep("1", 1)]), Approve(None, lives))
    ensures var later := Step(Reviewed(deal), AllAnswer(true), now, Restart);
            RowDone(later, "1") && CrmNotes.Notes(later.world.crm.tables, deal, StepKey("1")) == 0
  {
    hide Step, Fresh;
    NewActionIsFresh(deal, [CrmStep("1", 1)]);
    ExecutedStepWithoutNote(Reviewed(deal), AllAnswer(true), NewAction([CrmStep("1", 1)]), lives, now, Restart, []);
  }

  /** The CRM step whose note is swallowed. */
  lemma OneNoteIsSwallowed(deal: string, activity: string, now: int, lives: Fate)
    requires lives.Lives?
    ensures var ctx, env, s := Reviewed(deal), AllAnswer(true), NewAction([CrmStep("1", 1)]);
            var r := Crm.AppendActivity(deal + ":message", "note", "", MessageId("1"), None, map[]);
            var posted := Step(ctx, env, s, OtherCrmCall(CrmResults.Submit(r, activity, now)));
            var later := Step(ctx, env, posted, Approve(None, lives));
            RowDone(later, "1") && CrmNotes.Notes(later.world.crm.tables, deal, StepKey("1")) == 0
  {
    NewActionIsFresh(deal, [CrmStep("1", 1)]);
    CollidingWriteExists(deal, "1");
    CollidedPlanHasNoNote(Reviewed(deal), AllAnswer(true), NewAction([CrmStep("1", 1)]),
                          Crm.AppendActivity(deal + ":message", "note", "", MessageId("1"), None, map[]),
                          activity, now, lives);
  }
}
