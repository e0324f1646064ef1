/**
 CRM notes end to end: the notes of a plan's CRM steps under approvals, retries, exceptions, other
 clients' calls, and process ends, which empty the CRM store's dictionaries.
 */
module ApprovalNotes {
  import opened Counts
  import opened Options
  import opened Policy
  import opened Execution
  import opened ExecutionResults
  import opened ExecutionNotes
  import opened Approval
  import opened ApprovalResults
  import opened RunRecords
  import opened ApprovalTheorems
  import Crm
  import CrmNotes
  import CrmResults

  // ----- Notes over every run -----

  lemma {:induction false} ExecuteAtKeepsExact(ctx: Context, env: Environment, w: World, steps: seq<ActionStep>,
          idx: seq<int>)
    requires forall i :: 0 <= i < |idx| ==> 0 <= idx[i] < |steps|
    requires CrmNotes.Exact(w.crm)
    ensures CrmNotes.Exact(ExecuteAt(ctx, env, w, steps, idx).world.crm)
    decreases |idx|
  {
    if idx != [] {
      var (next, step, raised) := ExecuteOne(ctx, env, w, steps[idx[0]]);
      var signal := env(|w.log|);
      CrmNotes.WriteKeepsExact(w.crm, NoteRequest(ctx.deal, steps[idx[0]]), signal.id, signal.now);
      assert CrmNotes.Exact(next.crm);
      if raised.None? { ExecuteAtKeepsExact(ctx, env, next, steps[idx[0] := step], idx[1..]); }
    }
  }

  lemma {:induction false} AttemptsKeepExact(ctx: Context, env: Environment, w: World, steps: seq<ActionStep>,
          retries: nat)
    requires CrmNotes.Exact(w.crm)
    ensures CrmNotes.Exact(Attempts(ctx, env, w, steps, retries).world.crm)
    decreases retries
  {
    var p := Attempt(ctx, env, w, steps);
    ExecuteAtKeepsExact(ctx, env, w, steps, Ordered(steps));
    if p.raised == Some(false) && retries > 0 { AttemptsKeepExact(ctx, env, p.world, p.steps, retries - 1); }
  }

  /** The world after a resume: what the execution left, without the CRM store if the process ended. */
  lemma ResumeWorld(ctx: Context, env: Environment, s: Session, fate: Fate)
    ensures var w := if Finished(s) then s.world else Execute(ctx, env, s).world;
            Resume(ctx, env, s, fate).world == if fate.Dies? then w.(crm := Crm.EMPTY_STORE) else w
  {
    if !Finished(s) {
      var p := Execute(ctx, env, s);
      ConclusionRows(AfterExecution(Readied(s), p), p.raised.Some?, fate);
    }
  }

  lemma StepKeepsExact(ctx: Context, env: Environment, s: Session, op: Op)
    requires CrmNotes.Exact(s.world.crm)
    ensures CrmNotes.Exact(Step(ctx, env, s, op).world.crm)
  {
    CrmNotes.EmptyStoreIsExact();
    match op
    case Approve(_, fate) =>
      ResumeWorld(ctx, env, Ready(s, op), fate);
      AttemptsKeepExact(ctx, env, s.world, Prepared(Ready(s, op)), RETRIES);
    case OtherCrmCall(call) => CrmNotes.PerformKeepsExact(s.world.crm, call);
    case _ =>
  }

  lemma {:induction false} RunKeepsExact(ctx: Context, env: Environment, s: Session, ops: seq<Op>)
    requires CrmNotes.Exact(s.world.crm)
    ensures CrmNotes.Exact(Run(ctx, env, s, ops).world.crm)
  {
    if ops != [] {
      RunKeepsExact(ctx, env, s, ops[..|ops| - 1]);
      StepKeepsExact(ctx, env, Run(ctx, env, s, ops[..|ops| - 1]), ops[|ops| - 1]);
    }
  }

  /**
   After every run a deal's timeline holds the note of a step exactly if the cache answers its key
   with a success about that deal, and it holds it once.
   */
  lemma NotesOfRunsAreExact(ctx: Context, env: Environment, s: Session, ops: seq<Op>, deal: string, id: string)
    requires CrmNotes.Exact(s.world.crm)
    ensures var crm := Run(ctx, env, s, ops).world.crm;
            CrmNotes.Notes(crm.tables, deal, StepKey(id)) == One(CrmNotes.Answered(crm, deal, StepKey(id)))
  {
    RunKeepsExact(ctx, env, s, ops);
    assert CrmNotes.ExactAt(Run(ctx, env, s, ops).world.crm, deal, StepKey(id));
  }

  /**
   However many resumes, retries, losses, process ends and other CRM calls: at most one note per step
   on any timeline.
   */
  lemma AtMostOneNotePerStep(ctx: Context, env: Environment, s: Session, ops: seq<Op>, deal: string, id: string)
    requires CrmNotes.Exact(s.world.crm)
    ensures CrmNotes.Notes(Run(ctx, env, s, ops).world.crm.tables, deal, StepKey(id)) <= 1
  {
    NotesOfRunsAreExact(ctx, env, s, ops, deal, id);
  }

  // ----- The current process -----

  predicate EndsProcess(op: Op) {
    op.Restart? || (op.Approve? && op.fate.Dies?)
  }

  /** Another client writes under a step's cache key. */
  predicate Posts(op: Op, deal: string, id: string) {
    op.OtherCrmCall? && op.call.Submit? && Crm.KeyOf(op.call.request) == StepCacheKey(deal, id)
  }

  /** The write is the first under the step's cache key in this process, and is about another deal. */
  predicate Takes(s: Session, op: Op, deal: string, id: string) {
    Posts(op, deal, id) && StepCacheKey(deal, id) !in s.world.crm.cache && op.call.request.deal != deal
  }

  /** The write is the first under the step's cache key in this process, is about this deal, and is accepted. */
  predicate Lands(s: Session, op: Op, deal: string, id: string) {
    Posts(op, deal, id) && StepCacheKey(deal, id) !in s.world.crm.cache && op.call.request.deal == deal
    && Crm.Write(s.world.crm, op.call.request, op.call.id, op.call.now).1.success
  }

  function EraAfter(era: Era, s: Session, op: Op, after: Session, deal: string, id: string): Era {
    if EndsProcess(op) then Era(|after.world.log|, false, false)
    else Era(era.start, era.taken || Takes(s, op, deal, id), era.landed || Lands(s, op, deal, id))
  }

  /** The process in which a run ends: when it started, and what other clients wrote under the step's key since. */
  function EraOf(ctx: Context, env: Environment, s: Session, ops: seq<Op>, id: string): Era {
    if ops == [] then Era(0, false, false)
    else
      var before, op := ops[..|ops| - 1], ops[|ops| - 1];
      var mid := Run(ctx, env, s, before);
      EraAfter(EraOf(ctx, env, s, before, id), mid, op, Step(ctx, env, mid, op), ctx.deal, id)
  }

  /** A new process knows no note, and none was won since it started. */
  lemma NewProcessKeepsNote(ctx: Context, w: World, step: ActionStep)
    requires w.crm == Crm.EMPTY_STORE
    ensures NoteKept(ctx, w, step, Era(|w.log|, false, false))
  {
    CrmNotes.EmptyStoreIsExact();
    assert w.log[|w.log|..] == [];
  }

  lemma ExecuteKeepsNote(ctx: Context, env: Environment, plan: seq<ActionStep>, s: Session, losses: nat, k: nat,
          era: Era)
    requires SessionOk(ctx, plan, s, losses) && k < |plan| && NoteKept(ctx, s.world, plan[k], era)
    ensures NoteKept(ctx, Execute(ctx, env, s).world, plan[k], era)
  {
    PreparedIsPlan(ctx, plan, s, losses);
    PreparedStep(ctx, plan, s, losses, k);
    NoteKeptOfSameStep(ctx, s.world, plan[k], Prepared(s)[k], era);
    AttemptsKeepNote(ctx, env, s.world, Prepared(s), RETRIES, k, era);
    NoteKeptOfSameStep(ctx, Execute(ctx, env, s).world, Prepared(s)[k], plan[k], era);
  }

  lemma OtherCallKeepsNote(ctx: Context, s: Session, call: CrmResults.Call, step: ActionStep, era: Era)
    requires NoteKept(ctx, s.world, step, era)
    ensures var op, crm := OtherCrmCall(call), CrmResults.Perform(s.world.crm, call).0;
            NoteKept(ctx, s.world.(crm := crm), step,
                     Era(era.start,
                         era.taken || Takes(s, op, ctx.deal, step.id),
                         era.landed || Lands(s, op, ctx.deal, step.id)))
  {
    CrmNotes.PerformKeepsExact(s.world.crm, call);
    PerformOnlyAdds(s.world.crm, call, StepCacheKey(ctx.deal, step.id));
    if call.Submit? {
      CrmNotes.WriteDecidesAnswer(s.world.crm, call.request, call.id, call.now, ctx.deal, StepKey(step.id));
    }
  }

  lemma PerformOnlyAdds(s: Crm.Store, call: CrmResults.Call, key: string)
    ensures var next := CrmResults.Perform(s, call).0;
            && (key in s.cache ==> key in next.cache && next.cache[key] == s.cache[key])
            && (key in next.cache ==> key in s.cache || (call.Submit? && Crm.KeyOf(call.request) == key))
  {
  }

  lemma ApproveKeepsNote(ctx: Context, env: Environment, plan: seq<ActionStep>, s: Session, losses: nat, op: Op,
          k: nat, era: Era)
    requires SessionOk(ctx, plan, s, losses) && k < |plan| && NoteKept(ctx, s.world, plan[k], era)
    requires op.Approve? && op.fate.Lives?
    ensures NoteKept(ctx, Step(ctx, env, s, op).world, plan[k], era)
  {
    ApproveKeepsOk(ctx, plan, s, op.scope, losses);
    ResumeWorld(ctx, env, Ready(s, op), op.fate);
    ExecuteKeepsNote(ctx, env, plan, Ready(s, op), losses, k, era);
  }

  lemma StepKeepsNote(ctx: Context, env: Environment, plan: seq<ActionStep>, s: Session, losses: nat, op: Op, k: nat,
          era: Era)
    requires SessionOk(ctx, plan, s, losses) && k < |plan| && NoteKept(ctx, s.world, plan[k], era)
    ensures var after := Step(ctx, env, s, op);
            NoteKept(ctx, after.world, plan[k], EraAfter(era, s, op, after, ctx.deal, plan[k].id))
  {
    var after := Step(ctx, env, s, op);
    if EndsProcess(op) {
      NewProcessKeepsNote(ctx, after.world, plan[k]);
    } else if op.Approve? {
      ApproveKeepsNote(ctx, env, plan, s, losses, op, k, era);
    } else if op.OtherCrmCall? {
      OtherCallKeepsNote(ctx, s, op.call, plan[k], era);
    }
  }

  lemma {:induction false} RunKeepsNote(ctx: Context, env: Environment, s: Session, ops: seq<Op>, k: nat)
    requires Fresh(ctx, s) && k < |s.memory.steps|
    ensures NoteKept(ctx, Run(ctx, env, s, ops).world, s.memory.steps[k], EraOf(ctx, env, s, ops, s.memory.steps[k].id))
  {
    hide Step, SessionOk, NoteKept;
    if ops == [] {
      FreshKeepsNote(ctx, s, k);
    } else {
      var before, op := ops[..|ops| - 1], ops[|ops| - 1];
      var mid, era := Run(ctx, env, s, before), EraOf(ctx, env, s, before, s.memory.steps[k].id);
      RunKeepsNote(ctx, env, s, before, k);
      RunKeepsOk(ctx, env, s, before);
      StepKeepsNote(ctx, env, s.memory.steps, mid, Losses(ctx, env, s, before), op, k, era);
    }
  }

  lemma FreshKeepsNote(ctx: Context, s: Session, k: nat)
    requires Fresh(ctx, s) && k < |s.memory.steps|
    ensures NoteKept(ctx, s.world, s.memory.steps[k], Era(0, false, false))
  {
    assert s.world.log[0..] == [];
  }

  // ----- What is marked executed was left so by its last call of the process -----

  /** If the step reads executed and its adapter was called since the process started, the last call succeeded. */
  predicate CallsOk(s: Session, step: ActionStep, k: nat, start: nat) {
    && k < |s.memory.steps| && start <= |s.world.log|
    && ((s.memory.steps[k].Done() || RowDone(s, step.id)) && Calls(s.world.log[start..], step.id) > 0
        ==> LastWon(s.world.log[start..], step.id))
  }

  lemma ExecuteKeepsCallsOk(ctx: Context, env: Environment, plan: seq<ActionStep>, s: Session, losses: nat, k: nat,
          start: nat)
    requires SessionOk(ctx, plan, s, losses) && k < |plan| && CallsOk(s, plan[k], k, start)
    ensures var p := Execute(ctx, env, s);
            && start <= |p.world.log| && DoneByCall(p.world.log, start, p.steps[k]) && p.steps[k].id == plan[k].id
            && (RowDone(s, plan[k].id) ==> p.steps[k].Done())
  {
    PreparedStep(ctx, plan, s, losses, k);
    PreparedIsPlan(ctx, plan, s, losses);
    ExecuteStep(ctx, env, plan, s, losses, k);
    AttemptsKeepDoneByCall(ctx, env, s.world, Prepared(s), RETRIES, k, start);
  }

  lemma ResumeKeepsCallsOk(ctx: Context, env: Environment, plan: seq<ActionStep>, s: Session, losses: nat,
          fate: Fate, k: nat, start: nat)
    requires SessionOk(ctx, plan, s, losses) && k < |plan| && CallsOk(s, plan[k], k, start) && fate.Lives?
    ensures CallsOk(Resume(ctx, env, s, fate), plan[k], k, start)
  {
    if Finished(s) {
      PreparedStep(ctx, plan, s, losses, k);
      assert RowDone(Readied(s), plan[k].id) == RowDone(s, plan[k].id);
    } else {
      var p := Execute(ctx, env, s);
      ExecuteKeepsCallsOk(ctx, env, plan, s, losses, k, start);
      ExecutedRowIsResult(ctx, env, plan, s, losses, k);
      ConclusionRows(AfterExecution(Readied(s), p), p.raised.Some?, fate);
    }
  }

  /** If the rows of an execution are recorded, a step's newest row is what it was left as. */
  lemma ExecutedRowIsResult(ctx: Context, env: Environment, plan: seq<ActionStep>, s: Session, losses: nat, k: nat)
    requires SessionOk(ctx, plan, s, losses) && k < |plan|
    ensures var p := Execute(ctx, env, s);
            Latest(s.rows + RowsFor(p.steps), plan[k].id) == Some(RowFor(p.steps[k]))
  {
    var p := Execute(ctx, env, s);
    forall i | 0 <= i < |plan| ensures p.steps[i].id == plan[i].id { ExecuteStep(ctx, env, plan, s, losses, i); }
    RowsForCovers(p.steps, s.rows, k);
  }

  lemma NewProcessCallsOk(s: Session, step: ActionStep, k: nat)
    requires k < |s.memory.steps|
    ensures CallsOk(s, step, k, |s.world.log|)
  {
    assert s.world.log[|s.world.log|..] == [];
  }

  lemma ApproveKeepsCallsOk(ctx: Context, env: Environment, plan: seq<ActionStep>, s: Session, losses: nat, op: Op,
          k: nat, start: nat)
    requires SessionOk(ctx, plan, s, losses) && k < |plan| && CallsOk(s, plan[k], k, start)
    requires op.Approve? && op.fate.Lives?
    ensures CallsOk(Step(ctx, env, s, op), plan[k], k, start)
  {
    ApproveKeepsOk(ctx, plan, s, op.scope, losses);
    assert RowDone(Ready(s, op), plan[k].id) == RowDone(s, plan[k].id);
    ResumeKeepsCallsOk(ctx, env, plan, Ready(s, op), losses, op.fate, k, start);
  }

  lemma StepKeepsCallsOk(ctx: Context, env: Environment, plan: seq<ActionStep>, s: Session, losses: nat, op: Op,
          k: nat, start: nat)
    requires SessionOk(ctx, plan, s, losses) && k < |plan| && CallsOk(s, plan[k], k, start)
    requires k < |Step(ctx, env, s, op).memory.steps|
    ensures var after := Step(ctx, env, s, op);
            CallsOk(after, plan[k], k, if EndsProcess(op) then |after.world.log| else start)
  {
    var after := Step(ctx, env, s, op);
    if EndsProcess(op) {
      NewProcessCallsOk(after, plan[k], k);
    } else if op.Approve? {
      ApproveKeepsCallsOk(ctx, env, plan, s, losses, op, k, start);
    } else {
      assert RowDone(after, plan[k].id) == RowDone(s, plan[k].id);
    }
  }

  lemma {:induction false} RunKeepsCallsOk(ctx: Context, env: Environment, s: Session, ops: seq<Op>, k: nat)
    requires Fresh(ctx, s) && k < |s.memory.steps|
    ensures CallsOk(Run(ctx, env, s, ops), s.memory.steps[k], k, EraOf(ctx, env, s, ops, s.memory.steps[k].id).start)
  {
    if ops != [] {
      var before, op := ops[..|ops| - 1], ops[|ops| - 1];
      var mid, start := Run(ctx, env, s, before), EraOf(ctx, env, s, before, s.memory.steps[k].id).start;
      RunKeepsCallsOk(ctx, env, s, before, k);
      RunKeepsOk(ctx, env, s, before);
      RunKeepsLength(ctx, env, s, ops);
      StepKeepsCallsOk(ctx, env, s.memory.steps, mid, Losses(ctx, env, s, before), op, k, start);
    }
  }

  lemma RunKeepsLength(ctx: Context, env: Environment, s: Session, ops: seq<Op>)
    requires Fresh(ctx, s)
    ensures |Run(ctx, env, s, ops).memory.steps| == |s.memory.steps|
  {
    RunKeepsOk(ctx, env, s, ops);
  }

  // ----- End to end -----

  /** The step reads executed, in memory or in the step log. */
  predicate MarkedExecuted(s: Session, k: nat)
    requires k < |s.memory.steps|
  {
    s.memory.steps[k].status == Executed || RowDone(s, s.memory.steps[k].id)
  }

  /** The adapter of the step succeeded since the process started. */
  predicate WonSince(s: Session, era: Era, id: string) {
    era.start <= |s.world.log| && Wins(s.world.log[era.start..], id) > 0
  }

  lemma MarkedExecutedIsDone(ctx: Context, env: Environment, s: Session, ops: seq<Op>, k: nat)
    requires Fresh(ctx, s) && k < |s.memory.steps|
    ensures var now := Run(ctx, env, s, ops);
            && |now.memory.steps| == |s.memory.steps| && now.memory.steps[k].id == s.memory.steps[k].id
            && (MarkedExecuted(now, k) <==> now.memory.steps[k].Done() || RowDone(now, s.memory.steps[k].id))
            && (MarkedExecuted(now, k) ==> Wins(now.world.log, s.memory.steps[k].id) > 0)
  {
    RunKeepsOk(ctx, env, s, ops);
    var now, step := Run(ctx, env, s, ops), s.memory.steps[k];
    assert SameStep(step, now.memory.steps[k]) && Sound(now.memory.steps[k]);
    assert SuccessesOk(ctx, now, step, Losses(ctx, env, s, ops)) && DoneOk(now, step, k);
  }

  /**
   End to end, over retries, exceptions, process ends and whatever other clients write: a CRM step
   that is marked executed and succeeded since the process started has its note on the deal's
   timeline exactly once, except exactly if another deal's write took its cache key first.  If it
   did not succeed since, it has a note exactly if another client's write for it landed.
   */
  lemma ExecutedCrmStepHasOneNote(ctx: Context, env: Environment, s: Session, ops: seq<Op>, k: nat)
    requires Fresh(ctx, s) && k < |s.memory.steps| && s.memory.steps[k].channel == Policy.Crm
    ensures var now, id := Run(ctx, env, s, ops), s.memory.steps[k].id;
            var era := EraOf(ctx, env, s, ops, id);
            && |now.memory.steps| == |s.memory.steps|
            && (MarkedExecuted(now, k) ==>
                CrmNotes.Notes(now.world.crm.tables, ctx.deal, StepKey(id))
                == One(if WonSince(now, era, id) then !era.taken else era.landed))
  {
    hide SessionOk, Fresh;
    RunKeepsNote(ctx, env, s, ops, k);
    RunKeepsCallsOk(ctx, env, s, ops, k);
    MarkedExecutedIsDone(ctx, env, s, ops, k);
    var now, step := Run(ctx, env, s, ops), s.memory.steps[k];
    if MarkedExecuted(now, k) { NoteIsThereExactly(ctx, now.world, step, EraOf(ctx, env, s, ops, step.id)); }
  }

  lemma {:induction false} NeverStartedAgain(ctx: Context, env: Environment, s: Session, ops: seq<Op>, id: string)
    requires forall i :: 0 <= i < |ops| ==> !EndsProcess(ops[i])
    ensures EraOf(ctx, env, s, ops, id).start == 0
  {
    hide Step;
    if ops != [] { NeverStartedAgain(ctx, env, s, ops[..|ops| - 1], id); }
  }

  /** In one process, a CRM step that is marked executed has its note exactly once unless its key was taken. */
  lemma OneProcessHasOneNote(ctx: Context, env: Environment, s: Session, ops: seq<Op>, k: nat)
    requires Fresh(ctx, s) && k < |s.memory.steps| && s.memory.steps[k].channel == Policy.Crm
    requires forall i :: 0 <= i < |ops| ==> !EndsProcess(ops[i])
    ensures var now, id := Run(ctx, env, s, ops), s.memory.steps[k].id;
            && |now.memory.steps| == |s.memory.steps|
            && (MarkedExecuted(now, k) ==>
                CrmNotes.Notes(now.world.crm.tables, ctx.deal, StepKey(id)) == One(!EraOf(ctx, env, s, ops, id).taken))
  {
    hide Step, Fresh;
    var now, id := Run(ctx, env, s, ops), s.memory.steps[k].id;
    NeverStartedAgain(ctx, env, s, ops, id);
    ExecutedCrmStepHasOneNote(ctx, env, s, ops, k);
    MarkedExecutedIsDone(ctx, env, s, ops, k);
    assert now.world.log[0..] == now.world.log;
  }

  // ----- Without collisions -----

  /** A write of another client with the step's cache key asks for the step's deal and key. */
  predicate HonestOp(ctx: Context, id: string, op: Op) {
    op.OtherCrmCall? && op.call.Submit? ==> CrmNotes.Honest(op.call.request, ctx.deal, StepKey(id))
  }

  /** It always does when deal ids hold no colon. */
  lemma ColonFreeOpsAreHonest(ctx: Context, id: string, op: Op)
    requires ':' !in ctx.deal && (op.OtherCrmCall? && op.call.Submit? ==> ':' !in op.call.request.deal)
    ensures HonestOp(ctx, id, op)
  {
    if op.OtherCrmCall? && op.call.Submit? { CrmNotes.ColonFreeIsHonest(op.call.request, ctx.deal, StepKey(id)); }
  }

  /** Then no key is ever taken. */
  lemma {:induction false} HonestOpsTakeNothing(ctx: Context, env: Environment, s: Session, ops: seq<Op>, id: string)
    requires forall i :: 0 <= i < |ops| ==> HonestOp(ctx, id, ops[i])
    ensures !EraOf(ctx, env, s, ops, id).taken
  {
    hide Step;
    if ops != [] {
      var op := ops[|ops| - 1];
      HonestOpsTakeNothing(ctx, env, s, ops[..|ops| - 1], id);
      if Posts(op, ctx.deal, id) { CrmNotes.DishonestIsForAnother(op.call.request, ctx.deal, StepKey(id)); }
    }
  }

  /** With deal ids free of colons, a CRM step executed since the process started has its note exactly once. */
  lemma ColonFreeStepHasOneNote(ctx: Context, env: Environment, s: Session, ops: seq<Op>, k: nat)
    requires Fresh(ctx, s) && k < |s.memory.steps| && s.memory.steps[k].channel == Policy.Crm && ':' !in ctx.deal
    requires forall i :: 0 <= i < |ops| && ops[i].OtherCrmCall? && ops[i].call.Submit? ==>
               ':' !in ops[i].call.request.deal
    ensures var now, id := Run(ctx, env, s, ops), s.memory.steps[k].id;
            && |now.memory.steps| == |s.memory.steps|
            && (MarkedExecuted(now, k) && WonSince(now, EraOf(ctx, env, s, ops, id), id) ==>
                CrmNotes.Notes(now.world.crm.tables, ctx.deal, StepKey(id)) == 1)
  {
    hide Step, Fresh;
    var id := s.memory.steps[k].id;
    forall i | 0 <= i < |ops| ensures HonestOp(ctx, id, ops[i]) { ColonFreeOpsAreHonest(ctx, id, ops[i]); }
    HonestOpsTakeNothing(ctx, env, s, ops, id);
    ExecutedCrmStepHasOneNote(ctx, env, s, ops, k);
  }

  // ----- A note that is swallowed -----

  lemma {:induction false} TakenStaysTaken(ctx: Context, env: Environment, s: Session, ops: seq<Op>, more: seq<Op>,
          id: string)
    requires EraOf(ctx, env, s, ops, id).taken && forall i :: 0 <= i < |more| ==> !EndsProcess(more[i])
    ensures EraOf(ctx, env, s, ops + more, id).taken
  {
    hide Step;
    if more == [] {
      assert ops + more == ops;
    } else {
      var all := ops + more;
      assert all[..|all| - 1] == ops + more[..|more| - 1] && all[|all| - 1] == more[|more| - 1];
      TakenStaysTaken(ctx, env, s, ops, more[..|more| - 1], id);
    }
  }

  /**
   Another deal's write that comes first under a CRM step's cache key swallows the step's note: for as
   long as the process lives, the step is executed without it.
   */
  lemma CollisionSwallowsNote(ctx: Context, env: Environment, s: Session, ops: seq<Op>, post: Op, more: seq<Op>, k: nat)
    requires Fresh(ctx, s) && k < |s.memory.steps| && s.memory.steps[k].channel == Policy.Crm
    requires Takes(Run(ctx, env, s, ops), post, ctx.deal, s.memory.steps[k].id)
    requires forall i :: 0 <= i < |more| ==> !EndsProcess(more[i])
    ensures var now, id := Run(ctx, env, s, ops + [post] + more), s.memory.steps[k].id;
            && |now.memory.steps| == |s.memory.steps|
            && (MarkedExecuted(now, k) && WonSince(now, EraOf(ctx, env, s, ops + [post] + more, id), id) ==>
                CrmNotes.Notes(now.world.crm.tables, ctx.deal, StepKey(id)) == 0)
  {
    hide Step, Fresh;
    var id, through := s.memory.steps[k].id, ops + [post];
    assert through[..|through| - 1] == ops;
    assert EraOf(ctx, env, s, through, id).taken;
    TakenStaysTaken(ctx, env, s, through, more, id);
    ExecutedCrmStepHasOneNote(ctx, env, s, through + more, k);
  }

  // ----- A note that ended with its process -----

  /** The step's row is executed, and the cache does not answer for its note. */
  ghost predicate NoteIsGone(ctx: Context, s: Session, step: ActionStep) {
    CrmNotes.Exact(s.world.crm) && RowDone(s, step.id) && !CrmNotes.Answered(s.world.crm, ctx.deal, StepKey(step.id))
  }

  /** Another client writes the step's very note. */
  predicate PostsNote(op: Op, deal: string, id: string) {
    Posts(op, deal, id) && op.call.request.deal == deal
  }

  lemma StepLeavesNoteGone(ctx: Context, env: Environment, plan: seq<ActionStep>, s: Session, losses: nat, op: Op,
          k: nat)
    requires SessionOk(ctx, plan, s, losses) && k < |plan| && NoteIsGone(ctx, s, plan[k])
    requires !PostsNote(op, ctx.deal, plan[k].id)
    ensures NoteIsGone(ctx, Step(ctx, env, s, op), plan[k])
  {
    var w, after := s.world, Step(ctx, env, s, op);
    StepKeepsExact(ctx, env, s, op);
    DoneRowStays(ctx, env, plan, s, losses, op, k);
    if op.Approve? && op.fate.Lives? {
      hide SessionOk, Execute;
      ApproveKeepsOk(ctx, plan, s, op.scope, losses);
      ResumeWorld(ctx, env, Ready(s, op), op.fate);
      if !Finished(Ready(s, op)) {
        UncalledStepLeavesNoteGone(ctx, env, plan, Ready(s, op), losses, k);
      }
    }
    if op.OtherCrmCall? { OtherCallLeavesNoteGone(w.crm, op.call, ctx.deal, plan[k].id); }
  }

  lemma OtherCallLeavesNoteGone(crm: Crm.Store, call: CrmResults.Call, deal: string, id: string)
    requires !CrmNotes.Answered(crm, deal, StepKey(id)) && !PostsNote(OtherCrmCall(call), deal, id)
    ensures !CrmNotes.Answered(CrmResults.Perform(crm, call).0, deal, StepKey(id))
  {
  }

  lemma ExecuteExtendsLog(ctx: Context, env: Environment, plan: seq<ActionStep>, s: Session, losses: nat)
    requires SessionOk(ctx, plan, s, losses)
    ensures s.world.log <= Execute(ctx, env, s).world.log
  {
    PreparedIsPlan(ctx, plan, s, losses);
    AttemptsKeepBalance(ctx, env, s.world, Prepared(s), RETRIES, 0);
  }

  lemma UncalledStepLeavesNoteGone(ctx: Context, env: Environment, plan: seq<ActionStep>, s: Session, losses: nat,
          k: nat)
    requires SessionOk(ctx, plan, s, losses) && k < |plan| && NoteIsGone(ctx, s, plan[k])
    ensures !CrmNotes.Answered(Execute(ctx, env, s).world.crm, ctx.deal, StepKey(plan[k].id))
  {
    hide SessionOk, Execute;
    var before, after, id := s.world.log, Execute(ctx, env, s).world.log, plan[k].id;
    assert before[|before|..] == [];
    var era := Era(|before|, CrmNotes.AnsweredForAnother(s.world.crm, ctx.deal, StepKey(id)), false);
    assert NoteKept(ctx, s.world, plan[k], era);
    ExecuteKeepsNote(ctx, env, plan, s, losses, k, era);
    DoneRowStaysInResume(ctx, env, plan, s, losses, k);
    ExecuteExtendsLog(ctx, env, plan, s, losses);
    CallsSplit(after, |before|, id);
    assert after[..|before|] == before;
  }

  lemma {:induction false} CallsSplit(log: seq<Dispatch>, n: nat, id: string)
    requires n <= |log|
    ensures Calls(log, id) == Calls(log[..n], id) + Calls(log[n..], id)
  {
    if n < |log| {
      var front := log[..|log| - 1];
      CallsSplit(front, n, id);
      assert front[..n] == log[..n] && log[n..][..|log| - n - 1] == front[n..];
    } else {
      assert log[..n] == log && log[n..] == [];
    }
  }

  lemma {:induction false} RunLeavesNoteGone(ctx: Context, env: Environment, plan: seq<ActionStep>, s: Session,
          losses: nat, ops: seq<Op>, k: nat)
    requires SessionOk(ctx, plan, s, losses) && k < |plan| && NoteIsGone(ctx, s, plan[k])
    requires forall i :: 0 <= i < |ops| ==> !PostsNote(ops[i], ctx.deal, plan[k].id)
    ensures NoteIsGone(ctx, Run(ctx, env, s, ops), plan[k])
    ensures SessionOk(ctx, plan, Run(ctx, env, s, ops), losses + Losses(ctx, env, s, ops))
  {
    hide Step, SessionOk, NoteIsGone;
    if ops != [] {
      var before := ops[..|ops| - 1];
      var mid, paid := Run(ctx, env, s, before), losses + Losses(ctx, env, s, before);
      RunLeavesNoteGone(ctx, env, plan, s, losses, before, k);
      StepLeavesNoteGone(ctx, env, plan, mid, paid, ops[|ops| - 1], k);
      StepKeepsOk(ctx, env, plan, mid, paid, ops[|ops| - 1]);
    }
  }

  lemma EndedProcessHasNoNote(ctx: Context, env: Environment, plan: seq<ActionStep>, s: Session, losses: nat,
          ending: Op, k: nat)
    requires SessionOk(ctx, plan, s, losses) && k < |plan| && RowDone(s, plan[k].id) && EndsProcess(ending)
    ensures NoteIsGone(ctx, Step(ctx, env, s, ending), plan[k])
  {
    DoneRowStays(ctx, env, plan, s, losses, ending, k);
    CrmNotes.EmptyStoreIsExact();
  }

  /**
   The note of a CRM step that is recorded as executed is lost when the process ends, between calls
   or within one, and no later call of the action ever writes it again: the step log keeps the step
   from being sent.
   */
  lemma LostNoteStaysLost(ctx: Context, env: Environment, s: Session, ops: seq<Op>, ending: Op, more: seq<Op>, k: nat)
    requires Fresh(ctx, s) && k < |s.memory.steps| && RowDone(Run(ctx, env, s, ops), s.memory.steps[k].id)
    requires EndsProcess(ending) && forall i :: 0 <= i < |more| ==> !PostsNote(more[i], ctx.deal, s.memory.steps[k].id)
    ensures var later := Run(ctx, env, Step(ctx, env, Run(ctx, env, s, ops), ending), more);
            RowDone(later, s.memory.steps[k].id)
            && CrmNotes.Notes(later.world.crm.tables, ctx.deal, StepKey(s.memory.steps[k].id)) == 0
  {
    hide Step, SessionOk, Run, Loses, NoteIsGone;
    var now, plan, losses := Run(ctx, env, s, ops), s.memory.steps, Losses(ctx, env, s, ops);
    var ended := Step(ctx, env, now, ending);
    RunKeepsOk(ctx, env, s, ops);
    StepKeepsOk(ctx, env, plan, now, losses, ending);
    EndedProcessHasNoNote(ctx, env, plan, now, losses, ending, k);
    RunLeavesNoteGone(ctx, env, plan, ended, losses + One(Loses(ctx, env, now, ending)), more, k);
    GoneMeansNone(ctx, Run(ctx, env, ended, more), plan[k]);
  }

  lemma GoneMeansNone(ctx: Context, s: Session, step: ActionStep)
    requires NoteIsGone(ctx, s, step)
    ensures RowDone(s, step.id) && CrmNotes.Notes(s.world.crm.tables, ctx.deal, StepKey(step.id)) == 0
  {
    assert CrmNotes.ExactAt(s.world.crm, ctx.deal, StepKey(step.id));
  }
}
