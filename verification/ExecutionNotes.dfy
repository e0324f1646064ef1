/**
 Executing CRM steps against the CRM store: what a step that succeeded since the store was empty has
 on the deal's timeline, whatever attempts, failures, exceptions and other writes there were.
 */
module ExecutionNotes {
  import opened Counts
  import opened Options
  import opened Policy
  import opened Execution
  import opened ExecutionResults
  import Crm
  import CrmResults
  import CrmNotes

  function StepKey(id: string): string {
    "message:" + MessageId(id)
  }

  function StepCacheKey(deal: string, id: string): string {
    Crm.CacheKey(Crm.ActivityWrite, deal, StepKey(id))
  }

  lemma StepCacheKeysDiffer(deal: string, id: string, id': string)
    ensures StepCacheKey(deal, id) == StepCacheKey(deal, id') <==> id == id'
  {
    CrmResults.SameDealSameKey(Crm.ActivityWrite, deal, StepKey(id), StepKey(id'));
    CrmResults.DropPrefix("message:", MessageId(id), MessageId(id'));
    CrmResults.DropPrefix("plan-step-", id, id');
  }

  /**
   The current process: the length that the adapter log had when it started, and whether the first
   write under the step's cache key since was another client's, about another deal (`taken`) or
   about this deal and accepted (`landed`).
   */
  datatype Era = Era(start: nat, taken: bool, landed: bool)

  /** What the CRM store of a process knows of a step's note. */
  ghost predicate NoteKept(ctx: Context, w: World, step: ActionStep, era: Era) {
    && era.start <= |w.log|
    && CrmNotes.Exact(w.crm)
    && (step.channel == Policy.Crm && Wins(w.log[era.start..], step.id) > 0
        ==> CrmNotes.Remembered(w.crm, ctx.deal, StepKey(step.id)))
    && (CrmNotes.AnsweredForAnother(w.crm, ctx.deal, StepKey(step.id)) <==> era.taken)
    && (era.landed ==> CrmNotes.Answered(w.crm, ctx.deal, StepKey(step.id)))
    && (CrmNotes.Answered(w.crm, ctx.deal, StepKey(step.id)) ==> era.landed || Calls(w.log[era.start..], step.id) > 0)
  }

  /**
   A CRM step whose last call since `start` won has its note, once, unless the key was taken for
   another deal; one that was not called since has it exactly if another client's write landed.
   */
  lemma NoteIsThereExactly(ctx: Context, w: World, step: ActionStep, era: Era)
    requires NoteKept(ctx, w, step, era) && step.channel == Policy.Crm
    requires Calls(w.log[era.start..], step.id) > 0 ==> LastWon(w.log[era.start..], step.id)
    ensures CrmNotes.Notes(w.crm.tables, ctx.deal, StepKey(step.id))
         == One(if Wins(w.log[era.start..], step.id) > 0 then !era.taken else era.landed)
  {
    assert CrmNotes.ExactAt(w.crm, ctx.deal, StepKey(step.id));
    if Calls(w.log[era.start..], step.id) > 0 { LastWonIsWin(w.log[era.start..], step.id); }
  }

  /** A delivered CRM dispatch leaves its note exactly if no cached answer under its key names another deal. */
  lemma DeliveryLeavesNoteExactly(ctx: Context, env: Environment, w: World, step: ActionStep)
    requires CrmNotes.Exact(w.crm) && step.channel == Policy.Crm && Send(ctx, env, w, step).1 == Delivered
    ensures CrmNotes.Notes(Send(ctx, env, w, step).0.crm.tables, ctx.deal, StepKey(step.id))
         == One(!CrmNotes.AnsweredForAnother(w.crm, ctx.deal, StepKey(step.id)))
  {
    CrmNotes.ActivityWriteLeavesNote(w.crm, NoteRequest(ctx.deal, step), env(|w.log|).id, env(|w.log|).now);
    assert Crm.KeyOf(NoteRequest(ctx.deal, step)) == StepCacheKey(ctx.deal, step.id);
  }

  lemma SendKeepsNote(ctx: Context, env: Environment, w: World, step: ActionStep, other: ActionStep, era: Era)
    requires NoteKept(ctx, w, other, era)
    requires step.id == other.id ==> SameStep(step, other)
    ensures NoteKept(ctx, Send(ctx, env, w, step).0, other, era)
  {
    var (next, reply) := Send(ctx, env, w, step);
    var r, signal := NoteRequest(ctx.deal, step), env(|w.log|);
    assert next.log[era.start..] == w.log[era.start..] + [Dispatch(step.id, step.order, reply)];
    CountsAppend(w.log[era.start..], Dispatch(step.id, step.order, reply), other.id);
    if step.channel == Policy.Crm {
      assert Crm.KeyOf(r) == StepCacheKey(ctx.deal, step.id);
      StepCacheKeysDiffer(ctx.deal, step.id, other.id);
      CrmNotes.WriteKeepsExact(w.crm, r, signal.id, signal.now);
      CrmNotes.WriteDecidesAnswer(w.crm, r, signal.id, signal.now, ctx.deal, StepKey(other.id));
    }
  }

  lemma OneKeepsNote(ctx: Context, env: Environment, w: World, step: ActionStep, other: ActionStep, era: Era)
    requires NoteKept(ctx, w, other, era)
    requires step.id == other.id ==> SameStep(step, other)
    ensures NoteKept(ctx, ExecuteOne(ctx, env, w, step).0, other, era)
  {
    SendKeepsNote(ctx, env, w, step, other, era);
  }

  lemma NoteKeptOfSameStep(ctx: Context, w: World, step: ActionStep, other: ActionStep, era: Era)
    requires NoteKept(ctx, w, step, era) && SameStep(step, other)
    ensures NoteKept(ctx, w, other, era)
  {
  }

  lemma {:induction false} ExecuteAtKeepsNote(ctx: Context, env: Environment, w: World, steps: seq<ActionStep>,
          idx: seq<int>, k: nat, era: Era)
    requires forall i :: 0 <= i < |idx| ==> 0 <= idx[i] < |steps|
    requires DistinctIds(steps) && k < |steps| && NoteKept(ctx, w, steps[k], era)
    ensures NoteKept(ctx, ExecuteAt(ctx, env, w, steps, idx).world, steps[k], era)
    decreases |idx|
  {
    if idx != [] {
      var (next, step, raised) := ExecuteOne(ctx, env, w, steps[idx[0]]);
      var updated := steps[idx[0] := step];
      OneKeepsNote(ctx, env, w, steps[idx[0]], steps[k], era);
      if raised.None? {
        OneIsHandled(ctx, env, w, steps[idx[0]]);
        NoteKeptOfSameStep(ctx, next, steps[k], updated[k], era);
        ExecuteAtKeepsNote(ctx, env, next, updated, idx[1..], k, era);
        NoteKeptOfSameStep(ctx, ExecuteAt(ctx, env, next, updated, idx[1..]).world, updated[k], steps[k], era);
      }
    }
  }

  lemma {:induction false} AttemptsKeepNote(ctx: Context, env: Environment, w: World, steps: seq<ActionStep>,
          retries: nat, k: nat, era: Era)
    requires DistinctIds(steps) && k < |steps| && NoteKept(ctx, w, steps[k], era)
    ensures NoteKept(ctx, Attempts(ctx, env, w, steps, retries).world, steps[k], era)
    decreases retries
  {
    var p := Attempt(ctx, env, w, steps);
    ExecuteAtKeepsNote(ctx, env, w, steps, Ordered(steps), k, era);
    ExecuteAtKeepsBalance(ctx, env, w, steps, Ordered(steps), k);
    if p.raised == Some(false) && retries > 0 {
      assert SameStep(steps[k], p.steps[k]);
      AttemptsKeepNote(ctx, env, p.world, p.steps, retries - 1, k, era);
    }
  }
}
