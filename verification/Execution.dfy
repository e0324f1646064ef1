/**
 The execution agent on the steps of a plan, with the adapters it calls and the retry wrapper
 that runs it again on the same steps.  `WorkflowService` in `Orchestrator` is the in-place form.
 */
module Execution {
  import opened Options
  import opened Policy
  import opened StableSort
  import CrmTables = Crm

  // ----- Adapters -----

  /** How the environment meets a dispatch: the adapter answers, or raises before or after acting. */
  datatype Reaction = Answers(ok: bool) | Raises(terminal: bool, acted: bool)

  /** The reaction to a dispatch, with the id and the time a CRM entry made by it would carry. */
  datatype Signal = Signal(reaction: Reaction, id: string, now: int)

  /** The environment: what meets the n-th dispatch of a run. */
  type Environment = nat -> Signal

  datatype Reply = Delivered | Declined | Raised(terminal: bool)

  datatype Dispatch = Dispatch(stepId: string, order: int, reply: Reply)

  /** The CRM store, and the log of every adapter call. */
  datatype World = World(crm: CrmTables.Store, log: seq<Dispatch>)

  /** The idempotency message id of a plan step. */
  function MessageId(stepId: string): string {
    "plan-step-" + stepId
  }

  function NoteRequest(deal: string, step: ActionStep): CrmTables.Request {
    CrmTables.CrmNote(deal, step.content.note, MessageId(step.id))
  }

  function Send(ctx: Context, env: Environment, w: World, step: ActionStep): (World, Reply) {
    var signal := env(|w.log|);
    var reaction := signal.reaction;
    var written := CrmTables.Write(w.crm, NoteRequest(ctx.deal, step), signal.id, signal.now);
    var acted := reaction.Answers? || reaction.acted;
    var reply :=
      if reaction.Raises? then Raised(reaction.terminal)
      else if (if step.channel == Crm then written.1.success else reaction.ok) then Delivered
      else Declined;
    (World(if step.channel == Crm && acted then written.0 else w.crm, w.log + [Dispatch(step.id, step.order, reply)]),
        reply)
  }

  // ----- One step -----

  function Settle(step: ActionStep, receipt: Receipt): ActionStep {
    match receipt
    case Success => step.(receipt := receipt, status := Executed, lastError := None)
    case Failure(e) => step.(receipt := receipt, status := Failed, lastError := Some(e))
    case NoReceipt => step.(receipt := receipt, status := Failed, lastError := Some(AdapterFailed))
  }

  predicate Dispatches(ctx: Context, step: ActionStep) {
    Allowed(step, ctx) && !step.Done() && Supported(step)
  }

  /** The world and the step after it was handled, and whether the adapter raised (terminally or not). */
  function ExecuteOne(ctx: Context, env: Environment, w: World, step: ActionStep): (World, ActionStep, Option<bool>) {
    var block := Block(step, ctx);
    if block.Some? then (w, Settle(step.(retryCount := step.retryCount + 1), Failure(block.value)), None)
    else if step.Done() then (w, Settle(step, step.receipt), None)
    else
      var tried := step.(retryCount := step.retryCount + 1);
      if !Supported(step) then (w, Settle(tried, Failure(UnsupportedStep)), None)
      else
        var (next, reply) := Send(ctx, env, w, step);
        match reply
        case Raised(terminal) => (next, tried, Some(terminal))
        case Delivered => (next, Settle(tried, Success), None)
        case Declined => (next, Settle(tried, Failure(AdapterFailed)), None)
  }

  /** What the environment makes of a dispatch: raised, or answered with this success. */
  function ReplyTo(reaction: Reaction, ok: bool): Reply {
    match reaction
    case Raises(terminal, _) => Raised(terminal)
    case Answers(_) => if ok then Delivered else Declined
  }

  /**
   The whole effect of a dispatch: one entry of the log.  The CRM adapter also makes its write,
   unless it raised before it acted, and answers what the store answers; the others answer by themselves.
   */
  lemma SendExactly(ctx: Context, env: Environment, w: World, step: ActionStep)
    ensures var signal, (next, reply) := env(|w.log|), Send(ctx, env, w, step);
            var note := CrmTables.AppendActivity(ctx.deal, "workflow_note", step.content.note,
              "message:plan-step-" + step.id, None, map["linked_message_id" := "plan-step-" + step.id]);
            var (store, response) := CrmTables.Write(w.crm, note, signal.id, signal.now);
            && next.log == w.log + [Dispatch(step.id, step.order, reply)]
            && (if step.channel != Crm then
                  reply == ReplyTo(signal.reaction, signal.reaction.Answers? && signal.reaction.ok)
                  && next.crm == w.crm
                else
                  reply == ReplyTo(signal.reaction, response.success)
                  && next.crm == (if signal.reaction == Raises(true, false) || signal.reaction == Raises(false, false)
                                  then w.crm else store))
  {
    assert "message:" + ("plan-step-" + step.id) == "message:plan-step-" + step.id;
    hide CrmTables.Write;
  }

  /** The step as a try leaves it: counted, and settled with this receipt. */
  function Tried(step: ActionStep, error: Option<Error>): ActionStep {
    step.(retryCount := step.retryCount + 1,
          status := if error.None? then Executed else Failed,
          receipt := if error.None? then Success else Failure(error.value),
          lastError := error)
  }

  /**
   The whole effect of handling a step.  One that a gate blocks fails with the gate's error and calls
   nothing; one that is done stays so; one without an adapter fails; any other is sent once and
   becomes what its adapter replied, or stays as it is, counted, if that raised.
   */
  lemma HandlingExactly(ctx: Context, env: Environment, w: World, step: ActionStep)
    ensures var (next, after, raised) := ExecuteOne(ctx, env, w, step);
            if !Passes(step, ctx) then
              Block(step, ctx).Some? && next == w && after == Tried(step, Block(step, ctx)) && raised == None
            else if step.status == Executed && step.receipt == Success then
              next == w && after == step.(lastError := None) && raised == None
            else if !HasAdapter(step.channel, step.action) then
              next == w && after == Tried(step, Some(UnsupportedStep)) && raised == None
            else
              var (sent, reply) := Send(ctx, env, w, step);
              next == sent &&
              match reply
              case Raised(terminal) =>
                after == step.(retryCount := step.retryCount + 1) && raised == Some(terminal)
              case Delivered => after == Tried(step, None) && raised == None
              case Declined => after == Tried(step, Some(AdapterFailed)) && raised == None
  {
    BlockExactly(step, ctx);
    SupportedExactly(step);
    hide Passes, Block, HasAdapter, Supported, Send;
  }

  // ----- One attempt over the plan -----

  datatype Pass = Pass(world: World, steps: seq<ActionStep>, raised: Option<bool>)

  ghost predicate Positions(idx: seq<int>, n: nat) {
    Distinct(idx) && forall i :: 0 <= i < |idx| ==> 0 <= idx[i] < n
  }

  /** Handle the steps at positions `idx`, in that order, until an adapter raises. */
  function ExecuteAt(ctx: Context, env: Environment, w: World, steps: seq<ActionStep>, idx: seq<int>): (p: Pass)
    requires forall i :: 0 <= i < |idx| ==> 0 <= idx[i] < |steps|
    ensures |p.steps| == |steps|
    decreases |idx|
  {
    if idx == [] then Pass(w, steps, None)
    else
      var (next, step, raised) := ExecuteOne(ctx, env, w, steps[idx[0]]);
      var updated := steps[idx[0] := step];
      if raised.Some? then Pass(next, updated, raised) else ExecuteAt(ctx, env, next, updated, idx[1..])
  }

  function OrderAt(steps: seq<ActionStep>, i: int): real {
    if 0 <= i < |steps| then steps[i].order as real else 0.0
  }

  function OrderKey(steps: seq<ActionStep>): int -> real {
    i => OrderAt(steps, i)
  }

  function UpTo(n: nat): (idx: seq<int>)
    ensures |idx| == n && forall i :: 0 <= i < n ==> idx[i] == i
  {
    if n == 0 then [] else UpTo(n - 1) + [n - 1]
  }

  /** The positions of the steps in the order of execution. */
  function Ordered(steps: seq<ActionStep>): (idx: seq<int>)
    ensures |idx| == |steps| && forall i :: 0 <= i < |idx| ==> 0 <= idx[i] < |steps|
  {
    var idx := Sort(UpTo(|steps|), OrderKey(steps));
    assert forall i :: 0 <= i < |idx| ==> 0 <= idx[i] < |steps| by {
      forall i | 0 <= i < |idx| ensures 0 <= idx[i] < |steps| {
        SortKeepsMembers(UpTo(|steps|), OrderKey(steps), idx[i]);
      }
    }
    idx
  }

  lemma OrderedAscends(steps: seq<ActionStep>, i: nat, j: nat)
    requires i < j < |steps|
    ensures steps[Ordered(steps)[i]].order <= steps[Ordered(steps)[j]].order
  {
    var idx := Ordered(steps);
    SortSorts(UpTo(|steps|), OrderKey(steps));
    assert OrderKey(steps)(idx[i]) <= OrderKey(steps)(idx[j]);
  }

  lemma OrderedHasAll(steps: seq<ActionStep>, k: int)
    requires 0 <= k < |steps|
    ensures k in Ordered(steps)
  {
    assert UpTo(|steps|)[k] == k;
    SortKeepsMembers(UpTo(|steps|), OrderKey(steps), k);
  }

  lemma OrderedIsPermutation(steps: seq<ActionStep>)
    ensures Positions(Ordered(steps), |steps|)
    ensures forall k :: 0 <= k < |steps| ==> k in Ordered(steps)
  {
    SortKeepsDistinct(UpTo(|steps|), OrderKey(steps));
    forall k | 0 <= k < |steps| ensures k in Ordered(steps) { OrderedHasAll(steps, k); }
  }

  function HasOrder(steps: seq<ActionStep>, order: real): int -> bool {
    i => OrderAt(steps, i) == order
  }

  predicate Ascends(s: seq<int>) {
    forall i, j :: 0 <= i < j < |s| ==> s[i] < s[j]
  }

  lemma {:induction false} FilterOfUpTo(n: nat, p: int -> bool)
    ensures Ascends(Filter(UpTo(n), p)) && forall x :: x in Filter(UpTo(n), p) ==> x < n
  {
    if n > 0 {
      FilterOfUpTo(n - 1, p);
      var own := Filter(UpTo(n - 1), p);
      assert UpTo(n)[..n - 1] == UpTo(n - 1);
      forall i | 0 <= i < |own| ensures own[i] < n - 1 { assert own[i] in own; }
    }
  }

  lemma {:induction false} FilterHolds(s: seq<int>, p: int -> bool, i: nat)
    requires i < |s| && p(s[i])
    ensures s[i] in Filter(s, p)
  {
    if i < |s| - 1 { FilterHolds(s[..|s| - 1], p, i); }
  }

  lemma {:induction false} FilterKeepsOrder(s: seq<int>, p: int -> bool, i: nat, j: nat)
    requires i < j < |s| && p(s[i]) && p(s[j]) && Ascends(Filter(s, p))
    ensures s[i] < s[j]
  {
    var front := s[..|s| - 1];
    assert Filter(front, p) <= Filter(s, p);
    if j < |s| - 1 {
      FilterKeepsOrder(front, p, i, j);
    } else {
      FilterHolds(front, p, i);
      var own := Filter(front, p);
      assert front[i] in own;
      var k :| 0 <= k < |own| && own[k] == s[i];
      assert Filter(s, p)[k] == s[i] && Filter(s, p)[|own|] == s[j];
    }
  }

  /** Steps of equal order are executed in the order of the plan. */
  lemma OrderedIsStable(steps: seq<ActionStep>, i: nat, j: nat)
    requires i < j < |steps| && steps[Ordered(steps)[i]].order == steps[Ordered(steps)[j]].order
    ensures Ordered(steps)[i] < Ordered(steps)[j]
  {
    var idx, order := Ordered(steps), steps[Ordered(steps)[i]].order as real;
    var p := HasOrder(steps, order);
    assert p(idx[i]) && p(idx[j]);
    assert idx == Sort(UpTo(|steps|), OrderKey(steps));
    EqualOrdersAscend(steps, order);
    hide Ordered, UpTo, HasOrder, OrderAt, OrderKey;
    FilterKeepsOrder(idx, p, i, j);
  }

  lemma EqualOrdersAscend(steps: seq<ActionStep>, order: real)
    ensures Ascends(Filter(Sort(UpTo(|steps|), OrderKey(steps)), HasOrder(steps, order)))
  {
    SortIsStable(UpTo(|steps|), OrderKey(steps), HasOrder(steps, order));
    FilterOfUpTo(|steps|, HasOrder(steps, order));
  }

  function Attempt(ctx: Context, env: Environment, w: World, steps: seq<ActionStep>): (p: Pass)
    ensures |p.steps| == |steps|
  {
    ExecuteAt(ctx, env, w, steps, Ordered(steps))
  }

  /** The retry wrapper: at most `retries` further attempts, none after a terminal error. */
  function Attempts(ctx: Context, env: Environment, w: World, steps: seq<ActionStep>, retries: nat): (p: Pass)
    ensures |p.steps| == |steps|
    decreases retries
  {
    var p := Attempt(ctx, env, w, steps);
    if p.raised == Some(false) && retries > 0 then Attempts(ctx, env, p.world, p.steps, retries - 1) else p
  }
}
