/**
 The guarantees of one execution of a plan, however its adapters answer or raise and however
 often the retry wrapper runs the agent again on the same steps.
 */
module ExecutionResults {
  import opened Counts
  import opened Options
  import opened Policy
  import opened StableSort
  import opened Execution

  ghost predicate DistinctIds(steps: seq<ActionStep>) {
    forall i, j :: 0 <= i < j < |steps| ==> steps[i].id != steps[j].id
  }

  predicate IsWin(d: Dispatch, id: string) {
    d.stepId == id && d.reply == Delivered
  }

  /** The adapter calls made for a step. */
  function Calls(log: seq<Dispatch>, id: string): nat {
    if log == [] then 0 else Calls(log[..|log| - 1], id) + One(log[|log| - 1].stepId == id)
  }

  /** The successful adapter calls made for a step. */
  function Wins(log: seq<Dispatch>, id: string): nat {
    if log == [] then 0 else Wins(log[..|log| - 1], id) + One(IsWin(log[|log| - 1], id))
  }

  lemma {:induction false} WinsAreCalls(log: seq<Dispatch>, id: string)
    ensures Wins(log, id) <= Calls(log, id)
  {
    if log != [] { WinsAreCalls(log[..|log| - 1], id); }
  }

  lemma CountsAppend(log: seq<Dispatch>, d: Dispatch, id: string)
    ensures Calls(log + [d], id) == Calls(log, id) + One(d.stepId == id)
    ensures Wins(log + [d], id) == Wins(log, id) + One(IsWin(d, id))
  {
    assert (log + [d])[..|log|] == log;
  }

  /** The last adapter call made for a step succeeded. */
  predicate LastWon(log: seq<Dispatch>, id: string) {
    log != [] &&
    var last := log[|log| - 1];
    if last.stepId == id then IsWin(last, id) else LastWon(log[..|log| - 1], id)
  }

  lemma LastWonAppend(log: seq<Dispatch>, d: Dispatch, id: string)
    ensures LastWon(log + [d], id) <==> if d.stepId == id then IsWin(d, id) else LastWon(log, id)
  {
    assert (log + [d])[..|log|] == log;
  }

  lemma {:induction false} LastWonIsWin(log: seq<Dispatch>, id: string)
    requires LastWon(log, id)
    ensures Wins(log, id) > 0
  {
    if log[|log| - 1].stepId != id { LastWonIsWin(log[..|log| - 1], id); }
  }

  // ----- One step -----

  /** A step that reads executed has a successful receipt. */
  predicate Sound(step: ActionStep) {
    step.status == Executed ==> step.receipt == Success
  }

  /** What handling a step does to the log and to the step. */
  predicate Handled(ctx: Context, w: World, step: ActionStep, next: World, after: ActionStep) {
    && SameStep(step, after)
    && (Sound(step) ==> Sound(after))
    && after.retryCount == step.retryCount + One(!(Allowed(step, ctx) && step.Done()))
    && (if Dispatches(ctx, step)
        then && |next.log| == |w.log| + 1
             && next.log == w.log + [next.log[|w.log|]]
             && next.log[|w.log|].stepId == step.id && next.log[|w.log|].order == step.order
             && (after.Done() <==> next.log[|w.log|].reply == Delivered)
        else && next == w
             && (after.Done() <==> Allowed(step, ctx) && step.Done()))
  }

  /** Executed with a success and no error, or failed with the error of its receipt. */
  predicate Concluded(step: ActionStep) {
    if step.Done() then step.lastError.None?
    else step.status == Failed && step.receipt.Failure? && step.lastError == Some(step.receipt.error)
  }

  lemma OneIsHandled(ctx: Context, env: Environment, w: World, step: ActionStep)
    ensures var (next, after, raised) := ExecuteOne(ctx, env, w, step);
            && Handled(ctx, w, step, next, after)
            && (raised.None? ==> Concluded(after))
            && (raised.Some? ==> Dispatches(ctx, step) && next.log[|w.log|].reply == Raised(raised.value))
  {
  }

  // ----- Conservation: a success is exactly a step's move to done -----

  /** Successes already won, and one more for a step that may still win. */
  function Balance(ctx: Context, log: seq<Dispatch>, step: ActionStep): nat {
    Wins(log, step.id) + One(Allowed(step, ctx) && !step.Done())
  }

  lemma OneGrowsLog(ctx: Context, w: World, step: ActionStep, next: World, after: ActionStep, id: string)
    requires Handled(ctx, w, step, next, after)
    ensures w.log <= next.log && Wins(w.log, id) <= Wins(next.log, id) && Calls(w.log, id) <= Calls(next.log, id)
    ensures Calls(next.log, id) == Calls(w.log, id) + One(step.id == id && Dispatches(ctx, step))
  {
    if Dispatches(ctx, step) { CountsAppend(w.log, next.log[|w.log|], id); }
  }

  lemma OneKeepsBalance(ctx: Context, w: World, step: ActionStep, next: World, after: ActionStep, other: ActionStep)
    requires Handled(ctx, w, step, next, after)
    ensures Balance(ctx, next.log, after) == Balance(ctx, w.log, step)
    ensures other.id != step.id ==> Balance(ctx, next.log, other) == Balance(ctx, w.log, other)
  {
    if Dispatches(ctx, step) {
      CountsAppend(w.log, next.log[|w.log|], step.id);
      CountsAppend(w.log, next.log[|w.log|], other.id);
    }
  }

  lemma SameStepSameGate(s: ActionStep, t: ActionStep, ctx: Context)
    requires SameStep(s, t)
    ensures Allowed(s, ctx) == Allowed(t, ctx) && Supported(s) == Supported(t)
  {
  }

  /** From (w, steps) to the result of a pass: the steps stay themselves and the balance of step `k` is kept. */
  ghost predicate BalanceKept(ctx: Context, w: World, steps: seq<ActionStep>, p: Pass, k: nat) {
    && k < |steps| == |p.steps|
    && (forall i :: 0 <= i < |steps| ==> SameStep(steps[i], p.steps[i]))
    && (Sound(steps[k]) ==> Sound(p.steps[k]))
    && (p.steps[k].Done() ==> steps[k].Done() || Allowed(steps[k], ctx))
    && w.log <= p.world.log && Wins(w.log, steps[k].id) <= Wins(p.world.log, steps[k].id)
    && Balance(ctx, p.world.log, p.steps[k]) == Balance(ctx, w.log, steps[k])
  }

  lemma BalanceKeptComposes(ctx: Context, w: World, steps: seq<ActionStep>, p: Pass, q: Pass, k: nat)
    requires BalanceKept(ctx, w, steps, p, k) && BalanceKept(ctx, p.world, p.steps, q, k)
    ensures BalanceKept(ctx, w, steps, q, k)
  {
    SameStepSameGate(steps[k], p.steps[k], ctx);
  }

  lemma OneKeepsBalanceOfAll(ctx: Context, w: World, steps: seq<ActionStep>, i: nat, next: World, step: ActionStep,
          raised: Option<bool>, k: nat)
    requires DistinctIds(steps) && k < |steps| && i < |steps|
    requires Handled(ctx, w, steps[i], next, step)
    ensures BalanceKept(ctx, w, steps, Pass(next, steps[i := step], raised), k)
  {
    OneKeepsBalance(ctx, w, steps[i], next, step, steps[k]);
    OneGrowsLog(ctx, w, steps[i], next, step, steps[k].id);
  }

  lemma {:induction false} ExecuteAtKeepsBalance(ctx: Context, env: Environment, w: World, steps: seq<ActionStep>,
          idx: seq<int>, k: nat)
    requires forall i :: 0 <= i < |idx| ==> 0 <= idx[i] < |steps|
    requires DistinctIds(steps) && k < |steps|
    ensures BalanceKept(ctx, w, steps, ExecuteAt(ctx, env, w, steps, idx), k)
    decreases |idx|
  {
    if idx != [] {
      var (next, step, raised) := ExecuteOne(ctx, env, w, steps[idx[0]]);
      var updated := steps[idx[0] := step];
      OneIsHandled(ctx, env, w, steps[idx[0]]);
      OneKeepsBalanceOfAll(ctx, w, steps, idx[0], next, step, raised, k);
      if raised.None? {
        ExecuteAtKeepsBalance(ctx, env, next, updated, idx[1..], k);
        BalanceKeptComposes(ctx, w, steps, Pass(next, updated, raised), ExecuteAt(ctx, env, next, updated, idx[1..]),
            k);
      }
    }
  }

  /** Over all attempts of one execution, the successes of a step are its moves to done. */
  lemma {:induction false} AttemptsKeepBalance(ctx: Context, env: Environment, w: World, steps: seq<ActionStep>,
          retries: nat, k: nat)
    requires DistinctIds(steps) && k < |steps|
    ensures BalanceKept(ctx, w, steps, Attempts(ctx, env, w, steps, retries), k)
    decreases retries
  {
    var p := Attempt(ctx, env, w, steps);
    ExecuteAtKeepsBalance(ctx, env, w, steps, Ordered(steps), k);
    if p.raised == Some(false) && retries > 0 {
      AttemptsKeepBalance(ctx, env, p.world, p.steps, retries - 1, k);
      BalanceKeptComposes(ctx, w, steps, p, Attempts(ctx, env, p.world, p.steps, retries - 1), k);
    }
  }

  /** So one execution succeeds at most once per step, and not at all for a step that was done or is blocked. */
  lemma AtMostOneSuccessPerExecution(ctx: Context, env: Environment, w: World, steps: seq<ActionStep>, retries: nat,
          k: nat)
    requires DistinctIds(steps) && k < |steps|
    ensures var p := Attempts(ctx, env, w, steps, retries);
            Wins(p.world.log, steps[k].id)
            == Wins(w.log, steps[k].id) + One(Allowed(steps[k], ctx) && !steps[k].Done() && p.steps[k].Done())
    ensures forall i :: 0 <= i < |steps| ==> SameStep(steps[i], Attempts(ctx, env, w, steps, retries).steps[i])
    ensures Allowed(steps[k], ctx) && steps[k].Done() ==> Attempts(ctx, env, w, steps, retries).steps[k].Done()
  {
    AttemptsKeepBalance(ctx, env, w, steps, retries, k);
    SameStepSameGate(steps[k], Attempts(ctx, env, w, steps, retries).steps[k], ctx);
  }

  // ----- What one attempt does to every step -----

  /** `k` is among the positions that were handled, or the attempt did not get there. */
  ghost predicate AttemptDid(ctx: Context, w: World, steps: seq<ActionStep>, p: Pass, k: nat, reached: bool)
    requires k < |steps| == |p.steps|
  {
    && p.steps[k].retryCount == steps[k].retryCount + One(reached && !(Allowed(steps[k], ctx) && steps[k].Done()))
    && Calls(p.world.log, steps[k].id) == Calls(w.log, steps[k].id) + One(reached && Dispatches(ctx, steps[k]))
    && (!reached ==> p.steps[k] == steps[k])
  }

  /**
   An attempt handles each position at most once: at most one adapter call and one retry count
   per step, none for a step that is done, no call for a blocked one.  If nothing raised, it
   handled them all and left each one executed or failed.
   */
  lemma {:induction false} ExecuteAtHandlesOnce(ctx: Context, env: Environment, w: World, steps: seq<ActionStep>,
          idx: seq<int>, k: nat)
    returns (reached: bool)
    requires Positions(idx, |steps|) && DistinctIds(steps) && k < |steps|
    ensures var p := ExecuteAt(ctx, env, w, steps, idx);
            && AttemptDid(ctx, w, steps, p, k, reached)
            && (reached ==> k in idx)
            && (p.raised.None? && k in idx ==> reached && Concluded(p.steps[k]))
    decreases |idx|
  {
    reached := false;
    if idx != [] {
      var (next, step, raised) := ExecuteOne(ctx, env, w, steps[idx[0]]);
      OneIsHandled(ctx, env, w, steps[idx[0]]);
      OneGrowsLog(ctx, w, steps[idx[0]], next, step, steps[k].id);
      var updated := steps[idx[0] := step];
      assert idx[0] !in idx[1..];
      if raised.None? {
        reached := ExecuteAtHandlesOnce(ctx, env, next, updated, idx[1..], k);
      }
      if idx[0] == k { reached := true; }
    }
  }

  /** Adapter calls in the order of the steps. */
  predicate Ascending(log: seq<Dispatch>, from: nat) {
    forall i, j :: from <= i < j < |log| ==> log[i].order <= log[j].order
  }

  lemma {:induction false} ExecuteAtFollowsOrder(ctx: Context, env: Environment, w: World, steps: seq<ActionStep>,
          idx: seq<int>)
    requires Positions(idx, |steps|)
    requires forall i, j :: 0 <= i < j < |idx| ==> steps[idx[i]].order <= steps[idx[j]].order
    ensures var log := ExecuteAt(ctx, env, w, steps, idx).world.log;
            && w.log <= log && Ascending(log, |w.log|)
            && forall i :: |w.log| <= i < |log| ==> idx != [] && steps[idx[0]].order <= log[i].order
    decreases |idx|
  {
    if idx != [] {
      var (next, step, raised) := ExecuteOne(ctx, env, w, steps[idx[0]]);
      OneIsHandled(ctx, env, w, steps[idx[0]]);
      var updated := steps[idx[0] := step];
      if raised.None? {
        assert forall i :: 0 <= i < |idx| ==> updated[idx[i]].order == steps[idx[i]].order;
        ExecuteAtFollowsOrder(ctx, env, next, updated, idx[1..]);
      }
    }
  }

  /** Each attempt calls the adapters in step order. */
  lemma AttemptFollowsOrder(ctx: Context, env: Environment, w: World, steps: seq<ActionStep>)
    ensures var log := Attempt(ctx, env, w, steps).world.log;
            w.log <= log && Ascending(log, |w.log|)
  {
    OrderedIsPermutation(steps);
    forall i, j | 0 <= i < j < |steps| ensures steps[Ordered(steps)[i]].order <= steps[Ordered(steps)[j]].order {
      OrderedAscends(steps, i, j);
    }
    ExecuteAtFollowsOrder(ctx, env, w, steps, Ordered(steps));
  }

  lemma AttemptHandlesOnce(ctx: Context, env: Environment, w: World, steps: seq<ActionStep>,
          k: nat) returns (reached: bool)
    requires DistinctIds(steps) && k < |steps|
    ensures var p := Attempt(ctx, env, w, steps);
            && AttemptDid(ctx, w, steps, p, k, reached)
            && (p.raised.None? ==> reached && Concluded(p.steps[k]))
  {
    OrderedIsPermutation(steps);
    reached := ExecuteAtHandlesOnce(ctx, env, w, steps, Ordered(steps), k);
  }

  lemma {:induction false} ExecuteAtLeavesEach(ctx: Context, env: Environment, w: World, steps: seq<ActionStep>,
          idx: seq<int>, k: nat)
    returns (at: World)
    requires Positions(idx, |steps|) && k < |steps| && k in idx
    requires ExecuteAt(ctx, env, w, steps, idx).raised.None?
    ensures ExecuteAt(ctx, env, w, steps, idx).steps[k] == ExecuteOne(ctx, env, at, steps[k]).1
    ensures ExecuteOne(ctx, env, at, steps[k]).2.None? && w.log <= at.log
    decreases |idx|
  {
    var (next, step, raised) := ExecuteOne(ctx, env, w, steps[idx[0]]);
    OneIsHandled(ctx, env, w, steps[idx[0]]);
    hide ExecuteOne;
    var updated := steps[idx[0] := step];
    assert idx[0] !in idx[1..];
    if idx[0] == k {
      at := w;
      UnvisitedStays(ctx, env, next, updated, idx[1..], k);
    } else {
      at := ExecuteAtLeavesEach(ctx, env, next, updated, idx[1..], k);
    }
  }

  lemma {:induction false} UnvisitedStays(ctx: Context, env: Environment, w: World, steps: seq<ActionStep>,
          idx: seq<int>, k: nat)
    requires Positions(idx, |steps|) && k < |steps| && k !in idx
    ensures ExecuteAt(ctx, env, w, steps, idx).steps[k] == steps[k]
    decreases |idx|
  {
    hide ExecuteOne;
    if idx != [] {
      var (next, step, raised) := ExecuteOne(ctx, env, w, steps[idx[0]]);
      if raised.None? { UnvisitedStays(ctx, env, next, steps[idx[0] := step], idx[1..], k); }
    }
  }

  /** An attempt that does not raise leaves each step as handling it does, after the steps before it. */
  lemma AttemptLeavesEach(ctx: Context, env: Environment, w: World, steps: seq<ActionStep>, k: nat)
    returns (at: World)
    requires k < |steps| && Attempt(ctx, env, w, steps).raised.None?
    ensures Attempt(ctx, env, w, steps).steps[k] == ExecuteOne(ctx, env, at, steps[k]).1
    ensures ExecuteOne(ctx, env, at, steps[k]).2.None? && w.log <= at.log
  {
    OrderedIsPermutation(steps);
    at := ExecuteAtLeavesEach(ctx, env, w, steps, Ordered(steps), k);
  }

  /** So a step that does not pass the policy ends the attempt failed with the error of its first gate. */
  lemma BlockedStepFails(ctx: Context, env: Environment, w: World, steps: seq<ActionStep>, k: nat)
    requires k < |steps| && Attempt(ctx, env, w, steps).raised.None? && !Passes(steps[k], ctx)
    ensures Block(steps[k], ctx).Some?
    ensures Attempt(ctx, env, w, steps).steps[k] == Tried(steps[k], Block(steps[k], ctx))
  {
    var at := AttemptLeavesEach(ctx, env, w, steps, k);
    HandlingExactly(ctx, env, at, steps[k]);
  }

  // ----- After a success there is no further call -----

  /** No adapter call for a step comes after a successful one. */
  predicate Settled(log: seq<Dispatch>, id: string) {
    forall i, j :: 0 <= i < j < |log| && IsWin(log[i], id) ==> log[j].stepId != id
  }

  lemma {:induction false} NoWins(log: seq<Dispatch>, id: string)
    ensures Wins(log, id) == 0 <==> forall i :: 0 <= i < |log| ==> !IsWin(log[i], id)
  {
    if log != [] { NoWins(log[..|log| - 1], id); }
  }

  /** A step that won is done, so nothing calls its adapter again. */
  predicate SettledBy(log: seq<Dispatch>, step: ActionStep) {
    Settled(log, step.id) && (Wins(log, step.id) > 0 ==> step.Done())
  }

  lemma OneKeepsSettled(ctx: Context, w: World, step: ActionStep, next: World, after: ActionStep, other: ActionStep)
    requires Handled(ctx, w, step, next, after)
    requires SettledBy(w.log, other)
    requires other.id == step.id ==> other == step && Allowed(step, ctx)
    ensures SettledBy(next.log, if other.id == step.id then after else other)
  {
    NoWins(w.log, other.id);
    if Dispatches(ctx, step) { CountsAppend(w.log, next.log[|w.log|], other.id); }
  }

  lemma {:induction false} ExecuteAtKeepsSettled(ctx: Context, env: Environment, w: World, steps: seq<ActionStep>,
          idx: seq<int>, k: nat)
    requires forall i :: 0 <= i < |idx| ==> 0 <= idx[i] < |steps|
    requires DistinctIds(steps) && k < |steps| && Allowed(steps[k], ctx)
    requires SettledBy(w.log, steps[k])
    ensures SettledBy(ExecuteAt(ctx, env, w, steps, idx).world.log, ExecuteAt(ctx, env, w, steps, idx).steps[k])
    decreases |idx|
  {
    if idx != [] {
      var (next, step, raised) := ExecuteOne(ctx, env, w, steps[idx[0]]);
      OneIsHandled(ctx, env, w, steps[idx[0]]);
      OneKeepsSettled(ctx, w, steps[idx[0]], next, step, steps[k]);
      var updated := steps[idx[0] := step];
      SameStepSameGate(steps[k], updated[k], ctx);
      if raised.None? { ExecuteAtKeepsSettled(ctx, env, next, updated, idx[1..], k); }
    }
  }

  lemma {:induction false} AttemptsKeepSettled(ctx: Context, env: Environment, w: World, steps: seq<ActionStep>,
          retries: nat, k: nat)
    requires DistinctIds(steps) && k < |steps| && Allowed(steps[k], ctx)
    requires SettledBy(w.log, steps[k])
    ensures var p := Attempts(ctx, env, w, steps, retries);
            SettledBy(p.world.log, p.steps[k])
    decreases retries
  {
    var p := Attempt(ctx, env, w, steps);
    ExecuteAtKeepsSettled(ctx, env, w, steps, Ordered(steps), k);
    ExecuteAtKeepsBalance(ctx, env, w, steps, Ordered(steps), k);
    SameStepSameGate(steps[k], p.steps[k], ctx);
    if p.raised == Some(false) && retries > 0 { AttemptsKeepSettled(ctx, env, p.world, p.steps, retries - 1, k); }
  }

  // ----- What is done was left so by its last call -----

  /** If the adapter of a step that is done was called since the log had `start` entries, its last call succeeded. */
  predicate DoneByCall(log: seq<Dispatch>, start: nat, step: ActionStep)
    requires start <= |log|
  {
    step.Done() && Calls(log[start..], step.id) > 0 ==> LastWon(log[start..], step.id)
  }

  lemma OneKeepsDoneByCall(ctx: Context, w: World, step: ActionStep, next: World, after: ActionStep,
          other: ActionStep, start: nat)
    requires Handled(ctx, w, step, next, after) && start <= |w.log|
    ensures start <= |next.log|
    ensures DoneByCall(w.log, start, step) ==> DoneByCall(next.log, start, after)
    ensures other.id != step.id && DoneByCall(w.log, start, other) ==> DoneByCall(next.log, start, other)
  {
    if Dispatches(ctx, step) {
      var d := next.log[|w.log|];
      assert next.log[start..] == w.log[start..] + [d];
      LastWonAppend(w.log[start..], d, step.id);
      LastWonAppend(w.log[start..], d, other.id);
      CountsAppend(w.log[start..], d, other.id);
    }
  }

  lemma {:induction false} ExecuteAtKeepsDoneByCall(ctx: Context, env: Environment, w: World, steps: seq<ActionStep>,
          idx: seq<int>, k: nat, start: nat)
    requires forall i :: 0 <= i < |idx| ==> 0 <= idx[i] < |steps|
    requires DistinctIds(steps) && k < |steps| && start <= |w.log| && DoneByCall(w.log, start, steps[k])
    ensures var p := ExecuteAt(ctx, env, w, steps, idx);
            start <= |p.world.log| && DoneByCall(p.world.log, start, p.steps[k])
    decreases |idx|
  {
    if idx != [] {
      var (next, step, raised) := ExecuteOne(ctx, env, w, steps[idx[0]]);
      OneIsHandled(ctx, env, w, steps[idx[0]]);
      OneKeepsDoneByCall(ctx, w, steps[idx[0]], next, step, steps[k], start);
      if raised.None? { ExecuteAtKeepsDoneByCall(ctx, env, next, steps[idx[0] := step], idx[1..], k, start); }
    }
  }

  lemma {:induction false} AttemptsKeepDoneByCall(ctx: Context, env: Environment, w: World, steps: seq<ActionStep>,
          retries: nat, k: nat, start: nat)
    requires DistinctIds(steps) && k < |steps| && start <= |w.log| && DoneByCall(w.log, start, steps[k])
    ensures var p := Attempts(ctx, env, w, steps, retries);
            start <= |p.world.log| && DoneByCall(p.world.log, start, p.steps[k])
    decreases retries
  {
    var p := Attempt(ctx, env, w, steps);
    ExecuteAtKeepsDoneByCall(ctx, env, w, steps, Ordered(steps), k, start);
    ExecuteAtKeepsBalance(ctx, env, w, steps, Ordered(steps), k);
    if p.raised == Some(false) && retries > 0 {
      AttemptsKeepDoneByCall(ctx, env, p.world, p.steps, retries - 1, k, start);
    }
  }

  // ----- All attempts together -----

  /** Over all attempts a blocked step is never dispatched, and retry counts grow by at most one per attempt. */
  lemma {:induction false} AttemptsAreBounded(ctx: Context, env: Environment, w: World, steps: seq<ActionStep>,
          retries: nat, k: nat)
    requires DistinctIds(steps) && k < |steps|
    ensures var p := Attempts(ctx, env, w, steps, retries);
            && steps[k].retryCount <= p.steps[k].retryCount <= steps[k].retryCount + retries + 1
            && (Allowed(steps[k], ctx) && steps[k].Done() ==> p.steps[k].retryCount == steps[k].retryCount)
            && (!Dispatches(ctx, steps[k]) ==> Calls(p.world.log, steps[k].id) == Calls(w.log, steps[k].id))
            && (p.raised.None? ==> Concluded(p.steps[k]))
    decreases retries
  {
    var p := Attempt(ctx, env, w, steps);
    var reached := AttemptHandlesOnce(ctx, env, w, steps, k);
    ExecuteAtKeepsBalance(ctx, env, w, steps, Ordered(steps), k);
    SameStepSameGate(steps[k], p.steps[k], ctx);
    if p.raised == Some(false) && retries > 0 {
      AttemptsAreBounded(ctx, env, p.world, p.steps, retries - 1, k);
    }
  }

  /** The result of the n-th attempt, each on what the one before it left. */
  function NthAttempt(ctx: Context, env: Environment, w: World, steps: seq<ActionStep>, n: nat): (p: Pass)
    ensures |p.steps| == |steps|
    decreases n
  {
    if n == 0 then Attempt(ctx, env, w, steps)
    else
      var first := Attempt(ctx, env, w, steps);
      NthAttempt(ctx, env, first.world, first.steps, n - 1)
  }

  /** How many attempts end in an error that is retried. */
  function Retried(ctx: Context, env: Environment, w: World, steps: seq<ActionStep>, retries: nat): (n: nat)
    ensures n <= retries
    decreases retries
  {
    var p := Attempt(ctx, env, w, steps);
    if p.raised == Some(false) && retries > 0 then 1 + Retried(ctx, env, p.world, p.steps, retries - 1) else 0
  }

  /**
   The retry wrapper returns the attempt after the retried ones: decisive (no error, or a terminal
   one), or the last.
   */
  lemma {:induction false} AttemptsReturnTheDecisive(ctx: Context, env: Environment, w: World,
          steps: seq<ActionStep>, retries: nat)
    ensures var n, p := Retried(ctx, env, w, steps, retries), Attempts(ctx, env, w, steps, retries);
            p == NthAttempt(ctx, env, w, steps, n) && (p.raised == Some(false) ==> n == retries)
    decreases retries
  {
    hide Attempt;
    var p := Attempt(ctx, env, w, steps);
    if p.raised == Some(false) && retries > 0 {
      AttemptsReturnTheDecisive(ctx, env, p.world, p.steps, retries - 1);
    }
  }

  lemma {:induction false} RetriedAttemptsRaised(ctx: Context, env: Environment, w: World, steps: seq<ActionStep>,
          retries: nat, i: nat)
    requires i < Retried(ctx, env, w, steps, retries)
    ensures NthAttempt(ctx, env, w, steps, i).raised == Some(false)
    decreases retries
  {
    hide Attempt;
    var p := Attempt(ctx, env, w, steps);
    assert p.raised == Some(false);
    if i == 0 {
      assert NthAttempt(ctx, env, w, steps, 0) == p;
    } else {
      RetriedAttemptsRaised(ctx, env, p.world, p.steps, retries - 1, i - 1);
      assert NthAttempt(ctx, env, w, steps, i) == NthAttempt(ctx, env, p.world, p.steps, i - 1);
    }
  }
}
