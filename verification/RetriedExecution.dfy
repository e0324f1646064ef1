/**
 The attempts of an execution are the generic retry wrapper around the agent: the i-th call of the
 wrapped operation is the i-th attempt, on what the attempts before it left.
 */
module RetriedExecution {
  import opened Options
  import opened Policy
  import opened Execution
  import opened ExecutionResults
  import Retry

  /** An attempt as the wrapper sees it: it returns, or throws what the adapter raised. */
  function CallOf(p: Pass): Retry.Call<Pass, Pass> {
    if p.raised.None? then Retry.Returns(p) else Retry.Throws(p, p.raised.value)
  }

  /** The state that an outcome leaves behind. */
  function PassOf(outcome: Retry.Outcome<Pass, Pass>): (p: Pass)
    requires !outcome.NeverCalled?
  {
    if outcome.Value? then outcome.value else outcome.error
  }

  /** The first decisive attempt, or else the last one, is where `Attempts` ends. */
  lemma AttemptsEndAt(ctx: Context, env: Environment, w: World, steps: seq<ActionStep>, retries: nat, n: nat)
    requires n <= retries
    requires forall i: nat :: i < n ==> NthAttempt(ctx, env, w, steps, i).raised == Some(false)
    requires NthAttempt(ctx, env, w, steps, n).raised == Some(false) ==> n == retries
    ensures n == Retried(ctx, env, w, steps, retries)
    ensures Attempts(ctx, env, w, steps, retries) == NthAttempt(ctx, env, w, steps, n)
  {
    var m := Retried(ctx, env, w, steps, retries);
    AttemptsReturnTheDecisive(ctx, env, w, steps, retries);
    if n < m { RetriedAttemptsRaised(ctx, env, w, steps, retries, n); }
  }

  /** The retry wrapper around the agent leaves what `Attempts` says, in as many calls as it makes attempts. */
  method ExecuteWithRetries(ctx: Context, env: Environment, w: World, steps: seq<ActionStep>, retries: nat,
          backoff: Option<real>)
    returns (p: Pass, calls: nat)
    ensures p == Attempts(ctx, env, w, steps, retries)
    ensures calls == Retried(ctx, env, w, steps, retries) + 1
  {
    var call := (i: nat) => CallOf(NthAttempt(ctx, env, w, steps, i));
    var outcome, n, slept, notified := Retry.WithRetries(call, retries, backoff);
    p, calls := PassOf(outcome), n;
    forall i: nat | i < calls - 1 ensures NthAttempt(ctx, env, w, steps, i).raised == Some(false) {
      assert !Retry.Decisive(call(i));
    }
    assert outcome == Retry.Seen(call(calls - 1));
    AttemptsEndAt(ctx, env, w, steps, retries, calls - 1);
  }
}
