/**
 The two retry loops: `with_retries` around an agent, and the loop around the model provider.
 The i-th call of the wrapped operation is the i-th value of a function, so the contracts hold
 for every behaviour of the operation.
 */
module Retry {
  import opened Options

  function Pow2(n: nat): (p: nat)
    ensures p > 0
  {
    if n == 0 then 1 else 2 * Pow2(n - 1)
  }

  // ----- with_retries -----

  datatype Call<V, E> = Returns(value: V) | Throws(error: E, terminal: bool)

  predicate Decisive<V, E>(c: Call<V, E>) {
    c.Returns? || c.terminal
  }

  datatype Outcome<V, E> = Value(value: V) | Error(error: E, terminal: bool) | NeverCalled

  /** The result of a call as the caller of the loop sees it. */
  function Seen<V, E>(c: Call<V, E>): Outcome<V, E> {
    match c
    case Returns(v) => Value(v)
    case Throws(e, terminal) => Error(e, terminal)
  }

  function Delay(backoff: Option<real>, attempt: nat): real {
    if backoff.Some? then backoff.value * Pow2(attempt) as real else 0.0
  }

  /** The sleep before `k` further calls: nothing without a positive back-off, else `backoff * (2^k - 1)`. */
  function Slept(backoff: Option<real>, k: nat): real {
    if backoff.Some? && backoff.value > 0.0 then backoff.value * (Pow2(k) - 1) as real else 0.0
  }

  lemma SleptAddsUp(backoff: Option<real>, k: nat)
    ensures Slept(backoff, k + 1) == Slept(backoff, k) + (if Delay(backoff, k) > 0.0 then Delay(backoff, k) else 0.0)
  {
    if backoff.Some? { DelaysAddUp(backoff.value, k); }
  }

  lemma DelaysAddUp(b: real, k: nat)
    ensures b * (Pow2(k) - 1) as real + b * Pow2(k) as real == b * (Pow2(k + 1) - 1) as real
    ensures b > 0.0 <==> b * Pow2(k) as real > 0.0
  {
    var p := Pow2(k) as real;
    assert Pow2(k + 1) as real == 2.0 * p;
    if b <= 0.0 { assert b * p <= 0.0; }
  }

  /**
   The first decisive outcome among the first `retries + 1` calls, or else the last error; nothing
   is called for a negative count.  Sleeps double from the back-off, one before each further call.
   */
  method WithRetries<V, E>(call: nat -> Call<V, E>, retries: int, backoff: Option<real>)
    returns (outcome: Outcome<V, E>, calls: nat, slept: real, notified: seq<(nat, real)>)
    ensures retries < 0 ==> calls == 0 && outcome == NeverCalled
    ensures retries >= 0 ==> 1 <= calls <= retries + 1 && outcome == Seen(call(calls - 1))
    ensures forall i: nat :: i < calls - 1 ==> !Decisive(call(i))
    ensures retries >= 0 && !Decisive(call(calls - 1)) ==> calls == retries + 1
    ensures retries >= 0 ==> slept == Slept(backoff, calls - 1) && |notified| == calls - 1
    ensures forall i :: 0 <= i < |notified| ==> notified[i] == (i + 1, Delay(backoff, i))
  {
    outcome, calls, slept, notified := NeverCalled, 0, 0.0, [];
    var attempt := 0;
    while attempt < retries + 1
      invariant 0 <= attempt && attempt == calls == |notified|
      invariant if retries < 0 then attempt == 0 else attempt <= retries
      invariant retries < 0 ==> outcome == NeverCalled
      invariant forall i: nat :: i < calls ==> !Decisive(call(i))
      invariant slept == Slept(backoff, attempt)
      invariant forall i :: 0 <= i < |notified| ==> notified[i] == (i + 1, Delay(backoff, i))
      decreases retries - attempt
    {
      var result := call(attempt);
      calls := calls + 1;
      outcome := Seen(result);
      if Decisive(result) || attempt >= retries {
        return;
      }
      var delay := Delay(backoff, attempt);
      notified := notified + [(attempt + 1, delay)];
      if delay > 0.0 {
        slept := slept + delay;
      }
      SleptAddsUp(backoff, attempt);
      attempt := attempt + 1;
    }
  }

  // ----- generate_json -----

  /** What one provider call comes to: an answer, or one of the errors the loop tells apart. */
  datatype Provider<P> =
    | Parsed(payload: P, complete: bool)
    | NotJson
    | TimedOut
    | RetryableError
    | FatalError

  datatype ErrorCode = InvalidJson | MissingFields | Timeout | ProviderError

  datatype LlmResult<P> = LlmResult(payload: Option<P>, error: Option<ErrorCode>)

  predicate Final<P>(p: Provider<P>) {
    p.Parsed? || p.FatalError?
  }

  function Reported<P>(p: Provider<P>): LlmResult<P> {
    match p
    case Parsed(payload, complete) => LlmResult(Some(payload), if complete then None else Some(MissingFields))
    case NotJson => LlmResult(None, Some(InvalidJson))
    case TimedOut => LlmResult(None, Some(Timeout))
    case RetryableError => LlmResult(None, Some(ProviderError))
    case FatalError => LlmResult(None, Some(ProviderError))
  }

  /**
   The first final answer among the first `maxRetries + 1`, or else the report of the last one; a
   negative back-off sleeps nothing.
   */
  method GenerateJson<P>(provider: nat -> Provider<P>, maxRetries: int, backoff: real)
    returns (result: LlmResult<P>, calls: nat, slept: real)
    ensures maxRetries < 0 ==> calls == 0 && result == LlmResult(None, Some(ProviderError))
    ensures maxRetries >= 0 ==> 1 <= calls <= maxRetries + 1 && result == Reported(provider(calls - 1))
    ensures forall i: nat :: i < calls - 1 ==> !Final(provider(i))
    ensures maxRetries >= 0 && !Final(provider(calls - 1)) ==> calls == maxRetries + 1
    ensures maxRetries >= 0 ==> slept == Slept(Some(backoff), calls - 1)
  {
    var base := Some(if backoff > 0.0 then backoff else 0.0);
    var lastError := ProviderError;
    calls, slept := 0, 0.0;
    var attempt := 0;
    while attempt < maxRetries + 1
      invariant 0 <= attempt && attempt == calls
      invariant if maxRetries < 0 then attempt == 0 else attempt <= maxRetries
      invariant maxRetries < 0 ==> lastError == ProviderError
      invariant forall i: nat :: i < calls ==> !Final(provider(i))
      invariant slept == Slept(Some(backoff), attempt)
      decreases maxRetries - attempt
    {
      var answer := provider(attempt);
      calls := calls + 1;
      match answer {
        case Parsed(payload, complete) =>
          return LlmResult(Some(payload), if complete then None else Some(MissingFields)), calls, slept;
        case FatalError =>
          return LlmResult(None, Some(ProviderError)), calls, slept;
        case NotJson => lastError := InvalidJson;
        case TimedOut => lastError := Timeout;
        case RetryableError => lastError := ProviderError;
      }
      if attempt >= maxRetries {
        return LlmResult(None, Some(lastError)), calls, slept;
      }
      SleptAddsUp(Some(backoff), attempt);
      DelaysAddUp(backoff, attempt);
      slept := slept + Delay(base, attempt);
      attempt := attempt + 1;
    }
    result := LlmResult(None, Some(lastError));
  }
}
