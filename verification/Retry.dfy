/**
 The retry loop of resilience/retry.go. What the function answers and when the context ends is a script
 indexed by the attempt, starting at 1; sleeping is the passage of an attempt's wait.
 */
module Retries {
  import opened Common

  type Error = nat

  datatype Answer = Ok | Err(error: Error)

  /** How a script plays against the loop. */
  datatype Script = Script(
    answers: nat -> Answer,       // what attempt k answers
    doneBefore: nat -> bool,      // the context is done when attempt k is about to start
    doneWaiting: nat -> bool      // the context ends during the wait after attempt k
  )

  datatype Outcome = Success | FunctionError(error: Error) | ContextError

  datatype Config = Config(maxAttempts: int, initialDelay: real, maxDelay: real, multiplier: real, jitter: real, retryable: seq<Error>)

  predicate Valid(c: Config) {
    c.maxAttempts > 0 && c.initialDelay > 0.0 && c.maxDelay > 0.0 && c.multiplier > 0.0 && 0.0 <= c.jitter <= 1.0
  }

  /** The defaults of NewRetry. Durations are nanoseconds. */
  function Normalize(c: Config): (r: Config)
    ensures Valid(r)
    ensures r.maxAttempts == (if c.maxAttempts > 0 then c.maxAttempts else 3) && r.retryable == c.retryable
    ensures r.initialDelay == if c.initialDelay > 0.0 then c.initialDelay else 100_000_000.0
    ensures r.maxDelay == if c.maxDelay > 0.0 then c.maxDelay else 10_000_000_000.0
    ensures r.multiplier == if c.multiplier > 0.0 then c.multiplier else 2.0
    ensures r.jitter == if 0.0 <= c.jitter <= 1.0 then c.jitter else 0.1
  {
    Config(if c.maxAttempts <= 0 then 3 else c.maxAttempts,
           if c.initialDelay <= 0.0 then 100_000_000.0 else c.initialDelay,
           if c.maxDelay <= 0.0 then 10_000_000_000.0 else c.maxDelay,
           if c.multiplier <= 0.0 then 2.0 else c.multiplier,
           if c.jitter < 0.0 || c.jitter > 1.0 then 0.1 else c.jitter,
           c.retryable)
  }

  predicate IsRetryable(c: Config, e: Error) {
    c.retryable == [] || e in c.retryable
  }

  /** Attempt `k` failed in a way that is retried, and there is an attempt left. */
  predicate Continues(c: Config, s: Script, k: nat) {
    s.answers(k).Err? && IsRetryable(c, s.answers(k).error) && k < c.maxAttempts && !s.doneWaiting(k)
  }

  /** What the caller may rely on: `calls` attempts were made, all but the last were retried, the context
      was not done before any of them, and the result is the one the last attempt or the context gave. */
  predicate Explains(c: Config, s: Script, r: Outcome, calls: nat) {
    && calls <= c.maxAttempts
    && (forall k | 1 <= k <= calls :: !s.doneBefore(k))
    && (forall k | 1 <= k < calls :: Continues(c, s, k))
    && match r
       case Success => calls > 0 && s.answers(calls) == Ok
       case FunctionError(e) =>
         calls > 0 && s.answers(calls) == Err(e) && (!IsRetryable(c, e) || calls == c.maxAttempts)
       case ContextError =>
         || (calls < c.maxAttempts && s.doneBefore(calls + 1) && (calls == 0 || Continues(c, s, calls)))
         || (0 < calls < c.maxAttempts && s.answers(calls).Err? && IsRetryable(c, s.answers(calls).error) && s.doneWaiting(calls))
  }

  lemma FirstEndsIt(c: Config, s: Script, r: Outcome, calls: nat, r': Outcome, calls': nat)
    requires c.maxAttempts > 0 && Explains(c, s, r, calls) && Explains(c, s, r', calls')
    ensures calls >= calls'
  {
    assert calls < calls' ==> !s.doneBefore(calls + 1) && (calls > 0 ==> Continues(c, s, calls));
  }

  /** The explanation leaves no choice: it determines the result and the number of calls. */
  lemma ExplanationUnique(c: Config, s: Script, r: Outcome, calls: nat, r': Outcome, calls': nat)
    requires c.maxAttempts > 0 && Explains(c, s, r, calls) && Explains(c, s, r', calls')
    ensures calls == calls' && r == r'
  {
    if calls < calls' {
      FirstEndsIt(c, s, r, calls, r', calls');
    } else if calls' < calls {
      FirstEndsIt(c, s, r', calls', r, calls);
    }
  }

  /** Retry.ExecuteWithContext. */
  method ExecuteWithContext(c: Config, s: Script) returns (r: Outcome, calls: nat)
    requires Valid(c)
    ensures Explains(c, s, r, calls)
    ensures calls <= c.maxAttempts
  {
    calls := 0;
    var attempt := 1;
    var lastErr: Error := 0;
    while attempt <= c.maxAttempts
      invariant 1 <= attempt <= c.maxAttempts && calls == attempt - 1
      invariant forall k | 1 <= k <= calls :: !s.doneBefore(k)
      invariant forall k | 1 <= k <= calls :: Continues(c, s, k)
      decreases c.maxAttempts - attempt
    {
      if s.doneBefore(attempt) {
        return ContextError, calls;
      }
      calls := calls + 1;
      var answer := s.answers(attempt);
      if answer.Ok? {
        return Success, calls;
      }
      lastErr := answer.error;
      if !IsRetryable(c, lastErr) {
        return FunctionError(lastErr), calls;
      }
      if attempt == c.maxAttempts {
        break;
      }
      if s.doneWaiting(attempt) {
        return ContextError, calls;
      }
      attempt := attempt + 1;
    }
    r := FunctionError(lastErr);
  }

  /** Under a context that never ends the function is called until it succeeds, fails with an error that the
      configuration lists others but not, or has used up its attempts; an empty list stops at no error. */
  lemma CallsExactly(c: Config, s: Script, r: Outcome, calls: nat)
    requires c.maxAttempts > 0 && Explains(c, s, r, calls)
    requires forall k: nat :: !s.doneBefore(k) && !s.doneWaiting(k)
    ensures 1 <= calls <= c.maxAttempts && r == match s.answers(calls) case Ok => Success case Err(e) => FunctionError(e)
    ensures forall k | 1 <= k < calls ::
              s.answers(k).Err? && (c.retryable == [] || s.answers(k).error in c.retryable)
    ensures s.answers(calls).Ok? || calls == c.maxAttempts
            || (c.retryable != [] && s.answers(calls).error !in c.retryable)
  {
    assert !s.doneBefore(calls + 1);
    forall k | 1 <= k < calls ensures s.answers(k).Err? && (c.retryable == [] || s.answers(k).error in c.retryable) {
      assert Continues(c, s, k);
    }
  }

  /** A function that always fails with retryable errors under a context that never ends is called
      exactly maxAttempts times. */
  lemma AlwaysFailingUsesAllAttempts(c: Config, s: Script, r: Outcome, calls: nat)
    requires c.maxAttempts > 0 && Explains(c, s, r, calls)
    requires forall k: nat :: s.answers(k).Err? && (c.retryable == [] || s.answers(k).error in c.retryable)
    requires forall k: nat :: !s.doneBefore(k) && !s.doneWaiting(k)
    ensures calls == c.maxAttempts && r == FunctionError(s.answers(calls).error)
  {
    CallsExactly(c, s, r, calls);
  }

  // ----- the delay

  function Power(x: real, n: nat): real {
    if n == 0 then 1.0 else x * Power(x, n - 1)
  }

  /** The delay before jitter: initialDelay * multiplier^(attempt - 1). */
  function Backoff(c: Config, attempt: nat): real
    requires attempt >= 1
  {
    c.initialDelay * Power(c.multiplier, attempt - 1)
  }

  lemma Nonnegative(x: real, y: real)
    requires x >= 0.0 && y >= 0.0
    ensures x * y >= 0.0
  {
  }

  lemma SwingWithin(swing: real, jitter: real)
    requires -1.0 <= swing <= 1.0 && jitter >= 0.0
    ensures -jitter <= swing * jitter <= jitter
  {
    Nonnegative(1.0 - swing, jitter);
    Nonnegative(1.0 + swing, jitter);
  }

  /** random(-jitter, +jitter). */
  function Swing(random: real, jitter: real): (r: real)
    requires 0.0 <= random < 1.0 && jitter >= 0.0
    ensures -jitter <= r <= jitter
  {
    SwingWithin(random * 2.0 - 1.0, jitter);
    (random * 2.0 - 1.0) * jitter
  }

  /** calculateDelay, with `random` the value in [0, 1) that the generator gave. */
  function Delay(c: Config, attempt: nat, random: real): real
    requires attempt >= 1 && 0.0 <= random < 1.0 && c.jitter >= 0.0
  {
    var delay := Backoff(c, attempt) * (1.0 + Swing(random, c.jitter));
    if delay > c.maxDelay then c.maxDelay else delay
  }

  lemma {:induction false} PowerPositive(x: real, n: nat)
    requires x > 0.0
    ensures Power(x, n) > 0.0
  {
    if n > 0 {
      PowerPositive(x, n - 1);
    }
  }

  lemma JitteredWithin(base: real, jitter: real, bound: real)
    requires base >= 0.0 && -bound <= jitter <= bound <= 1.0
    ensures 0.0 <= base * (1.0 - bound) <= base * (1.0 + jitter) <= base * (1.0 + bound)
  {
    Nonnegative(base, 1.0 - bound);
    Nonnegative(base, jitter + bound);
    Nonnegative(base, bound - jitter);
  }

  /** The wait is never negative nor above the maximum, jitter included, and below the maximum it is
      within the jitter of the exponential backoff. */
  lemma DelayBounds(c: Config, attempt: nat, random: real)
    requires Valid(c) && attempt >= 1 && 0.0 <= random < 1.0
    ensures 0.0 <= Delay(c, attempt, random) <= c.maxDelay
    ensures Delay(c, attempt, random) < c.maxDelay ==>
              Backoff(c, attempt) * (1.0 - c.jitter) <= Delay(c, attempt, random) <= Backoff(c, attempt) * (1.0 + c.jitter)
  {
    PowerPositive(c.multiplier, attempt - 1);
    Nonnegative(c.initialDelay, Power(c.multiplier, attempt - 1));
    JitteredWithin(Backoff(c, attempt), Swing(random, c.jitter), c.jitter);
  }

  lemma Regroup(x: real, y: real, z: real)
    ensures x * (y * z) == x * z * y
  {
  }

  lemma Spread(x: real, y: real)
    ensures x * (1.0 + y) == x + x * y
  {
  }

  /** The backoff starts at the initial delay and is multiplied by each further attempt; the wait is the
      backoff with its jitter, and the maximum exactly when that is no shorter. */
  lemma DelayExactly(c: Config, attempt: nat, random: real)
    requires Valid(c) && attempt >= 1 && 0.0 <= random < 1.0
    ensures Backoff(c, 1) == c.initialDelay && Backoff(c, attempt + 1) == Backoff(c, attempt) * c.multiplier
    ensures var jittered := Backoff(c, attempt) + Backoff(c, attempt) * ((2.0 * random - 1.0) * c.jitter);
            && (Delay(c, attempt, random) == c.maxDelay <==> jittered >= c.maxDelay)
            && (Delay(c, attempt, random) != c.maxDelay ==> Delay(c, attempt, random) == jittered)
  {
    var p := Power(c.multiplier, attempt - 1);
    assert Power(c.multiplier, attempt) == c.multiplier * p;
    Regroup(c.initialDelay, c.multiplier, p);
    assert c.initialDelay * Power(c.multiplier, 0) == c.initialDelay;
    Spread(Backoff(c, attempt), Swing(random, c.jitter));
  }
}
