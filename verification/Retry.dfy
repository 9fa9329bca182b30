/** Bounded retries: the collector's reads (bytesRequest and retryDelay in internal/collector/collector.go)
    and the rules shared with the browser's (internal/server/web/retry.js). */
module Retry {
  import opened Prelude

  const MAX_READ_RETRIES := 10
  const DEFAULT_MAX_DELAY := 30_000_000_000 // 30 s in nanoseconds

  /** The outcome of one attempt; retryAfter is the server's wish, 0 without one. */
  datatype Outcome<+T> = Success(value: T) | Failure(retryable: bool, retryAfter: int)

  /** What attempts `attempt`..`total` yield together. */
  function Run<T>(outcomes: nat -> Outcome<T>, attempt: nat, total: nat, maxDelay: int): Option<T>
    decreases total + 1 - attempt
  {
    if attempt > total then None
    else
      match outcomes(attempt)
      case Success(v) => Some(v)
      case Failure(retryable, after) =>
        if !retryable || attempt == total || after > maxDelay then None
        else Run(outcomes, attempt + 1, total, maxDelay)
  }

  ghost predicate Survivable<T>(o: Outcome<T>, maxDelay: int) {
    o.Failure? && o.retryable && o.retryAfter <= maxDelay
  }

  /** A run yields v exactly when some allowed attempt does and every attempt before it failed survivably. */
  lemma {:induction false} RunYields<T>(outcomes: nat -> Outcome<T>, attempt: nat, total: nat, maxDelay: int, v: T)
    ensures Run(outcomes, attempt, total, maxDelay) == Some(v)
       <==> exists k: nat :: attempt <= k <= total && outcomes(k) == Success(v)
                             && forall j: nat :: attempt <= j < k ==> Survivable(outcomes(j), maxDelay)
    decreases total + 1 - attempt
  {
    if attempt <= total && outcomes(attempt).Failure? && Survivable(outcomes(attempt), maxDelay) && attempt < total {
      RunYields(outcomes, attempt + 1, total, maxDelay, v);
      if Run(outcomes, attempt + 1, total, maxDelay) == Some(v) {
        var k: nat :| attempt + 1 <= k <= total && outcomes(k) == Success(v)
                      && forall j: nat :: attempt + 1 <= j < k ==> Survivable(outcomes(j), maxDelay);
        assert forall j: nat :: attempt <= j < k ==> Survivable(outcomes(j), maxDelay);
      }
    } else if attempt <= total && outcomes(attempt) == Success(v) {
      assert forall j: nat :: attempt <= j < attempt ==> Survivable(outcomes(j), maxDelay);
    } else {
      assert attempt <= total ==> outcomes(attempt) != Success(v);
      assert attempt < total ==> !Survivable(outcomes(attempt), maxDelay);
    }
  }

  /** retryDelay as a function: doubling from the base, jumping to the maximum from half of it on. */
  function Delay(base: int, maxDelay: int, doublings: nat): int {
    if doublings == 0 then base
    else
      var d := Delay(base, maxDelay, doublings - 1);
      if d >= maxDelay / 2 then maxDelay else 2 * d
  }

  method RetryDelay(base: int, maxDelay: int, failedAttempt: nat) returns (delay: int)
    requires failedAttempt >= 1 && 0 < maxDelay <= INT64_MAX
    ensures delay == Min(maxDelay, Delay(Max(0, base), maxDelay, failedAttempt - 1))
  {
    delay := if base < 0 then 0 else base;
    var i := 1;
    while i < failedAttempt
      invariant 1 <= i <= failedAttempt
      invariant delay == Delay(Max(0, base), maxDelay, i - 1)
    {
      if delay >= maxDelay / 2 {
        DelaySaturates(Max(0, base), maxDelay, i, failedAttempt - 1);
        return maxDelay;
      }
      delay := delay * 2;
      i := i + 1;
    }
    if delay > maxDelay { return maxDelay; }
  }

  lemma {:induction false} DelaySaturates(base: int, maxDelay: int, i: nat, n: nat)
    requires 1 <= i <= n && 0 < maxDelay && Delay(base, maxDelay, i - 1) >= maxDelay / 2
    ensures Delay(base, maxDelay, n) == maxDelay
  {
    if n > i { DelaySaturates(base, maxDelay, i, n - 1); }
  }

  /** Delays never shrink from one attempt to the next, and never exceed the maximum. */
  lemma {:induction false} DelayGrows(base: int, maxDelay: int, n: nat)
    requires 0 <= base && 0 < maxDelay
    ensures 0 <= Min(maxDelay, Delay(base, maxDelay, n)) <= Min(maxDelay, Delay(base, maxDelay, n + 1)) <= maxDelay
    ensures Delay(base, maxDelay, n) <= Max(base, maxDelay) && Delay(base, maxDelay, n) >= 0
  {
    if n > 0 { DelayGrows(base, maxDelay, n - 1); }
  }

  function Power(n: nat): nat { if n == 0 then 1 else 2 * Power(n - 1) }

  /** After n doublings the pause is base times 2^n, within the maximum; where that is one below an odd maximum it is
      the maximum. */
  lemma {:induction false} DelayExactly(base: nat, maxDelay: int, n: nat)
    requires 0 < maxDelay
    ensures Min(maxDelay, Delay(base, maxDelay, n))
         == if n > 0 && base * Power(n) == maxDelay - 1 then maxDelay else Min(maxDelay, base * Power(n))
  {
    if n > 0 {
      DelayExactly(base, maxDelay, n - 1);
      Doubled(base, Power(n - 1));
    } else {
      assert base * Power(0) == base;
    }
  }

  lemma Doubled(a: nat, b: nat)
    ensures a * (2 * b) == 2 * (a * b)
  {}

  function Limited(o: Outcome<bytes>, limit: int): Outcome<bytes> {
    if o.Success? && |o.value| > limit then Failure(false, 0) else o
  }

  datatype Policy = Policy(retries: int, base: int, maxDelay: int)

  function Attempts(policy: Policy): (n: nat) { Min(Max(policy.retries, 0), MAX_READ_RETRIES) + 1 }
  function Ceiling(policy: Policy): int { if policy.maxDelay <= 0 then DEFAULT_MAX_DELAY else policy.maxDelay }

  /** What a read brings back in the end. */
  function Fetched(outcomes: nat -> Outcome<bytes>, limit: int, policy: Policy): Option<bytes> {
    Run(i => Limited(outcomes(i), limit), 1, Attempts(policy), Ceiling(policy))
  }

  /** A read brings back a body exactly if one of at most eleven attempts delivers it within the limit, and every one
      before failed in a way that is worth repeating; a body beyond the limit ends the read. */
  lemma FetchedExactly(outcomes: nat -> Outcome<bytes>, limit: int, policy: Policy, body: bytes)
    ensures Fetched(outcomes, limit, policy) == Some(body)
       <==> |body| <= limit
            && exists k: nat :: 1 <= k <= 1 + Min(Max(policy.retries, 0), 10) && outcomes(k) == Success(body)
                 && forall j: nat :: 1 <= j < k ==> Survivable(outcomes(j), Ceiling(policy))
  {
    var limited: nat -> Outcome<bytes> := i => Limited(outcomes(i), limit);
    var total, ceiling := Attempts(policy), Ceiling(policy);
    RunYields(limited, 1, total, ceiling, body);
    hide Run;
    forall j: nat ensures Survivable(limited(j), ceiling) <==> Survivable(outcomes(j), ceiling) {}
    forall k: nat ensures limited(k) == Success(body) <==> outcomes(k) == Success(body) && |body| <= limit {}
    if Fetched(outcomes, limit, policy) == Some(body) {
      var k: nat :| 1 <= k <= total && limited(k) == Success(body)
                    && forall j: nat :: 1 <= j < k ==> Survivable(limited(j), ceiling);
      assert outcomes(k) == Success(body) && |body| <= limit;
    }
  }

  /** The pause after the failed attempt: the grown delay, or what the server asked for if that is longer. */
  function PauseAfter(policy: Policy, failedAttempt: nat, retryAfter: int): int
    requires failedAttempt >= 1
  {
    Max(retryAfter, Min(Ceiling(policy), Delay(Max(0, policy.base), Ceiling(policy), failedAttempt - 1)))
  }

  /** The pause after attempt i + 1 answers how it failed. */
  predicate Paused(outcomes: nat -> Outcome<bytes>, limit: int, policy: Policy, i: nat, pause: int) {
    var o := Limited(outcomes(i + 1), limit);
    o.Failure? && pause == PauseAfter(policy, i + 1, o.retryAfter)
  }

  method BytesRequest(outcomes: nat -> Outcome<bytes>, limit: int, policy: Policy)
    returns (payload: Option<bytes>, sleeps: seq<int>)
    requires policy.maxDelay <= INT64_MAX
    ensures payload == Fetched(outcomes, limit, policy)
    ensures |sleeps| < Attempts(policy) <= MAX_READ_RETRIES + 1
    ensures forall i :: 0 <= i < |sleeps| ==> 0 <= sleeps[i] <= Ceiling(policy)
    ensures forall i :: 0 <= i < |sleeps| ==> Paused(outcomes, limit, policy, i, sleeps[i])
  {
    var attempts, ceiling := Attempts(policy), Ceiling(policy);
    sleeps := [];
    ghost var limited: nat -> Outcome<bytes> := i => Limited(outcomes(i), limit);
    var attempt := 1;
    while true
      invariant 1 <= attempt <= attempts && |sleeps| == attempt - 1
      invariant forall i :: 0 <= i < |sleeps| ==> 0 <= sleeps[i] <= ceiling
      invariant forall i :: 0 <= i < |sleeps| ==> Paused(outcomes, limit, policy, i, sleeps[i])
      invariant Run(limited, attempt, attempts, ceiling) == Fetched(outcomes, limit, policy)
      decreases attempts - attempt
    {
      var o := Limited(outcomes(attempt), limit);
      assert o == limited(attempt);
      if o.Success? { return Some(o.value), sleeps; }
      if !o.retryable || attempt == attempts { return None, sleeps; }
      if o.retryAfter > ceiling { return None, sleeps; }
      var delay := RetryDelay(policy.base, ceiling, attempt);
      DelayGrows(Max(0, policy.base), ceiling, attempt - 1);
      if o.retryAfter > delay { delay := o.retryAfter; }
      assert Paused(outcomes, limit, policy, attempt - 1, delay);
      sleeps := sleeps + [delay];
      attempt := attempt + 1;
    }
  }
}
