/** The wait-and-retry policy both workers configure: one initial attempt,
    up to `maxRetries` further attempts, and before retry number n (counted
    from 1) a pause of 2^n seconds. A policy retries only the outcomes its
    `handles` predicate accepts; any other outcome ends the execution at once
    and is what the execution yields (a returned value, or an exception that
    is rethrown). When the budget is spent, the last outcome is what the
    execution yields.

    The outcomes of the wrapped call are an input: `outcome(n)` is what
    attempt n (counted from 0) would produce. */
module Retry {

  function Pow2(n: nat): (r: nat)
    ensures r >= 1
  {
    if n == 0 then 1 else 2 * Pow2(n - 1)
  }

  /** The pause, in seconds, before retry number `retryAttempt` (from 1). */
  function BackoffSeconds(retryAttempt: nat): nat
  {
    Pow2(retryAttempt)
  }

  /** The pauses taken before retries 1..k, in order. */
  function Schedule(k: nat): (d: seq<nat>)
    ensures |d| == k
    ensures forall i :: 0 <= i < k ==> d[i] == BackoffSeconds(i + 1)
  {
    if k == 0 then [] else Schedule(k - 1) + [BackoffSeconds(k)]
  }

  /** Sum of a list of pauses. */
  function Total(ds: seq<nat>): nat
  {
    if |ds| == 0 then 0 else Total(ds[..|ds| - 1]) + ds[|ds| - 1]
  }

  /** What one execution of the policy did: how many times the call ran,
      the pauses taken between runs, and the outcome it yields. */
  datatype RetryRun<T> = RetryRun(attempts: nat, delays: seq<nat>, final: T)

  /** `IsStop(k)`: attempt k is where a policy stops, because every earlier
      attempt was retried and attempt k either was not retryable or used up
      the budget. An independent description of the stopping point. */
  ghost predicate IsStop<T>(outcome: nat -> T, handles: T -> bool, maxRetries: nat, k: nat)
  {
    && k <= maxRetries
    && (forall j :: 0 <= j < k ==> handles(outcome(j)))
    && (k == maxRetries || !handles(outcome(k)))
  }

  /** The execution from attempt `n` on, given that attempts 0..n-1 were
      retried. */
  function RetryFrom<T>(outcome: nat -> T, handles: T -> bool, maxRetries: nat, n: nat): (r: RetryRun<T>)
    requires n <= maxRetries
    decreases maxRetries - n
    ensures n < r.attempts <= maxRetries + 1
    ensures |r.delays| == r.attempts - 1 - n
    ensures forall i :: 0 <= i < |r.delays| ==> r.delays[i] == BackoffSeconds(n + 1 + i)
    ensures r.final == outcome(r.attempts - 1)
    ensures forall j :: n <= j < r.attempts - 1 ==> handles(outcome(j))
    ensures r.attempts <= maxRetries ==> !handles(r.final)
  {
    if n == maxRetries || !handles(outcome(n)) then
      RetryRun(n + 1, [], outcome(n))
    else
      var rest := RetryFrom(outcome, handles, maxRetries, n + 1);
      RetryRun(rest.attempts, [BackoffSeconds(n + 1)] + rest.delays, rest.final)
  }

  /** One execution of a wait-and-retry policy with `maxRetries` retries. */
  function RetryWithBackoff<T>(outcome: nat -> T, handles: T -> bool, maxRetries: nat): (r: RetryRun<T>)
    ensures 1 <= r.attempts <= maxRetries + 1
    ensures IsStop(outcome, handles, maxRetries, r.attempts - 1)
    ensures r.delays == Schedule(r.attempts - 1)
    ensures r.final == outcome(r.attempts - 1)
  {
    RetryFrom(outcome, handles, maxRetries, 0)
  }

  /** The stopping point is unique, so the number of attempts is exactly
      one more than the index `IsStop` describes. */
  lemma RetryStopsExactlyAtStop<T>(outcome: nat -> T, handles: T -> bool, maxRetries: nat, k: nat)
    ensures RetryWithBackoff(outcome, handles, maxRetries).attempts == k + 1
            <==> IsStop(outcome, handles, maxRetries, k)
  {
    var m := RetryWithBackoff(outcome, handles, maxRetries).attempts - 1;
    if IsStop(outcome, handles, maxRetries, k) {
      StopIsUnique(outcome, handles, maxRetries, k, m);
    }
  }

  lemma StopIsUnique<T>(outcome: nat -> T, handles: T -> bool, maxRetries: nat, k: nat, m: nat)
    requires IsStop(outcome, handles, maxRetries, k)
    requires IsStop(outcome, handles, maxRetries, m)
    ensures k == m
  {
  }

  /** A first outcome that is not retried ends the execution after one call. */
  lemma FirstSuccessStops<T>(outcome: nat -> T, handles: T -> bool, maxRetries: nat)
    requires !handles(outcome(0))
    ensures RetryWithBackoff(outcome, handles, maxRetries) == RetryRun(1, [], outcome(0))
  {
    RetryStopsExactlyAtStop(outcome, handles, maxRetries, 0);
  }

  /** When every attempt is retryable the whole budget is used and the
      execution yields the last (retryable) outcome. */
  lemma AlwaysFailingExhausts<T>(outcome: nat -> T, handles: T -> bool, maxRetries: nat)
    requires forall j :: 0 <= j <= maxRetries ==> handles(outcome(j))
    ensures RetryWithBackoff(outcome, handles, maxRetries).attempts == maxRetries + 1
    ensures handles(RetryWithBackoff(outcome, handles, maxRetries).final)
  {
    RetryStopsExactlyAtStop(outcome, handles, maxRetries, maxRetries);
  }

  lemma {:induction false} Pow2Increasing(a: nat, b: nat)
    requires a < b
    ensures Pow2(a) < Pow2(b)
    decreases b
  {
    if a + 1 < b {
      Pow2Increasing(a, b - 1);
    }
  }

  /** The pauses grow strictly from one retry to the next. */
  lemma ScheduleIncreasing(k: nat, i: nat, j: nat)
    requires i < j < k
    ensures Schedule(k)[i] < Schedule(k)[j]
  {
    Pow2Increasing(i + 1, j + 1);
  }

  /** Pausing before retries 1..k takes 2^(k+1) - 2 seconds in all. */
  lemma {:induction false} ScheduleTotal(k: nat)
    ensures Total(Schedule(k)) == Pow2(k + 1) - 2
  {
    if k > 0 {
      ScheduleTotal(k - 1);
      assert Schedule(k)[..k - 1] == Schedule(k - 1);
    }
  }

  /** Waiting never exceeds what the full budget would take. */
  lemma RetryTotalDelayBounded<T>(outcome: nat -> T, handles: T -> bool, maxRetries: nat)
    ensures Total(RetryWithBackoff(outcome, handles, maxRetries).delays) <= Pow2(maxRetries + 1) - 2
  {
    var r := RetryWithBackoff(outcome, handles, maxRetries);
    ScheduleTotal(r.attempts - 1);
    if r.attempts - 1 < maxRetries {
      Pow2Increasing(r.attempts, maxRetries + 1);
    }
  }

  /** The pauses before the first `a` retries are a prefix of those before
      the first `b`, so a run that stops early paused as a full run began. */
  lemma SchedulePrefix(a: nat, b: nat)
    requires a <= b
    ensures Schedule(a) <= Schedule(b)
  {
  }
}
