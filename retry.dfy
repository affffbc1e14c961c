/** The retry engine (`retry.WithRetry`): up to four calls of an operation, a fixed delay
    schedule, and a predicate that decides which failures are worth another call.

    The operation is given by its outcomes: `op(k)` is what the (k+1)-th call returns,
    `None` standing for a nil error. Sleeping is recorded in a ghost counter of seconds. */
module Retry {
  import opened Wrappers

  /** Seconds slept after the k-th retriable failure, k = 1..4 (index k - 1). */
  const RetryDelays: seq<nat> := [0, 1, 3, 5]

  const MaxAttempts: nat := 4

  /** What a run of the loop amounts to: the error returned, the number of calls made and
      the seconds slept. */
  datatype RetryRun<E> = RetryRun(err: Option<E>, attempts: nat, waited: nat)

  /** Seconds slept after the failures of calls k+1 .. i. */
  function DelayBetween(k: nat, i: nat): nat
    requires k <= i <= |RetryDelays|
    decreases i - k
  {
    if k == i then 0 else RetryDelays[k] + DelayBetween(k + 1, i)
  }

  /** Seconds slept before call i+1 when the first i calls all failed retriably. */
  function CumulativeDelay(i: nat): nat
    requires i <= |RetryDelays|
  {
    DelayBetween(0, i)
  }

  /** Reference definition of the loop, from iteration `k` on. */
  function RunFrom<E>(op: nat -> Option<E>, retriable: E -> bool, k: nat, lastErr: Option<E>, waited: nat): RetryRun<E>
    requires k <= |RetryDelays|
    decreases |RetryDelays| - k
  {
    if k == |RetryDelays| then RetryRun(lastErr, k, waited)
    else match op(k)
      case None => RetryRun(None, k + 1, waited)
      case Some(e) =>
        if !retriable(e) then RetryRun(Some(e), k + 1, waited)
        else RunFrom(op, retriable, k + 1, Some(e), waited + RetryDelays[k])
  }

  function Run<E>(op: nat -> Option<E>, retriable: E -> bool): RetryRun<E>
  {
    RunFrom(op, retriable, 0, None, 0)
  }

  /** `retry.WithRetry(operation, isRetriable, label)`. */
  method WithRetry<E>(op: nat -> Option<E>, retriable: E -> bool) returns (err: Option<E>, attempts: nat, ghost waited: nat)
    ensures RetryRun(err, attempts, waited) == Run(op, retriable)
    ensures 1 <= attempts <= MaxAttempts
  {
    var lastErr: Option<E> := None;
    waited := 0;
    var attempt := 0;
    while attempt < |RetryDelays|
      invariant 0 <= attempt <= |RetryDelays|
      invariant RunFrom(op, retriable, attempt, lastErr, waited) == Run(op, retriable)
      invariant attempt > 0 ==> lastErr.Some?
    {
      var e := op(attempt);
      if e.None? {
        return None, attempt + 1, waited;
      }
      lastErr := e;
      if !retriable(e.value) {
        return e, attempt + 1, waited;
      }
      if RetryDelays[attempt] != 0 {
        waited := waited + RetryDelays[attempt];  // time.Sleep
      }
      attempt := attempt + 1;
    }
    return lastErr, attempt, waited;
  }

  /** Call i+1 is the first call that ends the loop: calls 1..i failed retriably. */
  ghost predicate RetriedUpTo<E>(op: nat -> Option<E>, retriable: E -> bool, k: nat, i: nat)
  {
    forall j :: k <= j < i ==> op(j).Some? && retriable(op(j).value)
  }

  lemma {:induction false} RunFromStops<E>(op: nat -> Option<E>, retriable: E -> bool, k: nat, lastErr: Option<E>, waited: nat, i: nat)
    requires k <= i < |RetryDelays|
    requires RetriedUpTo(op, retriable, k, i)
    requires op(i).None? || !retriable(op(i).value)
    ensures RunFrom(op, retriable, k, lastErr, waited) == RetryRun(op(i), i + 1, waited + DelayBetween(k, i))
    decreases i - k
  {
    if k < i {
      RunFromStops(op, retriable, k + 1, op(k), waited + RetryDelays[k], i);
    }
  }

  lemma {:induction false} RunFromExhausted<E>(op: nat -> Option<E>, retriable: E -> bool, k: nat, lastErr: Option<E>, waited: nat)
    requires k < |RetryDelays|
    requires RetriedUpTo(op, retriable, k, |RetryDelays|)
    ensures RunFrom(op, retriable, k, lastErr, waited) == RetryRun(op(3), 4, waited + DelayBetween(k, 4))
    decreases |RetryDelays| - k
  {
    if k < 3 {
      RunFromExhausted(op, retriable, k + 1, op(k), waited + RetryDelays[k]);
    }
  }

  /** The first call that succeeds ends the run with nil; no further call is made. */
  lemma FirstSuccessStops<E>(op: nat -> Option<E>, retriable: E -> bool, i: nat)
    requires i < MaxAttempts
    requires RetriedUpTo(op, retriable, 0, i) && op(i).None?
    ensures Run(op, retriable) == RetryRun(None, i + 1, CumulativeDelay(i))
  {
    RunFromStops(op, retriable, 0, None, 0, i);
  }

  /** A failure the predicate rejects is returned at once, ending the run at that call. */
  lemma NonRetriableStops<E>(op: nat -> Option<E>, retriable: E -> bool, i: nat)
    requires i < MaxAttempts
    requires RetriedUpTo(op, retriable, 0, i) && op(i).Some? && !retriable(op(i).value)
    ensures Run(op, retriable) == RetryRun(op(i), i + 1, CumulativeDelay(i))
  {
    RunFromStops(op, retriable, 0, None, 0, i);
  }

  /** Four retriable failures: exactly four calls, the fourth error is returned, and the run
      slept 0 + 1 + 3 + 5 = 9 seconds, the last 5 after the final call. */
  lemma ExhaustedReturnsLastError<E>(op: nat -> Option<E>, retriable: E -> bool)
    requires RetriedUpTo(op, retriable, 0, MaxAttempts)
    ensures Run(op, retriable) == RetryRun(op(3), 4, 9)
    ensures CumulativeDelay(3) == 4
  {
    RunFromExhausted(op, retriable, 0, None, 0);
  }

  /** Every run makes between one and four calls, and every call but the last failed
      retriably: no call is made after a success or a non-retriable failure. */
  lemma {:induction false} RunShape<E>(op: nat -> Option<E>, retriable: E -> bool, k: nat, lastErr: Option<E>, waited: nat)
    requires k < |RetryDelays|
    ensures var r := RunFrom(op, retriable, k, lastErr, waited);
      k + 1 <= r.attempts <= MaxAttempts
      && RetriedUpTo(op, retriable, k, r.attempts - 1)
      && r.err == op(r.attempts - 1)
      && (r.attempts < MaxAttempts ==> op(r.attempts - 1).None? || !retriable(op(r.attempts - 1).value))
    decreases |RetryDelays| - k
  {
    if op(k).Some? && retriable(op(k).value) && k + 1 < |RetryDelays| {
      RunShape(op, retriable, k + 1, op(k), waited + RetryDelays[k]);
    }
  }

  /** The predicate is consulted only on the errors the calls actually returned: two
      predicates that agree on those give the same run. */
  lemma {:induction false} PredicateOnlyOnFailures<E>(op: nat -> Option<E>, r1: E -> bool, r2: E -> bool, k: nat, lastErr: Option<E>, waited: nat)
    requires k <= |RetryDelays|
    requires forall j :: k <= j < |RetryDelays| && op(j).Some? ==> r1(op(j).value) == r2(op(j).value)
    ensures RunFrom(op, r1, k, lastErr, waited) == RunFrom(op, r2, k, lastErr, waited)
    decreases |RetryDelays| - k
  {
    if k < |RetryDelays| && op(k).Some? && r1(op(k).value) {
      PredicateOnlyOnFailures(op, r1, r2, k + 1, op(k), waited + RetryDelays[k]);
    }
  }

  /** Two retriable failures followed by a success take exactly three calls and end in nil,
      after one second of waiting. */
  lemma TwoRetriableFailuresThenSuccess<E>(op: nat -> Option<E>, retriable: E -> bool)
    requires op(0).Some? && retriable(op(0).value)
    requires op(1).Some? && retriable(op(1).value)
    requires op(2).None?
    ensures Run(op, retriable) == RetryRun(None, 3, 1)
  {
    FirstSuccessStops(op, retriable, 2);
  }
}
