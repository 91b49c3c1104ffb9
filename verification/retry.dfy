/** The bounded retry wrapped around V1's reply and scan reads
    (`_BackoffRetry`). Its implementation is not part of this model; the
    policy here is the one its tests pin down: call the body until it
    succeeds or `maxTries` calls have been made, and then raise the last
    failure. The sleeps between calls are not modelled. */
module Retry {
  import opened Errors

  /** Calling `attempt` under a `maxTries` policy, starting from state `s`:
      the outcome, the state after the last call, and the number of calls. */
  function RetryOn<S, T>(attempt: S -> (Result<T>, S), s: S, maxTries: nat): (r: (Result<T>, S, nat))
    requires maxTries >= 1
    ensures 1 <= r.2 <= maxTries
    decreases maxTries
  {
    var (res, next) := attempt(s);
    if res.Ok? || maxTries == 1 then (res, next, 1)
    else
      var (last, after, calls) := RetryOn(attempt, next, maxTries - 1);
      (last, after, calls + 1)
  }

  /** A first call that succeeds is the only call. */
  lemma SuccessFirstTime<S, T>(attempt: S -> (Result<T>, S), s: S, maxTries: nat)
    requires maxTries >= 1 && attempt(s).0.Ok?
    ensures RetryOn(attempt, s, maxTries) == (attempt(s).0, attempt(s).1, 1)
  {
  }

  /** A call that succeeds, or the last call allowed, ends the retry. */
  lemma RetryLast<S, T>(attempt: S -> (Result<T>, S), s: S, maxTries: nat)
    requires maxTries >= 1 && (attempt(s).0.Ok? || maxTries == 1)
    ensures RetryOn(attempt, s, maxTries) == (attempt(s).0, attempt(s).1, 1)
  {
  }

  /** A failed call with tries to spare is followed by a retry with one
      try fewer, from the state the failed call left. */
  lemma RetryAgain<S, T>(attempt: S -> (Result<T>, S), s: S, maxTries: nat)
    requires maxTries >= 2 && attempt(s).0.Err?
    ensures var more := RetryOn(attempt, attempt(s).1, maxTries - 1);
      RetryOn(attempt, s, maxTries) == (more.0, more.1, more.2 + 1)
  {
  }

  /** The loop form of the policy: from state `s` with `left` tries to
      spare, the policy ends as it does from `s0` with all `maxTries`, and
      the calls made so far plus those still to come add up. */
  ghost predicate Resumes<S, T>(attempt: S -> (Result<T>, S), s0: S, maxTries: nat, s: S, left: nat)
  {
    1 <= left <= maxTries
    && RetryOn(attempt, s, left).0 == RetryOn(attempt, s0, maxTries).0
    && RetryOn(attempt, s, left).1 == RetryOn(attempt, s0, maxTries).1
    && RetryOn(attempt, s0, maxTries).2 == maxTries - left + RetryOn(attempt, s, left).2
  }

  /** One call of the loop form: it either ends the policy with the
      call's outcome, or resumes it from the state the call left. */
  lemma RetryStep<S, T>(attempt: S -> (Result<T>, S), s0: S, maxTries: nat, s: S, left: nat)
    requires Resumes(attempt, s0, maxTries, s, left)
    ensures attempt(s).0.Ok? || left == 1 ==> RetryOn(attempt, s0, maxTries) == (attempt(s).0, attempt(s).1, maxTries - left + 1)
    ensures attempt(s).0.Err? && left > 1 ==> Resumes(attempt, s0, maxTries, attempt(s).1, left - 1)
  {
    if attempt(s).0.Ok? || left == 1 {
      RetryLast(attempt, s, left);
    } else {
      RetryAgain(attempt, s, left);
    }
  }

  /** One failure followed by a success takes exactly two calls and
      returns the second call's result. */
  lemma SuccessSecondTime<S, T>(attempt: S -> (Result<T>, S), s: S, maxTries: nat)
    requires maxTries >= 2 && attempt(s).0.Err? && attempt(attempt(s).1).0.Ok?
    ensures RetryOn(attempt, s, maxTries) == (attempt(attempt(s).1).0, attempt(attempt(s).1).1, 2)
  {
  }

  /** The `k`-th state reached by calling `attempt` repeatedly. */
  function Iterate<S, T>(attempt: S -> (Result<T>, S), s: S, k: nat): S
  {
    if k == 0 then s else Iterate(attempt, attempt(s).1, k - 1)
  }

  /** A body that fails on every call is called exactly `maxTries` times and
      its last failure is raised. */
  lemma {:induction false} PermanentFailure<S, T>(attempt: S -> (Result<T>, S), s: S, maxTries: nat)
    requires maxTries >= 1
    requires forall k :: 0 <= k < maxTries ==> attempt(Iterate(attempt, s, k)).0.Err?
    ensures var last := attempt(Iterate(attempt, s, maxTries - 1));
      RetryOn(attempt, s, maxTries) == (last.0, last.1, maxTries)
  {
    assert Iterate(attempt, s, 0) == s;
    if maxTries > 1 {
      forall k | 0 <= k < maxTries - 1
        ensures attempt(Iterate(attempt, attempt(s).1, k)).0.Err?
      {
        assert Iterate(attempt, s, k + 1) == Iterate(attempt, attempt(s).1, k);
      }
      PermanentFailure(attempt, attempt(s).1, maxTries - 1);
      assert Iterate(attempt, s, maxTries - 1) == Iterate(attempt, attempt(s).1, maxTries - 2);
    }
  }

  /** The same error raised by every call is the error the policy raises. */
  lemma SameErrorReraised<S, T>(attempt: S -> (Result<T>, S), s: S, maxTries: nat, e: Error)
    requires maxTries >= 1
    requires forall k :: 0 <= k < maxTries ==> attempt(Iterate(attempt, s, k)).0 == Err(e)
    ensures RetryOn(attempt, s, maxTries).0 == Err(e) && RetryOn(attempt, s, maxTries).2 == maxTries
  {
    PermanentFailure(attempt, s, maxTries);
  }

  /** A success is returned as soon as it happens: every earlier call failed. */
  lemma {:induction false} SuccessIsFirst<S, T>(attempt: S -> (Result<T>, S), s: S, maxTries: nat)
    requires maxTries >= 1 && RetryOn(attempt, s, maxTries).0.Ok?
    ensures var calls := RetryOn(attempt, s, maxTries).2;
      attempt(Iterate(attempt, s, calls - 1)).0 == RetryOn(attempt, s, maxTries).0
      && forall k :: 0 <= k < calls - 1 ==> attempt(Iterate(attempt, s, k)).0.Err?
  {
    if attempt(s).0.Err? {
      SuccessIsFirst(attempt, attempt(s).1, maxTries - 1);
      var calls := RetryOn(attempt, s, maxTries).2;
      forall k | 0 <= k < calls - 1
        ensures attempt(Iterate(attempt, s, k)).0.Err?
      {
        if k > 0 {
          assert Iterate(attempt, s, k) == Iterate(attempt, attempt(s).1, k - 1);
        }
      }
      assert Iterate(attempt, s, calls - 1) == Iterate(attempt, attempt(s).1, calls - 2);
    }
  }
}
