/** The `retry` decorator that wraps every remote call: up to `tries` calls, a
    sleep of `delay` after the first caught failure, the delay multiplied by
    `backoff` after each further one, and a last call outside the `try`.
    `time.sleep` refuses a negative length with `ValueError`, which escapes the
    `except` block it is called from.

    The wrapped function is a scripted environment: `attempt(k)` is what its
    k-th call (counted from 0) does.  The sleeps are returned as the sequence of
    their durations. */
module Retry {
  import opened Base

  /** What one call of the wrapped function does. */
  datatype Outcome<T> = Ok(value: T) | Raise(error: Exception)

  /** What the decorated call does: return a value or let an exception out. */
  datatype Result<T> = Returned(value: T) | Raised(error: Exception)

  /** A whole decorated call: its result, how many times the wrapped function
      was called, and the durations slept in between. */
  datatype Run<T> = Run(result: Result<T>, calls: nat, sleeps: seq<int>)

  /** The decorator's defaults and the exception tuple every remote call passes. */
  const Tries := 4
  const Delay := 5
  const Backoff := 2
  const NetworkErrors: set<Exception> := {ConnectionError, Timeout}

  function Finish<T>(o: Outcome<T>): Result<T>
  {
    match o
    case Ok(v) => Returned(v)
    case Raise(e) => Raised(e)
  }

  function Max(a: int, b: int): int
  {
    if a < b then b else a
  }

  /** The decorator from call number `k` on, with `mtries` tries and the current
      delay `mdelay` left. */
  function RetryFrom<T>(exceptions: set<Exception>, attempt: nat -> Outcome<T>,
                        mtries: int, mdelay: int, backoff: int, k: nat): Run<T>
    decreases if mtries > 1 then mtries else 0
  {
    if mtries > 1 then
      match attempt(k)
      case Ok(v) => Run(Returned(v), k + 1, [])
      case Raise(e) =>
        if e !in exceptions then Run(Raised(e), k + 1, [])
        else if mdelay < 0 then Run(Raised(ValueError), k + 1, [])
        else
          var rest := RetryFrom(exceptions, attempt, mtries - 1, mdelay * backoff, backoff, k + 1);
          rest.(sleeps := [mdelay] + rest.sleeps)
    else
      Run(Finish(attempt(k)), k + 1, [])
  }

  /** A run preceded by the sleeps `s`. */
  function Prepend<T>(s: seq<int>, r: Run<T>): Run<T>
  {
    r.(sleeps := s + r.sleeps)
  }

  /** What a decorated call with these parameters does. */
  function RetrySpec<T>(exceptions: set<Exception>, attempt: nat -> Outcome<T>,
                        tries: int, delay: int, backoff: int): Run<T>
  {
    RetryFrom(exceptions, attempt, tries, delay, backoff, 0)
  }

  /** The shape of every run from call `k` on. */
  lemma {:induction false} RetryFromShape<T>(exceptions: set<Exception>, attempt: nat -> Outcome<T>,
                                             mtries: int, mdelay: int, backoff: int, k: nat)
    ensures var r := RetryFrom(exceptions, attempt, mtries, mdelay, backoff, k);
      && k + 1 <= r.calls <= k + Max(mtries, 1)
      && |r.sleeps| == r.calls - k - 1
      && (forall j | 0 <= j < |r.sleeps| :: r.sleeps[j] == DelayAt(mdelay, backoff, j) >= 0)
      && (forall j | k <= j < r.calls - 1 :: attempt(j).Raise? && attempt(j).error in exceptions)
      && r.result == (if SleepRefused(exceptions, attempt(r.calls - 1), r.calls < k + Max(mtries, 1),
                                      DelayAt(mdelay, backoff, |r.sleeps|))
                      then Raised(ValueError) else Finish(attempt(r.calls - 1)))
      && (r.calls < k + Max(mtries, 1) ==>
            attempt(r.calls - 1).Ok? || attempt(r.calls - 1).error !in exceptions
            || DelayAt(mdelay, backoff, |r.sleeps|) < 0)
    decreases if mtries > 1 then mtries else 0
  {
    var r := RetryFrom(exceptions, attempt, mtries, mdelay, backoff, k);
    if mtries > 1 && attempt(k).Raise? && attempt(k).error in exceptions && mdelay >= 0 {
      var rest := RetryFrom(exceptions, attempt, mtries - 1, mdelay * backoff, backoff, k + 1);
      RetryFromShape(exceptions, attempt, mtries - 1, mdelay * backoff, backoff, k + 1);
      assert r == rest.(sleeps := [mdelay] + rest.sleeps);
      forall j | 0 <= j < |r.sleeps|
        ensures r.sleeps[j] == DelayAt(mdelay, backoff, j) >= 0
      {
        if j > 0 {
          assert r.sleeps[j] == rest.sleeps[j - 1] == DelayAt(mdelay * backoff, backoff, j - 1);
          ScaledDelayStep(mdelay, backoff, j);
        }
      }
      ScaledDelayStep(mdelay, backoff, |r.sleeps|);
      assert DelayAt(mdelay, backoff, |r.sleeps|) == DelayAt(mdelay * backoff, backoff, |rest.sleeps|);
    } else {
      assert |r.sleeps| == 0 && r.calls == k + 1;
      assert DelayAt(mdelay, backoff, 0) == mdelay;
    }
  }

  /** A sleep of length `due` is refused after a call with outcome `last`: the
      call raised a listed exception while tries were left (`retrying`), and the
      length is negative. */
  predicate SleepRefused<T>(exceptions: set<Exception>, last: Outcome<T>, retrying: bool, due: int)
  {
    retrying && last.Raise? && last.error in exceptions && due < 0
  }

  /** The delay due after `j` caught failures: `delay * backoff^j`. */
  function DelayAt(delay: int, backoff: int, j: nat): int
  {
    delay * Pow(backoff, j)
  }

  /** The delay after `j` multiplications by `backoff`, one taken first. */
  lemma ScaledDelayStep(d: int, b: int, j: nat)
    requires j > 0
    ensures DelayAt(d * b, b, j - 1) == DelayAt(d, b, j)
  {
    assert Pow(b, j) == b * Pow(b, j - 1);
    assert (d * b) * Pow(b, j - 1) == d * (b * Pow(b, j - 1));
  }

  /** Everything a decorated call promises: it calls the function at least once
      and at most `tries` times; every call but the last raised one of the listed
      exceptions and was followed by a sleep, the k-th sleep lasting
      `delay * backoff^k`, which is never negative; the result is what the last
      call did, so a failure of the last permitted call propagates, unless the
      sleep due after it is negative, which raises `ValueError`; and it stops
      before `tries` calls only on a success, on an exception that is not
      listed, or on that negative sleep. */
  lemma RetryRunShape<T>(exceptions: set<Exception>, attempt: nat -> Outcome<T>,
                         tries: int, delay: int, backoff: int)
    ensures var r := RetrySpec(exceptions, attempt, tries, delay, backoff);
      && 1 <= r.calls <= Max(tries, 1)
      && |r.sleeps| == r.calls - 1
      && (forall j | 0 <= j < |r.sleeps| :: r.sleeps[j] == DelayAt(delay, backoff, j) >= 0)
      && (forall j | 0 <= j < r.calls - 1 :: attempt(j).Raise? && attempt(j).error in exceptions)
      && r.result == (if SleepRefused(exceptions, attempt(r.calls - 1), r.calls < Max(tries, 1),
                                      DelayAt(delay, backoff, |r.sleeps|))
                      then Raised(ValueError) else Finish(attempt(r.calls - 1)))
      && (r.calls < Max(tries, 1) ==>
            attempt(r.calls - 1).Ok? || attempt(r.calls - 1).error !in exceptions
            || DelayAt(delay, backoff, |r.sleeps|) < 0)
  {
    RetryFromShape(exceptions, attempt, tries, delay, backoff, 0);
  }

  /** A function that fails transiently `n < tries` times, none of the sleeps
      due being negative, and then succeeds is called `n + 1` times, its value
      is returned, and `n` sleeps happened. */
  lemma TransientThenSuccess<T>(exceptions: set<Exception>, attempt: nat -> Outcome<T>,
                                tries: int, delay: int, backoff: int, n: nat)
    requires n < tries
    requires forall j | 0 <= j < n :: DelayAt(delay, backoff, j) >= 0
    requires forall j | 0 <= j < n :: attempt(j).Raise? && attempt(j).error in exceptions
    requires attempt(n).Ok?
    ensures var r := RetrySpec(exceptions, attempt, tries, delay, backoff);
      && r.result == Returned(attempt(n).value)
      && r.calls == n + 1
      && |r.sleeps| == n
  {
    RetryRunShape(exceptions, attempt, tries, delay, backoff);
  }

  /** An exception outside the listed ones propagates from the very first call,
      without any sleep. */
  lemma UnlistedPropagatesAtOnce<T>(exceptions: set<Exception>, attempt: nat -> Outcome<T>,
                                    tries: int, delay: int, backoff: int)
    requires attempt(0).Raise? && attempt(0).error !in exceptions
    ensures RetrySpec(exceptions, attempt, tries, delay, backoff) == Run(Raised(attempt(0).error), 1, [])
  {
  }

  /** A negative delay: the first caught exception, with tries left, ends the
      call in `ValueError` from `time.sleep`, after one call and no sleep. */
  lemma NegativeDelayRaisesValueError<T>(exceptions: set<Exception>, attempt: nat -> Outcome<T>,
                                         tries: int, delay: int, backoff: int)
    requires tries > 1 && delay < 0
    requires attempt(0).Raise? && attempt(0).error in exceptions
    ensures RetrySpec(exceptions, attempt, tries, delay, backoff) == Run(Raised(ValueError), 1, [])
  {
  }

  /** A negative backoff: after the first sleep of `delay` the next delay is
      negative, so a second caught exception with tries left raises `ValueError`. */
  lemma NegativeBackoffRaisesAtSecondSleep<T>(exceptions: set<Exception>, attempt: nat -> Outcome<T>,
                                              tries: int, delay: int, backoff: int)
    requires tries > 2 && delay > 0 && backoff < 0
    requires forall j | 0 <= j < 2 :: attempt(j).Raise? && attempt(j).error in exceptions
    ensures RetrySpec(exceptions, attempt, tries, delay, backoff) == Run(Raised(ValueError), 2, [delay])
  {
    assert delay * backoff < 0;
    assert RetryFrom(exceptions, attempt, tries - 1, delay * backoff, backoff, 1) == Run(Raised(ValueError), 2, []);
  }

  /** With the defaults and a network that never answers, the function is called
      four times with sleeps of 5, 10 and 20, and the fourth failure propagates. */
  lemma DefaultsSleepFiveTenTwenty<T>(attempt: nat -> Outcome<T>)
    requires forall j :: attempt(j) == Raise(ConnectionError)
    ensures RetrySpec(NetworkErrors, attempt, Tries, Delay, Backoff) == Run(Raised(ConnectionError), 4, [5, 10, 20])
  {
    var r3 := RetryFrom(NetworkErrors, attempt, 1, 40, Backoff, 3);
    assert r3 == Run(Raised(ConnectionError), 4, []);
    var r2 := RetryFrom(NetworkErrors, attempt, 2, 20, Backoff, 2);
    assert r2 == Run(Raised(ConnectionError), 4, [20]);
    var r1 := RetryFrom(NetworkErrors, attempt, 3, 10, Backoff, 1);
    assert r1 == Run(Raised(ConnectionError), 4, [10, 20]);
  }

  /** The working decorator (the top-level revision). */
  method Retry<T>(exceptions: set<Exception>, attempt: nat -> Outcome<T>,
                  tries: int, delay: int, backoff: int)
    returns (result: Result<T>, calls: nat, sleeps: seq<int>)
    ensures Run(result, calls, sleeps) == RetrySpec(exceptions, attempt, tries, delay, backoff)
    ensures 1 <= calls <= Max(tries, 1) && |sleeps| == calls - 1
    ensures forall j | 0 <= j < |sleeps| :: sleeps[j] == DelayAt(delay, backoff, j) >= 0
    ensures result == (if SleepRefused(exceptions, attempt(calls - 1), calls < Max(tries, 1),
                                       DelayAt(delay, backoff, |sleeps|))
                       then Raised(ValueError) else Finish(attempt(calls - 1)))
  {
    ghost var spec := RetrySpec(exceptions, attempt, tries, delay, backoff);
    var mtries, mdelay := tries, delay;
    calls, sleeps := 0, [];
    // the result of a call made inside the loop's `try`, once it returns or raises
    var left: Option<Result<T>> := None;
    while mtries > 1 && left == None
      invariant left == None ==> spec == Prepend(sleeps, RetryFrom(exceptions, attempt, mtries, mdelay, backoff, calls))
      invariant left != None ==> spec == Run(left.value, calls, sleeps)
      decreases mtries, if left == None then 1 else 0
    {
      ghost var here := RetryFrom(exceptions, attempt, mtries, mdelay, backoff, calls);
      var outcome := attempt(calls);
      calls := calls + 1;
      if outcome.Ok? {
        left := Some(Returned(outcome.value));
      } else if outcome.error !in exceptions {
        left := Some(Raised(outcome.error));
      } else if mdelay < 0 {
        // `time.sleep` refuses a negative length
        left := Some(Raised(ValueError));
      } else {
        ghost var rest := RetryFrom(exceptions, attempt, mtries - 1, mdelay * backoff, backoff, calls);
        assert here == Prepend([mdelay], rest);
        sleeps := sleeps + [mdelay];
        mtries := mtries - 1;
        mdelay := mdelay * backoff;
      }
    }
    if left == None {
      assert spec == Prepend(sleeps, Run(Finish(attempt(calls)), calls + 1, []));
      result := Finish(attempt(calls));
      calls := calls + 1;
    } else {
      result := left.value;
    }
    RetryRunShape(exceptions, attempt, tries, delay, backoff);
  }

  /** The `logger` argument of the `common` decorator: `True` (the default) or
      another truthy value without a `warning` method, a logger object, or a
      falsy value. */
  datatype LoggerArg = NoWarningMethod | LoggerObject | Falsy

  /** The decorator of the `common` package as written: its `logger=True`
      parameter hides the module's logger, so the first caught exception makes
      `logger.warning` raise `AttributeError`; with a logger object it warns, and
      with a falsy `logger` it prints, and then calls `time.sleep` although
      `time` is never imported, which raises `NameError`.  No call is ever
      retried. */
  function RetryAsWrittenSpec<T>(exceptions: set<Exception>, attempt: nat -> Outcome<T>,
                                 tries: int, logger: LoggerArg): Run<T>
  {
    if tries > 1 then
      match attempt(0)
      case Ok(v) => Run(Returned(v), 1, [])
      case Raise(e) =>
        if e in exceptions then Run(Raised(if logger == NoWarningMethod then AttributeError else NameError), 1, [])
        else Run(Raised(e), 1, [])
    else
      Run(Finish(attempt(0)), 1, [])
  }

  method RetryAsWritten<T>(exceptions: set<Exception>, attempt: nat -> Outcome<T>,
                           tries: int, delay: int, backoff: int, logger: LoggerArg)
    returns (result: Result<T>, calls: nat, sleeps: seq<int>)
    ensures Run(result, calls, sleeps) == RetryAsWrittenSpec(exceptions, attempt, tries, logger)
    ensures calls == 1 && sleeps == []
  {
    var mtries, mdelay := tries, delay;
    calls, sleeps := 0, [];
    // The source's `while mtries > 1` loop: no iteration of it can complete,
    // since every path through its body returns or raises.
    if mtries > 1 {
      var outcome := attempt(calls);
      calls := calls + 1;
      match outcome
      case Ok(v) =>
        return Returned(v), calls, sleeps;
      case Raise(e) =>
        if e !in exceptions {
          return Raised(e), calls, sleeps;
        }
        // `logger.warning` missing on the argument, or else `time.sleep` unbound
        return Raised(if logger == NoWarningMethod then AttributeError else NameError), calls, sleeps;
    }
    result := Finish(attempt(calls));
    calls := calls + 1;
  }

  /** The defect shown on one input: a call that hits one connection error and
      then succeeds is retried by the working decorator, and turned into an
      `AttributeError` by the one as written. */
  lemma AsWrittenNeverRetries(v: int)
    ensures var attempt := (j: nat) => if j == 0 then Raise(ConnectionError) else Ok(v);
      && RetrySpec(NetworkErrors, attempt, Tries, Delay, Backoff) == Run(Returned(v), 2, [5])
      && RetryAsWrittenSpec(NetworkErrors, attempt, Tries, NoWarningMethod) == Run(Raised(AttributeError), 1, [])
  {
    var attempt := (j: nat) => if j == 0 then Raise(ConnectionError) else Ok(v);
    assert RetryFrom(NetworkErrors, attempt, 3, 10, Backoff, 1) == Run(Returned(v), 2, []);
  }
}
