/** `operation_complete(operation_id)`: wait for a long-running cloud operation.

    A falsy id means there is nothing to wait for.  Otherwise the operation's
    status is fetched, the caller sleeps 2 seconds and adds them to an elapsed
    counter; the loop stops when the status says `done`, or else when the
    counter reaches 600.  The `done` test comes first, so an operation that
    finishes on the very last poll counts as completed.

    The operation service is a scripted environment: `replies(k)` is what the
    k-th poll (counted from 0) of this wait yields. */
module Poller {
  import opened Base

  /** One `operation_status` poll: the operation's `done` flag (true only when
      the field is literally `True`), or no status at all (a non-200 answer or
      a caught exception), on which `.get` raises `AttributeError`. */
  datatype Reply = Status(done: bool) | Unavailable

  /** How a wait ends: nothing to wait for, the operation finished, the
      counter reached the ceiling, or a poll yielded no status. */
  datatype Outcome = NoOperation | Completed | TooLong | Failed

  /** A whole wait: how it ended and how many polls it made. */
  datatype Run = Run(outcome: Outcome, polls: nat)

  /** Seconds slept after every poll. */
  const Interval := 2

  /** The elapsed counter at which the wait gives up. */
  const Ceiling := 600

  /** The number of polls after which the counter equals the ceiling. */
  const MaxPolls := 300

  /** The polls from number `k` on, when the first `k` polls said "not done".
      The wait stops at the first poll that says done or yields nothing, or
      at poll number `MaxPolls`, and every poll before the last said "not
      done". */
  function PollFrom(replies: nat -> Reply, k: nat): (r: Run)
    requires k < MaxPolls
    ensures k < r.polls <= MaxPolls
    ensures forall i | k <= i < r.polls - 1 :: replies(i) == Status(false)
    ensures r.outcome == Completed <==> replies(r.polls - 1) == Status(true)
    ensures r.outcome == Failed <==> replies(r.polls - 1) == Unavailable
    ensures r.outcome == TooLong <==> r.polls == MaxPolls && replies(r.polls - 1) == Status(false)
    ensures r.outcome != NoOperation
    decreases MaxPolls - k
  {
    var elapsed := Interval * (k + 1);
    match replies(k)
    case Unavailable => Run(Failed, k + 1)
    case Status(done) =>
      if done then Run(Completed, k + 1)
      else if elapsed == Ceiling then Run(TooLong, k + 1)
      else PollFrom(replies, k + 1)
  }

  /** The whole wait: no poll at all for a falsy id. */
  function Complete(op: Option<OpId>, replies: nat -> Reply): (r: Run)
    ensures r.outcome == NoOperation <==> op == None
    ensures op == None ==> r.polls == 0
    ensures op != None ==> 0 < r.polls <= MaxPolls
  {
    if op == None then Run(NoOperation, 0) else PollFrom(replies, 0)
  }

  /** Seconds slept during a wait: 2 after every poll, the failed one included. */
  function Slept(r: Run): nat
  {
    Interval * r.polls
  }

  /** The loop of `operation_complete`, with its `timeout` counter; `elapsed`
      is the counter's final value. */
  method OperationComplete(op: Option<OpId>, replies: nat -> Reply) returns (outcome: Outcome, polls: nat, elapsed: nat)
    ensures Run(outcome, polls) == Complete(op, replies)
    ensures elapsed == Slept(Run(outcome, polls)) <= Ceiling
  {
    outcome, polls, elapsed := NoOperation, 0, 0;
    if op == None {
      return;
    }
    var timeout := 0;
    while true
      invariant polls < MaxPolls && timeout == Interval * polls
      invariant PollFrom(replies, 0) == PollFrom(replies, polls)
      decreases Ceiling - timeout
    {
      var operation := replies(polls);
      polls := polls + 1;
      timeout := timeout + Interval;
      match operation
      case Unavailable =>
        outcome, elapsed := Failed, timeout;
        return;
      case Status(done) =>
        if done {
          outcome, elapsed := Completed, timeout;
          return;
        } else if timeout == Ceiling {
          outcome, elapsed := TooLong, timeout;
          return;
        }
    }
  }

  /** The wait completes at the first poll that says done, provided it comes
      before the ceiling. */
  lemma {:induction false} CompletesAtFirstDone(replies: nat -> Reply, k: nat, j: nat)
    requires k <= j < MaxPolls
    requires replies(j) == Status(true)
    requires forall i | k <= i < j :: replies(i) == Status(false)
    ensures PollFrom(replies, k) == Run(Completed, j + 1)
    decreases j - k
  {
    if k < j {
      CompletesAtFirstDone(replies, k + 1, j);
    }
  }

  /** An operation that never finishes is given up on after exactly 300 polls,
      that is after 600 seconds. */
  lemma TimesOutAfterCeiling(op: OpId, replies: nat -> Reply)
    requires forall i | 0 <= i < MaxPolls :: replies(i) == Status(false)
    ensures Complete(Some(op), replies) == Run(TooLong, MaxPolls)
    ensures Slept(Complete(Some(op), replies)) == Ceiling
  {
    var r := PollFrom(replies, 0);
    assert replies(r.polls - 1) == Status(false);
  }

  /** `done` is tested before the counter: an operation that finishes on the
      300th poll is reported completed, not running too long. */
  lemma DoneCheckedBeforeTimeout(op: OpId, replies: nat -> Reply)
    requires forall i | 0 <= i < MaxPolls - 1 :: replies(i) == Status(false)
    requires replies(MaxPolls - 1) == Status(true)
    ensures Complete(Some(op), replies) == Run(Completed, MaxPolls)
  {
    CompletesAtFirstDone(replies, 0, MaxPolls - 1);
  }

  /** What `operation_complete` returns in the current revision: a log message
      naming the outcome (a non-empty, hence truthy, string), or `None`. */
  datatype Message = CompletedMessage(op: OpId) | TooLongMessage(op: OpId)

  /** The return value of the current revision; a failed poll raises instead. */
  function CurrentResult(op: Option<OpId>, o: Outcome): (r: Option<Message>)
    requires o != Failed
    requires o == NoOperation <==> op == None
    ensures r == None <==> o == NoOperation
    ensures r != None ==> r.value.op == op.value
    ensures o == Completed <==> r != None && r.value.CompletedMessage?
  {
    match o
    case NoOperation => None
    case Completed => Some(CompletedMessage(op.value))
    case TooLong => Some(TooLongMessage(op.value))
  }

  /** The return value of the older revision: `True` for both a completed and
      a timed-out wait, `None` for a falsy id. */
  function LegacyResult(o: Outcome): (r: Option<bool>)
    requires o != Failed
    ensures r == None <==> o == NoOperation
    ensures r != None ==> r.value
  {
    if o == NoOperation then None else Some(true)
  }

  /** How callers use the value, `if vm.operation_complete(op):`.  A message
      is a non-empty string, so it is as true as the older `True`. */
  predicate Truthy(o: Outcome)
  {
    o == Completed || o == TooLong
  }

  /** Both revisions end their wait identically; only the value differs, and
      a caller that tests it for truth sees the same answer from both, true
      for a timeout just as for a completion. */
  lemma RevisionsAgreeOnTruth(op: Option<OpId>, replies: nat -> Reply)
    requires Complete(op, replies).outcome != Failed
    ensures var o := Complete(op, replies).outcome;
      && (CurrentResult(op, o) != None <==> Truthy(o))
      && (LegacyResult(o) == Some(true) <==> Truthy(o))
      && (LegacyResult(o) == None <==> !Truthy(o))
  {
  }

  /** The older revision returns the same `True` on completion and on timeout. */
  lemma LegacyConflatesTimeout(op: OpId)
    ensures LegacyResult(Completed) == LegacyResult(TooLong) == Some(true)
    ensures CurrentResult(Some(op), Completed) != CurrentResult(Some(op), TooLong)
  {
  }
}
