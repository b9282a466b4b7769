/** `WaitForCompletion`: adaptive polling against an ideal clock.

    `polls(i)` is what the i-th repository lookup returns; `parent` is the caller's context, with
    its deadline and the instant of its cancellation; `stopWins(i)` resolves a tie between the
    i-th timer and the end of the waiting context, and `cancelFirst` one between a cancellation
    and a deadline. */
module TaskWaiting {
  import opened Tasks

  const MILLISECOND: int := 1_000_000
  const FIRST_INTERVAL: int := 100 * MILLISECOND
  const MAX_INTERVAL: int := 2000 * MILLISECOND

  datatype Poll = LookupFailed | Seen(status: Status, progress: real, message: Option<string>)

  datatype WaitError =
    | NoError
    | TaskFailed(reason: string)
    | TaskCancelled
    | TaskDeadLettered
    | LookupError
    | TimedOut
    | ContextDone

  predicate IsTerminal(status: Status) {
    status == Completed || status == Failed || status == Cancelled || status == DeadLetter
  }

  // ----- The polling schedule -----

  /** Half as long again, truncated to a nanosecond, up to the maximum. */
  function NextInterval(p: int): int {
    if p < MAX_INTERVAL then (if p * 3 / 2 > MAX_INTERVAL then MAX_INTERVAL else p * 3 / 2) else p
  }

  function Interval(i: nat): int {
    if i == 0 then FIRST_INTERVAL else NextInterval(Interval(i - 1))
  }

  /** When poll `n` (counted from one) happens. */
  function PollTime(n: nat): int {
    if n == 0 then 0 else PollTime(n - 1) + Interval(n - 1)
  }

  lemma FirstIntervals()
    ensures Interval(1) == 150_000_000 && Interval(2) == 225_000_000 && Interval(3) == 337_500_000
    ensures Interval(4) == 506_250_000 && Interval(5) == 759_375_000 && Interval(6) == 1_139_062_500
    ensures Interval(7) == 1_708_593_750 && Interval(8) == MAX_INTERVAL
    ensures PollTime(8) == 4_925_781_250
  {
    assert Interval(1) == 150_000_000;
    assert Interval(2) == 225_000_000;
    assert Interval(3) == 337_500_000;
    assert Interval(4) == 506_250_000;
    assert Interval(5) == 759_375_000;
    assert Interval(6) == 1_139_062_500;
    assert Interval(7) == 1_708_593_750;
    assert PollTime(2) == 250_000_000;
    assert PollTime(4) == 812_500_000;
    assert PollTime(6) == 2_078_125_000;
  }

  /** Intervals never shrink, stay within 100 ms and 2 s, and reach 2 s exactly at the ninth. */
  lemma {:induction false} IntervalSchedule(i: nat)
    ensures FIRST_INTERVAL <= Interval(i) <= Interval(i + 1) <= MAX_INTERVAL
    ensures Interval(i) == MAX_INTERVAL <==> i >= 8
  {
    FirstIntervals();
    if i > 0 {
      IntervalSchedule(i - 1);
    }
  }

  lemma ScheduleStep(n: nat)
    ensures PollTime(n + 1) == PollTime(n) + Interval(n) && Interval(n) > 0
    ensures Interval(n + 1) == NextInterval(Interval(n))
  {
    IntervalSchedule(n);
  }

  lemma {:induction false} PollTimeAfterEight(n: nat)
    requires n >= 8
    ensures PollTime(n) == 4_925_781_250 + (n - 8) * 2_000_000_000
  {
    if n == 8 {
      FirstIntervals();
    } else {
      PollTimeAfterEight(n - 1);
      IntervalSchedule(n - 1);
    }
  }

  lemma {:induction false} PollTimeGrows(n: nat, m: nat)
    requires n <= m
    ensures PollTime(n) <= PollTime(m)
    decreases m
  {
    if n < m {
      IntervalSchedule(m - 1);
      PollTimeGrows(n, m - 1);
    }
  }

  /** The number of polls that fit into a timeout past the eighth one. */
  function MostPolls(timeout: int): int {
    8 + (timeout - 4_925_781_250) / MAX_INTERVAL
  }

  /** A poll fits into such a timeout exactly when it is among that many. */
  lemma PollBound(n: nat, timeout: int)
    requires timeout >= 4_925_781_250
    ensures PollTime(n) <= timeout <==> n <= MostPolls(timeout)
  {
    if n >= 8 {
      PollTimeAfterEight(n);
    } else {
      FirstIntervals();
      PollTimeGrows(n, 8);
    }
  }

  lemma PollsFit(n: nat, timeout: int)
    requires n > 0 ==> PollTime(n) <= timeout
    ensures timeout >= 4_925_781_250 ==> n <= MostPolls(timeout)
  {
    if timeout >= 4_925_781_250 {
      PollBound(n, timeout);
    }
  }

  // ----- Progress callbacks -----

  predicate Running(p: Poll) {
    p.Seen? && !IsTerminal(p.status)
  }

  function Message(p: Poll): string
    requires p.Seen?
  {
    if p.message.None? then "" else p.message.value
  }

  function LastProgress(polls: nat -> Poll, n: nat): real {
    if n == 0 then -1.0 else if polls(n - 1).Seen? then polls(n - 1).progress else LastProgress(polls, n - 1)
  }

  /** The callbacks of the first `n` polls. */
  function Callbacks(polls: nat -> Poll, n: nat): seq<(real, string)> {
    if n == 0 then []
    else
      var p := polls(n - 1);
      Callbacks(polls, n - 1) +
      (if p.Seen? && p.progress != LastProgress(polls, n - 1) then [(p.progress, Message(p))] else [])
  }

  /** After `n` lookups `calls` have been made and `last` is the progress reported last. */
  predicate Reported(polls: nat -> Poll, n: nat, hasCallback: bool, calls: seq<(real, string)>, last: real) {
    if hasCallback then calls == Callbacks(polls, n) && last == LastProgress(polls, n) else calls == []
  }

  lemma ReportedFailure(polls: nat -> Poll, n: nat, hasCallback: bool, calls: seq<(real, string)>, last: real)
    requires Reported(polls, n, hasCallback, calls, last) && polls(n).LookupFailed?
    ensures Reported(polls, n + 1, hasCallback, calls, last)
  {
  }

  lemma ReportedRepeat(polls: nat -> Poll, n: nat, hasCallback: bool, calls: seq<(real, string)>, last: real)
    requires Reported(polls, n, hasCallback, calls, last) && polls(n).Seen?
    requires hasCallback ==> polls(n).progress == last
    ensures Reported(polls, n + 1, hasCallback, calls, last)
  {
  }

  lemma ReportedChange(polls: nat -> Poll, n: nat, calls: seq<(real, string)>, last: real)
    requires Reported(polls, n, true, calls, last) && polls(n).Seen? && polls(n).progress != last
    ensures Reported(polls, n + 1, true, calls + [(polls(n).progress, Message(polls(n)))], polls(n).progress)
  {
  }

  /** The observations of the first `n` polls without consecutive repeats. */
  function Squeezed(polls: nat -> Poll, n: nat): seq<(real, string)>
    requires forall i :: 0 <= i < n ==> polls(i).Seen?
  {
    if n == 0 then []
    else
      Squeezed(polls, n - 1) +
      (if n == 1 || polls(n - 1).progress != polls(n - 2).progress
       then [(polls(n - 1).progress, Message(polls(n - 1)))] else [])
  }

  /** The callbacks are the observed progress with consecutive repeats removed, exactly unless
      the first observation is the sentinel -1. */
  lemma {:induction false} CallbacksAreChanges(polls: nat -> Poll, n: nat)
    requires n > 0 && forall i :: 0 <= i < n ==> polls(i).Seen?
    ensures polls(0).progress != -1.0 ==> Callbacks(polls, n) == Squeezed(polls, n)
    ensures polls(0).progress == -1.0 ==> [(-1.0, Message(polls(0)))] + Callbacks(polls, n) == Squeezed(polls, n)
  {
    if n == 1 {
      assert Callbacks(polls, 0) == [] && Squeezed(polls, 0) == [];
    } else {
      CallbacksAreChanges(polls, n - 1);
    }
  }

  // ----- The wait -----

  function ErrorOf(p: Poll): WaitError
    requires p.Seen?
  {
    match p.status
    case Failed => TaskFailed(if p.message.None? then "unknown error" else p.message.value)
    case Cancelled => TaskCancelled
    case DeadLetter => TaskDeadLettered
    case _ => NoError
  }

  /** The context that the caller hands in. */
  datatype Parent = Parent(deadline: Option<int>, cancelled: Option<int>)

  /** The earlier of the timeout and the parent's own deadline. */
  function Deadline(timeout: int, parent: Parent): (deadline: int)
    ensures deadline <= timeout && (parent.deadline.Some? ==> deadline <= parent.deadline.value)
    ensures deadline == timeout || parent.deadline == Some(deadline)
  {
    if parent.deadline.Some? && parent.deadline.value < timeout then parent.deadline.value else timeout
  }

  /** The end of the waiting context: the earliest of the timeout, the parent's deadline and
      its cancellation. */
  function ContextEnd(timeout: int, parent: Parent): (end: int)
    ensures end <= timeout && (parent.deadline.Some? ==> end <= parent.deadline.value)
    ensures parent.cancelled.Some? ==> end <= parent.cancelled.value
    ensures end == timeout || parent.deadline == Some(end) || parent.cancelled == Some(end)
  {
    var deadline := Deadline(timeout, parent);
    if parent.cancelled.Some? && parent.cancelled.value < deadline then parent.cancelled.value else deadline
  }

  /** `n` counts the lookups; `calls` lists the callback invocations. */
  method WaitForCompletion(polls: nat -> Poll, timeout: int, parent: Parent, stopWins: nat -> bool,
                           cancelFirst: bool, hasCallback: bool)
    returns (n: nat, calls: seq<(real, string)>, err: WaitError)
    // every lookup but the last, and the last one of a wait that was given up, saw a task that
    // was neither finished nor given up
    ensures forall i :: 0 <= i < n && (i < n - 1 || err.TimedOut? || err.ContextDone?) ==>
              && polls(i).Seen? && polls(i).status != Completed && polls(i).status != Failed
              && polls(i).status != Cancelled && polls(i).status != DeadLetter
    // unless the wait was given up, the last lookup decides which error comes back
    ensures !err.TimedOut? && !err.ContextDone? ==>
              n > 0 && var last := polls(n - 1);
              if last.LookupFailed? then err == LookupError
              else match last.status
                   case Completed => err == NoError
                   case Failed => err == TaskFailed(if last.message.Some? then last.message.value else "unknown error")
                   case Cancelled => err == TaskCancelled
                   case DeadLetter => err == TaskDeadLettered
                   case _ => false
    // a deadline, the caller's own or the timeout, is a timeout; a cancellation is not
    ensures err.TimedOut? ==> ContextEnd(timeout, parent) == Deadline(timeout, parent)
    ensures err.ContextDone? ==> parent.cancelled == Some(ContextEnd(timeout, parent))
    // polls happen on schedule, and waiting stops no earlier than it has to
    ensures n > 0 ==> PollTime(n) <= ContextEnd(timeout, parent)
    ensures err.TimedOut? || err.ContextDone? ==> ContextEnd(timeout, parent) <= PollTime(n + 1)
    ensures ContextEnd(timeout, parent) >= 4_925_781_250 ==> n <= MostPolls(ContextEnd(timeout, parent))
    ensures calls == if hasCallback then Callbacks(polls, n) else []
  {
    n, calls := 0, [];
    var end, deadline := ContextEnd(timeout, parent), Deadline(timeout, parent);
    var elapsed, pollInterval, lastProgress := 0, FIRST_INTERVAL, -1.0;
    while true
      invariant elapsed == PollTime(n) && pollInterval == Interval(n)
      invariant n > 0 ==> elapsed <= end
      invariant forall i :: 0 <= i < n ==> Running(polls(i))
      invariant Reported(polls, n, hasCallback, calls, lastProgress)
      decreases end - elapsed
    {
      ScheduleStep(n);
      PollsFit(n, end);
      var due := elapsed + pollInterval;
      if end < due || (end == due && stopWins(n)) {
        // when both fall on the same instant, either may have come first
        var cancelled := parent.cancelled == Some(end) && (end < deadline || cancelFirst);
        return n, calls, if cancelled then ContextDone else TimedOut;
      }
      PollsFit(n + 1, end);
      ghost var next := NextInterval(pollInterval);
      elapsed := due;
      var task := polls(n);
      n := n + 1;
      if task.LookupFailed? {
        ReportedFailure(polls, n - 1, hasCallback, calls, lastProgress);
        err := LookupError;
        return;
      }
      if hasCallback && task.progress != lastProgress {
        ReportedChange(polls, n - 1, calls, lastProgress);
        calls := calls + [(task.progress, Message(task))];
        lastProgress := task.progress;
      } else {
        ReportedRepeat(polls, n - 1, hasCallback, calls, lastProgress);
      }
      if IsTerminal(task.status) {
        err := ErrorOf(task);
        return;
      }
      if pollInterval < MAX_INTERVAL {
        pollInterval := pollInterval * 3 / 2;
        if pollInterval > MAX_INTERVAL {
          pollInterval := MAX_INTERVAL;
        }
      }
      assert pollInterval == next;
    }
  }
}
