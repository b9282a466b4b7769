/** The stuck detector: heuristics over resource snapshots, newest first.

    Percentages and CPU times are reals, counters are integers.  `HasStaleHeartbeat` and
    `IsOverdue` belong to the task type, which is not part of this model: they are an arbitrary
    predicate and an arbitrary flag of the task. */
module StuckDetector {
  import opened Tasks
  import opened Interpolation

  datatype Snapshot = Snapshot(
    cpuPercent: real, cpuUserTime: real, cpuSystemTime: real,
    memoryPercent: real, memoryRss: int,
    ioRead: int, ioWrite: int, netSent: int, netRecv: int, netConnections: int,
    openFds: int, threads: int, processState: string)

  datatype Subject = Subject(
    taskType: string, endless: bool, stuckThresholdSecs: int, lastHeartbeat: Option<int>,
    staleAfter: int -> bool, overdue: bool)

  /** How the program prints the values that it hands to a translator. */
  datatype Formats = Formats(duration: int -> string, percent: real -> string, count: int -> string)

  const SECOND: int := 1_000_000_000

  // ----- Specifications of the loops -----

  /** How many of the first `k` snapshots show almost no CPU activity. */
  function LowCpu(s: seq<Snapshot>, k: nat): nat
    requires k <= |s|
  {
    if k == 0 then 0 else LowCpu(s, k - 1) + (if s[k - 1].cpuPercent < 0.1 then 1 else 0)
  }

  function CpuTime(t: Snapshot): real {
    t.cpuUserTime + t.cpuSystemTime
  }

  predicate Frozen(s: seq<Snapshot>) {
    |s| >= 3 && LowCpu(s, if 5 < |s| then 5 else |s|) >= 3 && CpuTime(s[0]) - CpuTime(s[|s| - 1]) <= 0.01
  }

  /** How many of the first `k` steps back in time do not show growing memory. */
  function NotGrowing(s: seq<Snapshot>, k: nat): nat
    requires k < |s|
  {
    if k == 0 then 0 else NotGrowing(s, k - 1) + (if s[k - 1].memoryRss > s[k].memoryRss then 0 else 1)
  }

  /** Memory grew by more than half, and fewer than a fifth of the steps did not grow. */
  predicate Leaks(s: seq<Snapshot>) {
    && |s| >= 5 && 5 * NotGrowing(s, |s| - 1) < |s| - 1
    && s[|s| - 1].memoryRss > 0 && 2 * (s[0].memoryRss - s[|s| - 1].memoryRss) > s[|s| - 1].memoryRss
  }

  /** No CPU, and no I/O counter differs from its neighbour, in the five newest snapshots. */
  predicate Inactive(s: seq<Snapshot>) {
    && |s| >= 5
    && (forall i :: 0 <= i < 5 ==> s[i].cpuPercent <= 0.0)
    && (forall i :: 0 < i < 5 ==> s[i].ioRead == s[i - 1].ioRead && s[i].ioWrite == s[i - 1].ioWrite)
  }

  predicate Exhausted(t: Snapshot) {
    t.memoryPercent > 95.0 || t.openFds > 10000 || t.threads > 1000
  }

  function OldestInWindow(s: seq<Snapshot>): nat
    requires |s| > 0
  {
    if 3 < |s| - 1 then 3 else |s| - 1
  }

  predicate IoStarved(s: seq<Snapshot>) {
    && |s| >= 3
    && var old_ := s[OldestInWindow(s)];
       (s[0].ioRead - old_.ioRead) + (s[0].ioWrite - old_.ioWrite) == 0 && 0.0 < s[0].cpuPercent < 1.0
  }

  predicate NetworkHung(s: seq<Snapshot>) {
    && |s| >= 3
    && var old_ := s[OldestInWindow(s)];
       s[0].netConnections > 0 && (s[0].netSent - old_.netSent) + (s[0].netRecv - old_.netRecv) == 0
       && s[0].cpuPercent < 1.0
  }

  // ----- What the heuristics mean -----

  function IoRead(t: Snapshot): int { t.ioRead }

  function IoWrite(t: Snapshot): int { t.ioWrite }

  function NetSent(t: Snapshot): int { t.netSent }

  function NetRecv(t: Snapshot): int { t.netRecv }

  lemma RatioExceeds(a: int, b: int, bound: real)
    requires b > 0
    ensures (a as real) / (b as real) > bound <==> (a as real) > bound * (b as real)
  {
    var q := (a as real) / (b as real);
    assert q * (b as real) == a as real;
    if q > bound {
      assert (q - bound) * (b as real) > 0.0;
    } else {
      assert (bound - q) * (b as real) >= 0.0;
    }
  }

  /** Of `n` samples the leak test forgives at most ceil((n - 1) / 5) - 1 steps without growth,
      and none up to six samples. */
  lemma LeakTolerance(s: seq<Snapshot>)
    requires |s| >= 5 && s[|s| - 1].memoryRss > 0 && 2 * (s[0].memoryRss - s[|s| - 1].memoryRss) > s[|s| - 1].memoryRss
    ensures Leaks(s) <==> NotGrowing(s, |s| - 1) <= (|s| - 1 + 4) / 5 - 1
    ensures |s| <= 6 ==> (Leaks(s) <==> forall i :: 0 <= i < |s| - 1 ==> s[i].memoryRss > s[i + 1].memoryRss)
  {
    NoneNotGrowing(s, |s| - 1);
  }

  lemma {:induction false} NoneNotGrowing(s: seq<Snapshot>, k: nat)
    requires k < |s|
    ensures NotGrowing(s, k) == 0 <==> forall i :: 0 <= i < k ==> s[i].memoryRss > s[i + 1].memoryRss
  {
    if k > 0 {
      NoneNotGrowing(s, k - 1);
    }
  }

  lemma {:induction false} LowCpuCounts(s: seq<Snapshot>, k: nat)
    requires k <= |s|
    ensures LowCpu(s, k) == |set i | 0 <= i < k && s[i].cpuPercent < 0.1|
  {
    if k > 0 {
      LowCpuCounts(s, k - 1);
      var before := set i | 0 <= i < k - 1 && s[i].cpuPercent < 0.1;
      assert (set i | 0 <= i < k && s[i].cpuPercent < 0.1) ==
             before + (if s[k - 1].cpuPercent < 0.1 then {k - 1} else {});
    }
  }

  /** Frozen: at least three of the five newest snapshots under a tenth of a percent, and no more
      than a hundredth of a second of CPU time gained over all of them. */
  lemma FrozenInFields(s: seq<Snapshot>)
    ensures Frozen(s) <==>
            && |s| >= 3
            && |set i | 0 <= i < |s| && i < 5 && s[i].cpuPercent < 0.1| >= 3
            && s[0].cpuUserTime + s[0].cpuSystemTime <= s[|s| - 1].cpuUserTime + s[|s| - 1].cpuSystemTime + 0.01
  {
    var k := if 5 < |s| then 5 else |s|;
    LowCpuCounts(s, k);
    assert (set i | 0 <= i < k && s[i].cpuPercent < 0.1) == set i | 0 <= i < |s| && i < 5 && s[i].cpuPercent < 0.1;
  }

  /** Sample `i` is no larger than the next older one. */
  predicate FailsToGrow(s: seq<Snapshot>, i: int) {
    0 <= i < |s| - 1 && s[i].memoryRss <= s[i + 1].memoryRss
  }

  lemma {:induction false} NotGrowingCounts(s: seq<Snapshot>, k: nat)
    requires k < |s|
    ensures NotGrowing(s, k) == |set i | 0 <= i < k && FailsToGrow(s, i)|
  {
    if k > 0 {
      NotGrowingCounts(s, k - 1);
      var before := set i | 0 <= i < k - 1 && FailsToGrow(s, i);
      assert (set i | 0 <= i < k && FailsToGrow(s, i)) == before + (if FailsToGrow(s, k - 1) then {k - 1} else {});
    }
  }

  /** A leak: five samples, fewer than a fifth of the steps without growth, and the newest sample
      more than half as large again as the oldest. */
  lemma LeaksInFields(s: seq<Snapshot>)
    ensures Leaks(s) <==>
            && |s| >= 5
            && 5 * |set i | 0 <= i < |s| - 1 && FailsToGrow(s, i)| < |s| - 1
            && s[|s| - 1].memoryRss > 0 && 2 * s[0].memoryRss > 3 * s[|s| - 1].memoryRss
  {
    if |s| > 0 {
      NotGrowingCounts(s, |s| - 1);
    }
  }

  /** Counters that never run backwards, from the newest sample to the oldest of the window. */
  ghost predicate Nondecreasing(counter: Snapshot -> int, s: seq<Snapshot>, w: nat)
    requires w < |s|
  {
    forall i :: 0 <= i < w ==> counter(s[i]) >= counter(s[i + 1])
  }

  lemma {:induction false} NondecreasingSpan(counter: Snapshot -> int, s: seq<Snapshot>, i: nat, w: nat)
    requires i <= w < |s| && Nondecreasing(counter, s, w)
    ensures counter(s[0]) >= counter(s[i]) >= counter(s[w])
    decreases w
  {
    if i < w {
      NondecreasingSpan(counter, s, i, w - 1);
    } else if i > 0 {
      NondecreasingSpan(counter, s, i - 1, w - 1);
    }
  }

  ghost predicate Still(counter: Snapshot -> int, s: seq<Snapshot>, w: nat)
    requires w < |s|
  {
    forall i :: 0 <= i <= w ==> counter(s[i]) == counter(s[0])
  }

  /** For counters that never run backwards, no summed activity over the window means that no
      counter moved at any sample of it. */
  lemma NoActivityMeansStill(a: Snapshot -> int, b: Snapshot -> int, s: seq<Snapshot>, w: nat)
    requires w < |s| && Nondecreasing(a, s, w) && Nondecreasing(b, s, w)
    ensures (a(s[0]) - a(s[w])) + (b(s[0]) - b(s[w])) == 0 <==> Still(a, s, w) && Still(b, s, w)
  {
    NondecreasingSpan(a, s, 0, w);
    NondecreasingSpan(b, s, 0, w);
    if (a(s[0]) - a(s[w])) + (b(s[0]) - b(s[w])) == 0 {
      forall i | 0 <= i <= w ensures a(s[i]) == a(s[0]) && b(s[i]) == b(s[0]) {
        NondecreasingSpan(a, s, i, w);
        NondecreasingSpan(b, s, i, w);
      }
    }
  }

  /** The I/O and network verdicts in the fields of the newest and the oldest snapshot of a window
      of at most four. */
  lemma StarvedInFields(s: seq<Snapshot>)
    ensures IoStarved(s) <==>
            && |s| >= 3
            && var oldest := s[if |s| == 3 then 2 else 3];
               && s[0].ioRead + s[0].ioWrite == oldest.ioRead + oldest.ioWrite
               && s[0].cpuPercent > 0.0 && s[0].cpuPercent < 1.0
    ensures NetworkHung(s) <==>
            && |s| >= 3
            && var oldest := s[if |s| == 3 then 2 else 3];
               && s[0].netConnections > 0
               && s[0].netSent + s[0].netRecv == oldest.netSent + oldest.netRecv
               && s[0].cpuPercent < 1.0
  {
  }

  /** For counters that never run backwards, in terms of every sample of the window. */
  lemma StarvedMeansNothingMoved(s: seq<Snapshot>)
    requires |s| >= 3
    requires var w := if |s| == 3 then 2 else 3;
             && Nondecreasing(IoRead, s, w) && Nondecreasing(IoWrite, s, w)
             && Nondecreasing(NetSent, s, w) && Nondecreasing(NetRecv, s, w)
    ensures var w := if |s| == 3 then 2 else 3;
            && (IoStarved(s) <==>
                  Still(IoRead, s, w) && Still(IoWrite, s, w) && 0.0 < s[0].cpuPercent < 1.0)
            && (NetworkHung(s) <==>
                  Still(NetSent, s, w) && Still(NetRecv, s, w) && s[0].netConnections > 0 && s[0].cpuPercent < 1.0)
  {
    var w := if |s| == 3 then 2 else 3;
    NoActivityMeansStill(IoRead, IoWrite, s, w);
    NoActivityMeansStill(NetSent, NetRecv, s, w);
  }

  // ----- The verdict -----

  /** The Go zero value when the default entry is missing. */
  function Threshold(thresholds: map<string, int>, taskType: string): int {
    if taskType in thresholds then thresholds[taskType]
    else if "default" in thresholds then thresholds["default"]
    else 0
  }

  function HeartbeatLimit(thresholds: map<string, int>, task: Subject): int {
    if task.stuckThresholdSecs > 0 then task.stuckThresholdSecs * SECOND else Threshold(thresholds, task.taskType)
  }

  predicate HeartbeatLost(thresholds: map<string, int>, task: Subject) {
    Threshold(thresholds, task.taskType) != 0 && task.staleAfter(HeartbeatLimit(thresholds, task))
  }

  predicate EndlessStuck(s: seq<Snapshot>) {
    && |s| > 0
    && (s[0].processState == "zombie" || s[0].processState == "Z" || s[0].memoryPercent > 98.0 || Inactive(s))
  }

  /** Whether a task is stuck; no translator is involved. */
  predicate Verdict(thresholds: map<string, int>, task: Subject, s: seq<Snapshot>) {
    if task.endless then EndlessStuck(s)
    else
      || HeartbeatLost(thresholds, task)
      || task.overdue
      || (|s| >= 3 && (Frozen(s) || Exhausted(s[0]) || IoStarved(s) || NetworkHung(s) || Leaks(s)))
  }

  function ExplainEndless(s: seq<Snapshot>): string {
    if |s| == 0 then ""
    else if s[0].processState == "zombie" || s[0].processState == "Z" then "process is in zombie state"
    else if s[0].memoryPercent > 98.0 then "critical memory exhaustion (>98%)"
    else if Inactive(s) then "endless process has no activity"
    else ""
  }

  /** The reason that wins when several heuristics fire; `heartbeat` and `exhaustion` are the
      translated messages. */
  function Explain(thresholds: map<string, int>, task: Subject, s: seq<Snapshot>, heartbeat: string,
                   exhaustion: string): string {
    if task.endless then ExplainEndless(s)
    else if HeartbeatLost(thresholds, task) then heartbeat
    else if task.overdue then "task exceeded deadline"
    else if |s| < 3 then ""
    else if Frozen(s) then "process appears frozen (no CPU activity)"
    else if Exhausted(s[0]) then exhaustion
    else if IoStarved(s) then "process appears I/O starved"
    else if NetworkHung(s) then "process appears hung on network I/O"
    else if Leaks(s) then "potential memory leak detected"
    else ""
  }

  class DefaultStuckDetector {
    var thresholds: map<string, int>

    constructor ()
      ensures thresholds == map["default" := 300_000_000_000, "command" := 180_000_000_000,
                                "llm_call" := 180_000_000_000, "debate" := 600_000_000_000,
                                "embedding" := 120_000_000_000, "endless" := 0]
    {
      thresholds := map["default" := 300 * SECOND, "command" := 180 * SECOND, "llm_call" := 180 * SECOND,
                        "debate" := 600 * SECOND, "embedding" := 120 * SECOND, "endless" := 0];
    }

    method SetThreshold(taskType: string, threshold: int)
      modifies this
      ensures thresholds == old(thresholds)[taskType := threshold]
      ensures Threshold(thresholds, taskType) == threshold
    {
      thresholds := thresholds[taskType := threshold];
    }

    /** The reason is empty exactly when the task is not stuck, and whether it is stuck is the
        same for every translator, every printing of values and every clock. */
    method IsStuck(tr: Translator, show: Formats, now: int, task: Option<Subject>, s: seq<Snapshot>)
      returns (stuck: bool, reason: string)
      ensures stuck <==> task.Some? && Verdict(thresholds, task.value, s)
      ensures stuck <==> reason != ""
      // an endless task is judged by its snapshots alone, any other by seven heuristics
      ensures task.Some? && task.value.endless ==> (stuck <==> EndlessStuck(s))
      ensures task.Some? && !task.value.endless ==>
                (stuck <==>
                   || HeartbeatLost(thresholds, task.value) || task.value.overdue
                   || Frozen(s) || (|s| >= 3 && Exhausted(s[0])) || IoStarved(s) || NetworkHung(s) || Leaks(s))
      ensures task.Some? && !task.value.endless && !HeartbeatLost(thresholds, task.value) && task.value.overdue ==>
                reason == "task exceeded deadline"
      ensures task.Some? ==> reason == Explain(thresholds, task.value, s,
                CheckHeartbeatTimeout(tr, show, now, task.value), CheckResourceExhaustion(tr, show, s))
    {
      if task.None? {
        return false, "";
      }
      if task.value.endless {
        stuck, reason := IsEndlessTaskStuck(s);
        return;
      }
      reason := CheckHeartbeatTimeout(tr, show, now, task.value);
      if reason != "" {
        return true, reason;
      }
      if task.value.overdue {
        return true, "task exceeded deadline";
      }
      if |s| >= 3 {
        var frozen := IsProcessFrozen(s);
        if frozen {
          return true, "process appears frozen (no CPU activity)";
        }
        reason := CheckResourceExhaustion(tr, show, s);
        if reason != "" {
          return true, reason;
        }
        if IoStarved(s) {
          return true, "process appears I/O starved";
        }
        if NetworkHung(s) {
          return true, "process appears hung on network I/O";
        }
        var leak := HasMemoryLeak(s);
        if leak {
          return true, "potential memory leak detected";
        }
      }
      return false, "";
    }

    function CheckHeartbeatTimeout(tr: Translator, show: Formats, now: int, task: Subject): (reason: string)
      reads this
      ensures reason != "" <==> HeartbeatLost(thresholds, task)
      ensures var own := if task.taskType in thresholds then thresholds[task.taskType]
                         else if "default" in thresholds then thresholds["default"] else 0;
              var limit := if task.stuckThresholdSecs > 0 then task.stuckThresholdSecs * 1_000_000_000 else own;
              reason != "" <==> own != 0 && task.staleAfter(limit)
    {
      var threshold := Threshold(thresholds, task.taskType);
      if threshold == 0 then ""
      else
        var limit := if task.stuckThresholdSecs > 0 then task.stuckThresholdSecs * SECOND else threshold;
        if task.staleAfter(limit) then
          if task.lastHeartbeat.None?
          then Tr(tr, "background_stuck_no_heartbeat_ever", map["threshold" := show.duration(limit)])
          else Tr(tr, "background_stuck_no_heartbeat_for",
                  map["elapsed" := show.duration(now - task.lastHeartbeat.value), "threshold" := show.duration(limit)])
        else ""
    }

    function CheckResourceExhaustion(tr: Translator, show: Formats, s: seq<Snapshot>): (reason: string)
      ensures reason != "" <==> |s| > 0 && Exhausted(s[0])
      ensures reason != "" <==>
              |s| > 0 && (s[0].memoryPercent > 95.0 || s[0].openFds > 10_000 || s[0].threads > 1_000)
    {
      if |s| == 0 then ""
      else if s[0].memoryPercent > 95.0 then
        Tr(tr, "background_stuck_memory_exhaustion", map["percent" := show.percent(s[0].memoryPercent)])
      else if s[0].openFds > 10000 then
        Tr(tr, "background_stuck_fd_exhaustion", map["count" := show.count(s[0].openFds)])
      else if s[0].threads > 1000 then
        Tr(tr, "background_stuck_excessive_threads", map["count" := show.count(s[0].threads)])
      else ""
    }

    method IsProcessFrozen(s: seq<Snapshot>) returns (frozen: bool)
      ensures frozen <==> Frozen(s)
    {
      if |s| < 3 {
        return false;
      }
      var zeroCount, n := 0, if 5 < |s| then 5 else |s|;
      var i := 0;
      while i < n
        invariant 0 <= i <= n && zeroCount == LowCpu(s, i)
      {
        if s[i].cpuPercent < 0.1 {
          zeroCount := zeroCount + 1;
        }
        i := i + 1;
      }
      if zeroCount < 3 {
        return false;
      }
      var latest, older := s[0], s[|s| - 1];
      var increase := (latest.cpuUserTime + latest.cpuSystemTime) - (older.cpuUserTime + older.cpuSystemTime);
      if increase > 0.01 {
        return false;
      }
      return true;
    }

    method HasMemoryLeak(s: seq<Snapshot>) returns (leak: bool)
      ensures leak <==> Leaks(s)
    {
      if |s| < 5 {
        return false;
      }
      var increasing := 0;
      var i := 0;
      while i < |s| - 1
        invariant 0 <= i <= |s| - 1 && increasing == i - NotGrowing(s, i)
      {
        if s[i].memoryRss > s[i + 1].memoryRss {
          increasing := increasing + 1;
        }
        i := i + 1;
      }
      RatioExceeds(increasing, |s| - 1, 0.8);
      if (increasing as real) / ((|s| - 1) as real) > 0.8 {
        var oldest, latest := s[|s| - 1], s[0];
        if oldest.memoryRss > 0 {
          RatioExceeds(latest.memoryRss - oldest.memoryRss, oldest.memoryRss, 0.5);
          var growthRate := ((latest.memoryRss - oldest.memoryRss) as real) / (oldest.memoryRss as real);
          if growthRate > 0.5 {
            return true;
          }
        }
      }
      return false;
    }

    method IsEndlessTaskStuck(s: seq<Snapshot>) returns (stuck: bool, reason: string)
      ensures stuck <==> EndlessStuck(s)
      ensures stuck <==>
              && |s| > 0
              && (|| s[0].processState == "zombie" || s[0].processState == "Z" || s[0].memoryPercent > 98.0
                  || (&& |s| >= 5
                      && (forall i :: 0 <= i < 5 ==> s[i].cpuPercent <= 0.0)
                      && (forall i :: 0 < i < 5 ==>
                            s[i].ioRead == s[i - 1].ioRead && s[i].ioWrite == s[i - 1].ioWrite)))
      ensures stuck <==> reason != ""
      ensures reason == ExplainEndless(s)
    {
      if |s| == 0 {
        return false, "";
      }
      if s[0].processState == "zombie" || s[0].processState == "Z" {
        return true, "process is in zombie state";
      }
      if s[0].memoryPercent > 98.0 {
        return true, "critical memory exhaustion (>98%)";
      }
      if |s| >= 5 {
        var activityDetected := false;
        var i := 0;
        while i < 5
          invariant 0 <= i <= 5 && !activityDetected
          invariant forall k :: 0 <= k < i ==> s[k].cpuPercent <= 0.0
          invariant forall k :: 0 < k < i ==> s[k].ioRead == s[k - 1].ioRead && s[k].ioWrite == s[k - 1].ioWrite
        {
          if s[i].cpuPercent > 0.0 || (i > 0 && (s[i].ioRead != s[i - 1].ioRead || s[i].ioWrite != s[i - 1].ioWrite)) {
            activityDetected := true;
            break;
          }
          i := i + 1;
        }
        if !activityDetected {
          return true, "endless process has no activity";
        }
      }
      return false, "";
    }
  }
}
