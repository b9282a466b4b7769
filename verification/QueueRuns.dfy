/** Two properties of the in-memory queue that span many calls: generated identifiers never
    collide, and draining the queue yields what peeking showed. */
module QueueRuns {
  import opened Tasks
  import opened QueueSort
  import opened QueueModel
  import TaskIds

  // ----- Generated identifiers -----

  predicate Generates<R(==)>(op: Op<R>) {
    op.Enqueue? && op.rec.id == ""
  }

  /** The number of calls among `ops` that generate an identifier. */
  function Generated<R(==)>(ops: seq<Op<R>>): nat {
    if ops == [] then 0 else Generated(ops[..|ops| - 1]) + (if Generates(ops[|ops| - 1]) then 1 else 0)
  }

  /** The identifier that the `i`-th call of the run stores in its task. */
  ghost function IdAt<R>(trace: seq<QState<R>>, ops: seq<Op<R>>, i: nat): string
    requires IsRun(trace, ops) && i < |ops| && ops[i].Enqueue?
  {
    assert StepAt(trace, ops, i);
    trace[i + 1].heap[ops[i].r].id
  }

  lemma {:induction false} GeneratedGrows<R>(ops: seq<Op<R>>, i: nat, j: nat)
    requires i <= j <= |ops|
    ensures Generated(ops[..i]) <= Generated(ops[..j])
    ensures i < j && Generates(ops[i]) ==> Generated(ops[..i]) < Generated(ops[..j])
    decreases j
  {
    if i < j {
      assert ops[..j][..j - 1] == ops[..j - 1];
      GeneratedGrows(ops, i, j - 1);
    }
  }

  lemma ApplyCounter<R>(s: QState<R>, op: Op<R>)
    requires WellFormed(s) && Allowed(s, op)
    ensures Apply(s, op).idCounter == if Generates(op) then (s.idCounter + 1) % COUNTER_LIMIT else s.idCounter
  {
  }

  lemma StepCounter<R>(trace: seq<QState<R>>, ops: seq<Op<R>>, i: nat)
    requires IsRun(trace, ops) && i < |ops|
    ensures trace[i + 1].idCounter ==
            if Generates(ops[i]) then (trace[i].idCounter + 1) % COUNTER_LIMIT else trace[i].idCounter
  {
    assert StepAt(trace, ops, i);
    ApplyCounter(trace[i], ops[i]);
  }

  lemma ApplyStoresId<R>(s: QState<R>, op: Op<R>)
    requires WellFormed(s) && Allowed(s, op) && Generates(op) && s.idCounter + 1 < COUNTER_LIMIT
    ensures op.r in Apply(s, op).heap
    ensures Apply(s, op).heap[op.r].id == TaskIds.GeneratedId(op.nano, s.idCounter + 1)
  {
    assert CounterAfter(s, op.rec) == s.idCounter + 1;
  }

  lemma StepStoresId<R>(trace: seq<QState<R>>, ops: seq<Op<R>>, i: nat)
    requires IsRun(trace, ops) && i < |ops| && Generates(ops[i]) && trace[i].idCounter + 1 < COUNTER_LIMIT
    ensures IdAt(trace, ops, i) == TaskIds.GeneratedId(ops[i].nano, trace[i].idCounter + 1)
  {
    assert StepAt(trace, ops, i);
    ApplyStoresId(trace[i], ops[i]);
  }

  lemma {:induction false} CounterCountsGenerated<R>(trace: seq<QState<R>>, ops: seq<Op<R>>, i: nat)
    requires IsRun(trace, ops) && trace[0] == NewQueue() && i <= |ops|
    requires Generated(ops[..i]) < COUNTER_LIMIT
    ensures trace[i].idCounter == Generated(ops[..i])
  {
    if i > 0 {
      assert ops[..i][..i - 1] == ops[..i - 1];
      CounterCountsGenerated(trace, ops, i - 1);
      StepCounter(trace, ops, i - 1);
    }
  }

  lemma GeneratedOfOneMore<R>(ops: seq<Op<R>>, i: nat)
    requires i < |ops|
    ensures Generated(ops[..i + 1]) == Generated(ops[..i]) + (if Generates(ops[i]) then 1 else 0)
  {
    assert ops[..i + 1][..i] == ops[..i];
  }

  lemma GeneratedOfPart<R>(ops: seq<Op<R>>, i: nat)
    requires i <= |ops|
    ensures Generated(ops[..i]) <= Generated(ops)
  {
    assert ops[..|ops|] == ops;
    GeneratedGrows(ops, i, |ops|);
  }

  /** The counter that the `i`-th call, a generating one, prints into its identifier. */
  lemma CounterAtCall<R>(trace: seq<QState<R>>, ops: seq<Op<R>>, i: nat)
    requires IsRun(trace, ops) && trace[0] == NewQueue() && i < |ops| && Generates(ops[i])
    requires Generated(ops) < COUNTER_LIMIT
    ensures trace[i].idCounter + 1 == Generated(ops[..i + 1]) < COUNTER_LIMIT
  {
    GeneratedOfOneMore(ops, i);
    GeneratedOfPart(ops, i + 1);
    CounterCountsGenerated(trace, ops, i);
  }

  lemma IdPrintsCounter<R>(trace: seq<QState<R>>, ops: seq<Op<R>>, i: nat)
    requires IsRun(trace, ops) && trace[0] == NewQueue() && i < |ops| && Generates(ops[i])
    requires Generated(ops) < COUNTER_LIMIT
    ensures IdAt(trace, ops, i) == TaskIds.GeneratedId(ops[i].nano, Generated(ops[..i + 1]))
  {
    CounterAtCall(trace, ops, i);
    StepStoresId(trace, ops, i);
  }

  lemma LaterCountsMore<R>(ops: seq<Op<R>>, i: nat, j: nat)
    requires i < j < |ops| && Generates(ops[j])
    ensures Generated(ops[..i + 1]) < Generated(ops[..j + 1])
  {
    GeneratedGrows(ops, i + 1, j);
    GeneratedGrows(ops, j, j + 1);
  }

  /** In any run with fewer than 2^64 generating calls, whatever the clock returned and
      whatever other operations are mixed in, two such calls never get one identifier. */
  lemma GeneratedIdsArePairwiseDistinct<R>(trace: seq<QState<R>>, ops: seq<Op<R>>, i: nat, j: nat)
    requires IsRun(trace, ops) && trace[0] == NewQueue()
    requires Generated(ops) < COUNTER_LIMIT
    requires i < j < |ops| && Generates(ops[i]) && Generates(ops[j])
    ensures IdAt(trace, ops, i) != IdAt(trace, ops, j)
  {
    IdPrintsCounter(trace, ops, i);
    IdPrintsCounter(trace, ops, j);
    LaterCountsMore(ops, i, j);
    if IdAt(trace, ops, i) == IdAt(trace, ops, j) {
      TaskIds.GeneratedIdsDiffer(ops[i].nano, Generated(ops[..i + 1]), ops[j].nano, Generated(ops[..j + 1]));
    }
  }

  ghost predicate OnlyGenerated<R>(s: QState<R>) {
    forall id :: id in s.tasks ==> exists n: int, c: nat :: c <= s.idCounter && id == TaskIds.GeneratedId(n, c)
  }

  lemma GeneratedKeyIsNew<R>(s: QState<R>, nano: int, id: string)
    requires OnlyGenerated(s) && id == TaskIds.GeneratedId(nano, s.idCounter + 1)
    ensures id !in s.tasks
  {
    if id in s.tasks {
      var n: int, c: nat :| c <= s.idCounter && id == TaskIds.GeneratedId(n, c);
      TaskIds.GeneratedIdsDiffer(nano, s.idCounter + 1, n, c);
    }
  }

  lemma EnqueueAddsGenerated<R>(s: QState<R>, op: Op<R>)
    requires WellFormed(s) && Allowed(s, op) && Generates(op) && s.idCounter + 1 < COUNTER_LIMIT
    ensures Apply(s, op).tasks == s.tasks[TaskIds.GeneratedId(op.nano, s.idCounter + 1) := op.r]
    ensures Apply(s, op).idCounter == s.idCounter + 1
  {
    assert CounterAfter(s, op.rec) == s.idCounter + 1;
  }

  lemma OneMoreGenerated<R>(s: QState<R>, s': QState<R>, nano: int, r: R)
    requires OnlyGenerated(s) && s'.idCounter == s.idCounter + 1
    requires s'.tasks == s.tasks[TaskIds.GeneratedId(nano, s.idCounter + 1) := r]
    ensures OnlyGenerated(s') && |s'.tasks| == |s.tasks| + 1
  {
    var id := TaskIds.GeneratedId(nano, s.idCounter + 1);
    GeneratedKeyIsNew(s, nano, id);
    forall k | k in s'.tasks ensures exists n: int, c: nat :: c <= s'.idCounter && k == TaskIds.GeneratedId(n, c) {
      if k == id {
        assert s.idCounter + 1 <= s'.idCounter && k == TaskIds.GeneratedId(nano, s.idCounter + 1);
      } else {
        assert k in s.tasks;
      }
    }
  }

  lemma OtherOpsKeepTasks<R>(s: QState<R>, op: Op<R>)
    requires WellFormed(s) && Allowed(s, op) && !op.Enqueue?
    ensures Apply(s, op).tasks == s.tasks && Apply(s, op).idCounter == s.idCounter
  {
  }

  lemma MapSizeStep<R>(trace: seq<QState<R>>, ops: seq<Op<R>>, i: nat)
    requires IsRun(trace, ops) && i < |ops| && OnlyGenerated(trace[i])
    requires ops[i].Enqueue? ==> Generates(ops[i]) && trace[i].idCounter + 1 < COUNTER_LIMIT
    ensures OnlyGenerated(trace[i + 1])
    ensures |trace[i + 1].tasks| == |trace[i].tasks| + (if Generates(ops[i]) then 1 else 0)
  {
    assert StepAt(trace, ops, i);
    if ops[i].Enqueue? {
      EnqueueAddsGenerated(trace[i], ops[i]);
      OneMoreGenerated(trace[i], trace[i + 1], ops[i].nano, ops[i].r);
    } else {
      OtherOpsKeepTasks(trace[i], ops[i]);
    }
  }

  /** With generated identifiers only, no task is ever overwritten: the map holds one entry
      for each enqueue. */
  lemma {:induction false} MapSizeIsEnqueueCount<R>(trace: seq<QState<R>>, ops: seq<Op<R>>, i: nat)
    requires IsRun(trace, ops) && trace[0] == NewQueue() && i <= |ops|
    requires forall k :: 0 <= k < |ops| && ops[k].Enqueue? ==> Generates(ops[k])
    requires Generated(ops) < COUNTER_LIMIT
    ensures |trace[i].tasks| == Generated(ops[..i]) && OnlyGenerated(trace[i])
  {
    if i > 0 {
      MapSizeIsEnqueueCount(trace, ops, i - 1);
      GeneratedOfOneMore(ops, i - 1);
      GeneratedOfPart(ops, i);
      CounterCountsGenerated(trace, ops, i - 1);
      MapSizeStep(trace, ops, i - 1);
    }
  }

  // ----- First in, first out -----

  /** Each enqueue reads a later creation time than the ones before it. */
  ghost predicate ClockIncreases<R>(ops: seq<Op<R>>) {
    forall i, j :: 0 <= i < j < |ops| && ops[i].Enqueue? && ops[j].Enqueue? ==> ops[i].created < ops[j].created
  }

  /** The latest of the first `i` calls that enqueued `x`; -1 if none did. */
  function LastEnqueue<R(==)>(ops: seq<Op<R>>, i: nat, x: R): (k: int)
    requires i <= |ops|
    ensures -1 <= k < i
    ensures k >= 0 ==> ops[k].Enqueue? && ops[k].r == x
  {
    if i == 0 then -1
    else if ops[i - 1].Enqueue? && ops[i - 1].r == x then i - 1
    else LastEnqueue(ops, i - 1, x)
  }

  /** A task carries the creation time of its last enqueue. */
  ghost predicate CreatedAtEnqueue<R>(s: QState<R>, ops: seq<Op<R>>, i: nat)
    requires i <= |ops|
  {
    forall x :: x in s.heap ==> var k := LastEnqueue(ops, i, x); k >= 0 && s.heap[x].createdAt == ops[k].created
  }

  lemma ApplyCreated<R>(s: QState<R>, op: Op<R>, x: R)
    requires WellFormed(s) && Allowed(s, op) && x in Apply(s, op).heap
    ensures if op.Enqueue? && op.r == x then Apply(s, op).heap[x].createdAt == op.created
            else x in s.heap && Apply(s, op).heap[x].createdAt == s.heap[x].createdAt
  {
  }

  lemma {:induction false} RunCreatedAtEnqueue<R>(trace: seq<QState<R>>, ops: seq<Op<R>>, i: nat)
    requires IsRun(trace, ops) && trace[0] == NewQueue() && i < |trace|
    ensures CreatedAtEnqueue(trace[i], ops, i)
  {
    if i > 0 {
      RunCreatedAtEnqueue(trace, ops, i - 1);
      assert StepAt(trace, ops, i - 1);
      forall x | x in trace[i].heap
        ensures var k := LastEnqueue(ops, i, x); k >= 0 && trace[i].heap[x].createdAt == ops[k].created
      {
        ApplyCreated(trace[i - 1], ops[i - 1], x);
      }
    }
  }

  /** In any run from a new queue with an increasing clock, requeues, duplicates and stale
      entries included, a claim takes among the eligible tasks of its weight the one that was
      enqueued first. */
  lemma FirstInFirstOut<R>(trace: seq<QState<R>>, ops: seq<Op<R>>, i: nat, from: int, x: R)
    requires IsRun(trace, ops) && trace[0] == NewQueue() && ClockIncreases(ops)
    requires i < |ops| && ops[i].Dequeue? && WellFormed(trace[i]) && |ops[i].scan| == |trace[i].queue|
    requires ClockMoves(from, ops[i].scan, ops[i].now)
    requires var s, op := trace[i], ops[i]; var got := Dequeued(s, op.worker, op.req, op.scan, op.now).1;
             && got.Some? && got.value in s.heap && x != got.value && x in s.queue
             && s.heap[x].status == Pending && s.heap[x].scheduledAt < from
             && (op.req.cpuCores <= 0 || s.heap[x].requiredCpu <= op.req.cpuCores)
             && (op.req.memoryMB <= 0 || s.heap[x].requiredMemory <= op.req.memoryMB)
             && s.heap[x].priority.weight == s.heap[got.value].priority.weight
    ensures var s, op := trace[i], ops[i]; var got := Dequeued(s, op.worker, op.req, op.scan, op.now).1;
            0 <= LastEnqueue(ops, i, got.value) < LastEnqueue(ops, i, x)
  {
    var s, op := trace[i], ops[i];
    var r := Dequeued(s, op.worker, op.req, op.scan, op.now).1.value;
    EveryRunKeepsInv(trace, ops, i);
    RunCreatedAtEnqueue(trace, ops, i);
    ClaimIsLeastEligible(s, op.worker, op.req, from, op.scan, op.now);
    var kr, kx := LastEnqueue(ops, i, r), LastEnqueue(ops, i, x);
    assert s.heap[r].createdAt == ops[kr].created && s.heap[x].createdAt == ops[kx].created;
  }

  // ----- Draining -----

  const NO_LIMIT := Requirements(0, 0)

  function Readings(clock: (nat, nat) -> int, n: nat, length: nat): (scan: seq<int>)
    ensures |scan| == length && forall i :: 0 <= i < length ==> scan[i] == clock(n, i)
  {
    seq(length, i requires 0 <= i => clock(n, i))
  }

  /** What repeated unconstrained `Dequeue` calls return until the first nil;
      `clock(n, i)` is the reading of call `n` at position `i`. */
  function Drained<R(==)>(s: QState<R>, worker: string, clock: (nat, nat) -> int, n: nat): seq<R>
    requires WellFormed(s)
    decreases |s.queue|
  {
    var (s', got) := Dequeued(s, worker, NO_LIMIT, Readings(clock, n, |s.queue|), clock(n, |s.queue|));
    if got.None? then [] else [got.value] + Drained(s', worker, clock, n + 1)
  }

  ghost predicate AllDue<R>(s: QState<R>, clock: (nat, nat) -> int)
    requires WellFormed(s)
  {
    forall x, n: nat, i: nat :: x in s.queue ==> s.heap[x].scheduledAt < clock(n, i)
  }

  function Without<T(==)>(q: seq<T>, x: T): (r: seq<T>)
    ensures |r| <= |q| && x !in r
    ensures x !in q ==> r == q
    ensures forall y :: y in r ==> y in q
  {
    if q == [] then [] else (if q[0] == x then [] else [q[0]]) + Without(q[1..], x)
  }

  /** Keeps the first occurrence of each element. */
  function FirstOccurrences<T(==)>(q: seq<T>): (r: seq<T>)
    ensures |r| <= |q| && forall y :: y in r ==> y in q
    decreases |q|
  {
    if q == [] then [] else [q[0]] + FirstOccurrences(Without(q[1..], q[0]))
  }

  ghost predicate NoDuplicates<T>(q: seq<T>) {
    forall i, j :: 0 <= i < j < |q| ==> q[i] != q[j]
  }

  lemma {:induction false} FirstOccurrencesDistinct<T>(q: seq<T>)
    ensures NoDuplicates(FirstOccurrences(q))
    decreases |q|
  {
    if q != [] {
      var firsts := FirstOccurrences(Without(q[1..], q[0]));
      FirstOccurrencesDistinct(Without(q[1..], q[0]));
      assert q[0] !in firsts;
      forall i, j | 0 <= i < j < |firsts| + 1 ensures ([q[0]] + firsts)[i] != ([q[0]] + firsts)[j] {
        assert ([q[0]] + firsts)[j] == firsts[j - 1] && firsts[j - 1] in firsts;
      }
    }
  }

  lemma {:induction false} FirstOccurrencesOfDistinct<T>(q: seq<T>)
    requires NoDuplicates(q)
    ensures FirstOccurrences(q) == q
    decreases |q|
  {
    if q != [] {
      assert q[0] !in q[1..];
      FirstOccurrencesOfDistinct(q[1..]);
    }
  }

  lemma {:induction false} NonePending<R>(heap: map<R, TaskRec>, q: seq<R>)
    requires Known(heap, q) && forall k :: 0 <= k < |q| ==> heap[q[k]].status != Pending
    ensures PendingEntries(heap, q) == []
  {
    if q != [] {
      NonePending(heap, q[1..]);
    }
  }

  /** Once `r` is no longer pending, its copies drop out of the pending entries. */
  lemma {:induction false} PendingAfterClaim<R>(heap: map<R, TaskRec>, heap': map<R, TaskRec>, r: R, q: seq<R>)
    requires Known(heap, q) && r in heap && heap[r].status == Pending
    requires r in heap' && heap' == heap[r := heap'[r]] && heap'[r].status != Pending
    ensures Known(heap', q)
    ensures PendingEntries(heap', q) == Without(PendingEntries(heap, q), r)
  {
    if q != [] {
      PendingAfterClaim(heap, heap', r, q[1..]);
      PendingHead(heap, q);
      PendingHead(heap', q);
      WithoutCons(q[0], PendingEntries(heap, q[1..]), r);
    }
  }

  lemma PendingHead<R>(heap: map<R, TaskRec>, q: seq<R>)
    requires Known(heap, q) && q != []
    ensures PendingEntries(heap, q) ==
            if heap[q[0]].status == Pending then [q[0]] + PendingEntries(heap, q[1..]) else PendingEntries(heap, q[1..])
  {
  }

  lemma WithoutCons<T>(x: T, rest: seq<T>, r: T)
    ensures Without([x] + rest, r) == if x == r then Without(rest, r) else [x] + Without(rest, r)
  {
    assert ([x] + rest)[1..] == rest;
  }

  /** When everything is due, the scan passes over nothing that is pending. */
  lemma SkippedAreNotPending<R>(s: QState<R>, scan: seq<int>, k: nat)
    requires WellFormed(s) && |scan| == |s.queue| && k == FirstClaimable(s, NO_LIMIT, scan, 0)
    requires forall i :: 0 <= i < |scan| ==> s.heap[s.queue[i]].scheduledAt < scan[i]
    ensures Known(s.heap, s.queue[..k])
    ensures forall j :: 0 <= j < k ==> s.heap[s.queue[..k][j]].status != Pending
  {
    forall j | 0 <= j < k ensures s.heap[s.queue[..k][j]].status != Pending {
      assert !Claimable(s.heap[s.queue[j]], NO_LIMIT, scan[j]);
    }
  }

  lemma PendingSplit<R>(heap: map<R, TaskRec>, skipped: seq<R>, r: R, tail: seq<R>)
    requires Known(heap, skipped) && Known(heap, tail) && r in heap && heap[r].status == Pending
    requires forall j :: 0 <= j < |skipped| ==> heap[skipped[j]].status != Pending
    ensures Known(heap, skipped + [r] + tail)
    ensures PendingEntries(heap, skipped + [r] + tail) == [r] + PendingEntries(heap, tail)
  {
    NonePending(heap, skipped);
    var rest := [r] + tail;
    assert rest[0] == r && rest[1..] == tail && skipped + [r] + tail == skipped + rest;
    PendingOfConcat(heap, skipped, rest);
  }

  lemma PendingWithoutClaimed<R>(heap: map<R, TaskRec>, heap': map<R, TaskRec>, skipped: seq<R>, r: R, tail: seq<R>)
    requires Known(heap, skipped) && Known(heap, tail) && r in heap && heap[r].status == Pending
    requires forall j :: 0 <= j < |skipped| ==> heap[skipped[j]].status != Pending
    requires r in heap' && heap' == heap[r := heap'[r]] && heap'[r].status != Pending
    ensures Known(heap', skipped + tail)
    ensures PendingEntries(heap', skipped + tail) == Without(PendingEntries(heap, tail), r)
  {
    NonePending(heap', skipped);
    PendingAfterClaim(heap, heap', r, tail);
    PendingOfConcat(heap', skipped, tail);
  }

  /** One claim of a drain, seen on the pending entries. */
  lemma ClaimTakesFirstPending<R>(s: QState<R>, worker: string, scan: seq<int>, now: int, k: nat)
    requires WellFormed(s) && |scan| == |s.queue| && k == FirstClaimable(s, NO_LIMIT, scan, 0)
    requires forall i :: 0 <= i < |scan| ==> s.heap[s.queue[i]].scheduledAt < scan[i]
    ensures k == |s.queue| ==> PendingEntries(s.heap, s.queue) == []
    ensures k < |s.queue| ==>
              var rest := PendingEntries(s.heap, s.queue[k + 1..]);
              var s' := Claimed(s, k, worker, now);
              && PendingEntries(s.heap, s.queue) == [s.queue[k]] + rest
              && WellFormed(s') && PendingEntries(s'.heap, s'.queue) == Without(rest, s.queue[k])
  {
    SkippedAreNotPending(s, scan, k);
    if k == |s.queue| {
      NonePending(s.heap, s.queue);
    } else {
      var skipped, r, tail := s.queue[..k], s.queue[k], s.queue[k + 1..];
      PendingSplit(s.heap, skipped, r, tail);
      assert s.queue == skipped + [r] + tail;
      PendingWithoutClaimed(s.heap, Claimed(s, k, worker, now).heap, skipped, r, tail);
    }
  }

  lemma FirstOccurrencesCons<T>(x: T, rest: seq<T>)
    ensures FirstOccurrences([x] + rest) == [x] + FirstOccurrences(Without(rest, x))
  {
    assert ([x] + rest)[1..] == rest;
  }

  lemma ClaimKeepsAllDue<R>(s: QState<R>, clock: (nat, nat) -> int, k: nat, worker: string, now: int)
    requires WellFormed(s) && AllDue(s, clock) && k < |s.queue|
    ensures WellFormed(Claimed(s, k, worker, now)) && AllDue(Claimed(s, k, worker, now), clock)
  {
    RemoveAtKnown(s.heap, s.queue, k);
    forall x | x in RemoveAt(s.queue, k) ensures x in s.queue {
    }
  }

  lemma DrainedStep<R>(s: QState<R>, worker: string, clock: (nat, nat) -> int, n: nat, k: nat)
    requires WellFormed(s) && k == FirstClaimable(s, NO_LIMIT, Readings(clock, n, |s.queue|), 0)
    ensures k == |s.queue| ==> Drained(s, worker, clock, n) == []
    ensures k < |s.queue| ==>
              var s' := Claimed(s, k, worker, clock(n, |s.queue|));
              WellFormed(s') && Drained(s, worker, clock, n) == [s.queue[k]] + Drained(s', worker, clock, n + 1)
  {
    if k < |s.queue| {
      RemoveAtKnown(s.heap, s.queue, k);
    }
  }

  lemma DrainEnds<R>(s: QState<R>, worker: string, clock: (nat, nat) -> int, n: nat)
    requires WellFormed(s) && AllDue(s, clock)
    requires FirstClaimable(s, NO_LIMIT, Readings(clock, n, |s.queue|), 0) == |s.queue|
    ensures Drained(s, worker, clock, n) == [] && PendingEntries(s.heap, s.queue) == []
  {
    var scan := Readings(clock, n, |s.queue|);
    ClaimTakesFirstPending(s, worker, scan, 0, |s.queue|);
    DrainedStep(s, worker, clock, n, |s.queue|);
  }

  /** One call of a drain: it takes the first pending entry `x` and with it its copies. */
  lemma DrainTurn<R>(s: QState<R>, worker: string, clock: (nat, nat) -> int, n: nat)
    returns (s': QState<R>, x: R, rest: seq<R>)
    requires WellFormed(s) && AllDue(s, clock)
    requires FirstClaimable(s, NO_LIMIT, Readings(clock, n, |s.queue|), 0) < |s.queue|
    ensures WellFormed(s') && AllDue(s', clock) && |s'.queue| < |s.queue|
    ensures Drained(s, worker, clock, n) == [x] + Drained(s', worker, clock, n + 1)
    ensures PendingEntries(s.heap, s.queue) == [x] + rest && PendingEntries(s'.heap, s'.queue) == Without(rest, x)
  {
    var now := clock(n, |s.queue|);
    var k := FirstClaimable(s, NO_LIMIT, Readings(clock, n, |s.queue|), 0);
    s', x, rest := Claimed(s, k, worker, now), s.queue[k], PendingEntries(s.heap, s.queue[k + 1..]);
    ClaimTakesFirstPending(s, worker, Readings(clock, n, |s.queue|), now, k);
    DrainedStep(s, worker, clock, n, k);
    ClaimKeepsAllDue(s, clock, k, worker, now);
  }

  lemma {:induction false} DrainedIsFirstPending<R>(s: QState<R>, worker: string, clock: (nat, nat) -> int, n: nat)
    requires WellFormed(s) && AllDue(s, clock)
    ensures Drained(s, worker, clock, n) == FirstOccurrences(PendingEntries(s.heap, s.queue))
    decreases |s.queue|
  {
    var k := FirstClaimable(s, NO_LIMIT, Readings(clock, n, |s.queue|), 0);
    if k == |s.queue| {
      DrainEnds(s, worker, clock, n);
    } else {
      var s', x, rest := DrainTurn(s, worker, clock, n);
      DrainedIsFirstPending(s', worker, clock, n + 1);
      FirstOccurrencesCons(x, rest);
    }
  }

  lemma PeekAllIsPending<R>(s: QState<R>)
    requires WellFormed(s)
    ensures Peeked(s, |s.queue|) == PendingEntries(s.heap, s.queue)
  {
  }

  /** When every queued task is due, draining returns exactly what peeking at the whole queue
      showed, in that order, if and only if no pending task is queued twice. */
  lemma DrainEqualsPeek<R>(s: QState<R>, worker: string, clock: (nat, nat) -> int)
    requires WellFormed(s) && AllDue(s, clock)
    ensures Drained(s, worker, clock, 0) == Peeked(s, |s.queue|) <==> NoDuplicates(PendingEntries(s.heap, s.queue))
  {
    DrainedIsFirstPending(s, worker, clock, 0);
    var pending := PendingEntries(s.heap, s.queue);
    FirstOccurrencesDistinct(pending);
    if NoDuplicates(pending) {
      FirstOccurrencesOfDistinct(pending);
    }
  }
}
