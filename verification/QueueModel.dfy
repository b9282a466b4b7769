/** The in-memory queue as a value: what each operation of `InMemoryTaskQueue` does to
    the task contents, the map, the slice and the counter, and what every sequence of
    operations keeps.

    The slice may hold an entry twice (`Requeue` does not look whether the task is
    already queued) and may hold entries that are no longer pending (dead-lettering does
    not remove them); nothing below excludes such states. */
module QueueModel {
  import opened Tasks
  import opened QueueSort
  import TaskIds

  const COUNTER_LIMIT: nat := 0x1_0000_0000_0000_0000

  datatype QState<R(==)> = QState(heap: map<R, TaskRec>, tasks: map<string, R>, queue: seq<R>, idCounter: nat)

  predicate WellFormed<R(==)>(s: QState<R>) {
    && Known(s.heap, s.queue)
    && forall id :: id in s.tasks ==> s.tasks[id] in s.heap
  }

  ghost predicate IdsMatch<R>(s: QState<R>)
    requires WellFormed(s)
  {
    && "" !in s.tasks
    && forall id :: id in s.tasks ==> s.heap[s.tasks[id]].id == id
  }

  /** Every pending task of the map occurs in the slice. */
  ghost predicate NoPendingTaskLost<R>(s: QState<R>)
    requires WellFormed(s)
  {
    forall id :: id in s.tasks && s.heap[s.tasks[id]].status == Pending ==> s.tasks[id] in s.queue
  }

  ghost predicate QueueInv<R>(s: QState<R>) {
    WellFormed(s) && IdsMatch(s) && NoPendingTaskLost(s) && Sorted(s.heap, s.queue)
  }

  // ----- The operations -----

  /** `sortQueue`. */
  function WithSortedQueue<R(==)>(s: QState<R>): QState<R>
    requires WellFormed(s)
  {
    s.(queue := ExchangeSort(s.heap, s.queue, 0))
  }

  /** An empty identifier is replaced by a generated one, which advances the counter. */
  function CounterAfter<R(==)>(s: QState<R>, rec: TaskRec): nat {
    if rec.id == "" then (s.idCounter + 1) % COUNTER_LIMIT else s.idCounter
  }

  function EnqueuedRec<R(==)>(s: QState<R>, rec: TaskRec, nano: int, created: int, updated: int): TaskRec {
    rec.Enqueued(if rec.id == "" then TaskIds.GeneratedId(nano, CounterAfter(s, rec)) else rec.id, created, updated)
  }

  function Appended<R(==)>(s: QState<R>, r: R, rec: TaskRec, nano: int, created: int, updated: int): QState<R> {
    var t := EnqueuedRec(s, rec, nano, created, updated);
    QState(s.heap[r := t], s.tasks[t.id := r], s.queue + [r], CounterAfter(s, rec))
  }

  /** `Enqueue` of the task `r`, whose contents are `rec`. */
  function Enqueued<R(==)>(s: QState<R>, r: R, rec: TaskRec, nano: int, created: int, updated: int): QState<R>
    requires WellFormed(s)
  {
    WithSortedQueue(Appended(s, r, rec, nano, created, updated))
  }

  predicate Fits(t: TaskRec, req: Requirements) {
    && (req.cpuCores > 0 ==> t.requiredCpu <= req.cpuCores)
    && (req.memoryMB > 0 ==> t.requiredMemory <= req.memoryMB)
  }

  predicate Claimable(t: TaskRec, req: Requirements, now: int) {
    t.status == Pending && t.scheduledAt < now && Fits(t, req)
  }

  /** The scan of `Dequeue` from position `i` on; `scan[k]` is the clock reading at
      position `k`. */
  function FirstClaimable<R(==)>(s: QState<R>, req: Requirements, scan: seq<int>, i: nat): (k: nat)
    requires WellFormed(s) && |scan| == |s.queue| && i <= |s.queue|
    ensures i <= k <= |s.queue|
    ensures forall j :: i <= j < k ==> !Claimable(s.heap[s.queue[j]], req, scan[j])
    ensures k < |s.queue| ==> Claimable(s.heap[s.queue[k]], req, scan[k])
    decreases |s.queue| - i
  {
    if i == |s.queue| || Claimable(s.heap[s.queue[i]], req, scan[i]) then i
    else FirstClaimable(s, req, scan, i + 1)
  }

  lemma ScanStep<R>(s: QState<R>, req: Requirements, scan: seq<int>, i: nat)
    requires WellFormed(s) && |scan| == |s.queue| && i < |s.queue|
    ensures FirstClaimable(s, req, scan, i) ==
            if Claimable(s.heap[s.queue[i]], req, scan[i]) then i else FirstClaimable(s, req, scan, i + 1)
  {
  }

  function RemoveAt<T>(q: seq<T>, k: nat): seq<T>
    requires k < |q|
  {
    q[..k] + q[k + 1..]
  }

  lemma RemoveAtKnown<R>(heap: map<R, TaskRec>, q: seq<R>, k: nat)
    requires Known(heap, q) && k < |q|
    ensures Known(heap, RemoveAt(q, k))
  {
    forall i | 0 <= i < |q| - 1 ensures RemoveAt(q, k)[i] == q[if i < k then i else i + 1] {
    }
  }

  /** Entry `k` is claimed by `worker` at time `now`. */
  function Claimed<R(==)>(s: QState<R>, k: nat, worker: string, now: int): QState<R>
    requires WellFormed(s) && k < |s.queue|
  {
    var r := s.queue[k];
    s.(heap := s.heap[r := s.heap[r].Claimed(worker, now)], queue := RemoveAt(s.queue, k))
  }

  function Dequeued<R(==)>(s: QState<R>, worker: string, req: Requirements, scan: seq<int>, now: int)
    : (QState<R>, Option<R>)
    requires WellFormed(s) && |scan| == |s.queue|
  {
    var k := FirstClaimable(s, req, scan, 0);
    if k == |s.queue| then (s, None) else (Claimed(s, k, worker, now), Some(s.queue[k]))
  }

  function Reappended<R(==)>(s: QState<R>, id: string, delay: int, at: int, updated: int): QState<R>
    requires WellFormed(s) && id in s.tasks
  {
    var r := s.tasks[id];
    s.(heap := s.heap[r := s.heap[r].Requeued(at + delay, updated)], queue := s.queue + [r])
  }

  /** `Requeue` of a known identifier; an unknown one is an error that changes nothing. */
  function Requeued<R(==)>(s: QState<R>, id: string, delay: int, at: int, updated: int): QState<R>
    requires WellFormed(s) && id in s.tasks
  {
    WithSortedQueue(Reappended(s, id, delay, at, updated))
  }

  /** `MoveToDeadLetter` of a known identifier; the slice entry stays. */
  function DeadLettered<R(==)>(s: QState<R>, id: string, reason: string, updated: int): QState<R>
    requires WellFormed(s) && id in s.tasks
  {
    var r := s.tasks[id];
    s.(heap := s.heap[r := s.heap[r].DeadLettered(reason, updated)])
  }

  /** A status written by the pool, the stuck handler or an executor wrapper. */
  function StatusWritten<R(==)>(s: QState<R>, r: R, status: Status): QState<R>
    requires r in s.heap
  {
    s.(heap := s.heap[r := s.heap[r].(status := status)])
  }

  /** `Peek`: the pending ones among the first `count` positions. */
  function Peeked<R(==)>(s: QState<R>, count: nat): seq<R>
    requires WellFormed(s)
  {
    PendingEntries(s.heap, if count < |s.queue| then s.queue[..count] else s.queue)
  }

  function PendingEntries<R(==)>(heap: map<R, TaskRec>, q: seq<R>): seq<R>
    requires Known(heap, q)
  {
    if q == [] then []
    else (if heap[q[0]].status == Pending then [q[0]] else []) + PendingEntries(heap, q[1..])
  }

  lemma {:induction false} PendingOfConcat<R>(heap: map<R, TaskRec>, p: seq<R>, q: seq<R>)
    requires Known(heap, p) && Known(heap, q)
    ensures Known(heap, p + q)
    ensures PendingEntries(heap, p + q) == PendingEntries(heap, p) + PendingEntries(heap, q)
  {
    if p == [] {
      assert p + q == q;
    } else {
      assert (p + q)[0] == p[0] && (p + q)[1..] == p[1..] + q;
      PendingOfConcat(heap, p[1..], q);
      var first := if heap[p[0]].status == Pending then [p[0]] else [];
      assert PendingEntries(heap, p) == first + PendingEntries(heap, p[1..]);
      assert PendingEntries(heap, p + q) == first + (PendingEntries(heap, p[1..]) + PendingEntries(heap, q));
    }
  }

  // ----- What every operation keeps -----

  lemma SortKeepsEntries<R>(heap: map<R, TaskRec>, q: seq<R>)
    requires Known(heap, q)
    ensures forall x :: x in ExchangeSort(heap, q, 0) <==> x in q
  {
    SortQueueSorts(heap, q);
    forall x ensures x in ExchangeSort(heap, q, 0) <==> x in q {
      assert x in multiset(q) <==> x in multiset(ExchangeSort(heap, q, 0));
    }
  }

  lemma EnqueueKeepsInv<R>(s: QState<R>, r: R, rec: TaskRec, nano: int, created: int, updated: int)
    requires QueueInv(s) && (r in s.heap ==> rec == s.heap[r])
    ensures QueueInv(Enqueued(s, r, rec, nano, created, updated))
    ensures r in Enqueued(s, r, rec, nano, created, updated).queue
  {
    var s' := Enqueued(s, r, rec, nano, created, updated);
    SortQueueSorts(s'.heap, s.queue + [r]);
    SortKeepsEntries(s'.heap, s.queue + [r]);
  }

  lemma RemoveAtKeeps<R>(heap: map<R, TaskRec>, q: seq<R>, k: nat)
    requires Known(heap, q) && Sorted(heap, q) && k < |q|
    ensures Known(heap, RemoveAt(q, k)) && Sorted(heap, RemoveAt(q, k))
    ensures forall x :: x in q && x != q[k] ==> x in RemoveAt(q, k)
    ensures multiset(RemoveAt(q, k)) == multiset(q) - multiset{q[k]}
  {
    var p := RemoveAt(q, k);
    forall i | 0 <= i < |p| ensures p[i] == q[if i < k then i else i + 1] {
    }
    assert q == q[..k] + [q[k]] + q[k + 1..];
    forall x | x in q && x != q[k] ensures x in p {
      var i :| 0 <= i < |q| && q[i] == x;
      assert p[if i < k then i else i - 1] == x;
    }
  }

  lemma ClaimKeepsInv<R>(s: QState<R>, k: nat, worker: string, now: int)
    requires QueueInv(s) && k < |s.queue|
    ensures QueueInv(Claimed(s, k, worker, now))
  {
    RemoveAtKeeps(s.heap, s.queue, k);
  }

  lemma RequeueKeepsInv<R>(s: QState<R>, id: string, delay: int, at: int, updated: int)
    requires QueueInv(s) && id in s.tasks
    ensures QueueInv(Requeued(s, id, delay, at, updated))
    ensures s.tasks[id] in Requeued(s, id, delay, at, updated).queue
  {
    var s' := Requeued(s, id, delay, at, updated);
    SortQueueSorts(s'.heap, s.queue + [s.tasks[id]]);
    SortKeepsEntries(s'.heap, s.queue + [s.tasks[id]]);
  }

  // ----- Runs of the queue -----

  datatype Op<R> =
    | Enqueue(r: R, rec: TaskRec, nano: int, created: int, updated: int)
    | Dequeue(worker: string, req: Requirements, scan: seq<int>, now: int)
    | Requeue(id: string, delay: int, at: int, updated: int)
    | MoveToDeadLetter(id: string, reason: string, updated: int)
    | WriteStatus(task: R, status: Status)

  /** Outside the queue a task's status is only ever set to something other than Pending. */
  predicate Allowed<R(==)>(s: QState<R>, op: Op<R>) {
    match op
    case Enqueue(r, rec, _, _, _) => r in s.heap ==> rec == s.heap[r]
    case Dequeue(_, _, scan, _) => |scan| == |s.queue|
    case Requeue(_, _, _, _) => true
    case MoveToDeadLetter(_, _, _) => true
    case WriteStatus(r, status) => r in s.heap && status != Pending
  }

  function Apply<R(==)>(s: QState<R>, op: Op<R>): QState<R>
    requires WellFormed(s) && Allowed(s, op)
  {
    match op
    case Enqueue(r, rec, nano, created, updated) => Enqueued(s, r, rec, nano, created, updated)
    case Dequeue(worker, req, scan, now) => Dequeued(s, worker, req, scan, now).0
    case Requeue(id, delay, at, updated) => if id in s.tasks then Requeued(s, id, delay, at, updated) else s
    case MoveToDeadLetter(id, reason, updated) => if id in s.tasks then DeadLettered(s, id, reason, updated) else s
    case WriteStatus(r, status) => StatusWritten(s, r, status)
  }

  lemma ApplyKeepsWellFormed<R>(s: QState<R>, op: Op<R>)
    requires WellFormed(s) && Allowed(s, op)
    ensures WellFormed(Apply(s, op))
  {
    if op.Dequeue? {
      var k := FirstClaimable(s, op.req, op.scan, 0);
      if k < |s.queue| {
        RemoveAtKnown(s.heap, s.queue, k);
      }
    }
  }

  lemma ApplyKeepsInv<R>(s: QState<R>, op: Op<R>)
    requires QueueInv(s) && Allowed(s, op)
    ensures QueueInv(Apply(s, op))
  {
    match op
    case Enqueue(r, rec, nano, created, updated) => EnqueueKeepsInv(s, r, rec, nano, created, updated);
    case Dequeue(worker, req, scan, now) =>
      var k := FirstClaimable(s, req, scan, 0);
      if k < |s.queue| {
        ClaimKeepsInv(s, k, worker, now);
      }
    case Requeue(id, delay, at, updated) =>
      if id in s.tasks {
        RequeueKeepsInv(s, id, delay, at, updated);
      }
    case MoveToDeadLetter(_, _, _) =>
    case WriteStatus(_, _) =>
  }

  ghost predicate StepAt<R>(trace: seq<QState<R>>, ops: seq<Op<R>>, i: nat)
    requires |trace| == |ops| + 1 && i < |ops|
  {
    WellFormed(trace[i]) && Allowed(trace[i], ops[i]) && trace[i + 1] == Apply(trace[i], ops[i])
  }

  /** `trace` is the sequence of states of a run of `ops` from `trace[0]`. */
  ghost predicate IsRun<R>(trace: seq<QState<R>>, ops: seq<Op<R>>) {
    && |trace| == |ops| + 1
    && forall i: nat :: i < |ops| ==> StepAt(trace, ops, i)
  }

  function NewQueue<R(==)>(): QState<R> {
    QState(map[], map[], [], 0)
  }

  /** In every reachable state, duplicates and stale entries included, the slice is sorted
      and holds every pending task of the map. */
  lemma {:induction false} EveryRunKeepsInv<R>(trace: seq<QState<R>>, ops: seq<Op<R>>, i: nat)
    requires IsRun(trace, ops) && trace[0] == NewQueue() && i < |trace|
    ensures QueueInv(trace[i])
  {
    if i > 0 {
      EveryRunKeepsInv(trace, ops, i - 1);
      assert StepAt(trace, ops, i - 1);
      ApplyKeepsInv(trace[i - 1], ops[i - 1]);
    }
  }

  // ----- What Dequeue returns -----

  /** The clock never runs backwards: `from`, the readings of the scan, `to`. */
  predicate ClockMoves(from: int, scan: seq<int>, to: int) {
    && (forall i :: 0 <= i < |scan| ==> from <= scan[i] <= to)
    && (forall i, j :: 0 <= i < j < |scan| ==> scan[i] <= scan[j])
    && from <= to
  }

  /** `Dequeue` in the fields of the records: nothing changes and no entry was pending, due when it
      was looked at and within both bounds; or the first such entry is taken. */
  lemma DequeueInFields<R>(s: QState<R>, worker: string, req: Requirements, scan: seq<int>, now: int) returns (k: nat)
    requires WellFormed(s) && |scan| == |s.queue|
    ensures k <= |s.queue|
    ensures forall i :: 0 <= i < k ==>
              var t := s.heap[s.queue[i]];
              || t.status != Pending || t.scheduledAt >= scan[i]
              || (req.cpuCores > 0 && t.requiredCpu > req.cpuCores)
              || (req.memoryMB > 0 && t.requiredMemory > req.memoryMB)
    ensures k == |s.queue| ==> Dequeued(s, worker, req, scan, now) == (s, None)
    ensures k < |s.queue| ==>
              var t := s.heap[s.queue[k]];
              && t.status == Pending && t.scheduledAt < scan[k]
              && (req.cpuCores <= 0 || t.requiredCpu <= req.cpuCores)
              && (req.memoryMB <= 0 || t.requiredMemory <= req.memoryMB)
              && Dequeued(s, worker, req, scan, now).1 == Some(s.queue[k])
              && Dequeued(s, worker, req, scan, now).0.queue == s.queue[..k] + s.queue[k + 1..]
  {
    k := FirstClaimable(s, req, scan, 0);
  }

  /** `Dequeue` returns nothing only when no task of the map was pending, due when the call began,
      and within both bounds of the requirements. */
  lemma NilMeansNothingClaimable<R>(s: QState<R>, worker: string, req: Requirements, from: int,
                                    scan: seq<int>, now: int)
    requires QueueInv(s) && |scan| == |s.queue| && ClockMoves(from, scan, now)
    requires Dequeued(s, worker, req, scan, now).1.None?
    ensures forall id :: id in s.tasks ==>
              var t := s.heap[s.tasks[id]];
              || t.status != Pending || t.scheduledAt >= from
              || (req.cpuCores > 0 && t.requiredCpu > req.cpuCores)
              || (req.memoryMB > 0 && t.requiredMemory > req.memoryMB)
  {
    var k := DequeueInFields(s, worker, req, scan, now);
    forall id | id in s.tasks
      ensures var t := s.heap[s.tasks[id]];
              || t.status != Pending || t.scheduledAt >= from
              || (req.cpuCores > 0 && t.requiredCpu > req.cpuCores)
              || (req.memoryMB > 0 && t.requiredMemory > req.memoryMB)
    {
      var r := s.tasks[id];
      if s.heap[r].status == Pending {
        assert r in s.queue;
        var j :| 0 <= j < |s.queue| && s.queue[j] == r;
        assert from <= scan[j];
      }
    }
  }

  /** Conversely, a queued task that is eligible when the call begins forbids nil. */
  lemma ClaimableMeansSome<R>(s: QState<R>, worker: string, req: Requirements, from: int,
                             scan: seq<int>, now: int, j: nat)
    requires WellFormed(s) && |scan| == |s.queue| && ClockMoves(from, scan, now) && j < |s.queue|
    requires var t := s.heap[s.queue[j]];
             && t.status == Pending && t.scheduledAt < from
             && (req.cpuCores <= 0 || t.requiredCpu <= req.cpuCores)
             && (req.memoryMB <= 0 || t.requiredMemory <= req.memoryMB)
    ensures Dequeued(s, worker, req, scan, now).1.Some?
  {
    var k := DequeueInFields(s, worker, req, scan, now);
    assert from <= scan[j];
  }

  /** The claim: a task that was pending, due by the end of the call and within both bounds; no
      entry eligible at the start precedes it; exactly one entry leaves the slice; the map, the
      counter and every other task stay as they were. */
  lemma ClaimIsLeastEligible<R>(s: QState<R>, worker: string, req: Requirements, from: int, scan: seq<int>, now: int)
    requires QueueInv(s) && |scan| == |s.queue| && ClockMoves(from, scan, now)
    requires Dequeued(s, worker, req, scan, now).1.Some?
    ensures var (s', got) := Dequeued(s, worker, req, scan, now); var r := got.value;
            && r in s.heap
            && s.heap[r].status == Pending && s.heap[r].scheduledAt < now
            && (req.cpuCores <= 0 || s.heap[r].requiredCpu <= req.cpuCores)
            && (req.memoryMB <= 0 || s.heap[r].requiredMemory <= req.memoryMB)
            && (forall x ::
                  && x in s.queue && s.heap[x].status == Pending && s.heap[x].scheduledAt < from
                  && (req.cpuCores <= 0 || s.heap[x].requiredCpu <= req.cpuCores)
                  && (req.memoryMB <= 0 || s.heap[x].requiredMemory <= req.memoryMB)
                  ==> || s.heap[r].priority.weight < s.heap[x].priority.weight
                      || (s.heap[r].priority.weight == s.heap[x].priority.weight
                          && s.heap[r].createdAt <= s.heap[x].createdAt))
            && multiset(s'.queue) == multiset(s.queue) - multiset{r} && r in s.queue
            && s'.tasks == s.tasks && s'.idCounter == s.idCounter && s'.heap.Keys == s.heap.Keys
            && (forall x :: x in s.heap && x != r ==> s'.heap[x] == s.heap[x])
            && s'.heap[r] == s.heap[r].(status := Running, workerId := Some(worker), startedAt := Some(now),
                                        lastHeartbeat := Some(now), updatedAt := now)
  {
    var k := DequeueInFields(s, worker, req, scan, now);
    var r := s.queue[k];
    assert scan[k] <= now;
    RemoveAtKeeps(s.heap, s.queue, k);
    forall x | x in s.queue && s.heap[x].status == Pending && s.heap[x].scheduledAt < from
        && (req.cpuCores <= 0 || s.heap[x].requiredCpu <= req.cpuCores)
        && (req.memoryMB <= 0 || s.heap[x].requiredMemory <= req.memoryMB)
      ensures !ShouldSwap(s.heap[r], s.heap[x])
    {
      var j :| 0 <= j < |s.queue| && s.queue[j] == x;
      assert from <= scan[j];
      assert k <= j;
    }
  }

  // ----- The other operations in the fields of the records -----

  /** An enqueued task is pending under its own or a generated identifier, with the creation time
      of the call; nothing else about any task changes, and one entry joins the slice. */
  lemma EnqueueInFields<R>(s: QState<R>, r: R, rec: TaskRec, nano: int, created: int, updated: int)
    requires WellFormed(s)
    ensures var s' := Enqueued(s, r, rec, nano, created, updated);
            var counter := (s.idCounter + 1) % 18_446_744_073_709_551_616;
            var id := if rec.id == "" then TaskIds.GeneratedId(nano, counter) else rec.id;
            && s'.heap == s.heap[r := rec.(id := id, status := Pending, createdAt := created, updatedAt := updated)]
            && s'.tasks == s.tasks[id := r] && s'.idCounter == (if rec.id == "" then counter else s.idCounter)
            && multiset(s'.queue) == multiset(s.queue) + multiset{r}
  {
    var s' := Appended(s, r, rec, nano, created, updated);
    SortQueueSorts(s'.heap, s'.queue);
  }

  /** A requeued task is pending and unowned, with one more retry, due after the delay; its heartbeat
      and everything about the other tasks stay, and one entry joins the slice. */
  lemma RequeueInFields<R>(s: QState<R>, id: string, delay: int, at: int, updated: int)
    requires WellFormed(s) && id in s.tasks
    ensures var s' := Requeued(s, id, delay, at, updated); var r := s.tasks[id]; var t := s.heap[r];
            && s'.heap == s.heap[r := t.(status := Pending, workerId := None, startedAt := None,
                                         retryCount := t.retryCount + 1, scheduledAt := at + delay,
                                         updatedAt := updated)]
            && s'.tasks == s.tasks && s'.idCounter == s.idCounter
            && multiset(s'.queue) == multiset(s.queue) + multiset{r}
  {
    var s' := Reappended(s, id, delay, at, updated);
    SortQueueSorts(s'.heap, s'.queue);
  }

  /** Dead-lettering writes the status and the reason of one task, and leaves the slice alone. */
  lemma DeadLetterInFields<R>(s: QState<R>, id: string, reason: string, updated: int)
    requires WellFormed(s) && id in s.tasks
    ensures var r := s.tasks[id];
            DeadLettered(s, id, reason, updated) ==
            s.(heap := s.heap[r := s.heap[r].(status := DeadLetter, lastError := Some(reason), updatedAt := updated)])
  {
  }

  lemma PendingOfOneMore<R>(heap: map<R, TaskRec>, q: seq<R>, i: nat)
    requires Known(heap, q) && i < |q|
    ensures Known(heap, q[..i]) && Known(heap, q[..i + 1])
    ensures PendingEntries(heap, q[..i + 1]) ==
            PendingEntries(heap, q[..i]) + (if heap[q[i]].status == Pending then [q[i]] else [])
  {
    assert q[..i + 1] == q[..i] + [q[i]] && [q[i]][1..] == [];
    PendingOfConcat(heap, q[..i], [q[i]]);
  }

  /** `idx` gives the positions of `p` among the first `n` entries: in order, pending, and all that
      are. */
  ghost predicate ArePositions<R>(heap: map<R, TaskRec>, q: seq<R>, n: nat, p: seq<R>, idx: seq<nat>)
    requires Known(heap, q) && n <= |q|
  {
    && |idx| == |p|
    && (forall i, j :: 0 <= i < j < |idx| ==> idx[i] < idx[j])
    && (forall i :: 0 <= i < |idx| ==> idx[i] < n && p[i] == q[idx[i]] && heap[q[idx[i]]].status == Pending)
    && (forall i :: 0 <= i < n && heap[q[i]].status == Pending ==> i in idx)
  }

  lemma OneMorePosition<R>(heap: map<R, TaskRec>, q: seq<R>, n: nat, p: seq<R>, idx: seq<nat>)
    requires Known(heap, q) && n < |q| && ArePositions(heap, q, n, p, idx)
    ensures heap[q[n]].status == Pending ==> ArePositions(heap, q, n + 1, p + [q[n]], idx + [n])
    ensures heap[q[n]].status != Pending ==> ArePositions(heap, q, n + 1, p, idx)
  {
    forall i | 0 <= i < n + 1 && heap[q[i]].status == Pending ensures i in idx + [n] {
      assert i < n ==> i in idx;
    }
  }

  lemma {:induction false} PendingPositions<R>(heap: map<R, TaskRec>, q: seq<R>, n: nat) returns (idx: seq<nat>)
    requires Known(heap, q) && n <= |q|
    ensures Known(heap, q[..n]) && ArePositions(heap, q, n, PendingEntries(heap, q[..n]), idx)
  {
    idx := [];
    if n > 0 {
      idx := PendingPositions(heap, q, n - 1);
      OneMorePosition(heap, q, n - 1, PendingEntries(heap, q[..n - 1]), idx);
      PendingOfOneMore(heap, q, n - 1);
      if heap[q[n - 1]].status == Pending {
        idx := idx + [n - 1];
      } else {
        assert PendingEntries(heap, q[..n - 1]) + [] == PendingEntries(heap, q[..n - 1]);
      }
    }
  }

  /** `Peek` returns, in order, the pending entries whose position is below the bound. */
  lemma PeekInFields<R>(s: QState<R>, count: nat) returns (idx: seq<nat>)
    requires WellFormed(s)
    ensures |idx| == |Peeked(s, count)| && forall i, j :: 0 <= i < j < |idx| ==> idx[i] < idx[j]
    ensures forall i :: 0 <= i < |idx| ==>
              && idx[i] < count && idx[i] < |s.queue| && Peeked(s, count)[i] == s.queue[idx[i]]
              && s.heap[s.queue[idx[i]]].status == Pending
    ensures forall i :: 0 <= i < |s.queue| && i < count && s.heap[s.queue[i]].status == Pending ==> i in idx
  {
    idx := PendingPositions(s.heap, s.queue, if count < |s.queue| then count else |s.queue|);
    assert s.queue[..|s.queue|] == s.queue;
  }

  // ----- First in, first out within a priority -----

  ghost predicate CreatedBefore<R>(s: QState<R>, time: int)
    requires WellFormed(s)
  {
    forall x :: x in s.queue ==> s.heap[x].createdAt < time
  }

  ghost predicate QueueKeysIdentify<R>(s: QState<R>)
    requires WellFormed(s)
  {
    forall a, b :: a in s.queue && b in s.queue && SameKey(s.heap[a], s.heap[b]) ==> a == b
  }

  lemma FreshTaskIsInserted<R>(s: QState<R>, heap: map<R, TaskRec>, r: R)
    requires QueueInv(s) && QueueKeysIdentify(s) && r !in s.heap
    requires r in heap && CreatedBefore(s, heap[r].createdAt)
    requires heap == s.heap[r := heap[r]]
    ensures var p := Position(heap, s.queue, r);
            ExchangeSort(heap, s.queue + [r], 0) == s.queue[..p] + [r] + s.queue[p..]
  {
    forall a | a in multiset(s.queue + [r]) ensures a in heap && (a == r || a in s.queue) {
    }
    assert KeyIdentifies(heap, multiset(s.queue + [r])) by {
      forall a, b | a in multiset(s.queue + [r]) && b in multiset(s.queue + [r]) && SameKey(heap[a], heap[b])
        ensures a == b
      {
        assert a == r || a in s.queue;
        assert b == r || b in s.queue;
      }
    }
    AppendAndSortInserts(heap, s.queue, r);
  }

  lemma WeightsAroundPosition<R>(heap: map<R, TaskRec>, q: seq<R>, r: R)
    requires Known(heap, q) && Sorted(heap, q) && r in heap
    requires forall x :: x in q ==> heap[x].createdAt < heap[r].createdAt
    ensures var p := Position(heap, q, r);
            && (forall k :: 0 <= k < p ==> heap[q[k]].priority.weight <= heap[r].priority.weight)
            && (forall k :: p <= k < |q| ==> heap[q[k]].priority.weight > heap[r].priority.weight)
  {
    var p := Position(heap, q, r);
    forall k | p <= k < |q| ensures heap[q[k]].priority.weight > heap[r].priority.weight {
      assert ShouldSwap(heap[q[p]], heap[r]);
      assert k > p ==> !ShouldSwap(heap[q[p]], heap[q[k]]);
    }
  }

  /** With a strictly increasing clock a new task goes behind every queued task of the same
      or a lower weight and in front of every task of a higher one, and nothing else moves. */
  lemma EnqueueGoesBehindItsPriority<R>(s: QState<R>, r: R, rec: TaskRec, nano: int, created: int, updated: int)
    returns (p: nat)
    requires QueueInv(s) && QueueKeysIdentify(s) && CreatedBefore(s, created)
    requires r !in s.heap
    ensures p <= |s.queue|
    ensures Enqueued(s, r, rec, nano, created, updated).queue == s.queue[..p] + [r] + s.queue[p..]
    ensures forall k :: 0 <= k < p ==> s.heap[s.queue[k]].priority.weight <= rec.priority.weight
    ensures forall k :: p <= k < |s.queue| ==> s.heap[s.queue[k]].priority.weight > rec.priority.weight
  {
    var h := Enqueued(s, r, rec, nano, created, updated).heap;
    FreshTaskIsInserted(s, h, r);
    WeightsAroundPosition(h, s.queue, r);
    p := Position(h, s.queue, r);
    forall k | 0 <= k < |s.queue| ensures h[s.queue[k]] == s.heap[s.queue[k]] {
    }
  }

  /** The hypothesis of the previous lemma survives the enqueue. */
  lemma EnqueueKeepsKeysIdentify<R>(s: QState<R>, r: R, rec: TaskRec, nano: int, created: int, updated: int)
    requires QueueInv(s) && QueueKeysIdentify(s) && CreatedBefore(s, created) && r !in s.heap
    ensures QueueInv(Enqueued(s, r, rec, nano, created, updated))
    ensures QueueKeysIdentify(Enqueued(s, r, rec, nano, created, updated))
    ensures forall later :: later > created ==> CreatedBefore(Enqueued(s, r, rec, nano, created, updated), later)
  {
    var s' := Enqueued(s, r, rec, nano, created, updated);
    EnqueueKeepsInv(s, r, rec, nano, created, updated);
    SortKeepsEntries(s'.heap, s.queue + [r]);
    forall a | a in s'.queue ensures a == r || (a in s.queue && s'.heap[a] == s.heap[a]) {
      assert a in s.queue + [r];
    }
  }
}
