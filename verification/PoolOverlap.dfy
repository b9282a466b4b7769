/** When a submission leads to two workers executing one task: exactly when some worker may
    still execute or requeue the submitted task, or another task that may still be requeued
    goes by its identifier. */
module PoolOverlap {
  import opened Tasks
  import opened QueueModel
  import opened PoolMachine
  import opened PoolOwnership
  import opened PoolReach

  // ----- Steps of one worker -----

  /** The worker is about to take its next loop body. */
  predicate IsFree(s: Pool, w: Wid) {
    w < |s.procs| && s.procs[w].pc == AtSelect && !StopVisible(s, w)
  }

  lemma ReachesKeepsBase(s: Pool, ok: Action -> bool, t: Pool)
    requires BaseInv(s) && Reaches(s, ok, t)
    ensures BaseInv(t)
  {
    var acts :| IsRunTo(s, acts, ok, t);
    RunKeepsBase(s, acts);
  }

  /** A time by which everything in the queue is due. */
  function DueTime(q: QState<Ref>, clock: int, k: nat): (time: int)
    requires WellFormed(q) && k <= |q.queue|
    ensures time >= clock && forall i :: 0 <= i < k ==> q.heap[q.queue[i]].scheduledAt < time
  {
    if k == 0 then clock
    else
      var before, due := DueTime(q, clock, k - 1), q.heap[q.queue[k - 1]].scheduledAt + 1;
      if before < due then due else before
  }

  /** What the tasks keep: their objects, identifiers and retries. */
  ghost predicate SameTasks(q: QState<Ref>, q': QState<Ref>) {
    && q'.tasks == q.tasks && q'.heap.Keys == q.heap.Keys
    && forall x :: x in q.heap ==>
         && q'.heap[x].id == q.heap[x].id && q'.heap[x].retryCount == q.heap[x].retryCount
         && q'.heap[x].maxRetries == q.heap[x].maxRetries
  }

  /** Task `x` is as it was, and still queued if it was queued. */
  ghost predicate Untaken(q: QState<Ref>, q': QState<Ref>, x: Ref) {
    && (x in q.heap && x in q'.heap ==> q'.heap[x].status == q.heap[x].status)
    && (x in q.queue ==> x in q'.queue)
  }

  ghost predicate IsWaiting(q: QState<Ref>, r: Ref) {
    r in q.heap && r in q.queue && q.heap[r].status == Pending
  }

  lemma ClaimedFirst(q: QState<Ref>, r: Ref, clock: int) returns (k: nat, time: int)
    requires WellFormed(q) && IsWaiting(q, r)
    ensures k < |q.queue| && q.heap[q.queue[k]].status == Pending && time >= clock
    ensures FirstClaimable(q, Requirements(0, 0), seq(|q.queue|, _ => time), 0) == k
  {
    time := DueTime(q, clock, |q.queue|);
    var scan := seq(|q.queue|, _ => time);
    k := FirstClaimable(q, Requirements(0, 0), scan, 0);
    var i :| 0 <= i < |q.queue| && q.queue[i] == r;
    assert Claimable(q.heap[q.queue[i]], Requirements(0, 0), scan[i]);
  }

  lemma ClaimTakes(q: QState<Ref>, k: nat, worker: string, now: int)
    requires WellFormed(q) && k < |q.queue|
    ensures var q' := QueueModel.Claimed(q, k, worker, now); var y := q.queue[k];
            && SameTasks(q, q') && q'.heap[y].status == Running
            && (forall x :: x != y ==> Untaken(q, q', x)) && |q'.queue| < |q.queue|
  {
    var q', y := QueueModel.Claimed(q, k, worker, now), q.queue[k];
    forall x | x in q.queue && x != y ensures x in q'.queue {
      var i :| 0 <= i < |q.queue| && q.queue[i] == x;
      assert q'.queue[if i < k then i else i - 1] == x;
    }
  }

  lemma EntersBody(s: Pool, v: Wid) returns (t: Pool)
    requires BaseInv(s) && IsFree(s, v)
    ensures Reaches(s, Quiet, t) && BaseInv(t) && OnlyMoved(s, t, v) && t.q == s.q && t.clock == s.clock
    ensures t.procs[v].pc == Body && t.procs[v].name == s.procs[v].name
  {
    ReachesNext(s, Quiet, Worker(v, TakeDefault));
    t := Step(s, Worker(v, TakeDefault));
    ReachesKeepsBase(s, Quiet, t);
  }

  /** A worker in the loop body claims the first pending entry, when everything is due. */
  lemma ClaimsInBody(s: Pool, v: Wid, r: Ref) returns (t: Pool, y: Ref)
    requires BaseInv(s) && v < |s.procs| && s.procs[v].pc == Body && IsWaiting(s.q, r)
    ensures Reaches(s, Quiet, t) && OnlyMoved(s, t, v) && t.procs[v].pc == PoolMachine.Claimed(y)
    ensures IsWaiting(s.q, y)
    ensures SameTasks(s.q, t.q) && (forall x :: x != y ==> Untaken(s.q, t.q, x)) && |t.q.queue| < |s.q.queue|
  {
    var k, time := ClaimedFirst(s.q, r, s.clock);
    y := s.q.queue[k];
    t := ClaimsEntry(s, v, k, time);
    ClaimTakes(s.q, k, s.procs[v].name, time);
  }

  lemma ClaimsEntry(s: Pool, v: Wid, k: nat, time: int) returns (t: Pool)
    requires BaseInv(s) && v < |s.procs| && s.procs[v].pc == Body && k < |s.q.queue| && time >= s.clock
    requires FirstClaimable(s.q, Requirements(0, 0), seq(|s.q.queue|, _ => time), 0) == k
    ensures Reaches(s, Quiet, t) && OnlyMoved(s, t, v) && t.procs[v].pc == PoolMachine.Claimed(s.q.queue[k])
    ensures t.q == QueueModel.Claimed(s.q, k, s.procs[v].name, time)
  {
    var step := CallDequeue(Requirements(0, 0), seq(|s.q.queue|, _ => time), time);
    ReachesNext(s, Quiet, Worker(v, step));
    t := Step(s, Worker(v, step));
  }

  lemma ClaimsFirst(s: Pool, v: Wid, r: Ref) returns (t: Pool, y: Ref)
    requires BaseInv(s) && IsFree(s, v) && IsWaiting(s.q, r)
    ensures Reaches(s, Quiet, t) && BaseInv(t) && OnlyMoved(s, t, v) && t.procs[v].pc == PoolMachine.Claimed(y)
    ensures IsWaiting(s.q, y) && SameTasks(s.q, t.q) && (forall x :: x != y ==> Untaken(s.q, t.q, x))
    ensures |t.q.queue| < |s.q.queue|
  {
    var s1 := EntersBody(s, v);
    t, y := ClaimsInBody(s1, v, r);
    ReachesTransitive(s, Quiet, s1, t);
    ReachesKeepsBase(s, Quiet, t);
  }

  /** The worker brings the task that it has claimed into `Execute`. */
  lemma Executes(s: Pool, w: Wid, r: Ref) returns (t: Pool)
    requires BaseInv(s) && w < |s.procs|
    requires s.procs[w].pc == PoolMachine.Claimed(r) || s.procs[w].pc == Marked(r) || s.procs[w].pc == Executing(r)
    ensures Reaches(s, Quiet, t) && OnlyMoved(s, t, w) && t.q == s.q && t.procs[w].pc == Executing(r)
    ensures s.procs[w].pc.Claimed? ==> t.procs[w].currentTask == Some(r)
  {
    t := s;
    Stay(s, Quiet);
    if t.procs[w].pc.Claimed? {
      ReachesThen(s, Quiet, t, Worker(w, MarkBusy));
      t := Step(t, Worker(w, MarkBusy));
    }
    if t.procs[w].pc.Marked? {
      ReachesThen(s, Quiet, t, Worker(w, Execute(true)));
      t := Step(t, Worker(w, Execute(true)));
    }
  }

  lemma ExecutesFirst(s: Pool, v: Wid, r: Ref) returns (t: Pool, y: Ref)
    requires BaseInv(s) && IsFree(s, v) && IsWaiting(s.q, r)
    ensures Reaches(s, Quiet, t) && BaseInv(t) && OnlyMoved(s, t, v)
    ensures t.procs[v].pc == Executing(y) && t.procs[v].currentTask == Some(y)
    ensures IsWaiting(s.q, y) && SameTasks(s.q, t.q) && (forall x :: x != y ==> Untaken(s.q, t.q, x))
    ensures |t.q.queue| < |s.q.queue|
  {
    var s1;
    s1, y := ClaimsFirst(s, v, r);
    t := Executes(s1, v, y);
    ReachesTransitive(s, Quiet, s1, t);
    ReachesKeepsBase(s, Quiet, t);
  }

  lemma ClearsItsTask(s: Pool, w: Wid, r: Ref) returns (t: Pool)
    requires BaseInv(s) && w < |s.procs| && s.procs[w].pc == Settled(r)
    ensures Reaches(s, Quiet, t) && OnlyMoved(s, t, w) && t.q == s.q && t.procs[w].pc == AtSelect
  {
    ReachesNext(s, Quiet, Worker(w, Clear));
    t := Step(s, Worker(w, Clear));
  }

  lemma Succeeds(s: Pool, v: Wid, y: Ref) returns (t: Pool)
    requires BaseInv(s) && v < |s.procs| && s.procs[v].pc == Executing(y)
    ensures Reaches(s, Quiet, t) && BaseInv(t) && OnlyMoved(s, t, v) && t.q == s.q && t.procs[v].pc == Succeeded(y)
  {
    ReachesNext(s, Quiet, Worker(v, Return(true)));
    t := Step(s, Worker(v, Return(true)));
    ReachesKeepsBase(s, Quiet, t);
  }

  lemma StatusTakes(q: QState<Ref>, y: Ref, status: Status)
    requires y in q.heap
    ensures var q' := StatusWritten(q, y, status);
            SameTasks(q, q') && q'.queue == q.queue && (forall x :: x != y ==> Untaken(q, q', x))
  {
  }

  lemma WritesCompleted(s: Pool, v: Wid, y: Ref) returns (t: Pool)
    requires BaseInv(s) && v < |s.procs| && s.procs[v].pc == Succeeded(y) && y in s.q.heap
    ensures Reaches(s, Quiet, t) && OnlyMoved(s, t, v) && t.procs[v].pc == Settled(y)
    ensures t.q == StatusWritten(s.q, y, Completed)
  {
    ReachesNext(s, Quiet, Worker(v, Complete));
    t := Step(s, Worker(v, Complete));
  }

  /** The worker completes the task that it executes and is free again. */
  lemma Completes(s: Pool, v: Wid, y: Ref) returns (t: Pool)
    requires BaseInv(s) && v < |s.procs| && s.procs[v].pc == Executing(y) && !StopVisible(s, v)
    ensures Reaches(s, Quiet, t) && BaseInv(t) && OnlyMoved(s, t, v) && IsFree(t, v)
    ensures SameTasks(s.q, t.q) && t.q.queue == s.q.queue && (forall x :: x != y ==> Untaken(s.q, t.q, x))
  {
    assert Owned(s.procs[v]) == Some(y);
    var s1 := Succeeds(s, v, y);
    var s2 := WritesCompleted(s1, v, y);
    StatusTakes(s.q, y, Completed);
    ReachesTransitive(s, Quiet, s1, s2);
    ReachesKeepsBase(s, Quiet, s2);
    t := ClearsItsTask(s2, v, y);
    ReachesTransitive(s, Quiet, s2, t);
    ReachesKeepsBase(s, Quiet, t);
  }

  /** The worker claims, executes and completes one task that is not wanted. */
  lemma DrainsOne(s: Pool, v: Wid, s1: Pool, y: Ref, wanted: set<Ref>) returns (t: Pool)
    requires BaseInv(s1) && Reaches(s, Quiet, s1) && OnlyMoved(s, s1, v) && s1.procs[v].pc == Executing(y)
             && IsFree(s, v)
    requires SameTasks(s.q, s1.q) && (forall x :: x != y ==> Untaken(s.q, s1.q, x)) && y !in wanted
    ensures Reaches(s, Quiet, t) && BaseInv(t) && OnlyMoved(s, t, v) && IsFree(t, v)
    ensures SameTasks(s.q, t.q) && (forall x :: x in wanted ==> Untaken(s.q, t.q, x)) && |t.q.queue| == |s1.q.queue|
  {
    t := Completes(s1, v, y);
    ReachesTransitive(s, Quiet, s1, t);
    forall x | x in wanted ensures Untaken(s.q, t.q, x) {
      assert Untaken(s.q, s1.q, x) && Untaken(s1.q, t.q, x);
    }
  }

  /** A free worker works off the queue until it executes a wanted task. */
  lemma {:induction false} DrainsTo(s: Pool, v: Wid, wanted: set<Ref>, r: Ref) returns (t: Pool, y: Ref)
    requires BaseInv(s) && IsFree(s, v) && r in wanted && IsWaiting(s.q, r)
    ensures Reaches(s, Quiet, t) && BaseInv(t) && OnlyMoved(s, t, v)
    ensures y in wanted && t.procs[v].pc == Executing(y) && t.procs[v].currentTask == Some(y)
    ensures SameTasks(s.q, t.q) && (forall x :: x in wanted && x != y ==> Untaken(s.q, t.q, x))
    decreases |s.q.queue|
  {
    t, y := ExecutesFirst(s, v, r);
    if y !in wanted {
      var s2 := DrainsOne(s, v, t, y, wanted);
      assert Untaken(s.q, s2.q, r);
      t, y := DrainsTo(s2, v, wanted, r);
      DrainsOn(s, v, s2, t, wanted, y);
    }
  }

  lemma DrainsOn(s: Pool, v: Wid, s2: Pool, t: Pool, wanted: set<Ref>, y: Ref)
    requires Reaches(s, Quiet, s2) && Reaches(s2, Quiet, t) && OnlyMoved(s, s2, v) && OnlyMoved(s2, t, v)
    requires SameTasks(s.q, s2.q) && SameTasks(s2.q, t.q)
    requires forall x :: x in wanted ==> Untaken(s.q, s2.q, x)
    requires forall x :: x in wanted && x != y ==> Untaken(s2.q, t.q, x)
    ensures Reaches(s, Quiet, t) && OnlyMoved(s, t, v)
    ensures SameTasks(s.q, t.q) && forall x :: x in wanted && x != y ==> Untaken(s.q, t.q, x)
  {
    ReachesTransitive(s, Quiet, s2, t);
    forall x | x in wanted && x != y ensures Untaken(s.q, t.q, x) {
      assert Untaken(s.q, s2.q, x) && Untaken(s2.q, t.q, x);
    }
  }

  /** A free worker works off the queue until it executes `r`. */
  lemma GetsToExecute(s: Pool, v: Wid, r: Ref) returns (t: Pool)
    requires BaseInv(s) && IsFree(s, v) && IsWaiting(s.q, r)
    ensures Reaches(s, Quiet, t) && BaseInv(t) && OnlyMoved(s, t, v)
    ensures t.procs[v].pc == Executing(r) && t.procs[v].currentTask == Some(r) && SameTasks(s.q, t.q)
  {
    var y;
    t, y := DrainsTo(s, v, {r}, r);
  }

  /** The error handler finds a retry left and gets to its call of `Requeue`. */
  lemma AsksForRetry(s: Pool, w: Wid, r: Ref) returns (t: Pool)
    requires BaseInv(s) && w < |s.procs| && s.procs[w].pc == Failing(r) && r in s.q.heap && s.q.heap[r].CanRetry()
    ensures Reaches(s, Quiet, t) && OnlyMoved(s, t, w) && t.q == s.q && t.procs[w].pc == Retrying(r)
    ensures t.procs[w].currentTask == s.procs[w].currentTask
  {
    ReachesNext(s, Quiet, Worker(w, AskRetry));
    t := Step(s, Worker(w, AskRetry));
  }

  /** The executor fails. */
  lemma Fails(s: Pool, w: Wid, r: Ref) returns (t: Pool)
    requires BaseInv(s) && w < |s.procs| && s.procs[w].pc == Executing(r) && r in s.q.heap && s.q.heap[r].CanRetry()
    ensures Reaches(s, Quiet, t) && OnlyMoved(s, t, w) && t.q == s.q && t.procs[w].pc == Retrying(r)
    ensures t.procs[w].currentTask == s.procs[w].currentTask
  {
    ReachesNext(s, Quiet, Worker(w, Return(false)));
    var s1 := Step(s, Worker(w, Return(false)));
    ReachesKeepsBase(s, Quiet, s1);
    t := AsksForRetry(s1, w, r);
    ReachesTransitive(s, Quiet, s1, t);
  }

  lemma GetsToRequeue(s: Pool, w: Wid, r: Ref) returns (t: Pool)
    requires BaseInv(s) && w < |s.procs| && HeldBy(s.q, s.procs[w]) == Some(r) && r in s.q.heap
             && s.q.heap[r].CanRetry()
    ensures Reaches(s, Quiet, t) && OnlyMoved(s, t, w) && t.q == s.q && t.procs[w].pc == Retrying(r)
  {
    if s.procs[w].pc.Retrying? {
      t := s;
      Stay(s, Quiet);
    } else if s.procs[w].pc.Failing? {
      t := AsksForRetry(s, w, r);
    } else {
      var s1 := Executes(s, w, r);
      ReachesKeepsBase(s, Quiet, s1);
      t := Fails(s1, w, r);
      ReachesTransitive(s, Quiet, s1, t);
    }
  }

  /** The requeue makes whichever task is registered under the identifier pending. */
  lemma Requeues(s: Pool, w: Wid, r: Ref, y: Ref) returns (t: Pool)
    requires BaseInv(s) && w < |s.procs| && s.procs[w].pc == Retrying(r) && r in s.q.heap
    requires s.q.heap[r].id in s.q.tasks && s.q.tasks[s.q.heap[r].id] == y
    ensures Reaches(s, Quiet, t) && OnlyMoved(s, t, w) && t.procs[w].pc == Settled(r)
    ensures t.procs[w].currentTask == s.procs[w].currentTask
    ensures BaseInv(t) && IsWaiting(t.q, y)
  {
    var step := Worker(w, CallRequeue(0, s.clock, s.clock));
    ReachesNext(s, Quiet, step);
    t := Step(s, step);
    ReachesKeepsBase(s, Quiet, t);
    RequeueKeepsInv(s.q, s.q.heap[r].id, 0, s.clock, s.clock);
  }

  /** While one worker executes `r`, which is pending again, a free one gets to execute it. */
  lemma SecondExecution(s: Pool, u: Wid, v: Wid, r: Ref) returns (t: Pool)
    requires BaseInv(s) && u < |s.procs| && s.procs[u].pc == Executing(r) && u != v && IsFree(s, v) && IsWaiting(s.q, r)
    ensures Reaches(s, Quiet, t) && TwoInside(t)
  {
    t := GetsToExecute(s, v, r);
    assert t.procs[u].pc == t.procs[v].pc;
  }

  // ----- Unsafe submissions overlap -----

  /** What a submission leaves: `r` pending, queued and registered. */
  ghost predicate Submitted(s: Pool, r: Ref) {
    BaseInv(s) && IsWaiting(s.q, r) && s.q.tasks[s.q.heap[r].id] == r
  }

  /** Worker `w`, which holds `x`, requeues `r` while `u` executes it, and `v` gets to as well. */
  lemma RequeueOverlaps(s: Pool, u: Wid, v: Wid, w: Wid, x: Ref, r: Ref) returns (t: Pool)
    requires BaseInv(s) && u < |s.procs| && s.procs[u].pc == Executing(r) && IsFree(s, v)
    requires w < |s.procs| && u != v && u != w && v != w
    requires HeldBy(s.q, s.procs[w]) == Some(x) && x in s.q.heap && s.q.heap[x].CanRetry()
    requires s.q.heap[x].id in s.q.tasks && s.q.tasks[s.q.heap[x].id] == r
    ensures Reaches(s, Quiet, t) && TwoInside(t)
  {
    var s1 := GetsToRequeue(s, w, x);
    ReachesKeepsBase(s, Quiet, s1);
    var s2 := Requeues(s1, w, x, r);
    ReachesTransitive(s, Quiet, s1, s2);
    t := SecondExecution(s2, u, v, r);
    ReachesTransitive(s, Quiet, s2, t);
  }

  /** The submitted task was held by `w`. */
  lemma HeldTaskOverlaps(s: Pool, u: Wid, v: Wid, w: Wid, r: Ref) returns (t: Pool)
    requires Submitted(s, r) && IsFree(s, u) && IsFree(s, v) && u != v
    requires Holds(s.q, s.procs, w, r) && (s.procs[w].pc.Retrying? ==> s.q.heap[r].CanRetry())
    ensures Reaches(s, Quiet, t) && TwoInside(t)
  {
    var s1 := GetsToExecute(s, u, r);
    if s.procs[w].pc.Failing? || s.procs[w].pc.Retrying? {
      t := RequeueOverlaps(s1, u, v, w, r, r);
    } else {
      t := Executes(s1, w, r);
      assert t.procs[u].pc == t.procs[w].pc;
    }
    ReachesTransitive(s, Quiet, s1, t);
  }

  /** Worker `w` executes `x`, fails and requeues, which makes `r` pending; `w` is free again. */
  lemma FailsAndRequeues(s: Pool, w: Wid, x: Ref, r: Ref) returns (t: Pool)
    requires BaseInv(s) && w < |s.procs| && s.procs[w].pc == Executing(x) && !StopVisible(s, w)
    requires x in s.q.heap && s.q.heap[x].CanRetry() && s.q.heap[x].id in s.q.tasks && s.q.tasks[s.q.heap[x].id] == r
    ensures Reaches(s, Quiet, t) && OnlyMoved(s, t, w) && BaseInv(t) && IsFree(t, w) && IsWaiting(t.q, r)
  {
    var s2 := Fails(s, w, x);
    ReachesKeepsBase(s, Quiet, s2);
    var s3 := Requeues(s2, w, x, r);
    ReachesTransitive(s, Quiet, s2, s3);
    t := ClearsItsTask(s3, w, x);
    ReachesTransitive(s, Quiet, s3, t);
    ReachesKeepsBase(s, Quiet, t);
  }

  /** Of a task and its pending twin under the same identifier, `u` executes `r` first. */
  lemma TwinClaimedSecond(s: Pool, u: Wid, v: Wid, x: Ref, r: Ref) returns (t: Pool)
    requires BaseInv(s) && u < |s.procs| && s.procs[u].pc == Executing(r) && IsFree(s, v) && u != v
    requires IsWaiting(s.q, x) && s.q.heap[x].CanRetry() && s.q.heap[x].id in s.q.tasks
             && s.q.tasks[s.q.heap[x].id] == r
    ensures Reaches(s, Quiet, t) && TwoInside(t)
  {
    var s2 := GetsToExecute(s, v, x);
    var s3 := FailsAndRequeues(s2, v, x, r);
    ReachesTransitive(s, Quiet, s2, s3);
    t := SecondExecution(s3, u, v, r);
    ReachesTransitive(s, Quiet, s3, t);
  }

  /** Worker `u` executes the twin first. */
  lemma TwinClaimedFirst(s: Pool, u: Wid, v: Wid, x: Ref, r: Ref) returns (t: Pool)
    requires BaseInv(s) && u < |s.procs| && s.procs[u].pc == Executing(x) && !StopVisible(s, u) && IsFree(s, v)
             && u != v
    requires IsWaiting(s.q, r)
    requires x in s.q.heap && s.q.heap[x].CanRetry() && s.q.heap[x].id in s.q.tasks && s.q.tasks[s.q.heap[x].id] == r
    ensures Reaches(s, Quiet, t) && TwoInside(t)
  {
    var s2 := GetsToExecute(s, v, r);
    var s3 := FailsAndRequeues(s2, u, x, r);
    ReachesTransitive(s, Quiet, s2, s3);
    t := SecondExecution(s3, v, u, r);
    ReachesTransitive(s, Quiet, s3, t);
  }

  /** Another task under the same identifier was pending. */
  lemma PendingTwinOverlaps(s: Pool, u: Wid, v: Wid, x: Ref, r: Ref) returns (t: Pool)
    requires Submitted(s, r) && IsFree(s, u) && IsFree(s, v) && u != v && x != r
    requires IsWaiting(s.q, x) && s.q.heap[x].CanRetry() && s.q.heap[x].id == s.q.heap[r].id
    ensures Reaches(s, Quiet, t) && TwoInside(t)
  {
    var s1, y := DrainsTo(s, u, {r, x}, r);
    if y == r {
      assert Untaken(s.q, s1.q, x);
      t := TwinClaimedSecond(s1, u, v, x, r);
    } else {
      assert Untaken(s.q, s1.q, r);
      t := TwinClaimedFirst(s1, u, v, x, r);
    }
    ReachesTransitive(s, Quiet, s1, t);
  }

  /** Another task under the same identifier was held by `w`. */
  lemma HeldTwinOverlaps(s: Pool, u: Wid, v: Wid, w: Wid, x: Ref, r: Ref) returns (t: Pool)
    requires Submitted(s, r) && IsFree(s, u) && IsFree(s, v) && u != v && x != r
    requires Holds(s.q, s.procs, w, x) && x in s.q.heap && s.q.heap[x].CanRetry() && s.q.heap[x].id == s.q.heap[r].id
    ensures Reaches(s, Quiet, t) && TwoInside(t)
  {
    var s1 := GetsToExecute(s, u, r);
    t := RequeueOverlaps(s1, u, v, w, x, r);
    ReachesTransitive(s, Quiet, s1, t);
  }

  // ----- Exactly the unsafe ones -----

  /** Some continuation with safe submissions has two workers inside `Execute` for one task. */
  ghost predicate MayOverlap(s: Pool) {
    exists acts :: Legal(s, acts) && Careful(s, acts) && TwoInside(Final(s, acts))
  }

  lemma {:induction false} QuietIsCareful(s: Pool, acts: seq<Action>)
    requires Legal(s, acts) && forall a :: a in acts ==> Quiet(a)
    ensures Careful(s, acts)
    decreases |acts|
  {
    if acts != [] {
      assert Quiet(acts[0]);
      QuietIsCareful(Step(s, acts[0]), acts[1..]);
    }
  }

  lemma ReachesMayOverlap(s: Pool, t: Pool)
    requires Reaches(s, Quiet, t) && TwoInside(t)
    ensures MayOverlap(s)
  {
    var acts :| IsRunTo(s, acts, Quiet, t);
    QuietIsCareful(s, acts);
  }

  lemma OwnedNeverOverlaps(s: Pool)
    requires OwnershipInv(s)
    ensures !MayOverlap(s)
  {
    forall acts | Legal(s, acts) && Careful(s, acts) ensures !TwoInside(Final(s, acts)) {
      RunKeepsOwnership(s, acts);
      OwnershipMeansExclusiveExecution(Final(s, acts));
    }
  }

  lemma SubmitLeaves(s: Pool, r: Ref, rec: TaskRec, nano: int, created: int, updated: int)
    requires BaseInv(s) && EnvEnabled(s, Submit(r, rec, nano, created, updated))
    ensures var t := EnvNext(s, Submit(r, rec, nano, created, updated));
            && Submitted(t, r) && t == s.(q := t.q, clock := updated)
            && t.q.heap == s.q.heap[r := EnqueuedRec(s.q, rec, nano, created, updated)]
            && forall x :: x in s.q.queue ==> x in t.q.queue
  {
    var t := EnvNext(s, Submit(r, rec, nano, created, updated));
    EnvKeepsBase(s, Submit(r, rec, nano, created, updated));
    EnqueueKeepsInv(s.q, r, rec, nano, created, updated);
    SortKeepsEntries(t.q.heap, s.q.queue + [r]);
    forall x | x in s.q.queue ensures x in t.q.queue {
      assert x in s.q.queue + [r];
    }
  }

  lemma UnsafeSubmissionOverlaps(s: Pool, r: Ref, rec: TaskRec, nano: int, created: int, updated: int, u: Wid, v: Wid)
    requires OwnershipInv(s) && EnvEnabled(s, Submit(r, rec, nano, created, updated))
    requires IsFree(s, u) && IsFree(s, v) && u != v
    requires !SafeSubmission(s.q, s.procs, r, rec, nano, created, updated)
    ensures MayOverlap(EnvNext(s, Submit(r, rec, nano, created, updated)))
  {
    var t := EnvNext(s, Submit(r, rec, nano, created, updated));
    var id := EnqueuedRec(s.q, rec, nano, created, updated).id;
    SubmitLeaves(s, r, rec, nano, created, updated);
    var end: Pool;
    if Held(s.q, s.procs, r) {
      var w: Wid :| Holds(s.q, s.procs, w, r);
      assert Holds(t.q, t.procs, w, r);
      end := HeldTaskOverlaps(t, u, v, w, r);
    } else {
      var x := s.q.tasks[id];
      assert s.q.heap[x].id == id;
      if s.q.heap[x].status == Pending {
        end := PendingTwinOverlaps(t, u, v, x, r);
      } else {
        var w: Wid :| Holds(s.q, s.procs, w, x);
        assert Holds(t.q, t.procs, w, x);
        end := HeldTwinOverlaps(t, u, v, w, x, r);
      }
    }
    ReachesMayOverlap(t, end);
  }

  /** Whenever two workers are free, a submission can lead to two workers executing one task if
      and only if somebody may still execute or requeue the submitted task, or another task that
      may still be requeued goes by its identifier. */
  lemma SubmissionIsSafeIff(s: Pool, r: Ref, rec: TaskRec, nano: int, created: int, updated: int, u: Wid, v: Wid)
    requires OwnershipInv(s) && EnvEnabled(s, Submit(r, rec, nano, created, updated))
    requires IsFree(s, u) && IsFree(s, v) && u != v
    ensures MayOverlap(EnvNext(s, Submit(r, rec, nano, created, updated))) <==>
            !SafeSubmission(s.q, s.procs, r, rec, nano, created, updated)
  {
    if SafeSubmission(s.q, s.procs, r, rec, nano, created, updated) {
      StepKeepsOwnership(s, Env(Submit(r, rec, nano, created, updated)));
      OwnedNeverOverlaps(EnvNext(s, Submit(r, rec, nano, created, updated)));
    } else {
      UnsafeSubmissionOverlaps(s, r, rec, nano, created, updated, u, v);
    }
  }

  // ----- From an empty pool -----

  /** A started pool in which worker 0 executes the only task, and worker 1 is free. */
  ghost predicate OneExecuting(s: Pool) {
    && BaseInv(s) && !s.cancelled && 2 <= |s.procs| && IsFree(s, 1)
    && s.procs[0].pc == Executing(0) && s.procs[0].currentTask == Some(0)
    && 0 in s.q.heap && s.q.heap[0].CanRetry() && s.q.heap[0].id in s.q.tasks && s.q.tasks[s.q.heap[0].id] == 0
  }

  lemma NewPoolHasBase(cfg: Config, scalers: nat)
    ensures BaseInv(NewPool(cfg, scalers))
  {
  }

  lemma FirstExecution(cfg: Config, scalers: nat) returns (t: Pool)
    requires cfg.min >= 2
    ensures Reaches(NewPool(cfg, scalers), Calm, t) && OneExecuting(t)
  {
    var s0 := NewPool(cfg, scalers);
    NewPoolHasBase(cfg, scalers);
    var s1 := StartReturns(cfg, scalers);
    assert s1.procs[0] in s1.procs && s1.procs[1] in s1.procs;
    ReachesKeepsBase(s0, Calm, s1);
    var task := NewTask("x", 1);
    var submit := Submit(0, task, 0, s1.clock, s1.clock);
    ReachesThen(s0, Calm, s1, Env(submit));
    var s2 := Step(s1, Env(submit));
    SubmitLeaves(s1, 0, task, 0, s1.clock, s1.clock);
    t := GetsToExecute(s2, 0, 0);
    ReachesWeaker(s2, Quiet, Calm, t);
    ReachesTransitive(s0, Calm, s2, t);
  }

  /** The careless run: a task is submitted again while it executes, and a second worker claims
      and executes it too. */
  lemma ResubmissionRunsTwice(cfg: Config, scalers: nat) returns (t: Pool)
    requires cfg.min >= 2
    ensures Reaches(NewPool(cfg, scalers), Calm, t) && TwoInside(t)
  {
    var s0 := NewPool(cfg, scalers);
    var s1 := FirstExecution(cfg, scalers);
    var again := Submit(0, s1.q.heap[0], 0, s1.clock, s1.clock);
    ReachesThen(s0, Calm, s1, Env(again));
    var s2 := Step(s1, Env(again));
    SubmitLeaves(s1, 0, s1.q.heap[0], 0, s1.clock, s1.clock);
    t := SecondExecution(s2, 0, 1, 0);
    ReachesWeaker(s2, Quiet, Calm, t);
    ReachesTransitive(s0, Calm, s2, t);
  }

  lemma RequeuedAndClaimed(s: Pool) returns (t: Pool)
    requires OneExecuting(s)
    ensures Reaches(s, Quiet, t) && 2 <= |t.procs| && t.procs[0].pc == Settled(0) && t.procs[1].pc == Executing(0)
    ensures t.procs[0].currentTask == Some(0) && t.procs[1].currentTask == Some(0)
  {
    var s1 := Fails(s, 0, 0);
    ReachesKeepsBase(s, Quiet, s1);
    var s2 := Requeues(s1, 0, 0, 0);
    ReachesTransitive(s, Quiet, s1, s2);
    t := GetsToExecute(s2, 1, 0);
    ReachesTransitive(s, Quiet, s2, t);
  }

  /** Two workers do point to one task at times: the one that requeued it has not cleared its
      `currentTask` when the next one executes it.  Only the latter holds the task. */
  lemma CurrentTaskOverlaps(cfg: Config, scalers: nat) returns (t: Pool)
    requires cfg.min >= 2
    ensures Reaches(NewPool(cfg, scalers), Calm, t) && 2 <= |t.procs|
    ensures t.procs[0].currentTask == Some(0) && t.procs[1].currentTask == Some(0)
    ensures t.procs[1].pc == Executing(0) && !Holds(t.q, t.procs, 0, 0)
  {
    var s := FirstExecution(cfg, scalers);
    t := RequeuedAndClaimed(s);
    ReachesWeaker(s, Quiet, Calm, t);
    ReachesTransitive(NewPool(cfg, scalers), Calm, s, t);
  }
}
