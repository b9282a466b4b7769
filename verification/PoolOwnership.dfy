/** Who may execute a task.

    A worker owns a task from the moment `Dequeue` returns it until the task is completed,
    requeued or dead-lettered; `currentTask` outlives ownership, so two workers may both
    point to one task.  An owner holds its task as long as it may still execute or requeue it.
    Only `handleTaskError` requeues; statuses other than Pending may be written at any time. */
module PoolOwnership {
  import opened Tasks
  import opened QueueModel
  import opened PoolMachine

  function Owned(p: Proc): Option<Ref> {
    match p.pc
    case Claimed(r) => Some(r)
    case Marked(r) => Some(r)
    case Executing(r) => Some(r)
    case Succeeded(r) => Some(r)
    case Failing(r) => Some(r)
    case Retrying(r) => Some(r)
    case Burying(r) => Some(r)
    case DeadLettering(r) => Some(r)
    case _ => None
  }

  /** The task that the worker may still execute or requeue. */
  function HeldBy(q: QState<Ref>, p: Proc): Option<Ref> {
    match p.pc
    case Claimed(r) => Some(r)
    case Marked(r) => Some(r)
    case Executing(r) => Some(r)
    case Failing(r) => if r in q.heap && q.heap[r].CanRetry() then Some(r) else None
    case Retrying(r) => Some(r)
    case _ => None
  }

  predicate Holds(q: QState<Ref>, procs: seq<Proc>, w: Wid, r: Ref) {
    w < |procs| && HeldBy(q, procs[w]) == Some(r)
  }

  ghost predicate Held(q: QState<Ref>, procs: seq<Proc>, r: Ref) {
    exists w: Wid :: Holds(q, procs, w, r)
  }

  /** The task may be requeued at some later time. */
  ghost predicate Revivable(q: QState<Ref>, procs: seq<Proc>, r: Ref) {
    r in q.heap && q.heap[r].CanRetry() && (q.heap[r].status == Pending || Held(q, procs, r))
  }

  // ----- What every run keeps -----

  /** The queue's own invariant, and every owned task is known under an identifier. */
  ghost predicate Base(q: QState<Ref>, procs: seq<Proc>) {
    && QueueInv(q)
    && (forall r :: r in q.heap ==> q.heap[r].id in q.tasks)
    && (forall w: Wid :: w < |procs| && Owned(procs[w]).Some? ==> Owned(procs[w]).value in q.heap)
  }

  ghost predicate BaseInv(s: Pool) {
    Base(s.q, s.procs)
  }

  lemma MoveKeepsBase(q: QState<Ref>, procs: seq<Proc>, w: Wid, p: Proc)
    requires Base(q, procs) && w < |procs|
    requires Owned(p).Some? ==> Owned(p).value in q.heap
    ensures Base(q, procs[w := p])
  {
  }

  lemma QueueStepKeepsBase(q: QState<Ref>, procs: seq<Proc>, op: Op<Ref>)
    requires Base(q, procs) && Allowed(q, op)
    ensures QueueInv(Apply(q, op)) && Base(Apply(q, op), procs)
  {
    ApplyKeepsInv(q, op);
  }

  /** The step as an operation of the queue, if it is one. */
  function QueueOp(s: Pool, w: Wid, step: WorkStep): Option<Op<Ref>>
    requires WellFormed(s.q) && WorkEnabled(s, w, step)
  {
    var p := s.procs[w];
    match step
    case CallDequeue(req, scan, now) => Some(Dequeue(p.name, req, scan, now))
    case Complete => Some(WriteStatus(p.pc.task, Completed))
    case WriteFailed => Some(WriteStatus(p.pc.task, Failed))
    case CallRequeue(delay, at, updated) => Some(Requeue(s.q.heap[p.pc.task].id, delay, at, updated))
    case CallDeadLetter(reason, updated) => Some(MoveToDeadLetter(s.q.heap[p.pc.task].id, reason, updated))
    case _ => None
  }

  lemma NextQueueIsApply(s: Pool, w: Wid, step: WorkStep)
    requires WellFormed(s.q) && WorkEnabled(s, w, step)
    ensures var op := QueueOp(s, w, step);
            if op.None? then NextQueue(s, w, step) == s.q
            else Allowed(s.q, op.value) && NextQueue(s, w, step) == Apply(s.q, op.value)
  {
  }

  lemma NextOwnsKnown(s: Pool, w: Wid, step: WorkStep)
    requires BaseInv(s) && WorkEnabled(s, w, step)
    ensures Owned(NextProc(s, w, step)).Some? ==> Owned(NextProc(s, w, step)).value in s.q.heap
  {
  }

  lemma HeapGrows(q: QState<Ref>, op: Op<Ref>)
    requires WellFormed(q) && Allowed(q, op)
    ensures forall r :: r in q.heap ==> r in Apply(q, op).heap
  {
  }

  lemma WorkKeepsBase(s: Pool, w: Wid, step: WorkStep)
    requires BaseInv(s) && WorkEnabled(s, w, step)
    ensures BaseInv(WorkNext(s, w, step))
  {
    NextQueueIsApply(s, w, step);
    NextOwnsKnown(s, w, step);
    var op := QueueOp(s, w, step);
    if op.Some? {
      QueueStepKeepsBase(s.q, s.procs, op.value);
      HeapGrows(s.q, op.value);
    }
    MoveKeepsBase(NextQueue(s, w, step), s.procs, w, NextProc(s, w, step));
  }

  lemma EnvKeepsBase(s: Pool, e: EnvStep)
    requires BaseInv(s) && EnvEnabled(s, e)
    ensures BaseInv(EnvNext(s, e))
  {
    match e
    case Submit(r, rec, nano, created, updated) =>
      QueueStepKeepsBase(s.q, s.procs, Enqueue(r, rec, nano, created, updated));
    case ForeignStatus(r, status) => QueueStepKeepsBase(s.q, s.procs, WriteStatus(r, status));
    case Cancel =>
    case _ => MoveKeepsBase(s.q, s.procs, e.worker, SignalledProc(s.procs[e.worker], e));
  }

  lemma GrowKeepsBase(s: Pool, g: nat, step: GrowStep)
    requires BaseInv(s) && GrowEnabled(s, g, step)
    ensures BaseInv(GrowNext(s, g, step))
  {
  }

  /** Every step, careless submissions included, keeps the queue's invariant. */
  lemma StepKeepsBase(s: Pool, a: Action)
    requires BaseInv(s) && Enabled(s, a)
    ensures BaseInv(Step(s, a))
  {
    match a
    case Env(e) => EnvKeepsBase(s, e);
    case Grower(g, step) => GrowKeepsBase(s, g, step);
    case Worker(w, step) => WorkKeepsBase(s, w, step);
  }

  lemma {:induction false} RunKeepsBase(s: Pool, acts: seq<Action>)
    requires BaseInv(s) && Legal(s, acts)
    ensures BaseInv(Final(s, acts))
    decreases |acts|
  {
    if acts != [] {
      StepKeepsBase(s, acts[0]);
      RunKeepsBase(Step(s, acts[0]), acts[1..]);
    }
  }

  // ----- What careful submissions keep -----

  /** At most one worker holds a task, a held task is not pending, and a task that may be
      requeued is the one registered under its identifier. */
  ghost predicate Exclusive(q: QState<Ref>, procs: seq<Proc>) {
    && (forall w: Wid, r: Ref :: Holds(q, procs, w, r) ==> r in q.heap && q.heap[r].status != Pending)
    && (forall w1: Wid, w2: Wid, r: Ref :: Holds(q, procs, w1, r) && Holds(q, procs, w2, r) ==> w1 == w2)
    && (forall w: Wid, r: Ref :: Holds(q, procs, w, r) && procs[w].pc.Retrying? ==> r in q.heap && q.heap[r].CanRetry())
    && (forall r: Ref :: Revivable(q, procs, r) ==> q.heap[r].id in q.tasks && q.tasks[q.heap[r].id] == r)
  }

  ghost predicate OwnershipInv(s: Pool) {
    BaseInv(s) && Exclusive(s.q, s.procs)
  }

  /** What a submitter has to see to: nobody holds the task, and no other task that may still
      be requeued goes by its identifier. */
  ghost predicate SafeSubmission(q: QState<Ref>, procs: seq<Proc>,
                                 r: Ref, rec: TaskRec, nano: int, created: int, updated: int) {
    var id := EnqueuedRec(q, rec, nano, created, updated).id;
    && !Held(q, procs, r)
    && (id in q.tasks && q.tasks[id] != r ==> !Revivable(q, procs, q.tasks[id]))
  }

  ghost predicate SafeAction(s: Pool, a: Action) {
    a.Env? && a.env.Submit? ==>
      SafeSubmission(s.q, s.procs, a.env.r, a.env.rec, a.env.nano, a.env.created, a.env.updated)
  }

  /** A run in which every submission is safe. */
  ghost predicate Careful(s: Pool, acts: seq<Action>)
    requires Legal(s, acts)
    decreases |acts|
  {
    acts == [] || (SafeAction(s, acts[0]) && Careful(Step(s, acts[0]), acts[1..]))
  }

  /** Nothing new is held, nothing becomes pending, and no task gains a retry. */
  lemma LessHeldKeepsExclusive(q: QState<Ref>, procs: seq<Proc>, q': QState<Ref>, procs': seq<Proc>)
    requires Exclusive(q, procs)
    requires q'.heap.Keys == q.heap.Keys && q'.tasks == q.tasks
    requires forall r :: r in q.heap ==>
               && q'.heap[r].id == q.heap[r].id && q'.heap[r].retryCount == q.heap[r].retryCount
               && q'.heap[r].maxRetries == q.heap[r].maxRetries
               && (q'.heap[r].status == Pending ==> q.heap[r].status == Pending)
    requires forall w: Wid, r: Ref :: Holds(q', procs', w, r) ==>
               Holds(q, procs, w, r) && (procs'[w].pc.Retrying? ==> r in q.heap && q.heap[r].CanRetry())
    ensures Exclusive(q', procs')
  {
    forall r | Revivable(q', procs', r) ensures Revivable(q, procs, r) {
      if Held(q', procs', r) {
        var w: Wid :| Holds(q', procs', w, r);
        assert Holds(q, procs, w, r);
      }
    }
  }

  /** Worker `w` moves on and holds what it held before, or nothing. */
  lemma MoveKeepsExclusive(q: QState<Ref>, procs: seq<Proc>, w: Wid, p: Proc)
    requires Exclusive(q, procs) && w < |procs|
    requires HeldBy(q, p) == HeldBy(q, procs[w]) || HeldBy(q, p).None?
    requires p.pc.Retrying? ==> p.pc.task in q.heap && q.heap[p.pc.task].CanRetry()
    ensures Exclusive(q, procs[w := p])
  {
    var procs' := procs[w := p];
    forall v: Wid, r: Ref | Holds(q, procs', v, r)
      ensures Holds(q, procs, v, r) && (procs'[v].pc.Retrying? ==> r in q.heap && q.heap[r].CanRetry())
    {
      assert Holds(q, procs, v, r);
    }
    LessHeldKeepsExclusive(q, procs, q, procs');
  }

  lemma InsertKeepsExclusive(q: QState<Ref>, procs: seq<Proc>, p: Proc)
    requires Exclusive(q, procs) && p.pc == Inserted
    ensures Exclusive(q, procs + [p])
  {
    forall v: Wid, r: Ref | Holds(q, procs + [p], v, r)
      ensures Holds(q, procs, v, r) && ((procs + [p])[v].pc.Retrying? ==> r in q.heap && q.heap[r].CanRetry())
    {
      assert Holds(q, procs, v, r);
    }
    LessHeldKeepsExclusive(q, procs, q, procs + [p]);
  }

  /** A status other than Pending leaves every holder in place. */
  lemma StatusKeepsExclusive(q: QState<Ref>, procs: seq<Proc>, r: Ref, status: Status)
    requires Exclusive(q, procs) && r in q.heap && status != Pending
    ensures Exclusive(StatusWritten(q, r, status), procs)
  {
    var q' := StatusWritten(q, r, status);
    forall v: Wid, x: Ref | Holds(q', procs, v, x) ensures Holds(q, procs, v, x) {
    }
    LessHeldKeepsExclusive(q, procs, q', procs);
  }

  lemma DeadLetterKeepsExclusive(q: QState<Ref>, procs: seq<Proc>, id: string, reason: string, updated: int)
    requires Exclusive(q, procs) && WellFormed(q) && id in q.tasks
    ensures Exclusive(DeadLettered(q, id, reason, updated), procs)
  {
    var q' := DeadLettered(q, id, reason, updated);
    forall v: Wid, x: Ref | Holds(q', procs, v, x) ensures Holds(q, procs, v, x) {
    }
    LessHeldKeepsExclusive(q, procs, q', procs);
  }

  lemma SafeSubmitKeepsExclusive(q: QState<Ref>, procs: seq<Proc>,
                                 r: Ref, rec: TaskRec, nano: int, created: int, updated: int)
    requires Base(q, procs) && Exclusive(q, procs) && (r in q.heap ==> rec == q.heap[r])
    requires SafeSubmission(q, procs, r, rec, nano, created, updated)
    ensures Exclusive(Enqueued(q, r, rec, nano, created, updated), procs)
  {
    var t := EnqueuedRec(q, rec, nano, created, updated);
    var q' := Enqueued(q, r, rec, nano, created, updated);
    assert q'.heap == q.heap[r := t] && q'.tasks == q.tasks[t.id := r];
    forall v: Wid, x: Ref | Holds(q', procs, v, x) ensures Holds(q, procs, v, x) && x != r {
      assert Owned(procs[v]) == Some(x);
      assert Holds(q, procs, v, x);
    }
    forall x | Revivable(q', procs, x) ensures q'.heap[x].id in q'.tasks && q'.tasks[q'.heap[x].id] == x {
      if x != r {
        assert Held(q', procs, x) ==> Held(q, procs, x);
        assert Revivable(q, procs, x);
      }
    }
  }

  /** The claimed task was pending, so nobody held it. */
  lemma ClaimKeepsExclusive(q: QState<Ref>, procs: seq<Proc>, w: Wid, k: nat, now: int)
    requires WellFormed(q) && Exclusive(q, procs) && w < |procs| && k < |q.queue| && HeldBy(q, procs[w]).None?
    requires q.heap[q.queue[k]].status == Pending
    ensures Exclusive(QueueModel.Claimed(q, k, procs[w].name, now),
                      procs[w := procs[w].(pc := PoolMachine.Claimed(q.queue[k]))])
  {
    var r := q.queue[k];
    var q' := QueueModel.Claimed(q, k, procs[w].name, now);
    var procs' := procs[w := procs[w].(pc := PoolMachine.Claimed(r))];
    forall v: Wid, x: Ref | Holds(q', procs', v, x) && v != w ensures Holds(q, procs, v, x) && x != r {
      assert Holds(q, procs, v, x);
    }
    forall x | Revivable(q', procs', x) ensures Revivable(q, procs, x) {
      if x != r && Held(q', procs', x) {
        var v: Wid :| Holds(q', procs', v, x);
        assert Holds(q, procs, v, x);
      }
    }
  }

  /** The holder gives the task back: afterwards it is pending and nobody holds it. */
  lemma RequeueKeepsExclusive(q: QState<Ref>, procs: seq<Proc>, w: Wid, r: Ref, delay: int, at: int, updated: int)
    requires Base(q, procs) && Exclusive(q, procs) && w < |procs| && procs[w].pc == Retrying(r)
    ensures r in q.heap && q.heap[r].id in q.tasks && q.tasks[q.heap[r].id] == r
    ensures var q' := Requeued(q, q.heap[r].id, delay, at, updated);
            var procs' := procs[w := procs[w].(pc := Settled(r))];
            Exclusive(q', procs') && !Held(q', procs', r) && q'.heap[r].status == Pending
  {
    assert Holds(q, procs, w, r);
    assert Revivable(q, procs, r);
    var q' := Requeued(q, q.heap[r].id, delay, at, updated);
    var procs' := procs[w := procs[w].(pc := Settled(r))];
    forall v: Wid, x: Ref | Holds(q', procs', v, x) ensures v != w && Holds(q, procs, v, x) && x != r {
      assert Owned(procs'[v]) == Some(x);
      assert Holds(q, procs, v, x);
    }
    forall x | Revivable(q', procs', x) && x != r ensures Revivable(q, procs, x) {
      assert Held(q', procs', x) ==> Held(q, procs, x);
    }
  }

  lemma RequeueStepKeepsExclusive(s: Pool, w: Wid, delay: int, at: int, updated: int)
    requires OwnershipInv(s) && WorkEnabled(s, w, CallRequeue(delay, at, updated))
    ensures Exclusive(NextQueue(s, w, CallRequeue(delay, at, updated)),
                      WorkNext(s, w, CallRequeue(delay, at, updated)).procs)
  {
    RequeueKeepsExclusive(s.q, s.procs, w, s.procs[w].pc.task, delay, at, updated);
  }

  lemma BuryStepKeepsExclusive(s: Pool, w: Wid, reason: string, updated: int)
    requires OwnershipInv(s) && WorkEnabled(s, w, CallDeadLetter(reason, updated))
    ensures Exclusive(NextQueue(s, w, CallDeadLetter(reason, updated)),
                      WorkNext(s, w, CallDeadLetter(reason, updated)).procs)
  {
    var r := s.procs[w].pc.task;
    DeadLetterKeepsExclusive(s.q, s.procs, s.q.heap[r].id, reason, updated);
    MoveKeepsExclusive(NextQueue(s, w, CallDeadLetter(reason, updated)), s.procs, w, s.procs[w].(pc := Settled(r)));
  }

  lemma DequeueKeepsExclusive(s: Pool, w: Wid, req: Requirements, scan: seq<int>, now: int)
    requires OwnershipInv(s) && WorkEnabled(s, w, CallDequeue(req, scan, now))
    ensures Exclusive(NextQueue(s, w, CallDequeue(req, scan, now)), WorkNext(s, w, CallDequeue(req, scan, now)).procs)
  {
    var k := FirstClaimable(s.q, req, scan, 0);
    if k < |s.q.queue| {
      ClaimKeepsExclusive(s.q, s.procs, w, k, now);
    } else {
      MoveKeepsExclusive(s.q, s.procs, w, s.procs[w].(pc := Sleeping));
    }
  }

  /** The steps that do not touch the queue. */
  predicate IsPlain(step: WorkStep) {
    !step.CallDequeue? && !step.Complete? && !step.WriteFailed? && !step.CallRequeue? && !step.CallDeadLetter?
  }

  lemma PlainStepHolds(s: Pool, w: Wid, step: WorkStep)
    requires WellFormed(s.q) && WorkEnabled(s, w, step) && IsPlain(step)
    ensures var p := NextProc(s, w, step);
            && (HeldBy(s.q, p) == HeldBy(s.q, s.procs[w]) || HeldBy(s.q, p).None?)
            && (p.pc.Retrying? ==> p.pc.task in s.q.heap && s.q.heap[p.pc.task].CanRetry())
  {
  }

  lemma PlainStepKeepsExclusive(s: Pool, w: Wid, step: WorkStep)
    requires OwnershipInv(s) && WorkEnabled(s, w, step) && IsPlain(step)
    ensures Exclusive(s.q, WorkNext(s, w, step).procs)
  {
    PlainStepHolds(s, w, step);
    MoveKeepsExclusive(s.q, s.procs, w, NextProc(s, w, step));
  }

  /** The owner writes a status and holds the task no more. */
  lemma OwnerWriteKeepsExclusive(s: Pool, w: Wid, step: WorkStep)
    requires OwnershipInv(s) && WorkEnabled(s, w, step) && (step.Complete? || step.WriteFailed?)
    ensures Exclusive(NextQueue(s, w, step), WorkNext(s, w, step).procs)
  {
    var status := if step.Complete? then Completed else Failed;
    StatusKeepsExclusive(s.q, s.procs, s.procs[w].pc.task, status);
    MoveKeepsExclusive(NextQueue(s, w, step), s.procs, w, NextProc(s, w, step));
  }

  lemma WorkKeepsExclusive(s: Pool, w: Wid, step: WorkStep)
    requires OwnershipInv(s) && WorkEnabled(s, w, step)
    ensures Exclusive(NextQueue(s, w, step), WorkNext(s, w, step).procs)
  {
    match step
    case CallDequeue(req, scan, now) => DequeueKeepsExclusive(s, w, req, scan, now);
    case CallRequeue(delay, at, updated) => RequeueStepKeepsExclusive(s, w, delay, at, updated);
    case CallDeadLetter(reason, updated) => BuryStepKeepsExclusive(s, w, reason, updated);
    case Complete => OwnerWriteKeepsExclusive(s, w, step);
    case WriteFailed => OwnerWriteKeepsExclusive(s, w, step);
    case _ => PlainStepKeepsExclusive(s, w, step);
  }

  lemma EnvKeepsExclusive(s: Pool, e: EnvStep)
    requires OwnershipInv(s) && EnvEnabled(s, e) && SafeAction(s, Env(e))
    ensures Exclusive(EnvNext(s, e).q, EnvNext(s, e).procs)
  {
    match e
    case Submit(r, rec, nano, created, updated) =>
      SafeSubmitKeepsExclusive(s.q, s.procs, r, rec, nano, created, updated);
    case ForeignStatus(r, status) => StatusKeepsExclusive(s.q, s.procs, r, status);
    case Cancel =>
    case _ => SignalKeepsExclusive(s, e);
  }

  lemma SignalKeepsExclusive(s: Pool, e: EnvStep)
    requires OwnershipInv(s) && EnvEnabled(s, e) && IsSignal(e)
    ensures Exclusive(s.q, EnvNext(s, e).procs)
  {
    var p := s.procs[e.worker];
    assert p.pc.Retrying? ==> Holds(s.q, s.procs, e.worker, p.pc.task);
    MoveKeepsExclusive(s.q, s.procs, e.worker, SignalledProc(p, e));
  }

  lemma GrowKeepsExclusive(s: Pool, g: nat, step: GrowStep)
    requires OwnershipInv(s) && GrowEnabled(s, g, step)
    ensures Exclusive(s.q, GrowNext(s, g, step).procs)
  {
    var t := GrowNext(s, g, step);
    if step.Insert? {
      InsertKeepsExclusive(s.q, s.procs, t.procs[|s.procs|]);
    } else if step.Increment? {
      var w := s.growers[g].spawned.value;
      MoveKeepsExclusive(s.q, s.procs, w, t.procs[w]);
    }
  }

  lemma StepKeepsOwnership(s: Pool, a: Action)
    requires OwnershipInv(s) && Enabled(s, a) && SafeAction(s, a)
    ensures OwnershipInv(Step(s, a))
  {
    StepKeepsBase(s, a);
    match a
    case Env(e) => EnvKeepsExclusive(s, e);
    case Grower(g, step) => GrowKeepsExclusive(s, g, step);
    case Worker(w, step) => WorkKeepsExclusive(s, w, step);
  }

  lemma {:induction false} RunKeepsOwnership(s: Pool, acts: seq<Action>)
    requires OwnershipInv(s) && Legal(s, acts) && Careful(s, acts)
    ensures OwnershipInv(Final(s, acts))
    decreases |acts|
  {
    if acts != [] {
      StepKeepsOwnership(s, acts[0]);
      RunKeepsOwnership(Step(s, acts[0]), acts[1..]);
    }
  }

  /** Two workers are inside `Execute` for one task. */
  ghost predicate TwoInside(s: Pool) {
    exists v: Wid, w: Wid ::
      && v < |s.procs| && w < |s.procs| && v != w
      && s.procs[v].pc.Executing? && s.procs[v].pc == s.procs[w].pc
  }

  lemma OwnershipMeansExclusiveExecution(s: Pool)
    requires OwnershipInv(s)
    ensures !TwoInside(s)
  {
    if TwoInside(s) {
      var v: Wid, w: Wid :|
        && v < |s.procs| && w < |s.procs| && v != w
        && s.procs[v].pc.Executing? && s.procs[v].pc == s.procs[w].pc;
      assert Holds(s.q, s.procs, v, s.procs[v].pc.task) && Holds(s.q, s.procs, w, s.procs[v].pc.task);
    }
  }

  /** In every interleaving from an empty pool in which tasks are submitted, and resubmitted,
      safely, no two workers are inside `Execute` for one task. */
  lemma ExclusiveExecution(cfg: Config, scalers: nat, acts: seq<Action>)
    requires Legal(NewPool(cfg, scalers), acts) && Careful(NewPool(cfg, scalers), acts)
    ensures !TwoInside(Final(NewPool(cfg, scalers), acts))
  {
    RunKeepsOwnership(NewPool(cfg, scalers), acts);
    OwnershipMeansExclusiveExecution(Final(NewPool(cfg, scalers), acts));
  }
}
