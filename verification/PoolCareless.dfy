/** What careless resubmissions cost: the bound on executions when a task may be submitted again
    while a worker holds it.  Every task keeps an identifier of its own. */
module PoolCareless {
  import opened Tasks
  import opened QueueModel
  import opened PoolMachine
  import opened PoolOwnership
  import opened PoolCounting
  import opened PoolClaims

  // ----- Identifiers -----

  /** A submission does not take the identifier of another task. */
  predicate OwnIdentifier(s: Pool, a: Action) {
    a.Env? && a.env.Submit? ==>
      var id := EnqueuedRec(s.q, a.env.rec, a.env.nano, a.env.created, a.env.updated).id;
      id in s.q.tasks ==> s.q.tasks[id] == a.env.r
  }

  ghost predicate OwnIdentifiers(s: Pool, acts: seq<Action>)
    requires Legal(s, acts)
    decreases |acts|
  {
    acts == [] || (OwnIdentifier(s, acts[0]) && OwnIdentifiers(Step(s, acts[0]), acts[1..]))
  }

  ghost predicate AllRegistered(q: QState<Ref>) {
    forall r :: r in q.heap ==> q.heap[r].id in q.tasks && q.tasks[q.heap[r].id] == r
  }

  lemma OpKeepsRegistered(q: QState<Ref>, op: Op<Ref>)
    requires Base(q, []) && AllRegistered(q) && Allowed(q, op)
    requires op.Enqueue? ==>
               var id := EnqueuedRec(q, op.rec, op.nano, op.created, op.updated).id;
               id in q.tasks ==> q.tasks[id] == op.r
    ensures AllRegistered(Apply(q, op))
  {
  }

  lemma WorkKeepsRegistered(s: Pool, w: Wid, step: WorkStep)
    requires BaseInv(s) && AllRegistered(s.q) && WorkEnabled(s, w, step)
    ensures AllRegistered(NextQueue(s, w, step))
  {
    NextQueueIsApply(s, w, step);
    if QueueOp(s, w, step).Some? {
      OpKeepsRegistered(s.q, QueueOp(s, w, step).value);
    }
  }

  lemma EnvKeepsRegistered(s: Pool, e: EnvStep)
    requires BaseInv(s) && AllRegistered(s.q) && EnvEnabled(s, e) && OwnIdentifier(s, Env(e))
    ensures AllRegistered(EnvNext(s, e).q)
  {
    if e.Submit? {
      OpKeepsRegistered(s.q, Enqueue(e.r, e.rec, e.nano, e.created, e.updated));
    }
  }

  lemma StepKeepsRegistered(s: Pool, a: Action)
    requires BaseInv(s) && AllRegistered(s.q) && Enabled(s, a) && OwnIdentifier(s, a)
    ensures AllRegistered(Step(s, a).q)
  {
    match a
    case Worker(w, step) => WorkKeepsRegistered(s, w, step);
    case Env(e) => EnvKeepsRegistered(s, e);
    case Grower(_, _) =>
  }

  lemma {:induction false} RunKeepsRegistered(s: Pool, acts: seq<Action>)
    requires BaseInv(s) && AllRegistered(s.q) && Legal(s, acts) && OwnIdentifiers(s, acts)
    ensures AllRegistered(Final(s, acts).q)
    decreases |acts|
  {
    if acts != [] {
      StepKeepsRegistered(s, acts[0]);
      StepKeepsBase(s, acts[0]);
      RunKeepsRegistered(Step(s, acts[0]), acts[1..]);
    }
  }

  // ----- What a task may still cost -----

  /** One for a worker from its claim of `r` to the end of the error handler's decision. */
  function Handling(r: Ref): Proc -> nat {
    (p: Proc) =>
      if || p.pc == PoolMachine.Claimed(r) || p.pc == Marked(r) || p.pc == Executing(r)
         || p.pc == Failing(r) || p.pc == Retrying(r)
      then 1 else 0
  }

  /** One for a worker that has found a retry left and will requeue `r`. */
  function AtRequeue(r: Ref): Proc -> nat {
    (p: Proc) => if p.pc == Retrying(r) then 1 else 0
  }

  /** Requeues that the retry counter does not pay for. */
  function Excess(left: nat, pending: nat, handling: nat, atRequeue: nat): nat {
    if left == 0 then atRequeue else if handling + pending == 0 then 0 else handling + pending - 1
  }

  function IsPending(q: QState<Ref>, r: Ref): nat
    requires r in q.heap
  {
    if q.heap[r].status == Pending then 1 else 0
  }

  function Cost(left: nat, pending: nat, waiting: nat, handling: nat, atRequeue: nat): nat {
    left + pending + waiting + Excess(left, pending, handling, atRequeue)
  }

  ghost function CarelessPotential(s: Pool, r: Ref): nat
    requires r in s.q.heap
  {
    Cost(RetriesLeft(s.q.heap[r]), IsPending(s.q, r), Total(s.procs, Waiting(r)),
         Total(s.procs, Handling(r)), Total(s.procs, AtRequeue(r)))
  }

  lemma {:induction false} AtRequeueIsHandling(procs: seq<Proc>, r: Ref)
    ensures Total(procs, AtRequeue(r)) <= Total(procs, Handling(r))
  {
    if procs != [] {
      AtRequeueIsHandling(procs[1..], r);
    }
  }

  /** How a worker's step changes what concerns `r`: the task's retries and pending status, and
      the worker's own share of each sum. */
  ghost predicate Moves(left: nat, left': nat, pending: nat, pending': nat, p: Proc, p': Proc, r: Ref, began: nat) {
    var w, w' := Waiting(r)(p), Waiting(r)(p');
    var h, h' := Handling(r)(p), Handling(r)(p');
    var a, a' := AtRequeue(r)(p), AtRequeue(r)(p');
    // the worker claimed the task
    || (left' == left && pending' == pending - 1 && began == 0 && w' == w + 1 && h' == h + 1 && a' == a)
    // it went on with it, or the step is about something else
    || (left' == left && pending' <= pending && began + w' <= w && h' <= h && a' <= a)
    // it found a retry left
    || (left' == left > 0 && pending' == pending && began == 0 && w' == w && h' == h && a' == a + 1)
    // it requeued the task
    || (left' == (if left > 0 then left - 1 else 0) && pending' == 1
        && began == 0 && w' == w && h' == h - 1 && a' == a - 1)
  }

  lemma DequeueMoves(s: Pool, w: Wid, req: Requirements, scan: seq<int>, now: int, r: Ref)
    requires BaseInv(s) && WorkEnabled(s, w, CallDequeue(req, scan, now)) && r in s.q.heap
    ensures var step := CallDequeue(req, scan, now); var q := NextQueue(s, w, step);
            && r in q.heap
            && Moves(RetriesLeft(s.q.heap[r]), RetriesLeft(q.heap[r]), IsPending(s.q, r), IsPending(q, r),
                     s.procs[w], NextProc(s, w, step), r, One(BeganOf(r), ObserveWork(s, w, step)))
  {
  }

  lemma RequeueMoves(s: Pool, w: Wid, delay: int, at: int, updated: int, r: Ref)
    requires BaseInv(s) && AllRegistered(s.q) && WorkEnabled(s, w, CallRequeue(delay, at, updated)) && r in s.q.heap
    ensures var step := CallRequeue(delay, at, updated); var q := NextQueue(s, w, step);
            && r in q.heap
            && Moves(RetriesLeft(s.q.heap[r]), RetriesLeft(q.heap[r]), IsPending(s.q, r), IsPending(q, r),
                     s.procs[w], NextProc(s, w, step), r, One(BeganOf(r), ObserveWork(s, w, step)))
  {
    assert s.procs[w].pc.task in s.q.heap;
  }

  /** The steps that leave the queue alone. */
  lemma PlainMoves(s: Pool, w: Wid, step: WorkStep, r: Ref)
    requires WellFormed(s.q) && WorkEnabled(s, w, step) && r in s.q.heap && IsPlain(step)
    ensures Moves(RetriesLeft(s.q.heap[r]), RetriesLeft(s.q.heap[r]), IsPending(s.q, r), IsPending(s.q, r),
                  s.procs[w], NextProc(s, w, step), r, One(BeganOf(r), ObserveWork(s, w, step)))
  {
  }

  lemma WriteMoves(s: Pool, w: Wid, step: WorkStep, r: Ref)
    requires BaseInv(s) && WorkEnabled(s, w, step) && r in s.q.heap
    requires step.Complete? || step.WriteFailed? || step.CallDeadLetter?
    ensures var q := NextQueue(s, w, step);
            && r in q.heap && RetriesLeft(q.heap[r]) == RetriesLeft(s.q.heap[r]) && IsPending(q, r) <= IsPending(s.q, r)
  {
  }

  lemma WriteLeavesSums(s: Pool, w: Wid, step: WorkStep, r: Ref)
    requires WellFormed(s.q) && WorkEnabled(s, w, step)
    requires step.Complete? || step.WriteFailed? || step.CallDeadLetter?
    ensures One(BeganOf(r), ObserveWork(s, w, step)) == 0
    ensures Waiting(r)(NextProc(s, w, step)) == 0 == Waiting(r)(s.procs[w])
    ensures Handling(r)(NextProc(s, w, step)) == 0 == Handling(r)(s.procs[w])
    ensures AtRequeue(r)(NextProc(s, w, step)) == 0 == AtRequeue(r)(s.procs[w])
  {
  }

  lemma WorkMoves(s: Pool, w: Wid, step: WorkStep, r: Ref)
    requires BaseInv(s) && AllRegistered(s.q) && WorkEnabled(s, w, step) && r in s.q.heap
    ensures var q := NextQueue(s, w, step);
            && r in q.heap
            && Moves(RetriesLeft(s.q.heap[r]), RetriesLeft(q.heap[r]), IsPending(s.q, r), IsPending(q, r),
                     s.procs[w], NextProc(s, w, step), r, One(BeganOf(r), ObserveWork(s, w, step)))
  {
    if step.CallDequeue? {
      DequeueMoves(s, w, step.req, step.scan, step.now, r);
    } else if step.CallRequeue? {
      RequeueMoves(s, w, step.delay, step.at, step.updated, r);
    } else if IsPlain(step) {
      PlainMoves(s, w, step, r);
    } else {
      WriteMoves(s, w, step, r);
      WriteLeavesSums(s, w, step, r);
    }
  }

  lemma MovesPay(left: nat, left': nat, pending: nat, pending': nat, p: Proc, p': Proc, r: Ref, began: nat,
                 ws: nat, ws': nat, hs: nat, hs': nat, qs: nat, qs': nat)
    requires Moves(left, left', pending, pending', p, p', r, began) && pending <= 1
    requires ws' + Waiting(r)(p) == ws + Waiting(r)(p') && hs' + Handling(r)(p) == hs + Handling(r)(p')
    requires qs' + AtRequeue(r)(p) == qs + AtRequeue(r)(p') && qs <= hs && qs' <= hs'
    ensures began + Cost(left', pending', ws', hs', qs') <= Cost(left, pending, ws, hs, qs)
  {
  }

  /** The three sums over the workers. */
  ghost predicate SumsAre(procs: seq<Proc>, r: Ref, waiting: nat, handling: nat, atRequeue: nat) {
    && Total(procs, Waiting(r)) == waiting && Total(procs, Handling(r)) == handling
    && Total(procs, AtRequeue(r)) == atRequeue
  }

  lemma SumsStep(s: Pool, a: Action, r: Ref, ws: nat, hs: nat, qs: nat, ws': nat, hs': nat, qs': nat)
    requires WellFormed(s.q) && GrowInv(s) && Enabled(s, a)
    requires SumsAre(s.procs, r, ws, hs, qs) && SumsAre(Step(s, a).procs, r, ws', hs', qs')
    ensures qs <= hs && qs' <= hs'
    ensures !a.Worker? ==> ws' == ws && hs' == hs && qs' == qs
    ensures a.Worker? ==>
              var p, p' := s.procs[a.w], NextProc(s, a.w, a.work);
              && ws' + Waiting(r)(p) == ws + Waiting(r)(p') && hs' + Handling(r)(p) == hs + Handling(r)(p')
              && qs' + AtRequeue(r)(p) == qs + AtRequeue(r)(p')
  {
    StepTotal(s, a, Waiting(r));
    StepTotal(s, a, Handling(r));
    StepTotal(s, a, AtRequeue(r));
    AtRequeueIsHandling(s.procs, r);
    AtRequeueIsHandling(Step(s, a).procs, r);
  }

  lemma WorkPays(s: Pool, w: Wid, step: WorkStep, r: Ref)
    requires BaseInv(s) && GrowInv(s) && AllRegistered(s.q) && WorkEnabled(s, w, step) && r in s.q.heap
    ensures r in WorkNext(s, w, step).q.heap
    ensures One(BeganOf(r), ObserveWork(s, w, step)) + CarelessPotential(WorkNext(s, w, step), r) <=
            CarelessPotential(s, r)
  {
    var t := WorkNext(s, w, step);
    var ws, hs, qs := Total(s.procs, Waiting(r)), Total(s.procs, Handling(r)), Total(s.procs, AtRequeue(r));
    var ws', hs', qs' := Total(t.procs, Waiting(r)), Total(t.procs, Handling(r)), Total(t.procs, AtRequeue(r));
    WorkMoves(s, w, step, r);
    SumsStep(s, Worker(w, step), r, ws, hs, qs, ws', hs', qs');
    MovesPay(RetriesLeft(s.q.heap[r]), RetriesLeft(t.q.heap[r]), IsPending(s.q, r), IsPending(t.q, r),
             s.procs[w], NextProc(s, w, step), r, One(BeganOf(r), ObserveWork(s, w, step)), ws, ws', hs, hs', qs, qs');
  }

  /** The run submits `r` again while a worker holds it. */
  ghost predicate ResubmitsHeld(s: Pool, a: Action, r: Ref) {
    Resubmits(a, r) && Held(s.q, s.procs, r)
  }

  ghost function HeldResubmissions(s: Pool, acts: seq<Action>, r: Ref): nat
    requires Legal(s, acts)
    decreases |acts|
  {
    if acts == [] then 0
    else (if ResubmitsHeld(s, acts[0], r) then 1 else 0) + HeldResubmissions(Step(s, acts[0]), acts[1..], r)
  }

  lemma {:induction false} UnheldIsUnhandled(q: QState<Ref>, procs: seq<Proc>, r: Ref)
    requires r in q.heap && forall p :: p in procs ==> HeldBy(q, p) != Some(r)
    ensures Total(procs, Waiting(r)) == 0 && Total(procs, AtRequeue(r)) == 0
    ensures q.heap[r].CanRetry() ==> Total(procs, Handling(r)) == 0
  {
    if procs != [] {
      assert procs[0] in procs;
      UnheldIsUnhandled(q, procs[1..], r);
    }
  }

  lemma UnheldHasNoExcess(s: Pool, r: Ref)
    requires r in s.q.heap && !Held(s.q, s.procs, r)
    ensures Total(s.procs, Waiting(r)) == 0 && Total(s.procs, AtRequeue(r)) == 0
    ensures RetriesLeft(s.q.heap[r]) > 0 ==> Total(s.procs, Handling(r)) == 0
  {
    forall p | p in s.procs ensures HeldBy(s.q, p) != Some(r) {
      var w :| 0 <= w < |s.procs| && s.procs[w] == p;
      assert !Holds(s.q, s.procs, w, r);
    }
    UnheldIsUnhandled(s.q, s.procs, r);
  }

  lemma EnvChanges(s: Pool, e: EnvStep, r: Ref)
    requires BaseInv(s) && EnvEnabled(s, e) && r in s.q.heap
    ensures var q := EnvNext(s, e).q;
            && r in q.heap && RetriesLeft(q.heap[r]) == RetriesLeft(s.q.heap[r])
            && (if Resubmits(Env(e), r) then IsPending(q, r) == 1 else IsPending(q, r) <= IsPending(s.q, r))
  {
  }

  /** What a change of the pending status costs while the sums stay. */
  lemma PendingPays(left: nat, pending: nat, pending': nat, ws: nat, hs: nat, qs: nat, resubmits: bool, held: bool)
    requires pending <= 1 && pending' <= 1 && (pending' <= pending || resubmits)
    requires !held && left > 0 ==> hs == 0
    ensures Cost(left, pending', ws, hs, qs) <=
            Cost(left, pending, ws, hs, qs) + (if resubmits then 1 else 0) + (if resubmits && held then 1 else 0)
  {
  }

  lemma EnvPays(s: Pool, e: EnvStep, r: Ref)
    requires BaseInv(s) && GrowInv(s) && EnvEnabled(s, e) && r in s.q.heap
    ensures r in EnvNext(s, e).q.heap
    ensures CarelessPotential(EnvNext(s, e), r) <= CarelessPotential(s, r)
              + (if Resubmits(Env(e), r) then 1 else 0) + (if ResubmitsHeld(s, Env(e), r) then 1 else 0)
  {
    var t := EnvNext(s, e);
    var ws, hs, qs := Total(s.procs, Waiting(r)), Total(s.procs, Handling(r)), Total(s.procs, AtRequeue(r));
    EnvChanges(s, e, r);
    SumsStep(s, Env(e), r, ws, hs, qs,
             Total(t.procs, Waiting(r)), Total(t.procs, Handling(r)), Total(t.procs, AtRequeue(r)));
    if !Held(s.q, s.procs, r) {
      UnheldHasNoExcess(s, r);
    }
    PendingPays(RetriesLeft(s.q.heap[r]), IsPending(s.q, r), IsPending(t.q, r), ws, hs, qs,
                Resubmits(Env(e), r), Held(s.q, s.procs, r));
  }

  lemma GrowPays(s: Pool, g: nat, step: GrowStep, r: Ref)
    requires BaseInv(s) && GrowInv(s) && GrowEnabled(s, g, step) && r in s.q.heap
    ensures r in GrowNext(s, g, step).q.heap && CarelessPotential(GrowNext(s, g, step), r) == CarelessPotential(s, r)
  {
    var t := GrowNext(s, g, step);
    assert t.q == s.q;
    SumsStep(s, Grower(g, step), r,
             Total(s.procs, Waiting(r)), Total(s.procs, Handling(r)), Total(s.procs, AtRequeue(r)),
             Total(t.procs, Waiting(r)), Total(t.procs, Handling(r)), Total(t.procs, AtRequeue(r)));
  }

  lemma StepPays(s: Pool, a: Action, r: Ref)
    requires BaseInv(s) && GrowInv(s) && AllRegistered(s.q) && Enabled(s, a) && r in s.q.heap
    ensures r in Step(s, a).q.heap
    ensures One(BeganOf(r), Observe(s, a)) + CarelessPotential(Step(s, a), r) <= CarelessPotential(s, r)
              + (if Resubmits(a, r) then 1 else 0) + (if ResubmitsHeld(s, a, r) then 1 else 0)
  {
    match a
    case Env(e) => EnvPays(s, e, r);
    case Grower(g, step) => GrowPays(s, g, step, r);
    case Worker(w, step) => WorkPays(s, w, step, r);
  }

  lemma {:induction false} RunPays(s: Pool, acts: seq<Action>, r: Ref)
    requires BaseInv(s) && GrowInv(s) && AllRegistered(s.q) && Legal(s, acts) && OwnIdentifiers(s, acts)
             && r in s.q.heap
    ensures Tally(s, acts, BeganOf(r)) <=
            CarelessPotential(s, r) + Resubmissions(acts, r) + HeldResubmissions(s, acts, r)
    decreases |acts|
  {
    if acts != [] {
      StepPays(s, acts[0], r);
      StepKeepsBase(s, acts[0]);
      StepKeepsGrowInv(s, acts[0]);
      StepKeepsRegistered(s, acts[0]);
      RunPays(Step(s, acts[0]), acts[1..], r);
    }
  }

  /** A pending task that nobody holds is executed at most once more than it has retries left and
      is submitted again, plus one for each resubmission while a worker holds it. */
  lemma CarelessRetryBound(cfg: Config, scalers: nat, before: seq<Action>, after: seq<Action>, r: Ref)
    requires Legal(NewPool(cfg, scalers), before) && OwnIdentifiers(NewPool(cfg, scalers), before)
    requires Legal(Final(NewPool(cfg, scalers), before), after)
    requires OwnIdentifiers(Final(NewPool(cfg, scalers), before), after)
    requires var s := Final(NewPool(cfg, scalers), before);
             r in s.q.heap && s.q.heap[r].status == Pending && !Held(s.q, s.procs, r)
    ensures var s := Final(NewPool(cfg, scalers), before);
            Tally(s, after, BeganOf(r)) <=
              RetriesLeft(s.q.heap[r]) + 1 + Resubmissions(after, r) + HeldResubmissions(s, after, r)
  {
    var s0 := NewPool(cfg, scalers);
    NewPoolCounts(cfg, scalers);
    RunKeepsBase(s0, before);
    RunKeepsCounts(s0, before);
    RunKeepsRegistered(s0, before);
    var s := Final(s0, before);
    UnheldHasNoExcess(s, r);
    RunPays(s, after, r);
  }
}
