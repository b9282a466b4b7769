/** Conservation of claims and the bound on executions, over every run of the pool. */
module PoolClaims {
  import opened Tasks
  import opened QueueModel
  import opened PoolMachine
  import opened PoolOwnership
  import opened PoolCounting

  function One(p: Event -> bool, e: Event): nat {
    if p(e) then 1 else 0
  }

  // ----- Claims are conserved -----

  predicate IsClaim(e: Event) { e.Claim? }

  predicate IsSettlement(e: Event) { e.Done? || e.Retried? || e.Buried? }

  /** One for a worker with a task in flight. */
  function InFlight(p: Proc): nat {
    if Owned(p).Some? then 1 else 0
  }

  /** The task of worker `w`, if it owns one, is registered. */
  predicate OwnsRegistered(s: Pool, w: Wid)
    requires w < |s.procs|
  {
    var owned := Owned(s.procs[w]);
    owned.Some? ==> owned.value in s.q.heap && s.q.heap[owned.value].id in s.q.tasks
  }

  lemma OwnedIsRegistered(s: Pool, w: Wid)
    requires BaseInv(s) && w < |s.procs|
    ensures OwnsRegistered(s, w)
  {
  }

  lemma RegisteredConservesClaims(s: Pool, w: Wid, step: WorkStep)
    requires WellFormed(s.q) && WorkEnabled(s, w, step) && OwnsRegistered(s, w)
    ensures InFlight(s.procs[w]) + One(IsClaim, ObserveWork(s, w, step)) ==
            InFlight(NextProc(s, w, step)) + One(IsSettlement, ObserveWork(s, w, step))
  {
  }

  lemma WorkConservesClaims(s: Pool, w: Wid, step: WorkStep)
    requires BaseInv(s) && WorkEnabled(s, w, step)
    ensures InFlight(s.procs[w]) + One(IsClaim, ObserveWork(s, w, step)) ==
            InFlight(NextProc(s, w, step)) + One(IsSettlement, ObserveWork(s, w, step))
  {
    OwnedIsRegistered(s, w);
    RegisteredConservesClaims(s, w, step);
  }

  lemma GrowTotal(s: Pool, g: nat, step: GrowStep, f: Proc -> nat)
    requires GrowInv(s) && GrowEnabled(s, g, step)
    requires forall p: Proc :: p.pc == Inserted || p.pc == AtSelect ==> f(p) == 0
    ensures Total(GrowNext(s, g, step).procs, f) == Total(s.procs, f)
  {
    var t := GrowNext(s, g, step).procs;
    if step.Insert? {
      TotalAppend(s.procs, t[|s.procs|], f);
    } else if step.Increment? {
      var w := s.growers[g].spawned.value;
      assert HasSpawned(s.growers[g]) == 1;
      TotalUpdate(s.procs, w, t[w], f);
    }
  }

  /** A sum over the workers changes through the one worker that the step moves. */
  lemma StepTotal(s: Pool, a: Action, f: Proc -> nat)
    requires WellFormed(s.q) && GrowInv(s) && Enabled(s, a)
    requires forall p: Proc :: p.pc == Inserted || p.pc == AtSelect ==> f(p) == 0
    requires forall p: Proc, q: Proc :: p.pc == q.pc ==> f(p) == f(q)
    ensures a.Worker? ==>
            Total(Step(s, a).procs, f) + f(s.procs[a.w]) == Total(s.procs, f) + f(NextProc(s, a.w, a.work))
    ensures !a.Worker? ==> Total(Step(s, a).procs, f) == Total(s.procs, f)
  {
    match a
    case Env(e) =>
      if IsSignal(e) {
        TotalUpdate(s.procs, e.worker, SignalledProc(s.procs[e.worker], e), f);
      }
    case Grower(g, step) => GrowTotal(s, g, step, f);
    case Worker(w, step) => TotalUpdate(s.procs, w, NextProc(s, w, step), f);
  }

  lemma StepConservesClaims(s: Pool, a: Action)
    requires BaseInv(s) && GrowInv(s) && Enabled(s, a)
    ensures Total(s.procs, InFlight) + One(IsClaim, Observe(s, a)) ==
            Total(Step(s, a).procs, InFlight) + One(IsSettlement, Observe(s, a))
  {
    StepTotal(s, a, InFlight);
    if a.Worker? {
      WorkConservesClaims(s, a.w, a.work);
    }
  }

  lemma {:induction false} RunConservesClaims(s: Pool, acts: seq<Action>)
    requires BaseInv(s) && GrowInv(s) && Legal(s, acts)
    ensures Total(s.procs, InFlight) + Tally(s, acts, IsClaim) ==
            Total(Final(s, acts).procs, InFlight) + Tally(s, acts, IsSettlement)
    decreases |acts|
  {
    if acts != [] {
      StepConservesClaims(s, acts[0]);
      StepKeepsBase(s, acts[0]);
      StepKeepsGrowInv(s, acts[0]);
      RunConservesClaims(Step(s, acts[0]), acts[1..]);
    }
  }

  /** In every run, careless submissions included, every claim has been completed, requeued or
      dead-lettered, or is in flight. */
  lemma ClaimsAreConserved(cfg: Config, scalers: nat, acts: seq<Action>)
    requires Legal(NewPool(cfg, scalers), acts)
    ensures var s0 := NewPool(cfg, scalers);
            Tally(s0, acts, IsClaim) == Tally(s0, acts, IsSettlement) + Total(Final(s0, acts).procs, InFlight)
  {
    NewPoolCounts(cfg, scalers);
    RunConservesClaims(NewPool(cfg, scalers), acts);
  }

  // ----- How often a task is executed -----

  /** One for a worker that has claimed `r` and has not yet begun or refused to execute it. */
  function Waiting(r: Ref): Proc -> nat {
    (p: Proc) => if p.pc == PoolMachine.Claimed(r) || p.pc == Marked(r) then 1 else 0
  }

  function BeganOf(r: Ref): Event -> bool {
    (e: Event) => e.Began? && e.r == r
  }

  function RetriesLeft(t: TaskRec): nat {
    if t.retryCount < t.maxRetries then t.maxRetries - t.retryCount else 0
  }

  function QueuePotential(q: QState<Ref>, r: Ref): nat
    requires r in q.heap
  {
    RetriesLeft(q.heap[r]) + (if q.heap[r].status == Pending then 1 else 0)
  }

  /** How many executions of `r` may still begin. */
  ghost function Potential(s: Pool, r: Ref): nat
    requires r in s.q.heap
  {
    QueuePotential(s.q, r) + Total(s.procs, Waiting(r))
  }

  predicate Resubmits(a: Action, r: Ref) {
    a.Env? && a.env.Submit? && a.env.r == r
  }

  /** How often the run submits `r` again. */
  function Resubmissions(acts: seq<Action>, r: Ref): nat {
    if acts == [] then 0 else (if Resubmits(acts[0], r) then 1 else 0) + Resubmissions(acts[1..], r)
  }

  lemma DequeueSpendsPotential(s: Pool, w: Wid, req: Requirements, scan: seq<int>, now: int, r: Ref)
    requires BaseInv(s) && WorkEnabled(s, w, CallDequeue(req, scan, now)) && r in s.q.heap
    ensures var step := CallDequeue(req, scan, now);
            && r in NextQueue(s, w, step).heap
            && QueuePotential(NextQueue(s, w, step), r) + Waiting(r)(NextProc(s, w, step)) <= QueuePotential(s.q, r)
  {
  }

  lemma BeginningSpendsWaiting(s: Pool, w: Wid, step: WorkStep, r: Ref)
    requires WellFormed(s.q) && WorkEnabled(s, w, step) && !step.CallDequeue?
    ensures One(BeganOf(r), ObserveWork(s, w, step)) + Waiting(r)(NextProc(s, w, step)) <= Waiting(r)(s.procs[w])
  {
  }

  lemma RequeueSpendsPotential(s: Pool, w: Wid, delay: int, at: int, updated: int, r: Ref)
    requires OwnershipInv(s) && WorkEnabled(s, w, CallRequeue(delay, at, updated)) && r in s.q.heap
    ensures var q := NextQueue(s, w, CallRequeue(delay, at, updated));
            r in q.heap && QueuePotential(q, r) <= QueuePotential(s.q, r)
  {
    var x := s.procs[w].pc.task;
    assert Holds(s.q, s.procs, w, x);
    RequeueKeepsExclusive(s.q, s.procs, w, x, delay, at, updated);
  }

  lemma OwnerSpendsPotential(s: Pool, w: Wid, step: WorkStep, r: Ref)
    requires OwnershipInv(s) && WorkEnabled(s, w, step) && r in s.q.heap && !step.CallDequeue?
    ensures r in NextQueue(s, w, step).heap
    ensures QueuePotential(NextQueue(s, w, step), r) <= QueuePotential(s.q, r)
  {
    if step.CallRequeue? {
      RequeueSpendsPotential(s, w, step.delay, step.at, step.updated, r);
    }
  }

  lemma WorkSpendsPotential(s: Pool, w: Wid, step: WorkStep, r: Ref)
    requires OwnershipInv(s) && WorkEnabled(s, w, step) && r in s.q.heap
    ensures r in NextQueue(s, w, step).heap
    ensures One(BeganOf(r), ObserveWork(s, w, step)) + QueuePotential(NextQueue(s, w, step), r)
              + Waiting(r)(NextProc(s, w, step)) <= QueuePotential(s.q, r) + Waiting(r)(s.procs[w])
  {
    if step.CallDequeue? {
      DequeueSpendsPotential(s, w, step.req, step.scan, step.now, r);
    } else {
      BeginningSpendsWaiting(s, w, step, r);
      OwnerSpendsPotential(s, w, step, r);
    }
  }

  lemma EnvSpendsPotential(s: Pool, e: EnvStep, r: Ref)
    requires BaseInv(s) && EnvEnabled(s, e) && r in s.q.heap
    ensures r in EnvNext(s, e).q.heap
    ensures QueuePotential(EnvNext(s, e).q, r) <= QueuePotential(s.q, r) + (if Resubmits(Env(e), r) then 1 else 0)
  {
  }

  /** A step pays for the execution that it begins; only a resubmission adds one. */
  lemma StepSpendsPotential(s: Pool, a: Action, r: Ref)
    requires OwnershipInv(s) && GrowInv(s) && Enabled(s, a) && r in s.q.heap
    ensures r in Step(s, a).q.heap
    ensures One(BeganOf(r), Observe(s, a)) + Potential(Step(s, a), r) <=
            Potential(s, r) + (if Resubmits(a, r) then 1 else 0)
  {
    StepTotal(s, a, Waiting(r));
    match a
    case Env(e) => EnvSpendsPotential(s, e, r);
    case Grower(_, _) =>
    case Worker(w, step) => WorkSpendsPotential(s, w, step, r);
  }

  lemma {:induction false} RunSpendsPotential(s: Pool, acts: seq<Action>, r: Ref)
    requires OwnershipInv(s) && GrowInv(s) && Legal(s, acts) && Careful(s, acts) && r in s.q.heap
    ensures Tally(s, acts, BeganOf(r)) <= Potential(s, r) + Resubmissions(acts, r)
    decreases |acts|
  {
    if acts != [] {
      StepSpendsPotential(s, acts[0], r);
      StepKeepsOwnership(s, acts[0]);
      StepKeepsGrowInv(s, acts[0]);
      RunSpendsPotential(Step(s, acts[0]), acts[1..], r);
    }
  }

  lemma {:induction false} NoneWaiting(s: Pool, procs: seq<Proc>, r: Ref)
    requires OwnershipInv(s) && r in s.q.heap && s.q.heap[r].status == Pending
    requires forall p :: p in procs ==> p in s.procs
    ensures Total(procs, Waiting(r)) == 0
  {
    if procs != [] {
      assert procs[0] in procs;
      var w :| 0 <= w < |s.procs| && s.procs[w] == procs[0];
      assert !Holds(s.q, s.procs, w, r);
      NoneWaiting(s, procs[1..], r);
    }
  }

  /** A pending task is executed at most once more than it has retries left and is submitted
      again, in every continuation of every run, whoever signals, cancels or writes statuses. */
  lemma RetryBound(cfg: Config, scalers: nat, before: seq<Action>, after: seq<Action>, r: Ref)
    requires Legal(NewPool(cfg, scalers), before) && Careful(NewPool(cfg, scalers), before)
    requires Legal(Final(NewPool(cfg, scalers), before), after) && Careful(Final(NewPool(cfg, scalers), before), after)
    requires var s := Final(NewPool(cfg, scalers), before); r in s.q.heap && s.q.heap[r].status == Pending
    ensures var s := Final(NewPool(cfg, scalers), before);
            Tally(s, after, BeganOf(r)) <= RetriesLeft(s.q.heap[r]) + 1 + Resubmissions(after, r)
  {
    NewPoolCounts(cfg, scalers);
    RunKeepsOwnership(NewPool(cfg, scalers), before);
    RunKeepsCounts(NewPool(cfg, scalers), before);
    var s := Final(NewPool(cfg, scalers), before);
    NoneWaiting(s, s.procs, r);
    RunSpendsPotential(s, after, r);
  }
}
