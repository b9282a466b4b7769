/** What becomes of a task is decided by what its executor returned: over every run, for every
    worker and every task, counted from the actions and the events alone. */
module PoolOutcomes {
  import opened Tasks
  import opened QueueModel
  import opened PoolMachine
  import opened PoolOwnership
  import opened PoolCounting
  import opened PoolClaims

  function Ind(b: bool): nat {
    if b then 1 else 0
  }

  /** Where worker `w` is; one that has not been spawned is still to be inserted. */
  function Stage(s: Pool, w: Wid): Pc {
    if w < |s.procs| then s.procs[w].pc else Inserted
  }

  /** The others leave a worker where it is, or start it. */
  lemma OthersLeaveStage(s: Pool, a: Action, w: Wid)
    requires GrowInv(s) && WellFormed(s.q) && Enabled(s, a) && !IsStepOf(a, w)
    ensures Stage(Step(s, a), w) == Stage(s, w) || (Stage(s, w) == Inserted && Stage(Step(s, a), w) == AtSelect)
  {
    if w < |s.procs| {
      OthersLeaveProc(s, a, w);
      assert a.Grower? && HasSpawned(s.growers[a.g]) == 1 ==> s.procs[s.growers[a.g].spawned.value].pc == Inserted;
    }
  }

  // ----- Every worker -----

  /** One for a worker that is about to write Completed. */
  function Completing(pc: Pc): nat {
    Ind(pc.Succeeded?)
  }

  /** One for a worker inside `handleTaskError`. */
  function Handling(pc: Pc): nat {
    Ind(pc.Failing? || pc.Retrying? || pc.Burying? || pc.DeadLettering?)
  }

  function DoneBy(w: Wid): Event -> bool {
    (e: Event) => e.Done? && e.w == w
  }

  function GivenBackBy(w: Wid): Event -> bool {
    (e: Event) => (e.Retried? || e.Buried?) && e.w == w
  }

  lemma SuccessCompletes(s: Pool, w: Wid, step: WorkStep)
    requires WellFormed(s.q) && WorkEnabled(s, w, step)
    ensures Completing(s.procs[w].pc) + Ind(step == Return(true)) ==
            One(DoneBy(w), ObserveWork(s, w, step)) + Completing(NextProc(s, w, step).pc)
  {
  }

  /** The steps of `executeTask` and of `handleTaskSuccess`. */
  predicate IsExecution(step: WorkStep) {
    step.MarkBusy? || step.Execute? || step.Return? || step.Complete?
  }

  /** The steps of `handleTaskError`. */
  predicate IsHandling(step: WorkStep) {
    step.AskRetry? || step.CallRequeue? || step.WriteFailed? || step.CallDeadLetter?
  }

  lemma FailureIsHandled(s: Pool, w: Wid, step: WorkStep)
    requires WellFormed(s.q) && WorkEnabled(s, w, step) && !IsHandling(step)
    ensures Handling(s.procs[w].pc) + Ind(step == Return(false)) + Ind(step == Execute(false)) ==
            One(GivenBackBy(w), ObserveWork(s, w, step)) + Handling(NextProc(s, w, step).pc)
  {
  }

  lemma HandlerGivesBack(s: Pool, w: Wid, step: WorkStep)
    requires WellFormed(s.q) && WorkEnabled(s, w, step) && OwnsRegistered(s, w) && IsHandling(step)
    ensures Handling(s.procs[w].pc) == One(GivenBackBy(w), ObserveWork(s, w, step)) + Handling(NextProc(s, w, step).pc)
  {
  }

  lemma OwnStepDecides(s: Pool, w: Wid, step: WorkStep)
    requires BaseInv(s) && WorkEnabled(s, w, step)
    ensures var pc, pc', e := s.procs[w].pc, NextProc(s, w, step).pc, ObserveWork(s, w, step);
            && Completing(pc) + Ind(step == Return(true)) == One(DoneBy(w), e) + Completing(pc')
            && Handling(pc) + Ind(step == Return(false)) + Ind(step == Execute(false)) ==
               One(GivenBackBy(w), e) + Handling(pc')
  {
    SuccessCompletes(s, w, step);
    if IsHandling(step) {
      OwnedIsRegistered(s, w);
      HandlerGivesBack(s, w, step);
    } else {
      FailureIsHandled(s, w, step);
    }
  }

  lemma OthersDecideNothing(s: Pool, a: Action, w: Wid)
    requires WellFormed(s.q) && Enabled(s, a) && !IsStepOf(a, w)
    ensures One(DoneBy(w), Observe(s, a)) == 0 && One(GivenBackBy(w), Observe(s, a)) == 0
  {
  }

  lemma StepDecides(s: Pool, a: Action, w: Wid)
    requires BaseInv(s) && GrowInv(s) && Enabled(s, a)
    ensures var pc, pc', e := Stage(s, w), Stage(Step(s, a), w), Observe(s, a);
            && Completing(pc) + Ind(a == Worker(w, Return(true))) == One(DoneBy(w), e) + Completing(pc')
            && Handling(pc) + Ind(a == Worker(w, Return(false))) + Ind(a == Worker(w, Execute(false))) ==
               One(GivenBackBy(w), e) + Handling(pc')
  {
    if IsStepOf(a, w) {
      OwnStepDecides(s, w, a.work);
    } else {
      OthersLeaveStage(s, a, w);
      OthersDecideNothing(s, a, w);
    }
  }

  lemma FirstCounts<T>(xs: seq<T>, x: T)
    requires xs != []
    ensures multiset(xs)[x] == Ind(xs[0] == x) + multiset(xs[1..])[x]
  {
    assert xs == [xs[0]] + xs[1..];
  }

  lemma {:induction false} RunDecides(s: Pool, acts: seq<Action>, w: Wid)
    requires BaseInv(s) && GrowInv(s) && Legal(s, acts)
    ensures Completing(Stage(s, w)) + multiset(acts)[Worker(w, Return(true))] ==
            Tally(s, acts, DoneBy(w)) + Completing(Stage(Final(s, acts), w))
    ensures Handling(Stage(s, w)) + multiset(acts)[Worker(w, Return(false))]
            + multiset(acts)[Worker(w, Execute(false))] ==
            Tally(s, acts, GivenBackBy(w)) + Handling(Stage(Final(s, acts), w))
    decreases |acts|
  {
    if acts != [] {
      FirstCounts(acts, Worker(w, Return(true)));
      FirstCounts(acts, Worker(w, Return(false)));
      FirstCounts(acts, Worker(w, Execute(false)));
      StepDecides(s, acts[0], w);
      StepKeepsBase(s, acts[0]);
      StepKeepsGrowInv(s, acts[0]);
      RunDecides(Step(s, acts[0]), acts[1..], w);
    }
  }

  /** In every run, careless submissions included, a worker completes exactly the tasks whose
      executor returned no error, but for one that it may be about to complete, and requeues
      or dead-letters exactly those whose executor returned an error or that had no executor,
      but for one that it may be handling. */
  lemma ExecutorDecides(cfg: Config, scalers: nat, acts: seq<Action>, w: Wid)
    requires Legal(NewPool(cfg, scalers), acts)
    ensures var s0 := NewPool(cfg, scalers); var s := Final(s0, acts); var did := multiset(acts);
            && did[Worker(w, Return(true))] ==
               Tally(s0, acts, (e: Event) => e.Done? && e.w == w)
               + (if w < |s.procs| && s.procs[w].pc.Succeeded? then 1 else 0)
            && did[Worker(w, Return(false))] + did[Worker(w, Execute(false))] ==
               Tally(s0, acts, (e: Event) => (e.Retried? || e.Buried?) && e.w == w)
               + (if w < |s.procs| && (s.procs[w].pc.Failing? || s.procs[w].pc.Retrying?
                                       || s.procs[w].pc.Burying? || s.procs[w].pc.DeadLettering?) then 1 else 0)
  {
    var s0 := NewPool(cfg, scalers);
    NewPoolCounts(cfg, scalers);
    RunDecides(s0, acts, w);
    SameTally(s0, acts, DoneBy(w), (e: Event) => e.Done? && e.w == w);
    SameTally(s0, acts, GivenBackBy(w), (e: Event) => (e.Retried? || e.Buried?) && e.w == w);
  }

  lemma {:induction false} SameTally(s: Pool, acts: seq<Action>, p: Event -> bool, q: Event -> bool)
    requires Legal(s, acts) && forall e :: p(e) == q(e)
    ensures Tally(s, acts, p) == Tally(s, acts, q)
    decreases |acts|
  {
    if acts != [] {
      SameTally(Step(s, acts[0]), acts[1..], p, q);
    }
  }

  // ----- Every task of every worker -----

  /** What one worker has done with one task. */
  datatype Outcomes = Outcomes(
    claimed: nat,
    begun: nat,
    refused: nat,       // no executor for its type
    succeeded: nat,     // the executor returned no error
    failed: nat,        // the executor returned an error
    granted: nat,       // asked for a retry with retries left
    denied: nat,        // and without
    completed: nat,
    retried: nat,
    buried: nat)

  function Plus(c: Outcomes, d: Outcomes): Outcomes {
    Outcomes(c.claimed + d.claimed, c.begun + d.begun, c.refused + d.refused, c.succeeded + d.succeeded,
             c.failed + d.failed, c.granted + d.granted, c.denied + d.denied, c.completed + d.completed,
             c.retried + d.retried, c.buried + d.buried)
  }

  function OutcomeOf(s: Pool, a: Action, w: Wid, r: Ref): Outcomes
    requires WellFormed(s.q) && Enabled(s, a)
  {
    var e, pc := Observe(s, a), Stage(s, w);
    var asked := a == Worker(w, AskRetry) && pc == Failing(r) && r in s.q.heap;
    Outcomes(
      Ind(e == Claim(w, r)),
      Ind(e == Began(w, r)),
      Ind(a == Worker(w, Execute(false)) && pc == Marked(r)),
      Ind(a == Worker(w, Return(true)) && pc == Executing(r)),
      Ind(a == Worker(w, Return(false)) && pc == Executing(r)),
      Ind(asked && s.q.heap[r].retryCount < s.q.heap[r].maxRetries),
      Ind(asked && s.q.heap[r].retryCount >= s.q.heap[r].maxRetries),
      Ind(e == Done(w, r)),
      Ind(e == Retried(w, r)),
      Ind(e == Buried(w, r)))
  }

  ghost function OutcomesOf(s: Pool, acts: seq<Action>, w: Wid, r: Ref): Outcomes
    requires Legal(s, acts)
    decreases |acts|
  {
    if acts == [] then Outcomes(0, 0, 0, 0, 0, 0, 0, 0, 0, 0)
    else Plus(OutcomeOf(s, acts[0], w, r), OutcomesOf(Step(s, acts[0]), acts[1..], w, r))
  }

  /** The books of a worker that went from `pc` to `pc'`. */
  predicate Balanced(pc: Pc, c: Outcomes, pc': Pc, r: Ref) {
    && Ind(pc == PoolMachine.Claimed(r) || pc == Marked(r)) + c.claimed ==
       c.begun + c.refused + Ind(pc' == PoolMachine.Claimed(r) || pc' == Marked(r))
    && Ind(pc == Executing(r)) + c.begun == c.succeeded + c.failed + Ind(pc' == Executing(r))
    && Ind(pc == Succeeded(r)) + c.succeeded == c.completed + Ind(pc' == Succeeded(r))
    && Ind(pc == Failing(r)) + c.failed + c.refused == c.granted + c.denied + Ind(pc' == Failing(r))
    && Ind(pc == Retrying(r)) + c.granted == c.retried + Ind(pc' == Retrying(r))
    && Ind(pc == Burying(r) || pc == DeadLettering(r)) + c.denied ==
       c.buried + Ind(pc' == Burying(r) || pc' == DeadLettering(r))
  }

  lemma BalancesAdd(pc: Pc, c: Outcomes, pc': Pc, d: Outcomes, pc'': Pc, r: Ref)
    requires Balanced(pc, c, pc', r) && Balanced(pc', d, pc'', r)
    ensures Balanced(pc, Plus(c, d), pc'', r)
  {
  }

  lemma ClaimBalances(s: Pool, w: Wid, step: WorkStep, r: Ref)
    requires WellFormed(s.q) && WorkEnabled(s, w, step) && step.CallDequeue?
    ensures Balanced(s.procs[w].pc, OutcomeOf(s, Worker(w, step), w, r), NextProc(s, w, step).pc, r)
  {
  }

  lemma BeginningBalances(s: Pool, w: Wid, step: WorkStep, r: Ref)
    requires WellFormed(s.q) && WorkEnabled(s, w, step) && (step.MarkBusy? || step.Execute?)
    ensures Balanced(s.procs[w].pc, OutcomeOf(s, Worker(w, step), w, r), NextProc(s, w, step).pc, r)
  {
  }

  lemma EndingBalances(s: Pool, w: Wid, step: WorkStep, r: Ref)
    requires WellFormed(s.q) && WorkEnabled(s, w, step) && (step.Return? || step.Complete?)
    ensures Balanced(s.procs[w].pc, OutcomeOf(s, Worker(w, step), w, r), NextProc(s, w, step).pc, r)
  {
  }

  lemma HandlingBalances(s: Pool, w: Wid, step: WorkStep, r: Ref)
    requires WellFormed(s.q) && WorkEnabled(s, w, step) && OwnsRegistered(s, w) && IsHandling(step)
    ensures Balanced(s.procs[w].pc, OutcomeOf(s, Worker(w, step), w, r), NextProc(s, w, step).pc, r)
  {
  }

  lemma IdlingBalances(s: Pool, w: Wid, step: WorkStep, r: Ref)
    requires WellFormed(s.q) && WorkEnabled(s, w, step)
    requires !step.CallDequeue? && !IsExecution(step) && !IsHandling(step)
    ensures Balanced(s.procs[w].pc, OutcomeOf(s, Worker(w, step), w, r), NextProc(s, w, step).pc, r)
  {
  }

  lemma OwnStepBalances(s: Pool, w: Wid, step: WorkStep, r: Ref)
    requires BaseInv(s) && WorkEnabled(s, w, step)
    ensures Balanced(s.procs[w].pc, OutcomeOf(s, Worker(w, step), w, r), NextProc(s, w, step).pc, r)
  {
    OwnedIsRegistered(s, w);
    if step.CallDequeue? {
      ClaimBalances(s, w, step, r);
    } else if IsExecution(step) {
      if step.MarkBusy? || step.Execute? {
        BeginningBalances(s, w, step, r);
      } else {
        EndingBalances(s, w, step, r);
      }
    } else if IsHandling(step) {
      HandlingBalances(s, w, step, r);
    } else {
      IdlingBalances(s, w, step, r);
    }
  }

  lemma OthersBalance(s: Pool, a: Action, w: Wid, r: Ref)
    requires GrowInv(s) && WellFormed(s.q) && Enabled(s, a) && !IsStepOf(a, w)
    ensures Balanced(Stage(s, w), OutcomeOf(s, a, w, r), Stage(Step(s, a), w), r)
  {
    OthersLeaveStage(s, a, w);
    OthersDoNothing(s, a, w, r);
  }

  lemma OthersDoNothing(s: Pool, a: Action, w: Wid, r: Ref)
    requires WellFormed(s.q) && Enabled(s, a) && !IsStepOf(a, w)
    ensures OutcomeOf(s, a, w, r) == Outcomes(0, 0, 0, 0, 0, 0, 0, 0, 0, 0)
  {
  }

  lemma StepBalances(s: Pool, a: Action, w: Wid, r: Ref)
    requires BaseInv(s) && GrowInv(s) && Enabled(s, a)
    ensures Balanced(Stage(s, w), OutcomeOf(s, a, w, r), Stage(Step(s, a), w), r)
  {
    if IsStepOf(a, w) {
      OwnStepBalances(s, w, a.work, r);
    } else {
      OthersBalance(s, a, w, r);
    }
  }

  lemma {:induction false} RunBalances(s: Pool, acts: seq<Action>, w: Wid, r: Ref)
    requires BaseInv(s) && GrowInv(s) && Legal(s, acts)
    ensures Balanced(Stage(s, w), OutcomesOf(s, acts, w, r), Stage(Final(s, acts), w), r)
    decreases |acts|
  {
    if acts != [] {
      var a := acts[0];
      var t := Step(s, a);
      StepBalances(s, a, w, r);
      StepKeepsBase(s, a);
      StepKeepsGrowInv(s, a);
      RunBalances(t, acts[1..], w, r);
      BalancesAdd(Stage(s, w), OutcomeOf(s, a, w, r), Stage(t, w), OutcomesOf(t, acts[1..], w, r),
                  Stage(Final(s, acts), w), r);
    }
  }

  /** In every run each worker's claims of a task end in exactly as many executions or refusals
      of it, these in as many successes and failures, successes in completions, and failures
      and refusals in a requeue as long as the task had retries left when the worker asked, and
      in a dead letter otherwise; at most one is on its way at any time. */
  lemma OutcomesFollow(cfg: Config, scalers: nat, acts: seq<Action>, w: Wid, r: Ref)
    requires Legal(NewPool(cfg, scalers), acts)
    ensures var c := OutcomesOf(NewPool(cfg, scalers), acts, w, r);
            var pc := Stage(Final(NewPool(cfg, scalers), acts), w);
            && c.claimed == c.begun + c.refused + Ind(pc == PoolMachine.Claimed(r) || pc == Marked(r))
            && c.begun == c.succeeded + c.failed + Ind(pc == Executing(r))
            && c.succeeded == c.completed + Ind(pc == Succeeded(r))
            && c.failed + c.refused == c.granted + c.denied + Ind(pc == Failing(r))
            && c.granted == c.retried + Ind(pc == Retrying(r))
            && c.denied == c.buried + Ind(pc == Burying(r) || pc == DeadLettering(r))
  {
    NewPoolCounts(cfg, scalers);
    RunBalances(NewPool(cfg, scalers), acts, w, r);
  }

  // ----- Busy -----

  /** From marking the worker busy to clearing it. */
  function TaskAtHand(pc: Pc): Option<Ref> {
    match pc
    case Marked(r) => Some(r)
    case Executing(r) => Some(r)
    case Succeeded(r) => Some(r)
    case Failing(r) => Some(r)
    case Retrying(r) => Some(r)
    case Burying(r) => Some(r)
    case DeadLettering(r) => Some(r)
    case Settled(r) => Some(r)
    case _ => None
  }

  predicate Marking(p: Proc) {
    p.currentTask == TaskAtHand(p.pc) && (p.busy <==> p.currentTask.Some?)
  }

  lemma OwnStepMarks(s: Pool, w: Wid, step: WorkStep)
    requires WellFormed(s.q) && WorkEnabled(s, w, step) && Marking(s.procs[w])
    ensures Marking(NextProc(s, w, step))
  {
  }

  lemma EnvMarks(s: Pool, e: EnvStep)
    requires WellFormed(s.q) && EnvEnabled(s, e) && forall p :: p in s.procs ==> Marking(p)
    ensures forall p :: p in EnvNext(s, e).procs ==> Marking(p)
  {
    if IsSignal(e) {
      assert s.procs[e.worker] in s.procs;
    }
  }

  lemma GrowMarks(s: Pool, g: nat, step: GrowStep)
    requires GrowInv(s) && GrowEnabled(s, g, step) && forall p :: p in s.procs ==> Marking(p)
    ensures forall p :: p in GrowNext(s, g, step).procs ==> Marking(p)
  {
    if step.Increment? {
      assert HasSpawned(s.growers[g]) == 1;
      assert s.procs[s.growers[g].spawned.value] in s.procs;
    }
  }

  lemma StepMarks(s: Pool, a: Action)
    requires GrowInv(s) && WellFormed(s.q) && Enabled(s, a) && forall p :: p in s.procs ==> Marking(p)
    ensures forall p :: p in Step(s, a).procs ==> Marking(p)
  {
    match a
    case Env(e) => EnvMarks(s, e);
    case Grower(g, step) => GrowMarks(s, g, step);
    case Worker(w, step) =>
      assert s.procs[w] in s.procs;
      OwnStepMarks(s, w, step);
  }

  lemma {:induction false} RunMarks(s: Pool, acts: seq<Action>)
    requires BaseInv(s) && GrowInv(s) && Legal(s, acts) && forall p :: p in s.procs ==> Marking(p)
    ensures forall p :: p in Final(s, acts).procs ==> Marking(p)
    decreases |acts|
  {
    if acts != [] {
      StepMarks(s, acts[0]);
      StepKeepsBase(s, acts[0]);
      StepKeepsGrowInv(s, acts[0]);
      RunMarks(Step(s, acts[0]), acts[1..]);
    }
  }

  /** In every run a worker that executes a task is busy with that task, and one that is not
      busy has no current task. */
  lemma ExecutingIsBusy(cfg: Config, scalers: nat, acts: seq<Action>, w: Wid)
    requires Legal(NewPool(cfg, scalers), acts) && w < |Final(NewPool(cfg, scalers), acts).procs|
    ensures var p := Final(NewPool(cfg, scalers), acts).procs[w];
            && (p.pc.Executing? ==> p.busy && p.currentTask == Some(p.pc.task))
            && (p.pc == AtSelect || p.pc == Body || p.pc == Gone ==> !p.busy)
            && (p.busy <==> p.currentTask.Some?)
  {
    NewPoolCounts(cfg, scalers);
    RunMarks(NewPool(cfg, scalers), acts);
    var s := Final(NewPool(cfg, scalers), acts);
    assert s.procs[w] in s.procs;
  }

  // ----- What a settlement writes -----

  /** Every other task object is left as it was. */
  ghost predicate OnlyTaskChanged(q: QState<Ref>, q': QState<Ref>, x: Ref) {
    q'.tasks == q.tasks && q'.heap.Keys == q.heap.Keys && forall y :: y in q.heap && y != x ==> q'.heap[y] == q.heap[y]
  }

  lemma DoneWrites(s: Pool, a: Action, w: Wid, r: Ref)
    requires BaseInv(s) && Enabled(s, a) && Observe(s, a) == Done(w, r)
    ensures var q, q' := s.q, Step(s, a).q;
            && r in q.heap && OnlyTaskChanged(q, q', r) && q'.queue == q.queue
            && q'.heap[r].status == Completed && q'.heap[r].retryCount == q.heap[r].retryCount
  {
  }

  /** The task registered under the identifier becomes pending with one retry more, due after
      the delay, without worker and start time. */
  lemma RetriedWrites(s: Pool, a: Action, w: Wid, r: Ref)
    requires BaseInv(s) && Enabled(s, a) && Observe(s, a) == Retried(w, r)
    ensures a.Worker? && a.work.CallRequeue?
    ensures r in s.q.heap && s.q.heap[r].id in s.q.tasks
    ensures var q, q' := s.q, Step(s, a).q; var x := q.tasks[q.heap[r].id];
            && OnlyTaskChanged(q, q', x) && x in q'.queue && q'.heap[x].status == Pending
            && q'.heap[x].retryCount == q.heap[x].retryCount + 1
            && q'.heap[x].scheduledAt == a.work.at + a.work.delay
            && q'.heap[x].workerId == None && q'.heap[x].startedAt == None
  {
    RequeueKeepsInv(s.q, s.q.heap[r].id, a.work.delay, a.work.at, a.work.updated);
  }

  /** It becomes a dead letter for the given reason and keeps its retry count. */
  lemma BuriedWrites(s: Pool, a: Action, w: Wid, r: Ref)
    requires BaseInv(s) && Enabled(s, a) && Observe(s, a) == Buried(w, r)
    ensures a.Worker? && a.work.CallDeadLetter?
    ensures r in s.q.heap && s.q.heap[r].id in s.q.tasks
    ensures var q, q' := s.q, Step(s, a).q; var x := q.tasks[q.heap[r].id];
            && OnlyTaskChanged(q, q', x) && q'.queue == q.queue
            && q'.heap[x].status == DeadLetter && q'.heap[x].lastError == Some(a.work.reason)
            && q'.heap[x].retryCount == q.heap[x].retryCount
  {
  }
}
