/** Shutdown: what happens once `Stop` has cancelled the pool or `signalStop` has closed a
    worker's channel. */
module PoolShutdown {
  import opened Tasks
  import opened QueueModel
  import opened PoolMachine
  import opened PoolOwnership
  import opened PoolCounting
  import opened PoolClaims

  // ----- No new loop body -----

  predicate IsDequeueOf(a: Action, w: Wid) {
    IsStepOf(a, w) && a.work.CallDequeue?
  }

  function Dequeues(acts: seq<Action>, w: Wid): nat {
    if acts == [] then 0 else (if IsDequeueOf(acts[0], w) then 1 else 0) + Dequeues(acts[1..], w)
  }

  /** One while the worker has entered a loop body and not yet called `Dequeue`. */
  function BodyPending(p: Proc): nat { if p.pc == Body then 1 else 0 }

  lemma OwnStepAfterStop(s: Pool, w: Wid, step: WorkStep)
    requires WellFormed(s.q) && WorkEnabled(s, w, step) && StopVisible(s, w)
    ensures BodyPending(NextProc(s, w, step)) + (if step.CallDequeue? then 1 else 0) <= BodyPending(s.procs[w])
    ensures NextProc(s, w, step).stopClosed == s.procs[w].stopClosed
    ensures NextProc(s, w, step).stopDone == s.procs[w].stopDone
  {
  }

  lemma StepAfterStop(s: Pool, a: Action, w: Wid)
    requires WellFormed(s.q) && Enabled(s, a) && w < |s.procs| && StopVisible(s, w)
    ensures w < |Step(s, a).procs| && StopVisible(Step(s, a), w)
    ensures BodyPending(Step(s, a).procs[w]) + (if IsDequeueOf(a, w) then 1 else 0) <= BodyPending(s.procs[w])
  {
    CancelIsFinal(s, a);
    if IsStepOf(a, w) {
      OwnStepAfterStop(s, w, a.work);
    } else {
      OthersLeaveProc(s, a, w);
    }
  }

  /** After its channel is closed or its context is done, a worker calls `Dequeue` only if it
      had already entered the loop body, and then once. */
  lemma {:induction false} NoNewDequeueAfterStop(s: Pool, acts: seq<Action>, w: Wid)
    requires Legal(s, acts) && w < |s.procs| && StopVisible(s, w)
    ensures Dequeues(acts, w) <= BodyPending(s.procs[w])
    decreases |acts|
  {
    if acts != [] {
      StepAfterStop(s, acts[0], w);
      NoNewDequeueAfterStop(Step(s, acts[0]), acts[1..], w);
    }
  }

  // ----- A claimed task is finished -----

  function ClaimBy(w: Wid): Event -> bool {
    (e: Event) => e.Claim? && e.w == w
  }

  function SettlementBy(w: Wid): Event -> bool {
    (e: Event) => (e.Done? || e.Retried? || e.Buried?) && e.w == w
  }

  lemma ObservedAtOnesOwnStep(s: Pool, w: Wid, step: WorkStep)
    requires WellFormed(s.q) && WorkEnabled(s, w, step)
    ensures One(ClaimBy(w), ObserveWork(s, w, step)) == One(IsClaim, ObserveWork(s, w, step))
    ensures One(SettlementBy(w), ObserveWork(s, w, step)) == One(IsSettlement, ObserveWork(s, w, step))
  {
  }

  lemma OwnStepSettles(s: Pool, w: Wid, step: WorkStep)
    requires BaseInv(s) && WorkEnabled(s, w, step)
    ensures InFlight(s.procs[w]) + One(ClaimBy(w), ObserveWork(s, w, step)) ==
            InFlight(NextProc(s, w, step)) + One(SettlementBy(w), ObserveWork(s, w, step))
  {
    WorkConservesClaims(s, w, step);
    ObservedAtOnesOwnStep(s, w, step);
  }

  lemma OthersObserveOthers(s: Pool, a: Action, w: Wid)
    requires WellFormed(s.q) && Enabled(s, a) && !IsStepOf(a, w)
    ensures One(ClaimBy(w), Observe(s, a)) == 0 && One(SettlementBy(w), Observe(s, a)) == 0
  {
  }

  lemma SpawnedHoldsNothing(s: Pool, a: Action, w: Wid)
    requires GrowInv(s) && WellFormed(s.q) && Enabled(s, a) && w < |s.procs| && !IsStepOf(a, w)
    ensures w < |Step(s, a).procs| && InFlight(Step(s, a).procs[w]) == InFlight(s.procs[w])
  {
    OthersLeaveProc(s, a, w);
    assert a.Grower? && HasSpawned(s.growers[a.g]) == 1 ==> s.procs[s.growers[a.g].spawned.value].pc == Inserted;
  }

  /** Each worker settles what it holds and what it claims, one for one. */
  lemma {:induction false} WorkerSettlesItsClaims(s: Pool, acts: seq<Action>, w: Wid)
    requires BaseInv(s) && GrowInv(s) && Legal(s, acts) && w < |s.procs|
    ensures w < |Final(s, acts).procs|
    ensures InFlight(s.procs[w]) + Tally(s, acts, ClaimBy(w)) ==
            InFlight(Final(s, acts).procs[w]) + Tally(s, acts, SettlementBy(w))
    decreases |acts|
  {
    if acts != [] {
      var a := acts[0];
      if IsStepOf(a, w) {
        OwnStepSettles(s, w, a.work);
      } else {
        OthersObserveOthers(s, a, w);
        SpawnedHoldsNothing(s, a, w);
      }
      StepKeepsBase(s, a);
      StepKeepsGrowInv(s, a);
      WorkerSettlesItsClaims(Step(s, a), acts[1..], w);
    }
  }

  /** A worker that is told to stop while it holds a task completes, requeues or dead-letters
      that task before it is gone. */
  lemma StoppedWorkerFinishesItsTask(s: Pool, acts: seq<Action>, w: Wid)
    requires BaseInv(s) && GrowInv(s) && Legal(s, acts) && w < |s.procs| && StopVisible(s, w)
    requires Owned(s.procs[w]).Some?
    requires w < |Final(s, acts).procs| && Final(s, acts).procs[w].pc == Gone
    ensures Dequeues(acts, w) == 0
    ensures Tally(s, acts, SettlementBy(w)) == 1 + Tally(s, acts, ClaimBy(w))
  {
    NoNewDequeueAfterStop(s, acts, w);
    WorkerSettlesItsClaims(s, acts, w);
  }

  // ----- Everybody leaves -----

  function WorkerRank(p: Proc): nat {
    match p.pc
    case Gone => 0
    case Uncounted => 1
    case Leaving => 2
    case IdleFired => 3
    case AtSelect => 4
    case ScaleCheck => 5
    case Sleeping => 5
    case Settled(_) => 5
    case Inserted => 5
    case Succeeded(_) => 6
    case DeadLettering(_) => 6
    case Retrying(_) => 6
    case Burying(_) => 7
    case Failing(_) => 8
    case Executing(_) => 9
    case Marked(_) => 10
    case Claimed(_) => 11
    case Body => 12
  }

  function GrowerRank(pc: GrowPc): nat {
    match pc
    case Resting => 0
    case Ticked => 22
    case Holding => 21
    case Read(_) => 20
    case Adding(left, spawned) => if spawned.None? then 6 * left + 1 else if left == 0 then 0 else 6 * left - 5
  }

  ghost function Rank(s: Pool): nat {
    Total(s.procs, WorkerRank) + Total(s.growers, GrowerRank)
  }

  /** The worker is cancelled, or `signalStop` has made both of its writes. */
  predicate Flagged(s: Pool, w: Wid)
    requires w < |s.procs|
  {
    s.cancelled || (s.procs[w].stopClosed && s.procs[w].stopDone)
  }

  /** Every step of a flagged worker brings it closer to its exit. */
  lemma FlaggedWorkerDescends(s: Pool, w: Wid, step: WorkStep)
    requires WellFormed(s.q) && WorkEnabled(s, w, step) && Flagged(s, w)
    ensures WorkerRank(NextProc(s, w, step)) < WorkerRank(s.procs[w])
  {
  }

  function OwnSteps(acts: seq<Action>, w: Wid): nat {
    if acts == [] then 0 else (if IsStepOf(acts[0], w) then 1 else 0) + OwnSteps(acts[1..], w)
  }

  lemma StepDescends(s: Pool, a: Action, w: Wid)
    requires GrowInv(s) && WellFormed(s.q) && Enabled(s, a) && w < |s.procs| && Flagged(s, w)
    ensures w < |Step(s, a).procs| && Flagged(Step(s, a), w)
    ensures WorkerRank(Step(s, a).procs[w]) + (if IsStepOf(a, w) then 1 else 0) <= WorkerRank(s.procs[w])
  {
    CancelIsFinal(s, a);
    if IsStepOf(a, w) {
      FlaggedWorkerDescends(s, w, a.work);
      OwnStepKeepsFlags(s, w, a.work);
    } else {
      OthersLeaveProc(s, a, w);
      assert a.Grower? && HasSpawned(s.growers[a.g]) == 1 ==> s.procs[s.growers[a.g].spawned.value].pc == Inserted;
    }
  }

  lemma OwnStepKeepsFlags(s: Pool, w: Wid, step: WorkStep)
    requires WellFormed(s.q) && WorkEnabled(s, w, step)
    ensures NextProc(s, w, step).stopClosed == s.procs[w].stopClosed
    ensures NextProc(s, w, step).stopDone == s.procs[w].stopDone
  {
  }

  /** A worker that `signalStop` has told to stop takes at most `WorkerRank` more steps, in
      every interleaving and without any cancellation of the pool. */
  lemma {:induction false} SignalledWorkerExits(s: Pool, acts: seq<Action>, w: Wid)
    requires GrowInv(s) && Legal(s, acts) && w < |s.procs| && Flagged(s, w)
    ensures w < |Final(s, acts).procs|
    ensures OwnSteps(acts, w) + WorkerRank(Final(s, acts).procs[w]) <= WorkerRank(s.procs[w])
    decreases |acts|
  {
    if acts != [] {
      StepDescends(s, acts[0], w);
      StepKeepsGrowInv(s, acts[0]);
      SignalledWorkerExits(Step(s, acts[0]), acts[1..], w);
    }
  }

  lemma GrowLowersRank(s: Pool, g: nat, step: GrowStep)
    requires GrowInv(s) && s.cancelled && GrowEnabled(s, g, step)
    ensures Rank(GrowNext(s, g, step)) < Rank(s)
  {
    var t := GrowNext(s, g, step);
    TotalUpdate(s.growers, g, t.growers[g], GrowerRank);
    if step.Insert? {
      TotalAppend(s.procs, t.procs[|s.procs|], WorkerRank);
    } else if step.Increment? {
      var w := s.growers[g].spawned.value;
      assert HasSpawned(s.growers[g]) == 1;
      TotalUpdate(s.procs, w, t.procs[w], WorkerRank);
    }
  }

  lemma EnvKeepsRank(s: Pool, e: EnvStep)
    requires WellFormed(s.q) && EnvEnabled(s, e)
    ensures Rank(EnvNext(s, e)) == Rank(s)
  {
    if IsSignal(e) {
      var p := SignalledProc(s.procs[e.worker], e);
      assert WorkerRank(p) == WorkerRank(s.procs[e.worker]);
      TotalUpdate(s.procs, e.worker, p, WorkerRank);
    }
  }

  /** Once the pool is cancelled every step of a worker, of `Start` or of a scaler lowers the
      rank, and the environment cannot raise it. */
  lemma StepLowersRank(s: Pool, a: Action)
    requires GrowInv(s) && WellFormed(s.q) && s.cancelled && Enabled(s, a)
    ensures if a.Env? then Rank(Step(s, a)) == Rank(s) else Rank(Step(s, a)) < Rank(s)
  {
    match a
    case Env(e) => EnvKeepsRank(s, e);
    case Grower(g, step) => GrowLowersRank(s, g, step);
    case Worker(w, step) =>
      FlaggedWorkerDescends(s, w, step);
      TotalUpdate(s.procs, w, NextProc(s, w, step), WorkerRank);
  }

  function ThreadSteps(acts: seq<Action>): nat {
    if acts == [] then 0 else (if acts[0].Env? then 0 else 1) + ThreadSteps(acts[1..])
  }

  /** After cancellation the goroutines take at most `Rank` steps, however they interleave. */
  lemma {:induction false} ShutdownIsBounded(s: Pool, acts: seq<Action>)
    requires GrowInv(s) && s.cancelled && Legal(s, acts)
    ensures ThreadSteps(acts) + Rank(Final(s, acts)) <= Rank(s)
    decreases |acts|
  {
    if acts != [] {
      StepLowersRank(s, acts[0]);
      StepKeepsGrowInv(s, acts[0]);
      CancelIsFinal(s, acts[0]);
      ShutdownIsBounded(Step(s, acts[0]), acts[1..]);
    }
  }

  function NextStep(s: Pool, w: Wid): WorkStep
    requires w < |s.procs|
  {
    match s.procs[w].pc
    case AtSelect => TakeStop
    case IdleFired => CheckIdle
    case ScaleCheck => CheckScale
    case Body => CallDequeue(Requirements(0, 0), seq(|s.q.queue|, _ => s.clock), s.clock)
    case Sleeping => Wake(true)
    case Claimed(_) => MarkBusy
    case Marked(_) => Execute(true)
    case Executing(_) => Return(true)
    case Succeeded(_) => Complete
    case Failing(_) => AskRetry
    case Retrying(_) => CallRequeue(0, s.clock, s.clock)
    case Burying(_) => WriteFailed
    case DeadLettering(_) => CallDeadLetter("", s.clock)
    case Settled(_) => Clear
    case Leaving => Decrement
    case _ => Delete
  }

  lemma WorkerCanMove(s: Pool, w: Wid)
    requires BaseInv(s) && w < |s.procs| && StopVisible(s, w) && s.procs[w].pc != Inserted && s.procs[w].pc != Gone
    ensures Enabled(s, Worker(w, NextStep(s, w)))
  {
  }

  lemma {:induction false} SomeGrowerSpawned(growers: seq<GrowPc>) returns (g: nat)
    requires Total(growers, HasSpawned) > 0
    ensures g < |growers| && HasSpawned(growers[g]) == 1
  {
    if HasSpawned(growers[0]) == 1 {
      g := 0;
    } else {
      g := SomeGrowerSpawned(growers[1..]);
      g := g + 1;
    }
  }

  lemma {:induction false} AllGoneCountsZero(procs: seq<Proc>)
    requires forall w :: 0 <= w < |procs| ==> procs[w].pc == Gone
    ensures Total(procs, Counted) == 0
  {
    if procs != [] {
      AllGoneCountsZero(procs[1..]);
    }
  }

  lemma InsertedIsCounted(s: Pool, w: Wid) returns (g: nat)
    requires GrowInv(s) && w < |s.procs| && s.procs[w].pc == Inserted
    ensures Enabled(s, Grower(g, Increment))
  {
    TotalAtLeast(s.procs, w, Inserting);
    g := SomeGrowerSpawned(s.growers);
  }

  ghost predicate Quiescent(s: Pool) {
    forall a: Action :: !a.Env? ==> !Enabled(s, a)
  }

  /** When no goroutine of a cancelled pool can move any more, every worker has exited, the
      workers map is empty and `activeCount` is zero. */
  lemma QuiescentMeansAllGone(s: Pool)
    requires BaseInv(s) && GrowInv(s) && CountInv(s) && s.cancelled && Quiescent(s)
    ensures s.workers == {} && s.active == 0
  {
    forall w: Wid | w < |s.procs| ensures s.procs[w].pc == Gone {
      if s.procs[w].pc == Inserted {
        var g := InsertedIsCounted(s, w);
      } else if s.procs[w].pc != Gone {
        WorkerCanMove(s, w);
      }
    }
    AllGoneCountsZero(s.procs);
  }

  /** The whole story for every run: after `Stop` the goroutines make at most `Rank` more steps,
      and wherever they cannot go on all workers have left. */
  lemma StopDrainsThePool(cfg: Config, scalers: nat, before: seq<Action>, after: seq<Action>)
    requires Legal(NewPool(cfg, scalers), before)
    requires Final(NewPool(cfg, scalers), before).cancelled
    requires Legal(Final(NewPool(cfg, scalers), before), after)
    ensures var s := Final(NewPool(cfg, scalers), before); var t := Final(s, after);
            ThreadSteps(after) <= Rank(s) && (Quiescent(t) ==> t.workers == {} && t.active == 0)
  {
    var s0 := NewPool(cfg, scalers);
    NewPoolCounts(cfg, scalers);
    RunKeepsBase(s0, before);
    RunKeepsCounts(s0, before);
    var s := Final(s0, before);
    RunKeepsBase(s, after);
    RunKeepsCounts(s, after);
    ShutdownIsBounded(s, after);
    RunKeepsCancelled(s, after);
    if Quiescent(Final(s, after)) {
      QuiescentMeansAllGone(Final(s, after));
    }
  }

  lemma {:induction false} RunKeepsCancelled(s: Pool, acts: seq<Action>)
    requires Legal(s, acts) && s.cancelled
    ensures Final(s, acts).cancelled
    decreases |acts|
  {
    if acts != [] {
      CancelIsFinal(s, acts[0]);
      RunKeepsCancelled(Step(s, acts[0]), acts[1..]);
    }
  }

  // ----- signalStop -----

  /** The stage of the once, for a worker that may not exist yet. */
  function OnceOf(s: Pool, w: Wid): Once {
    if w < |s.procs| then s.procs[w].once else Untouched
  }

  function IsClosed(s: Pool, w: Wid): nat { if w < |s.procs| && s.procs[w].stopClosed then 1 else 0 }

  function IsFinished(s: Pool, w: Wid): nat { if OnceOf(s, w) == Finished then 1 else 0 }

  /** Each flag is set exactly from the stage on that sets it. */
  predicate StageMatchesFlags(p: Proc) {
    && (p.stopClosed <==> p.once == ChannelClosed || p.once == FlagStored || p.once == Finished)
    && (p.stopDone <==> p.once == FlagStored || p.once == Finished)
  }

  ghost predicate SignalInv(s: Pool) {
    forall p :: p in s.procs ==> StageMatchesFlags(p)
  }

  lemma NextProcKeepsFlags(s: Pool, w: Wid, step: WorkStep)
    requires WellFormed(s.q) && WorkEnabled(s, w, step)
    ensures var p, p' := s.procs[w], NextProc(s, w, step);
            p'.once == p.once && p'.stopClosed == p.stopClosed && p'.stopDone == p.stopDone
  {
  }

  lemma EnvKeepsSignalInv(s: Pool, e: EnvStep)
    requires SignalInv(s) && WellFormed(s.q) && EnvEnabled(s, e)
    ensures SignalInv(EnvNext(s, e))
  {
    if IsSignal(e) {
      assert s.procs[e.worker] in s.procs;
    }
  }

  lemma StepKeepsSignalInv(s: Pool, a: Action)
    requires SignalInv(s) && WellFormed(s.q) && Enabled(s, a)
    ensures SignalInv(Step(s, a))
  {
    if a.Worker? {
      NextProcKeepsFlags(s, a.w, a.work);
      assert s.procs[a.w] in s.procs;
    } else if a.Env? {
      EnvKeepsSignalInv(s, a.env);
    } else if a.Grower? && a.grow.Increment? {
      assert s.procs[s.growers[a.g].spawned.value] in s.procs;
    }
  }

  /** The channel is never closed twice: whenever a call is about to close it, it is open. */
  lemma ClosesAnOpenChannel(s: Pool, w: Wid)
    requires SignalInv(s) && WellFormed(s.q) && Enabled(s, Env(CloseStop(w)))
    ensures !s.procs[w].stopClosed
  {
    assert s.procs[w] in s.procs;
  }

  function CloseOf(w: Wid): Event -> bool { (e: Event) => e == Closed(w) }

  function TrueOf(w: Wid): Event -> bool { (e: Event) => e == Signalled(w, true) }

  function FalseOf(w: Wid): Event -> bool { (e: Event) => e == Signalled(w, false) }

  lemma WorkerIsNoSignal(s: Pool, v: Wid, step: WorkStep, w: Wid)
    requires WellFormed(s.q) && WorkEnabled(s, v, step)
    ensures var e := ObserveWork(s, v, step); !CloseOf(w)(e) && !TrueOf(w)(e) && !FalseOf(w)(e)
  {
  }

  lemma EnvSignalStep(s: Pool, e: EnvStep, w: Wid)
    requires SignalInv(s) && WellFormed(s.q) && EnvEnabled(s, e)
    ensures IsClosed(s, w) + One(CloseOf(w), ObserveEnv(e)) == IsClosed(EnvNext(s, e), w)
    ensures IsFinished(s, w) + One(TrueOf(w), ObserveEnv(e)) == IsFinished(EnvNext(s, e), w)
    ensures One(FalseOf(w), ObserveEnv(e)) <= IsFinished(s, w)
  {
    if e == CloseStop(w) {
      ClosesAnOpenChannel(s, w);
    }
  }

  lemma SignalStep(s: Pool, a: Action, w: Wid)
    requires SignalInv(s) && WellFormed(s.q) && Enabled(s, a)
    ensures IsClosed(s, w) + One(CloseOf(w), Observe(s, a)) == IsClosed(Step(s, a), w)
    ensures IsFinished(s, w) + One(TrueOf(w), Observe(s, a)) == IsFinished(Step(s, a), w)
    ensures One(FalseOf(w), Observe(s, a)) <= IsFinished(s, w)
  {
    match a
    case Env(e) => EnvSignalStep(s, e, w);
    case Grower(_, _) =>
    case Worker(v, step) =>
      WorkerIsNoSignal(s, v, step, w);
      NextProcKeepsFlags(s, v, step);
  }

  lemma {:induction false} SignalTallies(s: Pool, acts: seq<Action>, w: Wid)
    requires SignalInv(s) && Legal(s, acts)
    ensures SignalInv(Final(s, acts))
    ensures IsClosed(s, w) + Tally(s, acts, CloseOf(w)) == IsClosed(Final(s, acts), w)
    ensures IsFinished(s, w) + Tally(s, acts, TrueOf(w)) == IsFinished(Final(s, acts), w)
    ensures Tally(s, acts, FalseOf(w)) > 0 ==> IsFinished(Final(s, acts), w) == 1
    decreases |acts|
  {
    if acts != [] {
      SignalStep(s, acts[0], w);
      StepKeepsSignalInv(s, acts[0]);
      SignalTallies(Step(s, acts[0]), acts[1..], w);
    }
  }

  /** Over any run and any number of concurrent callers: a worker's channel is closed at most
      once; as many `signalStop` calls have returned true as have closed it, but for the one
      call that may be inside; and a call that returned false came after one that returned true. */
  lemma SignalledExactlyOnce(cfg: Config, scalers: nat, acts: seq<Action>, w: Wid)
    requires Legal(NewPool(cfg, scalers), acts)
    ensures var s0 := NewPool(cfg, scalers); var stage := OnceOf(Final(s0, acts), w);
            var closes, trues := Tally(s0, acts, CloseOf(w)), Tally(s0, acts, TrueOf(w));
            && trues <= closes <= 1
            && (trues < closes <==> stage == ChannelClosed || stage == FlagStored)
            && (Tally(s0, acts, FalseOf(w)) > 0 ==> trues == 1)
  {
    var s0 := NewPool(cfg, scalers);
    SignalTallies(s0, acts, w);
    var s := Final(s0, acts);
    if w < |s.procs| {
      assert s.procs[w] in s.procs;
    }
  }
}
