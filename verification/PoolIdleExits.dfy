/** The lower bound on the number of workers: what `canScaleDown` protects, and what it does
    not, given that the check and the exit are separate steps. */
module PoolIdleExits {
  import opened Tasks
  import opened QueueModel
  import opened PoolMachine
  import opened PoolOwnership
  import opened PoolCounting
  import opened PoolClaims
  import opened PoolReach

  function IsLeaving(p: Proc): nat { if p.pc == Leaving then 1 else 0 }

  /** Nobody has been told to stop. */
  ghost predicate NoStop(s: Pool) {
    && !s.cancelled
    && forall w :: 0 <= w < |s.procs| ==>
         !s.procs[w].stopClosed && !s.procs[w].stopDone && s.procs[w].once == Untouched
  }

  ghost predicate StopFree(acts: seq<Action>) {
    forall a :: a in acts ==> !Stops(a)
  }

  /** How many workers `Start` has still to spawn. */
  function StartLeft(s: Pool): nat {
    if |s.growers| > 0 && !s.started && s.growers[0].Adding? then s.growers[0].left else 0
  }

  lemma StepKeepsNoStop(s: Pool, a: Action)
    requires NoStop(s) && WellFormed(s.q) && Enabled(s, a) && !Stops(a)
    ensures NoStop(Step(s, a)) && Step(s, a).cfg == s.cfg
  {
    match a
    case Env(_) =>
    case Grower(_, _) =>
    case Worker(_, _) =>
  }

  /** Without stops a worker leaves only when it counted more workers than the minimum. */
  lemma LeavesOnlyAboveMin(s: Pool, w: Wid, step: WorkStep)
    requires NoStop(s) && WellFormed(s.q) && WorkEnabled(s, w, step)
    ensures IsLeaving(NextProc(s, w, step)) == 1 <==> step.CheckScale? && s.active > s.cfg.min
    ensures IsLeaving(s.procs[w]) == 1 <==> step.Decrement?
  {
  }

  // ----- One exit at a time -----

  /** A run without stops in which a worker that has decided to leave decrements before the
      next one decides. */
  ghost predicate OneAtATime(s: Pool, acts: seq<Action>)
    requires Legal(s, acts)
    decreases |acts|
  {
    && Total(s.procs, IsLeaving) <= 1
    && (acts == [] || (!Stops(acts[0]) && OneAtATime(Step(s, acts[0]), acts[1..])))
  }

  /** The workers that have decided to leave are discounted, those `Start` still owes counted. */
  ghost predicate MinInv(s: Pool) {
    s.active + StartLeft(s) - Total(s.procs, IsLeaving) >= s.cfg.min
  }

  lemma GrowerKeepsOwed(s: Pool, g: nat, step: GrowStep)
    requires GrowInv(s) && GrowEnabled(s, g, step)
    ensures var t := GrowNext(s, g, step); t.active + StartLeft(t) >= s.active + StartLeft(s)
  {
  }

  lemma OthersKeepOwed(s: Pool, a: Action)
    requires WellFormed(s.q) && Enabled(s, a) && !a.Grower?
    ensures StartLeft(Step(s, a)) == StartLeft(s)
    ensures Step(s, a).active == s.active - (if a.Worker? && a.work.Decrement? then 1 else 0)
  {
  }

  lemma StepKeepsMin(s: Pool, a: Action)
    requires MinInv(s) && NoStop(s) && GrowInv(s) && WellFormed(s.q) && Enabled(s, a) && !Stops(a)
    requires Total(Step(s, a).procs, IsLeaving) <= 1
    ensures MinInv(Step(s, a))
  {
    StepTotal(s, a, IsLeaving);
    StepKeepsNoStop(s, a);
    if a.Grower? {
      GrowerKeepsOwed(s, a.g, a.grow);
    } else {
      OthersKeepOwed(s, a);
    }
    if a.Worker? {
      LeavesOnlyAboveMin(s, a.w, a.work);
    }
  }

  lemma {:induction false} SerialRunKeepsMin(s: Pool, acts: seq<Action>)
    requires MinInv(s) && NoStop(s) && GrowInv(s) && BaseInv(s) && Legal(s, acts) && OneAtATime(s, acts)
    ensures MinInv(Final(s, acts)) && Final(s, acts).cfg == s.cfg
    decreases |acts|
  {
    if acts != [] {
      var t := Step(s, acts[0]);
      assert OneAtATime(t, acts[1..]);
      StepKeepsMin(s, acts[0]);
      StepKeepsNoStop(s, acts[0]);
      StepKeepsGrowInv(s, acts[0]);
      StepKeepsBase(s, acts[0]);
      SerialRunKeepsMin(t, acts[1..]);
    }
  }

  /** Idle exits that happen one at a time never take a started pool below its minimum, however
      spawns, submissions, claims and executions interleave with them. */
  lemma SerialExitsKeepMin(cfg: Config, scalers: nat, acts: seq<Action>)
    requires Legal(NewPool(cfg, scalers), acts) && OneAtATime(NewPool(cfg, scalers), acts)
    ensures Final(NewPool(cfg, scalers), acts).started ==> Final(NewPool(cfg, scalers), acts).active >= cfg.min
  {
    NewPoolCounts(cfg, scalers);
    SerialRunKeepsMin(NewPool(cfg, scalers), acts);
  }

  // ----- Exits that overlap -----

  /** A scaler may add workers at some load. */
  predicate CanGrow(cfg: Config) {
    0.0 < cfg.scaleUpThreshold && 0.0 < cfg.maxCpu && 0.0 < cfg.maxMemory
  }

  /** A scaler's tick: it wins the compare-and-swap and reads the minimum. */
  lemma ReadsTheMinimum(s: Pool) returns (t: Pool)
    requires WellFormed(s.q) && s.started && !s.cancelled && !s.scaling && |s.growers| > 1 && s.growers[1] == Resting
    ensures Reaches(s, Calm, t) && t == s.(scaling := true, growers := s.growers[1 := Read(s.active)])
  {
    var s1 := Step(s, Grower(1, Tick));
    ReachesNext(s, Calm, Grower(1, Tick));
    var s2 := Step(s1, Grower(1, TryAcquire));
    ReachesThen(s, Calm, s1, Grower(1, TryAcquire));
    t := Step(s2, Grower(1, ReadCount));
    ReachesThen(s, Calm, s2, Grower(1, ReadCount));
    assert t.growers == s.growers[1 := Read(s.active)];
  }

  /** With no load and enough pending tasks it decides to add workers, and adds the first. */
  lemma AddsOne(s: Pool, current: nat) returns (t: Pool)
    requires WellFormed(s.q) && |s.growers| > 1 && s.growers[1] == Read(current)
    requires current < s.cfg.max && CanGrow(s.cfg) && |PendingTasks(s.q)| > 2 * (current + 1)
    ensures Reaches(s, Calm, t)
            && t == s.(procs := t.procs, active := s.active + 1, workers := t.workers, growers := t.growers)
    ensures t.procs == s.procs + [Proc("", AtSelect, false, None, false, false, Untouched)]
  {
    var pending, res := |PendingTasks(s.q)|, Resources(0.0, 0.0);
    WorkersToAddIsLargest(s.cfg, current, pending, res);
    var s1 := Step(s, Grower(1, Decide(pending, res)));
    ReachesNext(s, Calm, Grower(1, Decide(pending, res)));
    var s2 := Step(s1, Grower(1, Insert("")));
    ReachesThen(s, Calm, s1, Grower(1, Insert("")));
    t := Step(s2, Grower(1, Increment));
    ReachesThen(s, Calm, s2, Grower(1, Increment));
  }

  /** Three tasks per worker are submitted, and a scaler grows the pool by one. */
  lemma GrowByOne(s: Pool, cfg: Config, scalers: nat) returns (t: Pool)
    requires JustStarted(s, cfg, scalers) && scalers > 0 && cfg.max > cfg.min && CanGrow(cfg)
    ensures Reaches(s, Calm, t) && t.active == cfg.min + 1 && t.cfg == cfg && t.started && WellFormed(t.q)
    ensures |t.procs| == cfg.min + 1 && !t.cancelled && forall p :: p in t.procs ==> Idle(p)
  {
    var s1 := SubmitMany(s, 3 * (cfg.min + 1));
    var s2 := ReadsTheMinimum(s1);
    ReachesTransitive(s, Calm, s1, s2);
    t := AddsOne(s2, cfg.min);
    ReachesTransitive(s, Calm, s2, t);
  }

  /** An idle worker's timer fires and it is about to ask `canScaleDown`. */
  lemma IdleTimerFires(s: Pool, w: Wid) returns (t: Pool)
    requires WellFormed(s.q) && w < |s.procs| && Idle(s.procs[w]) && !s.cancelled
    ensures Reaches(s, Calm, t) && t == s.(procs := s.procs[w := s.procs[w].(pc := ScaleCheck)])
  {
    var s1 := Step(s, Worker(w, TakeIdle));
    ReachesNext(s, Calm, Worker(w, TakeIdle));
    t := Step(s1, Worker(w, CheckIdle));
    ReachesThen(s, Calm, s1, Worker(w, CheckIdle));
    assert t.procs == s.procs[w := s.procs[w].(pc := ScaleCheck)];
  }

  /** Two workers that check before either has decremented both leave. */
  lemma ConcurrentExitsUndershoot(s: Pool, w: Wid, v: Wid) returns (t: Pool)
    requires WellFormed(s.q) && w < |s.procs| && v < |s.procs| && w != v
    requires s.procs[w].pc == ScaleCheck && s.procs[v].pc == ScaleCheck && s.active == s.cfg.min + 1
    ensures Reaches(s, Calm, t) && t.active == s.cfg.min - 1 && t.started == s.started
  {
    var s1 := Step(s, Worker(w, CheckScale));
    ReachesNext(s, Calm, Worker(w, CheckScale));
    var s2 := Step(s1, Worker(v, CheckScale));
    ReachesThen(s, Calm, s1, Worker(v, CheckScale));
    var s3 := Step(s2, Worker(w, Decrement));
    ReachesThen(s, Calm, s2, Worker(w, Decrement));
    t := Step(s3, Worker(v, Decrement));
    ReachesThen(s, Calm, s3, Worker(v, Decrement));
  }

  /** From an empty pool: `Start`, one growth step, and two idle exits that overlap. */
  lemma UndershootRun(cfg: Config, scalers: nat) returns (t: Pool)
    requires cfg.min > 0 && scalers > 0 && cfg.max > cfg.min && CanGrow(cfg)
    ensures Reaches(NewPool(cfg, scalers), Calm, t) && t.started && t.active == cfg.min - 1
  {
    var s0 := NewPool(cfg, scalers);
    var s1 := StartReturns(cfg, scalers);
    var s2 := GrowByOne(s1, cfg, scalers);
    ReachesTransitive(s0, Calm, s1, s2);
    assert s2.procs[0] in s2.procs && s2.procs[1] in s2.procs;
    var s3 := IdleTimerFires(s2, 0);
    ReachesTransitive(s0, Calm, s2, s3);
    var s4 := IdleTimerFires(s3, 1);
    ReachesTransitive(s0, Calm, s3, s4);
    t := ConcurrentExitsUndershoot(s4, 0, 1);
    ReachesTransitive(s0, Calm, s4, t);
  }

  // ----- When no exit can overlap -----

  ghost predicate CannotGrow(s: Pool) {
    |s.growers| == 1 || s.cfg.max <= s.cfg.min || !CanGrow(s.cfg)
  }

  /** The pool is at its minimum, or on its way there, and nobody leaves. */
  ghost predicate AtMinInv(s: Pool) {
    && s.active + StartLeft(s) == s.cfg.min
    && (forall w :: 0 <= w < |s.procs| ==> s.procs[w].pc != Leaving)
    && (forall g: nat :: 0 < g < |s.growers| && s.growers[g].Adding? ==> s.growers[g] == Adding(0, None))
    && (forall g: nat :: 0 < g < |s.growers| && s.growers[g].Read? ==> s.growers[g].current == s.cfg.min)
  }

  lemma NothingToAdd(s: Pool, pending: nat, res: Resources)
    requires CannotGrow(s) && |s.growers| > 1 && res.cpuLoad >= 0.0 && res.memoryUsed >= 0.0
    ensures WorkersToAdd(s.cfg, s.cfg.min, pending, res) == 0
  {
  }

  lemma GrowerKeepsAtMin(s: Pool, g: nat, step: GrowStep)
    requires AtMinInv(s) && CannotGrow(s) && GrowInv(s) && GrowEnabled(s, g, step)
    ensures AtMinInv(GrowNext(s, g, step)) && CannotGrow(GrowNext(s, g, step))
  {
    if step.Decide? {
      NothingToAdd(s, step.pending, step.res);
    }
  }

  lemma WorkerKeepsAtMin(s: Pool, w: Wid, step: WorkStep)
    requires AtMinInv(s) && NoStop(s) && WellFormed(s.q) && WorkEnabled(s, w, step)
    ensures AtMinInv(WorkNext(s, w, step))
  {
    LeavesOnlyAboveMin(s, w, step);
  }

  lemma StepKeepsAtMin(s: Pool, a: Action)
    requires AtMinInv(s) && CannotGrow(s) && NoStop(s) && GrowInv(s) && WellFormed(s.q) && Enabled(s, a) && !Stops(a)
    ensures AtMinInv(Step(s, a)) && CannotGrow(Step(s, a))
  {
    match a
    case Env(_) =>
    case Grower(g, step) => GrowerKeepsAtMin(s, g, step);
    case Worker(w, step) => WorkerKeepsAtMin(s, w, step);
  }

  lemma {:induction false} RunKeepsAtMin(s: Pool, acts: seq<Action>)
    requires AtMinInv(s) && CannotGrow(s) && NoStop(s) && GrowInv(s) && BaseInv(s)
    requires Legal(s, acts) && StopFree(acts)
    ensures AtMinInv(Final(s, acts)) && Final(s, acts).cfg == s.cfg
    decreases |acts|
  {
    if acts != [] {
      StepKeepsAtMin(s, acts[0]);
      StepKeepsNoStop(s, acts[0]);
      StepKeepsGrowInv(s, acts[0]);
      StepKeepsBase(s, acts[0]);
      RunKeepsAtMin(Step(s, acts[0]), acts[1..]);
    }
  }

  ghost predicate NeverBelowMin(cfg: Config, scalers: nat) {
    forall acts ::
      Legal(NewPool(cfg, scalers), acts) && StopFree(acts) && Final(NewPool(cfg, scalers), acts).started ==>
        Final(NewPool(cfg, scalers), acts).active >= cfg.min
  }

  /** Once `Start` has returned, `activeCount` stays at or above `MinWorkers` in every stop-free
      interleaving if and only if the minimum is zero or no scaler can ever add a worker. */
  lemma MinHoldsExactlyWhenNothingGrows(cfg: Config, scalers: nat)
    ensures NeverBelowMin(cfg, scalers) <==> cfg.min == 0 || scalers == 0 || cfg.max <= cfg.min || !CanGrow(cfg)
  {
    var s0 := NewPool(cfg, scalers);
    NewPoolCounts(cfg, scalers);
    if cfg.min == 0 || scalers == 0 || cfg.max <= cfg.min || !CanGrow(cfg) {
      forall acts | Legal(s0, acts) && StopFree(acts) && Final(s0, acts).started
        ensures Final(s0, acts).active >= cfg.min
      {
        if cfg.min == 0 {
          RunKeepsCounts(s0, acts);
        } else {
          RunKeepsAtMin(s0, acts);
        }
      }
    } else {
      var t := UndershootRun(cfg, scalers);
      var acts :| IsRunTo(s0, acts, Calm, t);
      assert StopFree(acts);
    }
  }
}
