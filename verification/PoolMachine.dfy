/** The adaptive worker pool as a step system.

    Any number of worker goroutines, any number of scaler goroutines and the `Start` call
    interleave at the granularity of the program's atomic reads, writes and critical sections.
    `procs[w]` is the local state of worker `w`; the pool's `workers` map and its
    `activeCount` are separate variables, because the program updates them in two steps. */
module PoolMachine {
  import opened Tasks
  import opened QueueModel

  type Ref = nat
  type Wid = nat

  datatype Pc =
    | Inserted                      // in the workers map, not yet counted, goroutine not started
    | AtSelect                      // about to evaluate the select of the worker loop
    | IdleFired                     // took the idle-timer case
    | ScaleCheck                    // about to ask canScaleDown
    | Body                          // took the default case, Dequeue not yet called
    | Sleeping                      // in sleepOrCancel
    | Claimed(task: Ref)            // Dequeue returned the task
    | Marked(task: Ref)             // busy, currentTask set
    | Executing(task: Ref)          // inside executor.Execute
    | Succeeded(task: Ref)          // about to write Completed
    | Failing(task: Ref)            // in handleTaskError, about to ask CanRetry
    | Retrying(task: Ref)           // about to call Requeue
    | Burying(task: Ref)            // about to write Failed
    | DeadLettering(task: Ref)      // about to call MoveToDeadLetter
    | Settled(task: Ref)            // executeTask returned, currentTask not yet cleared
    | Leaving                       // loop left, activeCount not yet decremented
    | Uncounted                     // decremented, map entry not yet deleted
    | Gone

  /** The `sync.Once` of `signalStop`: the one call that runs the body is at one of the three
      inner stages; every other call waits and then finds it finished. */
  datatype Once = Untouched | Entered | ChannelClosed | FlagStored | Finished

  datatype Proc = Proc(
    name: string,
    pc: Pc,
    busy: bool,
    currentTask: Option<Ref>,
    stopClosed: bool,               // stopChan is closed
    stopDone: bool,                 // stopChanDone has been stored
    once: Once)

  /** A goroutine that spawns workers: entry 0 is `Start`, the others run `checkAndScale`. */
  datatype GrowPc =
    | Resting
    | Ticked                        // the ticker fired and the context was not cancelled
    | Holding                       // won the compare-and-swap on `scaling`
    | Read(current: int)            // has read activeCount
    | Adding(left: nat, spawned: Option<Wid>)

  datatype Config = Config(min: nat, max: int, scaleUpThreshold: real, maxCpu: real, maxMemory: real)

  datatype Resources = Resources(cpuLoad: real, memoryUsed: real)

  datatype Pool = Pool(
    q: QState<Ref>,
    procs: seq<Proc>,
    workers: set<Wid>,
    active: int,
    cancelled: bool,
    started: bool,
    scaling: bool,
    growers: seq<GrowPc>,
    clock: int,                     // the latest reading
    cfg: Config)

  /** Steps of the environment: submissions, statuses written by the stuck handler or an
      executor wrapper, cancellation, and the calls of `signalStop`, any number of them at a
      time: one enters the once, closes, stores and returns true, the others return false. */
  datatype EnvStep =
    | Submit(r: Ref, rec: TaskRec, nano: int, created: int, updated: int)
    | ForeignStatus(task: Ref, status: Status)
    | Cancel
    | EnterOnce(worker: Wid)
    | CloseStop(worker: Wid)
    | MarkStopDone(worker: Wid)
    | ReturnTrue(worker: Wid)
    | ReturnFalse(worker: Wid)

  /** Steps of `Start` and of `checkAndScale`. */
  datatype GrowStep =
    | Tick
    | TryAcquire
    | Abort                                            // no monitor, or it failed
    | ReadCount
    | Decide(pending: nat, res: Resources)
    | Insert(name: string)
    | Increment
    | Release

  /** Steps of `workerLoop`, `executeTask` and its two handlers. */
  datatype WorkStep =
    | TakeStop
    | TakeIdle
    | TakeDefault
    | CheckIdle
    | CheckScale
    | CallDequeue(req: Requirements, scan: seq<int>, now: int)
    | Wake(stopped: bool)
    | MarkBusy
    | Execute(hasExecutor: bool)
    | Return(ok: bool)
    | Complete
    | AskRetry
    | CallRequeue(delay: int, at: int, updated: int)
    | WriteFailed
    | CallDeadLetter(reason: string, updated: int)
    | Clear
    | Decrement
    | Delete

  datatype Action = Env(env: EnvStep) | Grower(g: nat, grow: GrowStep) | Worker(w: Wid, work: WorkStep)

  function Min3(a: int, b: int, c: int): int {
    if a < b then (if a < c then a else c) else (if b < c then b else c)
  }

  /** How many workers `checkAndScale` adds after reading `current`. */
  function WorkersToAdd(cfg: Config, current: int, pending: nat, res: Resources): (n: nat)
    requires current >= 0
    ensures n <= 3
    ensures n > 0 ==> current + n <= cfg.max
  {
    var avgLoad := (res.cpuLoad / 100.0 + res.memoryUsed / 100.0) / 2.0;
    var pressure := (pending as real) / ((current + 1) as real);
    if avgLoad < cfg.scaleUpThreshold && pressure > 2.0 && current < cfg.max
       && res.cpuLoad < cfg.maxCpu && res.memoryUsed < cfg.maxMemory
    then Min3(cfg.max - current, pressure.Floor, 3)
    else 0
  }

  lemma QuotientExceeds(a: real, b: real, c: real)
    requires b > 0.0
    ensures a / b >= c <==> a >= c * b
    ensures a / b > c <==> a > c * b
  {
    var q := a / b;
    assert q * b == a;
    assert (q - c) * b == a - c * b;
    if q > c {
      assert (q - c) * b > 0.0;
    } else if q < c {
      assert (c - q) * b > 0.0;
    }
  }

  lemma {:induction false} ProductAsReal(n: nat, m: nat)
    ensures (n * m) as real == (n as real) * (m as real)
  {
    if n > 0 {
      ProductAsReal(n - 1, m);
      assert n * m == (n - 1) * m + m;
      assert (n as real) * (m as real) == ((n - 1) as real) * (m as real) + (m as real);
    }
  }

  lemma FloorOfQuotient(pending: nat, workers: nat, n: nat)
    requires workers > 0
    ensures n <= ((pending as real) / (workers as real)).Floor <==> n * workers <= pending
  {
    QuotientExceeds(pending as real, workers as real, n as real);
    ProductAsReal(n, workers);
  }

  /** The pool grows exactly when the load is low, more than two tasks are pending per worker
      and there is room, and then by the most that the three limits allow. */
  lemma WorkersToAddIsLargest(cfg: Config, current: int, pending: nat, res: Resources)
    requires current >= 0
    ensures var n := WorkersToAdd(cfg, current, pending, res); var each := current + 1;
            && (n > 0 <==> && (res.cpuLoad + res.memoryUsed) / 200.0 < cfg.scaleUpThreshold
                           && pending > 2 * each && current < cfg.max
                           && res.cpuLoad < cfg.maxCpu && res.memoryUsed < cfg.maxMemory)
            && (n > 0 ==> current + n <= cfg.max && n * each <= pending && n <= 3)
            && (n > 0 ==> current + n == cfg.max || (n + 1) * each > pending || n == 3)
  {
    var n := WorkersToAdd(cfg, current, pending, res);
    FloorOfQuotient(pending, current + 1, n);
    FloorOfQuotient(pending, current + 1, n + 1);
    QuotientExceeds(pending as real, (current + 1) as real, 2.0);
  }

  predicate StopVisible(s: Pool, w: Wid)
    requires w < |s.procs|
  {
    s.cancelled || s.procs[w].stopClosed
  }

  /** Any task object may be submitted at any time, a new one or one the queue knows, under
      any identifier. */
  predicate EnvEnabled(s: Pool, e: EnvStep) {
    match e
    case Submit(r, rec, _, created, updated) =>
      (r in s.q.heap ==> rec == s.q.heap[r]) && s.clock <= created <= updated
    case ForeignStatus(r, status) => r in s.q.heap && status != Pending
    case Cancel => true
    case EnterOnce(w) => w < |s.procs| && s.procs[w].once == Untouched
    case CloseStop(w) => w < |s.procs| && s.procs[w].once == Entered
    case MarkStopDone(w) => w < |s.procs| && s.procs[w].once == ChannelClosed
    case ReturnTrue(w) => w < |s.procs| && s.procs[w].once == FlagStored
    case ReturnFalse(w) => w < |s.procs| && s.procs[w].once == Finished
  }

  /** The steps of `signalStop` calls on one worker. */
  predicate IsSignal(e: EnvStep) {
    e.EnterOnce? || e.CloseStop? || e.MarkStopDone? || e.ReturnTrue? || e.ReturnFalse?
  }

  function SignalledProc(p: Proc, e: EnvStep): Proc
    requires IsSignal(e)
  {
    match e
    case EnterOnce(_) => p.(once := Entered)
    case CloseStop(_) => p.(stopClosed := true, once := ChannelClosed)
    case MarkStopDone(_) => p.(stopDone := true, once := FlagStored)
    case ReturnTrue(_) => p.(once := Finished)
    case ReturnFalse(_) => p
  }

  function EnvNext(s: Pool, e: EnvStep): Pool
    requires WellFormed(s.q) && EnvEnabled(s, e)
  {
    match e
    case Submit(r, rec, nano, created, updated) =>
      s.(q := Enqueued(s.q, r, rec, nano, created, updated), clock := updated)
    case ForeignStatus(r, status) => s.(q := StatusWritten(s.q, r, status))
    case Cancel => s.(cancelled := true)
    case _ => s.(procs := s.procs[e.worker := SignalledProc(s.procs[e.worker], e)])
  }

  /** The tasks that `GetPendingCount` counts. */
  function PendingTasks(q: QState<Ref>): set<string> {
    set id | id in q.tasks && q.tasks[id] in q.heap && q.heap[q.tasks[id]].status == Pending
  }

  predicate GrowEnabled(s: Pool, g: nat, step: GrowStep) {
    && g < |s.growers|
    && match step
       case Tick => g > 0 && s.growers[g] == Resting && s.started && !s.cancelled
       case TryAcquire => s.growers[g] == Ticked
       case Abort => s.growers[g] == Holding
       case ReadCount => s.growers[g] == Holding
       case Decide(pending, res) =>
         && s.growers[g].Read? && s.growers[g].current >= 0
         && pending == |PendingTasks(s.q)| && res.cpuLoad >= 0.0 && res.memoryUsed >= 0.0
       case Insert(_) => s.growers[g].Adding? && s.growers[g].left > 0 && s.growers[g].spawned.None?
       case Increment =>
         && s.growers[g].Adding? && s.growers[g].left > 0 && s.growers[g].spawned.Some?
         && s.growers[g].spawned.value < |s.procs|
       case Release => s.growers[g] == Adding(0, None)
  }

  function GrowTo(s: Pool, g: nat, pc: GrowPc): Pool
    requires g < |s.growers|
  {
    s.(growers := s.growers[g := pc])
  }

  function GrowNext(s: Pool, g: nat, step: GrowStep): Pool
    requires GrowEnabled(s, g, step)
  {
    match step
    case Tick => GrowTo(s, g, Ticked)
    case TryAcquire => if s.scaling then GrowTo(s, g, Resting) else GrowTo(s, g, Holding).(scaling := true)
    case Abort => GrowTo(s, g, Resting).(scaling := false)
    case ReadCount => GrowTo(s, g, Read(s.active))
    case Decide(pending, res) => GrowTo(s, g, Adding(WorkersToAdd(s.cfg, s.growers[g].current, pending, res), None))
    case Insert(name) =>
      var w := |s.procs|;
      GrowTo(s, g, Adding(s.growers[g].left, Some(w))).(
        procs := s.procs + [Proc(name, Inserted, false, None, false, false, Untouched)], workers := s.workers + {w})
    case Increment =>
      var w := s.growers[g].spawned.value;
      GrowTo(s, g, Adding(s.growers[g].left - 1, None)).(
        procs := s.procs[w := s.procs[w].(pc := AtSelect)], active := s.active + 1)
    case Release => if g == 0 then GrowTo(s, g, Resting).(started := true) else GrowTo(s, g, Resting).(scaling := false)
  }

  predicate WorkEnabled(s: Pool, w: Wid, step: WorkStep) {
    && w < |s.procs|
    && var pc := s.procs[w].pc;
       match step
       case TakeStop => pc == AtSelect && StopVisible(s, w)
       case TakeIdle => pc == AtSelect
       case TakeDefault => pc == AtSelect && !StopVisible(s, w)
       case CheckIdle => pc == IdleFired
       case CheckScale => pc == ScaleCheck
       case CallDequeue(_, scan, now) => pc == Body && |scan| == |s.q.queue| && ClockMoves(s.clock, scan, now)
       case Wake(stopped) => pc == Sleeping && (stopped ==> StopVisible(s, w))
       case MarkBusy => pc.Claimed?
       case Execute(_) => pc.Marked?
       case Return(_) => pc.Executing?
       case Complete => pc.Succeeded? && pc.task in s.q.heap
       case AskRetry => pc.Failing? && pc.task in s.q.heap
       case CallRequeue(_, at, updated) => pc.Retrying? && pc.task in s.q.heap && s.clock <= at <= updated
       case WriteFailed => pc.Burying? && pc.task in s.q.heap
       case CallDeadLetter(_, updated) => pc.DeadLettering? && pc.task in s.q.heap && s.clock <= updated
       case Clear => pc.Settled?
       case Decrement => pc == Leaving
       case Delete => pc == Uncounted
  }

  /** The local state of worker `w` after its step. */
  function NextProc(s: Pool, w: Wid, step: WorkStep): Proc
    requires WellFormed(s.q) && WorkEnabled(s, w, step)
  {
    var p := s.procs[w];
    match step
    case TakeStop => p.(pc := Leaving)
    case TakeIdle => p.(pc := IdleFired)
    case TakeDefault => p.(pc := Body)
    case CheckIdle => p.(pc := if s.cancelled || p.stopDone then Leaving else ScaleCheck)
    case CheckScale => p.(pc := if s.active > s.cfg.min then Leaving else AtSelect)
    case CallDequeue(req, scan, now) =>
      var got := Dequeued(s.q, p.name, req, scan, now).1;
      p.(pc := if got.None? then Sleeping else Claimed(got.value))
    case Wake(stopped) => p.(pc := if stopped then Leaving else AtSelect)
    case MarkBusy => p.(pc := Marked(p.pc.task), busy := true, currentTask := Some(p.pc.task))
    case Execute(hasExecutor) => p.(pc := if hasExecutor then Executing(p.pc.task) else Failing(p.pc.task))
    case Return(ok) => p.(pc := if ok then Succeeded(p.pc.task) else Failing(p.pc.task))
    case Complete => p.(pc := Settled(p.pc.task))
    case AskRetry => p.(pc := if s.q.heap[p.pc.task].CanRetry() then Retrying(p.pc.task) else Burying(p.pc.task))
    case CallRequeue(_, _, _) => p.(pc := Settled(p.pc.task))
    case WriteFailed => p.(pc := DeadLettering(p.pc.task))
    case CallDeadLetter(_, _) => p.(pc := Settled(p.pc.task))
    case Clear => p.(pc := AtSelect, busy := false, currentTask := None)
    case Decrement => p.(pc := Uncounted)
    case Delete => p.(pc := Gone)
  }

  /** The queue after the step of worker `w`; an unknown identifier is an error that the
      handlers only log. */
  function NextQueue(s: Pool, w: Wid, step: WorkStep): QState<Ref>
    requires WellFormed(s.q) && WorkEnabled(s, w, step)
  {
    var p := s.procs[w];
    match step
    case CallDequeue(req, scan, now) => Dequeued(s.q, p.name, req, scan, now).0
    case Complete => StatusWritten(s.q, p.pc.task, Completed)
    case WriteFailed => StatusWritten(s.q, p.pc.task, Failed)
    case CallRequeue(delay, at, updated) =>
      var id := s.q.heap[p.pc.task].id;
      if id in s.q.tasks then Requeued(s.q, id, delay, at, updated) else s.q
    case CallDeadLetter(reason, updated) =>
      var id := s.q.heap[p.pc.task].id;
      if id in s.q.tasks then DeadLettered(s.q, id, reason, updated) else s.q
    case _ => s.q
  }

  /** The last clock reading of the step; the queue reads the clock under its lock. */
  function ClockAfter(s: Pool, step: WorkStep): int {
    match step
    case CallDequeue(_, _, now) => now
    case CallRequeue(_, _, updated) => updated
    case CallDeadLetter(_, updated) => updated
    case _ => s.clock
  }

  function WorkNext(s: Pool, w: Wid, step: WorkStep): Pool
    requires WellFormed(s.q) && WorkEnabled(s, w, step)
  {
    s.(procs := s.procs[w := NextProc(s, w, step)],
       q := NextQueue(s, w, step),
       clock := ClockAfter(s, step),
       active := if step.Decrement? then s.active - 1 else s.active,
       workers := if step.Delete? then s.workers - {w} else s.workers)
  }

  predicate Enabled(s: Pool, a: Action) {
    match a
    case Env(e) => EnvEnabled(s, e)
    case Grower(g, step) => GrowEnabled(s, g, step)
    case Worker(w, step) => WorkEnabled(s, w, step)
  }

  /** One atomic step. */
  function Step(s: Pool, a: Action): Pool
    requires WellFormed(s.q) && Enabled(s, a)
  {
    match a
    case Env(e) => EnvNext(s, e)
    case Grower(g, step) => GrowNext(s, g, step)
    case Worker(w, step) => WorkNext(s, w, step)
  }

  predicate IsStepOf(a: Action, w: Wid) {
    a.Worker? && a.w == w
  }

  /** What a step of somebody else can do to a worker: raise its stop flags. */
  predicate OnlyFlagged(p: Proc, p': Proc) {
    && p'.pc == p.pc && p'.currentTask == p.currentTask
    && (p.stopClosed ==> p'.stopClosed) && (p.stopDone ==> p'.stopDone)
  }

  lemma EnvLeavesProc(s: Pool, e: EnvStep, w: Wid)
    requires WellFormed(s.q) && EnvEnabled(s, e) && w < |s.procs|
    ensures w < |EnvNext(s, e).procs| && OnlyFlagged(s.procs[w], EnvNext(s, e).procs[w])
  {
  }

  /** It may also start the worker. */
  lemma OthersLeaveProc(s: Pool, a: Action, w: Wid)
    requires WellFormed(s.q) && Enabled(s, a) && w < |s.procs| && !IsStepOf(a, w)
    ensures var t := Step(s, a).procs;
            && w < |t|
            && (OnlyFlagged(s.procs[w], t[w]) ||
                (a.Grower? && a.grow.Increment? && s.growers[a.g].spawned == Some(w)
                    && t[w] == s.procs[w].(pc := AtSelect)))
  {
    match a
    case Env(e) => EnvLeavesProc(s, e, w);
    case Grower(_, _) =>
    case Worker(_, _) =>
  }

  lemma CancelIsFinal(s: Pool, a: Action)
    requires WellFormed(s.q) && Enabled(s, a)
    ensures s.cancelled ==> Step(s, a).cancelled
  {
  }

  /** Before `Start` spawns its first worker, with `scalers` goroutines ready to scale. */
  function NewPool(cfg: Config, scalers: nat): Pool {
    Pool(NewQueue(), [], {}, 0, false, false, false, [Adding(cfg.min, None)] + seq(scalers, _ => Resting), 0, cfg)
  }

  /** Every step of `acts` from `s` is enabled when its turn comes. */
  ghost predicate Legal(s: Pool, acts: seq<Action>)
    decreases |acts|
  {
    acts == [] || (WellFormed(s.q) && Enabled(s, acts[0]) && Legal(Step(s, acts[0]), acts[1..]))
  }

  ghost function Final(s: Pool, acts: seq<Action>): Pool
    requires Legal(s, acts)
    decreases |acts|
  {
    if acts == [] then s else Final(Step(s, acts[0]), acts[1..])
  }

  // ----- Observable events -----

  datatype Event =
    | Nothing
    | Claim(w: Wid, r: Ref)
    | Began(w: Wid, r: Ref)
    | Done(w: Wid, r: Ref)
    | Retried(w: Wid, r: Ref)
    | Buried(w: Wid, r: Ref)
    | Closed(w: Wid)
    | Signalled(w: Wid, sent: bool)

  function ObserveWork(s: Pool, w: Wid, step: WorkStep): Event
    requires WellFormed(s.q) && WorkEnabled(s, w, step)
  {
    var p := s.procs[w];
    match step
    case CallDequeue(req, scan, now) =>
      var got := Dequeued(s.q, p.name, req, scan, now).1;
      if got.None? then Nothing else Claim(w, got.value)
    case Execute(hasExecutor) => if hasExecutor then Began(w, p.pc.task) else Nothing
    case Complete => Done(w, p.pc.task)
    case CallRequeue(_, _, _) => if s.q.heap[p.pc.task].id in s.q.tasks then Retried(w, p.pc.task) else Nothing
    case CallDeadLetter(_, _) => if s.q.heap[p.pc.task].id in s.q.tasks then Buried(w, p.pc.task) else Nothing
    case _ => Nothing
  }

  function ObserveEnv(e: EnvStep): Event {
    match e
    case CloseStop(w) => Closed(w)
    case ReturnTrue(w) => Signalled(w, true)
    case ReturnFalse(w) => Signalled(w, false)
    case _ => Nothing
  }

  function Observe(s: Pool, a: Action): Event
    requires WellFormed(s.q) && Enabled(s, a)
  {
    match a
    case Env(e) => ObserveEnv(e)
    case Grower(_, _) => Nothing
    case Worker(w, step) => ObserveWork(s, w, step)
  }

  /** How many events of the run satisfy `p`. */
  ghost function Tally(s: Pool, acts: seq<Action>, p: Event -> bool): nat
    requires Legal(s, acts)
    decreases |acts|
  {
    if acts == [] then 0
    else (if p(Observe(s, acts[0])) then 1 else 0) + Tally(Step(s, acts[0]), acts[1..], p)
  }

  // ----- Sums over goroutines -----

  ghost function Total<T>(xs: seq<T>, f: T -> nat): nat {
    if xs == [] then 0 else f(xs[0]) + Total(xs[1..], f)
  }

  lemma {:induction false} TotalUpdate<T>(xs: seq<T>, i: nat, x: T, f: T -> nat)
    requires i < |xs|
    ensures Total(xs[i := x], f) + f(xs[i]) == Total(xs, f) + f(x)
  {
    if i == 0 {
      assert xs[i := x][1..] == xs[1..];
    } else {
      assert xs[i := x][1..] == xs[1..][i - 1 := x];
      TotalUpdate(xs[1..], i - 1, x, f);
    }
  }

  lemma {:induction false} TotalAppend<T>(xs: seq<T>, x: T, f: T -> nat)
    ensures Total(xs + [x], f) == Total(xs, f) + f(x)
  {
    if xs == [] {
      assert xs + [x] == [x];
    } else {
      assert (xs + [x])[1..] == xs[1..] + [x];
      TotalAppend(xs[1..], x, f);
    }
  }

  lemma {:induction false} TotalAtLeast<T>(xs: seq<T>, i: nat, f: T -> nat)
    requires i < |xs|
    ensures Total(xs, f) >= f(xs[i])
  {
    if i > 0 {
      TotalAtLeast(xs[1..], i - 1, f);
    }
  }
}
