/** Building runs of the pool step by step: the concrete interleavings that show what the pool
    does not promise all start here, from an empty pool. */
module PoolReach {
  import opened Tasks
  import opened QueueModel
  import opened PoolMachine

  /** `acts` is a run from `s` to `t` whose actions all satisfy `ok`. */
  ghost predicate IsRunTo(s: Pool, acts: seq<Action>, ok: Action -> bool, t: Pool) {
    Legal(s, acts) && (forall a :: a in acts ==> ok(a)) && Final(s, acts) == t
  }

  ghost predicate Reaches(s: Pool, ok: Action -> bool, t: Pool) {
    exists acts :: IsRunTo(s, acts, ok, t)
  }

  lemma Stay(s: Pool, ok: Action -> bool)
    ensures Reaches(s, ok, s)
  {
    assert IsRunTo(s, [], ok, s);
  }

  lemma LegalCons(s: Pool, a: Action, rest: seq<Action>)
    requires WellFormed(s.q) && Enabled(s, a) && Legal(Step(s, a), rest)
    ensures Legal(s, [a] + rest) && Final(s, [a] + rest) == Final(Step(s, a), rest)
  {
    assert ([a] + rest)[1..] == rest;
  }

  lemma HeadFirst<T>(a: seq<T>, b: seq<T>)
    requires a != []
    ensures a + b == [a[0]] + (a[1..] + b)
  {
  }

  lemma {:induction false} RunsConcatenate(s: Pool, a: seq<Action>, b: seq<Action>)
    requires Legal(s, a) && Legal(Final(s, a), b)
    ensures Legal(s, a + b) && Final(s, a + b) == Final(Final(s, a), b)
    decreases |a|
  {
    if a == [] {
      assert a + b == b;
    } else {
      RunsConcatenate(Step(s, a[0]), a[1..], b);
      LegalCons(s, a[0], a[1..] + b);
      HeadFirst(a, b);
    }
  }

  lemma ReachesTransitive(s: Pool, ok: Action -> bool, t: Pool, u: Pool)
    requires Reaches(s, ok, t) && Reaches(t, ok, u)
    ensures Reaches(s, ok, u)
  {
    var a :| IsRunTo(s, a, ok, t);
    var b :| IsRunTo(t, b, ok, u);
    RunsConcatenate(s, a, b);
    assert IsRunTo(s, a + b, ok, u);
  }

  lemma ReachesNext(s: Pool, ok: Action -> bool, a: Action)
    requires WellFormed(s.q) && Enabled(s, a) && ok(a)
    ensures Reaches(s, ok, Step(s, a))
  {
    var t := Step(s, a);
    assert [a][1..] == [] && Legal(t, []) && Final(t, []) == t;
    assert IsRunTo(s, [a], ok, t);
  }

  lemma ReachesThen(s: Pool, ok: Action -> bool, t: Pool, a: Action)
    requires Reaches(s, ok, t) && WellFormed(t.q) && Enabled(t, a) && ok(a)
    ensures Reaches(s, ok, Step(t, a))
  {
    ReachesNext(t, ok, a);
    ReachesTransitive(s, ok, t, Step(t, a));
  }

  lemma ReachesWeaker(s: Pool, ok: Action -> bool, weaker: Action -> bool, t: Pool)
    requires Reaches(s, ok, t) && forall a :: ok(a) ==> weaker(a)
    ensures Reaches(s, weaker, t)
  {
    var acts :| IsRunTo(s, acts, ok, t);
    assert IsRunTo(s, acts, weaker, t);
  }

  predicate Stops(a: Action) {
    a.Env? && (a.env.Cancel? || IsSignal(a.env))
  }

  /** Nobody is told to stop. */
  predicate Calm(a: Action) {
    !Stops(a)
  }

  /** Nobody is told to stop, and nothing is submitted. */
  predicate Quiet(a: Action) {
    !Stops(a) && !(a.Env? && a.env.Submit?)
  }

  // ----- Start, run to the end -----

  predicate Idle(p: Proc) {
    p.pc == AtSelect && !p.stopClosed && !p.stopDone && p.once == Untouched && p.currentTask.None?
  }

  /** An otherwise new pool that has spawned its first `|s.procs|` workers. */
  ghost predicate Starting(s: Pool, cfg: Config, scalers: nat) {
    && |s.procs| <= cfg.min && (forall p :: p in s.procs ==> Idle(p))
    && s.growers == [Adding(cfg.min - |s.procs|, None)] + seq(scalers, _ => Resting)
    && s == NewPool(cfg, scalers).(procs := s.procs, workers := s.workers, active := |s.procs|, growers := s.growers)
  }

  lemma SpawnOne(s: Pool, cfg: Config, scalers: nat) returns (t: Pool)
    requires Starting(s, cfg, scalers) && |s.procs| < cfg.min
    ensures Reaches(s, Calm, t) && Starting(t, cfg, scalers) && |t.procs| == |s.procs| + 1
  {
    var n := |s.procs|;
    var rest := seq(scalers, _ => Resting);
    var s1 := Step(s, Grower(0, Insert("")));
    ReachesNext(s, Calm, Grower(0, Insert("")));
    assert s1.growers == [Adding(cfg.min - n, Some(n))] + rest;
    t := Step(s1, Grower(0, Increment));
    ReachesThen(s, Calm, s1, Grower(0, Increment));
    assert t.growers == [Adding(cfg.min - n - 1, None)] + rest;
    assert t.procs == s.procs + [Proc("", AtSelect, false, None, false, false, Untouched)];
  }

  lemma {:induction false} SpawnAll(s: Pool, cfg: Config, scalers: nat) returns (t: Pool)
    requires Starting(s, cfg, scalers)
    ensures Reaches(s, Calm, t) && Starting(t, cfg, scalers) && |t.procs| == cfg.min
    decreases cfg.min - |s.procs|
  {
    if |s.procs| == cfg.min {
      t := s;
      Stay(s, Calm);
    } else {
      var s1 := SpawnOne(s, cfg, scalers);
      t := SpawnAll(s1, cfg, scalers);
      ReachesTransitive(s, Calm, s1, t);
    }
  }

  /** `Start` has returned, and nothing else has happened. */
  ghost predicate JustStarted(s: Pool, cfg: Config, scalers: nat) {
    && s.q == NewQueue() && s.cfg == cfg && s.started && !s.cancelled && !s.scaling
    && |s.procs| == cfg.min == s.active && (forall p :: p in s.procs ==> Idle(p))
    && s.growers == seq(scalers + 1, _ => Resting)
  }

  lemma StartReturns(cfg: Config, scalers: nat) returns (t: Pool)
    ensures Reaches(NewPool(cfg, scalers), Calm, t) && JustStarted(t, cfg, scalers)
  {
    var s0 := NewPool(cfg, scalers);
    assert s0.procs == [];
    var s1 := SpawnAll(s0, cfg, scalers);
    t := Step(s1, Grower(0, Release));
    ReachesThen(s0, Calm, s1, Grower(0, Release));
    assert t.growers == seq(scalers + 1, _ => Resting);
  }

  // ----- Submissions -----

  function Named(n: nat): string {
    seq(n + 1, _ => 'x')
  }

  function NewTask(id: string, maxRetries: int): TaskRec {
    TaskRec(id, Pending, Priority("normal", 0), 0, 0, 0, None, None, None, 0, maxRetries, 0, 0, None)
  }

  /** The queue after `n` submissions of new tasks. */
  ghost predicate Loaded(q: QState<Ref>, n: nat) {
    && WellFormed(q) && |q.tasks| == n
    && (forall r: Ref :: r in q.heap <==> r < n)
    && (forall id :: id in q.tasks ==> |id| <= n && q.heap[q.tasks[id]].status == Pending)
  }

  lemma LoadOne(q: QState<Ref>, n: nat, now: int)
    requires Loaded(q, n)
    ensures Loaded(Enqueued(q, n, NewTask(Named(n), 0), 0, now, now), n + 1)
  {
    var task := NewTask(Named(n), 0);
    var q' := Appended(q, n, task, 0, now, now);
    assert Named(n) != "" && Named(n) !in q.tasks;
    assert q'.tasks == q.tasks[Named(n) := n] && q'.heap == q.heap[n := task.Enqueued(Named(n), now, now)];
    assert WellFormed(q');
  }

  lemma SubmitOne(s: Pool, n: nat) returns (t: Pool)
    requires Loaded(s.q, n)
    ensures Reaches(s, Calm, t) && t == s.(q := t.q) && Loaded(t.q, n + 1)
  {
    var submit := Env(Submit(n, NewTask(Named(n), 0), 0, s.clock, s.clock));
    ReachesNext(s, Calm, submit);
    t := Step(s, submit);
    LoadOne(s.q, n, s.clock);
  }

  lemma AllArePending(q: QState<Ref>, n: nat)
    requires Loaded(q, n)
    ensures |PendingTasks(q)| == n
  {
    assert PendingTasks(q) == q.tasks.Keys;
  }

  lemma {:induction false} SubmitUpTo(s: Pool, n: nat) returns (t: Pool)
    requires s.q == NewQueue()
    ensures Reaches(s, Calm, t) && t == s.(q := t.q) && Loaded(t.q, n)
  {
    if n == 0 {
      t := s;
      Stay(s, Calm);
    } else {
      var s1 := SubmitUpTo(s, n - 1);
      t := SubmitOne(s1, n - 1);
      ReachesTransitive(s, Calm, s1, t);
    }
  }

  /** `n` new tasks are submitted, and all of them are pending. */
  lemma SubmitMany(s: Pool, n: nat) returns (t: Pool)
    requires s.q == NewQueue()
    ensures Reaches(s, Calm, t) && t == s.(q := t.q) && WellFormed(t.q) && |PendingTasks(t.q)| == n
  {
    t := SubmitUpTo(s, n);
    AllArePending(t.q, n);
  }

  // ----- Steps of one worker -----

  /** Only worker `w` has moved, and nobody was signalled. */
  ghost predicate OnlyMoved(s: Pool, t: Pool, w: Wid) {
    && t == s.(procs := t.procs, q := t.q, clock := t.clock) && s.clock <= t.clock
    && w < |s.procs| == |t.procs|
    && (forall v :: 0 <= v < |s.procs| && v != w ==> t.procs[v] == s.procs[v])
    && t.procs[w] == s.procs[w].(pc := t.procs[w].pc, busy := t.procs[w].busy, currentTask := t.procs[w].currentTask)
  }
}
