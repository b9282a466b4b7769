/** Worker counting: the two-step updates of the `workers` map and of `activeCount`, and the
    bound that the compare-and-swap on `scaling` protects. */
module PoolCounting {
  import opened QueueModel
  import opened PoolMachine

  /** The goroutine is inside `Start`'s spawn loop or inside `checkAndScale`. */
  predicate Busy(pc: GrowPc) {
    !pc.Resting? && !pc.Ticked?
  }

  function Inserting(p: Proc): nat { if p.pc == Inserted then 1 else 0 }

  function HasSpawned(pc: GrowPc): nat { if pc.Adding? && pc.spawned.Some? then 1 else 0 }

  /** At most one goroutine spawns at a time, and a worker in the map that is not counted yet
      is the one being spawned. */
  ghost predicate GrowInv(s: Pool) {
    && |s.growers| > 0
    && (forall g: nat :: g < |s.growers| && Busy(s.growers[g]) ==>
          if g == 0 then s.growers[g].Adding? && !s.started else s.started && s.scaling)
    && (forall g: nat, h: nat ::
          g < |s.growers| && h < |s.growers| && Busy(s.growers[g]) && Busy(s.growers[h]) ==> g == h)
    && (forall g: nat :: g < |s.growers| && s.growers[g].Ticked? ==> g > 0 && s.started)
    && (!s.started ==> Busy(s.growers[0]))
    && (forall g: nat :: g < |s.growers| && HasSpawned(s.growers[g]) == 1 ==>
          && s.growers[g].left > 0 && s.growers[g].spawned.value < |s.procs|
          && s.procs[s.growers[g].spawned.value].pc == Inserted)
    && Total(s.procs, Inserting) == Total(s.growers, HasSpawned)
  }

  lemma InsertKeepsGrowInv(s: Pool, g: nat, name: string)
    requires GrowInv(s) && GrowEnabled(s, g, Insert(name))
    ensures GrowInv(GrowNext(s, g, Insert(name)))
  {
    var t := GrowNext(s, g, Insert(name));
    TotalUpdate(s.growers, g, t.growers[g], HasSpawned);
    TotalAppend(s.procs, t.procs[|s.procs|], Inserting);
  }

  lemma IncrementKeepsSums(s: Pool, g: nat)
    requires GrowInv(s) && GrowEnabled(s, g, Increment)
    ensures var t := GrowNext(s, g, Increment); Total(t.procs, Inserting) == Total(t.growers, HasSpawned)
  {
    var t := GrowNext(s, g, Increment);
    var w := s.growers[g].spawned.value;
    assert HasSpawned(s.growers[g]) == 1;
    TotalUpdate(s.growers, g, t.growers[g], HasSpawned);
    TotalUpdate(s.procs, w, t.procs[w], Inserting);
  }

  lemma IncrementKeepsGrowInv(s: Pool, g: nat)
    requires GrowInv(s) && GrowEnabled(s, g, Increment)
    ensures GrowInv(GrowNext(s, g, Increment))
  {
    IncrementKeepsSums(s, g);
  }

  lemma GrowKeepsGrowInv(s: Pool, g: nat, step: GrowStep)
    requires GrowInv(s) && GrowEnabled(s, g, step)
    ensures GrowInv(GrowNext(s, g, step))
  {
    if step.Insert? {
      InsertKeepsGrowInv(s, g, step.name);
    } else if step.Increment? {
      IncrementKeepsGrowInv(s, g);
    } else {
      TotalUpdate(s.growers, g, GrowNext(s, g, step).growers[g], HasSpawned);
    }
  }

  lemma OtherKeepsGrowInv(s: Pool, w: Wid, p: Proc)
    requires GrowInv(s) && w < |s.procs| && (p.pc == Inserted <==> s.procs[w].pc == Inserted)
    ensures GrowInv(s.(procs := s.procs[w := p]))
  {
    TotalUpdate(s.procs, w, p, Inserting);
  }

  /** A worker's own step decrements when it leaves the loop, deletes after that, and never
      touches a worker that is still being spawned. */
  lemma WorkChanges(s: Pool, w: Wid, step: WorkStep)
    requires WellFormed(s.q) && WorkEnabled(s, w, step)
    ensures s.procs[w].pc != Inserted && NextProc(s, w, step).pc != Inserted
    ensures Counted(s.procs[w]) == Counted(NextProc(s, w, step)) + (if step.Decrement? then 1 else 0)
    ensures InMap(s.procs[w]) == InMap(NextProc(s, w, step)) + (if step.Delete? then 1 else 0)
  {
  }

  lemma WorkKeepsGrowInv(s: Pool, w: Wid, step: WorkStep)
    requires GrowInv(s) && WellFormed(s.q) && WorkEnabled(s, w, step)
    ensures GrowInv(WorkNext(s, w, step))
  {
    WorkChanges(s, w, step);
    OtherKeepsGrowInv(s, w, NextProc(s, w, step));
  }

  lemma EnvKeepsGrowInv(s: Pool, e: EnvStep)
    requires GrowInv(s) && WellFormed(s.q) && EnvEnabled(s, e)
    ensures GrowInv(EnvNext(s, e))
  {
    if IsSignal(e) {
      OtherKeepsGrowInv(s, e.worker, EnvNext(s, e).procs[e.worker]);
    }
  }

  lemma StepKeepsGrowInv(s: Pool, a: Action)
    requires GrowInv(s) && WellFormed(s.q) && Enabled(s, a)
    ensures GrowInv(Step(s, a))
  {
    match a
    case Grower(g, step) => GrowKeepsGrowInv(s, g, step);
    case Worker(w, step) => WorkKeepsGrowInv(s, w, step);
    case Env(e) => EnvKeepsGrowInv(s, e);
  }

  // ----- activeCount against the map -----

  function InMap(p: Proc): nat { if p.pc == Gone then 0 else 1 }

  function Counted(p: Proc): nat {
    if p.pc == Inserted || p.pc == Uncounted || p.pc == Gone then 0 else 1
  }

  /** One for a worker between the two writes of its spawn or of its exit. */
  function Between(p: Proc): nat {
    if p.pc == Inserted || p.pc == Uncounted then 1 else 0
  }

  ghost predicate CountInv(s: Pool) {
    && (forall w: Wid :: w in s.workers <==> w < |s.procs| && s.procs[w].pc != Gone)
    && |s.workers| == Total(s.procs, InMap)
    && s.active == Total(s.procs, Counted)
    && (forall g: nat :: g < |s.growers| && s.growers[g].Read? ==> s.growers[g].current >= 0)
  }

  lemma MoveKeepsCount(s: Pool, w: Wid, p: Proc)
    requires CountInv(s) && w < |s.procs| && InMap(p) == InMap(s.procs[w]) && Counted(p) == Counted(s.procs[w])
    ensures CountInv(s.(procs := s.procs[w := p]))
  {
    TotalUpdate(s.procs, w, p, InMap);
    TotalUpdate(s.procs, w, p, Counted);
  }

  lemma SpawnKeepsCount(s: Pool, p: Proc)
    requires CountInv(s) && p.pc == Inserted
    ensures CountInv(s.(procs := s.procs + [p], workers := s.workers + {|s.procs|}))
  {
    TotalAppend(s.procs, p, InMap);
    TotalAppend(s.procs, p, Counted);
    assert |s.procs| !in s.workers;
  }

  lemma StartKeepsCount(s: Pool, w: Wid, p: Proc)
    requires CountInv(s) && w < |s.procs| && s.procs[w].pc == Inserted && p.pc == AtSelect
    ensures CountInv(s.(procs := s.procs[w := p], active := s.active + 1))
  {
    TotalUpdate(s.procs, w, p, InMap);
    TotalUpdate(s.procs, w, p, Counted);
  }

  lemma GrowKeepsCount(s: Pool, g: nat, step: GrowStep)
    requires CountInv(s) && GrowInv(s) && GrowEnabled(s, g, step)
    ensures CountInv(GrowNext(s, g, step))
  {
    var t := GrowNext(s, g, step);
    if step.Insert? {
      SpawnKeepsCount(s, t.procs[|s.procs|]);
    } else if step.Increment? {
      assert HasSpawned(s.growers[g]) == 1;
      StartKeepsCount(s, s.growers[g].spawned.value, t.procs[s.growers[g].spawned.value]);
    }
  }

  lemma ExitKeepsCount(s: Pool, w: Wid, p: Proc)
    requires CountInv(s) && w < |s.procs| && InMap(s.procs[w]) == 1 && p.pc == Gone && Counted(s.procs[w]) == 0
    ensures CountInv(s.(procs := s.procs[w := p], workers := s.workers - {w}))
  {
    TotalUpdate(s.procs, w, p, InMap);
    TotalUpdate(s.procs, w, p, Counted);
    assert w in s.workers;
  }

  lemma WorkKeepsCount(s: Pool, w: Wid, step: WorkStep)
    requires CountInv(s) && WellFormed(s.q) && WorkEnabled(s, w, step)
    ensures CountInv(WorkNext(s, w, step))
  {
    WorkChanges(s, w, step);
    if step.Delete? {
      ExitKeepsCount(s, w, NextProc(s, w, step));
    } else {
      TotalUpdate(s.procs, w, NextProc(s, w, step), InMap);
      TotalUpdate(s.procs, w, NextProc(s, w, step), Counted);
    }
  }

  lemma EnvKeepsCount(s: Pool, e: EnvStep)
    requires CountInv(s) && WellFormed(s.q) && EnvEnabled(s, e)
    ensures CountInv(EnvNext(s, e))
  {
    if IsSignal(e) {
      MoveKeepsCount(s, e.worker, SignalledProc(s.procs[e.worker], e));
    }
  }

  lemma StepKeepsCount(s: Pool, a: Action)
    requires CountInv(s) && GrowInv(s) && WellFormed(s.q) && Enabled(s, a)
    ensures CountInv(Step(s, a))
  {
    match a
    case Grower(g, step) => GrowKeepsCount(s, g, step);
    case Worker(w, step) => WorkKeepsCount(s, w, step);
    case Env(e) => EnvKeepsCount(s, e);
  }

  lemma {:induction false} GapIsBetween(procs: seq<Proc>)
    ensures Total(procs, InMap) == Total(procs, Counted) + Total(procs, Between)
  {
    if procs != [] {
      GapIsBetween(procs[1..]);
    }
  }

  // ----- The upper bound -----

  /** What the spawning goroutine still may add fits under the maximum. */
  ghost predicate MaxInv(s: Pool) {
    && s.active <= s.cfg.max
    && (forall g: nat :: g < |s.growers| && s.growers[g].Adding? ==> s.active + s.growers[g].left <= s.cfg.max)
    && (forall g: nat :: g < |s.growers| && s.growers[g].Read? ==> s.active <= s.growers[g].current)
  }

  lemma GrowKeepsMax(s: Pool, g: nat, step: GrowStep)
    requires MaxInv(s) && GrowInv(s) && GrowEnabled(s, g, step)
    ensures MaxInv(GrowNext(s, g, step))
  {
    assert step.Increment? ==> forall h: nat :: h < |s.growers| && h != g ==> !Busy(s.growers[h]);
  }

  lemma StepKeepsMax(s: Pool, a: Action)
    requires MaxInv(s) && GrowInv(s) && WellFormed(s.q) && Enabled(s, a)
    ensures MaxInv(Step(s, a))
  {
    match a
    case Grower(g, step) => GrowKeepsMax(s, g, step);
    case Worker(_, _) =>
    case Env(_) =>
  }

  lemma {:induction false} AllResting(n: nat)
    ensures Total(seq(n, _ => Resting), HasSpawned) == 0
  {
    if n > 0 {
      assert seq(n, _ => Resting)[1..] == seq(n - 1, _ => Resting);
      AllResting(n - 1);
    }
  }

  lemma NewPoolCounts(cfg: Config, scalers: nat)
    ensures GrowInv(NewPool(cfg, scalers)) && CountInv(NewPool(cfg, scalers))
    ensures cfg.min <= cfg.max ==> MaxInv(NewPool(cfg, scalers))
  {
    var s := NewPool(cfg, scalers);
    assert s.growers[1..] == seq(scalers, _ => Resting);
    AllResting(scalers);
  }

  lemma StepKeepsCounts(s: Pool, a: Action)
    requires GrowInv(s) && CountInv(s) && WellFormed(s.q) && Enabled(s, a)
    ensures GrowInv(Step(s, a)) && CountInv(Step(s, a)) && (MaxInv(s) ==> MaxInv(Step(s, a)))
    ensures Step(s, a).cfg == s.cfg
  {
    StepKeepsGrowInv(s, a);
    StepKeepsCount(s, a);
    if MaxInv(s) {
      StepKeepsMax(s, a);
    }
    StepKeepsConfig(s, a);
  }

  lemma StepKeepsConfig(s: Pool, a: Action)
    requires WellFormed(s.q) && Enabled(s, a)
    ensures Step(s, a).cfg == s.cfg
  {
  }

  lemma {:induction false} RunKeepsCounts(s: Pool, acts: seq<Action>)
    requires GrowInv(s) && CountInv(s) && Legal(s, acts)
    ensures GrowInv(Final(s, acts)) && CountInv(Final(s, acts))
    ensures MaxInv(s) ==> MaxInv(Final(s, acts))
    ensures Final(s, acts).cfg == s.cfg
    decreases |acts|
  {
    if acts != [] {
      StepKeepsCounts(s, acts[0]);
      RunKeepsCounts(Step(s, acts[0]), acts[1..]);
    }
  }

  /** At every point of every interleaving of spawns and exits `activeCount` falls short of the
      size of the map by exactly the workers that are between their two writes. */
  lemma ActiveCountAgainstMap(cfg: Config, scalers: nat, acts: seq<Action>)
    requires Legal(NewPool(cfg, scalers), acts)
    ensures var s := Final(NewPool(cfg, scalers), acts);
            0 <= s.active <= |s.workers| && |s.workers| - s.active == Total(s.procs, Between)
  {
    NewPoolCounts(cfg, scalers);
    RunKeepsCounts(NewPool(cfg, scalers), acts);
    GapIsBetween(Final(NewPool(cfg, scalers), acts).procs);
  }

  /** `Start` alone, run to the end, counts every worker it was asked to spawn. */
  lemma {:induction false} StartSpawnsAll(s: Pool) returns (acts: seq<Action>)
    requires WellFormed(s.q) && |s.growers| > 0 && s.growers[0].Adding? && s.growers[0].spawned.None?
    ensures Legal(s, acts) && Final(s, acts).active == s.active + s.growers[0].left
    decreases s.growers[0].left
  {
    if s.growers[0].left == 0 {
      acts := [];
    } else {
      var s1 := Step(s, Grower(0, Insert("")));
      var s2 := Step(s1, Grower(0, Increment));
      var rest := StartSpawnsAll(s2);
      var tail := [Grower(0, Increment)] + rest;
      assert tail[1..] == rest && Legal(s1, tail);
      acts := [Grower(0, Insert(""))] + tail;
      assert acts[1..] == tail;
    }
  }

  ghost predicate NeverExceedsMax(cfg: Config, scalers: nat) {
    forall acts :: Legal(NewPool(cfg, scalers), acts) ==> Final(NewPool(cfg, scalers), acts).active <= cfg.max
  }

  /** `activeCount` stays within `MaxWorkers` in every interleaving of `Start`, any number of
      scalers, exits and signals if and only if the configuration has min <= max. */
  lemma MaxHoldsExactlyWhenConfigured(cfg: Config, scalers: nat)
    ensures NeverExceedsMax(cfg, scalers) <==> cfg.min <= cfg.max
  {
    NewPoolCounts(cfg, scalers);
    if cfg.min <= cfg.max {
      forall acts | Legal(NewPool(cfg, scalers), acts)
        ensures Final(NewPool(cfg, scalers), acts).active <= cfg.max
      {
        RunKeepsCounts(NewPool(cfg, scalers), acts);
      }
    } else {
      var acts := StartSpawnsAll(NewPool(cfg, scalers));
    }
  }
}
