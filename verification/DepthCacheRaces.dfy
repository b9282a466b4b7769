/** `GetQueueDepth` and the queue's mutators interleaved.

    The cache check, the repository query and the store are three separate critical sections,
    and a mutator invalidates the cache in a section of its own after it has changed the
    repository.  At most as many tasks are pending as the query may return, so a query reads the
    true depth. */
module DepthCacheRaces {
  import opened Tasks

  type D = map<Priority, nat>

  datatype Reader =
    | Ready
    | Missed
    | Queried(value: D, at: int)
    | Returned(value: D, queried: int, stored: int, returned: int)

  /** `cacheQueried` records when the cached value was queried; the program does not store it. */
  datatype State = State(
    now: int,
    depth: D,
    cache: D,
    cacheTime: int,
    cacheQueried: int,
    dirty: nat,             // mutators that have not invalidated yet
    readers: seq<Reader>)

  datatype Action =
    | Tick(passed: nat)
    | Mutate(depth: D)
    | Invalidate
    | Check(r: nat)
    | Query(r: nat)
    | Store(r: nat)

  predicate Enabled(s: State, a: Action) {
    match a
    case Tick(_) => true
    case Mutate(_) => true
    case Invalidate => s.dirty > 0
    case Check(r) => r < |s.readers| && s.readers[r].Ready?
    case Query(r) => r < |s.readers| && s.readers[r].Missed?
    case Store(r) => r < |s.readers| && s.readers[r].Queried?
  }

  function Step(s: State, a: Action, ttl: int): State
    requires Enabled(s, a)
  {
    match a
    case Tick(passed) => s.(now := s.now + passed)
    case Mutate(depth) => s.(depth := depth, dirty := s.dirty + 1)
    case Invalidate => s.(cacheTime := 0, dirty := s.dirty - 1)
    case Check(r) =>
      if s.now - s.cacheTime < ttl && |s.cache| > 0
      then s.(readers := s.readers[r := Returned(s.cache, s.cacheQueried, s.cacheTime, s.now)])
      else s.(readers := s.readers[r := Missed])
    case Query(r) => s.(readers := s.readers[r := Queried(s.depth, s.now)])
    case Store(r) =>
      var reader := s.readers[r];
      s.(cache := reader.value, cacheTime := s.now, cacheQueried := reader.at,
         readers := s.readers[r := Returned(reader.value, reader.at, s.now, s.now)])
  }

  ghost predicate StepAt(run: seq<State>, acts: seq<Action>, ttl: int, i: nat)
    requires |run| == |acts| + 1 && i < |acts|
  {
    Enabled(run[i], acts[i]) && run[i + 1] == Step(run[i], acts[i], ttl)
  }

  ghost predicate IsRun(run: seq<State>, acts: seq<Action>, ttl: int) {
    |run| == |acts| + 1 && forall i: nat :: i < |acts| ==> StepAt(run, acts, ttl, i)
  }

  /** No operation has begun, and the clock is past the zero time by at least the TTL. */
  ghost predicate Initial(s: State, ttl: int) {
    && 0 < ttl <= s.now && s.cacheTime == 0 && s.dirty == 0
    && forall r :: 0 <= r < |s.readers| ==> s.readers[r].Ready?
  }

  /** The depth `d` was the true one at time `t`, in one of the first `k + 1` states. */
  ghost predicate WasTrue(run: seq<State>, k: nat, d: D, t: int)
    requires k < |run|
  {
    exists i: nat :: i <= k && run[i].depth == d && run[i].now == t
  }

  ghost predicate ReaderOk(run: seq<State>, k: nat, ttl: int, reader: Reader)
    requires k < |run|
  {
    match reader
    case Queried(v, at) => WasTrue(run, k, v, at) && at <= run[k].now
    case Returned(v, queried, stored, returned) =>
      WasTrue(run, k, v, queried) && queried <= stored <= returned <= run[k].now && returned - stored < ttl
    case _ => true
  }

  ghost predicate CacheOk(run: seq<State>, k: nat, ttl: int)
    requires k < |run|
  {
    && ttl <= run[k].now && 0 <= run[k].cacheTime <= run[k].now
    && (run[k].cacheTime != 0 ==>
          WasTrue(run, k, run[k].cache, run[k].cacheQueried) && run[k].cacheQueried <= run[k].cacheTime)
  }

  lemma WasTrueLater(run: seq<State>, k: nat, d: D, t: int)
    requires k + 1 < |run| && WasTrue(run, k, d, t)
    ensures WasTrue(run, k + 1, d, t)
  {
    var i: nat :| i <= k && run[i].depth == d && run[i].now == t;
    assert i <= k + 1;
  }

  lemma ReaderOkLater(run: seq<State>, k: nat, ttl: int, reader: Reader)
    requires k + 1 < |run| && ReaderOk(run, k, ttl, reader) && run[k].now <= run[k + 1].now
    ensures ReaderOk(run, k + 1, ttl, reader)
  {
    match reader
    case Queried(v, at) => WasTrueLater(run, k, v, at);
    case Returned(v, queried, _, _) => WasTrueLater(run, k, v, queried);
    case _ =>
  }

  lemma StepReaderOk(run: seq<State>, acts: seq<Action>, ttl: int, k: nat, r: nat)
    requires IsRun(run, acts, ttl) && k < |acts| && 0 < ttl && CacheOk(run, k, ttl)
    requires r < |run[k + 1].readers| && |run[k].readers| == |run[k + 1].readers|
    requires ReaderOk(run, k, ttl, run[k].readers[r])
    ensures ReaderOk(run, k + 1, ttl, run[k + 1].readers[r])
  {
    assert StepAt(run, acts, ttl, k);
    ReaderOkLater(run, k, ttl, run[k].readers[r]);
    var s, s', a := run[k], run[k + 1], acts[k];
    if a == Query(r) {
      assert k <= k + 1 && run[k].depth == s.depth && run[k].now == s.now;
    } else if a.Check? && a.r == r && s'.readers[r].Returned? {
      WasTrueLater(run, k, s.cache, s.cacheQueried);
    }
  }

  lemma StepCacheOk(run: seq<State>, acts: seq<Action>, ttl: int, k: nat)
    requires IsRun(run, acts, ttl) && k < |acts| && 0 < ttl && CacheOk(run, k, ttl)
    requires forall r :: 0 <= r < |run[k].readers| ==> ReaderOk(run, k, ttl, run[k].readers[r])
    ensures CacheOk(run, k + 1, ttl) && |run[k].readers| == |run[k + 1].readers|
  {
    assert StepAt(run, acts, ttl, k);
    if run[k].cacheTime != 0 {
      WasTrueLater(run, k, run[k].cache, run[k].cacheQueried);
    }
    if acts[k].Store? {
      var reader := run[k].readers[acts[k].r];
      WasTrueLater(run, k, reader.value, reader.at);
    }
  }

  lemma {:induction false} RunOk(run: seq<State>, acts: seq<Action>, ttl: int, k: nat)
    requires IsRun(run, acts, ttl) && Initial(run[0], ttl) && k < |run|
    ensures CacheOk(run, k, ttl) && forall r :: 0 <= r < |run[k].readers| ==> ReaderOk(run, k, ttl, run[k].readers[r])
  {
    if k > 0 {
      RunOk(run, acts, ttl, k - 1);
      StepCacheOk(run, acts, ttl, k - 1);
      forall r | 0 <= r < |run[k].readers| ensures ReaderOk(run, k, ttl, run[k].readers[r]) {
        StepReaderOk(run, acts, ttl, k - 1, r);
      }
    }
  }

  /** In every interleaving a returned depth was the true one at the instant of the query behind
      it, and that instant is younger than the TTL plus the gap between that query and its store. */
  lemma ReturnedDepthWasTrue(run: seq<State>, acts: seq<Action>, ttl: int, k: nat, r: nat)
    requires IsRun(run, acts, ttl) && Initial(run[0], ttl) && k < |run|
    requires r < |run[k].readers| && run[k].readers[r].Returned?
    ensures var ret := run[k].readers[r]; var gap := ret.stored - ret.queried;
            WasTrue(run, k, ret.value, ret.queried) && 0 <= ret.returned - ret.queried < ttl + gap
  {
    RunOk(run, acts, ttl, k);
    assert ReaderOk(run, k, ttl, run[k].readers[r]);
  }

  // ----- What interleaving costs -----

  /** The cached value was read at step `i` and stored at step `j` by one reader, and nothing has
      been stored or invalidated since; once every mutator has invalidated, the depth is still
      the one of the store. */
  ghost predicate CachedBetween(run: seq<State>, acts: seq<Action>, k: nat, i: nat, j: nat)
    requires |run| == |acts| + 1 && k < |run|
  {
    && i < j < k && acts[i].Query? && acts[j] == Store(acts[i].r)
    && (forall m :: j < m < k ==> !acts[m].Store? && !acts[m].Invalidate?)
    && run[k].cache == run[i].depth
    && (run[k].dirty == 0 ==> run[k].depth == run[j].depth)
  }

  ghost predicate CacheOrigin(run: seq<State>, acts: seq<Action>, k: nat)
    requires |run| == |acts| + 1 && k < |run|
  {
    run[k].cacheTime != 0 ==> exists i: nat, j: nat :: CachedBetween(run, acts, k, i, j)
  }

  /** Reader `r` is between its query and its store. */
  predicate HoldsValue(s: State, r: nat) {
    r < |s.readers| && s.readers[r].Queried?
  }

  /** The value that reader `r` is about to store was read at step `i`. */
  ghost predicate QueriedAt(run: seq<State>, acts: seq<Action>, k: nat, r: nat, i: nat)
    requires |run| == |acts| + 1 && k < |run|
  {
    i < k && acts[i] == Query(r) && HoldsValue(run[k], r) && run[k].readers[r].value == run[i].depth
  }

  ghost predicate QueryOrigin(run: seq<State>, acts: seq<Action>, k: nat)
    requires |run| == |acts| + 1 && k < |run|
  {
    forall r: nat :: HoldsValue(run[k], r) ==> WasQueried(run, acts, k, r)
  }

  ghost predicate WasQueried(run: seq<State>, acts: seq<Action>, k: nat, r: nat)
    requires |run| == |acts| + 1 && k < |run|
  {
    exists i: nat :: QueriedAt(run, acts, k, r, i)
  }

  lemma StepQueryOrigin(run: seq<State>, acts: seq<Action>, ttl: int, k: nat)
    requires IsRun(run, acts, ttl) && k < |acts| && QueryOrigin(run, acts, k)
    ensures QueryOrigin(run, acts, k + 1)
  {
    assert StepAt(run, acts, ttl, k);
    var now := k + 1;
    forall r: nat | HoldsValue(run[now], r) ensures WasQueried(run, acts, now, r) {
      if acts[k] == Query(r) {
        assert QueriedAt(run, acts, now, r, k);
      } else {
        assert HoldsValue(run[k], r) && WasQueried(run, acts, k, r);
        var i: nat :| QueriedAt(run, acts, k, r, i);
        assert QueriedAt(run, acts, now, r, i);
      }
    }
  }

  lemma StepCacheOrigin(run: seq<State>, acts: seq<Action>, ttl: int, k: nat)
    requires IsRun(run, acts, ttl) && k < |acts| && QueryOrigin(run, acts, k) && CacheOrigin(run, acts, k)
    ensures CacheOrigin(run, acts, k + 1)
  {
    assert StepAt(run, acts, ttl, k);
    if acts[k].Store? {
      var r := acts[k].r;
      assert HoldsValue(run[k], r) && WasQueried(run, acts, k, r);
      var i: nat :| QueriedAt(run, acts, k, r, i);
      assert CachedBetween(run, acts, k + 1, i, k);
    } else if run[k + 1].cacheTime != 0 {
      var i: nat, j: nat :| CachedBetween(run, acts, k, i, j);
      assert CachedBetween(run, acts, k + 1, i, j);
    }
  }

  lemma {:induction false} RunOrigins(run: seq<State>, acts: seq<Action>, ttl: int, k: nat)
    requires IsRun(run, acts, ttl) && Initial(run[0], ttl) && k < |run|
    ensures QueryOrigin(run, acts, k) && CacheOrigin(run, acts, k)
  {
    if k > 0 {
      RunOrigins(run, acts, ttl, k - 1);
      StepQueryOrigin(run, acts, ttl, k - 1);
      StepCacheOrigin(run, acts, ttl, k - 1);
    }
  }

  /** Step `k` is a check of reader `r` that finds the cache fresh. */
  ghost predicate Hits(run: seq<State>, acts: seq<Action>, k: nat, r: nat)
    requires |run| == |acts| + 1
  {
    k < |acts| && acts[k] == Check(r) && r < |run[k + 1].readers| && run[k + 1].readers[r].Returned?
  }

  lemma HitMeansCached(run: seq<State>, acts: seq<Action>, ttl: int, k: nat, r: nat)
    requires IsRun(run, acts, ttl) && Initial(run[0], ttl) && Hits(run, acts, k, r)
    ensures run[k].cacheTime != 0 && run[k + 1].readers[r].value == run[k].cache
  {
    assert StepAt(run, acts, ttl, k);
    RunOk(run, acts, ttl, k);
  }

  /** In every interleaving, a hit that finds every mutation invalidated serves the value of the
      last store, which one query had read, and it is the true depth if and only if the depth at the store was
      still the depth of the query. */
  lemma HitIsTrueIff(run: seq<State>, acts: seq<Action>, ttl: int, k: nat, r: nat) returns (i: nat, j: nat)
    requires IsRun(run, acts, ttl) && Initial(run[0], ttl) && Hits(run, acts, k, r) && run[k].dirty == 0
    ensures i < j < k && acts[i].Query? && acts[j] == Store(acts[i].r)
    ensures forall m :: j < m < k ==> !acts[m].Store? && !acts[m].Invalidate?
    ensures run[k + 1].readers[r].value == run[i].depth
    ensures run[k + 1].readers[r].value == run[k].depth <==> run[i].depth == run[j].depth
  {
    RunOrigins(run, acts, ttl, k);
    HitMeansCached(run, acts, ttl, k, r);
    i, j :| CachedBetween(run, acts, k, i, j);
  }

  /** No mutation falls between the query of a reader and its store. */
  ghost predicate WindowsClean(run: seq<State>, acts: seq<Action>)
    requires |run| == |acts| + 1
  {
    forall m: nat, r: nat :: m < |acts| && acts[m].Mutate? ==> !HoldsValue(run[m], r)
  }

  ghost predicate CleanInv(s: State) {
    && (forall r: nat :: HoldsValue(s, r) ==> s.readers[r].value == s.depth)
    && (s.dirty == 0 && s.cacheTime != 0 ==> s.cache == s.depth)
  }

  lemma StepKeepsCacheTrue(s: State, a: Action, ttl: int)
    requires CleanInv(s) && Enabled(s, a) && (a.Mutate? ==> forall r: nat :: !HoldsValue(s, r))
    ensures CleanInv(Step(s, a, ttl))
  {
    var s' := Step(s, a, ttl);
    forall r: nat | HoldsValue(s', r) ensures s'.readers[r].value == s'.depth {
      assert a != Query(r) ==> HoldsValue(s, r);
    }
    if a.Store? {
      assert HoldsValue(s, a.r);
    }
  }

  lemma {:induction false} CleanWindowsKeepCacheTrue(run: seq<State>, acts: seq<Action>, ttl: int, k: nat)
    requires IsRun(run, acts, ttl) && Initial(run[0], ttl) && WindowsClean(run, acts) && k < |run|
    ensures CleanInv(run[k])
  {
    if k > 0 {
      CleanWindowsKeepCacheTrue(run, acts, ttl, k - 1);
      assert StepAt(run, acts, ttl, k - 1);
      StepKeepsCacheTrue(run[k - 1], acts[k - 1], ttl);
    }
  }

  /** When no mutation falls into such a window, every hit that finds every mutation invalidated
      is the true depth. */
  lemma CleanWindowsMakeHitsTrue(run: seq<State>, acts: seq<Action>, ttl: int, k: nat, r: nat)
    requires IsRun(run, acts, ttl) && Initial(run[0], ttl) && WindowsClean(run, acts)
    requires Hits(run, acts, k, r) && run[k].dirty == 0
    ensures run[k + 1].readers[r].value == run[k].depth
  {
    HitMeansCached(run, acts, ttl, k, r);
    CleanWindowsKeepCacheTrue(run, acts, ttl, k);
  }

  /** Time passing, and readers that check or query, leave cache and repository alone. */
  predicate LeavesCache(a: Action) {
    a.Tick? || a.Check? || a.Query?
  }

  lemma {:induction false} CacheStays(run: seq<State>, acts: seq<Action>, ttl: int, j: nat, q: nat, k: nat)
    requires IsRun(run, acts, ttl) && j < k < |run| && acts[j] == Store(q) && HoldsValue(run[j], q)
    requires forall m :: j < m < k ==> LeavesCache(acts[m])
    ensures run[k].cache == run[j].readers[q].value && run[k].cacheTime == run[j].now && run[k].depth == run[j].depth
    decreases k
  {
    assert StepAt(run, acts, ttl, k - 1);
    if k - 1 > j {
      CacheStays(run, acts, ttl, j, q, k - 1);
    }
  }

  /** A mutation that falls into the window, leaves the depth changed and is invalidated before
      the store makes every hit stale, in every run, until something else is mutated, stored or
      invalidated: any check within the TTL is one. */
  lemma LateStoreMakesHitsStale(run: seq<State>, acts: seq<Action>, ttl: int, i: nat, j: nat, q: nat, k: nat, r: nat)
    requires IsRun(run, acts, ttl) && Initial(run[0], ttl) && j < k < |acts|
    requires QueriedAt(run, acts, j, q, i) && acts[j] == Store(q) && run[j].dirty == 0
    requires run[i].depth != run[j].depth && run[i].depth != map[]
    requires (forall m :: j < m < k ==> LeavesCache(acts[m])) && acts[k] == Check(r) && run[k].now - run[j].now < ttl
    ensures Hits(run, acts, k, r) && run[k + 1].readers[r].value == run[i].depth != run[k].depth
  {
    CacheStays(run, acts, ttl, j, q, k);
    assert StepAt(run, acts, ttl, k);
  }

  /** A mutation and its invalidation that fall between a reader's query and its store are
      lost: with every operation finished, the next reader is served a depth that is not the
      true one. */
  lemma LateStoreOutlivesInvalidation(s: State, d: D, ttl: int) returns (run: seq<State>, acts: seq<Action>)
    requires Initial(s, ttl) && |s.readers| == 2 && d != s.depth && s.depth != map[]
    ensures IsRun(run, acts, ttl) && run[0] == s
    ensures var t := run[|acts|];
            && t.dirty == 0 && (forall r :: 0 <= r < |t.readers| ==> t.readers[r].Returned?)
            && t.depth == d && |t.readers| == 2 && t.readers[1].value == s.depth
  {
    acts := [Check(0), Query(0), Mutate(d), Invalidate, Store(0), Check(1)];
    var s1 := Step(s, acts[0], ttl);
    var s2 := Step(s1, acts[1], ttl);
    var s3 := Step(s2, acts[2], ttl);
    var s4 := Step(s3, acts[3], ttl);
    var s5 := Step(s4, acts[4], ttl);
    var s6 := Step(s5, acts[5], ttl);
    run := [s, s1, s2, s3, s4, s5, s6];
    forall i: nat | i < |acts| ensures StepAt(run, acts, ttl, i) {
    }
  }
}
