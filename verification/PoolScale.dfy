/** `Scale`, `spawnWorker`, `signalStop` and the deferred exit of `workerLoop` on the pool's own
    objects, called at moments when no worker is between its two counting writes. */
module PoolScale {

  datatype WorkerState = Idle | Busy | Stopping | Stopped

  class Worker {
    const id: string
    var status: WorkerState
    var stopClosed: bool      // stopChan closed; sync.Once has run
    var stopChanDone: bool

    constructor (id: string)
      ensures this.id == id && status == Idle && !stopClosed && !stopChanDone
    {
      this.id := id;
      status, stopClosed, stopChanDone := Idle, false, false;
    }

    /** The body runs once: a second call neither closes again nor reports success. */
    method SignalStop() returns (sent: bool)
      modifies this`stopClosed, this`stopChanDone
      ensures sent == !old(stopClosed) && stopClosed
      ensures stopChanDone == (sent || old(stopChanDone))
    {
      sent := false;
      if !stopClosed {
        stopClosed := true;
        stopChanDone := true;
        sent := true;
      }
    }
  }

  ghost function Signalled(ws: set<Worker>): set<Worker>
    reads ws
  {
    set w | w in ws && w.stopClosed
  }

  /** The workers that `Scale` can still signal. */
  ghost function Stoppable(ws: set<Worker>): set<Worker>
    reads ws
  {
    set w | w in ws && w.status == Idle && !w.stopClosed
  }

  function AtMost(n: nat, bound: nat): nat {
    if n < bound then n else bound
  }

  function Clamp(target: int, min: int, max: int): int {
    var t := if target < min then min else target;
    if t > max then max else t
  }

  lemma EnoughSignalled<T>(signalled: set<T>, stoppable: set<T>, need: nat)
    requires signalled <= stoppable && |signalled| <= need && (|signalled| < need ==> stoppable <= signalled)
    ensures |signalled| == AtMost(|stoppable|, need)
    ensures |signalled| < need ==> signalled == stoppable
  {
    assert stoppable == signalled + (stoppable - signalled);
    assert |stoppable| == |signalled| + |stoppable - signalled|;
    assert |signalled| < need ==> signalled == stoppable;
  }

  class AdaptiveWorkerPool {
    const min: int
    const max: int
    var workers: map<string, Worker>
    var activeCount: int

    constructor (min: int, max: int)
      ensures this.min == min && this.max == max && Valid() && workers == map[]
    {
      this.min, this.max := min, max;
      workers, activeCount := map[], 0;
    }

    /** Every worker is registered under its own identifier, and all of them are counted. */
    ghost predicate Valid()
      reads this
    {
      && (forall id :: id in workers ==> workers[id].id == id)
      && activeCount == |workers.Values|
    }

    /** `id` is the uuid prefix. */
    method SpawnWorker(id: string) returns (ghost spawned: Worker)
      requires Valid() && id !in workers
      modifies this
      ensures Valid() && fresh(spawned) && spawned.status == Idle && !spawned.stopClosed
      ensures workers == old(workers)[id := spawned]
      ensures workers.Values == old(workers.Values) + {spawned} && activeCount == old(activeCount) + 1
    {
      var worker := new Worker(id);
      assert forall k :: k in workers ==> workers[k] != worker;
      workers := workers[id := worker];
      activeCount := activeCount + 1;
      spawned := worker;
      assert workers.Values == old(workers.Values) + {worker} by {
        assert workers[id] == worker;
        forall w | w in old(workers.Values) ensures w in workers.Values {
          var k :| k in old(workers) && old(workers)[k] == w;
          assert workers[k] == w;
        }
      }
    }

    /** The deferred block of `workerLoop`. */
    method WorkerExit(worker: Worker)
      requires Valid() && worker in workers.Values
      modifies this, worker`status
      ensures Valid() && worker.status == Stopped
      ensures workers == old(workers) - {worker.id}
      ensures workers.Values == old(workers.Values) - {worker} && activeCount == old(activeCount) - 1
    {
      activeCount := activeCount - 1;
      workers := workers - {worker.id};
      worker.status := Stopped;
      assert workers.Values == old(workers.Values) - {worker} by {
        forall w | w in old(workers.Values) && w != worker ensures w in workers.Values {
          var k :| k in old(workers) && old(workers)[k] == w;
          assert k != worker.id && workers[k] == w;
        }
      }
    }

    /** The locked loop of `Scale` over the map, in an arbitrary order; `signalled` is the set
        of workers whose `signalStop` call returned true. */
    method StopIdle(need: nat) returns (ghost signalled: set<Worker>)
      modifies workers.Values
      ensures forall w :: w in workers.Values ==> w.status == old(w.status)
      ensures signalled <= old(Stoppable(workers.Values))
      ensures |signalled| == AtMost(|old(Stoppable(workers.Values))|, need)
      ensures forall w :: w in signalled ==> w in workers.Values && w.status == Idle && !old(w.stopClosed)
      ensures |signalled| <= need
      ensures |signalled| < need ==>
                forall w :: w in workers.Values && w.status == Idle && !old(w.stopClosed) ==> w in signalled
      ensures forall w :: w in workers.Values ==>
                && w.stopClosed == (old(w.stopClosed) || w in signalled)
                && w.stopChanDone == (old(w.stopChanDone) || w in signalled)
    {
      var stopped := 0;
      var left := workers.Values;
      signalled := {};
      ghost var stoppable := Stoppable(workers.Values);
      while left != {}
        invariant left <= workers.Values
        invariant forall w :: w in workers.Values ==>
                    && w.status == old(w.status) && w.stopClosed == (old(w.stopClosed) || w in signalled)
                    && w.stopChanDone == (old(w.stopChanDone) || w in signalled)
        invariant signalled <= stoppable && signalled !! left && |signalled| == stopped <= need
        invariant stopped < need ==> forall w :: w in stoppable ==> w in left || w in signalled
        decreases left
      {
        var worker :| worker in left;
        left := left - {worker};
        if worker.status == Idle && stopped < need {
          var sent := worker.SignalStop();
          if sent {
            stopped := stopped + 1;
            signalled := signalled + {worker};
          }
        }
      }
      EnoughSignalled(signalled, stoppable, need);
      assert |signalled| < need ==> signalled == stoppable;
    }

    /** The spawning loop of `Scale`. */
    method SpawnMany(count: nat, newIds: seq<string>)
      requires Valid() && count <= |newIds|
      requires forall i :: 0 <= i < |newIds| ==> newIds[i] !in workers
      requires forall i, j :: 0 <= i < j < |newIds| ==> newIds[i] != newIds[j]
      modifies this
      ensures Valid() && activeCount == old(activeCount) + count
      ensures old(workers.Values) <= workers.Values
      ensures forall w :: w in workers.Values - old(workers.Values) ==> fresh(w) && w.status == Idle && !w.stopClosed
    {
      var i := 0;
      while i < count
        invariant 0 <= i <= count && Valid() && activeCount == old(activeCount) + i
        invariant forall k :: i <= k < |newIds| ==> newIds[k] !in workers
        invariant old(workers.Values) <= workers.Values
        invariant forall w :: w in workers.Values - old(workers.Values) ==>
                  fresh(w) && w.status == Idle && !w.stopClosed
      {
        ghost var before := workers.Values;
        ghost var spawned := SpawnWorker(newIds[i]);
        assert workers.Values == before + {spawned};
        assert forall w :: w in workers.Values - old(workers.Values) ==>
               w == spawned || w in before - old(workers.Values);
        i := i + 1;
      }
    }

    /** `newIds` are the uuid prefixes of the workers that may be spawned.  Shrinking signals
        exactly the surplus when enough workers are idle; the workers that stay once all the
        signalled ones have exited miss the target by those that had been signalled before. */
    method Scale(targetCount: int, newIds: seq<string>) returns (ghost signalled: set<Worker>)
      requires Valid() && Clamp(targetCount, min, max) - activeCount <= |newIds|
      requires forall i :: 0 <= i < |newIds| ==> newIds[i] !in workers
      requires forall i, j :: 0 <= i < j < |newIds| ==> newIds[i] != newIds[j]
      modifies this, workers.Values
      ensures Valid() && forall w :: w in old(workers.Values) ==> w.status == old(w.status)
      // growing stops at the target, which is within the limits
      ensures activeCount <= old(activeCount) || activeCount <= max
      ensures min <= targetCount <= max && old(activeCount) <= targetCount ==> activeCount == targetCount
      ensures min <= max < targetCount && old(activeCount) <= max ==> activeCount == max
      ensures targetCount < min <= max && old(activeCount) <= min ==> activeCount == min
      // shrinking signals idle workers that nobody has signalled
      ensures forall w :: w in signalled ==>
                w in old(workers.Values) && old(w.status) == Idle && !old(w.stopClosed) && w.stopClosed
      ensures min <= targetCount <= max && targetCount < old(activeCount) ==>
                |signalled| <= old(activeCount) - targetCount
      ensures var t := Clamp(targetCount, min, max); var n := old(activeCount);
              if t >= n then
                && activeCount == t && old(workers.Values) <= workers.Values && signalled == {}
                && (forall w :: w in workers.Values - old(workers.Values) ==>
                     fresh(w) && w.status == Idle && !w.stopClosed)
                && (forall w :: w in old(workers.Values) ==> w.stopClosed == old(w.stopClosed))
              else
                && activeCount == n && workers == old(workers)
                && signalled <= old(Stoppable(workers.Values))
                && |signalled| == AtMost(|old(Stoppable(workers.Values))|, n - t)
                && Signalled(workers.Values) == old(Signalled(workers.Values)) + signalled
                && (|old(Stoppable(workers.Values))| >= n - t ==>
                      && |workers.Values - Signalled(workers.Values)| == t - |old(Signalled(workers.Values))|
                      && (|workers.Values - Signalled(workers.Values)| == t <==> old(Signalled(workers.Values)) == {}))
    {
      var target := targetCount;
      if target < min {
        target := min;
      }
      if target > max {
        target := max;
      }
      signalled := {};
      var diff := target - activeCount;
      if diff > 0 {
        SpawnMany(diff, newIds);
      } else if diff < 0 {
        ghost var before := Signalled(workers.Values);
        signalled := StopIdle(-diff);
        assert Signalled(workers.Values) == before + signalled;
        LeftAfterExits(workers.Values, before, signalled);
      }
    }

    /** Every signalled worker leaves its loop, in an arbitrary order. */
    method SignalledExit()
      requires Valid()
      modifies this, workers.Values
      ensures Valid() && workers.Values == old(workers.Values - Signalled(workers.Values))
      ensures activeCount == |old(workers.Values - Signalled(workers.Values))|
    {
      var left := set w | w in workers.Values && w.stopClosed;
      while left != {}
        invariant Valid() && left <= workers.Values
        invariant workers.Values - left == old(workers.Values - Signalled(workers.Values))
        invariant workers.Values <= old(workers.Values)
        decreases left
      {
        var worker :| worker in left;
        left := left - {worker};
        WorkerExit(worker);
      }
    }

    /** `Scale`, and then the exits that it asks for: with enough idle workers the count settles
        at the clamped target less the workers that had been signalled before the call. */
    method ScaleAndSettle(targetCount: int, newIds: seq<string>)
      requires Valid() && Clamp(targetCount, min, max) - activeCount <= |newIds|
      requires forall i :: 0 <= i < |newIds| ==> newIds[i] !in workers
      requires forall i, j :: 0 <= i < j < |newIds| ==> newIds[i] != newIds[j]
      requires |Stoppable(workers.Values)| >= activeCount - Clamp(targetCount, min, max)
      modifies this, workers.Values
      ensures Valid() && activeCount == Clamp(targetCount, min, max) - |old(Signalled(workers.Values))|
      ensures activeCount == Clamp(targetCount, min, max) <==> old(Signalled(workers.Values)) == {}
      // when nobody had been signalled
      ensures min <= targetCount <= max && (forall w :: w in old(workers.Values) ==> !old(w.stopClosed)) ==>
                activeCount == targetCount
      ensures min <= max < targetCount && (forall w :: w in old(workers.Values) ==> !old(w.stopClosed)) ==>
                activeCount == max
      ensures targetCount < min <= max && (forall w :: w in old(workers.Values) ==> !old(w.stopClosed)) ==>
                activeCount == min
    {
      ghost var before := Signalled(workers.Values);
      ghost var signalled := Scale(targetCount, newIds);
      assert Signalled(workers.Values) == before + signalled;
      LeftAfterExits(workers.Values, before, signalled);
      SignalledExit();
    }
  }

  lemma LeftAfterExits<T>(all: set<T>, before: set<T>, now: set<T>)
    requires before <= all && now <= all && before !! now
    ensures |all - (before + now)| == |all| - |before| - |now|
  {
    assert |before + now| == |before| + |now|;
    assert all == (before + now) + (all - (before + now));
  }
}
