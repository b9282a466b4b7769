/** `InMemoryTaskQueue` over shared, mutable task objects.

    Every method is tied to the value-level operation of `QueueModel`.  Each call of
    `time.Now()` is a parameter; `known` is the set of tasks ever enqueued. */
module InMemoryQueue {
  import opened Tasks
  import opened QueueSort
  import opened QueueModel
  import opened DepthCounts
  import TaskIds

  ghost function Contents(objs: set<BackgroundTask>): map<BackgroundTask, TaskRec>
    reads objs
  {
    map t | t in objs :: t.Rec()
  }

  /** When only `task` has changed since the contents were `was`. */
  lemma OneTaskChanged(q: InMemoryTaskQueue, was: map<BackgroundTask, TaskRec>, task: BackgroundTask)
    requires forall t :: t in was && t != task ==> was[t] == t.Rec()
    requires q.known == was.Keys + {task}
    ensures q.View() == QState(was[task := task.Rec()], q.tasks, q.queue, q.idCounter)
  {
  }

  class InMemoryTaskQueue {
    var tasks: map<string, BackgroundTask>
    var queue: seq<BackgroundTask>
    var idCounter: nat
    ghost var known: set<BackgroundTask>

    ghost function View(): QState<BackgroundTask>
      reads this, known
    {
      QState(Contents(known), tasks, queue, idCounter)
    }

    ghost predicate Valid()
      reads this, known
    {
      WellFormed(View())
    }

    /** The contents of the map, by identifier. */
    ghost function Rows(): Rows
      requires Valid()
      reads this, known
    {
      map id | id in tasks :: tasks[id].Rec()
    }

    constructor ()
      ensures Valid() && View() == NewQueue() && known == {} && QueueInv(View())
    {
      tasks, queue, idCounter := map[], [], 0;
      known := {};
    }

    /** An empty identifier is replaced by a generated one. */
    method ChooseId(task: BackgroundTask, nano: int) returns (id: string)
      modifies this`idCounter
      ensures idCounter == CounterAfter(old(View()), task.Rec())
      ensures idCounter == if task.id == "" then (old(idCounter) + 1) % 18_446_744_073_709_551_616 else old(idCounter)
      ensures id == if task.id == "" then TaskIds.GeneratedId(nano, idCounter) else task.id
    {
      id := task.id;
      if id == "" {
        idCounter := (idCounter + 1) % COUNTER_LIMIT;
        id := TaskIds.GeneratedId(nano, idCounter);
      }
    }

    method Enqueue(task: BackgroundTask, nano: int, created: int, updated: int)
      requires Valid()
      modifies this, task
      ensures Valid() && known == old(known) + {task}
      ensures View() == Enqueued(old(View()), task, old(task.Rec()), nano, created, updated)
      ensures task.status == Pending && task.createdAt == created && task.updatedAt == updated
      ensures task.id in tasks && tasks[task.id] == task && (old(task.id) != "" ==> task.id == old(task.id))
    {
      ghost var was, rec := View(), task.Rec();
      var id := ChooseId(task, nano);
      task.MarkEnqueued(id, created, updated);
      assert task.Rec() == EnqueuedRec(was, rec, nano, created, updated);
      tasks := tasks[id := task];
      queue := queue + [task];
      known := known + {task};
      OneTaskChanged(this, was.heap, task);
      assert View() == Appended(was, task, rec, nano, created, updated);
      SortQueue();
    }

    /** `scan[i]` is the clock reading at slice position `i`, `now` the one of the claim. */
    method Dequeue(workerId: string, req: Requirements, scan: seq<int>, now: int) returns (got: Option<BackgroundTask>)
      requires Valid() && |scan| == |queue|
      modifies this, known
      ensures Valid() && known == old(known)
      ensures (View(), got) == Dequeued(old(View()), workerId, req, scan, now)
      ensures got.None? ==> forall i :: 0 <= i < |scan| ==>
                var t := old(View()).heap[old(queue)[i]];
                || t.status != Pending || t.scheduledAt >= scan[i]
                || (req.cpuCores > 0 && t.requiredCpu > req.cpuCores)
                || (req.memoryMB > 0 && t.requiredMemory > req.memoryMB)
      ensures got.Some? ==> var t := old(View()).heap[got.value];
                && t.status == Pending
                && (exists i :: 0 <= i < |scan| && old(queue)[i] == got.value && t.scheduledAt < scan[i])
                && (req.cpuCores <= 0 || t.requiredCpu <= req.cpuCores)
                && (req.memoryMB <= 0 || t.requiredMemory <= req.memoryMB)
                && got.value.Rec() == t.(status := Running, workerId := Some(workerId), startedAt := Some(now),
                                         lastHeartbeat := Some(now), updatedAt := now)
    {
      ghost var was := View();
      ghost var k := DequeueInFields(was, workerId, req, scan, now);
      var i := 0;
      while i < |queue|
        invariant 0 <= i <= |queue| && View() == was && known == old(known)
        invariant FirstClaimable(was, req, scan, 0) == FirstClaimable(was, req, scan, i)
      {
        var task := queue[i];
        assert task in known && was.heap[task] == task.Rec();
        ScanStep(was, req, scan, i);
        if task.status == Pending && task.scheduledAt < scan[i] {
          if req.cpuCores > 0 && task.requiredCpu > req.cpuCores {
            i := i + 1;
            continue;
          }
          if req.memoryMB > 0 && task.requiredMemory > req.memoryMB {
            i := i + 1;
            continue;
          }
          Claim(i, workerId, now);
          assert View().heap[task] == task.Rec();
          return Some(task);
        }
        i := i + 1;
      }
      got := None;
    }

    /** The claim of entry `i`. */
    method Claim(i: nat, workerId: string, now: int)
      requires Valid() && i < |queue|
      modifies this`queue, queue[i]
      ensures Valid() && known == old(known)
      ensures View() == Claimed(old(View()), i, workerId, now)
    {
      ghost var was := View();
      var task := queue[i];
      assert task in known && was.heap[task] == task.Rec();
      task.MarkClaimed(workerId, now);
      queue := queue[..i] + queue[i + 1..];
      OneTaskChanged(this, was.heap, task);
      RemoveAtKnown(was.heap, was.queue, i);
    }

    method Peek(count: nat) returns (result: seq<BackgroundTask>)
      requires Valid()
      ensures result == Peeked(View(), count)
    {
      ghost var heap, front := View().heap, Prefix(queue, count);
      result := [];
      var i := 0;
      while i < |queue|
        invariant 0 <= i <= |queue| && i <= count
        invariant result == PendingEntries(heap, front[..i])
      {
        if i >= count {
          break;
        }
        var task := queue[i];
        assert task in known && heap[task] == task.Rec() && front[i] == task;
        PendingOfOneMore(heap, front, i);
        if task.status == Pending {
          result := result + [task];
        }
        i := i + 1;
      }
      assert front[..i] == front;
    }

    method Requeue(taskId: string, delay: int, at: int, updated: int) returns (ok: bool)
      requires Valid()
      modifies this, known
      ensures Valid() && known == old(known)
      ensures ok == (taskId in old(tasks))
      ensures View() == if ok then Requeued(old(View()), taskId, delay, at, updated) else old(View())
      ensures ok ==> var task := old(tasks)[taskId];
                var t := old(View()).heap[task];
                task.Rec() == t.(status := Pending, workerId := None, startedAt := None, retryCount := t.retryCount + 1,
                                 scheduledAt := at + delay, updatedAt := updated)
    {
      ghost var was := View();
      if taskId !in tasks {
        return false;
      }
      var task := tasks[taskId];
      assert task in known && was.heap[task] == task.Rec();
      task.MarkRequeued(at + delay, updated);
      queue := queue + [task];
      OneTaskChanged(this, was.heap, task);
      assert View() == Reappended(was, taskId, delay, at, updated);
      SortQueue();
      ok := true;
    }

    method MoveToDeadLetter(taskId: string, reason: string, updated: int) returns (ok: bool)
      requires Valid()
      modifies known
      ensures Valid()
      ensures ok == (taskId in tasks)
      ensures View() == if ok then DeadLettered(old(View()), taskId, reason, updated) else old(View())
      ensures ok ==> var t := old(View()).heap[tasks[taskId]];
                tasks[taskId].Rec() == t.(status := DeadLetter, lastError := Some(reason), updatedAt := updated)
    {
      ghost var was := View();
      if taskId !in tasks {
        return false;
      }
      var task := tasks[taskId];
      assert task in known && was.heap[task] == task.Rec();
      task.MarkDeadLettered(reason, updated);
      OneTaskChanged(this, was.heap, task);
      ok := true;
    }

    /** The map is visited in an arbitrary order. */
    method CountWithStatus(status: Status) returns (count: nat)
      requires Valid()
      ensures count == |WithStatus(Rows(), status)|
      ensures count == |set id | id in tasks && tasks[id].status == status|
    {
      count := 0;
      var left := tasks.Keys;
      ghost var seen: Rows := map[];
      while left != {}
        invariant seen == map id | id in tasks && id !in left :: tasks[id].Rec()
        invariant left <= tasks.Keys
        invariant count == |WithStatus(seen, status)|
        decreases left
      {
        var id :| id in left;
        left := left - {id};
        var task := tasks[id];
        StatusOfOneMore(seen, id, task.Rec(), status);
        seen := seen[id := task.Rec()];
        if task.status == status {
          count := count + 1;
        }
      }
      assert seen == Rows();
      assert WithStatus(Rows(), status) == set id | id in tasks && tasks[id].status == status;
    }

    method GetPendingCount() returns (count: nat)
      requires Valid()
      ensures count == |WithStatus(Rows(), Pending)|
      ensures count == |set id | id in tasks && tasks[id].status == Pending|
    {
      count := CountWithStatus(Pending);
    }

    method GetRunningCount() returns (count: nat)
      requires Valid()
      ensures count == |WithStatus(Rows(), Running)|
      ensures count == |set id | id in tasks && tasks[id].status == Running|
    {
      count := CountWithStatus(Running);
    }

    method GetQueueDepth() returns (counts: map<Priority, nat>)
      requires Valid()
      ensures counts == Depth(Rows())
      ensures Sum(counts) == |WithStatus(Rows(), Pending)|
    {
      counts := map[];
      var left := tasks.Keys;
      ghost var seen: Rows := map[];
      assert Depth(seen) == map[];
      while left != {}
        invariant seen == map id | id in tasks && id !in left :: tasks[id].Rec()
        invariant left <= tasks.Keys
        invariant counts == Depth(seen)
        decreases left
      {
        var id :| id in left;
        left := left - {id};
        var task := tasks[id];
        DepthOfOneMore(seen, id, task.Rec());
        seen := seen[id := task.Rec()];
        if task.status == Pending {
          counts := Increment(counts, task.priority);
        }
      }
      assert seen == Rows();
      DepthSumsToPending(Rows());
    }

    /** The in-place exchange sort. */
    method SortQueue()
      requires WellFormed(View())
      modifies this`queue
      ensures View() == WithSortedQueue(old(View()))
    {
      ghost var heap, was := View().heap, queue;
      var i := 0;
      while i < |queue| - 1
        invariant 0 <= i && |queue| == |was| && Known(heap, queue) && View().heap == heap
        invariant ExchangeSort(heap, queue, i) == ExchangeSort(heap, was, 0)
      {
        ghost var before := queue;
        ExchangeAfter(i);
        SortStep(heap, before, queue, i);
        i := i + 1;
      }
    }

    /** The inner loop of the sort. */
    method ExchangeAfter(i: nat)
      requires WellFormed(View()) && i < |queue|
      modifies this`queue
      ensures queue == ExchangePass(View().heap, old(queue), i, i + 1)
    {
      ghost var heap, was := View().heap, queue;
      var j := i + 1;
      while j < |queue|
        invariant i < j <= |queue| == |was| && Known(heap, queue)
        invariant ExchangePass(heap, queue, i, j) == ExchangePass(heap, was, i, i + 1)
      {
        var a, b := queue[i], queue[j];
        assert heap[a] == a.Rec() && heap[b] == b.Rec();
        ExchangeStep(heap, queue, i, j);
        if TaskShouldSwap(a, b) {
          queue := queue[i := b][j := a];
        }
        j := j + 1;
      }
    }

    predicate TaskShouldSwap(a: BackgroundTask, b: BackgroundTask): (swap: bool)
      reads a, b
      ensures swap == ShouldSwap(a.Rec(), b.Rec())
    {
      if a.priority.weight != b.priority.weight then a.priority.weight > b.priority.weight
      else a.createdAt > b.createdAt
    }
  }

  function Prefix<T>(q: seq<T>, count: nat): seq<T> {
    if count < |q| then q[..count] else q
  }
}
