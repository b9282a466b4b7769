/** The task record shared by the queue, the pool and the event layer.

    `digital.vasic.models` is not part of this model: only the fields that the
    modelled code reads or writes are kept.  A priority carries its weight, so that
    `Weight` is an arbitrary total function of the priority. */
module Tasks {

  datatype Option<+T> = None | Some(value: T)

  datatype Status = Pending | Running | Completed | Failed | Stuck | Cancelled | Paused | DeadLetter

  datatype Priority = Priority(name: string, weight: int)

  /** A bound of zero or less means "no limit". */
  datatype Requirements = Requirements(cpuCores: int, memoryMB: int)

  /** The contents of one task; times are nanoseconds. */
  datatype TaskRec = TaskRec(
    id: string,
    status: Status,
    priority: Priority,
    createdAt: int,
    updatedAt: int,
    scheduledAt: int,
    startedAt: Option<int>,
    lastHeartbeat: Option<int>,
    workerId: Option<string>,
    retryCount: int,
    maxRetries: int,
    requiredCpu: int,
    requiredMemory: int,
    lastError: Option<string>)
  {
    predicate CanRetry() {
      retryCount < maxRetries
    }

    function Enqueued(id: string, created: int, updated: int): TaskRec {
      this.(id := id, status := Pending, createdAt := created, updatedAt := updated)
    }

    function Claimed(worker: string, now: int): TaskRec {
      this.(status := Running, workerId := Some(worker), startedAt := Some(now), lastHeartbeat := Some(now),
            updatedAt := now)
    }

    /** The heartbeat is not reset. */
    function Requeued(scheduled: int, updated: int): TaskRec {
      this.(status := Pending, workerId := None, startedAt := None, retryCount := retryCount + 1,
            scheduledAt := scheduled, updatedAt := updated)
    }

    function DeadLettered(reason: string, updated: int): TaskRec {
      this.(status := DeadLetter, lastError := Some(reason), updatedAt := updated)
    }
  }

  /** A task as the program holds it: one mutable object that the queue's map, the
      queue's slice and a worker may all point to. */
  class BackgroundTask {
    var id: string
    var status: Status
    var priority: Priority
    var createdAt: int
    var updatedAt: int
    var scheduledAt: int
    var startedAt: Option<int>
    var lastHeartbeat: Option<int>
    var workerId: Option<string>
    var retryCount: int
    var maxRetries: int
    var requiredCpu: int
    var requiredMemory: int
    var lastError: Option<string>

    function Rec(): TaskRec
      reads this
    {
      TaskRec(id, status, priority, createdAt, updatedAt, scheduledAt, startedAt, lastHeartbeat,
              workerId, retryCount, maxRetries, requiredCpu, requiredMemory, lastError)
    }

    method MarkEnqueued(id: string, created: int, updated: int)
      modifies this
      ensures Rec() == old(Rec()).Enqueued(id, created, updated)
    {
      this.id := id;
      status := Pending;
      createdAt := created;
      updatedAt := updated;
    }

    method MarkClaimed(worker: string, now: int)
      modifies this
      ensures Rec() == old(Rec()).Claimed(worker, now)
    {
      status := Running;
      workerId := Some(worker);
      startedAt := Some(now);
      lastHeartbeat := Some(now);
      updatedAt := now;
    }

    method MarkRequeued(scheduled: int, updated: int)
      modifies this
      ensures Rec() == old(Rec()).Requeued(scheduled, updated)
    {
      status := Pending;
      workerId := None;
      startedAt := None;
      retryCount := retryCount + 1;
      scheduledAt := scheduled;
      updatedAt := updated;
    }

    method MarkDeadLettered(reason: string, updated: int)
      modifies this
      ensures Rec() == old(Rec()).DeadLettered(reason, updated)
    {
      status := DeadLetter;
      lastError := Some(reason);
      updatedAt := updated;
    }
  }
}
