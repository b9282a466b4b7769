/** `MessagingTaskQueue`: a queue that also publishes lifecycle events, over an in-memory delegate
    and over a Postgres delegate.  Each call is tied to a run of the step system of
    `MessagingModel`. */
module MessagingQueue {
  import opened Tasks
  import opened QueueModel
  import opened DepthCounts
  import opened InMemoryQueue
  import opened MessagingModel
  import PostgresQueue
  import EP = EventPublisher

  /** The publisher's own fields; its consumer goroutine is the subject of `EventPublisher`. */
  class TaskEventPublisher {
    const hasBackend: bool
    const capacity: nat
    var enabled: bool
    var buffer: seq<Option<TaskEvent>>
    var stopClosed: bool
    var channelClosed: bool
    ghost var direct: seq<TaskEvent>    // sent synchronously so far

    constructor (hasBackend: bool, enabled: bool, asyncPublish: bool, bufferSize: int)
      ensures this.hasBackend == hasBackend && this.enabled == enabled
      ensures capacity == (if asyncPublish && bufferSize > 0 then bufferSize else 0)
      ensures buffer == [] && direct == [] && !stopClosed && !channelClosed
    {
      this.hasBackend, this.enabled := hasBackend, enabled;
      capacity := if asyncPublish && bufferSize > 0 then bufferSize else 0;
      buffer, direct, stopClosed, channelClosed := [], [], false, false;
    }

    /** The fields as a state of the publisher machine, for a consumer at its select. */
    ghost function View(): EP.Publisher<TaskEvent>
      reads this
    {
      EP.Publisher(enabled, hasBackend, capacity, buffer, [], stopClosed, channelClosed,
                   if capacity > 0 then EP.AtSelect else EP.Finished)
    }

    /** A publish step of the machine, followed on overflow by the synchronous send. */
    method Publish(event: TaskEvent)
      requires !channelClosed
      modifies this`buffer, this`direct
      ensures View() == AfterPublish(old(View()), event)
      ensures direct == old(direct) + SentDirectly(old(View()), event)
      ensures !enabled || !hasBackend ==> buffer == old(buffer) && direct == old(direct)
      ensures enabled && hasBackend && |old(buffer)| < capacity ==>
                buffer == old(buffer) + [Some(event)] && direct == old(direct)
      ensures enabled && hasBackend && |old(buffer)| >= capacity ==>
                buffer == old(buffer) && direct == old(direct) + [event]
    {
      if !enabled || !hasBackend {
        return;
      }
      if capacity > 0 && |buffer| < capacity {
        buffer := buffer + [Some(event)];
        return;
      }
      direct := direct + [event];
    }

    /** The publisher moved from `was` and `sent` by publishing `event`, or not at all. */
    ghost predicate Published(was: EP.Publisher<TaskEvent>, sent: seq<TaskEvent>, event: Option<TaskEvent>)
      requires !was.channelClosed && was.direct == []
      reads this
    {
      if event.None? then View() == was && direct == sent
      else View() == AfterPublish(was, event.value) && direct == sent + SentDirectly(was, event.value)
    }
  }

  class MessagingTaskQueue {
    const delegate: InMemoryTaskQueue
    const publisher: TaskEventPublisher

    ghost predicate Valid()
      reads delegate, delegate.known, publisher
    {
      delegate.Valid() && !publisher.channelClosed
    }

    ghost function View(): Joint<BackgroundTask>
      reads delegate, delegate.known, publisher
    {
      Joint(delegate.View(), publisher.View(), [])
    }

    constructor (delegate: InMemoryTaskQueue, publisher: TaskEventPublisher)
      ensures this.delegate == delegate && this.publisher == publisher
    {
      this.delegate, this.publisher := delegate, publisher;
    }

    /** The delegate ends as after a bare `Enqueue`; one Created event is published. */
    method Enqueue(task: BackgroundTask, nano: int, created: int, updated: int)
      requires Valid()
      modifies delegate, task, publisher`buffer, publisher`direct
      ensures Valid() && delegate.known == old(delegate.known) + {task}
      ensures delegate.View() == Enqueued(old(delegate.View()), task, old(task.Rec()), nano, created, updated)
      ensures View() == AfterCall(old(View()), QueueModel.Enqueue(task, old(task.Rec()), nano, created, updated))
    {
      delegate.Enqueue(task, nano, created, updated);
      publisher.Publish(NewEvent(Created, task.Rec()));
      assert delegate.View().heap[task] == task.Rec();
    }

    /** Same result and same delegate state as a bare `Dequeue`; one Started event per claim. */
    method Dequeue(workerId: string, req: Requirements, scan: seq<int>, now: int) returns (got: Option<BackgroundTask>)
      requires Valid() && |scan| == |delegate.queue|
      modifies delegate, delegate.known, publisher`buffer, publisher`direct
      ensures Valid() && delegate.known == old(delegate.known)
      ensures (delegate.View(), got) == Dequeued(old(delegate.View()), workerId, req, scan, now)
      ensures View() == AfterCall(old(View()), QueueModel.Dequeue(workerId, req, scan, now))
    {
      ghost var events := EventsOf(delegate.View(), QueueModel.Dequeue(workerId, req, scan, now));
      got := delegate.Dequeue(workerId, req, scan, now);
      if got.Some? {
        assert got.value in delegate.View().heap && delegate.View().heap[got.value] == got.value.Rec();
        assert events == [NewEvent(Started, got.value.Rec())];
        publisher.Publish(NewEvent(Started, got.value.Rec()));
      } else {
        assert events == [];
      }
    }

    method Peek(count: nat) returns (result: seq<BackgroundTask>)
      requires Valid()
      ensures result == Peeked(delegate.View(), count)
    {
      result := delegate.Peek(count);
    }

    method GetPendingCount() returns (count: nat)
      requires Valid()
      ensures count == |WithStatus(delegate.Rows(), Pending)|
    {
      count := delegate.GetPendingCount();
    }

    method GetRunningCount() returns (count: nat)
      requires Valid()
      ensures count == |WithStatus(delegate.Rows(), Running)|
    {
      count := delegate.GetRunningCount();
    }

    method GetQueueDepth() returns (counts: map<Priority, nat>)
      requires Valid()
      ensures counts == Depth(delegate.Rows())
    {
      counts := delegate.GetQueueDepth();
    }

    /** No task is looked up for an in-memory delegate, so no event follows. */
    method Requeue(taskId: string, delay: int, at: int, updated: int) returns (ok: bool)
      requires Valid()
      modifies delegate, delegate.known
      ensures Valid() && delegate.known == old(delegate.known)
      ensures ok == (taskId in old(delegate.tasks))
      ensures delegate.View() ==
              if ok then Requeued(old(delegate.View()), taskId, delay, at, updated) else old(delegate.View())
      ensures View() == AfterCall(old(View()), QueueModel.Requeue(taskId, delay, at, updated))
    {
      ok := delegate.Requeue(taskId, delay, at, updated);
    }

    method MoveToDeadLetter(taskId: string, reason: string, updated: int) returns (ok: bool)
      requires Valid()
      modifies delegate.known
      ensures Valid()
      ensures ok == (taskId in delegate.tasks)
      ensures delegate.View() ==
              if ok then DeadLettered(old(delegate.View()), taskId, reason, updated) else old(delegate.View())
      ensures View() == AfterCall(old(View()), QueueModel.MoveToDeadLetter(taskId, reason, updated))
    {
      ok := delegate.MoveToDeadLetter(taskId, reason, updated);
    }
  }

  function RowOf(rows: Rows, taskId: string, found: bool): Option<TaskRec> {
    if found && taskId in rows then Some(rows[taskId]) else None
  }

  /** The same wrapper over a Postgres delegate, whose tasks are looked up before they change: an
      event shows the row as it was.  `found` says whether that look-up succeeds. */
  class MessagingPostgresQueue {
    const delegate: PostgresQueue.PostgresTaskQueue
    const publisher: TaskEventPublisher

    ghost predicate Valid()
      reads delegate, delegate.repository, delegate.cachedDepth, publisher
    {
      delegate.Valid() && !publisher.channelClosed
    }

    constructor (delegate: PostgresQueue.PostgresTaskQueue, publisher: TaskEventPublisher)
      ensures this.delegate == delegate && this.publisher == publisher
    {
      this.delegate, this.publisher := delegate, publisher;
    }

    method LookUp(taskId: string, found: bool) returns (task: Option<TaskRec>)
      ensures task == RowOf(delegate.repository.rows, taskId, found)
    {
      if found && taskId in delegate.repository.rows {
        return Some(delegate.repository.rows[taskId]);
      }
      task := None;
    }

    /** A successful requeue publishes one Retrying event, unless the look-up failed; nothing is
        published otherwise. */
    method Requeue(taskId: string, delay: int, now: int, found: bool, fails: bool) returns (ok: bool)
      requires Valid()
      modifies delegate`depthCacheTime, delegate.repository, publisher`buffer, publisher`direct
      ensures Valid() && ok == (taskId in old(delegate.repository.rows) && !fails)
      ensures var rows := old(delegate.repository.rows);
              && (!ok ==> delegate.repository.rows == rows)
              && (ok ==> delegate.repository.rows == rows[taskId := rows[taskId].(
                           status := Pending, workerId := None, startedAt := None, lastHeartbeat := None,
                           retryCount := rows[taskId].retryCount + 1,
                           scheduledAt := if delay > 0 then now + delay else now)])
              && publisher.Published(old(publisher.View()), old(publisher.direct),
                                     if ok && found then Some(NewEvent(Retrying, rows[taskId])) else None)
    {
      var task := LookUp(taskId, found);
      ok := delegate.Requeue(taskId, delay, now, fails);
      if ok && task.Some? {
        publisher.Publish(NewEvent(Retrying, task.value));
      }
    }

    /** A successful move publishes one DeadLettering event, unless the look-up failed. */
    method MoveToDeadLetter(taskId: string, reason: string, now: int, found: bool, fails: bool) returns (ok: bool)
      requires Valid()
      modifies delegate`depthCacheTime, delegate.repository, publisher`buffer, publisher`direct
      ensures Valid() && ok == (taskId in old(delegate.repository.rows) && !fails)
      ensures var rows := old(delegate.repository.rows);
              && (!ok ==> delegate.repository.rows == rows)
              && (ok ==> delegate.repository.rows == rows[taskId := rows[taskId].(
                           status := DeadLetter, lastError := Some(reason), updatedAt := now)])
              && publisher.Published(old(publisher.View()), old(publisher.direct),
                                     if ok && found then Some(NewEvent(DeadLettering, rows[taskId])) else None)
    {
      var task := LookUp(taskId, found);
      ok := delegate.MoveToDeadLetter(taskId, reason, now, fails);
      if ok && task.Some? {
        publisher.Publish(NewEvent(DeadLettering, task.value));
      }
    }
  }
}
