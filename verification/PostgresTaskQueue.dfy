/** The depth cache of `PostgresTaskQueue` over a repository that changes only through the
    queue.  The repository is a map with atomic operations; whether a repository call fails, and
    which row the database picks, are parameters. */
module PostgresQueue {
  import opened Tasks
  import opened DepthCounts

  const QUERY_LIMIT: nat := 10000

  /** A depth map as the program hands it out: an object that can be shared. */
  class DepthMap {
    var counts: map<Priority, nat>

    constructor (counts: map<Priority, nat>)
      ensures this.counts == counts
    {
      this.counts := counts;
    }
  }

  /** Which row the database claims for the given bounds, zero meaning no limit. */
  type Choice = (nat, nat) -> Option<string>

  /** It claims a pending row within the bounds, or none. */
  ghost predicate ChoosesFitting(choose: Choice, rows: Rows) {
    forall cpu: nat, memory: nat :: choose(cpu, memory).Some? ==>
      var id := choose(cpu, memory).value;
      && id in rows && rows[id].status == Pending
      && (cpu > 0 ==> rows[id].requiredCpu <= cpu) && (memory > 0 ==> rows[id].requiredMemory <= memory)
  }

  class TaskRepository {
    var rows: Rows

    constructor ()
      ensures rows == map[]
    {
      rows := map[];
    }

    /** At most `limit` rows with the status, in an arbitrary order. */
    method GetByStatus(status: Status, limit: nat) returns (ids: seq<string>)
      ensures forall i, j :: 0 <= i < j < |ids| ==> ids[i] != ids[j]
      ensures (set id | id in ids) <= WithStatus(rows, status)
      ensures (set id | id in ids) == WithStatus(rows, status) <==> |WithStatus(rows, status)| <= limit
    {
      var left := WithStatus(rows, status);
      ids := [];
      ghost var taken := {};
      while left != {} && |ids| < limit
        invariant left + taken == WithStatus(rows, status) && left !! taken
        invariant taken == (set id | id in ids) && |taken| == |ids| <= limit
        invariant forall i, j :: 0 <= i < j < |ids| ==> ids[i] != ids[j]
        decreases left
      {
        var id :| id in left;
        left := left - {id};
        ids := ids + [id];
        taken := taken + {id};
      }
      assert |left + taken| == |left| + |taken|;
    }

    method Dequeue(workerId: string, maxCpu: nat, maxMemory: nat, choose: Choice, now: int)
      returns (got: Option<TaskRec>)
      requires ChoosesFitting(choose, rows)
      modifies this
      ensures var id := choose(maxCpu, maxMemory);
              if id.None? then got.None? && rows == old(rows)
              else got == Some(old(rows)[id.value].Claimed(workerId, now)) && rows == old(rows)[id.value := got.value]
    {
      var id := choose(maxCpu, maxMemory);
      if id.None? {
        return None;
      }
      rows := rows[id.value := rows[id.value].Claimed(workerId, now)];
      got := Some(rows[id.value]);
    }
  }

  class PostgresTaskQueue {
    const repository: TaskRepository
    const ttl: int
    var cachedDepth: DepthMap
    var depthCacheTime: int    // 0 is the zero time

    ghost predicate Valid()
      reads this, repository, cachedDepth
    {
      && ttl > 0 && depthCacheTime >= 0
      && (depthCacheTime != 0 && cachedDepth.counts != map[] ==>
            (cachedDepth.counts == Depth(repository.rows) <==> |WithStatus(repository.rows, Pending)| <= QUERY_LIMIT))
    }

    constructor (repository: TaskRepository)
      ensures Valid() && this.repository == repository && ttl == 5_000_000_000
      ensures fresh(cachedDepth)
    {
      this.repository := repository;
      ttl := 5_000_000_000;
      cachedDepth := new DepthMap(map[]);
      depthCacheTime := 0;
    }

    /** An empty status, priority or schedule is filled in before the row is created. */
    method Enqueue(rec: TaskRec, noStatus: bool, noPriority: bool, noSchedule: bool, now: int, fails: bool)
      returns (ok: bool)
      requires Valid()
      modifies this`depthCacheTime, repository
      ensures Valid() && ok == !fails
      ensures !ok ==> repository.rows == old(repository.rows) && depthCacheTime == old(depthCacheTime)
      ensures ok ==> depthCacheTime == 0 && repository.rows == old(repository.rows)[rec.id :=
                rec.(status := if noStatus then Pending else rec.status,
                     priority := if noPriority then Priority("normal", 0) else rec.priority,
                     scheduledAt := if noSchedule then now else rec.scheduledAt)]
    {
      var task := rec;
      if noStatus {
        task := task.(status := Pending);
      }
      if noPriority {
        task := task.(priority := NORMAL);
      }
      if noSchedule {
        task := task.(scheduledAt := now);
      }
      if fails {
        return false;
      }
      repository.rows := repository.rows[task.id := task];
      InvalidateCache();
      ok := true;
    }

    /** A bound that is not positive reaches the database as zero, so that what it claims is
        within the requirements. */
    method Dequeue(workerId: string, req: Requirements, choose: Choice, now: int, fails: bool)
      returns (ok: bool, got: Option<TaskRec>)
      requires Valid() && ChoosesFitting(choose, repository.rows)
      modifies this`depthCacheTime, repository
      ensures Valid() && ok == !fails
      ensures var id := choose(if req.cpuCores > 0 then req.cpuCores else 0,
                               if req.memoryMB > 0 then req.memoryMB else 0);
              if fails || id.None? then
                got.None? && repository.rows == old(repository.rows) && depthCacheTime == old(depthCacheTime)
              else
                var row := old(repository.rows)[id.value];
                && row.status == Pending
                && (req.cpuCores <= 0 || row.requiredCpu <= req.cpuCores)
                && (req.memoryMB <= 0 || row.requiredMemory <= req.memoryMB)
                && got == Some(row.(status := Running, workerId := Some(workerId), startedAt := Some(now),
                                    lastHeartbeat := Some(now), updatedAt := now))
                && repository.rows == old(repository.rows)[id.value := got.value] && depthCacheTime == 0
    {
      var maxCpu, maxMemory := req.cpuCores, req.memoryMB;
      if maxCpu <= 0 {
        maxCpu := 0;
      }
      if maxMemory <= 0 {
        maxMemory := 0;
      }
      if fails {
        return false, None;
      }
      got := repository.Dequeue(workerId, maxCpu, maxMemory, choose, now);
      if got.None? {
        return true, None;
      }
      InvalidateCache();
      ok := true;
    }

    /** Unlike the in-memory queue this one clears the heartbeat, and it ignores a delay that
        is not positive. */
    method Requeue(taskId: string, delay: int, now: int, fails: bool) returns (ok: bool)
      requires Valid()
      modifies this`depthCacheTime, repository
      ensures Valid() && ok == (taskId in old(repository.rows) && !fails)
      ensures !ok ==> repository.rows == old(repository.rows) && depthCacheTime == old(depthCacheTime)
      ensures ok ==> depthCacheTime == 0
      ensures ok ==> var rows := old(repository.rows);
                     repository.rows == rows[taskId := rows[taskId].(
                       status := Pending, workerId := None, startedAt := None, lastHeartbeat := None,
                       retryCount := rows[taskId].retryCount + 1,
                       scheduledAt := if delay > 0 then now + delay else now)]
    {
      if taskId !in repository.rows {
        return false;
      }
      var task := repository.rows[taskId];
      task := task.(status := Pending, workerId := None, startedAt := None, lastHeartbeat := None,
                    retryCount := task.retryCount + 1);
      if delay > 0 {
        task := task.(scheduledAt := now + delay);
      } else {
        task := task.(scheduledAt := now);
      }
      if fails {
        return false;
      }
      repository.rows := repository.rows[taskId := task];
      InvalidateCache();
      ok := true;
    }

    method MoveToDeadLetter(taskId: string, reason: string, now: int, fails: bool) returns (ok: bool)
      requires Valid()
      modifies this`depthCacheTime, repository
      ensures Valid() && ok == (taskId in old(repository.rows) && !fails)
      ensures !ok ==> repository.rows == old(repository.rows) && depthCacheTime == old(depthCacheTime)
      ensures ok ==> depthCacheTime == 0
      ensures ok ==> var rows := old(repository.rows);
                     repository.rows == rows[taskId := rows[taskId].(
                       status := DeadLetter, lastError := Some(reason), updatedAt := now)]
    {
      if fails || taskId !in repository.rows {
        return false;
      }
      repository.rows := repository.rows[taskId := repository.rows[taskId].DeadLettered(reason, now)];
      InvalidateCache();
      ok := true;
    }

    /** The counting loop over the listed rows. */
    method CountByPriority(ids: seq<string>) returns (counts: map<Priority, nat>)
      requires forall i, j :: 0 <= i < j < |ids| ==> ids[i] != ids[j]
      requires forall i :: 0 <= i < |ids| ==> ids[i] in WithStatus(repository.rows, Pending)
      ensures counts == Depth(Among(repository.rows, set id | id in ids))
    {
      counts := map[];
      ghost var seen: Rows := map[];
      assert Depth(seen) == map[];
      var i := 0;
      while i < |ids|
        invariant 0 <= i <= |ids| && counts == Depth(seen)
        invariant seen == Among(repository.rows, set k | 0 <= k < i :: ids[k])
      {
        assert ids[i] in WithStatus(repository.rows, Pending) && ids[i] !in seen;
        var task := repository.rows[ids[i]];
        DepthOfOneMore(seen, ids[i], task);
        seen := seen[ids[i] := task];
        counts := Increment(counts, task.priority);
        i := i + 1;
      }
      assert seen == Among(repository.rows, set id | id in ids);
    }

    /** On a hit or a miss the answer is the fresh recount exactly when at most 10000 tasks are
        pending.  A hit returns a copy; a miss returns the very map that is now cached.  `checked`
        and `stored` are clock readings, later than the zero time by at least the TTL. */
    method GetQueueDepth(checked: int, stored: int, fails: bool) returns (ok: bool, depth: DepthMap?)
      requires Valid() && ttl <= checked <= stored
      modifies this`cachedDepth, this`depthCacheTime
      ensures Valid() && (ok <==> depth != null)
      ensures ok ==> (depth.counts == Depth(repository.rows) <==>
                      |set id | id in repository.rows && repository.rows[id].status == Pending| <= 10_000)
      ensures ok ==> fresh(depth)
      ensures if checked - old(depthCacheTime) < ttl && old(cachedDepth.counts) != map[] then
                ok && depth != cachedDepth == old(cachedDepth) && depthCacheTime == old(depthCacheTime)
              else if !fails then
                ok && depth == cachedDepth && depthCacheTime == stored
              else
                !ok && cachedDepth == old(cachedDepth) && depthCacheTime == old(depthCacheTime)
    {
      if checked - depthCacheTime < ttl && |cachedDepth.counts| > 0 {
        depth := new DepthMap(cachedDepth.counts);
        return true, depth;
      }
      if fails {
        return false, null;
      }
      var ids := repository.GetByStatus(Pending, QUERY_LIMIT);
      assert forall i :: 0 <= i < |ids| ==> ids[i] in (set id | id in ids);
      var counts := CountByPriority(ids);
      PartialDepthIff(repository.rows, set id | id in ids);
      cachedDepth := new DepthMap(counts);
      depthCacheTime := stored;
      return true, cachedDepth;
    }

    method InvalidateCache()
      requires ttl > 0
      modifies this`depthCacheTime
      ensures depthCacheTime == 0 && Valid()
    {
      depthCacheTime := 0;
    }
  }

  const NORMAL: Priority := Priority("normal", 0)
}
