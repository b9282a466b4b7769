/** Queue depth: how many pending tasks each priority has. */
module DepthCounts {
  import opened Tasks

  type Rows = map<string, TaskRec>

  function WithStatus(rows: Rows, status: Status): set<string> {
    set id | id in rows && rows[id].status == status
  }

  function PendingAt(rows: Rows, p: Priority): set<string> {
    set id | id in rows && rows[id].status == Pending && rows[id].priority == p
  }

  /** The true depth; a priority without pending tasks has no entry. */
  function Depth(rows: Rows): map<Priority, nat> {
    map p | p in PendingPriorities(rows) :: |PendingAt(rows, p)|
  }

  function PendingPriorities(rows: Rows): set<Priority> {
    set id | id in WithStatus(rows, Pending) :: rows[id].priority
  }

  /** `counts[p]++` on a Go map. */
  function Increment(counts: map<Priority, nat>, p: Priority): map<Priority, nat> {
    counts[p := (if p in counts then counts[p] else 0) + 1]
  }

  lemma PriorityCounted(rows: Rows, p: Priority)
    ensures p in PendingPriorities(rows) <==> PendingAt(rows, p) != {}
  {
    if p in PendingPriorities(rows) {
      var id :| id in WithStatus(rows, Pending) && rows[id].priority == p;
      assert id in PendingAt(rows, p);
    }
    if PendingAt(rows, p) != {} {
      var id :| id in PendingAt(rows, p);
      assert id in WithStatus(rows, Pending);
    }
  }

  /** The depth of a priority is the number of its pending tasks, and a priority without any has
      none. */
  lemma DepthInFields(rows: Rows, p: Priority)
    ensures var tasks := set id | id in rows && rows[id].status == Pending && rows[id].priority == p;
            && (p in Depth(rows) <==> tasks != {})
            && (p in Depth(rows) ==> Depth(rows)[p] == |tasks|)
  {
    PriorityCounted(rows, p);
  }

  lemma PendingAtOneMore(rows: Rows, id: string, rec: TaskRec, p: Priority)
    requires id !in rows
    ensures PendingAt(rows[id := rec], p) ==
            PendingAt(rows, p) + (if rec.status == Pending && rec.priority == p then {id} else {})
  {
  }

  lemma StatusOfOneMore(rows: Rows, id: string, rec: TaskRec, status: Status)
    requires id !in rows
    ensures |WithStatus(rows[id := rec], status)| ==
            |WithStatus(rows, status)| + (if rec.status == status then 1 else 0)
  {
    assert WithStatus(rows[id := rec], status) ==
           WithStatus(rows, status) + (if rec.status == status then {id} else {});
  }

  /** Counting one more row gives the depth of the rows with that row added. */
  lemma DepthOfOneMore(rows: Rows, id: string, rec: TaskRec)
    requires id !in rows
    ensures Depth(rows[id := rec]) ==
            if rec.status == Pending then Increment(Depth(rows), rec.priority) else Depth(rows)
  {
    var more := rows[id := rec];
    var want := if rec.status == Pending then Increment(Depth(rows), rec.priority) else Depth(rows);
    forall p ensures p in Depth(more) <==> p in want
             ensures p in want ==> Depth(more)[p] == want[p] {
      PendingAtOneMore(rows, id, rec, p);
      PriorityCounted(rows, p);
      PriorityCounted(more, p);
    }
  }

  /** The sum of all the counts. */
  ghost function Sum(counts: map<Priority, nat>): nat
    decreases |counts|
  {
    if counts == map[] then 0
    else
      var p :| p in counts;
      counts[p] + Sum(counts - {p})
  }

  lemma {:induction false} SumSplits(counts: map<Priority, nat>, p: Priority)
    requires p in counts
    ensures Sum(counts) == counts[p] + Sum(counts - {p})
    decreases |counts|
  {
    var q :| q in counts && Sum(counts) == counts[q] + Sum(counts - {q});
    if q != p {
      SumSplits(counts - {q}, p);
      SumSplits(counts - {p}, q);
      assert counts - {q} - {p} == counts - {p} - {q};
    }
  }

  lemma SumOfIncrement(counts: map<Priority, nat>, p: Priority)
    ensures Sum(Increment(counts, p)) == Sum(counts) + 1
  {
    var more := Increment(counts, p);
    SumSplits(more, p);
    if p in counts {
      SumSplits(counts, p);
      assert more - {p} == counts - {p};
    } else {
      assert more - {p} == counts;
    }
  }

  /** The depths of all priorities add up to the number of pending tasks. */
  lemma {:induction false} DepthSumsToPending(rows: Rows)
    ensures Sum(Depth(rows)) == |WithStatus(rows, Pending)|
    decreases |rows|
  {
    if rows == map[] {
      assert Depth(rows) == map[];
    } else {
      var id :| id in rows;
      var fewer := rows - {id};
      assert rows == fewer[id := rows[id]];
      DepthSumsToPending(fewer);
      DepthOfOneMore(fewer, id, rows[id]);
      if rows[id].status == Pending {
        SumOfIncrement(Depth(fewer), rows[id].priority);
        assert WithStatus(rows, Pending) == WithStatus(fewer, Pending) + {id};
      } else {
        assert WithStatus(rows, Pending) == WithStatus(fewer, Pending);
      }
    }
  }

  /** The rows whose identifiers are in `ids`. */
  function Among(rows: Rows, ids: set<string>): Rows {
    map id | id in rows && id in ids :: rows[id]
  }

  lemma SameDepth(part: Rows, rows: Rows)
    requires forall p :: PendingAt(part, p) == PendingAt(rows, p)
    ensures Depth(part) == Depth(rows)
  {
    forall p ensures p in Depth(part) <==> p in Depth(rows) {
      PriorityCounted(part, p);
      PriorityCounted(rows, p);
    }
  }

  /** Counting some of the pending rows gives the true depth exactly when none is missing. */
  lemma PartialDepthIff(rows: Rows, ids: set<string>)
    requires ids <= WithStatus(rows, Pending)
    ensures Depth(Among(rows, ids)) == Depth(rows) <==> ids == WithStatus(rows, Pending)
  {
    var part := Among(rows, ids);
    if ids == WithStatus(rows, Pending) {
      SameDepth(part, rows);
    } else {
      var id :| id in WithStatus(rows, Pending) && id !in ids;
      var p := rows[id].priority;
      PriorityCounted(rows, p);
      assert id in PendingAt(rows, p) && PendingAt(part, p) <= PendingAt(rows, p) - {id};
      FewerElements(PendingAt(part, p), PendingAt(rows, p), id);
      assert p in Depth(part) ==> Depth(part)[p] < Depth(rows)[p];
    }
  }

  lemma FewerElements<T>(a: set<T>, b: set<T>, x: T)
    requires x in b && a <= b - {x}
    ensures |a| < |b|
  {
    var rest := b - {x} - a;
    assert b == a + rest + {x};
  }
}
