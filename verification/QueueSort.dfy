/** The queue's exchange sort, and what it promises.

    `heap` gives the contents of each task; `R` is the type of task references. */
module QueueSort {
  import opened Tasks

  /** `a` must come after `b`: a lower weight first, then an earlier creation. */
  predicate ShouldSwap(a: TaskRec, b: TaskRec) {
    if a.priority.weight != b.priority.weight then a.priority.weight > b.priority.weight
    else a.createdAt > b.createdAt
  }

  /** Same position in the order. */
  predicate SameKey(a: TaskRec, b: TaskRec) {
    a.priority.weight == b.priority.weight && a.createdAt == b.createdAt
  }

  predicate Known<R(==)>(heap: map<R, TaskRec>, q: seq<R>) {
    forall k :: 0 <= k < |q| ==> q[k] in heap
  }

  ghost predicate Sorted<R>(heap: map<R, TaskRec>, q: seq<R>)
    requires Known(heap, q)
  {
    forall i, j :: 0 <= i < j < |q| ==> !ShouldSwap(heap[q[i]], heap[q[j]])
  }

  /** Sorted: by weight, and by creation within a weight. */
  lemma SortedInFields<R>(heap: map<R, TaskRec>, q: seq<R>)
    requires Known(heap, q)
    ensures Sorted(heap, q) <==>
            forall i, j :: 0 <= i < j < |q| ==>
              || heap[q[i]].priority.weight < heap[q[j]].priority.weight
              || (heap[q[i]].priority.weight == heap[q[j]].priority.weight
                  && heap[q[i]].createdAt <= heap[q[j]].createdAt)
  {
  }

  /** The inner loop from `j` on, for the outer index `i`. */
  function ExchangePass<R(==)>(heap: map<R, TaskRec>, q: seq<R>, i: nat, j: nat): (r: seq<R>)
    requires Known(heap, q) && i < j
    ensures |r| == |q| && Known(heap, r)
    decreases |q| - j
  {
    if j >= |q| then q
    else if ShouldSwap(heap[q[i]], heap[q[j]]) then ExchangePass(heap, q[i := q[j]][j := q[i]], i, j + 1)
    else ExchangePass(heap, q, i, j + 1)
  }

  /** The outer loop from `i` on. */
  function ExchangeSort<R(==)>(heap: map<R, TaskRec>, q: seq<R>, i: nat): (r: seq<R>)
    requires Known(heap, q)
    ensures |r| == |q| && Known(heap, r)
    decreases |q| - i
  {
    if i + 1 >= |q| then q
    else ExchangeSort(heap, ExchangePass(heap, q, i, i + 1), i + 1)
  }

  lemma ExchangeStep<R>(heap: map<R, TaskRec>, q: seq<R>, i: nat, j: nat)
    requires Known(heap, q) && i < j < |q|
    ensures var swapped := q[i := q[j]][j := q[i]];
            && Known(heap, swapped)
            && ExchangePass(heap, q, i, j) ==
               ExchangePass(heap, if ShouldSwap(heap[q[i]], heap[q[j]]) then swapped else q, i, j + 1)
  {
  }

  lemma SortStep<R>(heap: map<R, TaskRec>, before: seq<R>, after: seq<R>, i: nat)
    requires Known(heap, before) && i + 1 < |before| && after == ExchangePass(heap, before, i, i + 1)
    ensures Known(heap, after) && ExchangeSort(heap, after, i + 1) == ExchangeSort(heap, before, i)
  {
  }

  lemma SwapKeepsMultiset<R>(q: seq<R>, i: nat, j: nat)
    requires i < j < |q|
    ensures multiset(q[i := q[j]][j := q[i]]) == multiset(q)
  {
  }

  /** One pass permutes the entries from `i` on and brings a least one of them to `i`. */
  lemma {:induction false} PassSelectsLeast<R>(heap: map<R, TaskRec>, q: seq<R>, i: nat, j: nat)
    requires Known(heap, q) && i < j <= |q|
    requires forall k :: i < k < j ==> !ShouldSwap(heap[q[i]], heap[q[k]])
    ensures var r := ExchangePass(heap, q, i, j);
            && multiset(r) == multiset(q)
            && r[..i] == q[..i]
            && forall k :: i < k < |r| ==> !ShouldSwap(heap[r[i]], heap[r[k]])
    decreases |q| - j
  {
    if j < |q| {
      if ShouldSwap(heap[q[i]], heap[q[j]]) {
        SwapKeepsMultiset(q, i, j);
        PassSelectsLeast(heap, q[i := q[j]][j := q[i]], i, j + 1);
      } else {
        PassSelectsLeast(heap, q, i, j + 1);
      }
    }
  }

  lemma CancelCommon<R>(a: multiset<R>, b: multiset<R>, c: multiset<R>)
    requires a + b == a + c
    ensures b == c
  {
    assert b == (a + b) - a && c == (a + c) - a;
  }

  lemma InSuffix<R>(q: seq<R>, r: seq<R>, i: nat, k: nat)
    requires |q| == |r| && i <= k < |q| && multiset(q) == multiset(r) && q[..i] == r[..i]
    ensures exists m :: i <= m < |q| && q[m] == r[k]
  {
    assert q == q[..i] + q[i..] && r == r[..i] + r[i..];
    assert multiset(q) == multiset(q[..i]) + multiset(q[i..]);
    assert multiset(r) == multiset(r[..i]) + multiset(r[i..]);
    CancelCommon(multiset(q[..i]), multiset(q[i..]), multiset(r[i..]));
    assert r[k] == r[i..][k - i] && r[k] in multiset(r[i..]);
    assert r[k] in q[i..];
    var m :| 0 <= m < |q[i..]| && q[i..][m] == r[k];
    assert q[i + m] == r[k];
  }

  lemma {:induction false} SortFromSorts<R>(heap: map<R, TaskRec>, q: seq<R>, i: nat)
    requires Known(heap, q)
    requires forall a, b :: 0 <= a < b < |q| && a < i ==> !ShouldSwap(heap[q[a]], heap[q[b]])
    ensures var r := ExchangeSort(heap, q, i); multiset(r) == multiset(q) && Sorted(heap, r)
    decreases |q| - i
  {
    if i + 1 < |q| {
      var r := ExchangePass(heap, q, i, i + 1);
      PassSelectsLeast(heap, q, i, i + 1);
      forall a, b | 0 <= a < b < |r| && a < i + 1 ensures !ShouldSwap(heap[r[a]], heap[r[b]]) {
        if a < i {
          assert r[a] == r[..i][a] == q[..i][a] == q[a];
          if b < i {
            assert r[b] == r[..i][b] == q[..i][b] == q[b];
          } else {
            InSuffix(q, r, i, b);
          }
        }
      }
      SortFromSorts(heap, r, i + 1);
    }
  }

  /** `sortQueue` leaves a sorted permutation of the queue. */
  lemma SortQueueSorts<R>(heap: map<R, TaskRec>, q: seq<R>)
    requires Known(heap, q)
    ensures Sorted(heap, ExchangeSort(heap, q, 0))
    ensures multiset(ExchangeSort(heap, q, 0)) == multiset(q)
  {
    SortFromSorts(heap, q, 0);
  }

  /** Two entries with the same key are copies of one task. */
  ghost predicate KeyIdentifies<R>(heap: map<R, TaskRec>, m: multiset<R>)
    requires forall a :: a in m ==> a in heap
  {
    forall a, b :: a in m && b in m && SameKey(heap[a], heap[b]) ==> a == b
  }

  lemma TailsAgree<R>(p: seq<R>, q: seq<R>)
    requires p != [] && q != [] && p[0] == q[0] && multiset(p) == multiset(q)
    ensures multiset(p[1..]) == multiset(q[1..])
  {
    assert p == [p[0]] + p[1..] && q == [p[0]] + q[1..];
    CancelCommon(multiset([p[0]]), multiset(p[1..]), multiset(q[1..]));
  }

  lemma SameHeadAndTail<R>(p: seq<R>, q: seq<R>)
    requires p != [] && q != [] && p[0] == q[0] && p[1..] == q[1..]
    ensures p == q
  {
    assert p == [p[0]] + p[1..] && q == [q[0]] + q[1..];
  }

  lemma TailKeys<R>(heap: map<R, TaskRec>, p: seq<R>)
    requires p != [] && (forall a :: a in multiset(p) ==> a in heap) && KeyIdentifies(heap, multiset(p))
    ensures (forall a :: a in multiset(p[1..]) ==> a in heap) && KeyIdentifies(heap, multiset(p[1..]))
  {
    assert p == [p[0]] + p[1..];
    forall a | a in multiset(p[1..]) ensures a in multiset(p) {
    }
  }

  lemma LeastAreSameKey<R>(heap: map<R, TaskRec>, p: seq<R>, q: seq<R>)
    requires Known(heap, p) && Known(heap, q) && Sorted(heap, p) && Sorted(heap, q)
    requires multiset(p) == multiset(q) && p != [] && q != []
    ensures p[0] in multiset(p) && q[0] in multiset(p) && SameKey(heap[p[0]], heap[q[0]])
  {
    assert p[0] in multiset(q) && q[0] in multiset(q);
    assert p[0] in q && q[0] in p;
  }

  /** When only copies of one task share a key, at most one sorted order exists. */
  lemma {:induction false} SortedOrderUnique<R>(heap: map<R, TaskRec>, p: seq<R>, q: seq<R>)
    requires Known(heap, p) && Known(heap, q) && Sorted(heap, p) && Sorted(heap, q)
    requires multiset(p) == multiset(q)
    requires forall a :: a in multiset(p) ==> a in heap
    requires KeyIdentifies(heap, multiset(p))
    ensures p == q
    decreases |p|
  {
    assert |p| == |multiset(p)| == |multiset(q)| == |q|;
    if p != [] {
      LeastAreSameKey(heap, p, q);
      TailsAgree(p, q);
      TailKeys(heap, p);
      SortedOrderUnique(heap, p[1..], q[1..]);
      SameHeadAndTail(p, q);
    }
  }

  /** How many leading entries of a sorted queue do not come after `r`. */
  function Position<R(==)>(heap: map<R, TaskRec>, q: seq<R>, r: R): (p: nat)
    requires Known(heap, q) && r in heap
    ensures p <= |q|
    ensures forall k :: 0 <= k < p ==> !ShouldSwap(heap[q[k]], heap[r])
    ensures p < |q| ==> ShouldSwap(heap[q[p]], heap[r])
  {
    if q == [] || ShouldSwap(heap[q[0]], heap[r]) then 0 else 1 + Position(heap, q[1..], r)
  }

  lemma InsertIsSorted<R>(heap: map<R, TaskRec>, q: seq<R>, r: R, p: nat)
    requires Known(heap, q) && Sorted(heap, q) && r in heap
    requires p == Position(heap, q, r)
    ensures Known(heap, q[..p] + [r] + q[p..]) && Sorted(heap, q[..p] + [r] + q[p..])
  {
    var ins := q[..p] + [r] + q[p..];
    forall i, j | 0 <= i < j < |ins| ensures !ShouldSwap(heap[ins[i]], heap[ins[j]]) {
      var x := if i < p then q[i] else if i == p then r else q[i - 1];
      var y := if j < p then q[j] else if j == p then r else q[j - 1];
      assert ins[i] == x && ins[j] == y;
      assert i == p ==> !ShouldSwap(heap[q[p]], heap[q[j - 1]]);
    }
  }

  lemma InsertPermutes<R>(q: seq<R>, r: R, p: nat)
    requires p <= |q|
    ensures multiset(q[..p] + [r] + q[p..]) == multiset(q + [r])
  {
    assert q == q[..p] + q[p..];
    assert multiset(q) == multiset(q[..p]) + multiset(q[p..]);
  }

  /** Appending to a sorted queue and sorting it again is ordered insertion. */
  lemma AppendAndSortInserts<R>(heap: map<R, TaskRec>, q: seq<R>, r: R)
    requires Known(heap, q) && Sorted(heap, q) && r in heap
    requires forall a :: a in multiset(q + [r]) ==> a in heap
    requires KeyIdentifies(heap, multiset(q + [r]))
    ensures var p := Position(heap, q, r);
            ExchangeSort(heap, q + [r], 0) == q[..p] + [r] + q[p..]
  {
    var p := Position(heap, q, r);
    var ins, out := q[..p] + [r] + q[p..], ExchangeSort(heap, q + [r], 0);
    InsertIsSorted(heap, q, r, p);
    SortQueueSorts(heap, q + [r]);
    InsertPermutes(q, r, p);
    SortedOrderUnique(heap, out, ins);
  }
}
