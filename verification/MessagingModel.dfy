/** A queue wrapped by `MessagingTaskQueue`, as a step system: the delegate's operation and the
    publishing of its event are two steps of the caller, and the publisher's consumer, its
    synchronous sends and its stop run in between. */
module MessagingModel {
  import opened Tasks
  import opened QueueModel
  import EP = EventPublisher

  datatype EventKind = Created | Started | Retrying | DeadLettering

  /** The fields of a `BackgroundTaskEvent` that the task determines. */
  datatype TaskEvent = TaskEvent(kind: EventKind, taskId: string, status: Status, workerId: Option<string>,
                                 retryCount: int, error: Option<string>)

  function NewEvent(kind: EventKind, t: TaskRec): TaskEvent {
    TaskEvent(kind, t.id, t.status, t.workerId, t.retryCount, t.lastError)
  }

  type Tag<R> = (EventKind, R)

  /** `owed` holds the events of calls that have left the delegate and not yet published. */
  datatype Joint<R(==)> = Joint(q: QState<R>, pub: EP.Publisher<TaskEvent>, owed: seq<Tag<R>>)

  /** A queue step of a wrapper call, or a status written by somebody else; a caller publishing;
      any step of the publisher but publishing. */
  datatype JointAction<R> = Call(op: Op<R>) | PublishOwed(i: nat) | Background(a: EP.Action<TaskEvent>)

  /** What a call owes once the delegate has returned: one Created event for an enqueue, one
      Started event for a claim. */
  function Owes<R(==)>(q: QState<R>, op: Op<R>): seq<Tag<R>>
    requires WellFormed(q) && Allowed(q, op)
  {
    match op
    case Enqueue(r, _, _, _, _) => [(Created, r)]
    case Dequeue(worker, req, scan, now) =>
      var got := Dequeued(q, worker, req, scan, now).1;
      if got.None? then [] else [(Started, got.value)]
    case _ => []
  }

  /** The event is built from the task as it is when the caller publishes. */
  function OwedEvent<R(==)>(s: Joint<R>, i: nat): EP.Action<TaskEvent>
    requires i < |s.owed| && s.owed[i].1 in s.q.heap
  {
    EP.Publish(Some(NewEvent(s.owed[i].0, s.q.heap[s.owed[i].1])))
  }

  predicate Enabled<R(==)>(s: Joint<R>, a: JointAction<R>) {
    match a
    case Call(op) => Allowed(s.q, op)
    case PublishOwed(i) => i < |s.owed| && s.owed[i].1 in s.q.heap && EP.Enabled(s.pub, OwedEvent(s, i))
    case Background(b) => !b.Publish? && EP.Enabled(s.pub, b)
  }

  function Step<R(==)>(s: Joint<R>, a: JointAction<R>): Joint<R>
    requires WellFormed(s.q) && Enabled(s, a)
  {
    match a
    case Call(op) => s.(q := Apply(s.q, op), owed := s.owed + Owes(s.q, op))
    case PublishOwed(i) => s.(pub := EP.Step(s.pub, OwedEvent(s, i)), owed := s.owed[..i] + s.owed[i + 1..])
    case Background(b) => s.(pub := EP.Step(s.pub, b))
  }

  ghost predicate Legal<R>(s: Joint<R>, acts: seq<JointAction<R>>)
    decreases |acts|
  {
    acts == [] || (WellFormed(s.q) && Enabled(s, acts[0]) && Legal(Step(s, acts[0]), acts[1..]))
  }

  ghost function Final<R>(s: Joint<R>, acts: seq<JointAction<R>>): Joint<R>
    requires Legal(s, acts)
    decreases |acts|
  {
    if acts == [] then s else Final(Step(s, acts[0]), acts[1..])
  }

  // ----- The publisher's part of a run -----

  function PublisherStep<R(==)>(s: Joint<R>, a: JointAction<R>): seq<EP.Action<TaskEvent>>
    requires Enabled(s, a)
  {
    match a
    case Call(_) => []
    case PublishOwed(i) => [OwedEvent(s, i)]
    case Background(b) => [b]
  }

  /** The steps that the publisher takes in a run. */
  ghost function PublisherActs<R>(s: Joint<R>, acts: seq<JointAction<R>>): seq<EP.Action<TaskEvent>>
    requires Legal(s, acts)
    decreases |acts|
  {
    if acts == [] then [] else PublisherStep(s, acts[0]) + PublisherActs(Step(s, acts[0]), acts[1..])
  }

  /** They form a run of the publisher on its own, to the same end. */
  lemma {:induction false} PublisherRuns<R>(s: Joint<R>, acts: seq<JointAction<R>>)
    requires Legal(s, acts)
    ensures EP.Legal(s.pub, PublisherActs(s, acts))
    ensures EP.Final(s.pub, PublisherActs(s, acts)) == Final(s, acts).pub
    decreases |acts|
  {
    if acts != [] {
      var t, now := Step(s, acts[0]), PublisherStep(s, acts[0]);
      PublisherRuns(t, acts[1..]);
      var later := PublisherActs(t, acts[1..]);
      if now == [] {
        assert now + later == later;
      } else {
        assert (now + later)[0] == now[0] && (now + later)[1..] == later;
      }
    }
  }

  // ----- Any number of callers -----

  function CallTags<R(==)>(s: Joint<R>, a: JointAction<R>): seq<Tag<R>>
    requires WellFormed(s.q) && Enabled(s, a)
  {
    if a.Call? then Owes(s.q, a.op) else []
  }

  function PublishedTags<R(==)>(s: Joint<R>, a: JointAction<R>): seq<Tag<R>>
    requires Enabled(s, a)
  {
    if a.PublishOwed? then [s.owed[a.i]] else []
  }

  /** What the calls of the run owe, in the order in which the delegate served them. */
  ghost function AllCallTags<R>(s: Joint<R>, acts: seq<JointAction<R>>): seq<Tag<R>>
    requires Legal(s, acts)
    decreases |acts|
  {
    if acts == [] then [] else CallTags(s, acts[0]) + AllCallTags(Step(s, acts[0]), acts[1..])
  }

  /** What they publish, in the order of publishing. */
  ghost function AllPublishedTags<R>(s: Joint<R>, acts: seq<JointAction<R>>): seq<Tag<R>>
    requires Legal(s, acts)
    decreases |acts|
  {
    if acts == [] then [] else PublishedTags(s, acts[0]) + AllPublishedTags(Step(s, acts[0]), acts[1..])
  }

  lemma StepOwes<R>(s: Joint<R>, a: JointAction<R>)
    requires WellFormed(s.q) && Enabled(s, a)
    ensures multiset(PublishedTags(s, a)) + multiset(Step(s, a).owed) == multiset(s.owed) + multiset(CallTags(s, a))
  {
    if a.PublishOwed? {
      assert s.owed == s.owed[..a.i] + [s.owed[a.i]] + s.owed[a.i + 1..];
    }
  }

  /** However callers interleave, what has been published together with what is still owed is
      what the calls owed: nothing is lost and nothing published twice. */
  lemma {:induction false} EveryCallPublishesOnce<R>(s: Joint<R>, acts: seq<JointAction<R>>)
    requires Legal(s, acts)
    ensures multiset(AllPublishedTags(s, acts)) + multiset(Final(s, acts).owed) ==
            multiset(s.owed) + multiset(AllCallTags(s, acts))
    decreases |acts|
  {
    if acts != [] {
      var t := Step(s, acts[0]);
      StepOwes(s, acts[0]);
      EveryCallPublishesOnce(t, acts[1..]);
      EP.Telescope(PublishedTags(s, acts[0]), AllPublishedTags(t, acts[1..]),
                   CallTags(s, acts[0]), AllCallTags(t, acts[1..]),
                   multiset(s.owed), multiset(t.owed), multiset(Final(s, acts).owed));
    }
  }

  function Count<T>(xs: seq<T>, f: T -> bool): nat {
    if xs == [] then 0 else (if f(xs[0]) then 1 else 0) + Count(xs[1..], f)
  }

  lemma {:induction false} CountConcat<T>(a: seq<T>, b: seq<T>, f: T -> bool)
    ensures Count(a + b, f) == Count(a, f) + Count(b, f)
  {
    if a == [] {
      assert a + b == b;
    } else {
      assert (a + b)[0] == a[0] && (a + b)[1..] == a[1..] + b;
      CountConcat(a[1..], b, f);
    }
  }

  lemma CountOne<T>(x: T, f: T -> bool)
    ensures Count([x], f) == if f(x) then 1 else 0
  {
    assert [x][1..] == [];
  }

  lemma {:induction false} CountOfMultiset<T>(a: seq<T>, b: seq<T>, f: T -> bool)
    requires multiset(a) == multiset(b)
    ensures Count(a, f) == Count(b, f)
    decreases |a|
  {
    assert |a| == |multiset(a)| == |multiset(b)| == |b|;
    if a != [] {
      assert a[0] in multiset(b);
      var i :| 0 <= i < |b| && b[i] == a[0];
      var rest := b[..i] + b[i + 1..];
      RestOf(a, b, i);
      CountOfMultiset(a[1..], rest, f);
      assert b == b[..i] + ([b[i]] + b[i + 1..]);
      CountConcat(b[..i], [b[i]] + b[i + 1..], f);
      CountConcat([b[i]], b[i + 1..], f);
      CountConcat(b[..i], b[i + 1..], f);
      CountOne(b[i], f);
    }
  }

  lemma RestOf<T>(a: seq<T>, b: seq<T>, i: nat)
    requires a != [] && i < |b| && b[i] == a[0] && multiset(a) == multiset(b)
    ensures multiset(a[1..]) == multiset(b[..i] + b[i + 1..])
  {
    assert a == [a[0]] + a[1..] && b == b[..i] + [b[i]] + b[i + 1..];
    assert multiset(a[1..]) == multiset(a) - multiset{a[0]};
    assert multiset(b[..i] + b[i + 1..]) == multiset(b) - multiset{b[i]};
  }

  function TagOf<R>(kind: EventKind): Tag<R> -> bool {
    (t: Tag<R>) => t.0 == kind
  }

  function EventOf(kind: EventKind): TaskEvent -> bool {
    (e: TaskEvent) => e.kind == kind
  }

  predicate IsClaim<R(==)>(q: QState<R>, op: Op<R>)
    requires WellFormed(q) && Allowed(q, op)
  {
    op.Dequeue? && Dequeued(q, op.worker, op.req, op.scan, op.now).1.Some?
  }

  /** The enqueues and the claims of the run. */
  ghost function Submissions<R>(s: Joint<R>, acts: seq<JointAction<R>>): (nat, nat)
    requires Legal(s, acts)
    decreases |acts|
  {
    if acts == [] then (0, 0)
    else
      var (enqueues, claims) := Submissions(Step(s, acts[0]), acts[1..]);
      (enqueues + (if acts[0].Call? && acts[0].op.Enqueue? then 1 else 0),
       claims + (if acts[0].Call? && IsClaim(s.q, acts[0].op) then 1 else 0))
  }

  lemma StepSubmits<R>(s: Joint<R>, a: JointAction<R>)
    requires WellFormed(s.q) && Enabled(s, a)
    ensures Count(CallTags(s, a), TagOf(Created)) == if a.Call? && a.op.Enqueue? then 1 else 0
    ensures Count(CallTags(s, a), TagOf(Started)) == if a.Call? && IsClaim(s.q, a.op) then 1 else 0
  {
    var tags := CallTags(s, a);
    if tags != [] {
      CountOne(tags[0], TagOf(Created));
      CountOne(tags[0], TagOf(Started));
    }
  }

  /** One Created event is owed per enqueue and one Started event per claim. */
  lemma {:induction false} EventsMatchCalls<R>(s: Joint<R>, acts: seq<JointAction<R>>)
    requires Legal(s, acts)
    ensures Count(AllCallTags(s, acts), TagOf(Created)) == Submissions(s, acts).0
    ensures Count(AllCallTags(s, acts), TagOf(Started)) == Submissions(s, acts).1
    decreases |acts|
  {
    if acts != [] {
      var now, later := CallTags(s, acts[0]), AllCallTags(Step(s, acts[0]), acts[1..]);
      StepSubmits(s, acts[0]);
      EventsMatchCalls(Step(s, acts[0]), acts[1..]);
      CountConcat(now, later, TagOf(Created));
      CountConcat(now, later, TagOf(Started));
    }
  }

  lemma {:induction false} PublishedConcat(a: seq<EP.Action<TaskEvent>>, b: seq<EP.Action<TaskEvent>>)
    ensures EP.Published(a + b) == EP.Published(a) + EP.Published(b)
  {
    if a == [] {
      assert a + b == b;
    } else {
      assert (a + b)[0] == a[0] && (a + b)[1..] == a[1..] + b;
      PublishedConcat(a[1..], b);
    }
  }

  /** The events that a step publishes. */
  function StepEvents<R(==)>(s: Joint<R>, a: JointAction<R>): seq<TaskEvent>
    requires Enabled(s, a)
  {
    if a.PublishOwed? then [NewEvent(s.owed[a.i].0, s.q.heap[s.owed[a.i].1])] else []
  }

  lemma StepPublishes<R>(s: Joint<R>, a: JointAction<R>)
    requires Enabled(s, a)
    ensures EP.Published(PublisherStep(s, a)) == StepEvents(s, a)
  {
    var step := PublisherStep(s, a);
    assert step != [] ==> step[1..] == [];
  }

  /** The published events carry the kinds of the published tags. */
  lemma {:induction false} PublishedKinds<R>(s: Joint<R>, acts: seq<JointAction<R>>, kind: EventKind)
    requires Legal(s, acts)
    ensures Count(EP.Published(PublisherActs(s, acts)), EventOf(kind)) == Count(AllPublishedTags(s, acts), TagOf(kind))
    decreases |acts|
  {
    if acts != [] {
      var t := Step(s, acts[0]);
      PublishedKinds(t, acts[1..], kind);
      PublishedConcat(PublisherStep(s, acts[0]), PublisherActs(t, acts[1..]));
      StepPublishes(s, acts[0]);
      CountConcat(StepEvents(s, acts[0]), EP.Published(PublisherActs(t, acts[1..])), EventOf(kind));
      CountConcat(PublishedTags(s, acts[0]), AllPublishedTags(t, acts[1..]), TagOf(kind));
      if acts[0].PublishOwed? {
        CountOne(StepEvents(s, acts[0])[0], EventOf(kind));
        CountOne(s.owed[acts[0].i], TagOf(kind));
      }
    }
  }

  /** Nothing is owed and the publisher has just been started. */
  function StartedQueue<R(==)>(q: QState<R>, capacity: nat): Joint<R> {
    Joint(q, EP.Started(capacity), [])
  }

  /** The run is over: nothing is owed, every synchronous send has returned, and `Stop` has
      waited for the consumer. */
  predicate IsOver<R(==)>(s: Joint<R>) {
    s.owed == [] && s.pub.direct == [] && s.pub.consumer.Finished?
  }

  lemma KindsOfCallsArePublished<R>(s: Joint<R>, acts: seq<JointAction<R>>, kind: EventKind)
    requires Legal(s, acts) && s.owed == [] && Final(s, acts).owed == []
    ensures Count(EP.Published(PublisherActs(s, acts)), EventOf(kind)) == Count(AllCallTags(s, acts), TagOf(kind))
  {
    EveryCallPublishesOnce(s, acts);
    EP.DropEmpty(AllPublishedTags(s, acts), Final(s, acts).owed, s.owed, AllCallTags(s, acts));
    PublishedKinds(s, acts, kind);
    CountOfMultiset(AllPublishedTags(s, acts), AllCallTags(s, acts), TagOf(kind));
  }

  /** What the backend is handed in a run of the publisher, asynchronously and directly. */
  ghost function Seen(p: EP.Publisher<TaskEvent>, steps: seq<EP.Action<TaskEvent>>): seq<TaskEvent>
    requires EP.Legal(p, steps)
  {
    EP.Log(p, steps, EP.AttemptedEvents) + EP.Log(p, steps, EP.DirectEvents)
  }

  /** For any number of concurrent callers, any overflow and any schedule: once the run is over
      the backend has been handed one Created event per enqueue and one Started event per claim. */
  lemma BackendSeesEveryCall<R>(q: QState<R>, capacity: nat, acts: seq<JointAction<R>>)
    requires Legal(StartedQueue(q, capacity), acts) && IsOver(Final(StartedQueue(q, capacity), acts))
    requires EP.NeverDisabled(PublisherActs(StartedQueue(q, capacity), acts))
    ensures var s := StartedQueue(q, capacity); var steps := PublisherActs(s, acts);
            && EP.Legal(s.pub, steps)
            && Count(Seen(s.pub, steps), EventOf(Created)) == Submissions(s, acts).0
            && Count(Seen(s.pub, steps), EventOf(Started)) == Submissions(s, acts).1
  {
    var s := StartedQueue(q, capacity);
    var steps := PublisherActs(s, acts);
    PublisherRuns(s, acts);
    EP.EveryPublishedReachesBackend(capacity, steps);
    EP.NeverDisabledTakesAll(s.pub, steps);
    CountOfMultiset(Seen(s.pub, steps), EP.Published(steps), EventOf(Created));
    CountOfMultiset(Seen(s.pub, steps), EP.Published(steps), EventOf(Started));
    KindsOfCallsArePublished(s, acts, Created);
    KindsOfCallsArePublished(s, acts, Started);
    EventsMatchCalls(s, acts);
  }

  // ----- One caller -----

  /** Every queue step finds the events of the earlier ones published. */
  ghost predicate OneCaller<R>(s: Joint<R>, acts: seq<JointAction<R>>)
    requires Legal(s, acts)
    decreases |acts|
  {
    acts == [] || ((acts[0].Call? ==> s.owed == []) && OneCaller(Step(s, acts[0]), acts[1..]))
  }

  /** The events of one call, with the fields that the task has when the delegate returns. */
  function EventsOf<R(==)>(q: QState<R>, op: Op<R>): seq<TaskEvent>
    requires WellFormed(q) && Allowed(q, op)
  {
    match op
    case Enqueue(r, _, _, _, _) => [NewEvent(Created, Apply(q, op).heap[r])]
    case Dequeue(worker, req, scan, now) =>
      var (q', got) := Dequeued(q, worker, req, scan, now);
      if got.None? then [] else [NewEvent(Started, q'.heap[got.value])]
    case _ => []
  }

  /** The fields of those events: those of the task as the call left it. */
  lemma EventsInFields<R>(q: QState<R>, op: Op<R>)
    requires WellFormed(q) && Allowed(q, op)
    ensures op.Enqueue? ==>
              var t := Apply(q, op).heap[op.r];
              && t.status == Pending
              && EventsOf(q, op) == [TaskEvent(Created, t.id, Pending, t.workerId, t.retryCount, t.lastError)]
    ensures op.Dequeue? && IsClaim(q, op) ==>
              var (q', got) := Dequeued(q, op.worker, op.req, op.scan, op.now);
              var t := q'.heap[got.value];
              EventsOf(q, op) == [TaskEvent(Started, t.id, Running, Some(op.worker), t.retryCount, t.lastError)]
    ensures !op.Enqueue? && !IsClaim(q, op) ==> EventsOf(q, op) == []
  {
  }

  /** The events of the calls of a run, in call order. */
  ghost function CallEvents<R>(s: Joint<R>, acts: seq<JointAction<R>>): seq<TaskEvent>
    requires Legal(s, acts)
    decreases |acts|
  {
    if acts == [] then []
    else (if acts[0].Call? then EventsOf(s.q, acts[0].op) else []) + CallEvents(Step(s, acts[0]), acts[1..])
  }

  predicate OwesAtMostOne<R(==)>(s: Joint<R>) {
    |s.owed| <= 1 && (s.owed != [] ==> s.owed[0].1 in s.q.heap)
  }

  function OwedNow<R(==)>(s: Joint<R>): seq<TaskEvent>
    requires OwesAtMostOne(s)
  {
    if s.owed == [] then [] else [NewEvent(s.owed[0].0, s.q.heap[s.owed[0].1])]
  }

  lemma StepInOrder<R>(s: Joint<R>, a: JointAction<R>)
    requires WellFormed(s.q) && Enabled(s, a) && OwesAtMostOne(s) && (a.Call? ==> s.owed == [])
    ensures OwesAtMostOne(Step(s, a))
    ensures StepEvents(s, a) + OwedNow(Step(s, a)) == OwedNow(s) + (if a.Call? then EventsOf(s.q, a.op) else [])
  {
  }

  /** With one caller the published events are the events of the calls, in call order. */
  lemma {:induction false} PublishedInCallOrder<R>(s: Joint<R>, acts: seq<JointAction<R>>)
    requires Legal(s, acts) && OneCaller(s, acts) && OwesAtMostOne(s)
    ensures OwesAtMostOne(Final(s, acts))
    ensures EP.Published(PublisherActs(s, acts)) + OwedNow(Final(s, acts)) == OwedNow(s) + CallEvents(s, acts)
    decreases |acts|
  {
    if acts != [] {
      var t := Step(s, acts[0]);
      StepInOrder(s, acts[0]);
      PublishedInCallOrder(t, acts[1..]);
      PublishedConcat(PublisherStep(s, acts[0]), PublisherActs(t, acts[1..]));
      StepPublishes(s, acts[0]);
      EP.Reassociate(StepEvents(s, acts[0]), EP.Published(PublisherActs(t, acts[1..])), OwedNow(Final(s, acts)),
                     OwedNow(t), CallEvents(t, acts[1..]), OwedNow(s),
                     if acts[0].Call? then EventsOf(s.q, acts[0].op) else []);
    }
  }

  /** One caller, no overflow, any schedule of the consumer: once the run is over the backend has
      seen exactly the events of the calls, in call order. */
  lemma WrapperEventsReachBackend<R>(q: QState<R>, capacity: nat, acts: seq<JointAction<R>>)
    requires Legal(StartedQueue(q, capacity), acts) && IsOver(Final(StartedQueue(q, capacity), acts))
    requires OneCaller(StartedQueue(q, capacity), acts)
    requires var s := StartedQueue(q, capacity); var steps := PublisherActs(s, acts);
             EP.NeverDisabled(steps) && EP.Legal(s.pub, steps) && EP.Log(s.pub, steps, EP.OverflowEvents) == []
    ensures var s := StartedQueue(q, capacity);
            EP.Log(s.pub, PublisherActs(s, acts), EP.AttemptedEvents) == CallEvents(s, acts)
  {
    var s := StartedQueue(q, capacity);
    PublisherRuns(s, acts);
    EP.PublishedIsAttempted(capacity, PublisherActs(s, acts));
    PublishedInCallOrder(s, acts);
    var published, calls := EP.Published(PublisherActs(s, acts)), CallEvents(s, acts);
    assert published + [] == published && [] + calls == calls;
  }

  // ----- One call, uninterrupted -----

  /** The publisher after one publish step and, on overflow, the synchronous send. */
  function AfterPublish(p: EP.Publisher<TaskEvent>, e: TaskEvent): EP.Publisher<TaskEvent>
    requires !p.channelClosed && p.direct == []
  {
    var p' := EP.Step(p, EP.Publish(Some(e)));
    if p'.direct == [] then p' else EP.Step(p', EP.SendDirect(0))
  }

  /** The events that are sent synchronously in those steps. */
  function SentDirectly(p: EP.Publisher<TaskEvent>, e: TaskEvent): seq<TaskEvent>
    requires !p.channelClosed && p.direct == []
  {
    var p' := EP.Step(p, EP.Publish(Some(e)));
    if p'.direct == [] then [] else EP.DirectEvents(EP.Observe(p', EP.SendDirect(0)))
  }

  predicate Settled<R(==)>(s: Joint<R>) {
    s.owed == [] && s.pub.direct == [] && !s.pub.channelClosed
  }

  /** The queue and the publisher after one wrapper call. */
  function AfterCall<R(==)>(s: Joint<R>, op: Op<R>): Joint<R>
    requires WellFormed(s.q) && Allowed(s.q, op) && Settled(s)
  {
    var events := EventsOf(s.q, op);
    Joint(Apply(s.q, op), if events == [] then s.pub else AfterPublish(s.pub, events[0]), [])
  }

  /** That is a run of one caller, and its event is the call's. */
  lemma AfterCallIsRun<R>(s: Joint<R>, op: Op<R>) returns (acts: seq<JointAction<R>>)
    requires WellFormed(s.q) && Allowed(s.q, op) && Settled(s)
    ensures Legal(s, acts) && OneCaller(s, acts) && Final(s, acts) == AfterCall(s, op)
    ensures CallEvents(s, acts) == EventsOf(s.q, op)
  {
    ApplyKeepsWellFormed(s.q, op);
    var s1 := Step(s, Call(op));
    acts := [];
    var s3 := s1;
    if s1.owed != [] {
      var s2 := Step(s1, PublishOwed(0));
      s3 := s2;
      if s2.pub.direct != [] {
        s3 := Step(s2, Background(EP.SendDirect(0)));
        acts := LegalCons(s2, Background(EP.SendDirect(0)), acts);
      }
      acts := LegalCons(s1, PublishOwed(0), acts);
    }
    acts := LegalCons(s, Call(op), acts);
    assert EventsOf(s.q, op) + [] == EventsOf(s.q, op);
  }

  lemma LegalCons<R>(s: Joint<R>, a: JointAction<R>, rest: seq<JointAction<R>>) returns (acts: seq<JointAction<R>>)
    requires WellFormed(s.q) && Enabled(s, a) && Legal(Step(s, a), rest) && OneCaller(Step(s, a), rest)
    requires a.Call? ==> s.owed == []
    ensures acts == [a] + rest && Legal(s, acts) && OneCaller(s, acts) && Final(s, acts) == Final(Step(s, a), rest)
    ensures CallEvents(s, acts) == (if a.Call? then EventsOf(s.q, a.op) else []) + CallEvents(Step(s, a), rest)
  {
    acts := [a] + rest;
    assert acts[1..] == rest;
  }
}
