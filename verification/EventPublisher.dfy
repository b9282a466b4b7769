/** The asynchronous event publisher: a bounded channel, its consumer goroutine, synchronous
    publishing when the channel is full, and draining on stop. */
module EventPublisher {
  import opened Tasks

  /** The consumer goroutine of `asyncPublishLoop`. */
  datatype Consumer<E> =
    | AtSelect
    | Sending(event: Option<E>)        // received in the select, about to call doPublish
    | Draining                         // saw stopCh, ranging over the channel
    | DrainSending(event: Option<E>)   // received while draining
    | Finished

  /** `capacity` is zero when there is no channel; `direct` holds the events that publishing
      goroutines are about to send synchronously. */
  datatype Publisher<E> = Publisher(
    enabled: bool,
    hasBackend: bool,
    capacity: nat,
    buffer: seq<Option<E>>,
    direct: seq<Option<E>>,
    stopClosed: bool,
    channelClosed: bool,
    consumer: Consumer<E>)

  datatype Action<E> =
    | Publish(event: Option<E>)
    | SendDirect(i: nat)
    | SetEnabled(on: bool)
    | CloseStop
    | CloseChannel
    | Receive
    | SeeClosed
    | SeeStop
    | Send

  /** What an observer at the backend and at the channel sees of one step. */
  datatype Event<E> =
    | Nothing
    | Accepted(e: Option<E>)
    | Overflowed(e: Option<E>)
    | Attempted(e: Option<E>)
    | Direct(e: Option<E>)

  predicate Ignores<E>(p: Publisher<E>) {
    !p.enabled || !p.hasBackend
  }

  predicate HasRoom<E>(p: Publisher<E>) {
    p.capacity > 0 && |p.buffer| < p.capacity
  }

  /** A send on a closed channel panics, so nothing is published after `Stop`. */
  predicate Enabled<E>(p: Publisher<E>, a: Action<E>) {
    match a
    case Publish(_) => !p.channelClosed
    case SendDirect(i) => i < |p.direct|
    case SetEnabled(_) => true
    case CloseStop => !p.stopClosed
    case CloseChannel => p.stopClosed && !p.channelClosed && p.capacity > 0
    case Receive => (p.consumer.AtSelect? || p.consumer.Draining?) && p.buffer != []
    case SeeClosed => (p.consumer.AtSelect? || p.consumer.Draining?) && p.buffer == [] && p.channelClosed
    case SeeStop => p.consumer.AtSelect? && p.stopClosed
    case Send => p.consumer.Sending? || p.consumer.DrainSending?
  }

  function Step<E>(p: Publisher<E>, a: Action<E>): Publisher<E>
    requires Enabled(p, a)
  {
    match a
    case Publish(event) =>
      if Ignores(p) then p
      else if HasRoom(p) then p.(buffer := p.buffer + [event])
      else p.(direct := p.direct + [event])
    case SendDirect(i) => p.(direct := p.direct[..i] + p.direct[i + 1..])
    case SetEnabled(on) => p.(enabled := on)
    case CloseStop => p.(stopClosed := true)
    case CloseChannel => p.(channelClosed := true)
    case Receive =>
      p.(consumer := if p.consumer.AtSelect? then Sending(p.buffer[0]) else DrainSending(p.buffer[0]),
         buffer := p.buffer[1..])
    case SeeClosed => p.(consumer := Finished)
    case SeeStop => p.(consumer := Draining)
    case Send => p.(consumer := if p.consumer.Sending? then AtSelect else Draining)
  }

  function Observe<E>(p: Publisher<E>, a: Action<E>): Event<E>
    requires Enabled(p, a)
  {
    match a
    case Publish(event) => if Ignores(p) then Nothing else if HasRoom(p) then Accepted(event) else Overflowed(event)
    case SendDirect(i) => Direct(p.direct[i])
    case Send => Attempted(p.consumer.event)
    case _ => Nothing
  }

  /** A publish step: ignored while disabled or without a backend; into the channel exactly while
      it has fewer events than its capacity; otherwise about to be sent directly. */
  lemma PublishInFields<E>(p: Publisher<E>, event: Option<E>)
    requires !p.channelClosed
    ensures var p' := Step(p, Publish(event));
            && (!p.enabled || !p.hasBackend ==> p' == p && Observe(p, Publish(event)) == Nothing)
            && (p.enabled && p.hasBackend && |p.buffer| < p.capacity ==>
                  p' == p.(buffer := p.buffer + [event]) && Observe(p, Publish(event)) == Accepted(event))
            && (p.enabled && p.hasBackend && |p.buffer| >= p.capacity ==>
                  p' == p.(direct := p.direct + [event]) && Observe(p, Publish(event)) == Overflowed(event))
  {
  }

  /** `doPublish` calls the backend for every event but nil. */
  function Calls<E>(e: Option<E>): seq<E> {
    if e.None? then [] else [e.value]
  }

  function AllCalls<E>(es: seq<Option<E>>): seq<E> {
    if es == [] then [] else Calls(es[0]) + AllCalls(es[1..])
  }

  /** A publisher right after `Start`, which starts a consumer only if there is a channel. */
  function Started<E>(capacity: nat): Publisher<E> {
    Publisher(true, true, capacity, [], [], false, false, if capacity > 0 then AtSelect else Finished)
  }

  ghost predicate Legal<E>(p: Publisher<E>, acts: seq<Action<E>>)
    decreases |acts|
  {
    acts == [] || (Enabled(p, acts[0]) && Legal(Step(p, acts[0]), acts[1..]))
  }

  ghost function Final<E>(p: Publisher<E>, acts: seq<Action<E>>): Publisher<E>
    requires Legal(p, acts)
    decreases |acts|
  {
    if acts == [] then p else Final(Step(p, acts[0]), acts[1..])
  }

  /** The events of the run that `pick` selects, in order. */
  ghost function Log<E>(p: Publisher<E>, acts: seq<Action<E>>, pick: Event<E> -> seq<E>): seq<E>
    requires Legal(p, acts)
    decreases |acts|
  {
    if acts == [] then [] else pick(Observe(p, acts[0])) + Log(Step(p, acts[0]), acts[1..], pick)
  }

  function AcceptedEvents<E>(e: Event<E>): seq<E> { if e.Accepted? then Calls(e.e) else [] }

  function AttemptedEvents<E>(e: Event<E>): seq<E> { if e.Attempted? then Calls(e.e) else [] }

  function OverflowEvents<E>(e: Event<E>): seq<E> { if e.Overflowed? then Calls(e.e) else [] }

  function DirectEvents<E>(e: Event<E>): seq<E> { if e.Direct? then Calls(e.e) else [] }

  // ----- The channel: in order, exactly once -----

  lemma {:induction false} AllCallsConcat<E>(a: seq<Option<E>>, b: seq<Option<E>>)
    ensures AllCalls(a + b) == AllCalls(a) + AllCalls(b)
  {
    if a == [] {
      assert a + b == b;
    } else {
      assert (a + b)[0] == a[0] && (a + b)[1..] == a[1..] + b;
      AllCallsConcat(a[1..], b);
    }
  }

  lemma AllCallsAppend<E>(es: seq<Option<E>>, e: Option<E>)
    ensures AllCalls(es + [e]) == AllCalls(es) + Calls(e)
  {
    AllCallsConcat(es, [e]);
    assert [e][1..] == [];
  }

  lemma AllCallsCons<E>(e: Option<E>, es: seq<Option<E>>)
    ensures AllCalls([e] + es) == Calls(e) + AllCalls(es)
  {
    assert ([e] + es)[1..] == es;
  }

  /** Accepted and not yet attempted. */
  function Backlog<E>(p: Publisher<E>): seq<E> {
    (if p.consumer.Sending? || p.consumer.DrainSending? then Calls(p.consumer.event) else []) + AllCalls(p.buffer)
  }

  lemma PublishBacklog<E>(p: Publisher<E>, event: Option<E>)
    requires Enabled(p, Publish(event))
    ensures Backlog(Step(p, Publish(event))) == Backlog(p) + AcceptedEvents(Observe(p, Publish(event)))
  {
    AllCallsAppend(p.buffer, event);
  }

  lemma ReceiveBacklog<E>(p: Publisher<E>)
    requires Enabled(p, Receive)
    ensures Backlog(Step(p, Receive)) == Backlog(p)
  {
  }

  lemma StepBacklog<E>(p: Publisher<E>, a: Action<E>)
    requires Enabled(p, a)
    ensures AttemptedEvents(Observe(p, a)) + Backlog(Step(p, a)) == Backlog(p) + AcceptedEvents(Observe(p, a))
  {
    if a.Publish? {
      PublishBacklog(p, a.event);
    } else if a.Receive? {
      ReceiveBacklog(p);
    }
  }

  lemma Reassociate<T>(now: seq<T>, later: seq<T>, end: seq<T>, mid: seq<T>, calls: seq<T>, start: seq<T>, call: seq<T>)
    requires later + end == mid + calls && now + mid == start + call
    ensures (now + later) + end == start + (call + calls)
  {
    calc {
      (now + later) + end;
      now + (later + end);
      now + (mid + calls);
      (now + mid) + calls;
      (start + call) + calls;
      start + (call + calls);
    }
  }

  lemma {:induction false} RunBacklog<E>(p: Publisher<E>, acts: seq<Action<E>>)
    requires Legal(p, acts)
    ensures Log(p, acts, AttemptedEvents) + Backlog(Final(p, acts)) == Backlog(p) + Log(p, acts, AcceptedEvents)
    decreases |acts|
  {
    if acts != [] {
      var q := Step(p, acts[0]);
      StepBacklog(p, acts[0]);
      RunBacklog(q, acts[1..]);
      Reassociate(AttemptedEvents(Observe(p, acts[0])), Log(q, acts[1..], AttemptedEvents), Backlog(Final(p, acts)),
                  Backlog(q), Log(q, acts[1..], AcceptedEvents), Backlog(p), AcceptedEvents(Observe(p, acts[0])));
    }
  }

  /** The channel never holds more than its capacity, and the backend and capacity never change. */
  lemma {:induction false} BufferIsBounded<E>(p: Publisher<E>, acts: seq<Action<E>>)
    requires Legal(p, acts) && |p.buffer| <= p.capacity
    ensures var q := Final(p, acts); |q.buffer| <= q.capacity == p.capacity && q.hasBackend == p.hasBackend
    decreases |acts|
  {
    if acts != [] {
      BufferIsBounded(Step(p, acts[0]), acts[1..]);
    }
  }

  ghost predicate EndsEmpty<E>(p: Publisher<E>) {
    p.consumer.Finished? ==> p.buffer == [] && (p.channelClosed || p.capacity == 0)
  }

  lemma {:induction false} RunEndsEmpty<E>(p: Publisher<E>, acts: seq<Action<E>>)
    requires Legal(p, acts) && EndsEmpty(p)
    ensures EndsEmpty(Final(p, acts))
    decreases |acts|
  {
    if acts != [] {
      RunEndsEmpty(Step(p, acts[0]), acts[1..]);
    }
  }

  /** In every interleaving that lets the consumer loop end, the buffer is empty and the loop
      attempted exactly the accepted events, in the order of acceptance, each once. */
  lemma AcceptedExactlyOnce<E>(capacity: nat, acts: seq<Action<E>>)
    requires Legal(Started(capacity), acts) && Final(Started(capacity), acts).consumer.Finished?
    ensures Final(Started(capacity), acts).buffer == []
    ensures Log(Started(capacity), acts, AttemptedEvents) == Log(Started(capacity), acts, AcceptedEvents)
  {
    var p: Publisher<E> := Started(capacity);
    RunEndsEmpty(p, acts);
    RunBacklog(p, acts);
    assert Backlog(p) == [] && Backlog(Final(p, acts)) == [];
    var attempted, accepted := Log(p, acts, AttemptedEvents), Log(p, acts, AcceptedEvents);
    assert attempted == attempted + [] && accepted == [] + accepted;
  }

  // ----- Overflow: each event directly, exactly once -----

  lemma MiddleOut<E>(head: seq<Option<E>>, e: Option<E>, tail: seq<Option<E>>)
    ensures multiset(Calls(e)) + multiset(AllCalls(head + tail)) == multiset(AllCalls(head + ([e] + tail)))
  {
    AllCallsConcat(head, [e] + tail);
    AllCallsCons(e, tail);
    AllCallsConcat(head, tail);
  }

  lemma SendDirectStep<E>(p: Publisher<E>, i: nat)
    requires i < |p.direct|
    ensures multiset(Calls(p.direct[i])) + multiset(AllCalls(Step(p, SendDirect(i)).direct)) ==
            multiset(AllCalls(p.direct))
  {
    var head, e, tail := p.direct[..i], p.direct[i], p.direct[i + 1..];
    assert p.direct == head + ([e] + tail) && Step(p, SendDirect(i)).direct == head + tail;
    MiddleOut(head, e, tail);
  }

  lemma StepDirect<E>(p: Publisher<E>, a: Action<E>)
    requires Enabled(p, a)
    ensures multiset(DirectEvents(Observe(p, a))) + multiset(AllCalls(Step(p, a).direct)) ==
            multiset(AllCalls(p.direct)) + multiset(OverflowEvents(Observe(p, a)))
  {
    if a.Publish? {
      AllCallsAppend(p.direct, a.event);
    } else if a.SendDirect? {
      SendDirectStep(p, a.i);
    }
  }

  /** Every event that found the channel full was sent synchronously once, unless its publisher
      has not got to it yet. */
  lemma {:induction false} OverflowExactlyOnce<E>(p: Publisher<E>, acts: seq<Action<E>>)
    requires Legal(p, acts)
    ensures multiset(Log(p, acts, DirectEvents)) + multiset(AllCalls(Final(p, acts).direct)) ==
            multiset(AllCalls(p.direct)) + multiset(Log(p, acts, OverflowEvents))
    decreases |acts|
  {
    if acts != [] {
      var q := Step(p, acts[0]);
      StepDirect(p, acts[0]);
      OverflowExactlyOnce(q, acts[1..]);
      Telescope(DirectEvents(Observe(p, acts[0])), Log(q, acts[1..], DirectEvents),
                OverflowEvents(Observe(p, acts[0])), Log(q, acts[1..], OverflowEvents),
                multiset(AllCalls(p.direct)), multiset(AllCalls(q.direct)), multiset(AllCalls(Final(p, acts).direct)));
    }
  }

  lemma Telescope<E>(d: seq<E>, ds: seq<E>, o: seq<E>, os: seq<E>, x0: multiset<E>, x1: multiset<E>, x2: multiset<E>)
    requires multiset(d) + x1 == x0 + multiset(o)
    requires multiset(ds) + x2 == x1 + multiset(os)
    ensures multiset(d + ds) + x2 == x0 + multiset(o + os)
  {
    calc {
      multiset(d + ds) + x2;
      multiset(d) + (multiset(ds) + x2);
      (multiset(d) + x1) + multiset(os);
      x0 + (multiset(o) + multiset(os));
      x0 + multiset(o + os);
    }
  }

  // ----- The loop ends -----

  function Rank<E>(p: Publisher<E>): nat {
    match p.consumer
    case AtSelect => 2 * |p.buffer| + 2
    case Sending(_) => 2 * |p.buffer| + 3
    case Draining => 2 * |p.buffer| + 1
    case DrainSending(_) => 2 * |p.buffer| + 2
    case Finished => 0
  }

  predicate IsConsumerStep<E>(a: Action<E>) {
    a.Receive? || a.SeeClosed? || a.SeeStop? || a.Send?
  }

  function ConsumerSteps<E>(acts: seq<Action<E>>): nat {
    if acts == [] then 0 else (if IsConsumerStep(acts[0]) then 1 else 0) + ConsumerSteps(acts[1..])
  }

  /** After `Stop` has closed the channel the consumer makes at most `Rank` more steps. */
  lemma {:induction false} StopEndsTheLoop<E>(p: Publisher<E>, acts: seq<Action<E>>)
    requires Legal(p, acts) && p.channelClosed
    ensures ConsumerSteps(acts) + Rank(Final(p, acts)) <= Rank(p)
    decreases |acts|
  {
    if acts != [] {
      StopEndsTheLoop(Step(p, acts[0]), acts[1..]);
    }
  }

  /** And as long as it has not finished it can make one. */
  lemma ConsumerCanMove<E>(p: Publisher<E>)
    requires p.channelClosed
    ensures !p.consumer.Finished? <==> exists a: Action<E> :: IsConsumerStep(a) && Enabled(p, a)
  {
    if p.consumer.Sending? || p.consumer.DrainSending? {
      assert IsConsumerStep<E>(Send) && Enabled(p, Send);
    } else if !p.consumer.Finished? {
      var a: Action<E> := if p.buffer == [] then SeeClosed else Receive;
      assert IsConsumerStep(a) && Enabled(p, a);
    }
  }

  // ----- Without overflow -----

  /** The events handed to `Publish`, in call order. */
  function Published<E>(acts: seq<Action<E>>): seq<E> {
    if acts == [] then []
    else (if acts[0].Publish? then Calls(acts[0].event) else []) + Published(acts[1..])
  }

  predicate NeverDisabled<E>(acts: seq<Action<E>>) {
    forall i :: 0 <= i < |acts| ==> !acts[i].SetEnabled?
  }

  lemma {:induction false} NoOverflowAcceptsAll<E>(p: Publisher<E>, acts: seq<Action<E>>)
    requires Legal(p, acts) && p.enabled && p.hasBackend && NeverDisabled(acts) && Log(p, acts, OverflowEvents) == []
    ensures Log(p, acts, AcceptedEvents) == Published(acts)
    decreases |acts|
  {
    if acts != [] {
      assert OverflowEvents(Observe(p, acts[0])) == [];
      NoOverflowAcceptsAll(Step(p, acts[0]), acts[1..]);
    }
  }

  /** With no overflow the backend has seen, by the end of `Stop`, exactly what was published,
      in call order. */
  lemma PublishedIsAttempted<E>(capacity: nat, acts: seq<Action<E>>)
    requires Legal(Started(capacity), acts) && Final(Started(capacity), acts).consumer.Finished?
    requires NeverDisabled(acts) && Log(Started(capacity), acts, OverflowEvents) == []
    ensures Log(Started(capacity), acts, AttemptedEvents) == Published(acts)
  {
    AcceptedExactlyOnce(capacity, acts);
    NoOverflowAcceptsAll(Started(capacity), acts);
  }

  /** The events of a run that were published while the publisher was enabled, in call order. */
  ghost function Taken<E>(p: Publisher<E>, acts: seq<Action<E>>): seq<E>
    requires Legal(p, acts)
    decreases |acts|
  {
    if acts == [] then []
    else
      (if acts[0].Publish? && p.enabled && p.hasBackend then Calls(acts[0].event) else [])
        + Taken(Step(p, acts[0]), acts[1..])
  }

  lemma StepSplits<E>(p: Publisher<E>, a: Action<E>)
    requires Enabled(p, a)
    ensures multiset(AcceptedEvents(Observe(p, a))) + multiset(OverflowEvents(Observe(p, a))) ==
            multiset(if a.Publish? && p.enabled && p.hasBackend then Calls(a.event) else [])
  {
  }

  /** Every event published while enabled is accepted into the channel or found it full. */
  lemma {:induction false} TakenSplits<E>(p: Publisher<E>, acts: seq<Action<E>>)
    requires Legal(p, acts)
    ensures multiset(Log(p, acts, AcceptedEvents)) + multiset(Log(p, acts, OverflowEvents)) == multiset(Taken(p, acts))
    decreases |acts|
  {
    if acts != [] {
      var q := Step(p, acts[0]);
      StepSplits(p, acts[0]);
      TakenSplits(q, acts[1..]);
      SumOfParts(AcceptedEvents(Observe(p, acts[0])), Log(q, acts[1..], AcceptedEvents),
                 OverflowEvents(Observe(p, acts[0])), Log(q, acts[1..], OverflowEvents),
                 if acts[0].Publish? && p.enabled && p.hasBackend then Calls(acts[0].event) else [],
                 Taken(q, acts[1..]));
    }
  }

  lemma SumOfParts<E>(a: seq<E>, as': seq<E>, o: seq<E>, os: seq<E>, p: seq<E>, ps: seq<E>)
    requires multiset(a) + multiset(o) == multiset(p) && multiset(as') + multiset(os) == multiset(ps)
    ensures multiset(a + as') + multiset(o + os) == multiset(p + ps)
  {
  }

  /** A publisher that is never switched off takes everything. */
  lemma {:induction false} NeverDisabledTakesAll<E>(p: Publisher<E>, acts: seq<Action<E>>)
    requires Legal(p, acts) && p.enabled && p.hasBackend && NeverDisabled(acts)
    ensures Taken(p, acts) == Published(acts)
    decreases |acts|
  {
    if acts != [] {
      NeverDisabledTakesAll(Step(p, acts[0]), acts[1..]);
    }
  }

  /** With overflow, and with the publisher switched off and on, too: once the consumer has ended
      and every synchronous send has returned, what the backend was handed is what was published
      while enabled, each event once. */
  lemma EveryPublishedReachesBackend<E>(capacity: nat, acts: seq<Action<E>>)
    requires Legal(Started(capacity), acts)
    requires Final(Started(capacity), acts).consumer.Finished? && Final(Started(capacity), acts).direct == []
    ensures multiset(Log(Started(capacity), acts, AttemptedEvents) + Log(Started(capacity), acts, DirectEvents)) ==
            multiset(Taken(Started(capacity), acts))
  {
    var p: Publisher<E> := Started(capacity);
    AcceptedExactlyOnce(capacity, acts);
    OverflowExactlyOnce(p, acts);
    TakenSplits(p, acts);
    DropEmpty(Log(p, acts, DirectEvents), AllCalls(Final(p, acts).direct), AllCalls(p.direct),
              Log(p, acts, OverflowEvents));
    MultisetOfConcat(Log(p, acts, AttemptedEvents), Log(p, acts, DirectEvents));
  }

  lemma DropEmpty<E>(a: seq<E>, b: seq<E>, c: seq<E>, d: seq<E>)
    requires multiset(a) + multiset(b) == multiset(c) + multiset(d) && b == [] && c == []
    ensures multiset(a) == multiset(d)
  {
    assert multiset(a) + multiset{} == multiset(a) && multiset{} + multiset(d) == multiset(d);
    assert multiset(b) == multiset{} == multiset(c);
  }

  lemma MultisetOfConcat<E>(a: seq<E>, b: seq<E>)
    ensures multiset(a + b) == multiset(a) + multiset(b)
  {
  }
}
