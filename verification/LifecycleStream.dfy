/** Lifecycle events (`serverLifecycleEvents.ts`) and their subscription (`ws.ts`) as a state machine.
    A publisher updates the state first and sends to the PubSub second, and other publishers may get
    in between; a subscriber attaches its buffer, reads a snapshot, and filters the buffer by it. */
module LifecycleStream {
  datatype Kind = Welcome | Ready

  datatype Event = Event(kind: Kind, payload: string, sequence: nat)

  /** `buffer` holds what arrived since the subscriber attached; `live` is what it was given after the
      snapshot, which it has once `snapshotAt` is set. */
  datatype Subscriber = Attached(buffer: seq<Event>)
    | Streaming(buffer: seq<Event>, snapshotAt: nat, snapshot: seq<Event>, live: seq<Event>)

  type SubscriberId = nat

  /** `events` is the latest event of each kind, newest first. `history` records every event; event `n`
      is its `n`th. `inFlight` are the events whose publisher has yet to send them. */
  datatype State = State(sequence: nat, events: seq<Event>, history: seq<Event>, inFlight: set<Event>,
                         subscribers: map<SubscriberId, Subscriber>)

  const Init := State(0, [], [], {}, map[])

  datatype Step =
    | Update(kind: Kind, payload: string)
    | Send(event: Event)
    | Attach(id: SubscriberId)
    | ReadSnapshot(id: SubscriberId)
    | Deliver(id: SubscriberId)
    | Detach(id: SubscriberId)

  function OtherKinds(events: seq<Event>, kind: Kind): seq<Event> {
    if events == [] then []
    else (if events[0].kind != kind then [events[0]] else []) + OtherKinds(events[1..], kind)
  }

  /** Insertion of an event into a list in sequence order. */
  function Inserted(events: seq<Event>, event: Event): seq<Event> {
    if events == [] then [event]
    else if event.sequence < events[0].sequence then [event] + events
    else [events[0]] + Inserted(events[1..], event)
  }

  function SortedBySequence(events: seq<Event>): seq<Event> {
    if events == [] then [] else Inserted(SortedBySequence(events[1..]), events[0])
  }

  predicate Enabled(s: State, step: Step) {
    match step
    case Update(_, _) => true
    case Send(event) => event in s.inFlight
    case Attach(id) => id !in s.subscribers
    case ReadSnapshot(id) => id in s.subscribers && s.subscribers[id].Attached?
    case Deliver(id) => id in s.subscribers && s.subscribers[id].Streaming? && s.subscribers[id].buffer != []
    case Detach(id) => id in s.subscribers
  }

  function Offered(subscribers: map<SubscriberId, Subscriber>, event: Event): map<SubscriberId, Subscriber> {
    map id | id in subscribers :: subscribers[id].(buffer := subscribers[id].buffer + [event])
  }

  /** The next buffered event, passed on only if the snapshot does not account for it. */
  function AfterDeliver(subscriber: Subscriber): Subscriber
    requires subscriber.Streaming? && subscriber.buffer != []
  {
    var event := subscriber.buffer[0];
    subscriber.(buffer := subscriber.buffer[1..],
                live := if event.sequence > subscriber.snapshotAt then subscriber.live + [event] else subscriber.live)
  }

  function Apply(s: State, step: Step): State
    requires Enabled(s, step)
  {
    match step
    case Update(kind, payload) =>
      var event := Event(kind, payload, s.sequence + 1);
      s.(sequence := s.sequence + 1, events := [event] + OtherKinds(s.events, kind),
         history := s.history + [event], inFlight := s.inFlight + {event})
    case Send(event) => s.(inFlight := s.inFlight - {event}, subscribers := Offered(s.subscribers, event))
    case Attach(id) => s.(subscribers := s.subscribers[id := Attached([])])
    case ReadSnapshot(id) =>
      s.(subscribers := s.subscribers[id := Streaming(s.subscribers[id].buffer, s.sequence, SortedBySequence(s.events), [])])
    case Deliver(id) => s.(subscribers := s.subscribers[id := AfterDeliver(s.subscribers[id])])
    case Detach(id) => s.(subscribers := s.subscribers - {id})
  }

  predicate ValidRun(s: State, steps: seq<Step>)
    decreases |steps|
  {
    steps == [] || (Enabled(s, steps[0]) && ValidRun(Apply(s, steps[0]), steps[1..]))
  }

  function Run(s: State, steps: seq<Step>): State
    requires ValidRun(s, steps)
    decreases |steps|
  {
    if steps == [] then s else Run(Apply(s, steps[0]), steps[1..])
  }

  // ----- The invariant -----

  predicate Distinct(events: seq<Event>) {
    forall i, j :: 0 <= i < j < |events| ==> events[i] != events[j]
  }

  predicate InHistory(history: seq<Event>, event: Event) {
    0 < event.sequence <= |history| && history[event.sequence - 1] == event
  }

  /** Some listed event of that kind is at that sequence or later. */
  predicate Represents(events: seq<Event>, kind: Kind, sequence: nat) {
    exists event <- events :: event.kind == kind && event.sequence >= sequence
  }

  predicate DistinctKinds(events: seq<Event>) {
    forall i, j :: 0 <= i < j < |events| ==> events[i].kind != events[j].kind
  }

  /** A list that stands for the first `count` events: real ones, one of each kind, none outdated. */
  predicate Summarizes(events: seq<Event>, history: seq<Event>, count: nat) {
    && count <= |history|
    && (forall event <- events :: InHistory(history, event) && event.sequence <= count)
    && DistinctKinds(events)
    && (forall n :: 0 <= n < count ==> Represents(events, history[n].kind, n + 1))
  }

  /** Where an event above the snapshot is: with its publisher, in the buffer or delivered, never in
      two places. */
  predicate InOnePlace(inFlight: set<Event>, subscriber: Subscriber, event: Event)
    requires subscriber.Streaming?
  {
    && (event in inFlight || event in subscriber.buffer || event in subscriber.live)
    && !(event in inFlight && event in subscriber.live)
    && !(event in subscriber.buffer && event in subscriber.live)
  }

  predicate SubscriberOk(history: seq<Event>, inFlight: set<Event>, subscriber: Subscriber) {
    && Distinct(subscriber.buffer)
    && (forall event <- subscriber.buffer :: InHistory(history, event) && event !in inFlight)
    && (subscriber.Streaming? ==>
          && Distinct(subscriber.live)
          && Summarizes(subscriber.snapshot, history, subscriber.snapshotAt)
          && (forall event <- subscriber.live :: InHistory(history, event) && event.sequence > subscriber.snapshotAt)
          && (forall n :: subscriber.snapshotAt <= n < |history| ==> InOnePlace(inFlight, subscriber, history[n])))
  }

  ghost predicate Inv(s: State) {
    && |s.history| == s.sequence
    && (forall n :: 0 <= n < |s.history| ==> s.history[n].sequence == n + 1)
    && Summarizes(s.events, s.history, s.sequence)
    && (forall event <- s.inFlight :: InHistory(s.history, event))
    && (forall id <- s.subscribers :: SubscriberOk(s.history, s.inFlight, s.subscribers[id]))
  }

  lemma {:induction false} OtherKindsAre(events: seq<Event>, kind: Kind)
    ensures forall event :: event in OtherKinds(events, kind) <==> event in events && event.kind != kind
    ensures DistinctKinds(events) ==> DistinctKinds(OtherKinds(events, kind))
  {
    if events != [] {
      OtherKindsAre(events[1..], kind);
      assert events == [events[0]] + events[1..];
      assert forall k :: 0 < k < |events| ==> events[k] in events[1..];
    }
  }

  lemma {:induction false} InsertedHas(events: seq<Event>, event: Event)
    ensures multiset(Inserted(events, event)) == multiset(events) + multiset{event}
  {
    if events != [] {
      assert events == [events[0]] + events[1..];
      InsertedHas(events[1..], event);
    }
  }

  lemma {:induction false} InsertedAscends(events: seq<Event>, event: Event)
    requires Ascending(events)
    ensures Ascending(Inserted(events, event))
  {
    if events != [] && event.sequence >= events[0].sequence {
      InsertedAscends(events[1..], event);
      var rest := Inserted(events[1..], event);
      InsertedHas(events[1..], event);
      forall k | 0 <= k < |rest|
        ensures events[0].sequence <= rest[k].sequence
      {
        assert rest[k] in multiset(rest);
        assert rest[k] in multiset(events[1..]) ==> rest[k] in events[1..];
      }
    }
  }

  predicate Ascending(events: seq<Event>) {
    forall i, j :: 0 <= i < j < |events| ==> events[i].sequence <= events[j].sequence
  }

  /** The snapshot is delivered in order, and is the same events. */
  lemma {:induction false} SortedIs(events: seq<Event>)
    ensures multiset(SortedBySequence(events)) == multiset(events)
    ensures Ascending(SortedBySequence(events))
  {
    if events != [] {
      SortedIs(events[1..]);
      InsertedHas(SortedBySequence(events[1..]), events[0]);
      InsertedAscends(SortedBySequence(events[1..]), events[0]);
      assert events == [events[0]] + events[1..];
    }
  }

  lemma SortedSummarizes(events: seq<Event>, history: seq<Event>, count: nat)
    requires Summarizes(events, history, count)
    ensures Summarizes(SortedBySequence(events), history, count)
  {
    var sorted := SortedBySequence(events);
    SortedIs(events);
    assert forall event :: event in sorted <==> event in multiset(sorted);
    assert forall event :: event in events <==> event in multiset(events);
    DistinctKindsByCount(events, sorted);
    forall n | 0 <= n < count
      ensures Represents(sorted, history[n].kind, n + 1)
    {
      assert Represents(events, history[n].kind, n + 1);
    }
  }

  lemma DistinctKindsByCount(events: seq<Event>, sorted: seq<Event>)
    requires DistinctKinds(events) && multiset(sorted) == multiset(events)
    ensures DistinctKinds(sorted)
  {
    forall i, j | 0 <= i < j < |sorted|
      ensures sorted[i].kind != sorted[j].kind
    {
      if sorted[i].kind == sorted[j].kind {
        assert sorted[i] in multiset(events) && sorted[j] in multiset(events);
        var m :| 0 <= m < |events| && events[m] == sorted[i];
        var n :| 0 <= n < |events| && events[n] == sorted[j];
        assert m == n;
        TwiceInMultiset(sorted, i, j);
        OnceInMultiset(events, m);
        assert false;
      }
    }
  }

  lemma TwiceInMultiset(events: seq<Event>, i: nat, j: nat)
    requires i < j < |events| && events[i] == events[j]
    ensures multiset(events)[events[i]] >= 2
  {
    assert events == events[..i] + [events[i]] + events[i + 1..j] + [events[j]] + events[j + 1..];
  }

  lemma OnceInMultiset(events: seq<Event>, m: nat)
    requires m < |events| && forall n :: 0 <= n < |events| && n != m ==> events[n] != events[m]
    ensures multiset(events)[events[m]] == 1
  {
    assert events == events[..m] + [events[m]] + events[m + 1..];
    assert events[m] !in events[..m] && events[m] !in events[m + 1..];
  }

  lemma UpdateRepresents(events: seq<Event>, history: seq<Event>, next: Event, n: nat)
    requires Summarizes(events, history, |history|) && next.sequence == |history| + 1 && n <= |history|
    ensures Represents([next] + OtherKinds(events, next.kind), (history + [next])[n].kind, n + 1)
  {
    var events', history' := [next] + OtherKinds(events, next.kind), history + [next];
    assert next in events';
    if n < |history| && history[n].kind != next.kind {
      assert Represents(events, history[n].kind, n + 1);
      var event :| event in events && event.kind == history[n].kind && event.sequence >= n + 1;
      OtherKindsAre(events, next.kind);
      assert event in events';
    }
  }

  lemma UpdateSummarizes(events: seq<Event>, history: seq<Event>, next: Event)
    requires Summarizes(events, history, |history|) && next.sequence == |history| + 1
    ensures Summarizes([next] + OtherKinds(events, next.kind), history + [next], |history| + 1)
  {
    var others := OtherKinds(events, next.kind);
    var events', history' := [next] + others, history + [next];
    OtherKindsAre(events, next.kind);
    forall event <- events'
      ensures InHistory(history', event) && event.sequence <= |history'|
    {
      if event != next {
        assert event in others;
        assert InHistory(history, event);
      }
    }
    forall n | 0 <= n < |history'|
      ensures Represents(events', history'[n].kind, n + 1)
    {
      UpdateRepresents(events, history, next, n);
    }
    assert forall k :: 0 < k < |events'| ==> events'[k] in others;
  }

  lemma SummaryOfLonger(events: seq<Event>, history: seq<Event>, next: Event, count: nat)
    requires Summarizes(events, history, count)
    ensures Summarizes(events, history + [next], count)
  {
    forall n | 0 <= n < count
      ensures Represents(events, (history + [next])[n].kind, n + 1)
    {
      assert Represents(events, history[n].kind, n + 1);
    }
    forall event <- events
      ensures InHistory(history + [next], event)
    {
      assert InHistory(history, event);
    }
  }

  lemma UpdateKeepsSubscriber(history: seq<Event>, inFlight: set<Event>, next: Event, subscriber: Subscriber)
    requires next.sequence == |history| + 1 && SubscriberOk(history, inFlight, subscriber)
    ensures SubscriberOk(history + [next], inFlight + {next}, subscriber)
  {
    forall event <- subscriber.buffer
      ensures InHistory(history + [next], event) && event !in inFlight + {next}
    {
      assert InHistory(history, event);
    }
    if subscriber.Streaming? {
      SummaryOfLonger(subscriber.snapshot, history, next, subscriber.snapshotAt);
      forall event <- subscriber.live
        ensures InHistory(history + [next], event) && event.sequence > subscriber.snapshotAt && event != next
      {
        assert InHistory(history, event);
      }
      forall n | subscriber.snapshotAt <= n < |history + [next]|
        ensures InOnePlace(inFlight + {next}, subscriber, (history + [next])[n])
      {
        if n < |history| {
          assert InOnePlace(inFlight, subscriber, history[n]);
        }
      }
    }
  }

  lemma UpdateStep(s: State, kind: Kind, payload: string)
    requires Inv(s)
    ensures Inv(Apply(s, Update(kind, payload)))
  {
    var s' := Apply(s, Update(kind, payload));
    var next := Event(kind, payload, s.sequence + 1);
    UpdateSummarizes(s.events, s.history, next);
    forall event <- s'.inFlight
      ensures InHistory(s'.history, event)
    {
      assert event == next || InHistory(s.history, event);
    }
    forall id <- s'.subscribers
      ensures SubscriberOk(s'.history, s'.inFlight, s'.subscribers[id])
    {
      UpdateKeepsSubscriber(s.history, s.inFlight, next, s.subscribers[id]);
    }
  }

  lemma SendKeepsSubscriber(history: seq<Event>, inFlight: set<Event>, event: Event, subscriber: Subscriber)
    requires event in inFlight && InHistory(history, event) && SubscriberOk(history, inFlight, subscriber)
    ensures SubscriberOk(history, inFlight - {event}, subscriber.(buffer := subscriber.buffer + [event]))
  {
    var subscriber' := subscriber.(buffer := subscriber.buffer + [event]);
    assert event !in subscriber.buffer;
    assert forall e :: e in subscriber'.buffer <==> e in subscriber.buffer || e == event;
    if subscriber.Streaming? {
      forall n | subscriber.snapshotAt <= n < |history|
        ensures InOnePlace(inFlight - {event}, subscriber', history[n])
      {
        assert InOnePlace(inFlight, subscriber, history[n]);
      }
    }
  }

  lemma SendStep(s: State, event: Event)
    requires Inv(s) && Enabled(s, Send(event))
    ensures Inv(Apply(s, Send(event)))
  {
    var s' := Apply(s, Send(event));
    forall id <- s'.subscribers
      ensures SubscriberOk(s'.history, s'.inFlight, s'.subscribers[id])
    {
      SendKeepsSubscriber(s.history, s.inFlight, event, s.subscribers[id]);
    }
  }

  lemma SnapshotKeepsSubscriber(s: State, subscriber: Subscriber)
    requires Inv(s) && subscriber.Attached? && SubscriberOk(s.history, s.inFlight, subscriber)
    ensures SubscriberOk(s.history, s.inFlight, Streaming(subscriber.buffer, s.sequence, SortedBySequence(s.events), []))
  {
    SortedSummarizes(s.events, s.history, s.sequence);
  }

  /** An event in the buffer is not delivered yet: above the snapshot by its place, below it because
      nothing of the snapshot is ever delivered live. */
  lemma DeliverKeepsSubscriber(history: seq<Event>, inFlight: set<Event>, subscriber: Subscriber)
    requires subscriber.Streaming? && subscriber.buffer != [] && SubscriberOk(history, inFlight, subscriber)
    requires forall n :: 0 <= n < |history| ==> history[n].sequence == n + 1
    ensures SubscriberOk(history, inFlight, AfterDeliver(subscriber))
  {
    var event, subscriber' := subscriber.buffer[0], AfterDeliver(subscriber);
    assert event in subscriber.buffer && InHistory(history, event);
    assert forall e :: e in subscriber'.buffer <==> e in subscriber.buffer && e != event by {
      assert subscriber.buffer == [event] + subscriber'.buffer;
    }
    if event.sequence > subscriber.snapshotAt {
      assert InOnePlace(inFlight, subscriber, history[event.sequence - 1]);
      assert forall e :: e in subscriber'.live <==> e in subscriber.live || e == event;
    }
    forall n | subscriber.snapshotAt <= n < |history|
      ensures InOnePlace(inFlight, subscriber', history[n])
    {
      assert InOnePlace(inFlight, subscriber, history[n]);
    }
  }

  lemma StepKeepsInv(s: State, step: Step)
    requires Inv(s) && Enabled(s, step)
    ensures Inv(Apply(s, step))
  {
    match step
    case Update(kind, payload) => UpdateStep(s, kind, payload);
    case Send(event) => SendStep(s, event);
    case ReadSnapshot(id) => SnapshotKeepsSubscriber(s, s.subscribers[id]);
    case Deliver(id) => DeliverKeepsSubscriber(s.history, s.inFlight, s.subscribers[id]);
    case _ =>
  }

  lemma {:induction false} RunKeepsInv(s: State, steps: seq<Step>)
    requires Inv(s) && ValidRun(s, steps)
    ensures Inv(Run(s, steps))
    decreases |steps|
  {
    if steps != [] {
      StepKeepsInv(s, steps[0]);
      RunKeepsInv(Apply(s, steps[0]), steps[1..]);
    }
  }

  // ----- Delivery is exactly once -----

  function Given(subscriber: Subscriber): seq<Event>
    requires subscriber.Streaming?
  {
    subscriber.snapshot + subscriber.live
  }

  /** What a run publishes after `count` events, numbered on. */
  function Published(steps: seq<Step>, count: nat): seq<Event> {
    if steps == [] then []
    else if steps[0].Update? then [Event(steps[0].kind, steps[0].payload, count + 1)] + Published(steps[1..], count + 1)
    else Published(steps[1..], count)
  }

  lemma UpdateAppends(s: State, step: Step)
    requires Enabled(s, step) && |s.history| == s.sequence
    ensures Apply(s, step).history
         == if step.Update? then s.history + [Event(step.kind, step.payload, |s.history| + 1)] else s.history
  {
  }

  lemma Regroup(a: seq<Event>, b: seq<Event>, c: seq<Event>)
    ensures a + (b + c) == a + b + c
  {
  }

  lemma {:induction false} HistoryGrows(s: State, steps: seq<Step>)
    requires Inv(s) && ValidRun(s, steps)
    ensures Run(s, steps).history == s.history + Published(steps, |s.history|)
    decreases |steps|
  {
    if steps != [] {
      StepKeepsInv(s, steps[0]);
      UpdateAppends(s, steps[0]);
      HistoryGrows(Apply(s, steps[0]), steps[1..]);
      if steps[0].Update? {
        var event := Event(steps[0].kind, steps[0].payload, |s.history| + 1);
        Regroup(s.history, [event], Published(steps[1..], |s.history| + 1));
      }
    } else {
      assert s.history + [] == s.history;
    }
  }

  /** The events are what was published: each publication of a run, with its kind and payload, and numbered in
      the order of the updates. */
  lemma EventsAreWhatWasPublished(steps: seq<Step>)
    requires ValidRun(Init, steps)
    ensures Run(Init, steps).history == Published(steps, 0)
  {
    HistoryGrows(Init, steps);
  }

  /** In every interleaving, a subscriber with a snapshot is given no event twice; what the snapshot
      does not cover is delivered live, or still on its way; and what it covers is in the snapshot or
      superseded there by a newer event of its kind, and never delivered live. */
  lemma DeliveredExactlyOnce(steps: seq<Step>, id: SubscriberId)
    requires ValidRun(Init, steps)
    requires var s := Run(Init, steps); id in s.subscribers && s.subscribers[id].Streaming?
    ensures var s := Run(Init, steps);
      var subscriber := s.subscribers[id];
      && Distinct(Given(subscriber)) && Ascending(subscriber.snapshot)
      && (forall event <- Given(subscriber) :: event in s.history)
      && (forall event <- s.history ::
            if event.sequence > subscriber.snapshotAt then
              && event !in subscriber.snapshot
              && (event in subscriber.live || event in subscriber.buffer || event in s.inFlight)
            else
              event !in subscriber.live && Represents(subscriber.snapshot, event.kind, event.sequence))
  {
    RunKeepsInv(Init, steps);
    SnapshotAscends(Init, steps, id);
    var s := Run(Init, steps);
    var subscriber := s.subscribers[id];
    forall event <- s.history
      ensures if event.sequence > subscriber.snapshotAt then
                && event !in subscriber.snapshot
                && (event in subscriber.live || event in subscriber.buffer || event in s.inFlight)
              else
                event !in subscriber.live && Represents(subscriber.snapshot, event.kind, event.sequence)
    {
      var n :| 0 <= n < |s.history| && s.history[n] == event;
      assert n >= subscriber.snapshotAt ==> InOnePlace(s.inFlight, subscriber, s.history[n]);
    }
    forall event <- Given(subscriber)
      ensures event in s.history
    {
      assert InHistory(s.history, event);
    }
    assert forall i, j :: 0 <= i < j < |subscriber.snapshot| ==> subscriber.snapshot[i].kind != subscriber.snapshot[j].kind;
    assert forall event <- subscriber.snapshot :: event.sequence <= subscriber.snapshotAt;
    assert forall event <- subscriber.live :: event.sequence > subscriber.snapshotAt;
    DistinctAppend(subscriber.snapshot, subscriber.live, subscriber.snapshotAt);
  }

  lemma DistinctAppend(a: seq<Event>, b: seq<Event>, bound: nat)
    requires Distinct(a) && Distinct(b)
    requires forall event <- a :: event.sequence <= bound
    requires forall event <- b :: event.sequence > bound
    ensures Distinct(a + b)
  {
    forall i, j | 0 <= i < j < |a + b|
      ensures (a + b)[i] != (a + b)[j]
    {
      if i < |a| <= j {
        assert (a + b)[i] in a && (a + b)[j] in b;
      }
    }
  }

  ghost predicate SnapshotsAscend(s: State) {
    forall id <- s.subscribers :: s.subscribers[id].Streaming? ==> Ascending(s.subscribers[id].snapshot)
  }

  lemma {:induction false} SnapshotAscends(s: State, steps: seq<Step>, id: SubscriberId)
    requires ValidRun(s, steps) && SnapshotsAscend(s)
    ensures SnapshotsAscend(Run(s, steps))
    decreases |steps|
  {
    if steps != [] {
      SortedIs(s.events);
      SnapshotAscends(Apply(s, steps[0]), steps[1..], id);
    }
  }

  /** Once publishers and buffers are quiet, a subscriber has been given every event above its snapshot
      exactly once. */
  lemma QuietMeansDelivered(steps: seq<Step>, id: SubscriberId, event: Event)
    requires ValidRun(Init, steps)
    requires var s := Run(Init, steps);
      && s.inFlight == {} && id in s.subscribers && s.subscribers[id].Streaming? && s.subscribers[id].buffer == []
      && event in s.history && event.sequence > s.subscribers[id].snapshotAt
    ensures multiset(Given(Run(Init, steps).subscribers[id]))[event] == 1
  {
    DeliveredExactlyOnce(steps, id);
    DistinctOnce(Given(Run(Init, steps).subscribers[id]), event);
  }

  lemma DistinctOnce(events: seq<Event>, event: Event)
    requires Distinct(events) && event in events
    ensures multiset(events)[event] == 1
  {
    var m :| 0 <= m < |events| && events[m] == event;
    OnceInMultiset(events, m);
  }

  lemma RunCons(s: State, step: Step, rest: seq<Step>)
    requires Enabled(s, step) && ValidRun(Apply(s, step), rest)
    ensures ValidRun(s, [step] + rest) && Run(s, [step] + rest) == Run(Apply(s, step), rest)
  {
    assert ([step] + rest)[1..] == rest;
  }

  function TwoUpdated(): State {
    var a, b := Event(Welcome, "", 1), Event(Ready, "", 2);
    State(2, [b, a], [a, b], {a, b}, map[0 := Streaming([], 0, [], [])])
  }

  lemma TwoPublishersUpdate()
    ensures ValidRun(Init, [Attach(0)] + ([ReadSnapshot(0)] + ([Update(Welcome, "")] + ([Update(Ready, "")] + []))))
    ensures Run(Init, [Attach(0)] + ([ReadSnapshot(0)] + ([Update(Welcome, "")] + ([Update(Ready, "")] + [])))) == TwoUpdated()
  {
    var s1 := Apply(Init, Attach(0));
    var s2 := Apply(s1, ReadSnapshot(0));
    assert s2 == State(0, [], [], {}, map[0 := Streaming([], 0, [], [])]);
    var s3 := Apply(s2, Update(Welcome, ""));
    var a := Event(Welcome, "", 1);
    assert OtherKinds([a], Ready) == [a] + OtherKinds([], Ready);
    var s4 := Apply(s3, Update(Ready, ""));
    assert s4 == TwoUpdated();
    RunCons(s3, Update(Ready, ""), []);
    RunCons(s2, Update(Welcome, ""), [Update(Ready, "")] + []);
    RunCons(s1, ReadSnapshot(0), [Update(Welcome, "")] + ([Update(Ready, "")] + []));
    RunCons(Init, Attach(0), [ReadSnapshot(0)] + ([Update(Welcome, "")] + ([Update(Ready, "")] + [])));
  }

  // ----- When delivery follows sequence order -----

  /** What a run sends, in order. */
  function Sent(steps: seq<Step>): seq<Event> {
    if steps == [] then []
    else if steps[0].Send? then [steps[0].event] + Sent(steps[1..])
    else Sent(steps[1..])
  }

  function SentWith(sent: seq<Event>, step: Step): seq<Event> {
    if step.Send? then sent + [step.event] else sent
  }

  lemma SentSplits(sent: seq<Event>, steps: seq<Step>)
    requires steps != []
    ensures sent + Sent(steps) == SentWith(sent, steps[0]) + Sent(steps[1..])
  {
    if steps[0].Send? {
      Regroup(sent, [steps[0].event], Sent(steps[1..]));
    }
  }

  function Above(events: seq<Event>, bound: nat): seq<Event> {
    if events == [] then []
    else (if events[0].sequence > bound then [events[0]] else []) + Above(events[1..], bound)
  }

  lemma {:induction false} AboveAppend(a: seq<Event>, b: seq<Event>, bound: nat)
    ensures Above(a + b, bound) == Above(a, bound) + Above(b, bound)
  {
    if a == [] {
      assert a + b == b;
    } else {
      assert (a + b)[1..] == a[1..] + b;
      AboveAppend(a[1..], b, bound);
    }
  }

  lemma {:induction false} NothingAbove(events: seq<Event>, bound: nat)
    requires forall event <- events :: event.sequence <= bound
    ensures Above(events, bound) == []
  {
    if events != [] {
      assert events == [events[0]] + events[1..];
      NothingAbove(events[1..], bound);
    }
  }

  predicate SentOk(sent: seq<Event>, subscriber: Subscriber) {
    subscriber.Streaming? ==>
      Above(sent, subscriber.snapshotAt) == subscriber.live + Above(subscriber.buffer, subscriber.snapshotAt)
  }

  /** Every subscriber is given what was sent above its snapshot, in the order it was sent. */
  ghost predicate SentInOrder(s: State, sent: seq<Event>) {
    && (forall event <- sent :: event.sequence <= s.sequence)
    && (forall id <- s.subscribers :: SentOk(sent, s.subscribers[id]))
  }

  lemma SendOrder(sent: seq<Event>, event: Event, subscriber: Subscriber)
    requires SentOk(sent, subscriber)
    ensures SentOk(sent + [event], subscriber.(buffer := subscriber.buffer + [event]))
  {
    if subscriber.Streaming? {
      AboveAppend(sent, [event], subscriber.snapshotAt);
      AboveAppend(subscriber.buffer, [event], subscriber.snapshotAt);
    }
  }

  /** Whatever was sent before the snapshot was read, the snapshot covers. */
  lemma SnapshotOrder(s: State, sent: seq<Event>, subscriber: Subscriber)
    requires Inv(s) && SubscriberOk(s.history, s.inFlight, subscriber)
    requires forall event <- sent :: event.sequence <= s.sequence
    ensures SentOk(sent, Streaming(subscriber.buffer, s.sequence, SortedBySequence(s.events), []))
  {
    forall event <- subscriber.buffer
      ensures event.sequence <= s.sequence
    {
      assert InHistory(s.history, event);
    }
    NothingAbove(sent, s.sequence);
    NothingAbove(subscriber.buffer, s.sequence);
  }

  lemma DeliverOrder(sent: seq<Event>, subscriber: Subscriber)
    requires subscriber.Streaming? && subscriber.buffer != [] && SentOk(sent, subscriber)
    ensures SentOk(sent, AfterDeliver(subscriber))
  {
  }

  lemma StepKeepsOrder(s: State, sent: seq<Event>, step: Step)
    requires Inv(s) && Enabled(s, step) && SentInOrder(s, sent)
    ensures SentInOrder(Apply(s, step), SentWith(sent, step))
  {
    var s', sent' := Apply(s, step), SentWith(sent, step);
    assert step.Send? ==> InHistory(s.history, step.event);
    forall id <- s'.subscribers
      ensures SentOk(sent', s'.subscribers[id])
    {
      match step
      case Send(event) => SendOrder(sent, event, s.subscribers[id]);
      case ReadSnapshot(reader) => if id == reader { SnapshotOrder(s, sent, s.subscribers[id]); }
      case Deliver(reader) => if id == reader { DeliverOrder(sent, s.subscribers[id]); }
      case _ =>
    }
  }

  lemma {:induction false} RunKeepsOrder(s: State, sent: seq<Event>, steps: seq<Step>)
    requires Inv(s) && SentInOrder(s, sent) && ValidRun(s, steps)
    ensures SentInOrder(Run(s, steps), sent + Sent(steps))
    decreases |steps|
  {
    if steps == [] {
      assert sent + Sent(steps) == sent;
    } else {
      StepKeepsInv(s, steps[0]);
      StepKeepsOrder(s, sent, steps[0]);
      RunKeepsOrder(Apply(s, steps[0]), SentWith(sent, steps[0]), steps[1..]);
      SentSplits(sent, steps);
    }
  }

  /** In every run, what a subscriber was given live and what its buffer still holds for it is what was
      sent above its snapshot, in the order in which it was sent. */
  lemma GivenAsSent(steps: seq<Step>, id: SubscriberId)
    requires ValidRun(Init, steps)
    requires var s := Run(Init, steps); id in s.subscribers && s.subscribers[id].Streaming?
    ensures var subscriber := Run(Init, steps).subscribers[id];
      subscriber.live + Above(subscriber.buffer, subscriber.snapshotAt) == Above(Sent(steps), subscriber.snapshotAt)
  {
    RunKeepsOrder(Init, [], steps);
    assert [] + Sent(steps) == Sent(steps);
  }

  /** So live delivery follows sequence order exactly when the events above the snapshot were sent in
      that order; of the events still buffered it says nothing. */
  lemma LiveAscendsExactly(steps: seq<Step>, id: SubscriberId)
    requires ValidRun(Init, steps)
    requires var s := Run(Init, steps); id in s.subscribers && s.subscribers[id].Streaming?
    ensures var subscriber := Run(Init, steps).subscribers[id];
      var above := Above(Sent(steps), subscriber.snapshotAt);
      && |subscriber.live| <= |above|
      && (Ascending(subscriber.live) <==> Ascending(above[..|subscriber.live|]))
      && (subscriber.buffer == [] ==> (Ascending(subscriber.live) <==> Ascending(above)))
  {
    GivenAsSent(steps, id);
    var subscriber := Run(Init, steps).subscribers[id];
    var above := Above(Sent(steps), subscriber.snapshotAt);
    assert above[..|subscriber.live|] == subscriber.live;
    assert subscriber.buffer == [] ==> above == subscriber.live;
  }

  /** Publishers that wait for each other: none updates while another has yet to send. */
  predicate OneAtATime(s: State, steps: seq<Step>)
    requires ValidRun(s, steps)
    decreases |steps|
  {
    steps == [] || ((steps[0].Update? ==> s.inFlight == {}) && OneAtATime(Apply(s, steps[0]), steps[1..]))
  }

  /** At most one event is in flight, and it is newer than all that was sent. */
  ghost predicate SentAscends(s: State, sent: seq<Event>) {
    && Ascending(sent)
    && (forall a, b :: a in s.inFlight && b in s.inFlight ==> a == b)
    && (forall a, b :: a in s.inFlight && b in sent ==> b.sequence < a.sequence)
  }

  lemma StepKeepsAscending(s: State, sent: seq<Event>, step: Step)
    requires Inv(s) && SentInOrder(s, sent) && SentAscends(s, sent) && Enabled(s, step)
    requires step.Update? ==> s.inFlight == {}
    ensures SentAscends(Apply(s, step), SentWith(sent, step))
  {
  }

  lemma {:induction false} OneAtATimeAscends(s: State, sent: seq<Event>, steps: seq<Step>)
    requires Inv(s) && SentInOrder(s, sent) && SentAscends(s, sent)
    requires ValidRun(s, steps) && OneAtATime(s, steps)
    ensures Ascending(sent + Sent(steps))
    decreases |steps|
  {
    if steps == [] {
      assert sent + Sent(steps) == sent;
    } else {
      StepKeepsInv(s, steps[0]);
      StepKeepsOrder(s, sent, steps[0]);
      StepKeepsAscending(s, sent, steps[0]);
      OneAtATimeAscends(Apply(s, steps[0]), SentWith(sent, steps[0]), steps[1..]);
      SentSplits(sent, steps);
    }
  }

  lemma {:induction false} AboveAscends(events: seq<Event>, bound: nat)
    requires Ascending(events)
    ensures Ascending(Above(events, bound))
    ensures forall event <- Above(events, bound) :: event in events
  {
    if events != [] {
      AboveAscends(events[1..], bound);
      assert events == [events[0]] + events[1..];
      assert forall k :: 0 < k < |events| ==> events[k] in events[1..];
      var rest := Above(events[1..], bound);
      forall k | 0 <= k < |rest|
        ensures events[0].sequence <= rest[k].sequence
      {
        assert rest[k] in events[1..];
      }
    }
  }

  lemma AscendingPrefix(a: seq<Event>, b: seq<Event>)
    requires Ascending(a + b)
    ensures Ascending(a)
  {
    forall i, j | 0 <= i < j < |a|
      ensures a[i].sequence <= a[j].sequence
    {
      assert (a + b)[i] == a[i] && (a + b)[j] == a[j];
    }
  }

  /** If no publisher updates while another has yet to send, every subscriber is given its live events
      in sequence order. */
  lemma NoOverlapMeansOrder(steps: seq<Step>, id: SubscriberId)
    requires ValidRun(Init, steps) && OneAtATime(Init, steps)
    requires var s := Run(Init, steps); id in s.subscribers && s.subscribers[id].Streaming?
    ensures Ascending(Run(Init, steps).subscribers[id].live)
  {
    OneAtATimeAscends(Init, [], steps);
    assert [] + Sent(steps) == Sent(steps);
    var subscriber := Run(Init, steps).subscribers[id];
    AboveAscends(Sent(steps), subscriber.snapshotAt);
    GivenAsSent(steps, id);
    AscendingPrefix(subscriber.live, Above(subscriber.buffer, subscriber.snapshotAt));
  }

  function Deliveries(id: SubscriberId, count: nat): seq<Step> {
    if count == 0 then [] else [Deliver(id)] + Deliveries(id, count - 1)
  }

  lemma {:induction false} DeliverAll(s: State, id: SubscriberId)
    requires id in s.subscribers && s.subscribers[id].Streaming?
    ensures var subscriber := s.subscribers[id];
      var steps := Deliveries(id, |subscriber.buffer|);
      && ValidRun(s, steps) && id in Run(s, steps).subscribers
      && Run(s, steps).subscribers[id] ==
         subscriber.(buffer := [], live := subscriber.live + Above(subscriber.buffer, subscriber.snapshotAt))
    decreases |s.subscribers[id].buffer|
  {
    var subscriber := s.subscribers[id];
    if subscriber.buffer == [] {
      assert subscriber.live + Above(subscriber.buffer, subscriber.snapshotAt) == subscriber.live;
    } else {
      var s' := Apply(s, Deliver(id));
      DeliverAll(s', id);
      RunCons(s, Deliver(id), Deliveries(id, |subscriber.buffer| - 1));
      var subscriber' := s'.subscribers[id];
      assert subscriber'.live + Above(subscriber'.buffer, subscriber.snapshotAt)
          == subscriber.live + Above(subscriber.buffer, subscriber.snapshotAt);
    }
  }

  predicate GivenBefore(live: seq<Event>, first: Event, second: Event) {
    exists i, j :: 0 <= i < j < |live| && live[i] == first && live[j] == second
  }

  /** The other way round: as soon as two events are in flight, a subscriber whose snapshot covers
      neither can be given the newer one first. */
  lemma OverlapCanInvert(s: State, id: SubscriberId, older: Event, newer: Event) returns (more: seq<Step>)
    requires older in s.inFlight && newer in s.inFlight && older.sequence < newer.sequence
    requires id in s.subscribers && s.subscribers[id].Streaming? && s.subscribers[id].snapshotAt < older.sequence
    ensures ValidRun(s, more) && id in Run(s, more).subscribers && Run(s, more).subscribers[id].Streaming?
    ensures GivenBefore(Run(s, more).subscribers[id].live, newer, older)
  {
    var s1 := Apply(s, Send(newer));
    var s2 := Apply(s1, Send(older));
    var subscriber := s.subscribers[id];
    var deliveries := Deliveries(id, |s2.subscribers[id].buffer|);
    DeliverAll(s2, id);
    RunCons(s1, Send(older), deliveries);
    RunCons(s, Send(newer), [Send(older)] + deliveries);
    more := [Send(newer)] + ([Send(older)] + deliveries);
    var kept := Above(subscriber.buffer, subscriber.snapshotAt);
    AboveAppend(subscriber.buffer, [newer], subscriber.snapshotAt);
    AboveAppend(subscriber.buffer + [newer], [older], subscriber.snapshotAt);
    var live := Run(s, more).subscribers[id].live;
    var k := |subscriber.live| + |kept|;
    assert live == subscriber.live + ((kept + [newer]) + [older]);
    assert live[k] == newer && live[k + 1] == older;
  }

  /** A covered event stays covered: this subscriber, or a later one of its name, is never given it. */
  lemma {:induction false} CoveredStaysCovered(s: State, steps: seq<Step>, id: SubscriberId, sequence: nat)
    requires Inv(s) && ValidRun(s, steps) && sequence <= s.sequence
    requires id in s.subscribers && s.subscribers[id].Streaming? ==> sequence <= s.subscribers[id].snapshotAt
    ensures var s' := Run(s, steps);
      id in s'.subscribers && s'.subscribers[id].Streaming? ==> sequence <= s'.subscribers[id].snapshotAt
    decreases |steps|
  {
    if steps != [] {
      StepKeepsInv(s, steps[0]);
      CoveredStaysCovered(Apply(s, steps[0]), steps[1..], id, sequence);
    }
  }

  /** Whether two events in flight can still reach a subscriber against their order is decided by its
      snapshot alone. */
  lemma OverlapInvertsExactly(steps: seq<Step>, id: SubscriberId, older: Event, newer: Event)
    requires ValidRun(Init, steps)
    requires var s := Run(Init, steps);
      && older in s.inFlight && newer in s.inFlight && older.sequence < newer.sequence
      && id in s.subscribers && s.subscribers[id].Streaming?
    ensures (exists more: seq<Step> :: CanInvert(Run(Init, steps), more, id, older, newer))
      <==> Run(Init, steps).subscribers[id].snapshotAt < older.sequence
  {
    RunKeepsInv(Init, steps);
    var s := Run(Init, steps);
    assert InHistory(s.history, older);
    if s.subscribers[id].snapshotAt < older.sequence {
      var more := OverlapCanInvert(s, id, older, newer);
      assert CanInvert(s, more, id, older, newer);
    } else {
      forall more: seq<Step>
        ensures !CanInvert(s, more, id, older, newer)
      {
        if ValidRun(s, more) {
          CoveredStaysCovered(s, more, id, older.sequence);
          RunKeepsInv(s, more);
        }
      }
    }
  }

  /** The run continues with these steps, and the subscriber then has the newer event first. */
  ghost predicate CanInvert(s: State, more: seq<Step>, id: SubscriberId, older: Event, newer: Event) {
    && ValidRun(s, more) && id in Run(s, more).subscribers && Run(s, more).subscribers[id].Streaming?
    && GivenBefore(Run(s, more).subscribers[id].live, newer, older)
  }

  /** Such a run exists: two publishers that overlap can send in the opposite order of their updates. */
  lemma LiveOrderCanInvert() returns (steps: seq<Step>)
    ensures ValidRun(Init, steps) && 0 in Run(Init, steps).subscribers && Run(Init, steps).subscribers[0].Streaming?
    ensures !Ascending(Run(Init, steps).subscribers[0].live)
  {
    var connect := [Attach(0)] + ([ReadSnapshot(0)] + ([Update(Welcome, "")] + ([Update(Ready, "")] + [])));
    TwoPublishersUpdate();
    var more := OverlapCanInvert(TwoUpdated(), 0, Event(Welcome, "", 1), Event(Ready, "", 2));
    RunAppend(Init, connect, more);
    steps := connect + more;
  }

  lemma {:induction false} RunAppend(s: State, a: seq<Step>, b: seq<Step>)
    requires ValidRun(s, a) && ValidRun(Run(s, a), b)
    ensures ValidRun(s, a + b) && Run(s, a + b) == Run(Run(s, a), b)
    decreases |a|
  {
    if a == [] {
      assert a + b == b;
    } else {
      assert (a + b)[1..] == a[1..] + b;
      RunAppend(Apply(s, a[0]), a[1..], b);
    }
  }
}
