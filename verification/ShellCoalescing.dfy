/** How `ws.ts` turns batches of domain events into shell (sidebar) stream items: one
    refetch per aggregate and batch, with completion markers splitting the batches. */
module ShellCoalescing {
  import opened Prelude

  datatype AggregateKind = Project | Thread

  datatype Aggregate = Aggregate(kind: AggregateKind, id: string)

  datatype EventType =
    | ProjectCreated
    | ProjectMetaUpdated
    | ProjectDeleted
    | ThreadDeleted
    | ThreadArchived
    | ThreadUnarchived
    | OtherType

  datatype ShellEvent = ShellEvent(eventType: EventType, aggregate: Aggregate, sequence: nat)

  /** A projected shell row. Its content is opaque to the protocol. */
  type Row = string

  /** What a projection read with one retry gives back. */
  datatype ReadOutcome = ReadFailed | Missing | Found(row: Row)

  datatype ShellItem =
    | Upserted(sequence: nat, aggregate: Aggregate, row: Row)
    | Removed(sequence: nat, aggregate: Aggregate)

  datatype LiveInput = Event(event: ShellEvent) | Synchronized

  datatype ReadState = Unread | Item(item: ShellItem) | NoItem

  /** One place in the output of a batch: an aggregate to refetch, a completion marker, or a
      whole snapshot. */
  datatype Slot =
    | Refetch(event: ShellEvent, result: ReadState)
    | Mark
    | Snapshot(rows: map<Aggregate, Row>, sequence: nat)

  datatype StreamItem = Change(item: ShellItem) | SynchronizedItem

  predicate IsRemoval(eventType: EventType) {
    eventType.ProjectDeleted? || eventType.ThreadDeleted? || eventType.ThreadArchived?
  }

  /** The events `toShellStreamEvent` answers with an item whenever its read succeeds. */
  predicate Handled(event: ShellEvent) {
    event.eventType.OtherType? ==> event.aggregate.kind.Thread?
  }

  function UpsertOrRemove(event: ShellEvent, read: ReadOutcome): Option<ShellItem> {
    match read
    case ReadFailed => None
    case Missing => Some(Removed(event.sequence, event.aggregate))
    case Found(row) => Some(Upserted(event.sequence, event.aggregate, row))
  }

  function ToShellStreamEvent(event: ShellEvent, read: ReadOutcome): (item: Option<ShellItem>)
    ensures item.Some? ==> item.value.sequence == event.sequence && item.value.aggregate == event.aggregate
    ensures item.Some? <==> IsRemoval(event.eventType) || (Handled(event) && !read.ReadFailed?)
  {
    match event.eventType
    case ProjectCreated | ProjectMetaUpdated | ThreadUnarchived => UpsertOrRemove(event, read)
    case ProjectDeleted | ThreadDeleted | ThreadArchived => Some(Removed(event.sequence, event.aggregate))
    case OtherType => if event.aggregate.kind.Thread? then UpsertOrRemove(event, read) else None
  }

  ghost predicate Ascending(events: seq<ShellEvent>) {
    forall i, j :: 0 <= i < j < |events| ==> events[i].sequence < events[j].sequence
  }

  ghost predicate LastOfAggregate(events: seq<ShellEvent>, i: int) {
    && 0 <= i < |events|
    && forall j :: i < j < |events| ==> events[j].aggregate != events[i].aggregate
  }

  // ----- One batch -----

  function Without(events: seq<ShellEvent>, aggregate: Aggregate): seq<ShellEvent> {
    if events == [] then []
    else
      var init := Without(events[..|events| - 1], aggregate);
      if events[|events| - 1].aggregate == aggregate then init else init + [events[|events| - 1]]
  }

  lemma {:induction false} WithoutKeepsOthers(events: seq<ShellEvent>, aggregate: Aggregate, e: ShellEvent)
    ensures e in Without(events, aggregate) <==> e in events && e.aggregate != aggregate
  {
    if events != [] {
      var n := |events| - 1;
      WithoutKeepsOthers(events[..n], aggregate, e);
      assert events == events[..n] + [events[n]];
    }
  }

  lemma {:induction false} WithoutAscends(events: seq<ShellEvent>, aggregate: Aggregate)
    requires Ascending(events)
    ensures Ascending(Without(events, aggregate))
  {
    if events != [] {
      var n := |events| - 1;
      WithoutAscends(events[..n], aggregate);
      forall e | e in Without(events[..n], aggregate) ensures e.sequence < events[n].sequence {
        WithoutKeepsOthers(events[..n], aggregate, e);
      }
    }
  }

  /** The latest event of each aggregate, in the order of the batch. */
  function Survivors(events: seq<ShellEvent>): seq<ShellEvent> {
    if events == [] then []
    else
      var last := events[|events| - 1];
      Without(Survivors(events[..|events| - 1]), last.aggregate) + [last]
  }

  lemma {:induction false} SurvivorsAscend(events: seq<ShellEvent>)
    requires Ascending(events)
    ensures Ascending(Survivors(events))
  {
    if events != [] {
      var n := |events| - 1;
      SurvivorsAscend(events[..n]);
      WithoutAscends(Survivors(events[..n]), events[n].aggregate);
      forall e | e in Without(Survivors(events[..n]), events[n].aggregate) ensures e.sequence < events[n].sequence {
        WithoutKeepsOthers(Survivors(events[..n]), events[n].aggregate, e);
        var i := SurvivorIsLatest(events[..n], e);
      }
    }
  }

  /** Every survivor is the last event of its aggregate in the batch ... */
  lemma {:induction false} SurvivorIsLatest(events: seq<ShellEvent>, e: ShellEvent) returns (i: nat)
    requires e in Survivors(events)
    ensures LastOfAggregate(events, i) && events[i] == e
  {
    var n := |events| - 1;
    if e == events[n] {
      i := n;
    } else {
      WithoutKeepsOthers(Survivors(events[..n]), events[n].aggregate, e);
      i := SurvivorIsLatest(events[..n], e);
    }
  }

  /** ... and the last event of an aggregate always survives. */
  lemma {:induction false} LatestSurvives(events: seq<ShellEvent>, i: nat)
    requires LastOfAggregate(events, i)
    ensures events[i] in Survivors(events)
  {
    var n := |events| - 1;
    if i < n {
      LatestSurvives(events[..n], i);
      WithoutKeepsOthers(Survivors(events[..n]), events[n].aggregate, events[i]);
    }
  }

  /** Two survivors of a batch belong to different aggregates. */
  lemma SurvivorsDiffer(events: seq<ShellEvent>, e: ShellEvent, f: ShellEvent)
    requires e in Survivors(events) && f in Survivors(events) && e.aggregate == f.aggregate
    ensures e == f
  {
    var i := SurvivorIsLatest(events, e);
    var j := SurvivorIsLatest(events, f);
    assert i == j;
  }

  ghost predicate DistinctSequences(events: seq<ShellEvent>) {
    forall i, j :: 0 <= i < j < |events| ==> events[i].sequence != events[j].sequence
  }

  function InsertBySequence(e: ShellEvent, sorted: seq<ShellEvent>): (result: seq<ShellEvent>)
    requires Ascending(sorted)
    requires forall x :: x in sorted ==> x.sequence != e.sequence
    ensures Ascending(result)
    ensures forall x :: x in result <==> x == e || x in sorted
  {
    if sorted == [] then [e]
    else if e.sequence < sorted[0].sequence then [e] + sorted
    else
      var rest := InsertBySequence(e, sorted[1..]);
      assert forall x :: x in sorted <==> x == sorted[0] || x in sorted[1..];
      assert forall x :: x in rest ==> sorted[0].sequence < x.sequence;
      [sorted[0]] + rest
  }

  function SortBySequence(events: seq<ShellEvent>): (sorted: seq<ShellEvent>)
    requires DistinctSequences(events)
    ensures Ascending(sorted)
    ensures forall x :: x in sorted <==> x in events
  {
    if events == [] then []
    else
      assert forall x :: x in events <==> x == events[0] || x in events[1..];
      InsertBySequence(events[0], SortBySequence(events[1..]))
  }

  lemma {:induction false} AscendingIsUnique(a: seq<ShellEvent>, b: seq<ShellEvent>)
    requires Ascending(a) && Ascending(b)
    requires forall x :: x in a <==> x in b
    ensures a == b
  {
    assert b != [] ==> b[0] in a;
    if a != [] {
      assert a[0] in b;
      assert b[0] in a;
      assert a[0] == b[0];
      forall x ensures x in a[1..] <==> x in b[1..] {
        assert x in a[1..] ==> x in a && x.sequence > a[0].sequence;
        assert x in b[1..] ==> x in b && x.sequence > b[0].sequence;
      }
      AscendingIsUnique(a[1..], b[1..]);
    }
  }

  function ItemsOf(event: ShellEvent, read: Aggregate -> ReadOutcome): seq<ShellItem> {
    var item := ToShellStreamEvent(event, read(event.aggregate));
    if item.Some? then [item.value] else []
  }

  function Emit(survivors: seq<ShellEvent>, read: Aggregate -> ReadOutcome): seq<ShellItem> {
    if survivors == [] then [] else ItemsOf(survivors[0], read) + Emit(survivors[1..], read)
  }

  lemma {:induction false} EmitAppend(a: seq<ShellEvent>, b: seq<ShellEvent>, read: Aggregate -> ReadOutcome)
    ensures Emit(a + b, read) == Emit(a, read) + Emit(b, read)
  {
    if a == [] {
      assert a + b == b;
    } else {
      assert (a + b)[1..] == a[1..] + b;
      EmitAppend(a[1..], b, read);
      EmitFirst(a, read);
      EmitFirst(a + b, read);
      Regroup(ItemsOf(a[0], read), Emit(a[1..], read), Emit(b, read));
    }
  }

  lemma EmitFirst(events: seq<ShellEvent>, read: Aggregate -> ReadOutcome)
    requires events != []
    ensures Emit(events, read) == ItemsOf(events[0], read) + Emit(events[1..], read)
  {
  }

  lemma Regroup<T>(a: seq<T>, b: seq<T>, c: seq<T>)
    ensures a + (b + c) == (a + b) + c
  {
  }

  /** What the `Map` of `coalesceShellEvents` holds after a prefix of the batch: the survivors
      of that prefix, under the aggregates in `order`. */
  ghost predicate Collected(order: seq<Aggregate>, latest: map<Aggregate, ShellEvent>, survivors: seq<ShellEvent>) {
    && (forall a :: a in order <==> a in latest)
    && (forall j, k :: 0 <= j < k < |order| ==> order[j] != order[k])
    && (forall a :: a in latest ==> latest[a].aggregate == a && latest[a] in survivors)
    && (forall e :: e in survivors ==> e.aggregate in latest && latest[e.aggregate] == e)
  }

  lemma CollectOne(order: seq<Aggregate>, latest: map<Aggregate, ShellEvent>, events: seq<ShellEvent>, e: ShellEvent)
    requires Collected(order, latest, Survivors(events))
    ensures Collected(if e.aggregate in latest then order else order + [e.aggregate], latest[e.aggregate := e], Survivors(events + [e]))
  {
    assert (events + [e])[..|events|] == events;
    var survivors := Survivors(events);
    var survivors' := Without(survivors, e.aggregate) + [e];
    assert Survivors(events + [e]) == survivors';
    forall x ensures x in survivors' <==> x == e || (x in survivors && x.aggregate != e.aggregate) {
      WithoutKeepsOthers(survivors, e.aggregate, x);
    }
  }

  function ValuesOf(order: seq<Aggregate>, latest: map<Aggregate, ShellEvent>): (values: seq<ShellEvent>)
    requires forall a :: a in order ==> a in latest
    ensures |values| == |order| && forall i :: 0 <= i < |order| ==> values[i] == latest[order[i]]
  {
    seq(|order|, i requires 0 <= i < |order| && order[i] in latest => latest[order[i]])
  }

  lemma ValuesAreSurvivors(order: seq<Aggregate>, latest: map<Aggregate, ShellEvent>, survivors: seq<ShellEvent>)
    requires Collected(order, latest, survivors) && Ascending(survivors)
    ensures DistinctSequences(ValuesOf(order, latest))
    ensures forall e :: e in ValuesOf(order, latest) <==> e in survivors
  {
    var values := ValuesOf(order, latest);
    forall e | e in survivors ensures e in values {
      var i :| 0 <= i < |order| && order[i] == e.aggregate;
      assert values[i] == e;
    }
    forall i, j | 0 <= i < j < |values| ensures values[i].sequence != values[j].sequence {
      assert values[i].aggregate != values[j].aggregate;
      var k :| 0 <= k < |survivors| && survivors[k] == values[i];
      var l :| 0 <= l < |survivors| && survivors[l] == values[j];
      assert k < l || l < k;
    }
  }

  /** `coalesceShellEvents`: a `Map` from aggregate to latest event, re-sorted, one read each.
      The map keeps its first-insertion order in `order`, as a JavaScript `Map` does. */
  method CoalesceShellEvents(events: seq<ShellEvent>, read: Aggregate -> ReadOutcome)
    returns (items: seq<ShellItem>)
    requires Ascending(events)
    ensures items == Emit(Survivors(events), read)
  {
    if |events| == 0 {
      return [];
    }
    var order: seq<Aggregate> := [];
    var latest: map<Aggregate, ShellEvent> := map[];
    for i := 0 to |events|
      invariant Collected(order, latest, Survivors(events[..i]))
    {
      assert events[..i + 1] == events[..i] + [events[i]];
      CollectOne(order, latest, events[..i], events[i]);
      if events[i].aggregate !in latest {
        order := order + [events[i].aggregate];
      }
      latest := latest[events[i].aggregate := events[i]];
    }
    assert events[..|events|] == events;
    SurvivorsAscend(events);
    ValuesAreSurvivors(order, latest, Survivors(events));
    var survivors := SortBySequence(ValuesOf(order, latest));
    AscendingIsUnique(survivors, Survivors(events));
    items := RefetchSurvivors(survivors, read);
  }

  method RefetchSurvivors(survivors: seq<ShellEvent>, read: Aggregate -> ReadOutcome) returns (items: seq<ShellItem>)
    ensures items == Emit(survivors, read)
  {
    items := [];
    for i := 0 to |survivors|
      invariant items == Emit(survivors[..i], read)
    {
      var item := ToShellStreamEvent(survivors[i], read(survivors[i].aggregate));
      assert survivors[..i + 1] == survivors[..i] + [survivors[i]];
      EmitAppend(survivors[..i], [survivors[i]], read);
      items := items + if item.Some? then [item.value] else [];
    }
    assert survivors[..|survivors|] == survivors;
  }

  // ----- A queue of events and completion markers -----

  function EventsOf(inputs: seq<LiveInput>): seq<ShellEvent> {
    if inputs == [] then []
    else (if inputs[0].Event? then [inputs[0].event] else []) + EventsOf(inputs[1..])
  }

  lemma {:induction false} EventsOfAppend(a: seq<LiveInput>, b: seq<LiveInput>)
    ensures EventsOf(a + b) == EventsOf(a) + EventsOf(b)
  {
    if a == [] {
      assert a + b == b;
    } else {
      assert (a + b)[1..] == a[1..] + b;
      EventsOfAppend(a[1..], b);
      var first := if a[0].Event? then [a[0].event] else [];
      assert EventsOf(a + b) == first + (EventsOf(a[1..]) + EventsOf(b));
    }
  }

  ghost predicate NoMarks(inputs: seq<LiveInput>) {
    forall i :: 0 <= i < |inputs| ==> inputs[i].Event?
  }

  lemma {:induction false} EventsOfNoMarks(inputs: seq<LiveInput>)
    requires NoMarks(inputs)
    ensures |EventsOf(inputs)| == |inputs|
    ensures forall i :: 0 <= i < |inputs| ==> EventsOf(inputs)[i] == inputs[i].event
  {
    if inputs != [] {
      EventsOfNoMarks(inputs[1..]);
    }
  }

  function Refetches(events: seq<ShellEvent>): seq<Slot> {
    seq(|events|, i requires 0 <= i < |events| => Refetch(events[i], Unread))
  }

  /** The output places of a batch, before any row is read. `pending` holds the events seen
      since the last marker. */
  function Plan(inputs: seq<LiveInput>, pending: seq<ShellEvent>): (slots: seq<Slot>)
    ensures forall k :: 0 <= k < |slots| ==> slots[k].Mark? || (slots[k].Refetch? && slots[k].result.Unread?)
  {
    if inputs == [] then Refetches(Survivors(pending))
    else if inputs[0].Event? then Plan(inputs[1..], pending + [inputs[0].event])
    else Refetches(Survivors(pending)) + [Mark] + Plan(inputs[1..], [])
  }

  /** Fills the places of a plan, giving each marker-free segment its own readings. */
  function Fill(slots: seq<Slot>, segment: nat, readings: nat -> Aggregate -> ReadOutcome): seq<StreamItem> {
    if slots == [] then []
    else match slots[0]
      case Mark => [SynchronizedItem] + Fill(slots[1..], segment + 1, readings)
      case Snapshot(_, _) => Fill(slots[1..], segment, readings)
      case Refetch(event, _) =>
        var item := ToShellStreamEvent(event, readings(segment)(event.aggregate));
        (if item.Some? then [Change(item.value)] else []) + Fill(slots[1..], segment, readings)
  }

  function Changes(items: seq<ShellItem>): seq<StreamItem> {
    seq(|items|, i requires 0 <= i < |items| => Change(items[i]))
  }

  lemma FillOne(event: ShellEvent, rest: seq<Slot>, segment: nat, readings: nat -> Aggregate -> ReadOutcome)
    ensures Fill([Refetch(event, Unread)] + rest, segment, readings) == FirstChange(event, readings(segment)) + Fill(rest, segment, readings)
  {
    assert ([Refetch(event, Unread)] + rest)[1..] == rest;
  }

  function FirstChange(event: ShellEvent, read: Aggregate -> ReadOutcome): seq<StreamItem> {
    var item := ToShellStreamEvent(event, read(event.aggregate));
    if item.Some? then [Change(item.value)] else []
  }

  lemma ChangesOne(events: seq<ShellEvent>, read: Aggregate -> ReadOutcome)
    requires events != []
    ensures Changes(Emit(events, read)) == FirstChange(events[0], read) + Changes(Emit(events[1..], read))
  {
  }

  lemma {:induction false} FillRefetches(events: seq<ShellEvent>, rest: seq<Slot>, segment: nat, readings: nat -> Aggregate -> ReadOutcome)
    ensures Fill(Refetches(events) + rest, segment, readings) == Changes(Emit(events, readings(segment))) + Fill(rest, segment, readings)
  {
    if events == [] {
      assert Refetches(events) + rest == rest;
    } else {
      FillRefetches(events[1..], rest, segment, readings);
      assert Refetches(events) + rest == [Refetch(events[0], Unread)] + (Refetches(events[1..]) + rest);
      FillOne(events[0], Refetches(events[1..]) + rest, segment, readings);
      ChangesOne(events, readings(segment));
      Regroup(FirstChange(events[0], readings(segment)), Changes(Emit(events[1..], readings(segment))), Fill(rest, segment, readings));
    }
  }

  lemma PlanAtMark(rest: seq<LiveInput>, pending: seq<ShellEvent>, segment: nat, readings: nat -> Aggregate -> ReadOutcome)
    ensures Fill(Plan([Synchronized] + rest, pending), segment, readings)
         == Changes(Emit(Survivors(pending), readings(segment))) + [SynchronizedItem] + Fill(Plan(rest, []), segment + 1, readings)
  {
    assert ([Synchronized] + rest)[1..] == rest;
    var tail := [Mark] + Plan(rest, []);
    assert Plan([Synchronized] + rest, pending) == Refetches(Survivors(pending)) + tail;
    FillRefetches(Survivors(pending), tail, segment, readings);
    assert tail[1..] == Plan(rest, []);
  }

  lemma PlanAtEnd(pending: seq<ShellEvent>, segment: nat, readings: nat -> Aggregate -> ReadOutcome)
    ensures Fill(Plan([], pending), segment, readings) == Changes(Emit(Survivors(pending), readings(segment)))
  {
    FillRefetches(Survivors(pending), [], segment, readings);
    assert Refetches(Survivors(pending)) + [] == Refetches(Survivors(pending));
  }

  /** `coalesceShellLiveInputs`. What was output so far, followed by the plan of what is left,
      is always the plan of the whole queue. */
  method CoalesceShellLiveInputs(inputs: seq<LiveInput>, readings: nat -> Aggregate -> ReadOutcome)
    returns (output: seq<StreamItem>)
    requires Ascending(EventsOf(inputs))
    ensures output == Fill(Plan(inputs, []), 0, readings)
  {
    output := [];
    var pendingEvents: seq<ShellEvent> := [];
    var segment: nat := 0;
    ghost var whole := Fill(Plan(inputs, []), 0, readings);
    for i := 0 to |inputs|
      invariant Ascending(pendingEvents + EventsOf(inputs[i..]))
      invariant whole == output + Fill(Plan(inputs[i..], pendingEvents), segment, readings)
    {
      var input := inputs[i];
      assert inputs[i..] == [input] + inputs[i + 1..];
      assert inputs[i..][0] == input && inputs[i..][1..] == inputs[i + 1..];
      if input.Event? {
        ConsEvent(pendingEvents, inputs[i..]);
        pendingEvents := pendingEvents + [input.event];
        continue;
      }
      ConsMark(inputs[i..]);
      AscendingParts(pendingEvents, EventsOf(inputs[i..]));
      PlanAtMark(inputs[i + 1..], pendingEvents, segment, readings);
      var items := CoalesceShellEvents(pendingEvents, readings(segment));
      output := output + Changes(items);
      pendingEvents := [];
      segment := segment + 1;
      output := output + [SynchronizedItem];
    }
    AscendingParts(pendingEvents, []);
    PlanAtEnd(pendingEvents, segment, readings);
    var items := CoalesceShellEvents(pendingEvents, readings(segment));
    output := output + Changes(items);
  }

  lemma AscendingParts(a: seq<ShellEvent>, b: seq<ShellEvent>)
    requires Ascending(a + b)
    ensures Ascending(a) && Ascending(b)
  {
    forall i, j | 0 <= i < j < |a| ensures a[i].sequence < a[j].sequence {
      assert (a + b)[i] == a[i] && (a + b)[j] == a[j];
    }
    forall i, j | 0 <= i < j < |b| ensures b[i].sequence < b[j].sequence {
      assert (a + b)[|a| + i] == b[i] && (a + b)[|a| + j] == b[j];
    }
  }

  // ----- What a plan guarantees -----

  /** Splitting at a marker and coalescing each side on its own is the whole plan. */
  lemma {:induction false} PlanSplitsAtMark(a: seq<LiveInput>, b: seq<LiveInput>, pending: seq<ShellEvent>)
    ensures Plan(a + [Synchronized] + b, pending) == Plan(a, pending) + [Mark] + Plan(b, [])
  {
    var whole := a + [Synchronized] + b;
    if a == [] {
      assert whole[1..] == b;
    } else {
      assert whole[1..] == a[1..] + [Synchronized] + b;
      if a[0].Event? {
        PlanSplitsAtMark(a[1..], b, pending + [a[0].event]);
      } else {
        PlanSplitsAtMark(a[1..], b, []);
        assert Plan(whole, pending) == Refetches(Survivors(pending)) + [Mark] + (Plan(a[1..], []) + [Mark] + Plan(b, []));
      }
    }
  }

  lemma ConsMark(inputs: seq<LiveInput>)
    requires inputs != [] && inputs[0].Synchronized?
    ensures EventsOf(inputs) == EventsOf(inputs[1..]) && [] + EventsOf(inputs[1..]) == EventsOf(inputs[1..])
  {
  }

  lemma ConsEvent(pending: seq<ShellEvent>, inputs: seq<LiveInput>)
    requires inputs != [] && inputs[0].Event?
    ensures pending + [inputs[0].event] + EventsOf(inputs[1..]) == pending + EventsOf(inputs)
  {
  }

  /** A queue with no marker is coalesced as one batch. */
  lemma {:induction false} PlanWithoutMarks(inputs: seq<LiveInput>, pending: seq<ShellEvent>)
    requires NoMarks(inputs)
    ensures Plan(inputs, pending) == Refetches(Survivors(pending + EventsOf(inputs)))
  {
    if inputs == [] {
      assert pending + EventsOf(inputs) == pending;
    } else {
      assert inputs[0].Event?;
      ConsEvent(pending, inputs);
      PlanWithoutMarks(inputs[1..], pending + [inputs[0].event]);
    }
  }

  lemma {:induction false} PlanIsSound(inputs: seq<LiveInput>, pending: seq<ShellEvent>, k: nat)
    requires k < |Plan(inputs, pending)| && Plan(inputs, pending)[k].Refetch?
    ensures Plan(inputs, pending)[k].event in pending + EventsOf(inputs)
  {
    var own := Refetches(Survivors(pending));
    if inputs == [] {
      var i := SurvivorIsLatest(pending, Survivors(pending)[k]);
    } else if inputs[0].Event? {
      PlanIsSound(inputs[1..], pending + [inputs[0].event], k);
    } else if k < |own| {
      var i := SurvivorIsLatest(pending, Survivors(pending)[k]);
    } else {
      var rest := Plan(inputs[1..], []);
      assert Plan(inputs, pending)[k] == rest[k - |own| - 1];
      PlanIsSound(inputs[1..], [], k - |own| - 1);
    }
  }

  lemma LastInTail(a: seq<ShellEvent>, b: seq<ShellEvent>, i: nat)
    requires LastOfAggregate(a + b, |a| + i)
    ensures LastOfAggregate(b, i) && b[i] == (a + b)[|a| + i]
  {
    forall j | i < j < |b| ensures b[j].aggregate != b[i].aggregate {
      assert (a + b)[|a| + j] == b[j];
    }
  }

  lemma LastInFront(a: seq<ShellEvent>, b: seq<ShellEvent>, i: nat)
    requires LastOfAggregate(a + b, i) && i < |a|
    ensures LastOfAggregate(a, i) && a[i] == (a + b)[i]
  {
    forall j | i < j < |a| ensures a[j].aggregate != a[i].aggregate {
      assert (a + b)[j] == a[j];
    }
  }

  lemma LatestHasSlot(events: seq<ShellEvent>, i: nat) returns (k: nat)
    requires LastOfAggregate(events, i)
    ensures k < |Refetches(Survivors(events))| && Refetches(Survivors(events))[k] == Refetch(events[i], Unread)
  {
    LatestSurvives(events, i);
    k :| 0 <= k < |Survivors(events)| && Survivors(events)[k] == events[i];
  }

  lemma OwnPlace(inputs: seq<LiveInput>, pending: seq<ShellEvent>, k: nat)
    requires (inputs == [] || !inputs[0].Event?) && k < |Refetches(Survivors(pending))|
    ensures k < |Plan(inputs, pending)| && Plan(inputs, pending)[k] == Refetches(Survivors(pending))[k]
  {
  }

  lemma PlaceAfterMark(inputs: seq<LiveInput>, pending: seq<ShellEvent>, k': nat) returns (k: nat)
    requires inputs != [] && !inputs[0].Event? && k' < |Plan(inputs[1..], [])|
    ensures k < |Plan(inputs, pending)| && Plan(inputs, pending)[k] == Plan(inputs[1..], [])[k']
  {
    k := |Refetches(Survivors(pending))| + 1 + k';
  }

  /** The last event of each aggregate in the queue has a place of its own in the plan. */
  lemma {:induction false} PlanHoldsLatest(inputs: seq<LiveInput>, pending: seq<ShellEvent>, i: nat) returns (k: nat)
    requires LastOfAggregate(pending + EventsOf(inputs), i)
    ensures k < |Plan(inputs, pending)|
    ensures Plan(inputs, pending)[k] == Refetch((pending + EventsOf(inputs))[i], Unread)
  {
    if inputs == [] {
      assert pending + EventsOf(inputs) == pending;
      k := LatestHasSlot(pending, i);
      OwnPlace(inputs, pending, k);
    } else if inputs[0].Event? {
      ConsEvent(pending, inputs);
      k := PlanHoldsLatest(inputs[1..], pending + [inputs[0].event], i);
    } else if i < |pending| {
      LastInFront(pending, EventsOf(inputs), i);
      k := LatestHasSlot(pending, i);
      OwnPlace(inputs, pending, k);
    } else {
      var rest := EventsOf(inputs[1..]);
      assert EventsOf(inputs) == rest && [] + rest == rest;
      LastInTail(pending, rest, i - |pending|);
      var k' := PlanHoldsLatest(inputs[1..], [], i - |pending|);
      k := PlaceAfterMark(inputs, pending, k');
    }
  }

  ghost predicate SlotsAscend(slots: seq<Slot>) {
    forall i, j :: 0 <= i < j < |slots| && slots[i].Refetch? && slots[j].Refetch? ==> slots[i].event.sequence < slots[j].event.sequence
  }

  lemma EarlierIsBelow(a: seq<ShellEvent>, b: seq<ShellEvent>, x: nat, e: ShellEvent)
    requires Ascending(a + b) && x < |a| && e in b
    ensures a[x].sequence < e.sequence
  {
    var y :| 0 <= y < |b| && b[y] == e;
    assert (a + b)[x] == a[x] && (a + b)[|a| + y] == e;
  }

  lemma JoinAscends(own: seq<Slot>, rest: seq<Slot>)
    requires SlotsAscend(own) && SlotsAscend(rest)
    requires forall i, j :: 0 <= i < |own| && 0 <= j < |rest| && own[i].Refetch? && rest[j].Refetch? ==>
      own[i].event.sequence < rest[j].event.sequence
    ensures SlotsAscend(own + [Mark] + rest)
  {
    var all := own + [Mark] + rest;
    forall i, j | 0 <= i < j < |all| && all[i].Refetch? && all[j].Refetch?
      ensures all[i].event.sequence < all[j].event.sequence
    {
      assert i < |own| ==> all[i] == own[i];
      assert i > |own| ==> all[i] == rest[i - |own| - 1];
      assert j < |own| ==> all[j] == own[j];
      assert j > |own| ==> all[j] == rest[j - |own| - 1];
    }
  }

  lemma {:induction false} PlanAscends(inputs: seq<LiveInput>, pending: seq<ShellEvent>)
    requires Ascending(pending + EventsOf(inputs))
    ensures SlotsAscend(Plan(inputs, pending))
  {
    AscendingParts(pending, EventsOf(inputs));
    SurvivorsAscend(pending);
    if inputs == [] {
    } else if inputs[0].Event? {
      assert pending + [inputs[0].event] + EventsOf(inputs[1..]) == pending + EventsOf(inputs);
      PlanAscends(inputs[1..], pending + [inputs[0].event]);
    } else {
      var own, rest := Refetches(Survivors(pending)), Plan(inputs[1..], []);
      assert [] + EventsOf(inputs[1..]) == EventsOf(inputs);
      PlanAscends(inputs[1..], []);
      forall i, j | 0 <= i < |own| && 0 <= j < |rest| && rest[j].Refetch?
        ensures own[i].event.sequence < rest[j].event.sequence
      {
        var x := SurvivorIsLatest(pending, Survivors(pending)[i]);
        PlanIsSound(inputs[1..], [], j);
        EarlierIsBelow(pending, EventsOf(inputs), x, rest[j].event);
      }
      JoinAscends(own, rest);
    }
  }

  function Marks(slots: seq<Slot>): nat {
    if slots == [] then 0 else (if slots[0].Mark? then 1 else 0) + Marks(slots[1..])
  }

  lemma {:induction false} FillAppend(a: seq<Slot>, b: seq<Slot>, segment: nat, readings: nat -> Aggregate -> ReadOutcome)
    ensures Fill(a + b, segment, readings) == Fill(a, segment, readings) + Fill(b, segment + Marks(a), readings)
  {
    if a == [] {
      assert a + b == b;
    } else {
      assert (a + b)[1..] == a[1..] + b;
      FillAppend(a[1..], b, if a[0].Mark? then segment + 1 else segment, readings);
    }
  }

  /** A place of a plan whose read gives an item puts that item in the output. */
  lemma {:induction false} FillHolds(slots: seq<Slot>, k: nat, segment: nat, readings: nat -> Aggregate -> ReadOutcome) returns (item: ShellItem)
    requires k < |slots| && slots[k].Refetch? && Handled(slots[k].event)
    requires forall n: nat, g :: !readings(n)(g).ReadFailed?
    ensures Change(item) in Fill(slots, segment, readings)
    ensures item.aggregate == slots[k].event.aggregate && item.sequence == slots[k].event.sequence
  {
    if k > 0 {
      item := FillHolds(slots[1..], k - 1, if slots[0].Mark? then segment + 1 else segment, readings);
    } else {
      item := ToShellStreamEvent(slots[0].event, readings(segment)(slots[0].event.aggregate)).value;
      assert Fill(slots, segment, readings)[0] == Change(item);
    }
  }

  lemma FillAroundMark(left: seq<Slot>, right: seq<Slot>, readings: nat -> Aggregate -> ReadOutcome)
    ensures Fill(left + [Mark] + right, 0, readings)
         == Fill(left, 0, readings) + [SynchronizedItem] + Fill(right, Marks(left) + 1, readings)
  {
    assert left + [Mark] + right == left + ([Mark] + right);
    FillAppend(left, [Mark] + right, 0, readings);
    assert ([Mark] + right)[1..] == right;
  }

  /** The completion marker never overtakes. For every split of a queue at a marker: the output of
      `CoalesceShellLiveInputs` is what each side gives on its own with the marker between them,
      and every event queued before the marker has, before it, an item of its aggregate at that
      sequence or later. */
  lemma MarkerNeverOvertakes(a: seq<LiveInput>, b: seq<LiveInput>, readings: nat -> Aggregate -> ReadOutcome)
    requires forall n: nat, g :: !readings(n)(g).ReadFailed?
    requires forall e :: e in EventsOf(a) ==> Handled(e)
    ensures Fill(Plan(a + [Synchronized] + b, []), 0, readings)
         == Fill(Plan(a, []), 0, readings) + [SynchronizedItem] + Fill(Plan(b, []), Marks(Plan(a, [])) + 1, readings)
    ensures forall e :: e in EventsOf(a) ==> exists item ::
              Change(item) in Fill(Plan(a, []), 0, readings) && item.aggregate == e.aggregate
              && (Ascending(EventsOf(a)) ==> e.sequence <= item.sequence)
  {
    PlanSplitsAtMark(a, b, []);
    var left, right := Plan(a, []), Plan(b, []);
    FillAroundMark(left, right, readings);
    forall e | e in EventsOf(a)
      ensures exists item :: Change(item) in Fill(left, 0, readings) && item.aggregate == e.aggregate
                          && (Ascending(EventsOf(a)) ==> e.sequence <= item.sequence)
    {
      var item := QueuedEventHasItem(a, e, readings);
    }
  }

  lemma QueuedEventHasItem(inputs: seq<LiveInput>, e: ShellEvent, readings: nat -> Aggregate -> ReadOutcome) returns (item: ShellItem)
    requires forall n: nat, g :: !readings(n)(g).ReadFailed?
    requires forall e :: e in EventsOf(inputs) ==> Handled(e)
    requires e in EventsOf(inputs)
    ensures Change(item) in Fill(Plan(inputs, []), 0, readings) && item.aggregate == e.aggregate
    ensures Ascending(EventsOf(inputs)) ==> e.sequence <= item.sequence
  {
    var k, latest := QueuedEventHasSlot(inputs, EventsOf(inputs), e);
    item := FillHolds(Plan(inputs, []), k, 0, readings);
  }

  lemma QueuePlanHoldsLatest(inputs: seq<LiveInput>, i: nat) returns (k: nat)
    requires LastOfAggregate(EventsOf(inputs), i)
    ensures k < |Plan(inputs, [])| && Plan(inputs, [])[k] == Refetch(EventsOf(inputs)[i], Unread)
  {
    assert [] + EventsOf(inputs) == EventsOf(inputs);
    k := PlanHoldsLatest(inputs, [], i);
  }

  lemma QueuedEventHasSlot(inputs: seq<LiveInput>, events: seq<ShellEvent>, e: ShellEvent) returns (k: nat, latest: ShellEvent)
    requires events == EventsOf(inputs) && e in events
    ensures k < |Plan(inputs, [])| && Plan(inputs, [])[k] == Refetch(latest, Unread)
    ensures latest in events && latest.aggregate == e.aggregate && (Ascending(events) ==> e.sequence <= latest.sequence)
  {
    var i :| 0 <= i < |events| && events[i] == e;
    var last := LastFrom(events, i);
    latest := events[last];
    k := QueuePlanHoldsLatest(inputs, last);
  }

  /** The last event of the aggregate of `events[i]`. */
  lemma {:induction false} LastFrom(events: seq<ShellEvent>, i: nat) returns (last: nat)
    requires i < |events|
    ensures i <= last && LastOfAggregate(events, last) && events[last].aggregate == events[i].aggregate
    decreases |events| - i
  {
    if j :| i < j < |events| && events[j].aggregate == events[i].aggregate {
      last := LastFrom(events, j);
    } else {
      last := i;
    }
  }
}
