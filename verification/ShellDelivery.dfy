/** What one connection of the shell subscription delivers, counted over its whole run: the completion
    marker, the snapshot, and the rows of each aggregate. */
module ShellDelivery {
  import opened Prelude
  import opened ShellCoalescing
  import opened ShellProtocol
  import opened ShellConvergence
  import opened ShellProgress
  import opened ShellStranding

  ghost predicate StaysConnected(steps: seq<Step>) {
    forall i :: 0 <= i < |steps| ==> !steps[i].Disconnect?
  }

  // ----- The completion marker -----

  /** How many times the run delivers a completion marker. */
  ghost function MarkersDelivered(s: State, steps: seq<Step>): nat
    requires ValidRun(s, steps)
    decreases |steps|
  {
    if steps == [] then 0
    else (if steps[0].Deliver? && s.link.sub.pending[0].Mark? then 1 else 0) + MarkersDelivered(Apply(s, steps[0]), steps[1..])
  }

  function QueuedMarks(queue: seq<LiveInput>): nat {
    if queue == [] then 0 else (if queue[0].Synchronized? then 1 else 0) + QueuedMarks(queue[1..])
  }

  /** The markers a connection still owes its client. */
  function MarksToCome(sub: Subscription): nat {
    (if sub.wantsMarker && !sub.phase.MarkerQueued? && !sub.phase.Live? then 1 else 0) + QueuedMarks(sub.queue) + Marks(sub.pending)
  }

  lemma {:induction false} QueuedMarksAppend(a: seq<LiveInput>, b: seq<LiveInput>)
    ensures QueuedMarks(a + b) == QueuedMarks(a) + QueuedMarks(b)
  {
    if a == [] {
      assert a + b == b;
    } else {
      assert (a + b)[1..] == a[1..] + b;
      QueuedMarksAppend(a[1..], b);
    }
  }

  lemma {:induction false} MarksAppend(a: seq<Slot>, b: seq<Slot>)
    ensures Marks(a + b) == Marks(a) + Marks(b)
  {
    if a == [] {
      assert a + b == b;
    } else {
      assert (a + b)[1..] == a[1..] + b;
      MarksAppend(a[1..], b);
    }
  }

  lemma {:induction false} RefetchesHaveNoMarks(events: seq<ShellEvent>)
    ensures Marks(Refetches(events)) == 0
  {
    if events != [] {
      assert Refetches(events)[1..] == Refetches(events[1..]);
      RefetchesHaveNoMarks(events[1..]);
    }
  }

  lemma {:induction false} InputsHaveNoMarks(events: seq<ShellEvent>)
    ensures QueuedMarks(Inputs(events)) == 0
  {
    if events != [] {
      assert Inputs(events)[1..] == Inputs(events[1..]);
      InputsHaveNoMarks(events[1..]);
    }
  }

  /** A plan has the markers of its queue, no more and no fewer. */
  lemma {:induction false} PlanKeepsMarks(inputs: seq<LiveInput>, pending: seq<ShellEvent>)
    ensures Marks(Plan(inputs, pending)) == QueuedMarks(inputs)
  {
    RefetchesHaveNoMarks(Survivors(pending));
    if inputs != [] {
      if inputs[0].Event? {
        PlanKeepsMarks(inputs[1..], pending + [inputs[0].event]);
      } else {
        PlanKeepsMarks(inputs[1..], []);
        var own := Refetches(Survivors(pending));
        MarksAppend(own + [Mark], Plan(inputs[1..], []));
        MarksAppend(own, [Mark]);
      }
    }
  }

  lemma {:induction false} ReadKeepsMarks(slots: seq<Slot>, k: nat, result: ReadState)
    requires k < |slots| && slots[k].Refetch?
    ensures Marks(slots[k := Refetch(slots[k].event, result)]) == Marks(slots)
  {
    var slots' := slots[k := Refetch(slots[k].event, result)];
    if k == 0 {
      assert slots'[1..] == slots[1..];
    } else {
      assert slots'[1..] == slots[1..][k - 1 := Refetch(slots[k].event, result)];
      ReadKeepsMarks(slots[1..], k - 1, result);
    }
  }

  lemma TakeMovesMarks(sub: Subscription, count: nat)
    requires count <= |sub.queue|
    ensures Marks(Take(sub, count).pending) + QueuedMarks(Take(sub, count).queue) == QueuedMarks(sub.queue)
  {
    PlanKeepsMarks(sub.queue[..count], []);
    QueuedMarksAppend(sub.queue[..count], sub.queue[count..]);
    assert sub.queue[..count] + sub.queue[count..] == sub.queue;
  }

  lemma NextKeepsMarks(s: State, sub: Subscription, step: Step)
    requires SubEnabled(s, sub, step) && !step.ReadRow? && !step.Deliver?
    requires sub.phase.SnapshotNeeded? || sub.phase.MarkerQueued? ==> sub.pending == []
    ensures MarksToCome(NextSub(s, sub, step)) == MarksToCome(sub)
  {
    match step
    case ReadHead(_) =>
    case LoadSnapshot => assert Marks([Snapshot(s.server.rows, LastSequence(s.server.log))]) == 0;
    case FetchPage =>
    case CoalesceReplay(count) =>
      PlanKeepsMarks(Inputs(sub.phase.fetched[..count]), []);
      InputsHaveNoMarks(sub.phase.fetched[..count]);
    case FinishReplay =>
    case StartLive => QueuedMarksAppend(sub.queue, [Synchronized]);
    case TakeAll => TakeMovesMarks(sub, |sub.queue|);
    case TakeLive(count) => TakeMovesMarks(sub, count);
  }

  lemma StepKeepsMarks(s: State, step: Step)
    requires Inv(s) && s.link.Up? && Enabled(s, step) && !step.Disconnect?
    ensures Apply(s, step).link.Up?
    ensures MarksToCome(s.link.sub) == MarksToCome(Apply(s, step).link.sub) + if step.Deliver? && s.link.sub.pending[0].Mark? then 1 else 0
  {
    var sub := s.link.sub;
    match step
    case Commit(_, _) =>
    case AdvanceHead =>
    case Publish => QueuedMarksAppend(sub.queue, [Event(s.server.log[s.server.published])]);
    case ReadRow(slot, _) => ReadKeepsMarks(sub.pending, slot, Apply(s, step).link.sub.pending[slot].result);
    case Deliver =>
    case _ => NextKeepsMarks(s, sub, step);
  }

  lemma {:induction false} RunKeepsMarks(s: State, steps: seq<Step>)
    requires Inv(s) && s.link.Up? && ValidRun(s, steps) && StaysConnected(steps)
    ensures Run(s, steps).link.Up?
    ensures MarksToCome(s.link.sub) == MarksToCome(Run(s, steps).link.sub) + MarkersDelivered(s, steps)
    decreases |steps|
  {
    if steps != [] {
      StepKeepsInv(s, steps[0]);
      StepKeepsMarks(s, steps[0]);
      RunKeepsMarks(Apply(s, steps[0]), steps[1..]);
    }
  }

  /** A client that asks for the completion marker gets it exactly once in a connection, one that does not
      never does: over every run after the subscription, never more, and no fewer once it is quiet. */
  lemma MarkerDeliveredExactly(before: seq<Step>, useCursor: bool, wantsMarker: bool, after: seq<Step>)
    requires ValidRun(Init, before) && Enabled(Run(Init, before), Subscribe(useCursor, wantsMarker))
    requires ValidRun(Apply(Run(Init, before), Subscribe(useCursor, wantsMarker)), after) && StaysConnected(after)
    ensures var s := Apply(Run(Init, before), Subscribe(useCursor, wantsMarker));
      && MarkersDelivered(s, after) <= (if wantsMarker then 1 else 0)
      && (Quiet(Run(s, after)) ==> MarkersDelivered(s, after) == if wantsMarker then 1 else 0)
  {
    RunKeepsInv(Init, before);
    StepKeepsInv(Run(Init, before), Subscribe(useCursor, wantsMarker));
    RunKeepsMarks(Apply(Run(Init, before), Subscribe(useCursor, wantsMarker)), after);
  }

  // ----- What the marker covers -----

  /** The marker is queued or past, above a floor that does not move, over a log that only grows. */
  ghost predicate AfterStart(s: State, log: seq<ShellEvent>, floor: nat) {
    && s.link.Up? && (s.link.sub.phase.MarkerQueued? || s.link.sub.phase.Live?)
    && s.link.sub.floor == floor && log <= s.server.log
  }

  lemma {:induction false} StartIsKept(s: State, steps: seq<Step>, log: seq<ShellEvent>, floor: nat)
    requires Inv(s) && AfterStart(s, log, floor) && ValidRun(s, steps) && StaysConnected(steps)
    ensures Inv(Run(s, steps)) && AfterStart(Run(s, steps), log, floor)
    decreases |steps|
  {
    if steps != [] {
      StepKeepsInv(s, steps[0]);
      StartStays(s, steps[0], log, floor);
      StartIsKept(Apply(s, steps[0]), steps[1..], log, floor);
    }
  }

  lemma StartStays(s: State, step: Step, log: seq<ShellEvent>, floor: nat)
    requires AfterStart(s, log, floor) && Enabled(s, step) && !step.Disconnect?
    ensures AfterStart(Apply(s, step), log, floor)
  {
  }

  ghost predicate LaterEvent(log: seq<ShellEvent>, a: Aggregate, published: nat, frontier: nat) {
    exists i :: published <= i < |log| && log[i].aggregate == a && log[i].sequence > frontier
  }

  lemma AboveIsLater(log: seq<ShellEvent>, start: seq<ShellEvent>, published: nat, a: Aggregate, frontier: nat, floor: nat)
    requires Ascending(log) && start <= log && published <= |start|
    requires LastSequence(start[..published]) <= floor && frontier <= floor && EventAbove(log, a, floor)
    ensures LaterEvent(log, a, published, frontier)
  {
    var i :| 0 <= i < |log| && log[i].aggregate == a && log[i].sequence > floor;
    assert published > 0 ==> start[published - 1] == log[published - 1];
  }

  lemma StartedAbove(s: State)
    requires Inv(s) && Enabled(s, StartLive) && s.link.sub.wantsMarker
    ensures var s' := Apply(s, StartLive);
      && Inv(s') && AfterStart(s', s.server.log, s'.link.sub.floor)
      && s.link.sub.frontier <= s'.link.sub.floor
      && s.server.published <= |s.server.log| && LastSequence(s.server.log[..s.server.published]) <= s'.link.sub.floor
  {
    StepKeepsInv(s, StartLive);
  }

  lemma MarkerCovers(log: seq<ShellEvent>, published: nat, frontier: nat, s: State, floor: nat, a: Aggregate)
    requires Inv(s) && AfterStart(s, log, floor) && frontier <= floor && published <= |log| && LastSequence(log[..published]) <= floor
    requires s.link.sub.pending != [] && s.link.sub.pending[0].Mark? && a !in s.lost
    ensures s.client.Some?
    ensures SameRow(s.client.value.rows, s.server.rows, a) || LaterEvent(s.server.log, a, published, frontier)
  {
    CaughtUpAtMark(s, a);
    if EventAbove(s.server.log, a, floor) {
      AboveIsLater(s.server.log, log, published, a, frontier, floor);
    }
  }

  /** When the marker comes, an aggregate that is still not as the server has it changed after the catch-up
      was done: it has an event that was not yet published then, and that was in neither the snapshot nor
      the replay. */
  lemma MarkerCoversPublished(before: seq<Step>, start: State, between: seq<Step>, s: State, a: Aggregate)
    requires ValidRun(Init, before) && start == Run(Init, before) && Enabled(start, StartLive) && start.link.sub.wantsMarker
    requires ValidRun(Apply(start, StartLive), between) && StaysConnected(between) && s == Run(Apply(start, StartLive), between)
    requires Enabled(s, Deliver) && s.link.sub.pending[0].Mark? && a !in s.lost
    ensures s.client.Some?
    ensures SameRow(s.client.value.rows, s.server.rows, a)
         || LaterEvent(s.server.log, a, start.server.published, start.link.sub.frontier)
  {
    RunKeepsInv(Init, before);
    StartedAbove(start);
    var started := Apply(start, StartLive);
    StartIsKept(started, between, start.server.log, started.link.sub.floor);
    MarkerCovers(start.server.log, start.server.published, start.link.sub.frontier, s, started.link.sub.floor, a);
  }

  // ----- The snapshot -----

  ghost function SnapshotsDelivered(s: State, steps: seq<Step>): nat
    requires ValidRun(s, steps)
    decreases |steps|
  {
    if steps == [] then 0
    else (if steps[0].Deliver? && s.link.sub.pending[0].Snapshot? then 1 else 0) + SnapshotsDelivered(Apply(s, steps[0]), steps[1..])
  }

  ghost function SnapshotsToCome(sub: Subscription): nat {
    (if sub.phase.SnapshotNeeded? then 1 else 0) + (if SnapshotPending(sub) then 1 else 0)
  }

  lemma NextKeepsSnapshots(s: State, sub: Subscription, step: Step)
    requires SubEnabled(s, sub, step) && !step.ReadRow? && !step.Deliver? && !step.ReadHead?
    requires sub.phase.SnapshotNeeded? || sub.phase.MarkerQueued? ==> sub.pending == []
    ensures SnapshotsToCome(NextSub(s, sub, step)) == SnapshotsToCome(sub) && !NextSub(s, sub, step).phase.Attached?
  {
    match step
    case CoalesceReplay(count) => PlanIsNoSnapshot(Inputs(sub.phase.fetched[..count]));
    case TakeAll => PlanIsNoSnapshot(sub.queue[..|sub.queue|]);
    case TakeLive(count) => PlanIsNoSnapshot(sub.queue[..count]);
    case _ =>
  }

  lemma StepKeepsSnapshots(s: State, step: Step)
    requires Inv(s) && s.link.Up? && Enabled(s, step) && !step.Disconnect? && !s.link.sub.phase.Attached?
    ensures Apply(s, step).link.Up? && !Apply(s, step).link.sub.phase.Attached?
    ensures SnapshotsToCome(s.link.sub) == SnapshotsToCome(Apply(s, step).link.sub) + if step.Deliver? && s.link.sub.pending[0].Snapshot? then 1 else 0
  {
    if !step.Commit? && !step.AdvanceHead? && !step.Publish? && !step.ReadRow? && !step.Deliver? {
      NextKeepsSnapshots(s, s.link.sub, step);
    }
  }

  lemma {:induction false} RunKeepsSnapshots(s: State, steps: seq<Step>)
    requires Inv(s) && s.link.Up? && !s.link.sub.phase.Attached? && ValidRun(s, steps) && StaysConnected(steps)
    ensures Run(s, steps).link.Up?
    ensures SnapshotsToCome(s.link.sub) == SnapshotsToCome(Run(s, steps).link.sub) + SnapshotsDelivered(s, steps)
    decreases |steps|
  {
    if steps != [] {
      StepKeepsInv(s, steps[0]);
      StepKeepsSnapshots(s, steps[0]);
      RunKeepsSnapshots(Apply(s, steps[0]), steps[1..]);
    }
  }

  lemma StepWaits(s: State, step: Step)
    requires Inv(s) && s.link.Up? && s.link.sub.phase.Attached? && Enabled(s, step) && !step.Disconnect? && !step.ReadHead?
    ensures Apply(s, step).link.Up? && Apply(s, step).link.sub.phase == s.link.sub.phase
  {
  }

  /** Until the head is read, nothing but the server and its buffer moves. */
  lemma {:induction false} WaitsAttached(s: State, steps: seq<Step>)
    requires Inv(s) && s.link.Up? && s.link.sub.phase.Attached? && ValidRun(s, steps) && StaysConnected(steps)
    requires forall i :: 0 <= i < |steps| ==> !steps[i].ReadHead?
    ensures Run(s, steps).link.Up? && Run(s, steps).link.sub.phase == s.link.sub.phase
    decreases |steps|
  {
    if steps != [] {
      StepKeepsInv(s, steps[0]);
      StepWaits(s, steps[0]);
      WaitsAttached(Apply(s, steps[0]), steps[1..]);
    }
  }

  predicate Resumes(after: Option<nat>, head: nat, withinBudget: bool) {
    after.Some? && after.value <= head <= after.value + 1000 && withinBudget
  }

  lemma SnapshotsFromHead(s: State, withinBudget: bool, after: seq<Step>)
    requires Inv(s) && Enabled(s, ReadHead(withinBudget))
    requires ValidRun(Apply(s, ReadHead(withinBudget)), after) && StaysConnected(after)
    ensures var s' := Apply(s, ReadHead(withinBudget));
      var snapshots := if Resumes(s.link.sub.phase.after, s.server.head, withinBudget) then 0 else 1;
      && SnapshotsDelivered(s', after) <= snapshots
      && (Quiet(Run(s', after)) ==> SnapshotsDelivered(s', after) == snapshots)
  {
    var s' := Apply(s, ReadHead(withinBudget));
    StepKeepsInv(s, ReadHead(withinBudget));
    RunKeepsSnapshots(s', after);
  }

  lemma HeadAfterSubscribe(s: State, useCursor: bool, wantsMarker: bool, waiting: seq<Step>)
    requires Inv(s) && Enabled(s, Subscribe(useCursor, wantsMarker))
    requires ValidRun(Apply(s, Subscribe(useCursor, wantsMarker)), waiting) && StaysConnected(waiting)
    requires forall i :: 0 <= i < |waiting| ==> !waiting[i].ReadHead?
    ensures var s' := Run(Apply(s, Subscribe(useCursor, wantsMarker)), waiting);
      && Inv(s') && s'.link.Up?
      && s'.link.sub.phase == Attached(if useCursor then Some(s.client.value.cursor) else None)
  {
    var attached := Apply(s, Subscribe(useCursor, wantsMarker));
    StepKeepsInv(s, Subscribe(useCursor, wantsMarker));
    WaitsAttached(attached, waiting);
    RunKeepsInv(attached, waiting);
  }

  /** A connection replays exactly if it comes with a cursor, the head it reads is at or ahead of that cursor
      by at most 1000 sequences, and the replay fits its budget. Then no snapshot is delivered in the whole
      connection, and otherwise exactly one. */
  lemma SnapshotDeliveredExactly(before: seq<Step>, useCursor: bool, wantsMarker: bool, waiting: seq<Step>,
                                 s: State, withinBudget: bool, after: seq<Step>)
    requires ValidRun(Init, before) && Enabled(Run(Init, before), Subscribe(useCursor, wantsMarker))
    requires ValidRun(Apply(Run(Init, before), Subscribe(useCursor, wantsMarker)), waiting) && StaysConnected(waiting)
    requires forall i :: 0 <= i < |waiting| ==> !waiting[i].ReadHead?
    requires s == Run(Apply(Run(Init, before), Subscribe(useCursor, wantsMarker)), waiting) && Enabled(s, ReadHead(withinBudget))
    requires ValidRun(Apply(s, ReadHead(withinBudget)), after) && StaysConnected(after)
    ensures var cursor := if useCursor then Some(Run(Init, before).client.value.cursor) else None;
      var snapshots := if Resumes(cursor, s.server.head, withinBudget) then 0 else 1;
      && SnapshotsDelivered(Apply(s, ReadHead(withinBudget)), after) <= snapshots
      && (Quiet(Run(Apply(s, ReadHead(withinBudget)), after)) ==>
            SnapshotsDelivered(Apply(s, ReadHead(withinBudget)), after) == snapshots)
  {
    RunKeepsInv(Init, before);
    HeadAfterSubscribe(Run(Init, before), useCursor, wantsMarker, waiting);
    SnapshotsFromHead(s, withinBudget, after);
  }

  // ----- One aggregate on its own -----

  /** No read of the aggregate fails in the step and no event of it is committed that the stream does not handle. */
  ghost predicate CleanFor(s: State, step: Step, a: Aggregate)
    requires Enabled(s, step)
  {
    && (step.ReadRow? && s.link.sub.pending[step.slot].event.aggregate == a ==> step.ok)
    && (step.Commit? ==> forall i :: 0 <= i < |step.events| && step.events[i].aggregate == a ==> Handled(step.events[i]))
  }

  ghost predicate RunCleanFor(s: State, steps: seq<Step>, a: Aggregate)
    requires ValidRun(s, steps)
    decreases |steps|
  {
    steps == [] || (CleanFor(s, steps[0], a) && RunCleanFor(Apply(s, steps[0]), steps[1..], a))
  }

  ghost predicate NotLost(s: State, a: Aggregate) {
    a !in s.lost && forall i :: 0 <= i < |s.server.log| && s.server.log[i].aggregate == a ==> Handled(s.server.log[i])
  }

  lemma CleanForStep(s: State, step: Step, a: Aggregate)
    requires Inv(s) && NotLost(s, a) && Enabled(s, step) && CleanFor(s, step, a)
    ensures NotLost(Apply(s, step), a)
  {
    if step.ReadRow? {
      assert !SnapshotPending(s.link.sub);
      assert SlotOk(s.link.sub.pending[step.slot], s.server, s.link.sub.frontier);
    }
  }

  lemma {:induction false} CleanForRun(s: State, steps: seq<Step>, a: Aggregate)
    requires Inv(s) && NotLost(s, a) && ValidRun(s, steps) && RunCleanFor(s, steps, a)
    ensures NotLost(Run(s, steps), a)
    decreases |steps|
  {
    if steps != [] {
      StepKeepsInv(s, steps[0]);
      CleanForStep(s, steps[0], a);
      CleanForRun(Apply(s, steps[0]), steps[1..], a);
    }
  }

  /** A failed read costs no row but its own: an aggregate none of whose reads failed is shown as the server
      has it at quiet, whatever happened to the others. */
  lemma ConvergesFor(steps: seq<Step>, a: Aggregate)
    requires ValidRun(Init, steps) && Quiet(Run(Init, steps)) && RunCleanFor(Init, steps, a)
    ensures Run(Init, steps).client.Some?
    ensures SameRow(Run(Init, steps).client.value.rows, Run(Init, steps).server.rows, a)
  {
    CleanForRun(Init, steps, a);
    Converges(steps, a);
  }
}
