/** What a failed refetch does: which rows stay behind, for how long, and what brings them back. */
module ShellStranding {
  import opened Prelude
  import opened ShellCoalescing
  import opened ShellProtocol
  import opened ShellConvergence
  import opened ShellProgress

  // ----- After a failed read, for the rest of a connection -----

  /** Nothing of the aggregate is left between the log and the client: what is to be delivered of it gave
      no item, and no event of it is to be fetched or taken. */
  ghost predicate NothingComing(sub: Subscription, log: seq<ShellEvent>, a: Aggregate) {
    && !sub.phase.Attached? && !sub.phase.SnapshotNeeded? && !SnapshotPending(sub)
    && (forall k :: 0 <= k < |sub.pending| && sub.pending[k].Refetch? && sub.pending[k].event.aggregate == a ==> sub.pending[k].result.NoItem?)
    && (forall i :: sub.taken <= i < |log| ==> log[i].aggregate != a)
    && (sub.phase.Replaying? ==>
          && (forall k :: 0 <= k < |sub.phase.fetched| ==> sub.phase.fetched[k].aggregate != a)
          && (forall i :: 0 <= i < |log| && log[i].sequence > sub.phase.read ==> log[i].aggregate != a))
  }

  predicate Stays(step: Step) {
    !step.Disconnect? && !step.LoadOverHttp?
  }

  ghost predicate LeavesAlone(step: Step, a: Aggregate) {
    step.Commit? ==> !Touches(step.events, a)
  }

  lemma PlannedIsOther(inputs: seq<LiveInput>, a: Aggregate, k: nat)
    requires forall event <- EventsOf(inputs) :: event.aggregate != a
    requires k < |Plan(inputs, [])| && Plan(inputs, [])[k].Refetch?
    ensures Plan(inputs, [])[k].event.aggregate != a
  {
    PlanIsSound(inputs, [], k);
    assert [] + EventsOf(inputs) == EventsOf(inputs);
  }

  lemma PlanOfOthers(inputs: seq<LiveInput>, a: Aggregate)
    requires forall event <- EventsOf(inputs) :: event.aggregate != a
    ensures forall k :: 0 <= k < |Plan(inputs, [])| && Plan(inputs, [])[k].Refetch? ==> Plan(inputs, [])[k].event.aggregate != a
  {
    forall k | 0 <= k < |Plan(inputs, [])| && Plan(inputs, [])[k].Refetch?
      ensures Plan(inputs, [])[k].event.aggregate != a
    {
      PlannedIsOther(inputs, a, k);
    }
  }

  /** The events of the beginning of the buffer are the log's from `taken` on. */
  lemma BufferedEvents(sub: Subscription, sv: Server, count: nat)
    requires QueueOk(sub, sv) && 0 < count <= |sub.queue| && (sub.phase.MarkerQueued? ==> count == |sub.queue|)
    ensures var events := EventsOf(sub.queue[..count]);
      sub.taken + |events| <= |sv.log| && events == sv.log[sub.taken..sub.taken + |events|]
  {
    if sub.phase.MarkerQueued? {
      MarkedQueueEvents(sub, sv);
      assert sub.queue[..count] == sub.queue;
    } else {
      assert sub.queue[..count] == Inputs(sv.log[sub.taken..sub.taken + count]);
      InputsAreEvents(sv.log[sub.taken..sub.taken + count]);
    }
  }

  lemma OthersAreTaken(sub: Subscription, sv: Server, count: nat, a: Aggregate)
    requires QueueOk(sub, sv) && 0 < count <= |sub.queue| && (sub.phase.MarkerQueued? ==> count == |sub.queue|)
    requires forall i :: sub.taken <= i < |sv.log| ==> sv.log[i].aggregate != a
    ensures var sub' := Take(sub, count);
      && (forall k :: 0 <= k < |sub'.pending| && sub'.pending[k].Refetch? ==> sub'.pending[k].event.aggregate != a)
      && sub.taken <= sub'.taken
  {
    BufferedEvents(sub, sv, count);
    PlanOfOthers(sub.queue[..count], a);
  }

  lemma OtherCommit(log: seq<ShellEvent>, events: seq<ShellEvent>, a: Aggregate)
    requires !Touches(events, a)
    ensures forall i :: |log| <= i < |log + events| ==> (log + events)[i].aggregate != a
  {
    assert forall i :: |log| <= i < |log + events| ==> (log + events)[i] == events[i - |log|];
  }

  lemma FetchesOthers(s: State, sub: Subscription, a: Aggregate)
    requires SubEnabled(s, sub, FetchPage) && ServerOk(s.server) && NothingComing(sub, s.server.log, a)
    ensures NothingComing(NextSub(s, sub, FetchPage), s.server.log, a)
  {
    var limit := Min(sub.phase.remaining, READ_PAGE_SIZE);
    var page := PageAfter(s.server.log, sub.phase.read, limit);
    PageIsInRange(s.server.log, sub.phase.read, limit);
    forall k | 0 <= k < |page|
      ensures page[k].aggregate != a
    {
      var i :| 0 <= i < |s.server.log| && s.server.log[i] == page[k];
    }
    assert page != [] ==> LastSequence(page) == page[|page| - 1].sequence;
  }

  lemma CoalescesOthers(s: State, sub: Subscription, count: nat, a: Aggregate)
    requires SubEnabled(s, sub, CoalesceReplay(count)) && NothingComing(sub, s.server.log, a)
    ensures NothingComing(NextSub(s, sub, CoalesceReplay(count)), s.server.log, a)
  {
    var chunk := sub.phase.fetched[..count];
    InputsAreEvents(chunk);
    PlanOfOthers(Inputs(chunk), a);
    PlanIsNoSnapshot(Inputs(chunk));
  }

  lemma PlanIsNoSnapshot(inputs: seq<LiveInput>)
    ensures forall k :: 0 <= k < |Plan(inputs, [])| ==> !Plan(inputs, [])[k].Snapshot?
  {
  }

  /** The steps of the subscription that neither read nor deliver. */
  lemma NothingComesNext(s: State, sub: Subscription, step: Step, a: Aggregate)
    requires ServerOk(s.server) && QueueOk(sub, s.server) && NothingComing(sub, s.server.log, a)
    requires SubEnabled(s, sub, step) && !step.ReadRow? && !step.Deliver?
    ensures NothingComing(NextSub(s, sub, step), s.server.log, a)
  {
    match step
    case FetchPage => FetchesOthers(s, sub, a);
    case CoalesceReplay(count) => CoalescesOthers(s, sub, count, a);
    case TakeAll => OthersAreTaken(sub, s.server, |sub.queue|, a);
    case TakeLive(count) => OthersAreTaken(sub, s.server, count, a);
    case _ =>
  }

  lemma OtherDelivery(s: State, a: Aggregate)
    requires Inv(s) && s.client.Some? && s.link.Up? && NothingComing(s.link.sub, s.server.log, a) && Enabled(s, Deliver)
    ensures var s' := Apply(s, Deliver);
      && s'.client.Some? && s'.server == s.server && s'.link.Up? && NothingComing(s'.link.sub, s.server.log, a)
      && SameRow(s'.client.value.rows, s.client.value.rows, a)
  {
    var sub := s.link.sub;
    assert SlotOk(sub.pending[0], s.server, sub.frontier);
    assert forall k :: 0 <= k < |sub.pending[1..]| ==> sub.pending[1..][k] == sub.pending[k + 1];
  }

  lemma OtherRead(s: State, slot: nat, ok: bool, a: Aggregate)
    requires s.client.Some? && s.link.Up? && NothingComing(s.link.sub, s.server.log, a) && Enabled(s, ReadRow(slot, ok))
    ensures var s' := Apply(s, ReadRow(slot, ok));
      s'.client == s.client && s'.server == s.server && s'.link.Up? && NothingComing(s'.link.sub, s.server.log, a)
  {
  }

  lemma NothingComesStep(s: State, step: Step, a: Aggregate)
    requires Inv(s) && s.client.Some? && s.link.Up? && NothingComing(s.link.sub, s.server.log, a)
    requires Enabled(s, step) && Stays(step) && LeavesAlone(step, a)
    ensures var s' := Apply(s, step);
      && s'.client.Some? && s'.link.Up? && NothingComing(s'.link.sub, s'.server.log, a)
      && SameRow(s'.client.value.rows, s.client.value.rows, a) && SameRow(s'.server.rows, s.server.rows, a)
  {
    if step.Commit? {
      OtherCommit(s.server.log, step.events, a);
    } else if step.ReadRow? {
      OtherRead(s, step.slot, step.ok, a);
    } else if step.Deliver? {
      OtherDelivery(s, a);
    } else if !step.AdvanceHead? && !step.Publish? {
      NothingComesNext(s, s.link.sub, step, a);
    }
  }

  lemma {:induction false} NothingComes(s: State, steps: seq<Step>, a: Aggregate)
    requires Inv(s) && s.client.Some? && s.link.Up? && NothingComing(s.link.sub, s.server.log, a)
    requires ValidRun(s, steps) && forall i :: 0 <= i < |steps| ==> Stays(steps[i]) && LeavesAlone(steps[i], a)
    ensures var s' := Run(s, steps);
      && s'.client.Some?
      && SameRow(s'.client.value.rows, s.client.value.rows, a) && SameRow(s'.server.rows, s.server.rows, a)
    decreases |steps|
  {
    if steps != [] {
      StepKeepsInv(s, steps[0]);
      NothingComesStep(s, steps[0], a);
      NothingComes(Apply(s, steps[0]), steps[1..], a);
    }
  }

  /** A place whose read gave no item, for the latest event of its aggregate, already taken from the
      buffer or published before it was attached; no place before it is of the same aggregate. */
  ghost predicate LostAt(s: State, slot: nat, j: nat) {
    && s.link.Up? && !SnapshotPending(s.link.sub) && slot < |s.link.sub.pending|
    && LastOfAggregate(s.server.log, j) && j < s.link.sub.taken
    && s.link.sub.pending[slot] == Refetch(s.server.log[j], NoItem)
    && forall m :: 0 <= m < slot && s.link.sub.pending[m].Refetch? ==> s.link.sub.pending[m].event.aggregate != s.server.log[j].aggregate
  }

  /** The places behind it are of later events, and so of other aggregates. */
  lemma PlacesBehind(pending: seq<Slot>, sv: Server, frontier: nat, slot: nat, j: nat, m: nat)
    requires Ascending(sv.log) && SlotsOk(pending, sv, frontier) && LastOfAggregate(sv.log, j)
    requires slot < m < |pending| && pending[slot] == Refetch(sv.log[j], NoItem) && pending[m].Refetch?
    ensures pending[m].event.aggregate != sv.log[j].aggregate
  {
    assert SlotOk(pending[m], sv, frontier);
    LaterIsOther(sv.log, j, pending[m].event);
  }

  lemma LostLeavesNothing(s: State, slot: nat, j: nat)
    requires Inv(s) && LostAt(s, slot, j)
    ensures s.client.Some? && NothingComing(s.link.sub, s.server.log, s.server.log[j].aggregate)
  {
    var sub, sv, a := s.link.sub, s.server, s.server.log[j].aggregate;
    assert SlotOk(sub.pending[slot], sv, sub.frontier);
    forall m | 0 <= m < |sub.pending| && sub.pending[m].Refetch? && sub.pending[m].event.aggregate == a
      ensures sub.pending[m].result.NoItem?
    {
      if slot < m {
        PlacesBehind(sub.pending, sv, sub.frontier, slot, j, m);
      }
    }
    if sub.phase.Replaying? {
      forall e <- sub.phase.fetched
        ensures e.aggregate != a
      {
        var k :| 0 <= k < |sub.phase.fetched| && sub.phase.fetched[k] == e;
        LaterIsOther(sv.log, j, e);
      }
      forall i | 0 <= i < |sv.log| && sv.log[i].sequence > sub.phase.read
        ensures sv.log[i].aggregate != a
      {
        LaterIsOther(sv.log, j, sv.log[i]);
      }
    }
  }

  /** The failed read decides the row: from then on, for as long as the connection lasts and the aggregate
      does not change again, the client's row stays what it is at that moment; so at any later moment, and
      at quiet, it is right exactly if it is right already then. */
  lemma FailedReadKeepsRow(before: seq<Step>, slot: nat, j: nat, after: seq<Step>)
    requires ValidRun(Init, before) && LostAt(Run(Init, before), slot, j) && ValidRun(Run(Init, before), after)
    requires forall i :: 0 <= i < |after| ==> Stays(after[i]) && LeavesAlone(after[i], Run(Init, before).server.log[j].aggregate)
    ensures var s, s', a := Run(Init, before), Run(Run(Init, before), after), Run(Init, before).server.log[j].aggregate;
      && s.client.Some? && s'.client.Some?
      && SameRow(s'.client.value.rows, s.client.value.rows, a)
      && (SameRow(s'.client.value.rows, s'.server.rows, a) <==> SameRow(s.client.value.rows, s.server.rows, a))
  {
    RunKeepsInv(Init, before);
    LostLeavesNothing(Run(Init, before), slot, j);
    NothingComes(Run(Init, before), after, Run(Init, before).server.log[j].aggregate);
  }

  // Once live, every place comes from what was taken.

  ghost predicate InTaken(log: seq<ShellEvent>, taken: nat, e: ShellEvent) {
    exists j :: 0 <= j < taken <= |log| && log[j] == e
  }

  ghost predicate LiveIsTaken(s: State) {
    s.link.Up? && s.link.sub.phase.Live? ==>
      forall k :: 0 <= k < |s.link.sub.pending| && s.link.sub.pending[k].Refetch? ==>
        InTaken(s.server.log, s.link.sub.taken, s.link.sub.pending[k].event)
  }

  lemma PlannedIsTaken(inputs: seq<LiveInput>, log: seq<ShellEvent>, from: nat, to: nat, k: nat)
    requires from <= to <= |log| && EventsOf(inputs) == log[from..to]
    requires k < |Plan(inputs, [])| && Plan(inputs, [])[k].Refetch?
    ensures InTaken(log, to, Plan(inputs, [])[k].event)
  {
    PlanIsSound(inputs, [], k);
    assert [] + EventsOf(inputs) == EventsOf(inputs);
    var i :| 0 <= i < to - from && log[from..to][i] == Plan(inputs, [])[k].event;
    assert log[from + i] == Plan(inputs, [])[k].event;
  }

  lemma TakeTakes(sub: Subscription, sv: Server, count: nat)
    requires QueueOk(sub, sv) && 0 < count <= |sub.queue| && (sub.phase.MarkerQueued? ==> count == |sub.queue|)
    ensures var sub' := Take(sub, count);
      forall k :: 0 <= k < |sub'.pending| && sub'.pending[k].Refetch? ==> InTaken(sv.log, sub'.taken, sub'.pending[k].event)
  {
    var inputs := sub.queue[..count];
    BufferedEvents(sub, sv, count);
    forall k | 0 <= k < |Plan(inputs, [])| && Plan(inputs, [])[k].Refetch?
      ensures InTaken(sv.log, sub.taken + |EventsOf(inputs)|, Plan(inputs, [])[k].event)
    {
      PlannedIsTaken(inputs, sv.log, sub.taken, sub.taken + |EventsOf(inputs)|, k);
    }
  }

  lemma LongerLogTakes(log: seq<ShellEvent>, events: seq<ShellEvent>, taken: nat, pending: seq<Slot>)
    requires forall k :: 0 <= k < |pending| && pending[k].Refetch? ==> InTaken(log, taken, pending[k].event)
    ensures forall k :: 0 <= k < |pending| && pending[k].Refetch? ==> InTaken(log + events, taken, pending[k].event)
  {
    forall k | 0 <= k < |pending| && pending[k].Refetch?
      ensures InTaken(log + events, taken, pending[k].event)
    {
      var j :| 0 <= j < taken <= |log| && log[j] == pending[k].event;
      assert (log + events)[j] == pending[k].event;
    }
  }

  lemma StepKeepsTaken(s: State, step: Step)
    requires Inv(s) && LiveIsTaken(s) && Enabled(s, step)
    ensures LiveIsTaken(Apply(s, step))
  {
    match step
    case Commit(events, _) =>
      if s.link.Up? && s.link.sub.phase.Live? {
        LongerLogTakes(s.server.log, events, s.link.sub.taken, s.link.sub.pending);
      }
    case TakeAll => TakeTakes(s.link.sub, s.server, |s.link.sub.queue|);
    case TakeLive(count) => TakeTakes(s.link.sub, s.server, count);
    case _ =>
  }

  lemma {:induction false} RunKeepsTaken(s: State, steps: seq<Step>)
    requires Inv(s) && LiveIsTaken(s) && ValidRun(s, steps)
    ensures LiveIsTaken(Run(s, steps))
    decreases |steps|
  {
    if steps != [] {
      StepKeepsInv(s, steps[0]);
      StepKeepsTaken(s, steps[0]);
      RunKeepsTaken(Apply(s, steps[0]), steps[1..]);
    }
  }

  /** In the live phase that is every failed read of a latest event that is about to be passed over. */
  lemma FailedLiveReadKeepsRow(before: seq<Step>, e: ShellEvent, after: seq<Step>)
    requires ValidRun(Init, before)
    requires var s := Run(Init, before);
      && s.link.Up? && s.link.sub.phase.Live? && s.link.sub.pending != [] && s.link.sub.pending[0] == Refetch(e, NoItem)
      && IsLatest(s.server.log, e)
    requires ValidRun(Run(Init, before), after) && forall i :: 0 <= i < |after| ==> Stays(after[i]) && LeavesAlone(after[i], e.aggregate)
    ensures var s, s' := Run(Init, before), Run(Run(Init, before), after);
      && s.client.Some? && s'.client.Some?
      && SameRow(s'.client.value.rows, s.client.value.rows, e.aggregate)
      && (SameRow(s'.client.value.rows, s'.server.rows, e.aggregate) <==> SameRow(s.client.value.rows, s.server.rows, e.aggregate))
  {
    RunKeepsInv(Init, before);
    RunKeepsTaken(Init, before);
    var s := Run(Init, before);
    assert InTaken(s.server.log, s.link.sub.taken, s.link.sub.pending[0].event);
    var j := TakenIndex(s.server.log, s.link.sub.taken, e);
    FailedReadKeepsRow(before, 0, j, after);
  }

  lemma TakenIndex(log: seq<ShellEvent>, taken: nat, e: ShellEvent) returns (j: nat)
    requires Ascending(log) && InTaken(log, taken, e) && IsLatest(log, e)
    ensures j < taken && LastOfAggregate(log, j) && log[j] == e
  {
    var i :| 0 <= i < taken <= |log| && log[i] == e;
    j :| LastOfAggregate(log, j) && log[j] == e;
  }

  /** A quiet client that is wrong about an aggregate stays wrong, and one that is right stays right, as
      long as the connection lasts and the aggregate does not change again. */
  lemma QuietRowStays(before: seq<Step>, after: seq<Step>, a: Aggregate)
    requires ValidRun(Init, before) && Quiet(Run(Init, before)) && ValidRun(Run(Init, before), after)
    requires forall i :: 0 <= i < |after| ==> Stays(after[i]) && LeavesAlone(after[i], a)
    ensures var s, s' := Run(Init, before), Run(Run(Init, before), after);
      && s.client.Some? && s'.client.Some?
      && SameRow(s'.client.value.rows, s.client.value.rows, a)
      && (SameRow(s'.client.value.rows, s'.server.rows, a) <==> SameRow(s.client.value.rows, s.server.rows, a))
  {
    RunKeepsInv(Init, before);
    var s := Run(Init, before);
    QuietIsDrained(s.link.sub, s.server);
    NothingComes(s, after, a);
  }

  // ----- Stranded across connections -----

  /** The step neither changes the aggregate nor gives the client everything anew. */
  ghost predicate NoReload(s: State, step: Step, a: Aggregate)
    requires Enabled(s, step)
  {
    LeavesAlone(step, a) && !step.LoadOverHttp? && (step.Deliver? ==> !s.link.sub.pending[0].Snapshot?)
  }

  ghost predicate RunWithoutReload(s: State, steps: seq<Step>, a: Aggregate)
    requires ValidRun(s, steps)
    decreases |steps|
  {
    steps == [] || (NoReload(s, steps[0], a) && RunWithoutReload(Apply(s, steps[0]), steps[1..], a))
  }

  lemma OtherEventsAbove(log: seq<ShellEvent>, events: seq<ShellEvent>, a: Aggregate, cursor: nat)
    requires !Touches(events, a) && !EventAbove(log, a, cursor)
    ensures !EventAbove(log + events, a, cursor)
  {
    assert forall i :: |log| <= i < |log + events| ==> (log + events)[i] == events[i - |log|];
  }

  /** The cursor has passed every event of the aggregate: what still arrives of them is dropped. */
  lemma PassedStep(s: State, step: Step, a: Aggregate)
    requires Inv(s) && s.client.Some? && !EventAbove(s.server.log, a, s.client.value.cursor)
    requires Enabled(s, step) && NoReload(s, step, a)
    ensures var s' := Apply(s, step);
      && s'.client.Some? && !EventAbove(s'.server.log, a, s'.client.value.cursor)
      && SameRow(s'.client.value.rows, s.client.value.rows, a) && SameRow(s'.server.rows, s.server.rows, a)
  {
    match step
    case Commit(events, _) => OtherEventsAbove(s.server.log, events, a, s.client.value.cursor);
    case Deliver => PassedDelivery(s, a);
    case _ =>
  }

  lemma PassedDelivery(s: State, a: Aggregate)
    requires Inv(s) && s.client.Some? && !EventAbove(s.server.log, a, s.client.value.cursor)
    requires Enabled(s, Deliver) && !s.link.sub.pending[0].Snapshot?
    ensures var s' := Apply(s, Deliver);
      && s'.server == s.server && s'.client.Some? && s'.client.value.cursor >= s.client.value.cursor
      && SameRow(s'.client.value.rows, s.client.value.rows, a)
  {
    assert !SnapshotPending(s.link.sub);
    assert SlotOk(s.link.sub.pending[0], s.server, s.link.sub.frontier);
  }

  lemma {:induction false} PassedStays(s: State, steps: seq<Step>, a: Aggregate)
    requires Inv(s) && s.client.Some? && !EventAbove(s.server.log, a, s.client.value.cursor)
    requires ValidRun(s, steps) && RunWithoutReload(s, steps, a)
    ensures var s' := Run(s, steps);
      && s'.client.Some? && !EventAbove(s'.server.log, a, s'.client.value.cursor)
      && SameRow(s'.client.value.rows, s.client.value.rows, a) && SameRow(s'.server.rows, s.server.rows, a)
    decreases |steps|
  {
    if steps != [] {
      StepKeepsInv(s, steps[0]);
      PassedStep(s, steps[0], a);
      PassedStays(Apply(s, steps[0]), steps[1..], a);
    }
  }

  /** Once the cursor has passed a row that is behind, no disconnect and no resume brings it back: it
      stays behind until the aggregate changes again or the client takes a snapshot or loads over HTTP. */
  lemma StrandedStaysStranded(before: seq<Step>, after: seq<Step>, a: Aggregate)
    requires ValidRun(Init, before) && Run(Init, before).client.Some?
    requires IsStranded(Run(Init, before).server, Run(Init, before).client.value, a)
    requires ValidRun(Run(Init, before), after) && RunWithoutReload(Run(Init, before), after, a)
    ensures var s := Run(Run(Init, before), after); s.client.Some? && IsStranded(s.server, s.client.value, a)
  {
    RunKeepsInv(Init, before);
    PassedStays(Run(Init, before), after, a);
  }

  /** That is what the next item of any other aggregate makes of a row that was missed: it moves the cursor
      past the row's last event, and the row is stranded exactly if it is wrong. */
  lemma DeliveryPassesRow(before: seq<Step>, a: Aggregate)
    requires ValidRun(Init, before) && Enabled(Run(Init, before), Deliver)
    requires var s := Run(Init, before);
      && s.client.Some? && s.link.sub.pending[0].Refetch? && s.link.sub.pending[0].result.Item?
      && s.link.sub.pending[0].event.aggregate != a && s.client.value.cursor < s.link.sub.pending[0].event.sequence
      && !EventAbove(s.server.log, a, s.link.sub.pending[0].event.sequence)
    ensures var s, s' := Run(Init, before), Apply(Run(Init, before), Deliver);
      && s'.client.Some? && s'.client.value.cursor == s.link.sub.pending[0].event.sequence
      && (IsStranded(s'.server, s'.client.value, a) <==> !SameRow(s.client.value.rows, s.server.rows, a))
  {
    RunKeepsInv(Init, before);
    var s := Run(Init, before);
    assert !SnapshotPending(s.link.sub);
    assert SlotOk(s.link.sub.pending[0], s.server, s.link.sub.frontier);
    ItemApplied(s.client.value, s.link.sub.pending[0].result.item, s.server);
  }

  /** And that is the only way to be left behind: a disconnected client with no stranded row resumes
      from its cursor to the whole projection, whatever reads failed before. */
  lemma ResumeRepairs(steps: seq<Step>, wantsMarker: bool) returns (more: seq<Step>)
    requires ValidRun(Init, steps)
    requires var s := Run(Init, steps);
      && s.link.Down? && s.client.Some?
      && (forall a: Aggregate :: !IsStranded(s.server, s.client.value, a))
      && (forall i :: 0 <= i < |s.server.log| ==> Handled(s.server.log[i]))
    ensures ValidRun(Run(Init, steps), [Subscribe(true, wantsMarker)] + more)
    ensures forall i :: 0 <= i < |more| ==> Internal(more[i])
    ensures var s := Run(Run(Init, steps), [Subscribe(true, wantsMarker)] + more);
      Quiet(s) && s.client.Some? && s.client.value.rows == s.server.rows
  {
    var s := Run(Init, steps);
    RunKeepsInv(Init, steps);
    var resume := Subscribe(true, wantsMarker);
    var s1 := Apply(s, resume);
    StepKeepsInv(s, resume);
    assert s1.lost == {};
    more := DrainsToQuiet(s1);
    CleanRun(s1, more);
    assert ([resume] + more)[1..] == more;
    RunAppend(Init, steps, [resume] + more);
    QuietShowsAll(steps + ([resume] + more));
  }

  lemma QuietShowsAll(steps: seq<Step>)
    requires ValidRun(Init, steps) && Quiet(Run(Init, steps)) && Run(Init, steps).lost == {}
    ensures Run(Init, steps).client.Some? && Run(Init, steps).client.value.rows == Run(Init, steps).server.rows
  {
    var s := Run(Init, steps);
    Converges(steps, Aggregate(Thread, ""));
    forall a: Aggregate
      ensures SameRow(s.client.value.rows, s.server.rows, a)
    {
      Converges(steps, a);
    }
    SameEverywhere(s.client.value.rows, s.server.rows);
  }

  // ----- One failed refetch -----

  const SOME_THREAD := Aggregate(Thread, "t")

  function Touch(sequence: nat): ShellEvent { ShellEvent(OtherType, SOME_THREAD, sequence) }

  ghost predicate Reachable(s: State) {
    exists steps :: ValidRun(Init, steps) && Run(Init, steps) == s
  }

  lemma Reach(s: State, step: Step)
    requires Reachable(s) && Enabled(s, step)
    ensures Reachable(Apply(s, step))
  {
    var steps :| ValidRun(Init, steps) && Run(Init, steps) == s;
    assert [step][1..] == [];
    RunAppend(Init, steps, [step]);
    assert Run(s, [step]) == Apply(s, step);
  }

  lemma PlanOfOne(e: ShellEvent)
    ensures Plan([Event(e)], []) == [Refetch(e, Unread)]
  {
    assert [Event(e)][1..] == [];
    assert [] + [e] == [e];
    assert Survivors([e]) == [e];
  }

  lemma FirstCommitPublished() returns (s: State)
    ensures Reachable(s) && s == State(Server([Touch(1)], map[SOME_THREAD := "old"], 1, 1), None, Down, {})
  {
    assert ValidRun(Init, []) && Run(Init, []) == Init;
    var rows := map[SOME_THREAD := "old"];
    var s1 := StepTo(Init, Commit([Touch(1)], rows)) by { CommitOne(Init.server, Touch(1), rows); }
    var s2 := StepTo(s1, AdvanceHead);
    s := StepTo(s2, Publish);
    assert s.lost == {};
  }

  /** A connected client that has delivered a snapshot of one thread. */
  lemma ConnectedClient() returns (s: State)
    ensures Reachable(s)
    ensures s == State(Server([Touch(1)], map[SOME_THREAD := "old"], 1, 1),
                       Some(Client(map[SOME_THREAD := "old"], 1)),
                       Up(Subscription(Live, false, [], [], 1, 1, 0, 0)), {})
  {
    var s3 := FirstCommitPublished();
    var s4 := StepTo(s3, Subscribe(false, false));
    var s5 := StepTo(s4, ReadHead(true));
    var s6 := StepTo(s5, LoadSnapshot);
    var s7 := StepTo(s6, Deliver);
    s := StepTo(s7, StartLive);
    assert s.lost == {};
  }

  lemma StepTo(s: State, step: Step) returns (s': State)
    requires Reachable(s) && Enabled(s, step)
    ensures s' == Apply(s, step) && Reachable(s')
  {
    s' := Apply(s, step);
    Reach(s, step);
  }

  lemma CommitOne(sv: Server, e: ShellEvent, rows: map<Aggregate, Row>)
    requires LastSequence(sv.log) < e.sequence && !IsRemoval(e.eventType)
    requires forall a: Aggregate :: a != e.aggregate ==> SameRow(rows, sv.rows, a)
    ensures CanCommit(sv, [e], rows)
  {
    assert [e][0].aggregate == e.aggregate;
    assert Touches([e], e.aggregate);
  }

  /** The same client, once the thread has changed to "new", with that change at a given place. */
  ghost function Changed(queue: seq<LiveInput>, pending: seq<Slot>, taken: nat, lost: set<Aggregate>): State {
    State(Server([Touch(1), Touch(2)], map[SOME_THREAD := "new"], 2, 2),
          Some(Client(map[SOME_THREAD := "old"], 1)),
          Up(Subscription(Live, false, queue, pending, taken, taken, 0, 0)), lost)
  }

  lemma ChangeBuffered()
    ensures Reachable(Changed([Event(Touch(2))], [], 1, {}))
  {
    var s0 := ConnectedClient();
    var rows := map[SOME_THREAD := "new"];
    var s1 := StepTo(s0, Commit([Touch(2)], rows)) by { CommitOne(s0.server, Touch(2), rows); }
    assert s1.server.log == [Touch(1), Touch(2)] && s1.lost == {};
    var s2 := StepTo(s1, AdvanceHead);
    var s3 := StepTo(s2, Publish);
    assert s3.link.sub.queue == [Event(Touch(2))];
  }

  lemma ChangeTaken()
    ensures Reachable(Changed([], [Refetch(Touch(2), Unread)], 2, {}))
  {
    ChangeBuffered();
    var s3 := Changed([Event(Touch(2))], [], 1, {});
    assert s3.link.sub.queue[..1] == [Event(Touch(2))] && s3.link.sub.queue[1..] == [];
    PlanOfOne(Touch(2));
    var s4 := StepTo(s3, TakeLive(1));
  }

  lemma ReadFails()
    ensures Reachable(Changed([], [Refetch(Touch(2), NoItem)], 2, {SOME_THREAD}))
  {
    ChangeTaken();
    var s4 := Changed([], [Refetch(Touch(2), Unread)], 2, {});
    assert LastOfAggregate(s4.server.log, 1);
    var s5 := StepTo(s4, ReadRow(0, false));
    assert s5.link.sub.pending == [Refetch(Touch(2), NoItem)] && s5.lost == {SOME_THREAD};
  }

  /** When both reads of a refetch fail the item is dropped, and a quiet client stays behind until
      the aggregate changes again. */
  lemma FailedReadStrandsRow() returns (s: State)
    ensures Reachable(s) && Quiet(s) && s.client.Some? && s.client.value.rows != s.server.rows
  {
    ReadFails();
    var s5 := Changed([], [Refetch(Touch(2), NoItem)], 2, {SOME_THREAD});
    s := StepTo(s5, Deliver);
    assert s.client.value.rows[SOME_THREAD] != s.server.rows[SOME_THREAD];
  }

  const OTHER_THREAD := Aggregate(Thread, "u")

  const OtherTouch := ShellEvent(OtherType, OTHER_THREAD, 3)

  /** The client that missed "new", once the other thread has changed as well. */
  ghost function AlsoChanged(client: Client, queue: seq<LiveInput>, pending: seq<Slot>, taken: nat): State {
    State(Server([Touch(1), Touch(2), OtherTouch], map[SOME_THREAD := "new", OTHER_THREAD := "other"], 3, 3),
          Some(client), Up(Subscription(Live, false, queue, pending, taken, taken, 0, 0)), {SOME_THREAD})
  }

  lemma OtherChangeBuffered()
    ensures Reachable(AlsoChanged(Client(map[SOME_THREAD := "old"], 1), [Event(OtherTouch)], [], 2))
  {
    ReadFails();
    var s5 := Changed([], [Refetch(Touch(2), NoItem)], 2, {SOME_THREAD});
    var s6 := StepTo(s5, Deliver);
    var rows := map[SOME_THREAD := "new", OTHER_THREAD := "other"];
    var s7 := StepTo(s6, Commit([OtherTouch], rows)) by { CommitOne(s6.server, OtherTouch, rows); }
    assert s7.server.log == [Touch(1), Touch(2), OtherTouch];
    assert !Touches([OtherTouch], SOME_THREAD) && s7.lost == {SOME_THREAD};
    var s8 := StepTo(s7, AdvanceHead);
    var s9 := StepTo(s8, Publish);
    assert s8.server == s7.server.(head := 3) && s9.server.rows == rows && s9.lost == {SOME_THREAD};
    assert s9.link.sub == Subscription(Live, false, [Event(OtherTouch)], [], 2, 2, 0, 0);
    assert s9 == AlsoChanged(Client(map[SOME_THREAD := "old"], 1), [Event(OtherTouch)], [], 2);
  }

  lemma OtherChangeTaken()
    ensures Reachable(AlsoChanged(Client(map[SOME_THREAD := "old"], 1), [], [Refetch(OtherTouch, Unread)], 3))
  {
    OtherChangeBuffered();
    var s9 := AlsoChanged(Client(map[SOME_THREAD := "old"], 1), [Event(OtherTouch)], [], 2);
    assert s9.link.sub.queue[..1] == [Event(OtherTouch)] && s9.link.sub.queue[1..] == [];
    PlanOfOne(OtherTouch);
    InputsAreEvents([OtherTouch]);
    assert EventsOf([Event(OtherTouch)]) == [OtherTouch];
    var s10 := StepTo(s9, TakeLive(1));
    assert s10.link.sub == Subscription(Live, false, [], [Refetch(OtherTouch, Unread)], 3, 3, 0, 0);
  }

  lemma OtherChangeRead()
    ensures Reachable(AlsoChanged(Client(map[SOME_THREAD := "old"], 1), [], [Refetch(OtherTouch, Item(Upserted(3, OTHER_THREAD, "other")))], 3))
  {
    OtherChangeTaken();
    var s10 := AlsoChanged(Client(map[SOME_THREAD := "old"], 1), [], [Refetch(OtherTouch, Unread)], 3);
    var s11 := StepTo(s10, ReadRow(0, true));
    assert s11.link.sub.pending == [Refetch(OtherTouch, Item(Upserted(3, OTHER_THREAD, "other")))];
  }

  /** The next item, of any other aggregate, then moves the cursor past the row that was missed. */
  lemma FailedReadIsPassed() returns (s: State)
    ensures Reachable(s) && Quiet(s) && s.client.Some? && IsStranded(s.server, s.client.value, SOME_THREAD)
  {
    var read := [Refetch(OtherTouch, Item(Upserted(3, OTHER_THREAD, "other")))];
    OtherChangeRead();
    var s11 := AlsoChanged(Client(map[SOME_THREAD := "old"], 1), [], read, 3);
    s := StepTo(s11, Deliver);
    assert s.client.value == Client(map[SOME_THREAD := "old", OTHER_THREAD := "other"], 3);
    assert s.server.rows[SOME_THREAD] == "new";
  }
}
