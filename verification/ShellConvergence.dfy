/** Every run of the shell subscription protocol keeps the client recoverable, and a client whose
    subscription has gone quiet shows exactly the server's projection. */
module ShellConvergence {
  import opened Prelude
  import opened ShellCoalescing
  import opened ShellProtocol

  // ----- The invariant -----

  ghost predicate InLog(log: seq<ShellEvent>, e: ShellEvent) {
    exists i :: 0 <= i < |log| && log[i] == e
  }

  ghost predicate ServerOk(sv: Server) {
    && Ascending(sv.log)
    && (forall i :: 0 <= i < |sv.log| ==> sv.log[i].sequence > 0)
    && sv.head <= LastSequence(sv.log)
    && sv.published <= |sv.log|
    && PublishedBelow(sv.log, sv.published, sv.head)
    && RemovedAreGone(sv.log, sv.rows)
  }

  ghost predicate PublishedBelow(log: seq<ShellEvent>, published: nat, head: nat)
    requires published <= |log|
  {
    forall i :: 0 <= i < published ==> log[i].sequence <= head
  }

  ghost predicate RemovedAreGone(log: seq<ShellEvent>, rows: map<Aggregate, Row>) {
    forall i {:trigger LastOfAggregate(log, i)} :: LastOfAggregate(log, i) && IsRemoval(log[i].eventType) ==> log[i].aggregate !in rows
  }

  /** The key property of a cursor: an aggregate the client does not show as the server has it
      has an event above the cursor, so resuming from the cursor will bring it. */
  ghost predicate ViewOk(view: map<Aggregate, Row>, cursor: nat, sv: Server, exempt: set<Aggregate>) {
    && cursor <= LastSequence(sv.log)
    && forall a: Aggregate :: a !in exempt ==> SameRow(view, sv.rows, a) || EventAbove(sv.log, a, cursor)
  }

  ghost predicate Stale(sv: Server, exempt: set<Aggregate>, cursor: nat, i: int) {
    LastOfAggregate(sv.log, i) && sv.log[i].sequence > cursor && sv.log[i].aggregate !in exempt
  }

  ghost predicate HoldsBefore(pending: seq<Slot>, e: ShellEvent, bound: int) {
    exists k :: 0 <= k < bound <= |pending| && pending[k].Refetch? && pending[k].event == e && !pending[k].result.NoItem?
  }

  /** Where an event the client still needs is on its way to the client. */
  ghost predicate Carried(sub: Subscription, log: seq<ShellEvent>, i: int)
    requires 0 <= i < |log|
  {
    if log[i].sequence <= sub.frontier then HoldsBefore(sub.pending, log[i], |sub.pending|)
    else if !sub.phase.Replaying? then i >= sub.taken
    else if log[i].sequence <= sub.phase.read then log[i] in sub.phase.fetched
    else log[i].sequence <= sub.phase.head || i >= sub.taken
  }

  ghost predicate AllCarried(sub: Subscription, sv: Server, exempt: set<Aggregate>, cursor: nat) {
    forall i :: Stale(sv, exempt, cursor, i) ==> Carried(sub, sv.log, i)
  }

  ghost predicate ItemShows(item: ShellItem, rows: map<Aggregate, Row>) {
    match item
    case Upserted(_, aggregate, row) => aggregate in rows && rows[aggregate] == row
    case Removed(_, aggregate) => aggregate !in rows
  }

  ghost predicate SlotOk(slot: Slot, sv: Server, frontier: nat) {
    slot.Refetch? ==>
      && InLog(sv.log, slot.event)
      && slot.event.sequence <= frontier
      && (slot.result.Item? ==>
            && slot.result.item.sequence == slot.event.sequence
            && slot.result.item.aggregate == slot.event.aggregate
            && (ItemShows(slot.result.item, sv.rows) || EventAbove(sv.log, slot.event.aggregate, slot.event.sequence)))
  }

  ghost predicate SlotsOk(pending: seq<Slot>, sv: Server, frontier: nat) {
    && SlotsAscend(pending)
    && (forall k :: 0 <= k < |pending| ==> !pending[k].Snapshot?)
    && (forall k :: 0 <= k < |pending| ==> SlotOk(pending[k], sv, frontier))
  }

  ghost predicate NoMarkSlots(pending: seq<Slot>) {
    forall k :: 0 <= k < |pending| ==> !pending[k].Mark?
  }

  /** The live buffer holds exactly the published part of the log after `taken`, with the
      completion marker, when queued, where the log stood at that moment. */
  ghost predicate QueueOk(sub: Subscription, sv: Server) {
    && sub.taken <= sv.published <= |sv.log|
    && if !sub.phase.MarkerQueued? then sub.queue == Inputs(sv.log[sub.taken..sv.published])
       else sub.taken <= sub.markAt <= sv.published
            && sub.queue == Inputs(sv.log[sub.taken..sub.markAt]) + [Synchronized] + Inputs(sv.log[sub.markAt..sv.published])
  }

  ghost predicate FetchedOk(phase: Phase, frontier: nat, sv: Server)
    requires phase.Replaying?
  {
    && phase.head <= phase.read + phase.remaining
    && phase.head <= LastSequence(sv.log)
    && frontier <= phase.read <= LastSequence(sv.log)
    && Ascending(phase.fetched)
    && (forall k :: 0 <= k < |phase.fetched| ==>
          InLog(sv.log, phase.fetched[k]) && frontier < phase.fetched[k].sequence <= phase.read)
    && phase.read == if phase.fetched == [] then frontier else LastSequence(phase.fetched)
  }

  ghost predicate MarksOk(sub: Subscription, sv: Server, exempt: set<Aggregate>, cursor: nat) {
    forall m, i :: 0 <= m < |sub.pending| && sub.pending[m].Mark?
                && Stale(sv, exempt, cursor, i) && sv.log[i].sequence <= sub.floor
                ==> HoldsBefore(sub.pending, sv.log[i], m)
  }

  ghost predicate SnapshotPending(sub: Subscription) {
    sub.phase.CaughtUp? && |sub.pending| == 1 && sub.pending[0].Snapshot?
  }

  ghost predicate SnapshotOk(sub: Subscription, sv: Server)
    requires SnapshotPending(sub)
  {
    var Snapshot(rows, sequence) := sub.pending[0];
    && sequence == sub.frontier
    && ViewOk(rows, sequence, sv, {})
    && AllCarried(sub, sv, {}, sequence)
  }

  ghost predicate PhaseOk(sub: Subscription, sv: Server, client: Option<Client>, exempt: set<Aggregate>) {
    match sub.phase
    case Attached(after) => sub.pending == [] && (after.Some? ==> client.Some? && client.value.cursor == after.value)
    case SnapshotNeeded => sub.pending == []
    case Replaying(_, _, _, _) =>
      && client.Some? && FetchedOk(sub.phase, sub.frontier, sv)
      && NoMarkSlots(sub.pending)
      && AllCarried(sub, sv, exempt, client.value.cursor)
    case CaughtUp => client.Some? && NoMarkSlots(sub.pending) && AllCarried(sub, sv, exempt, client.value.cursor)
    case MarkerQueued =>
      && client.Some? && sub.pending == []
      && (forall i :: 0 <= i < |sv.log| && sub.frontier < sv.log[i].sequence <= sub.floor ==> i < sub.markAt)
      && AllCarried(sub, sv, exempt, client.value.cursor)
    case Live =>
      && client.Some?
      && AllCarried(sub, sv, exempt, client.value.cursor)
      && MarksOk(sub, sv, exempt, client.value.cursor)
  }

  ghost predicate SubOk(sub: Subscription, sv: Server, client: Option<Client>, exempt: set<Aggregate>) {
    && QueueOk(sub, sv)
    && sub.frontier <= LastSequence(sv.log)
    && sub.floor <= LastSequence(sv.log)
    && if SnapshotPending(sub) then SnapshotOk(sub, sv)
       else SlotsOk(sub.pending, sv, sub.frontier) && PhaseOk(sub, sv, client, exempt)
  }

  ghost predicate Inv(s: State) {
    && ServerOk(s.server)
    && (s.client.Some? ==> ViewOk(s.client.value.rows, s.client.value.cursor, s.server, s.lost))
    && (s.link.Up? ==> SubOk(s.link.sub, s.server, s.client, s.lost))
  }

  // ----- A commit -----

  ghost predicate Extends(sv: Server, sv': Server, events: seq<ShellEvent>) {
    && CanCommit(sv, events, sv'.rows)
    && sv' == sv.(log := sv.log + events, rows := sv'.rows)
  }

  lemma AppendedIsAbove(log: seq<ShellEvent>, events: seq<ShellEvent>)
    requires Ascending(events) && events != [] && LastSequence(log) < events[0].sequence
    ensures forall k :: 0 <= k < |events| ==> events[k].sequence > LastSequence(log)
    ensures LastSequence(log) < LastSequence(log + events)
  {
    forall k | 0 <= k < |events| ensures events[k].sequence > LastSequence(log) {
      assert k > 0 ==> events[0].sequence < events[k].sequence;
    }
  }

  lemma Lengthened(log: seq<ShellEvent>, events: seq<ShellEvent>)
    requires Ascending(events) && events != [] && LastSequence(log) < events[0].sequence
    ensures forall i :: 0 <= i < |log| ==> (log + events)[i] == log[i]
    ensures forall i :: |log| <= i < |log + events| ==> (log + events)[i] == events[i - |log|] && (log + events)[i].sequence > LastSequence(log)
  {
    AppendedIsAbove(log, events);
    forall i | |log| <= i < |log + events|
      ensures (log + events)[i] == events[i - |log|] && (log + events)[i].sequence > LastSequence(log)
    {
      assert events[i - |log|].sequence > LastSequence(log);
    }
  }

  lemma CommitLengthens(sv: Server, sv': Server, events: seq<ShellEvent>)
    requires Extends(sv, sv', events)
    ensures forall i :: 0 <= i < |sv.log| ==> sv'.log[i] == sv.log[i]
    ensures forall i :: |sv.log| <= i < |sv'.log| ==> sv'.log[i] == events[i - |sv.log|] && sv'.log[i].sequence > LastSequence(sv.log)
    ensures LastSequence(sv.log) < LastSequence(sv'.log)
  {
    AppendedIsAbove(sv.log, events);
    Lengthened(sv.log, events);
  }

  lemma BelowLast(log: seq<ShellEvent>, i: nat)
    requires Ascending(log) && i < |log|
    ensures log[i].sequence <= LastSequence(log)
  {
  }

  lemma InLogBelowLast(log: seq<ShellEvent>, e: ShellEvent)
    requires Ascending(log) && InLog(log, e)
    ensures e.sequence <= LastSequence(log)
  {
  }

  lemma CommitKeepsOrder(sv: Server, sv': Server, events: seq<ShellEvent>)
    requires ServerOk(sv) && Extends(sv, sv', events)
    ensures Ascending(sv'.log)
  {
    CommitLengthens(sv, sv', events);
    forall i, j | 0 <= i < j < |sv'.log| ensures sv'.log[i].sequence < sv'.log[j].sequence {
      if i < |sv.log| {
        BelowLast(sv.log, i);
      }
    }
  }

  lemma CommitKeepsServer(sv: Server, sv': Server, events: seq<ShellEvent>)
    requires ServerOk(sv) && Extends(sv, sv', events)
    ensures ServerOk(sv') && LastSequence(sv.log) < LastSequence(sv'.log)
    ensures forall i :: |sv.log| <= i < |sv'.log| ==> sv'.log[i].sequence > LastSequence(sv.log)
  {
    CommitLengthens(sv, sv', events);
    CommitKeepsOrder(sv, sv', events);
    forall i | LastOfAggregate(sv'.log, i) && IsRemoval(sv'.log[i].eventType) ensures sv'.log[i].aggregate !in sv'.rows {
      LastAfterCommit(sv, sv', events, i);
    }
  }

  /** A last event of the longer log is a last event of the commit, or of the old log with its
      aggregate untouched by the commit. */
  lemma LastAfterCommit(sv: Server, sv': Server, events: seq<ShellEvent>, i: int)
    requires Extends(sv, sv', events) && LastOfAggregate(sv'.log, i)
    ensures i >= |sv.log| ==> LastOfAggregate(events, i - |sv.log|) && events[i - |sv.log|] == sv'.log[i]
    ensures i < |sv.log| ==>
              && LastOfAggregate(sv.log, i) && sv.log[i] == sv'.log[i]
              && !Touches(events, sv.log[i].aggregate)
              && SameRow(sv'.rows, sv.rows, sv.log[i].aggregate)
  {
    if i >= |sv.log| {
      LastInTail(sv.log, events, i - |sv.log|);
    } else {
      LastInHead(sv.log, events, i);
    }
  }

  lemma LastInHead(a: seq<ShellEvent>, b: seq<ShellEvent>, i: nat)
    requires LastOfAggregate(a + b, i) && i < |a|
    ensures LastOfAggregate(a, i) && a[i] == (a + b)[i] && !Touches(b, a[i].aggregate)
  {
    LastInFront(a, b, i);
    forall j | 0 <= j < |b| ensures b[j].aggregate != a[i].aggregate {
      assert (a + b)[|a| + j] == b[j];
    }
  }

  lemma EventAboveStays(sv: Server, sv': Server, events: seq<ShellEvent>, a: Aggregate, c: nat)
    requires Extends(sv, sv', events) && EventAbove(sv.log, a, c)
    ensures EventAbove(sv'.log, a, c)
  {
    var i :| 0 <= i < |sv.log| && sv.log[i].aggregate == a && sv.log[i].sequence > c;
    assert sv'.log[i] == sv.log[i];
  }

  lemma TouchedIsAbove(sv: Server, sv': Server, events: seq<ShellEvent>, a: Aggregate, c: nat)
    requires ServerOk(sv) && Extends(sv, sv', events) && Touches(events, a) && c <= LastSequence(sv.log)
    ensures EventAbove(sv'.log, a, c)
  {
    CommitLengthens(sv, sv', events);
    var j :| 0 <= j < |events| && events[j].aggregate == a;
    assert sv'.log[|sv.log| + j] == events[j];
  }

  ghost function StillExempt(exempt: set<Aggregate>, events: seq<ShellEvent>): set<Aggregate> {
    set a | a in exempt && !Touches(events, a)
  }

  lemma CommitKeepsView(view: map<Aggregate, Row>, cursor: nat, sv: Server, sv': Server, events: seq<ShellEvent>, exempt: set<Aggregate>)
    requires ServerOk(sv) && Extends(sv, sv', events) && ViewOk(view, cursor, sv, exempt)
    ensures ViewOk(view, cursor, sv', StillExempt(exempt, events))
  {
    CommitKeepsServer(sv, sv', events);
    forall a: Aggregate | a !in StillExempt(exempt, events) ensures SameRow(view, sv'.rows, a) || EventAbove(sv'.log, a, cursor) {
      if Touches(events, a) {
        TouchedIsAbove(sv, sv', events, a, cursor);
      } else if EventAbove(sv.log, a, cursor) {
        EventAboveStays(sv, sv', events, a, cursor);
      } else {
        assert SameRow(sv'.rows, sv.rows, a);
      }
    }
  }

  lemma CommitKeepsSlots(pending: seq<Slot>, frontier: nat, sv: Server, sv': Server, events: seq<ShellEvent>)
    requires ServerOk(sv) && Extends(sv, sv', events) && SlotsOk(pending, sv, frontier) && frontier <= LastSequence(sv.log)
    ensures SlotsOk(pending, sv', frontier)
  {
    forall k | 0 <= k < |pending| ensures SlotOk(pending[k], sv', frontier) {
      assert SlotOk(pending[k], sv, frontier);
      if pending[k].Refetch? {
        var e := pending[k].event;
        InLogStays(sv, sv', events, e);
        if pending[k].result.Item? {
          if Touches(events, e.aggregate) {
            TouchedIsAbove(sv, sv', events, e.aggregate, e.sequence);
          } else if EventAbove(sv.log, e.aggregate, e.sequence) {
            EventAboveStays(sv, sv', events, e.aggregate, e.sequence);
          } else {
            assert SameRow(sv'.rows, sv.rows, e.aggregate);
          }
        }
      }
    }
  }

  lemma InLogStays(sv: Server, sv': Server, events: seq<ShellEvent>, e: ShellEvent)
    requires Extends(sv, sv', events) && InLog(sv.log, e)
    ensures InLog(sv'.log, e)
  {
    var i :| 0 <= i < |sv.log| && sv.log[i] == e;
    assert sv'.log[i] == e;
  }

  lemma CommitKeepsStale(sv: Server, sv': Server, events: seq<ShellEvent>, exempt: set<Aggregate>, cursor: nat, i: int)
    requires ServerOk(sv) && Extends(sv, sv', events) && Stale(sv', StillExempt(exempt, events), cursor, i)
    ensures i < |sv.log| ==> Stale(sv, exempt, cursor, i) && sv'.log[i] == sv.log[i]
    ensures i >= |sv.log| ==> sv'.log[i].sequence > LastSequence(sv.log)
  {
    CommitKeepsServer(sv, sv', events);
    LastAfterCommit(sv, sv', events, i);
  }

  lemma CommitKeepsCarried(sub: Subscription, sv: Server, sv': Server, events: seq<ShellEvent>, exempt: set<Aggregate>, cursor: nat)
    requires ServerOk(sv) && Extends(sv, sv', events) && QueueOk(sub, sv) && sub.frontier <= LastSequence(sv.log)
    requires sub.phase.Replaying? ==> FetchedOk(sub.phase, sub.frontier, sv)
    requires AllCarried(sub, sv, exempt, cursor)
    ensures AllCarried(sub, sv', StillExempt(exempt, events), cursor)
  {
    forall i | Stale(sv', StillExempt(exempt, events), cursor, i) ensures Carried(sub, sv'.log, i) {
      CommitKeepsStale(sv, sv', events, exempt, cursor, i);
      if i < |sv.log| {
        assert Carried(sub, sv.log, i);
      }
    }
  }

  lemma CommitKeepsMarks(sub: Subscription, sv: Server, sv': Server, events: seq<ShellEvent>, exempt: set<Aggregate>, cursor: nat)
    requires ServerOk(sv) && Extends(sv, sv', events) && sub.floor <= LastSequence(sv.log)
    requires MarksOk(sub, sv, exempt, cursor)
    ensures MarksOk(sub, sv', StillExempt(exempt, events), cursor)
  {
    forall m, i | 0 <= m < |sub.pending| && sub.pending[m].Mark?
               && Stale(sv', StillExempt(exempt, events), cursor, i) && sv'.log[i].sequence <= sub.floor
      ensures HoldsBefore(sub.pending, sv'.log[i], m)
    {
      CommitKeepsStale(sv, sv', events, exempt, cursor, i);
    }
  }

  lemma CommitKeepsQueue(sub: Subscription, sv: Server, sv': Server, events: seq<ShellEvent>)
    requires QueueOk(sub, sv) && Extends(sv, sv', events)
    ensures QueueOk(sub, sv')
  {
    assert sv'.log[sub.taken..sv.published] == sv.log[sub.taken..sv.published];
    if sub.phase.MarkerQueued? {
      assert sv'.log[sub.taken..sub.markAt] == sv.log[sub.taken..sub.markAt];
      assert sv'.log[sub.markAt..sv.published] == sv.log[sub.markAt..sv.published];
    }
  }

  lemma CommitKeepsPhase(sub: Subscription, sv: Server, sv': Server, events: seq<ShellEvent>, client: Option<Client>, exempt: set<Aggregate>)
    requires ServerOk(sv) && Extends(sv, sv', events) && SubOk(sub, sv, client, exempt) && !SnapshotPending(sub)
    ensures PhaseOk(sub, sv', client, StillExempt(exempt, events))
  {
    CommitKeepsServer(sv, sv', events);
    if sub.phase.Replaying? {
      forall k | 0 <= k < |sub.phase.fetched| ensures InLog(sv'.log, sub.phase.fetched[k]) {
        InLogStays(sv, sv', events, sub.phase.fetched[k]);
      }
    }
    if !sub.phase.Attached? && !sub.phase.SnapshotNeeded? {
      CommitKeepsCarried(sub, sv, sv', events, exempt, client.value.cursor);
    }
    if sub.phase.Live? {
      CommitKeepsMarks(sub, sv, sv', events, exempt, client.value.cursor);
    }
  }

  lemma CommitStep(s: State, events: seq<ShellEvent>, rows: map<Aggregate, Row>)
    requires Inv(s) && Enabled(s, Commit(events, rows))
    ensures Inv(Apply(s, Commit(events, rows)))
  {
    var s' := Apply(s, Commit(events, rows));
    var sv, sv' := s.server, s'.server;
    assert s'.lost == StillExempt(s.lost, events);
    CommitKeepsServer(sv, sv', events);
    if s.client.Some? {
      CommitKeepsView(s.client.value.rows, s.client.value.cursor, sv, sv', events, s.lost);
    }
    if s.link.Up? {
      var sub := s.link.sub;
      CommitKeepsQueue(sub, sv, sv', events);
      if SnapshotPending(sub) {
        assert StillExempt({}, events) == {};
        CommitKeepsView(sub.pending[0].rows, sub.pending[0].sequence, sv, sv', events, {});
        CommitKeepsCarried(sub, sv, sv', events, {}, sub.pending[0].sequence);
      } else {
        CommitKeepsSlots(sub.pending, sub.frontier, sv, sv', events);
        CommitKeepsPhase(sub, sv, sv', events, s.client, s.lost);
      }
    }
  }

  // ----- The other server steps -----

  lemma InputsAppend(a: seq<ShellEvent>, e: ShellEvent)
    ensures Inputs(a + [e]) == Inputs(a) + [Event(e)]
  {
  }

  /** Head and publication are not part of what the client and the subscription rely on. */
  lemma PublicationKeepsView(view: map<Aggregate, Row>, cursor: nat, sv: Server, sv': Server, exempt: set<Aggregate>)
    requires sv'.log == sv.log && sv'.rows == sv.rows && ViewOk(view, cursor, sv, exempt)
    ensures ViewOk(view, cursor, sv', exempt)
  {
  }

  lemma PublicationKeepsCarried(sub: Subscription, sub': Subscription, sv: Server, sv': Server, exempt: set<Aggregate>, cursor: nat)
    requires sv'.log == sv.log && sub' == sub.(queue := sub'.queue) && AllCarried(sub, sv, exempt, cursor)
    ensures AllCarried(sub', sv', exempt, cursor)
  {
    forall i | Stale(sv', exempt, cursor, i) ensures Carried(sub', sv'.log, i) {
      assert Stale(sv, exempt, cursor, i);
    }
  }

  lemma PublicationKeepsMarks(sub: Subscription, sub': Subscription, sv: Server, sv': Server, exempt: set<Aggregate>, cursor: nat)
    requires sv'.log == sv.log && sub' == sub.(queue := sub'.queue) && MarksOk(sub, sv, exempt, cursor)
    ensures MarksOk(sub', sv', exempt, cursor)
  {
    forall m, i | 0 <= m < |sub.pending| && sub.pending[m].Mark? && Stale(sv', exempt, cursor, i) && sv'.log[i].sequence <= sub.floor
      ensures HoldsBefore(sub.pending, sv'.log[i], m)
    {
      assert Stale(sv, exempt, cursor, i);
    }
  }

  lemma PublicationKeepsSlots(pending: seq<Slot>, frontier: nat, sv: Server, sv': Server)
    requires sv'.log == sv.log && sv'.rows == sv.rows && SlotsOk(pending, sv, frontier)
    ensures SlotsOk(pending, sv', frontier)
  {
    forall k | 0 <= k < |pending| ensures SlotOk(pending[k], sv', frontier) {
      assert SlotOk(pending[k], sv, frontier);
    }
  }

  lemma PublicationKeepsSub(sub: Subscription, sub': Subscription, sv: Server, sv': Server, client: Option<Client>, exempt: set<Aggregate>)
    requires sv'.log == sv.log && sv'.rows == sv.rows && sub' == sub.(queue := sub'.queue)
    requires SubOk(sub, sv, client, exempt) && QueueOk(sub', sv')
    ensures SubOk(sub', sv', client, exempt)
  {
    if SnapshotPending(sub) {
      PublicationKeepsView(sub.pending[0].rows, sub.pending[0].sequence, sv, sv', {});
      PublicationKeepsCarried(sub, sub', sv, sv', {}, sub.pending[0].sequence);
    } else {
      PublicationKeepsSlots(sub.pending, sub.frontier, sv, sv');
      if !sub.phase.Attached? && !sub.phase.SnapshotNeeded? {
        PublicationKeepsCarried(sub, sub', sv, sv', exempt, client.value.cursor);
      }
      if sub.phase.Live? {
        PublicationKeepsMarks(sub, sub', sv, sv', exempt, client.value.cursor);
      }
    }
  }

  lemma AdvanceHeadStep(s: State)
    requires Inv(s) && Enabled(s, AdvanceHead)
    ensures Inv(Apply(s, AdvanceHead))
  {
    var s' := Apply(s, AdvanceHead);
    if s.client.Some? {
      PublicationKeepsView(s.client.value.rows, s.client.value.cursor, s.server, s'.server, s.lost);
    }
    if s.link.Up? {
      PublicationKeepsSub(s.link.sub, s.link.sub, s.server, s'.server, s.client, s.lost);
    }
  }

  lemma PublishKeepsQueue(sub: Subscription, sub': Subscription, sv: Server, sv': Server)
    requires QueueOk(sub, sv) && sv.published < |sv.log|
    requires sv' == sv.(published := sv.published + 1)
    requires sub' == sub.(queue := sub.queue + [Event(sv.log[sv.published])])
    ensures QueueOk(sub', sv')
  {
    var e := sv.log[sv.published];
    if sub.phase.MarkerQueued? {
      InputsAppend(sv.log[sub.markAt..sv.published], e);
      assert sv.log[sub.markAt..sv'.published] == sv.log[sub.markAt..sv.published] + [e];
    } else {
      InputsAppend(sv.log[sub.taken..sv.published], e);
      assert sv.log[sub.taken..sv'.published] == sv.log[sub.taken..sv.published] + [e];
    }
  }

  lemma PublishKeepsServer(sv: Server, sv': Server)
    requires ServerOk(sv) && sv.published < |sv.log| && sv.log[sv.published].sequence <= sv.head
    requires sv' == sv.(published := sv.published + 1)
    ensures ServerOk(sv')
  {
  }

  lemma PublishKeepsInv(s: State, s': State)
    requires Inv(s) && s.server.published < |s.server.log| && s.server.log[s.server.published].sequence <= s.server.head
    requires s'.server == s.server.(published := s.server.published + 1) && s'.client == s.client && s'.lost == s.lost
    requires s'.link.Up? <==> s.link.Up?
    requires s.link.Up? ==> s'.link.sub == s.link.sub.(queue := s.link.sub.queue + [Event(s.server.log[s.server.published])])
    ensures Inv(s')
  {
    PublishKeepsServer(s.server, s'.server);
    if s.client.Some? {
      PublicationKeepsView(s.client.value.rows, s.client.value.cursor, s.server, s'.server, s.lost);
    }
    if s.link.Up? {
      PublishKeepsQueue(s.link.sub, s'.link.sub, s.server, s'.server);
      PublicationKeepsSub(s.link.sub, s'.link.sub, s.server, s'.server, s.client, s.lost);
    }
  }

  lemma PublishStep(s: State)
    requires Inv(s) && Enabled(s, Publish)
    ensures Inv(Apply(s, Publish))
  {
    PublishKeepsInv(s, Apply(s, Publish));
  }

  // ----- Connecting and catching up -----

  lemma SnapshotViewOk(sv: Server, exempt: set<Aggregate>)
    ensures ViewOk(sv.rows, LastSequence(sv.log), sv, exempt)
  {
  }

  lemma SubscribeStep(s: State, useCursor: bool, wantsMarker: bool)
    requires Inv(s) && Enabled(s, Subscribe(useCursor, wantsMarker))
    ensures Inv(Apply(s, Subscribe(useCursor, wantsMarker)))
  {
    var sub := Apply(s, Subscribe(useCursor, wantsMarker)).link.sub;
    assert s.server.log[sub.taken..s.server.published] == [];
  }

  lemma LoadOverHttpStep(s: State)
    requires Inv(s) && Enabled(s, LoadOverHttp)
    ensures Inv(Apply(s, LoadOverHttp))
  {
    SnapshotViewOk(s.server, {});
  }

  /** Reading the head after attaching loses nothing: an event above the head read has not been
      published yet, so it will pass through the live buffer. */
  lemma ReadHeadStep(s: State, withinBudget: bool)
    requires Inv(s) && Enabled(s, ReadHead(withinBudget))
    ensures Inv(Apply(s, ReadHead(withinBudget)))
  {
    var sub, sv := s.link.sub, s.server;
    var sub' := Apply(s, ReadHead(withinBudget)).link.sub;
    if sub'.phase.Replaying? {
      forall i | Stale(sv, s.lost, s.client.value.cursor, i) ensures Carried(sub', sv.log, i) {
        assert i < sv.published ==> sv.log[i].sequence <= sv.head;
      }
    }
  }

  lemma LoadSnapshotStep(s: State)
    requires Inv(s) && Enabled(s, LoadSnapshot)
    ensures Inv(Apply(s, LoadSnapshot))
  {
    var sub' := Apply(s, LoadSnapshot).link.sub;
    SnapshotViewOk(s.server, {});
    forall i | LastOfAggregate(s.server.log, i) ensures s.server.log[i].sequence <= LastSequence(s.server.log) {
      BelowLast(s.server.log, i);
    }
  }

  lemma {:induction false} AfterIsExact(log: seq<ShellEvent>, c: nat, e: ShellEvent)
    ensures e in After(log, c) <==> e in log && e.sequence > c
  {
    if log != [] {
      AfterIsExact(log[1..], c, e);
      assert log == [log[0]] + log[1..];
    }
  }

  lemma {:induction false} AfterAscends(log: seq<ShellEvent>, c: nat)
    requires Ascending(log)
    ensures Ascending(After(log, c))
  {
    if log != [] {
      AfterAscends(log[1..], c);
      forall e | e in After(log[1..], c) ensures log[0].sequence < e.sequence {
        AfterIsExact(log[1..], c, e);
      }
    }
  }

  lemma PageIsInRange(log: seq<ShellEvent>, c: nat, limit: nat)
    requires Ascending(log)
    ensures Ascending(PageAfter(log, c, limit)) && |PageAfter(log, c, limit)| <= limit
    ensures forall k :: 0 <= k < |PageAfter(log, c, limit)| ==> InLog(log, PageAfter(log, c, limit)[k]) && c + k < PageAfter(log, c, limit)[k].sequence
  {
    var rows, page := After(log, c), PageAfter(log, c, limit);
    AfterAscends(log, c);
    forall j | 0 <= j < |rows| ensures c < rows[j].sequence && InLog(log, rows[j]) { AfterIsExact(log, c, rows[j]); }
    forall k | 0 <= k < |page| ensures InLog(log, page[k]) && c + k < page[k].sequence {
      assert page[k] == rows[k];
      DistinctSequencesSpread(rows, c, k);
    }
  }

  /** A page is the whole of a range of the log: it misses no event up to its last one, and an
      empty page means the log has nothing more. */
  lemma PageIsComplete(log: seq<ShellEvent>, c: nat, limit: nat, e: ShellEvent)
    requires Ascending(log) && InLog(log, e) && c < e.sequence && 0 < limit
    ensures PageAfter(log, c, limit) != []
    ensures e.sequence <= LastSequence(PageAfter(log, c, limit)) ==> e in PageAfter(log, c, limit)
  {
    var rows, page := After(log, c), PageAfter(log, c, limit);
    AfterAscends(log, c);
    AfterIsExact(log, c, e);
    var k :| 0 <= k < |rows| && rows[k] == e;
    assert page[|page| - 1] == rows[|page| - 1];
    if k < |page| {
      assert page[k] == e;
    }
  }

  /** A row limit of head minus cursor covers the whole range up to the head, even when sequences
      have holes: rows at distinct sequences spread at least one apart. */
  lemma GapCoversRange(log: seq<ShellEvent>, cursor: nat, head: nat, e: ShellEvent)
    requires Ascending(log) && cursor <= head && InLog(log, e) && cursor < e.sequence <= head
    ensures e in PageAfter(log, cursor, head - cursor)
  {
    var page := PageAfter(log, cursor, head - cursor);
    PageIsInRange(log, cursor, head - cursor);
    PageIsComplete(log, cursor, head - cursor, e);
    if |page| < head - cursor {
      AfterIsExact(log, cursor, e);
    } else {
      assert cursor + (|page| - 1) < page[|page| - 1].sequence;
    }
  }

  lemma {:induction false} DistinctSequencesSpread(rows: seq<ShellEvent>, c: nat, k: nat)
    requires Ascending(rows) && k < |rows| && forall j :: 0 <= j < |rows| ==> c < rows[j].sequence
    ensures c + k < rows[k].sequence
  {
    if k > 0 {
      DistinctSequencesSpread(rows, c, k - 1);
    }
  }

  lemma FetchPageStep(s: State)
    requires Inv(s) && Enabled(s, FetchPage)
    ensures Inv(Apply(s, FetchPage))
  {
    var sub, sv := s.link.sub, s.server;
    FetchKeepsFetched(s, sub);
    FetchIsPage(s, sub);
    FetchCarriesAll(sub, NextSub(s, sub, FetchPage), sv, PageAfter(sv.log, sub.phase.read, Min(sub.phase.remaining, READ_PAGE_SIZE)),
                    Min(sub.phase.remaining, READ_PAGE_SIZE), s.lost, s.client.value.cursor);
  }

  lemma FetchKeepsFetched(s: State, sub: Subscription)
    requires SubEnabled(s, sub, FetchPage) && ServerOk(s.server) && FetchedOk(sub.phase, sub.frontier, s.server)
    ensures FetchedOk(NextSub(s, sub, FetchPage).phase, sub.frontier, s.server)
  {
    PageKeepsFetched(sub.phase, NextSub(s, sub, FetchPage).phase, sub.frontier, s.server, Min(sub.phase.remaining, READ_PAGE_SIZE));
  }

  lemma PageKeepsFetched(phase: Phase, phase': Phase, frontier: nat, sv: Server, limit: nat)
    requires ServerOk(sv) && phase.Replaying? && FetchedOk(phase, frontier, sv) && 0 < limit <= phase.remaining
    requires var page := PageAfter(sv.log, phase.read, limit);
      phase' == if page == [] then phase.(remaining := 0)
                else if |page| <= phase.remaining then
                  phase.(remaining := phase.remaining - |page|, read := LastSequence(page), fetched := phase.fetched + page)
                else phase
    ensures FetchedOk(phase', frontier, sv)
  {
    var page := PageAfter(sv.log, phase.read, limit);
    if page == [] {
      EmptyPageEndsReplay(phase, frontier, sv, limit);
    } else {
      PageIsInRange(sv.log, phase.read, limit);
      FetchedGrows(phase, phase', frontier, sv, page);
    }
  }

  lemma FetchIsPage(s: State, sub: Subscription)
    requires SubEnabled(s, sub, FetchPage)
    ensures var limit := Min(sub.phase.remaining, READ_PAGE_SIZE);
            Fetches(sub, NextSub(s, sub, FetchPage), s.server, PageAfter(s.server.log, sub.phase.read, limit), limit)
  {
  }

  ghost predicate Fetches(sub: Subscription, sub': Subscription, sv: Server, page: seq<ShellEvent>, limit: nat) {
    && sub.phase.Replaying? && 0 < limit
    && page == PageAfter(sv.log, sub.phase.read, limit)
    && sub'.phase.Replaying? && sub' == sub.(phase := sub'.phase)
    && sub'.phase.head == sub.phase.head
    && sub'.phase.read == (if page == [] then sub.phase.read else LastSequence(page))
    && sub'.phase.fetched == sub.phase.fetched + page
  }

  lemma FetchCarriesAll(sub: Subscription, sub': Subscription, sv: Server, page: seq<ShellEvent>, limit: nat, exempt: set<Aggregate>, cursor: nat)
    requires ServerOk(sv) && Fetches(sub, sub', sv, page, limit) && sub.frontier <= sub.phase.read
    requires AllCarried(sub, sv, exempt, cursor)
    ensures AllCarried(sub', sv, exempt, cursor)
  {
    forall i | Stale(sv, exempt, cursor, i) ensures Carried(sub', sv.log, i) {
      FetchCarries(sub, sub', sv, page, limit, i);
    }
  }

  lemma FetchCarries(sub: Subscription, sub': Subscription, sv: Server, page: seq<ShellEvent>, limit: nat, i: nat)
    requires ServerOk(sv) && Fetches(sub, sub', sv, page, limit) && sub.frontier <= sub.phase.read
    requires i < |sv.log| && Carried(sub, sv.log, i)
    ensures Carried(sub', sv.log, i)
  {
    if sv.log[i].sequence > sub.phase.read {
      PageIsComplete(sv.log, sub.phase.read, limit, sv.log[i]);
    } else if sv.log[i].sequence > sub.frontier {
      assert sv.log[i] in sub.phase.fetched + page;
      if page != [] {
        PageIsInRange(sv.log, sub.phase.read, limit);
        assert sub.phase.read + (|page| - 1) < page[|page| - 1].sequence;
      }
    }
  }

  lemma EmptyPageEndsReplay(phase: Phase, frontier: nat, sv: Server, limit: nat)
    requires ServerOk(sv) && phase.Replaying? && FetchedOk(phase, frontier, sv)
    requires 0 < limit && PageAfter(sv.log, phase.read, limit) == []
    ensures phase.head <= phase.read
  {
    if sv.log != [] && LastSequence(sv.log) > phase.read {
      PageIsComplete(sv.log, phase.read, limit, sv.log[|sv.log| - 1]);
    }
  }

  lemma AscendingAppend(a: seq<ShellEvent>, b: seq<ShellEvent>, bound: nat)
    requires Ascending(a) && Ascending(b)
    requires forall k :: 0 <= k < |a| ==> a[k].sequence <= bound
    requires forall k :: 0 <= k < |b| ==> bound < b[k].sequence
    ensures Ascending(a + b)
  {
    forall i, j | 0 <= i < j < |a + b| ensures (a + b)[i].sequence < (a + b)[j].sequence {
      if j < |a| {
        assert a[i].sequence < a[j].sequence;
      } else if i < |a| {
        assert (a + b)[j] == b[j - |a|];
      } else {
        assert b[i - |a|].sequence < b[j - |a|].sequence;
      }
    }
  }

  lemma AllInRange(log: seq<ShellEvent>, a: seq<ShellEvent>, b: seq<ShellEvent>, low: nat, mid: nat, high: nat)
    requires low <= mid <= high
    requires forall k :: 0 <= k < |a| ==> InLog(log, a[k]) && low < a[k].sequence <= mid
    requires forall k :: 0 <= k < |b| ==> InLog(log, b[k]) && mid < b[k].sequence <= high
    ensures forall k :: 0 <= k < |a + b| ==> InLog(log, (a + b)[k]) && low < (a + b)[k].sequence <= high
  {
    forall k | 0 <= k < |a + b| ensures InLog(log, (a + b)[k]) && low < (a + b)[k].sequence <= high {
      assert (a + b)[k] == if k < |a| then a[k] else b[k - |a|];
    }
  }

  lemma FetchedGrows(phase: Phase, phase': Phase, frontier: nat, sv: Server, page: seq<ShellEvent>)
    requires ServerOk(sv) && phase.Replaying? && FetchedOk(phase, frontier, sv)
    requires page != [] && |page| <= phase.remaining && Ascending(page)
    requires forall k :: 0 <= k < |page| ==> InLog(sv.log, page[k]) && phase.read + k < page[k].sequence
    requires phase' == phase.(remaining := phase.remaining - |page|, read := LastSequence(page), fetched := phase.fetched + page)
    ensures FetchedOk(phase', frontier, sv)
  {
    var last := page[|page| - 1];
    assert phase.read + (|page| - 1) < last.sequence && InLog(sv.log, last);
    InLogBelowLast(sv.log, last);
    forall k | 0 <= k < |page| ensures page[k].sequence <= last.sequence {
      BelowLast(page, k);
    }
    AllInRange(sv.log, phase.fetched, page, frontier, phase.read, last.sequence);
    AscendingAppend(phase.fetched, page, phase.read);
  }

  // ----- Planning a batch -----

  lemma InputsAreEvents(events: seq<ShellEvent>)
    ensures NoMarks(Inputs(events)) && EventsOf(Inputs(events)) == events
  {
    EventsOfNoMarks(Inputs(events));
  }

  /** A freshly planned batch of log events is in order and all still unread. */
  lemma PlannedSlotsOk(inputs: seq<LiveInput>, sv: Server, frontier: nat)
    requires Ascending(EventsOf(inputs))
    requires forall k :: 0 <= k < |EventsOf(inputs)| ==> InLog(sv.log, EventsOf(inputs)[k]) && EventsOf(inputs)[k].sequence <= frontier
    ensures SlotsOk(Plan(inputs, []), sv, frontier)
  {
    assert [] + EventsOf(inputs) == EventsOf(inputs);
    PlanAscends(inputs, []);
    forall k | 0 <= k < |Plan(inputs, [])| ensures SlotOk(Plan(inputs, [])[k], sv, frontier) {
      if Plan(inputs, [])[k].Refetch? {
        PlanIsSound(inputs, [], k);
      }
    }
  }

  lemma LastInBatch(events: seq<ShellEvent>, log: seq<ShellEvent>, i: nat) returns (n: nat)
    requires Ascending(events) && Ascending(log)
    requires forall k :: 0 <= k < |events| ==> InLog(log, events[k])
    requires LastOfAggregate(log, i) && log[i] in events
    ensures LastOfAggregate(events, n) && events[n] == log[i]
  {
    n :| 0 <= n < |events| && events[n] == log[i];
    forall j | n < j < |events| ensures events[j].aggregate != events[n].aggregate {
      LaterIsOther(log, i, events[j]);
    }
  }

  /** The last event of an aggregate in the log, once in a batch, gets a place in its plan. */
  lemma PlannedHolds(inputs: seq<LiveInput>, log: seq<ShellEvent>, i: nat)
    requires Ascending(EventsOf(inputs)) && Ascending(log)
    requires forall k :: 0 <= k < |EventsOf(inputs)| ==> InLog(log, EventsOf(inputs)[k])
    requires LastOfAggregate(log, i) && log[i] in EventsOf(inputs)
    ensures HoldsBefore(Plan(inputs, []), log[i], |Plan(inputs, [])|)
  {
    var n := LastInBatch(EventsOf(inputs), log, i);
    assert [] + EventsOf(inputs) == EventsOf(inputs);
    var k := PlanHoldsLatest(inputs, [], n);
  }

  lemma LaterIsOther(log: seq<ShellEvent>, i: nat, e: ShellEvent)
    requires Ascending(log) && LastOfAggregate(log, i) && InLog(log, e) && log[i].sequence < e.sequence
    ensures e.aggregate != log[i].aggregate
  {
    var m :| 0 <= m < |log| && log[m] == e;
    assert m > i;
  }

  lemma CoalesceReplayStep(s: State, count: nat)
    requires Inv(s) && Enabled(s, CoalesceReplay(count))
    ensures Inv(Apply(s, CoalesceReplay(count)))
  {
    var sub, sv := s.link.sub, s.server;
    var sub' := Apply(s, CoalesceReplay(count)).link.sub;
    ReplayBatchOk(sub, sub', sv, count);
    forall i | Stale(sv, s.lost, s.client.value.cursor, i) ensures Carried(sub', sv.log, i) {
      ReplayBatchCarries(sub, sub', sv, count, i);
    }
  }

  lemma ReplayBatchCarries(sub: Subscription, sub': Subscription, sv: Server, count: nat, i: nat)
    requires ServerOk(sv) && ReplayBatch(sub, sub', count) && FetchedOk(sub.phase, sub.frontier, sv) && sub.pending == []
    requires LastOfAggregate(sv.log, i) && Carried(sub, sv.log, i)
    ensures Carried(sub', sv.log, i)
  {
    var e, chunk := sv.log[i], sub.phase.fetched[..count];
    if sub.frontier < e.sequence <= sub.phase.read {
      SplitMember(sub.phase.fetched, count, e);
      if e.sequence <= sub'.frontier {
        InputsAreEvents(chunk);
        PlannedHolds(Inputs(chunk), sv.log, i);
      }
    }
  }

  ghost predicate ReplayBatch(sub: Subscription, sub': Subscription, count: nat) {
    && sub.phase.Replaying? && 0 < count <= |sub.phase.fetched|
    && sub' == sub.(pending := Plan(Inputs(sub.phase.fetched[..count]), []),
                    phase := sub.phase.(fetched := sub.phase.fetched[count..]),
                    frontier := sub.phase.fetched[count - 1].sequence)
  }

  lemma ReplayBatchOk(sub: Subscription, sub': Subscription, sv: Server, count: nat)
    requires ReplayBatch(sub, sub', count) && FetchedOk(sub.phase, sub.frontier, sv) && QueueOk(sub, sv)
    ensures QueueOk(sub', sv) && FetchedOk(sub'.phase, sub'.frontier, sv)
    ensures SlotsOk(sub'.pending, sv, sub'.frontier) && NoMarkSlots(sub'.pending) && sub'.frontier <= LastSequence(sv.log)
  {
    var chunk := sub.phase.fetched[..count];
    BatchKeepsFetched(sub.phase, sub.frontier, sv, count);
    BatchIsPlanned(chunk, sv, sub'.frontier);
  }

  lemma BatchKeepsFetched(phase: Phase, frontier: nat, sv: Server, count: nat)
    requires phase.Replaying? && 0 < count <= |phase.fetched| && FetchedOk(phase, frontier, sv)
    ensures FetchedOk(phase.(fetched := phase.fetched[count..]), phase.fetched[count - 1].sequence, sv)
    ensures forall k :: 0 <= k < count ==>
      InLog(sv.log, phase.fetched[..count][k]) && phase.fetched[..count][k].sequence <= phase.fetched[count - 1].sequence
    ensures Ascending(phase.fetched[..count]) && phase.fetched[count - 1].sequence <= LastSequence(sv.log)
  {
    BatchIsBelow(phase.fetched, count);
    var rest := phase.fetched[count..];
    assert forall k :: 0 <= k < |rest| ==> rest[k] == phase.fetched[count + k];
  }

  lemma BatchIsPlanned(chunk: seq<ShellEvent>, sv: Server, frontier: nat)
    requires Ascending(chunk) && forall k :: 0 <= k < |chunk| ==> InLog(sv.log, chunk[k]) && chunk[k].sequence <= frontier
    ensures SlotsOk(Plan(Inputs(chunk), []), sv, frontier) && NoMarkSlots(Plan(Inputs(chunk), []))
  {
    InputsAreEvents(chunk);
    PlannedSlotsOk(Inputs(chunk), sv, frontier);
    PlanWithoutMarks(Inputs(chunk), []);
  }

  lemma BatchIsBelow(events: seq<ShellEvent>, count: nat)
    requires Ascending(events) && 0 < count <= |events|
    ensures forall k :: 0 <= k < count ==> events[k].sequence <= events[count - 1].sequence
    ensures forall k :: count <= k < |events| ==> events[count - 1].sequence < events[k].sequence
  {
  }

  lemma SplitMember(events: seq<ShellEvent>, count: nat, e: ShellEvent)
    requires Ascending(events) && 0 < count <= |events| && e in events
    ensures if e.sequence <= events[count - 1].sequence then e in events[..count] else e in events[count..]
  {
    var k :| 0 <= k < |events| && events[k] == e;
    BatchIsBelow(events, count);
    if k < count {
      assert events[..count][k] == e;
    } else {
      assert events[count..][k - count] == e;
    }
  }

  lemma FinishReplayStep(s: State)
    requires Inv(s) && Enabled(s, FinishReplay)
    ensures Inv(Apply(s, FinishReplay))
  {
    var sub, sv := s.link.sub, s.server;
    var sub' := Apply(s, FinishReplay).link.sub;
    forall i | Stale(sv, s.lost, s.client.value.cursor, i) ensures Carried(sub', sv.log, i) {
      assert Carried(sub, sv.log, i);
    }
  }

  // ----- The live tail -----

  lemma PublishedIsBelowLast(sv: Server)
    requires ServerOk(sv)
    ensures LastSequence(sv.log[..sv.published]) <= LastSequence(sv.log)
    ensures forall i :: 0 <= i < |sv.log| && sv.log[i].sequence <= LastSequence(sv.log[..sv.published]) ==> i < sv.published
  {
    var seen := sv.log[..sv.published];
    if sv.published > 0 {
      assert LastSequence(seen) == sv.log[sv.published - 1].sequence;
      BelowLast(sv.log, sv.published - 1);
    }
  }

  lemma StartLiveKeeps(sub: Subscription, sub': Subscription, sv: Server, exempt: set<Aggregate>, cursor: nat)
    requires ServerOk(sv) && sub.phase.CaughtUp? && AllCarried(sub, sv, exempt, cursor)
    requires sub' == sub.(phase := sub'.phase, queue := sub'.queue, markAt := sub'.markAt, floor := sub'.floor) && !sub'.phase.Replaying?
    ensures AllCarried(sub', sv, exempt, cursor)
  {
    forall i | Stale(sv, exempt, cursor, i) ensures Carried(sub', sv.log, i) {
      assert Carried(sub, sv.log, i);
    }
  }

  lemma MarkerKeepsQueue(sub: Subscription, sub': Subscription, sv: Server)
    requires QueueOk(sub, sv) && sub.phase.CaughtUp?
    requires sub' == sub.(phase := MarkerQueued, queue := sub.queue + [Synchronized], markAt := sv.published, floor := sub'.floor)
    ensures QueueOk(sub', sv)
  {
    assert Inputs(sv.log[sub'.markAt..sv.published]) == [];
  }

  lemma StartLiveStep(s: State)
    requires Inv(s) && Enabled(s, StartLive)
    ensures Inv(Apply(s, StartLive))
  {
    var sub, sv := s.link.sub, s.server;
    var sub' := NextSub(s, sub, StartLive);
    StartLiveKeeps(sub, sub', sv, s.lost, s.client.value.cursor);
    PublishedIsBelowLast(sv);
    if sub.wantsMarker {
      MarkerKeepsQueue(sub, sub', sv);
    }
  }

  /** Taking `events` from the front of the live buffer into a batch. */
  ghost predicate Takes(sub: Subscription, sub': Subscription, sv: Server, inputs: seq<LiveInput>) {
    && !sub.phase.Replaying? && sub.pending == []
    && sub.taken + |EventsOf(inputs)| <= sv.published <= |sv.log|
    && EventsOf(inputs) == sv.log[sub.taken..sub.taken + |EventsOf(inputs)|]
    && sub' == sub.(phase := Live, pending := Plan(inputs, []), queue := sub'.queue,
                    taken := sub.taken + |EventsOf(inputs)|, frontier := Max(sub.frontier, LastSequence(EventsOf(inputs))))
  }

  lemma SliceInLog(log: seq<ShellEvent>, from: nat, to: nat)
    requires Ascending(log) && from <= to <= |log|
    ensures Ascending(log[from..to])
    ensures forall k :: 0 <= k < to - from ==> InLog(log, log[from..to][k])
    ensures forall k :: 0 <= k < to - from ==> log[from..to][k].sequence <= LastSequence(log[from..to])
    ensures from < to ==> LastSequence(log[from..to]) == log[to - 1].sequence
  {
    forall k | 0 <= k < to - from ensures InLog(log, log[from..to][k]) && log[from..to][k].sequence <= log[to - 1].sequence {
      assert log[from..to][k] == log[from + k];
    }
  }

  lemma TakenAreInLog(sub: Subscription, sub': Subscription, sv: Server, inputs: seq<LiveInput>)
    requires Ascending(sv.log) && Takes(sub, sub', sv, inputs)
    ensures Ascending(EventsOf(inputs))
    ensures forall k :: 0 <= k < |EventsOf(inputs)| ==> InLog(sv.log, EventsOf(inputs)[k])
    ensures forall k :: 0 <= k < |EventsOf(inputs)| ==> EventsOf(inputs)[k].sequence <= sub'.frontier
    ensures EventsOf(inputs) != [] ==> sub'.taken > sub.taken && LastSequence(EventsOf(inputs)) == sv.log[sub'.taken - 1].sequence
  {
    SliceInLog(sv.log, sub.taken, sub'.taken);
    assert LastSequence(EventsOf(inputs)) <= sub'.frontier;
  }

  lemma TakeKeepsSlots(sub: Subscription, sub': Subscription, sv: Server, inputs: seq<LiveInput>)
    requires ServerOk(sv) && Takes(sub, sub', sv, inputs) && sub.frontier <= LastSequence(sv.log)
    ensures SlotsOk(sub'.pending, sv, sub'.frontier) && sub'.frontier <= LastSequence(sv.log)
  {
    TakenAreInLog(sub, sub', sv, inputs);
    PlannedSlotsOk(inputs, sv, sub'.frontier);
    var events := EventsOf(inputs);
    if events != [] {
      BelowLast(sv.log, sub.taken + |events| - 1);
    }
  }

  lemma TakenHolds(log: seq<ShellEvent>, from: nat, inputs: seq<LiveInput>, i: nat)
    requires Ascending(log) && from + |EventsOf(inputs)| <= |log| && EventsOf(inputs) == log[from..from + |EventsOf(inputs)|]
    requires LastOfAggregate(log, i) && from <= i < from + |EventsOf(inputs)|
    ensures log[i].sequence <= LastSequence(EventsOf(inputs))
    ensures HoldsBefore(Plan(inputs, []), log[i], |Plan(inputs, [])|)
  {
    SliceInLog(log, from, from + |EventsOf(inputs)|);
    assert EventsOf(inputs)[i - from] == log[i];
    PlannedHolds(inputs, log, i);
  }

  lemma TakeCarries(sub: Subscription, sub': Subscription, sv: Server, inputs: seq<LiveInput>, i: nat)
    requires ServerOk(sv) && Takes(sub, sub', sv, inputs)
    requires LastOfAggregate(sv.log, i) && Carried(sub, sv.log, i)
    ensures Carried(sub', sv.log, i)
  {
    assert i >= sub.taken && sv.log[i].sequence > sub.frontier;
    if i < sub'.taken {
      TakenHolds(sv.log, sub.taken, inputs, i);
    } else {
      SliceInLog(sv.log, sub.taken, sub'.taken);
    }
  }

  lemma TakeCarriesAll(sub: Subscription, sub': Subscription, sv: Server, inputs: seq<LiveInput>, exempt: set<Aggregate>, cursor: nat)
    requires ServerOk(sv) && Takes(sub, sub', sv, inputs) && AllCarried(sub, sv, exempt, cursor)
    ensures AllCarried(sub', sv, exempt, cursor)
  {
    forall i | Stale(sv, exempt, cursor, i) ensures Carried(sub', sv.log, i) {
      TakeCarries(sub, sub', sv, inputs, i);
    }
  }

  lemma TakeLiveIsTake(sub: Subscription, sv: Server, count: nat)
    requires QueueOk(sub, sv) && sub.phase.Live? && sub.pending == [] && count <= |sub.queue|
    ensures Takes(sub, Take(sub, count), sv, sub.queue[..count])
    ensures QueueOk(Take(sub, count), sv)
    ensures NoMarks(sub.queue[..count])
  {
    var events := sv.log[sub.taken..sub.taken + count];
    assert sub.queue[..count] == Inputs(events);
    InputsAreEvents(events);
    assert sub.queue[count..] == Inputs(sv.log[sub.taken + count..sv.published]);
  }

  lemma TakeLiveStep(s: State, count: nat)
    requires Inv(s) && Enabled(s, TakeLive(count))
    ensures Inv(Apply(s, TakeLive(count)))
  {
    var sub, sv := s.link.sub, s.server;
    var sub' := Take(sub, count);
    TakeLiveIsTake(sub, sv, count);
    TakeKeepsSlots(sub, sub', sv, sub.queue[..count]);
    PlanWithoutMarks(sub.queue[..count], []);
    TakeCarriesAll(sub, sub', sv, sub.queue[..count], s.lost, s.client.value.cursor);
  }

  lemma MarkedQueueEvents(sub: Subscription, sv: Server)
    requires QueueOk(sub, sv) && sub.phase.MarkerQueued?
    ensures EventsOf(sub.queue) == sv.log[sub.taken..sv.published]
    ensures Plan(sub.queue, []) == Plan(Inputs(sv.log[sub.taken..sub.markAt]), []) + [Mark] + Plan(Inputs(sv.log[sub.markAt..sv.published]), [])
    ensures NoMarkSlots(Plan(Inputs(sv.log[sub.taken..sub.markAt]), [])) && NoMarkSlots(Plan(Inputs(sv.log[sub.markAt..sv.published]), []))
  {
    var a, b := sv.log[sub.taken..sub.markAt], sv.log[sub.markAt..sv.published];
    EventsAroundMark(a, b);
    assert a + b == sv.log[sub.taken..sv.published];
    PlanSplitsAtMark(Inputs(a), Inputs(b), []);
    PlanHasNoMark(a);
    PlanHasNoMark(b);
  }

  lemma EventsAroundMark(a: seq<ShellEvent>, b: seq<ShellEvent>)
    ensures EventsOf(Inputs(a) + [Synchronized] + Inputs(b)) == a + b
  {
    InputsAreEvents(a);
    InputsAreEvents(b);
    EventsOfAppend(Inputs(a) + [Synchronized], Inputs(b));
    EventsOfAppend(Inputs(a), [Synchronized]);
  }

  lemma PlanHasNoMark(events: seq<ShellEvent>)
    ensures NoMarkSlots(Plan(Inputs(events), []))
  {
    InputsAreEvents(events);
    PlanWithoutMarks(Inputs(events), []);
  }

  /** Everything the server had published when the marker was queued is placed before it. */
  lemma MarkComesAfter(sub: Subscription, sv: Server, i: nat, m: nat)
    requires ServerOk(sv) && QueueOk(sub, sv) && sub.phase.MarkerQueued?
    requires LastOfAggregate(sv.log, i) && sub.taken <= i < sub.markAt
    requires m < |Plan(sub.queue, [])| && Plan(sub.queue, [])[m].Mark?
    ensures HoldsBefore(Plan(sub.queue, []), sv.log[i], m)
  {
    MarkedQueueEvents(sub, sv);
    var before := Inputs(sv.log[sub.taken..sub.markAt]);
    InputsAreEvents(sv.log[sub.taken..sub.markAt]);
    TakenHolds(sv.log, sub.taken, before, i);
    HeldInPrefix(Plan(before, []), Plan(Inputs(sv.log[sub.markAt..sv.published]), []), sv.log[i], m);
  }

  lemma HeldInPrefix(plan: seq<Slot>, tail: seq<Slot>, e: ShellEvent, m: nat)
    requires NoMarkSlots(plan) && NoMarkSlots(tail) && HoldsBefore(plan, e, |plan|)
    requires m < |plan + [Mark] + tail| && (plan + [Mark] + tail)[m].Mark?
    ensures HoldsBefore(plan + [Mark] + tail, e, m)
  {
    var whole := plan + [Mark] + tail;
    assert forall k :: 0 <= k < |plan| ==> whole[k] == plan[k];
    assert forall k :: 0 <= k < |tail| ==> whole[|plan| + 1 + k] == tail[k];
    assert forall k :: |plan| < k < |whole| ==> whole[k] == tail[k - |plan| - 1] && !whole[k].Mark?;
    var k :| 0 <= k < |plan| && plan[k].Refetch? && plan[k].event == e && !plan[k].result.NoItem?;
    assert whole[k] == plan[k];
  }

  lemma TakeAllMarks(sub: Subscription, sub': Subscription, sv: Server, exempt: set<Aggregate>, cursor: nat)
    requires ServerOk(sv) && QueueOk(sub, sv) && sub.phase.MarkerQueued? && Takes(sub, sub', sv, sub.queue)
    requires AllCarried(sub, sv, exempt, cursor)
    requires forall i :: 0 <= i < |sv.log| && sub.frontier < sv.log[i].sequence <= sub.floor ==> i < sub.markAt
    ensures MarksOk(sub', sv, exempt, cursor)
  {
    forall m, i | 0 <= m < |sub'.pending| && sub'.pending[m].Mark? && Stale(sv, exempt, cursor, i) && sv.log[i].sequence <= sub.floor
      ensures HoldsBefore(sub'.pending, sv.log[i], m)
    {
      assert Carried(sub, sv.log, i);
      MarkComesAfter(sub, sv, i, m);
    }
  }

  lemma TakeAllIsTake(sub: Subscription, sv: Server)
    requires QueueOk(sub, sv) && sub.phase.MarkerQueued? && sub.pending == []
    ensures Takes(sub, Take(sub, |sub.queue|).(phase := Live), sv, sub.queue)
    ensures QueueOk(Take(sub, |sub.queue|).(phase := Live), sv)
  {
    var sub' := Take(sub, |sub.queue|).(phase := Live);
    MarkedQueueEvents(sub, sv);
    WholeQueue(sub);
    assert sub'.queue == Inputs(sv.log[sub'.taken..sv.published]);
  }

  lemma WholeQueue(sub: Subscription)
    ensures sub.queue[..|sub.queue|] == sub.queue && sub.queue[|sub.queue|..] == []
  {
  }

  lemma TakeAllStep(s: State)
    requires Inv(s) && Enabled(s, TakeAll)
    ensures Inv(Apply(s, TakeAll))
  {
    var sub, sv, c := s.link.sub, s.server, s.client.value.cursor;
    var sub' := Take(sub, |sub.queue|).(phase := Live);
    TakeAllIsTake(sub, sv);
    TakeKeepsSlots(sub, sub', sv, sub.queue);
    TakeCarriesAll(sub, sub', sv, sub.queue, s.lost, c);
    TakeAllMarks(sub, sub', sv, s.lost, c);
  }

  // ----- Reading rows and delivering -----

  /** A read may be newer than its event's sequence, but then a later event of the aggregate exists. */
  lemma ReadIsCurrent(sv: Server, event: ShellEvent, ok: bool)
    requires ServerOk(sv) && InLog(sv.log, event)
    ensures var item := ToShellStreamEvent(event, ReadOutcomeOf(sv.rows, event.aggregate, ok));
            item.Some? ==> ItemShows(item.value, sv.rows) || EventAbove(sv.log, event.aggregate, event.sequence)
  {
    var i :| 0 <= i < |sv.log| && sv.log[i] == event;
    if !LastOfAggregate(sv.log, i) {
      var j :| i < j < |sv.log| && sv.log[j].aggregate == event.aggregate;
    }
  }

  lemma ReadKeepsSlots(pending: seq<Slot>, frontier: nat, sv: Server, slot: nat, ok: bool)
    requires ServerOk(sv) && SlotsOk(pending, sv, frontier) && slot < |pending| && pending[slot].Refetch?
    ensures var event := pending[slot].event;
            var item := ToShellStreamEvent(event, ReadOutcomeOf(sv.rows, event.aggregate, ok));
            SlotsOk(pending[slot := Refetch(event, if item.Some? then Item(item.value) else NoItem)], sv, frontier)
  {
    var event := pending[slot].event;
    var item := ToShellStreamEvent(event, ReadOutcomeOf(sv.rows, event.aggregate, ok));
    var pending' := pending[slot := Refetch(event, if item.Some? then Item(item.value) else NoItem)];
    ReadIsCurrent(sv, event, ok);
    forall k | 0 <= k < |pending'| ensures SlotOk(pending'[k], sv, frontier) {
      assert SlotOk(pending[k], sv, frontier);
    }
  }

  lemma ReadKeepsHeld(pending: seq<Slot>, slot: nat, result: ReadState, e: ShellEvent, bound: int)
    requires slot < |pending| && pending[slot].Refetch?
    requires HoldsBefore(pending, e, bound) && (result.NoItem? ==> e != pending[slot].event)
    ensures HoldsBefore(pending[slot := Refetch(pending[slot].event, result)], e, bound)
  {
    var k :| 0 <= k < bound <= |pending| && pending[k].Refetch? && pending[k].event == e && !pending[k].result.NoItem?;
    assert pending[slot := Refetch(pending[slot].event, result)][k].Refetch?;
  }

  lemma StaleIsLatest(sv: Server, exempt: set<Aggregate>, cursor: nat, i: int)
    requires Stale(sv, exempt, cursor, i)
    ensures IsLatest(sv.log, sv.log[i])
  {
  }

  /** The effect of one read on the subscription, and on what it may exempt. */
  ghost predicate Reads(sub: Subscription, sub': Subscription, sv: Server, exempt: set<Aggregate>, exempt': set<Aggregate>, slot: nat, result: ReadState) {
    && slot < |sub.pending| && sub.pending[slot].Refetch?
    && sub' == sub.(pending := sub.pending[slot := Refetch(sub.pending[slot].event, result)])
    && exempt <= exempt'
    && (result.NoItem? && IsLatest(sv.log, sub.pending[slot].event) ==> sub.pending[slot].event.aggregate in exempt')
  }

  lemma ReadCarries(sub: Subscription, sub': Subscription, sv: Server, exempt: set<Aggregate>, exempt': set<Aggregate>, slot: nat, result: ReadState, cursor: nat)
    requires Reads(sub, sub', sv, exempt, exempt', slot, result) && AllCarried(sub, sv, exempt, cursor)
    ensures AllCarried(sub', sv, exempt', cursor)
  {
    forall i | Stale(sv, exempt', cursor, i) ensures Carried(sub', sv.log, i) {
      assert Stale(sv, exempt, cursor, i) && Carried(sub, sv.log, i);
      StaleIsLatest(sv, exempt', cursor, i);
      if sv.log[i].sequence <= sub.frontier {
        ReadKeepsHeld(sub.pending, slot, result, sv.log[i], |sub.pending|);
      }
    }
  }

  lemma ReadKeepsMarks(sub: Subscription, sub': Subscription, sv: Server, exempt: set<Aggregate>, exempt': set<Aggregate>, slot: nat, result: ReadState, cursor: nat)
    requires Reads(sub, sub', sv, exempt, exempt', slot, result) && MarksOk(sub, sv, exempt, cursor)
    ensures MarksOk(sub', sv, exempt', cursor)
  {
    forall m, i | 0 <= m < |sub'.pending| && sub'.pending[m].Mark? && Stale(sv, exempt', cursor, i) && sv.log[i].sequence <= sub.floor
      ensures HoldsBefore(sub'.pending, sv.log[i], m)
    {
      assert Stale(sv, exempt, cursor, i) && sub.pending[m].Mark?;
      StaleIsLatest(sv, exempt', cursor, i);
      ReadKeepsHeld(sub.pending, slot, result, sv.log[i], m);
    }
  }

  lemma ReadRowStep(s: State, slot: nat, ok: bool)
    requires Inv(s) && Enabled(s, ReadRow(slot, ok))
    ensures Inv(Apply(s, ReadRow(slot, ok)))
  {
    var sub, sv := s.link.sub, s.server;
    var s' := Apply(s, ReadRow(slot, ok));
    var sub', result := s'.link.sub, s'.link.sub.pending[slot].result;
    assert !SnapshotPending(sub);
    ReadKeepsSlots(sub.pending, sub.frontier, sv, slot, ok);
    assert Reads(sub, sub', sv, s.lost, s'.lost, slot, result);
    ReadCarries(sub, sub', sv, s.lost, s'.lost, slot, result, s.client.value.cursor);
    if sub.phase.Live? {
      ReadKeepsMarks(sub, sub', sv, s.lost, s'.lost, slot, result, s.client.value.cursor);
    }
  }

  lemma HeldAfterFirst(pending: seq<Slot>, e: ShellEvent, bound: int)
    requires HoldsBefore(pending, e, bound)
    requires pending[0].Refetch? ==> pending[0].event != e || pending[0].result.NoItem?
    ensures HoldsBefore(pending[1..], e, bound - 1)
  {
    var k :| 0 <= k < bound <= |pending| && pending[k].Refetch? && pending[k].event == e && !pending[k].result.NoItem?;
    assert pending[1..][k - 1] == pending[k];
  }

  lemma SlotsAfterFirst(pending: seq<Slot>, sv: Server, frontier: nat)
    requires SlotsOk(pending, sv, frontier) && pending != []
    ensures SlotsOk(pending[1..], sv, frontier)
  {
    var rest := pending[1..];
    forall k | 0 <= k < |rest| ensures SlotOk(rest[k], sv, frontier) && !rest[k].Snapshot? {
      assert rest[k] == pending[k + 1];
    }
    forall i, j | 0 <= i < j < |rest| && rest[i].Refetch? && rest[j].Refetch? ensures rest[i].event.sequence < rest[j].event.sequence {
      assert rest[i] == pending[i + 1] && rest[j] == pending[j + 1];
    }
  }

  lemma LatestIsUnique(log: seq<ShellEvent>, e: ShellEvent, i: int)
    requires IsLatest(log, e) && LastOfAggregate(log, i) && log[i].aggregate == e.aggregate
    ensures log[i] == e
  {
    var j :| LastOfAggregate(log, j) && log[j] == e;
  }

  /** What the first place of a batch does to the cursor and to the exempted aggregates. */
  ghost predicate Moves(sub: Subscription, sv: Server, exempt: set<Aggregate>, exempt': set<Aggregate>, cursor: nat, cursor': nat) {
    && sub.pending != [] && cursor <= cursor'
    && match sub.pending[0]
       case Refetch(event, result) =>
         (result.Item? ==> event.sequence <= cursor')
         && (exempt' == exempt || (exempt' == exempt - {event.aggregate} && event.sequence <= cursor' && IsLatest(sv.log, event)))
       case _ => exempt' == exempt
  }

  lemma StillStale(sub: Subscription, sv: Server, exempt: set<Aggregate>, exempt': set<Aggregate>, cursor: nat, cursor': nat, i: int)
    requires Moves(sub, sv, exempt, exempt', cursor, cursor') && AllRead(sub.pending) && Stale(sv, exempt', cursor', i)
    ensures Stale(sv, exempt, cursor, i)
    ensures sub.pending[0].Refetch? ==> sub.pending[0].event != sv.log[i] || sub.pending[0].result.NoItem?
  {
    if sub.pending[0].Refetch? && exempt' != exempt && sv.log[i].aggregate == sub.pending[0].event.aggregate {
      LatestIsUnique(sv.log, sub.pending[0].event, i);
    }
  }

  lemma DeliverCarries(sub: Subscription, sv: Server, exempt: set<Aggregate>, exempt': set<Aggregate>, cursor: nat, cursor': nat)
    requires Moves(sub, sv, exempt, exempt', cursor, cursor') && AllRead(sub.pending) && AllCarried(sub, sv, exempt, cursor)
    ensures AllCarried(sub.(pending := sub.pending[1..]), sv, exempt', cursor')
  {
    var sub' := sub.(pending := sub.pending[1..]);
    forall i | Stale(sv, exempt', cursor', i) ensures Carried(sub', sv.log, i) {
      StillStale(sub, sv, exempt, exempt', cursor, cursor', i);
      assert Carried(sub, sv.log, i);
      if sv.log[i].sequence <= sub.frontier {
        HeldAfterFirst(sub.pending, sv.log[i], |sub.pending|);
      }
    }
  }

  lemma DeliverKeepsMarks(sub: Subscription, sv: Server, exempt: set<Aggregate>, exempt': set<Aggregate>, cursor: nat, cursor': nat)
    requires Moves(sub, sv, exempt, exempt', cursor, cursor') && AllRead(sub.pending) && MarksOk(sub, sv, exempt, cursor)
    ensures MarksOk(sub.(pending := sub.pending[1..]), sv, exempt', cursor')
  {
    var rest := sub.pending[1..];
    forall m, i | 0 <= m < |rest| && rest[m].Mark? && Stale(sv, exempt', cursor', i) && sv.log[i].sequence <= sub.floor
      ensures HoldsBefore(rest, sv.log[i], m)
    {
      assert sub.pending[m + 1] == rest[m];
      StillStale(sub, sv, exempt, exempt', cursor, cursor', i);
      HeldAfterFirst(sub.pending, sv.log[i], m + 1);
    }
  }

  /** An aggregate whose item has not been delivered yet has an event above the item delivered now:
      batches are in sequence order and the frontier bounds them. */
  lemma OthersAreAbove(sub: Subscription, sv: Server, exempt: set<Aggregate>, cursor: nat, a: Aggregate)
    requires ServerOk(sv) && SlotsOk(sub.pending, sv, sub.frontier) && AllCarried(sub, sv, exempt, cursor)
    requires sub.pending != [] && sub.pending[0].Refetch? && sub.pending[0].event.aggregate != a
    requires a !in exempt && EventAbove(sv.log, a, cursor)
    ensures EventAbove(sv.log, a, sub.pending[0].event.sequence)
  {
    var i := StaleEvent(sv, exempt, cursor, a);
    assert Carried(sub, sv.log, i);
    assert SlotOk(sub.pending[0], sv, sub.frontier);
    if sv.log[i].sequence <= sub.frontier {
      HeldIsAboveFirst(sub.pending, sv.log[i]);
    }
  }

  lemma StaleEvent(sv: Server, exempt: set<Aggregate>, cursor: nat, a: Aggregate) returns (i: nat)
    requires Ascending(sv.log) && a !in exempt && EventAbove(sv.log, a, cursor)
    ensures Stale(sv, exempt, cursor, i) && sv.log[i].aggregate == a
  {
    var j :| 0 <= j < |sv.log| && sv.log[j].aggregate == a && sv.log[j].sequence > cursor;
    i := LastFrom(sv.log, j);
    assert j < i ==> sv.log[j].sequence < sv.log[i].sequence;
  }

  lemma HeldIsAboveFirst(pending: seq<Slot>, e: ShellEvent)
    requires SlotsAscend(pending) && HoldsBefore(pending, e, |pending|)
    requires pending[0].Refetch? && pending[0].event.aggregate != e.aggregate
    ensures pending[0].event.sequence < e.sequence
  {
    var k :| 0 <= k < |pending| && pending[k].Refetch? && pending[k].event == e;
    assert k > 0;
  }

  lemma ItemApplied(client: Client, item: ShellItem, sv: Server)
    requires client.cursor < item.sequence
    ensures ApplyShellItem(client, item).cursor == item.sequence
    ensures ItemShows(item, sv.rows) ==> SameRow(ApplyShellItem(client, item).rows, sv.rows, item.aggregate)
    ensures forall a: Aggregate :: a != item.aggregate ==>
              (SameRow(client.rows, sv.rows, a) <==> SameRow(ApplyShellItem(client, item).rows, sv.rows, a))
  {
  }

  lemma DeliverKeepsView(sub: Subscription, sv: Server, client: Client, exempt: set<Aggregate>, exempt': set<Aggregate>)
    requires ServerOk(sv) && SlotsOk(sub.pending, sv, sub.frontier) && sub.frontier <= LastSequence(sv.log)
    requires AllCarried(sub, sv, exempt, client.cursor) && ViewOk(client.rows, client.cursor, sv, exempt)
    requires sub.pending != [] && sub.pending[0].Refetch? && sub.pending[0].result.Item?
    requires client.cursor < sub.pending[0].event.sequence
    requires forall a :: a in exempt && a != sub.pending[0].event.aggregate ==> a in exempt'
    ensures ViewOk(ApplyShellItem(client, sub.pending[0].result.item).rows, sub.pending[0].event.sequence, sv, exempt')
  {
    var item, s := sub.pending[0].result.item, sub.pending[0].event.sequence;
    var client' := ApplyShellItem(client, item);
    assert SlotOk(sub.pending[0], sv, sub.frontier);
    ItemApplied(client, item, sv);
    forall a: Aggregate | a !in exempt' ensures SameRow(client'.rows, sv.rows, a) || EventAbove(sv.log, a, s) {
      if a != item.aggregate && EventAbove(sv.log, a, client.cursor) {
        OthersAreAbove(sub, sv, exempt, client.cursor, a);
      }
    }
  }

  lemma DeliverStep(s: State)
    requires Inv(s) && Enabled(s, Deliver)
    ensures Inv(Apply(s, Deliver))
  {
    if SnapshotPending(s.link.sub) {
      DeliverSnapshot(s);
    } else {
      DeliverPlace(s);
    }
  }

  lemma DeliverSnapshot(s: State)
    requires Inv(s) && Enabled(s, Deliver) && SnapshotPending(s.link.sub)
    ensures Inv(Apply(s, Deliver))
  {
    var sub, sv := s.link.sub, s.server;
    var sub' := Apply(s, Deliver).link.sub;
    assert sub'.pending == [];
    forall i | Stale(sv, {}, sub.frontier, i) ensures Carried(sub', sv.log, i) {
      assert Carried(sub, sv.log, i);
    }
  }

  /** Delivering one place of a batch moves the client without breaking its view. */
  lemma DeliverMoves(s: State, sub: Subscription, client: Client)
    requires ServerOk(s.server) && s.link == Up(sub) && s.client == Some(client) && sub.pending != [] && AllRead(sub.pending)
    requires SlotsOk(sub.pending, s.server, sub.frontier) && sub.frontier <= LastSequence(s.server.log)
    requires ViewOk(client.rows, client.cursor, s.server, s.lost) && AllCarried(sub, s.server, s.lost, client.cursor)
    ensures var s' := Apply(s, Deliver);
      && s'.client.Some? && s'.server == s.server && s'.link == Up(sub.(pending := sub.pending[1..]))
      && ViewOk(s'.client.value.rows, s'.client.value.cursor, s.server, s'.lost)
      && Moves(sub, s.server, s.lost, s'.lost, client.cursor, s'.client.value.cursor)
  {
    var s' := Apply(s, Deliver);
    assert SlotOk(sub.pending[0], s.server, sub.frontier);
    if sub.pending[0].Refetch? && sub.pending[0].result.Item? && client.cursor < sub.pending[0].event.sequence {
      DeliverKeepsView(sub, s.server, client, s.lost, s'.lost);
      ItemApplied(client, sub.pending[0].result.item, s.server);
    }
  }

  lemma DeliverPlace(s: State)
    requires Inv(s) && Enabled(s, Deliver) && !SnapshotPending(s.link.sub)
    ensures Inv(Apply(s, Deliver))
  {
    var sub, sv, client := s.link.sub, s.server, s.client.value;
    DeliverMoves(s, sub, client);
    var s' := Apply(s, Deliver);
    SlotsAfterFirst(sub.pending, sv, sub.frontier);
    DeliverCarries(sub, sv, s.lost, s'.lost, client.cursor, s'.client.value.cursor);
    if sub.phase.Live? {
      DeliverKeepsMarks(sub, sv, s.lost, s'.lost, client.cursor, s'.client.value.cursor);
    }
  }

  // ----- Every run -----

  lemma ServerStepKeepsInv(s: State, step: Step)
    requires Inv(s) && Enabled(s, step)
    requires step.Commit? || step.AdvanceHead? || step.Publish? || step.Subscribe? || step.LoadOverHttp? || step.Disconnect?
    ensures Inv(Apply(s, step))
  {
    match step
    case Commit(events, rows) => CommitStep(s, events, rows);
    case AdvanceHead => AdvanceHeadStep(s);
    case Publish => PublishStep(s);
    case Subscribe(useCursor, wantsMarker) => SubscribeStep(s, useCursor, wantsMarker);
    case LoadOverHttp => LoadOverHttpStep(s);
    case Disconnect =>
  }

  lemma SubscriptionStepKeepsInv(s: State, step: Step)
    requires Inv(s) && Enabled(s, step)
    requires !(step.Commit? || step.AdvanceHead? || step.Publish? || step.Subscribe? || step.LoadOverHttp? || step.Disconnect?)
    ensures Inv(Apply(s, step))
  {
    if step.ReadHead? || step.LoadSnapshot? || step.FetchPage? || step.CoalesceReplay? || step.FinishReplay? {
      CatchUpStepKeepsInv(s, step);
    } else {
      LiveStepKeepsInv(s, step);
    }
  }

  lemma CatchUpStepKeepsInv(s: State, step: Step)
    requires Inv(s) && Enabled(s, step)
    requires step.ReadHead? || step.LoadSnapshot? || step.FetchPage? || step.CoalesceReplay? || step.FinishReplay?
    ensures Inv(Apply(s, step))
  {
    match step
    case ReadHead(withinBudget) => ReadHeadStep(s, withinBudget);
    case LoadSnapshot => LoadSnapshotStep(s);
    case FetchPage => FetchPageStep(s);
    case CoalesceReplay(count) => CoalesceReplayStep(s, count);
    case FinishReplay => FinishReplayStep(s);
  }

  lemma LiveStepKeepsInv(s: State, step: Step)
    requires Inv(s) && Enabled(s, step)
    requires step.StartLive? || step.TakeAll? || step.TakeLive? || step.ReadRow? || step.Deliver?
    ensures Inv(Apply(s, step))
  {
    match step
    case StartLive => StartLiveStep(s);
    case TakeAll => TakeAllStep(s);
    case TakeLive(count) => TakeLiveStep(s, count);
    case ReadRow(slot, ok) => ReadRowStep(s, slot, ok);
    case Deliver => DeliverStep(s);
  }

  lemma StepKeepsInv(s: State, step: Step)
    requires Inv(s) && Enabled(s, step)
    ensures Inv(Apply(s, step))
  {
    if step.Commit? || step.AdvanceHead? || step.Publish? || step.Subscribe? || step.LoadOverHttp? || step.Disconnect? {
      ServerStepKeepsInv(s, step);
    } else {
      SubscriptionStepKeepsInv(s, step);
    }
  }

  lemma {:induction false} RunKeepsInv(s: State, steps: seq<Step>)
    requires Inv(s) && ValidRun(s, steps)
    ensures Inv(Run(s, steps))
    decreases |steps|
  {
    if steps != [] {
      StepKeepsInv(s, steps[0]);
      RunKeepsInv(Apply(s, steps[0]), steps[1..]);
    }
  }

  /** Safety of the cursor, in every run and at every moment, connected or not: an aggregate the
      client does not show as the server has it still has an event above the cursor (unless its
      latest event gave no item), so a disconnect after any delivered item loses nothing. */
  lemma CursorNeverSkips(steps: seq<Step>, a: Aggregate)
    requires ValidRun(Init, steps)
    ensures var s := Run(Init, steps);
      s.client.Some? && a !in s.lost ==>
        SameRow(s.client.value.rows, s.server.rows, a) || EventAbove(s.server.log, a, s.client.value.cursor)
  {
    RunKeepsInv(Init, steps);
  }

  /** Convergence: after any run, once the log is quiet and the subscription drained, the client
      shows every aggregate as the server has it, except those whose latest event gave no item. */
  lemma Converges(steps: seq<Step>, a: Aggregate)
    requires ValidRun(Init, steps) && Quiet(Run(Init, steps)) && a !in Run(Init, steps).lost
    ensures Run(Init, steps).client.Some?
    ensures SameRow(Run(Init, steps).client.value.rows, Run(Init, steps).server.rows, a)
  {
    RunKeepsInv(Init, steps);
    var s := Run(Init, steps);
    QuietIsDrained(s.link.sub, s.server);
    if EventAbove(s.server.log, a, s.client.value.cursor) {
      var i := StaleWitness(s.server, s.lost, s.client.value.cursor, a);
      NothingCarried(s.link.sub, s.server, i);
    }
  }

  lemma StaleWitness(sv: Server, exempt: set<Aggregate>, cursor: nat, a: Aggregate) returns (i: nat)
    requires Ascending(sv.log) && EventAbove(sv.log, a, cursor) && a !in exempt
    ensures Stale(sv, exempt, cursor, i) && sv.log[i].aggregate == a
  {
    var j :| 0 <= j < |sv.log| && sv.log[j].aggregate == a && sv.log[j].sequence > cursor;
    i := LastFrom(sv.log, j);
  }

  lemma QuietIsDrained(sub: Subscription, sv: Server)
    requires QueueOk(sub, sv) && sub.phase.Live? && sub.queue == [] && sv.published == |sv.log|
    ensures sub.taken == |sv.log|
  {
    assert |Inputs(sv.log[sub.taken..sv.published])| == sv.published - sub.taken;
  }

  lemma NothingCarried(sub: Subscription, sv: Server, i: nat)
    requires sub.phase.Live? && sub.pending == [] && sub.taken == |sv.log| && i < |sv.log|
    ensures !Carried(sub, sv.log, i)
  {
  }

  /** No refetch failed and every committed event is of a kind the stream handles. */
  ghost predicate Clean(step: Step) {
    && (step.ReadRow? ==> step.ok)
    && (step.Commit? ==> forall i :: 0 <= i < |step.events| ==> Handled(step.events[i]))
  }

  ghost predicate NothingLost(s: State) {
    && s.lost == {}
    && (forall i :: 0 <= i < |s.server.log| ==> Handled(s.server.log[i]))
  }

  lemma CleanStep(s: State, step: Step)
    requires Inv(s) && NothingLost(s) && Enabled(s, step) && Clean(step)
    ensures NothingLost(Apply(s, step))
  {
    if step.ReadRow? {
      assert !SnapshotPending(s.link.sub);
      assert SlotOk(s.link.sub.pending[step.slot], s.server, s.link.sub.frontier);
    }
  }

  lemma {:induction false} CleanRun(s: State, steps: seq<Step>)
    requires Inv(s) && NothingLost(s) && ValidRun(s, steps)
    requires forall i :: 0 <= i < |steps| ==> Clean(steps[i])
    ensures NothingLost(Run(s, steps))
    decreases |steps|
  {
    if steps != [] {
      StepKeepsInv(s, steps[0]);
      CleanStep(s, steps[0]);
      CleanRun(Apply(s, steps[0]), steps[1..]);
    }
  }

  lemma SameEverywhere(a: map<Aggregate, Row>, b: map<Aggregate, Row>)
    requires forall g: Aggregate :: SameRow(a, b, g)
    ensures a == b
  {
    forall g ensures (g in a <==> g in b) && (g in a ==> a[g] == b[g]) {
      assert SameRow(a, b, g);
    }
  }

  /** With successful reads and handled events, a quiet client equals the projection, whatever the
      interleaving of commits, publications, reads, deliveries, disconnects and resumes before. */
  lemma ConvergesExactly(steps: seq<Step>)
    requires ValidRun(Init, steps) && Quiet(Run(Init, steps))
    requires forall i :: 0 <= i < |steps| ==> Clean(steps[i])
    ensures Run(Init, steps).client.Some? && Run(Init, steps).client.value.rows == Run(Init, steps).server.rows
  {
    CleanRun(Init, steps);
    var s := Run(Init, steps);
    Converges(steps, Aggregate(Thread, ""));
    forall a: Aggregate ensures SameRow(s.client.value.rows, s.server.rows, a) {
      Converges(steps, a);
    }
    SameEverywhere(s.client.value.rows, s.server.rows);
  }

  /** What `synchronized` tells the client: when the marker is delivered, an aggregate it does not
      show as the server has it has an event above the floor, that is, above everything that was
      replayed, in the snapshot or published when the marker was queued. */
  lemma SynchronizedMeansCaughtUp(steps: seq<Step>, a: Aggregate)
    requires ValidRun(Init, steps)
    requires Enabled(Run(Init, steps), Deliver) && Run(Init, steps).link.sub.pending[0].Mark?
    requires a !in Run(Init, steps).lost
    ensures var s := Run(Init, steps);
      && s.client.Some?
      && (SameRow(s.client.value.rows, s.server.rows, a) || EventAbove(s.server.log, a, s.link.sub.floor))
  {
    RunKeepsInv(Init, steps);
    CaughtUpAtMark(Run(Init, steps), a);
  }

  lemma CaughtUpAtMark(s: State, a: Aggregate)
    requires Inv(s) && s.link.Up? && s.link.sub.pending != [] && s.link.sub.pending[0].Mark? && a !in s.lost
    ensures s.client.Some?
    ensures SameRow(s.client.value.rows, s.server.rows, a) || EventAbove(s.server.log, a, s.link.sub.floor)
  {
    assert !SnapshotPending(s.link.sub);
    if EventAbove(s.server.log, a, s.client.value.cursor) {
      var i := StaleWitness(s.server, s.lost, s.client.value.cursor, a);
      MarkFirst(s.link.sub, s.server, s.lost, s.client.value.cursor, i);
    }
  }

  lemma MarkFirst(sub: Subscription, sv: Server, exempt: set<Aggregate>, cursor: nat, i: nat)
    requires MarksOk(sub, sv, exempt, cursor) && sub.pending != [] && sub.pending[0].Mark? && Stale(sv, exempt, cursor, i)
    ensures sv.log[i].sequence > sub.floor
  {
  }
}
