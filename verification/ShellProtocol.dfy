/** The resumable shell subscription of `ws.ts` as a state machine: the orchestration engine
    commits, advances its head and publishes; a subscriber attaches a live buffer, replays or takes
    a snapshot, and then drains the buffer; the client applies items by sequence and may disconnect
    after any of them. */
module ShellProtocol {
  import opened Prelude
  import opened ShellCoalescing

  const SHELL_RESUME_MAX_GAP: nat := 1_000
  const SHELL_COALESCE_MAX_CHUNK: nat := 512
  const READ_PAGE_SIZE: nat := 500

  /** The event log and the projected rows commit together. `head` is the engine's in-memory
      sequence, which follows a commit; the first `published` events have reached the PubSub. */
  datatype Server = Server(log: seq<ShellEvent>, rows: map<Aggregate, Row>, head: nat, published: nat)

  datatype Client = Client(rows: map<Aggregate, Row>, cursor: nat)

  datatype Phase =
    | Attached(after: Option<nat>)
    | SnapshotNeeded
    | Replaying(head: nat, remaining: nat, read: nat, fetched: seq<ShellEvent>)
    | CaughtUp
    | MarkerQueued
    | Live

  /** `queue` is the live buffer and `pending` the batch being refetched and delivered. The last
      four fields only record history: how much of the log went through the queue, the highest
      sequence ever planned for delivery, and where the log and the deliveries stood when the
      completion marker was queued. */
  datatype Subscription = Subscription(
    phase: Phase, wantsMarker: bool, queue: seq<LiveInput>, pending: seq<Slot>,
    taken: nat, frontier: nat, floor: nat, markAt: nat)

  datatype Link = Down | Up(sub: Subscription)

  /** `lost` records the aggregates whose latest event gave no item, because its refetch failed
      twice or its type is not handled, and which no resume has taken up again. */
  datatype State = State(server: Server, client: Option<Client>, link: Link, lost: set<Aggregate>)

  datatype Step =
    | Commit(events: seq<ShellEvent>, rows: map<Aggregate, Row>)
    | AdvanceHead
    | Publish
    | Subscribe(useCursor: bool, wantsMarker: bool)
    | ReadHead(withinBudget: bool)
    | LoadSnapshot
    | FetchPage
    | CoalesceReplay(count: nat)
    | FinishReplay
    | StartLive
    | TakeAll
    | TakeLive(count: nat)
    | ReadRow(slot: nat, ok: bool)
    | Deliver
    | Disconnect
    | LoadOverHttp

  const Init := State(Server([], map[], 0, 0), None, Down, {})

  function LastSequence(log: seq<ShellEvent>): nat {
    if log == [] then 0 else log[|log| - 1].sequence
  }

  function Min(a: nat, b: nat): nat { if a < b then a else b }

  function Max(a: nat, b: nat): nat { if a < b then b else a }

  ghost predicate SameRow(a: map<Aggregate, Row>, b: map<Aggregate, Row>, aggregate: Aggregate) {
    && (aggregate in a <==> aggregate in b)
    && (aggregate in a ==> a[aggregate] == b[aggregate])
  }

  ghost predicate Touches(events: seq<ShellEvent>, aggregate: Aggregate) {
    exists i :: 0 <= i < |events| && events[i].aggregate == aggregate
  }

  ghost predicate EventAbove(log: seq<ShellEvent>, aggregate: Aggregate, sequence: nat) {
    exists i :: 0 <= i < |log| && log[i].aggregate == aggregate && log[i].sequence > sequence
  }

  /** The client shows something else than the server, and no event is left to resume from that would
      bring it. */
  ghost predicate IsStranded(server: Server, client: Client, aggregate: Aggregate) {
    !SameRow(client.rows, server.rows, aggregate) && !EventAbove(server.log, aggregate, client.cursor)
  }

  ghost predicate IsLatest(log: seq<ShellEvent>, event: ShellEvent) {
    exists i :: LastOfAggregate(log, i) && log[i] == event
  }

  /** The rows the event store returns after a sequence, in sequence order. */
  function After(log: seq<ShellEvent>, sequence: nat): seq<ShellEvent> {
    if log == [] then []
    else (if log[0].sequence > sequence then [log[0]] else []) + After(log[1..], sequence)
  }

  function PageAfter(log: seq<ShellEvent>, sequence: nat, limit: nat): seq<ShellEvent> {
    var rows := After(log, sequence);
    rows[..Min(limit, |rows|)]
  }

  function Inputs(events: seq<ShellEvent>): seq<LiveInput> {
    seq(|events|, i requires 0 <= i < |events| => Event(events[i]))
  }

  /** `applyShellStreamEvent` in the client's shell reducer. */
  function ApplyShellItem(client: Client, item: ShellItem): Client {
    if item.sequence <= client.cursor then client
    else match item
      case Upserted(sequence, aggregate, row) => Client(client.rows[aggregate := row], sequence)
      case Removed(sequence, aggregate) => Client(client.rows - {aggregate}, sequence)
  }

  ghost predicate CanCommit(server: Server, events: seq<ShellEvent>, rows: map<Aggregate, Row>) {
    && events != []
    && Ascending(events)
    && LastSequence(server.log) < events[0].sequence
    && (forall a: Aggregate :: !Touches(events, a) ==> SameRow(rows, server.rows, a))
    && (forall i {:trigger LastOfAggregate(events, i)} ::
          LastOfAggregate(events, i) && IsRemoval(events[i].eventType) ==> events[i].aggregate !in rows)
  }

  predicate AllRead(pending: seq<Slot>) {
    forall k :: 0 <= k < |pending| && pending[k].Refetch? ==> !pending[k].result.Unread?
  }

  ghost predicate Enabled(s: State, step: Step) {
    match step
    case Commit(events, rows) => CanCommit(s.server, events, rows)
    case AdvanceHead => s.server.head < LastSequence(s.server.log)
    case Publish => s.server.published < |s.server.log| && s.server.log[s.server.published].sequence <= s.server.head
    case Subscribe(useCursor, _) => s.link.Down? && (useCursor ==> s.client.Some?)
    case LoadOverHttp => s.link.Down?
    case Disconnect => s.link.Up?
    case _ => s.link.Up? && SubEnabled(s, s.link.sub, step)
  }

  ghost predicate SubEnabled(s: State, sub: Subscription, step: Step) {
    match step
    case ReadHead(_) => sub.phase.Attached?
    case LoadSnapshot => sub.phase.SnapshotNeeded?
    case FetchPage => sub.phase.Replaying? && sub.phase.remaining > 0
    case CoalesceReplay(count) =>
      sub.phase.Replaying? && sub.pending == [] && 0 < count <= Min(SHELL_COALESCE_MAX_CHUNK, |sub.phase.fetched|)
    case FinishReplay => sub.phase.Replaying? && sub.pending == [] && sub.phase.remaining == 0 && sub.phase.fetched == []
    case StartLive => sub.phase.CaughtUp? && sub.pending == []
    case TakeAll => sub.phase.MarkerQueued?
    case TakeLive(count) => sub.phase.Live? && sub.pending == [] && 0 < count <= Min(SHELL_COALESCE_MAX_CHUNK, |sub.queue|)
    case ReadRow(slot, _) => slot < |sub.pending| && sub.pending[slot].Refetch? && sub.pending[slot].result.Unread?
    case Deliver => sub.pending != [] && AllRead(sub.pending)
    case _ => false
  }

  ghost function Apply(s: State, step: Step): State
    requires Enabled(s, step)
  {
    match step
    case Commit(events, rows) =>
      s.(server := s.server.(log := s.server.log + events, rows := rows),
         lost := set a | a in s.lost && !Touches(events, a))
    case AdvanceHead => s.(server := s.server.(head := LastSequence(s.server.log)))
    case Publish =>
      s.(server := s.server.(published := s.server.published + 1),
         link := if s.link.Down? then Down
                 else Up(s.link.sub.(queue := s.link.sub.queue + [Event(s.server.log[s.server.published])])))
    case Subscribe(useCursor, wantsMarker) =>
      s.(link := Up(Subscription(Attached(if useCursor then Some(s.client.value.cursor) else None),
                                 wantsMarker, [], [], s.server.published, 0, 0, 0)),
         lost := set a | a in s.lost && s.client.Some? && IsStranded(s.server, s.client.value, a))
    case LoadOverHttp => s.(client := Some(Client(s.server.rows, LastSequence(s.server.log))), lost := {})
    case Disconnect => s.(link := Down)
    case ReadRow(slot, ok) => AfterReadRow(s, s.link.sub, slot, ok)
    case Deliver => AfterDeliver(s, s.link.sub)
    case _ => s.(link := Up(NextSub(s, s.link.sub, step)))
  }

  /** The steps that change nothing but the subscription. */
  ghost function NextSub(s: State, sub: Subscription, step: Step): Subscription
    requires SubEnabled(s, sub, step) && !step.ReadRow? && !step.Deliver?
  {
    match step
    case ReadHead(withinBudget) =>
      if sub.phase.after.None? then sub.(phase := SnapshotNeeded)
      else
        var after, head := sub.phase.after.value, s.server.head;
        if head < after || head - after > SHELL_RESUME_MAX_GAP || !withinBudget then sub.(phase := SnapshotNeeded)
        else sub.(phase := Replaying(head, head - after, after, []), frontier := after)
    case LoadSnapshot =>
      var sequence := LastSequence(s.server.log);
      sub.(phase := CaughtUp, pending := [Snapshot(s.server.rows, sequence)], frontier := sequence)
    case FetchPage =>
      var page := PageAfter(s.server.log, sub.phase.read, Min(sub.phase.remaining, READ_PAGE_SIZE));
      if page == [] then sub.(phase := sub.phase.(remaining := 0))
      else sub.(phase := sub.phase.(remaining := sub.phase.remaining - |page|, read := LastSequence(page),
                                    fetched := sub.phase.fetched + page))
    case CoalesceReplay(count) =>
      sub.(pending := Plan(Inputs(sub.phase.fetched[..count]), []),
           phase := sub.phase.(fetched := sub.phase.fetched[count..]),
           frontier := sub.phase.fetched[count - 1].sequence)
    case FinishReplay => sub.(phase := CaughtUp)
    case StartLive =>
      if !sub.wantsMarker then sub.(phase := Live)
      else sub.(phase := MarkerQueued, queue := sub.queue + [Synchronized], markAt := s.server.published,
                floor := Max(sub.frontier, LastSequence(s.server.log[..Min(s.server.published, |s.server.log|)])))
    case TakeAll => Take(sub, |sub.queue|).(phase := Live)
    case TakeLive(count) => Take(sub, count)
  }

  function Take(sub: Subscription, count: nat): Subscription
    requires count <= |sub.queue|
  {
    var events := EventsOf(sub.queue[..count]);
    sub.(pending := Plan(sub.queue[..count], []), queue := sub.queue[count..],
         taken := sub.taken + |events|, frontier := Max(sub.frontier, LastSequence(events)))
  }

  function ReadOutcomeOf(rows: map<Aggregate, Row>, aggregate: Aggregate, ok: bool): ReadOutcome {
    if !ok then ReadFailed else if aggregate in rows then Found(rows[aggregate]) else Missing
  }

  ghost function AfterReadRow(s: State, sub: Subscription, slot: nat, ok: bool): State
    requires SubEnabled(s, sub, ReadRow(slot, ok))
  {
    var event := sub.pending[slot].event;
    var item := ToShellStreamEvent(event, ReadOutcomeOf(s.server.rows, event.aggregate, ok));
    var result := if item.Some? then Item(item.value) else NoItem;
    s.(link := Up(sub.(pending := sub.pending[slot := Refetch(event, result)])),
       lost := if item.None? && IsLatest(s.server.log, event) then s.lost + {event.aggregate} else s.lost)
  }

  ghost function AfterDeliver(s: State, sub: Subscription): State
    requires SubEnabled(s, sub, Deliver)
  {
    var rest := s.(link := Up(sub.(pending := sub.pending[1..])));
    match sub.pending[0]
    case Mark => rest
    case Snapshot(rows, sequence) => rest.(client := Some(Client(rows, sequence)), lost := {})
    case Refetch(event, result) =>
      if !result.Item? || s.client.None? then rest
      else rest.(client := Some(ApplyShellItem(s.client.value, result.item)),
                 lost := if s.client.value.cursor < event.sequence && IsLatest(s.server.log, event)
                         then s.lost - {event.aggregate} else s.lost)
  }

  ghost predicate ValidRun(s: State, steps: seq<Step>)
    decreases |steps|
  {
    steps == [] || (Enabled(s, steps[0]) && ValidRun(Apply(s, steps[0]), steps[1..]))
  }

  ghost function Run(s: State, steps: seq<Step>): State
    requires ValidRun(s, steps)
    decreases |steps|
  {
    if steps == [] then s else Run(Apply(s, steps[0]), steps[1..])
  }

  /** The log is quiet and everything published has reached the client. */
  ghost predicate Quiet(s: State) {
    && s.server.published == |s.server.log|
    && s.link.Up? && s.link.sub.phase.Live? && s.link.sub.queue == [] && s.link.sub.pending == []
  }
}
