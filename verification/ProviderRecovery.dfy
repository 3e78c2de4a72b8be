/** Startup recovery of provider sessions (`serverRuntimeStartup.ts`). Two durable records per
    thread, the session projection and the directory binding with its continuation marker, are
    written one after the other, so a crash can fall between any two writes. */
module ProviderRecovery {
  import opened Prelude

  type ThreadId = string

  type TurnId = t: string | |t| > 0 witness "t"

  datatype Json = JNull | JBool(value: bool) | JText(text: string) | JOther(content: string)

  datatype Key =
    | ContinueAfterServerUpdate
    | ContinueAfterServerUpdatePrepared
    | ActiveTurnId
    | OtherKey(name: string)

  /** A persisted runtime payload: a JSON object, or anything else (`null`, an array, a scalar). */
  datatype Payload = Record(fields: map<Key, Json>) | NotRecord

  datatype BindingStatus = BindingStarting | BindingRunning | BindingStopped | BindingError

  /** `resumeCursor` is absent when the persisted one is null. */
  datatype Binding = Binding(status: BindingStatus, resumeCursor: Option<string>, payload: Payload)

  datatype SessionStatus = Idle | Starting | Running | Ready | Interrupted | Stopped | Error

  datatype Session = Session(status: SessionStatus, activeTurn: Option<TurnId>, lastError: Option<string>)

  datatype Thread = Thread(session: Option<Session>, archived: bool, deleted: bool)

  const ORPHANED_PROVIDER_SESSION_ERROR := "Provider session did not survive a server restart. Send a new message to continue."

  const CONTINUATION_FAILED_ERROR := "Could not continue this thread after the server restart. Send a new message to continue."

  // ----- Reading and merging payloads -----

  function ReadRuntimePayload(payload: Payload): map<Key, Json> {
    if payload.Record? then payload.fields else map[]
  }

  predicate HasMarker(payload: Payload) {
    payload.Record? && ContinueAfterServerUpdate in payload.fields
  }

  function ContinuationTurn(payload: Payload): Option<TurnId> {
    if !HasMarker(payload) then None
    else match payload.fields[ContinueAfterServerUpdate]
      case JText(text) => if |text| > 0 then Some(text) else None
      case _ => None
  }

  /** `None` stands for `undefined`. */
  function FieldOf(payload: Payload, key: Key): Option<Json> {
    if key in ReadRuntimePayload(payload) then Some(ReadRuntimePayload(payload)[key]) else None
  }

  /** `ProviderSessionDirectory.upsert`: fields of the new payload win over the stored ones. */
  function Merged(existing: Payload, next: map<Key, Json>): Payload {
    Record(ReadRuntimePayload(existing) + next)
  }

  // ----- The startup decision -----

  /** The marker of a continuation that was prepared but not yet sent. */
  predicate IsPrepared(binding: Binding) {
    && ContinuationTurn(binding.payload).Some?
    && FieldOf(binding.payload, ActiveTurnId) == Some(JNull)
    && FieldOf(binding.payload, ContinueAfterServerUpdatePrepared) == Some(JBool(true))
  }

  predicate Orphaned(thread: Thread, binding: Option<Binding>, live: bool) {
    && thread.session.Some?
    && (|| thread.session.value.status.Starting?
        || thread.session.value.status.Running?
        || thread.session.value.activeTurn.Some?
        || (thread.session.value.status.Ready? && binding.Some? && IsPrepared(binding.value)))
    && !live
  }

  predicate ContinuationMarked(session: Session, binding: Binding) {
    var turn := ContinuationTurn(binding.payload);
    var active := FieldOf(binding.payload, ActiveTurnId);
    && turn.Some?
    && (session.activeTurn.None? || turn == session.activeTurn)
    && (session.activeTurn.Some? || active.None? || active.value.JNull? || active.value == JText(turn.value))
  }

  predicate PreparedWhileReady(session: Session, binding: Binding) {
    && session.status.Ready? && session.activeTurn.None?
    && ContinuationMarked(session, binding)
    && FieldOf(binding.payload, ActiveTurnId) == Some(JNull)
    && FieldOf(binding.payload, ContinueAfterServerUpdatePrepared) == Some(JBool(true))
  }

  predicate InterruptedByRestart(session: Session, binding: Binding, continueAfterRestart: bool) {
    && continueAfterRestart
    && session.status.Running? && session.activeTurn.Some?
    && binding.status.BindingRunning? && binding.resumeCursor.Some?
  }

  /** The guard under which startup prepares a continuation instead of settling the session. */
  predicate Continues(thread: Thread, binding: Option<Binding>, continueAfterRestart: bool) {
    && thread.session.Some? && binding.Some?
    && var session := thread.session.value;
    && (ContinuationMarked(session, binding.value) || InterruptedByRestart(session, binding.value, continueAfterRestart))
    && (session.status.Running? || session.status.Starting? || PreparedWhileReady(session, binding.value))
    && binding.value.resumeCursor.Some?
    && !thread.archived && !thread.deleted
  }

  /** The turn a continuation is prepared for. */
  function ContinuationId(session: Session, binding: Binding): Option<TurnId> {
    if session.activeTurn.Some? then session.activeTurn else ContinuationTurn(binding.payload)
  }

  // ----- The durable writes -----

  function TurnJson(turn: Option<TurnId>): Json {
    if turn.Some? then JText(turn.value) else JNull
  }

  /** The first prepare write, and the second. */
  function PreparedBinding(session: Session, binding: Binding): Binding {
    Binding(BindingStarting, binding.resumeCursor,
            Merged(binding.payload, map[ContinueAfterServerUpdate := TurnJson(ContinuationId(session, binding)),
                                        ContinueAfterServerUpdatePrepared := JBool(true),
                                        ActiveTurnId := JNull]))
  }

  function Resumed(session: Session): Session {
    Session(Starting, None, None)
  }

  function SettledBinding(binding: Binding, clearMarkers: bool): Binding {
    Binding(BindingStopped, binding.resumeCursor,
            Merged(binding.payload, map[ActiveTurnId := JNull]
                                    + if clearMarkers then map[ContinueAfterServerUpdate := JNull, ContinueAfterServerUpdatePrepared := JNull]
                                      else map[]))
  }

  /** The same write over what is stored by now: fields it does not name stay. */
  function SettledOver(stored: Option<Binding>, binding: Binding, clearMarkers: bool): Binding {
    var settled := SettledBinding(binding, clearMarkers);
    settled.(payload := Merged(StoredPayload(stored), ReadRuntimePayload(settled.payload)))
  }

  function StoredPayload(binding: Option<Binding>): Payload {
    if binding.Some? then binding.value.payload else NotRecord
  }

  function Settled(session: Session, lastError: string): Session {
    Session(Error, None, Some(lastError))
  }

  predicate ClearsMarkers(session: Session, binding: Binding, continueAfterRestart: bool) {
    HasMarker(binding.payload) || InterruptedByRestart(session, binding, continueAfterRestart)
  }

  /** What one startup leaves of an orphaned thread when its writes succeed. */
  function Reconciled(thread: Thread, binding: Option<Binding>, continueAfterRestart: bool): (result: (Thread, Option<Binding>))
    requires thread.session.Some?
  {
    var session := thread.session.value;
    if Continues(thread, binding, continueAfterRestart) then
      (thread.(session := Some(Resumed(session))), Some(PreparedBinding(session, binding.value)))
    else
      (thread.(session := Some(Settled(session, ORPHANED_PROVIDER_SESSION_ERROR))),
       if binding.None? then None
       else Some(SettledBinding(binding.value, ClearsMarkers(session, binding.value, continueAfterRestart))))
  }

  // ----- Any number of crashes -----

  /** Where the process dies after the guard passed: after none, one or both prepare writes, after
      the provider came up, or after it took the continuation but before that turn was admitted to
      the directory. A starting provider rewrites its binding with any other fields, no active turn
      and possibly a new resume cursor, and may get its session reported ready; once it has taken a
      turn, its events may have moved the projection to any session. */
  datatype Crash =
    | BeforeWrites
    | AfterBinding
    | AfterBoth
    | AfterProviderStart(status: BindingStatus, newCursor: Option<string>, fields: map<string, Json>, reported: bool)
    | AfterSend(status: BindingStatus, newCursor: Option<string>, fields: map<string, Json>, projected: Session)

  function OtherFields(fields: map<string, Json>): map<Key, Json> {
    map name | name in fields :: OtherKey(name) := fields[name]
  }

  function StartedBinding(prepared: Binding, status: BindingStatus, newCursor: Option<string>, fields: map<string, Json>): Binding {
    Binding(status, if newCursor.Some? then newCursor else prepared.resumeCursor,
            Merged(prepared.payload, OtherFields(fields)[ActiveTurnId := JNull]))
  }

  function AfterCrash(session: Session, binding: Binding, crash: Crash): (Session, Binding) {
    match crash
    case BeforeWrites => (session, binding)
    case AfterBinding => (session, PreparedBinding(session, binding))
    case AfterBoth => (Resumed(session), PreparedBinding(session, binding))
    case AfterProviderStart(status, newCursor, fields, reported) =>
      (if reported then Session(Ready, None, None) else Resumed(session),
       StartedBinding(PreparedBinding(session, binding), status, newCursor, fields))
    case AfterSend(status, newCursor, fields, projected) =>
      (projected, StartedBinding(PreparedBinding(session, binding), status, newCursor, fields))
  }

  /** The records do not show that the provider took the turn: nothing is projected of it, or the
      provider carries the old turn's id on. */
  predicate LeavesTurn(crash: Crash, turn: Option<TurnId>) {
    crash.AfterSend? ==>
      if crash.projected.activeTurn.None? then
        crash.projected.status.Starting? || crash.projected.status.Running? || crash.projected.status.Ready?
      else
        crash.projected.activeTurn == turn && (crash.projected.status.Starting? || crash.projected.status.Running?)
  }

  function AfterCrashes(session: Session, binding: Binding, crashes: seq<Crash>): (Session, Binding)
    decreases |crashes|
  {
    if crashes == [] then (session, binding)
    else
      var (session', binding') := AfterCrash(session, binding, crashes[0]);
      AfterCrashes(session', binding', crashes[1..])
  }

  function ThreadWith(session: Session): Thread { Thread(Some(session), false, false) }

  lemma PreparedFields(session: Session, binding: Binding)
    requires ContinuationId(session, binding).Some?
    ensures IsPrepared(PreparedBinding(session, binding))
    ensures ContinuationTurn(PreparedBinding(session, binding).payload) == ContinuationId(session, binding)
    ensures PreparedBinding(session, binding).resumeCursor == binding.resumeCursor
  {
  }

  lemma ProviderStartKeepsMarker(payload: Payload, fields: map<string, Json>)
    ensures var payload' := Merged(payload, OtherFields(fields)[ActiveTurnId := JNull]);
      && ContinuationTurn(payload') == ContinuationTurn(payload)
      && FieldOf(payload', ActiveTurnId) == Some(JNull)
      && FieldOf(payload', ContinueAfterServerUpdatePrepared) == FieldOf(payload, ContinueAfterServerUpdatePrepared)
  {
    var next := OtherFields(fields)[ActiveTurnId := JNull];
    assert ContinueAfterServerUpdate !in next && ContinueAfterServerUpdatePrepared !in next;
  }

  lemma StartedKeepsMarker(prepared: Binding, status: BindingStatus, newCursor: Option<string>, fields: map<string, Json>)
    requires IsPrepared(prepared) && prepared.resumeCursor.Some?
    ensures var started := StartedBinding(prepared, status, newCursor, fields);
      && IsPrepared(started) && started.resumeCursor.Some? && started.status == status
      && ContinuationTurn(started.payload) == ContinuationTurn(prepared.payload)
  {
    ProviderStartKeepsMarker(prepared.payload, fields);
  }

  /** Wherever the process dies after the guard passed, the next startup continues the same turn,
      except when the provider had taken it, the directory had not admitted it, and its events show
      that. In the other cases of that crash the same continuation is sent a second time. */
  lemma CrashKeepsContinuation(session: Session, binding: Binding, continueAfterRestart: bool, crash: Crash)
    requires Continues(ThreadWith(session), Some(binding), continueAfterRestart)
    ensures var (session', binding') := AfterCrash(session, binding, crash);
      (&& Continues(ThreadWith(session'), Some(binding'), continueAfterRestart)
       && ContinuationId(session', binding') == ContinuationId(session, binding))
      <==> LeavesTurn(crash, ContinuationId(session, binding))
  {
    PreparedFields(session, binding);
    if crash.AfterProviderStart? || crash.AfterSend? {
      StartedKeepsMarker(PreparedBinding(session, binding), crash.status, crash.newCursor, crash.fields);
    }
  }

  /** What becomes of a turn that was sent but not admitted, under any preference of the next startup:
      it is sent again if the records do not show it; a turn they show is continued, under its own id,
      only if the preference asks for it and the provider had reported itself running; and otherwise
      a turn still active is settled as an error and one that is over is left alone. */
  lemma SentButNotAdmitted(session: Session, binding: Binding, continueAfterRestart: bool, crash: Crash, later: bool)
    requires Continues(ThreadWith(session), Some(binding), continueAfterRestart) && crash.AfterSend?
    ensures var (session', binding') := AfterCrash(session, binding, crash);
      var thread, sent := ThreadWith(session'), ContinuationId(session, binding);
      && (Continues(thread, Some(binding'), later) <==>
            LeavesTurn(crash, sent) || (later && session'.status.Running? && session'.activeTurn.Some? && crash.status.BindingRunning?))
      && (Continues(thread, Some(binding'), later) ==>
            ContinuationId(session', binding') == if LeavesTurn(crash, sent) then sent else session'.activeTurn)
      && (!LeavesTurn(crash, sent) ==> (Orphaned(thread, Some(binding'), false) <==> session'.activeTurn.Some?))
  {
    PreparedFields(session, binding);
    StartedKeepsMarker(PreparedBinding(session, binding), crash.status, crash.newCursor, crash.fields);
  }

  /** A turn can be lost that way: the provider took it under a new id, the process died, and no
      preference brings it back. */
  lemma SentTurnCanBeLost() returns (session: Session, binding: Binding, crash: Crash)
    ensures Continues(ThreadWith(session), Some(binding), true)
    ensures var (session', binding') := AfterCrash(session, binding, crash);
      && Orphaned(ThreadWith(session'), Some(binding'), false)
      && forall later :: !Continues(ThreadWith(session'), Some(binding'), later)
  {
    session := Session(Running, Some("old"), None);
    binding := Binding(BindingRunning, Some("cursor"), NotRecord);
    crash := AfterSend(BindingStarting, None, map[], Session(Running, Some("new"), None));
    SentButNotAdmitted(session, binding, true, crash, true);
    SentButNotAdmitted(session, binding, true, crash, false);
  }

  /** A thread startup would continue is one startup picks up. */
  lemma ContinuedIsOrphaned(thread: Thread, binding: Option<Binding>, continueAfterRestart: bool)
    requires Continues(thread, binding, continueAfterRestart)
    ensures Orphaned(thread, binding, false)
  {
  }

  /** Continuation survives any number of crashes: once a thread passes the guard, every later
      startup picks it up, passes the guard again and continues the same turn, wherever each of the
      processes in between died, as long as the records do not show the turn to be sent. */
  lemma {:induction false} ContinuationSurvivesCrashes(session: Session, binding: Binding, continueAfterRestart: bool, crashes: seq<Crash>)
    requires Continues(ThreadWith(session), Some(binding), continueAfterRestart)
    requires forall crash <- crashes :: LeavesTurn(crash, ContinuationId(session, binding))
    ensures var (session', binding') := AfterCrashes(session, binding, crashes);
      && Orphaned(ThreadWith(session'), Some(binding'), false)
      && Continues(ThreadWith(session'), Some(binding'), continueAfterRestart)
      && ContinuationId(session', binding') == ContinuationId(session, binding)
    decreases |crashes|
  {
    if crashes == [] {
      ContinuedIsOrphaned(ThreadWith(session), Some(binding), continueAfterRestart);
    } else {
      assert crashes[0] in crashes;
      assert forall crash <- crashes[1..] :: crash in crashes;
      CrashKeepsContinuation(session, binding, continueAfterRestart, crashes[0]);
      var (session', binding') := AfterCrash(session, binding, crashes[0]);
      ContinuationSurvivesCrashes(session', binding', continueAfterRestart, crashes[1..]);
    }
  }

  /** After the first prepare write the preference no longer matters: the marker alone carries the
      continuation, so turning the preference off before the next startup does not drop it. */
  lemma PreparedNeedsNoPreference(session: Session, binding: Binding, crash: Crash, before: bool, after: bool)
    requires Continues(ThreadWith(session), Some(binding), before) && !crash.BeforeWrites?
    requires LeavesTurn(crash, ContinuationId(session, binding))
    ensures var (session', binding') := AfterCrash(session, binding, crash);
      Continues(ThreadWith(session'), Some(binding'), after)
  {
    PreparedFields(session, binding);
    if crash.AfterProviderStart? || crash.AfterSend? {
      StartedKeepsMarker(PreparedBinding(session, binding), crash.status, crash.newCursor, crash.fields);
    }
  }

  // ----- Idempotence and stale markers -----

  /** A settled session is never picked up again, whatever its binding still holds. */
  lemma SettledStaysSettled(thread: Thread, binding: Option<Binding>, message: string, later: Option<Binding>)
    requires thread.session.Some?
    ensures !Orphaned(thread.(session := Some(Settled(thread.session.value, message))), later, false)
  {
  }

  /** A second startup, under any preference, changes nothing more: a settled thread is left alone
      and a prepared one is prepared to exactly the same records. */
  lemma ReconcileIsIdempotent(thread: Thread, binding: Option<Binding>, first: bool, second: bool)
    requires Orphaned(thread, binding, false)
    ensures var (thread', binding') := Reconciled(thread, binding, first);
      Orphaned(thread', binding', false) ==> Reconciled(thread', binding', second) == (thread', binding')
    ensures var (thread', binding') := Reconciled(thread, binding, first);
      Orphaned(thread', binding', false) <==> Continues(thread, binding, first)
  {
    if Continues(thread, binding, first) {
      var session := thread.session.value;
      PreparedFields(session, binding.value);
      var (thread', binding') := Reconciled(thread, binding, first);
      var prepared := binding'.value;
      assert Merged(prepared.payload, map[ContinueAfterServerUpdate := TurnJson(ContinuationId(thread'.session.value, prepared)),
                                          ContinueAfterServerUpdatePrepared := JBool(true), ActiveTurnId := JNull]) == prepared.payload;
    } else {
      SettledStaysSettled(thread, binding, ORPHANED_PROVIDER_SESSION_ERROR, Reconciled(thread, binding, first).1);
    }
  }

  /** A thread that was settled is never continued from what is stored then: whatever session is projected for
      it later, and whatever the preference is, only another write of its binding can bring it back. */
  lemma SettledNeverContinues(thread: Thread, binding: Option<Binding>, first: bool, later: Thread, second: bool)
    requires thread.session.Some? && !Continues(thread, binding, first)
    ensures !Continues(later, Reconciled(thread, binding, first).1, second)
  {
    if binding.Some? {
      var settled := Reconciled(thread, binding, first).1.value;
      assert ContinuationTurn(settled.payload) == None;
    }
  }

  /** A session that reports ready, on a thread that could resume, is picked up exactly to be continued: ready
      threads without a prepared continuation are left alone. */
  lemma ReadyIsPickedUpExactly(thread: Thread, binding: Binding, later: bool)
    requires IsOpen(thread) && thread.session.value.status.Ready? && thread.session.value.activeTurn.None? && binding.resumeCursor.Some?
    ensures Orphaned(thread, Some(binding), false) <==> Continues(thread, Some(binding), later)
  {
  }

  lemma MergeKeepsOther(stored: Payload, written: map<Key, Json>, name: string)
    requires OtherKey(name) !in written
    ensures FieldOf(Merged(stored, written), OtherKey(name)) == FieldOf(stored, OtherKey(name))
  {
  }

  /** Whatever fails, startup keeps what the provider needs to resume: the cursor and every field of the
      payload but the three it works with. Of the thread only its session can change. */
  lemma ReconcileKeepsTheRest(thread: Thread, binding: Option<Binding>, live: bool, continueAfterRestart: bool,
                              thread': Thread, binding': Option<Binding>, clean: bool, name: string)
    requires Left(thread, binding, live, continueAfterRestart, thread', binding', clean)
    ensures binding'.Some? == binding.Some? && CursorOf(binding') == CursorOf(binding)
    ensures FieldOf(StoredPayload(binding'), OtherKey(name)) == FieldOf(StoredPayload(binding), OtherKey(name))
    ensures thread'.archived == thread.archived && thread'.deleted == thread.deleted && (thread'.session.Some? <==> thread.session.Some?)
  {
  }

  /** Marking and clearing keep every other field, and so do the two writes of a stop except for the fields
      they name. */
  lemma MarkingKeepsTheRest(binding: Binding, turn: TurnId, name: string)
    ensures MarkedBinding(binding, turn).status == ClearedBinding(binding).status == binding.status
    ensures MarkedBinding(binding, turn).resumeCursor == ClearedBinding(binding).resumeCursor == binding.resumeCursor
    ensures FieldOf(MarkedBinding(binding, turn).payload, OtherKey(name)) == FieldOf(binding.payload, OtherKey(name))
    ensures FieldOf(ClearedBinding(binding).payload, OtherKey(name)) == FieldOf(binding.payload, OtherKey(name))
  {
  }

  lemma ReportKeepsTheRest(binding: Option<Binding>, adapter: AdapterSession, continueAfterRestart: bool, name: string)
    requires name !in adapter.fields
    ensures FieldOf(ReportedBinding(binding, adapter, continueAfterRestart).payload, OtherKey(name)) == FieldOf(StoredPayload(binding), OtherKey(name))
  {
    MergeKeepsOther(StoredPayload(binding), ReportedFields(adapter, continueAfterRestart), name);
  }

  lemma StopKeepsTheRest(binding: Option<Binding>, adapter: Option<AdapterSession>, continueAfterRestart: bool, fields: map<string, Json>, name: string)
    requires name !in fields && (adapter.Some? ==> name !in adapter.value.fields)
    ensures var stopped := AfterStop(binding, adapter, continueAfterRestart, fields);
      FieldOf(StoredPayload(stopped), OtherKey(name)) == FieldOf(StoredPayload(binding), OtherKey(name))
  {
    if adapter.Some? {
      ReportKeepsTheRest(binding, adapter.value, continueAfterRestart, name);
    }
    var reported := AfterReport(binding, adapter, continueAfterRestart);
    if reported.Some? {
      MergeKeepsOther(reported.value.payload, OtherFields(fields)[ActiveTurnId := JNull], name);
    }
  }

  /** One startup that dies while it deals with this thread, or after it settled it. */
  function AfterStartup(session: Session, binding: Binding, continueAfterRestart: bool, crash: Crash): (Session, Binding) {
    if !Orphaned(ThreadWith(session), Some(binding), false) then (session, binding)
    else if Continues(ThreadWith(session), Some(binding), continueAfterRestart) then AfterCrash(session, binding, crash)
    else
      var (thread', binding') := Reconciled(ThreadWith(session), Some(binding), continueAfterRestart);
      (thread'.session.value, binding'.value)
  }

  function AfterStartups(session: Session, binding: Binding, continueAfterRestart: bool, crashes: seq<Crash>): (Session, Binding)
    decreases |crashes|
  {
    if crashes == [] then (session, binding)
    else
      var (session', binding') := AfterStartup(session, binding, continueAfterRestart, crashes[0]);
      AfterStartups(session', binding', continueAfterRestart, crashes[1..])
  }

  /** No startup makes up a marker. */
  lemma StartupKeepsMarker(session: Session, binding: Binding, crash: Crash)
    ensures var (_, binding') := AfterStartup(session, binding, false, crash);
      ContinuationTurn(binding'.payload) in {None, ContinuationTurn(binding.payload)}
  {
    if Continues(ThreadWith(session), Some(binding), false) {
      PreparedFields(session, binding);
      if crash.AfterProviderStart? || crash.AfterSend? {
        StartedKeepsMarker(PreparedBinding(session, binding), crash.status, crash.newCursor, crash.fields);
      }
    }
  }

  /** Without the preference, over any number of startups that die anywhere, nothing but the turn the
      marker named at first is ever continued. */
  lemma {:induction false} OnlyMarkedTurnContinues(session: Session, binding: Binding, crashes: seq<Crash>)
    ensures var (session', binding') := AfterStartups(session, binding, false, crashes);
      Continues(ThreadWith(session'), Some(binding'), false) ==>
        ContinuationId(session', binding').Some? && ContinuationId(session', binding') == ContinuationTurn(binding.payload)
    decreases |crashes|
  {
    if crashes != [] {
      StartupKeepsMarker(session, binding, crashes[0]);
      var (session', binding') := AfterStartup(session, binding, false, crashes[0]);
      OnlyMarkedTurnContinues(session', binding', crashes[1..]);
    }
  }

  /** Once the directory records a different admitted turn, the old marker alone cannot bring a
      continuation back: startup then continues only under the preference, and only the new turn. */
  lemma StaleMarkerIsIgnored(thread: Thread, binding: Binding, continueAfterRestart: bool, stale: TurnId, admitted: TurnId)
    requires thread.session.Some? && stale != admitted
    requires ContinuationTurn(binding.payload) == Some(stale)
    requires FieldOf(binding.payload, ActiveTurnId) == Some(JText(admitted))
    requires thread.session.value.activeTurn in {None, Some(admitted)}
    ensures Continues(thread, Some(binding), continueAfterRestart) ==>
      continueAfterRestart && ContinuationId(thread.session.value, binding) == Some(admitted)
  {
  }

  /** `ProviderService.sendTurn` records the admitted turn, and the resume cursor if the turn came with one,
      and consumes the marker in one write. */
  function Admitted(binding: Binding, turn: TurnId, cursor: Option<Option<string>>): Binding {
    Binding(BindingRunning, if cursor.Some? then cursor.value else binding.resumeCursor,
            Merged(binding.payload, map[ActiveTurnId := JText(turn), ContinueAfterServerUpdate := JNull, ContinueAfterServerUpdatePrepared := JNull]))
  }

  /** Once the turn of a continuation is admitted, no later startup sends it again for the old turn,
      whether or not the projection has caught up. */
  lemma AdmittedIsNotResent(session: Session, binding: Binding, continueAfterRestart: bool, crash: Crash, admitted: TurnId,
                            cursor: Option<Option<string>>, later: Session, laterPreference: bool)
    requires Continues(ThreadWith(session), Some(binding), continueAfterRestart)
    requires ContinuationId(session, binding) != Some(admitted) && later.activeTurn in {None, Some(admitted)}
    ensures var (session', binding') := AfterCrash(session, binding, crash);
      Continues(ThreadWith(later), Some(Admitted(binding', admitted, cursor)), laterPreference) ==>
        ContinuationId(later, Admitted(binding', admitted, cursor)) == Some(admitted) && laterPreference
  {
    var (session', binding') := AfterCrash(session, binding, crash);
    assert ContinuationTurn(Admitted(binding', admitted, cursor).payload) == None;
  }

  // ----- Marking before a restart -----

  predicate Marks(thread: Thread, binding: Option<Binding>) {
    && !thread.archived && !thread.deleted
    && thread.session.Some? && thread.session.value.status.Running? && thread.session.value.activeTurn.Some?
    && binding.Some? && binding.value.resumeCursor.Some?
  }

  function MarkedBinding(binding: Binding, turn: TurnId): Binding {
    binding.(payload := Merged(binding.payload, map[ContinueAfterServerUpdate := JText(turn), ContinueAfterServerUpdatePrepared := JNull]))
  }

  function ClearedBinding(binding: Binding): Binding {
    binding.(payload := Merged(binding.payload, map[ContinueAfterServerUpdate := JNull, ContinueAfterServerUpdatePrepared := JNull]))
  }

  // ----- Stopping the process -----

  datatype AdapterStatus = Connecting | AdapterReady | AdapterRunning | AdapterError | Closed

  /** A session as its adapter lists it. `cursor` is none if the adapter reports no resume cursor at all;
      it may also report that there is none. `fields` is what else the report writes. */
  datatype AdapterSession = AdapterSession(status: AdapterStatus, activeTurn: Option<TurnId>, cursor: Option<Option<string>>,
                                           fields: map<string, Json>)

  function RuntimeStatus(status: AdapterStatus): BindingStatus {
    match status
    case Connecting => BindingStarting
    case AdapterError => BindingError
    case Closed => BindingStopped
    case _ => BindingRunning
  }

  /** The stop itself marks a session, with the turn its adapter is running. */
  predicate StopMarks(adapter: AdapterSession, continueAfterRestart: bool) {
    continueAfterRestart && adapter.status.AdapterRunning? && adapter.activeTurn.Some?
  }

  function CursorOf(binding: Option<Binding>): Option<string> {
    if binding.Some? then binding.value.resumeCursor else None
  }

  function ReportedFields(adapter: AdapterSession, continueAfterRestart: bool): map<Key, Json> {
    var fields := OtherFields(adapter.fields)[ActiveTurnId := TurnJson(adapter.activeTurn)];
    if StopMarks(adapter, continueAfterRestart) then fields[ContinueAfterServerUpdate := TurnJson(adapter.activeTurn)] else fields
  }

  /** The first write of `ProviderService.runStopAll`, for every session an adapter lists. */
  function ReportedBinding(binding: Option<Binding>, adapter: AdapterSession, continueAfterRestart: bool): Binding {
    Binding(RuntimeStatus(adapter.status), if adapter.cursor.Some? then adapter.cursor.value else CursorOf(binding),
            Merged(StoredPayload(binding), ReportedFields(adapter, continueAfterRestart)))
  }

  /** Its second write, for every binding. */
  function StoppedBinding(binding: Binding, fields: map<string, Json>): Binding {
    Binding(BindingStopped, binding.resumeCursor, Merged(binding.payload, OtherFields(fields)[ActiveTurnId := JNull]))
  }

  function AfterReport(binding: Option<Binding>, adapter: Option<AdapterSession>, continueAfterRestart: bool): Option<Binding> {
    if adapter.Some? then Some(ReportedBinding(binding, adapter.value, continueAfterRestart)) else binding
  }

  function AfterStop(binding: Option<Binding>, adapter: Option<AdapterSession>, continueAfterRestart: bool, fields: map<string, Json>): Option<Binding> {
    var reported := AfterReport(binding, adapter, continueAfterRestart);
    if reported.Some? then Some(StoppedBinding(reported.value, fields)) else None
  }

  /** The marker a stop leaves: the adapter's turn if the stop marks the session, else the one before. */
  function MarkerAfterStop(binding: Option<Binding>, adapter: Option<AdapterSession>, continueAfterRestart: bool): Option<TurnId> {
    if adapter.Some? && StopMarks(adapter.value, continueAfterRestart) then adapter.value.activeTurn
    else ContinuationTurn(StoredPayload(binding))
  }

  function CursorAfterStop(binding: Option<Binding>, adapter: Option<AdapterSession>): Option<string> {
    if adapter.Some? && adapter.value.cursor.Some? then adapter.value.cursor.value else CursorOf(binding)
  }

  lemma ReportIs(binding: Option<Binding>, adapter: AdapterSession, continueAfterRestart: bool)
    ensures var reported := ReportedBinding(binding, adapter, continueAfterRestart);
      && ContinuationTurn(reported.payload) == MarkerAfterStop(binding, Some(adapter), continueAfterRestart)
      && reported.resumeCursor == CursorAfterStop(binding, Some(adapter))
      && FieldOf(reported.payload, ActiveTurnId) == Some(TurnJson(adapter.activeTurn))
      && FieldOf(reported.payload, ContinueAfterServerUpdatePrepared) == FieldOf(StoredPayload(binding), ContinueAfterServerUpdatePrepared)
  {
    var fields := ReportedFields(adapter, continueAfterRestart);
    assert ContinueAfterServerUpdate in fields <==> StopMarks(adapter, continueAfterRestart);
    assert ContinueAfterServerUpdatePrepared !in fields && ActiveTurnId in fields;
  }

  lemma StopIs(binding: Option<Binding>, adapter: Option<AdapterSession>, continueAfterRestart: bool, fields: map<string, Json>)
    requires AfterStop(binding, adapter, continueAfterRestart, fields).Some?
    ensures var stopped := AfterStop(binding, adapter, continueAfterRestart, fields).value;
      && stopped.status.BindingStopped?
      && ContinuationTurn(stopped.payload) == MarkerAfterStop(binding, adapter, continueAfterRestart)
      && stopped.resumeCursor == CursorAfterStop(binding, adapter)
      && FieldOf(stopped.payload, ActiveTurnId) == Some(JNull)
      && FieldOf(stopped.payload, ContinueAfterServerUpdatePrepared) == FieldOf(StoredPayload(binding), ContinueAfterServerUpdatePrepared)
  {
    var reported := AfterReport(binding, adapter, continueAfterRestart).value;
    if adapter.Some? {
      ReportIs(binding, adapter.value, continueAfterRestart);
    }
    ProviderStartKeepsMarker(reported.payload, fields);
  }

  predicate IsOpen(thread: Thread) {
    thread.session.Some? && !thread.archived && !thread.deleted
  }

  /** The session is starting or running, or it is ready and its continuation was prepared. */
  predicate AwaitsContinuation(session: Session, binding: Option<Binding>) {
    || session.status.Starting? || session.status.Running?
    || (session.status.Ready? && session.activeTurn.None?
        && FieldOf(StoredPayload(binding), ContinueAfterServerUpdatePrepared) == Some(JBool(true)))
  }

  /** What the next startup makes of a stopped thread, whatever events of the stopping process are
      projected: under either later preference it continues exactly the turn of the marker the stop left,
      if there is one, a cursor to resume from, and a session that awaits it and shows no other turn. */
  lemma StoppedThreadContinuesExactly(thread: Thread, binding: Option<Binding>, adapter: Option<AdapterSession>,
                                      continueAfterRestart: bool, fields: map<string, Json>, later: bool)
    ensures var stopped, marker := AfterStop(binding, adapter, continueAfterRestart, fields), MarkerAfterStop(binding, adapter, continueAfterRestart);
      && (Continues(thread, stopped, later) <==>
            && IsOpen(thread) && marker.Some? && CursorAfterStop(binding, adapter).Some?
            && AwaitsContinuation(thread.session.value, binding) && thread.session.value.activeTurn in {None, marker})
      && (Continues(thread, stopped, later) ==> ContinuationId(thread.session.value, stopped.value) == marker)
  {
    if AfterStop(binding, adapter, continueAfterRestart, fields).Some? {
      StopIs(binding, adapter, continueAfterRestart, fields);
      StoppedContinues(thread, binding, AfterStop(binding, adapter, continueAfterRestart, fields).value, later);
    }
  }

  lemma StoppedContinues(thread: Thread, before: Option<Binding>, stopped: Binding, later: bool)
    requires stopped.status.BindingStopped? && FieldOf(stopped.payload, ActiveTurnId) == Some(JNull)
    requires FieldOf(stopped.payload, ContinueAfterServerUpdatePrepared) == FieldOf(StoredPayload(before), ContinueAfterServerUpdatePrepared)
    ensures var marker := ContinuationTurn(stopped.payload);
      && (Continues(thread, Some(stopped), later) <==>
            && IsOpen(thread) && marker.Some? && stopped.resumeCursor.Some?
            && AwaitsContinuation(thread.session.value, before) && thread.session.value.activeTurn in {None, marker})
      && (Continues(thread, Some(stopped), later) ==> ContinuationId(thread.session.value, stopped) == marker)
  {
  }

  /** The same if the process dies between the two writes: the binding then still says that it runs and
      which turn, so a later preference can continue a projected turn without a marker. */
  lemma ReportedThreadContinuesExactly(thread: Thread, binding: Option<Binding>, adapter: AdapterSession, continueAfterRestart: bool, later: bool)
    ensures var reported, marker := ReportedBinding(binding, adapter, continueAfterRestart), MarkerAfterStop(binding, Some(adapter), continueAfterRestart);
      Continues(thread, Some(reported), later) <==>
        && IsOpen(thread) && CursorAfterStop(binding, Some(adapter)).Some?
        && var session := thread.session.value;
        || (&& marker.Some? && (session.activeTurn == marker || (session.activeTurn.None? && adapter.activeTurn in {None, marker}))
            && (session.status.Ready? ==> adapter.activeTurn.None?) && AwaitsContinuation(session, binding))
        || (later && session.status.Running? && session.activeTurn.Some? && (adapter.status.AdapterReady? || adapter.status.AdapterRunning?))
  {
    ReportIs(binding, adapter, continueAfterRestart);
  }

  /** A restart under the preference alone: every session whose adapter is running a turn and can resume
      is continued with that turn, under either later preference, wherever the stop was cut short after
      its report. */
  lemma GracefulRestartContinues(thread: Thread, binding: Option<Binding>, adapter: AdapterSession, fields: map<string, Json>, later: bool)
    requires adapter.status.AdapterRunning? && adapter.activeTurn.Some? && CursorAfterStop(binding, Some(adapter)).Some?
    requires IsOpen(thread) && thread.session.value.activeTurn in {None, adapter.activeTurn}
    requires thread.session.value.status.Starting? || thread.session.value.status.Running?
    ensures var reported, stopped := AfterReport(binding, Some(adapter), true), AfterStop(binding, Some(adapter), true, fields);
      && Continues(thread, reported, later) && ContinuationId(thread.session.value, reported.value) == adapter.activeTurn
      && Continues(thread, stopped, later) && ContinuationId(thread.session.value, stopped.value) == adapter.activeTurn
  {
    ReportIs(binding, adapter, true);
    ReportedThreadContinuesExactly(thread, binding, adapter, true, later);
    StoppedThreadContinuesExactly(thread, binding, Some(adapter), true, fields, later);
  }

  /** A marked thread continues the turn that was running, whatever the preference is at the next startup,
      if the process dies before it stops; and after a stop unless the stop marked it with another turn,
      or the adapter reported that there is nothing to resume from. */
  lemma MarkedThreadContinues(thread: Thread, binding: Binding, adapter: Option<AdapterSession>,
                              continueAfterRestart: bool, fields: map<string, Json>, later: bool)
    requires IsOpen(thread) && thread.session.value.status.Running? && thread.session.value.activeTurn.Some? && binding.resumeCursor.Some?
    ensures Marks(thread, Some(binding))
    ensures var turn := thread.session.value.activeTurn;
      var marked := MarkedBinding(binding, turn.value);
      var stopped := AfterStop(Some(marked), adapter, continueAfterRestart, fields);
      && Continues(thread, Some(marked), later) && ContinuationId(thread.session.value, marked) == turn
      && (Continues(thread, stopped, later) <==>
            && !(adapter.Some? && StopMarks(adapter.value, continueAfterRestart) && adapter.value.activeTurn != turn)
            && !(adapter.Some? && adapter.value.cursor == Some(None)))
      && (Continues(thread, stopped, later) ==> ContinuationId(thread.session.value, stopped.value) == turn)
  {
    var marked := MarkedBinding(binding, thread.session.value.activeTurn.value);
    MarkedIs(binding, thread.session.value.activeTurn.value);
    StoppedThreadContinuesExactly(thread, Some(marked), adapter, continueAfterRestart, fields, later);
    MarkedContinues(thread, marked, later);
  }

  lemma MarkedIs(binding: Binding, turn: TurnId)
    ensures ContinuationTurn(MarkedBinding(binding, turn).payload) == Some(turn) && MarkedBinding(binding, turn).resumeCursor == binding.resumeCursor
  {
  }

  lemma MarkedContinues(thread: Thread, marked: Binding, later: bool)
    requires Marks(thread, Some(marked)) && ContinuationTurn(marked.payload) == thread.session.value.activeTurn
    ensures Continues(thread, Some(marked), later) && ContinuationId(thread.session.value, marked) == thread.session.value.activeTurn
  {
  }

  /** The marker loses against the stop: a turn that was marked is settled as an error when, under the
      preference, the adapter has moved to another turn that is not projected yet. */
  lemma MarkedTurnCanBeLost() returns (thread: Thread, binding: Binding, adapter: AdapterSession)
    ensures Marks(thread, Some(binding))
    ensures var stopped := AfterStop(Some(MarkedBinding(binding, thread.session.value.activeTurn.value)), Some(adapter), true, map[]);
      Orphaned(thread, stopped, false) && forall later :: !Continues(thread, stopped, later)
  {
    thread := Thread(Some(Session(Running, Some("first"), None)), false, false);
    binding := Binding(BindingRunning, Some("cursor"), NotRecord);
    adapter := AdapterSession(AdapterRunning, Some("second"), None, map[]);
    MarkedThreadContinues(thread, binding, Some(adapter), true, map[], true);
    MarkedThreadContinues(thread, binding, Some(adapter), true, map[], false);
  }

  /** A cleared marker leaves the decision to the preference alone, and to a still running binding. */
  lemma ClearedThreadNeedsPreference(thread: Thread, binding: Binding, continueAfterRestart: bool)
    requires thread.session.Some?
    ensures Continues(thread, Some(ClearedBinding(binding)), continueAfterRestart) <==>
      && InterruptedByRestart(thread.session.value, binding, continueAfterRestart)
      && !thread.archived && !thread.deleted
  {
    assert ContinuationTurn(ClearedBinding(binding).payload) == None;
  }

  // ----- The durable store, with writes that can fail -----

  function BindingOf(bindings: map<ThreadId, Binding>, id: ThreadId): Option<Binding> {
    if id in bindings then Some(bindings[id]) else None
  }

  function WithBinding(bindings: map<ThreadId, Binding>, id: ThreadId, binding: Option<Binding>): map<ThreadId, Binding> {
    if binding.Some? then bindings[id := binding.value] else bindings
  }

  /** Every pair of records one startup can leave of an orphaned thread, whatever writes and reads
      failed on the way. */
  predicate Outcome(thread: Thread, binding: Option<Binding>, continueAfterRestart: bool, thread': Thread, binding': Option<Binding>)
    requires thread.session.Some?
  {
    var session := thread.session.value;
    var prepares := Continues(thread, binding, continueAfterRestart);
    && (|| binding' == binding
        || (prepares && binding' == Some(PreparedBinding(session, binding.value)))
        || (binding.Some? && binding' == Some(SettledBinding(binding.value, ClearsMarkers(session, binding.value, continueAfterRestart)))))
    && (|| thread' == thread
        || thread' == thread.(session := Some(Settled(session, ORPHANED_PROVIDER_SESSION_ERROR)))
        || (&& prepares && binding' == Some(PreparedBinding(session, binding.value))
            && thread' == thread.(session := Some(Resumed(session)))))
  }

  /** What startup leaves of any thread: nothing changes unless it is orphaned, and `clean` says that
      no read or write failed. */
  predicate Left(thread: Thread, binding: Option<Binding>, live: bool, continueAfterRestart: bool, thread': Thread, binding': Option<Binding>, clean: bool) {
    if Orphaned(thread, binding, live) then
      && Outcome(thread, binding, continueAfterRestart, thread', binding')
      && (clean ==> (thread', binding') == Reconciled(thread, binding, continueAfterRestart))
    else
      thread' == thread && binding' == binding
  }

  /** Reconciliation is complete: every orphan ends with no active turn, either starting under a marker
      a later startup would honour, or as an error no startup picks up again. */
  lemma OrphanEndsRecoverable(thread: Thread, binding: Option<Binding>, continueAfterRestart: bool, thread': Thread, binding': Option<Binding>)
    requires Orphaned(thread, binding, false)
    requires Left(thread, binding, false, continueAfterRestart, thread', binding', true)
    ensures thread'.session.Some? && thread'.session.value.activeTurn.None?
    ensures if Continues(thread, binding, continueAfterRestart) then
              && thread'.session.value.status.Starting? && binding'.Some? && IsPrepared(binding'.value)
              && Continues(thread', binding', false)
              && ContinuationId(thread'.session.value, binding'.value) == ContinuationId(thread.session.value, binding.value)
            else
              thread'.session.value.status.Error? && !Orphaned(thread', binding', false)
  {
    if Continues(thread, binding, continueAfterRestart) {
      PreparedFields(thread.session.value, binding.value);
    }
  }

  predicate IsReady(thread: Thread) {
    thread.session.Some? && thread.session.value.status.Ready?
  }

  /** A session for which startup has nothing to do: it is over or ready, holds no turn, and no continuation
      was prepared for it. */
  predicate AtRest(session: Session, binding: Option<Binding>) {
    && session.activeTurn.None?
    && match session.status
       case Idle | Interrupted | Stopped | Error => true
       case Ready => binding.None? || !IsPrepared(binding.value)
       case Starting | Running => false
  }

  /** What startup owes a thread whose provider is gone, whatever thread it is: a session at rest is left alone,
      and any other starts over a prepared continuation or ends as an error that says why. */
  predicate Recovered(thread: Thread, binding: Option<Binding>, thread': Thread, binding': Option<Binding>)
    requires thread.session.Some? && thread'.session.Some?
  {
    if AtRest(thread.session.value, binding) then thread' == thread && binding' == binding
    else if thread'.session.value.status.Starting? then
      && thread'.session.value == Session(Starting, None, None)
      && binding'.Some? && IsPrepared(binding'.value) && binding'.value.status.BindingStarting?
    else
      && thread'.session.value == Session(Error, None, Some(ORPHANED_PROVIDER_SESSION_ERROR))
      && (binding'.Some? ==> binding'.value.status.BindingStopped? && FieldOf(binding'.value.payload, ActiveTurnId) == Some(JNull))
  }

  lemma LeftRecovers(thread: Thread, binding: Option<Binding>, continueAfterRestart: bool, thread': Thread, binding': Option<Binding>)
    requires thread'.session.Some? && Left(thread, binding, false, continueAfterRestart, thread', binding', true)
    ensures thread.session.Some? && Recovered(thread, binding, thread', binding')
  {
    if Orphaned(thread, binding, false) {
      OrphanEndsRecoverable(thread, binding, continueAfterRestart, thread', binding');
    }
  }

  /** Failed writes never invent work: whatever was left, a session reported as resumed has its marker
      already stored, and a later startup continues the same turn or none. */
  lemma FaultsNeverChangeTheTurn(thread: Thread, binding: Option<Binding>, first: bool, thread': Thread, binding': Option<Binding>, second: bool)
    requires thread.session.Some? && Outcome(thread, binding, first, thread', binding')
    requires Continues(thread, binding, first)
    ensures thread' != thread && thread'.session.value.status.Starting? ==>
      && binding'.Some? && IsPrepared(binding'.value)
      && ContinuationTurn(binding'.value.payload) == ContinuationId(thread.session.value, binding.value)
    ensures Continues(thread', binding', second) ==>
      ContinuationId(thread'.session.value, binding'.value) == ContinuationId(thread.session.value, binding.value)
  {
    PreparedFields(thread.session.value, binding.value);
  }

  datatype Durable = Durable(threads: map<ThreadId, Thread>, bindings: map<ThreadId, Binding>)

  /** The loop has dealt with the threads of `done` and touched nothing else. */
  ghost predicate LeftUpTo(done: seq<ThreadId>, live: set<ThreadId>, continueAfterRestart: bool, before: Durable, after: Durable, clean: bool) {
    && after.threads.Keys == before.threads.Keys
    && (forall id :: id !in done ==> BindingOf(after.bindings, id) == BindingOf(before.bindings, id))
    && (forall id <- before.threads :: id !in done ==> after.threads[id] == before.threads[id])
    && (forall id <- before.threads :: id in done ==>
          Left(before.threads[id], BindingOf(before.bindings, id), id in live, continueAfterRestart,
               after.threads[id], BindingOf(after.bindings, id), clean))
  }

  lemma LeftOneMore(done: seq<ThreadId>, id: ThreadId, live: set<ThreadId>, continueAfterRestart: bool, before: Durable,
                    now: Durable, clean: bool, after: Durable, clean': bool)
    requires LeftUpTo(done, live, continueAfterRestart, before, now, clean) && (clean' ==> clean)
    requires id !in done && id in before.threads && id in after.threads
    requires after.threads == now.threads[id := after.threads[id]]
    requires after.bindings == WithBinding(now.bindings, id, BindingOf(after.bindings, id))
    requires Left(before.threads[id], BindingOf(before.bindings, id), id in live, continueAfterRestart,
                  after.threads[id], BindingOf(after.bindings, id), clean')
    ensures LeftUpTo(done + [id], live, continueAfterRestart, before, after, clean')
  {
    forall other | other !in done + [id]
      ensures BindingOf(after.bindings, other) == BindingOf(before.bindings, other)
    {
      assert other !in done;
    }
    forall other <- before.threads | other in done + [id]
      ensures Left(before.threads[other], BindingOf(before.bindings, other), other in live, continueAfterRestart,
                   after.threads[other], BindingOf(after.bindings, other), clean')
    {
      if other != id {
        assert other in done;
        assert BindingOf(after.bindings, other) == BindingOf(now.bindings, other);
      }
    }
  }

  lemma AllRecovered(listing: seq<ThreadId>, live: set<ThreadId>, continueAfterRestart: bool, before: Durable, after: Durable, clean: bool)
    requires LeftUpTo(listing, live, continueAfterRestart, before, after, clean) && forall id <- before.threads :: id in listing
    ensures clean ==> forall id <- after.threads :: id !in live && after.threads[id].session.Some? ==>
      before.threads[id].session.Some?
      && Recovered(before.threads[id], BindingOf(before.bindings, id), after.threads[id], BindingOf(after.bindings, id))
  {
    if clean {
      forall id <- after.threads | id !in live && after.threads[id].session.Some?
        ensures before.threads[id].session.Some?
             && Recovered(before.threads[id], BindingOf(before.bindings, id), after.threads[id], BindingOf(after.bindings, id))
      {
        LeftRecovers(before.threads[id], BindingOf(before.bindings, id), continueAfterRestart, after.threads[id], BindingOf(after.bindings, id));
      }
    }
  }

  /** Writing a full payload over a stored one that has no other keys replaces it. */
  lemma MergeReplaces(stored: Payload, written: map<Key, Json>)
    requires ReadRuntimePayload(stored).Keys <= written.Keys
    ensures Merged(stored, written) == Record(written)
  {
  }

  lemma SettledOverIs(stored: Binding, binding: Binding, clearMarkers: bool)
    requires ReadRuntimePayload(stored.payload).Keys <= ReadRuntimePayload(SettledBinding(binding, clearMarkers).payload).Keys
    ensures SettledOver(Some(stored), binding, clearMarkers) == SettledBinding(binding, clearMarkers)
  {
    MergeReplaces(stored.payload, ReadRuntimePayload(SettledBinding(binding, clearMarkers).payload));
  }

  lemma ContinuedClearsMarkers(thread: Thread, binding: Binding, continueAfterRestart: bool)
    requires Continues(thread, Some(binding), continueAfterRestart)
    ensures ClearsMarkers(thread.session.value, binding, continueAfterRestart)
  {
  }

  lemma ClearingAgain(binding: Binding)
    ensures ClearedBinding(ClearedBinding(binding)) == ClearedBinding(binding)
  {
  }

  lemma ClearingMarked(binding: Binding, turn: TurnId)
    ensures ClearedBinding(MarkedBinding(binding, turn)) == ClearedBinding(binding)
  {
    assert ClearedBinding(MarkedBinding(binding, turn)).payload.fields == ClearedBinding(binding).payload.fields;
  }

  class SessionStore {
    var threads: map<ThreadId, Thread>
    var bindings: map<ThreadId, Binding>
    /** How many reads and writes have failed. */
    var failures: nat

    constructor (threads: map<ThreadId, Thread>, bindings: map<ThreadId, Binding>)
      ensures this.threads == threads && this.bindings == bindings && failures == 0
    {
      this.threads, this.bindings, failures := threads, bindings, 0;
    }

    /** `directory.upsert`, which may fail and then writes nothing. */
    method UpsertBinding(id: ThreadId, status: BindingStatus, resumeCursor: Option<string>, fields: map<Key, Json>) returns (ok: bool)
      modifies this`bindings, this`failures
      ensures ok ==> && failures == old(failures)
                     && bindings == old(bindings)[id := Binding(status, resumeCursor,
                          Merged(if id in old(bindings) then old(bindings[id].payload) else NotRecord, fields))]
      ensures !ok ==> failures == old(failures) + 1 && bindings == old(bindings)
    {
      ok := *;
      if ok {
        bindings := bindings[id := Binding(status, resumeCursor, Merged(if id in bindings then bindings[id].payload else NotRecord, fields))];
      } else {
        failures := failures + 1;
      }
    }

    /** `thread.session.set`, which may fail and then changes nothing. */
    method SetSession(id: ThreadId, session: Session) returns (ok: bool)
      requires id in threads
      modifies this`threads, this`failures
      ensures ok ==> failures == old(failures) && threads == old(threads)[id := old(threads[id]).(session := Some(session))]
      ensures !ok ==> failures == old(failures) + 1 && threads == old(threads)
    {
      ok := *;
      if ok {
        threads := threads[id := threads[id].(session := Some(session))];
      } else {
        failures := failures + 1;
      }
    }

    /** `directory.getBinding` read tolerantly: a failed read counts as no binding. */
    method ReadBinding(id: ThreadId) returns (binding: Option<Binding>, ok: bool)
      modifies this`failures
      ensures ok ==> failures == old(failures) && binding == BindingOf(bindings, id)
      ensures !ok ==> failures == old(failures) + 1 && binding == None
    {
      ok, binding := *, None;
      if ok {
        binding := BindingOf(bindings, id);
      } else {
        failures := failures + 1;
      }
    }

    /** Settles a session whose binding was `binding` when it was read, over what is stored by now; a
        failed binding write is passed over, a failed session write is tried once more. */
    method SettleAsError(id: ThreadId, session: Session, binding: Option<Binding>, clearMarkers: bool, lastError: string)
      requires id in threads
      modifies this
      ensures failures >= old(failures)
      ensures threads == old(threads) || threads == old(threads)[id := old(threads[id]).(session := Some(Settled(session, lastError)))]
      ensures bindings == old(bindings)
           || (binding.Some? && bindings == old(bindings)[id := SettledOver(BindingOf(old(bindings), id), binding.value, clearMarkers)])
      ensures failures == old(failures) ==>
        && threads == old(threads)[id := old(threads[id]).(session := Some(Settled(session, lastError)))]
        && (binding.Some? ==> bindings == old(bindings)[id := SettledOver(BindingOf(old(bindings), id), binding.value, clearMarkers)])
      ensures failures <= old(failures) + 1 ==>
        threads == old(threads)[id := old(threads[id]).(session := Some(Settled(session, lastError)))]
    {
      if binding.Some? {
        var settled := SettledBinding(binding.value, clearMarkers);
        var _ := UpsertBinding(id, BindingStopped, binding.value.resumeCursor, ReadRuntimePayload(settled.payload));
      }
      var ok := SetSession(id, Settled(session, lastError));
      if !ok {
        var _ := SetSession(id, Settled(session, lastError));
      }
    }

    /** The two prepare writes, binding first, the pair tried once more if either fails. */
    method Prepare(id: ThreadId, session: Session, binding: Binding) returns (ok: bool)
      requires id in threads && BindingOf(bindings, id) == Some(binding)
      modifies this
      ensures failures >= old(failures) && (!ok ==> failures >= old(failures) + 2)
      ensures bindings == old(bindings) || bindings == old(bindings)[id := PreparedBinding(session, binding)]
      ensures ok ==> && bindings == old(bindings)[id := PreparedBinding(session, binding)]
                     && threads == old(threads)[id := old(threads[id]).(session := Some(Resumed(session)))]
      ensures !ok ==> threads == old(threads)
    {
      ok := false;
      var attempt := 0;
      var prepared := PreparedBinding(session, binding);
      while attempt < 2 && !ok
        invariant 0 <= attempt <= 2
        invariant failures >= old(failures) && (!ok ==> failures >= old(failures) + attempt)
        invariant bindings == old(bindings) || bindings == old(bindings)[id := prepared]
        invariant ok ==> && bindings == old(bindings)[id := prepared]
                         && threads == old(threads)[id := old(threads[id]).(session := Some(Resumed(session)))]
        invariant !ok ==> threads == old(threads)
      {
        MergeReplaces(bindings[id].payload, prepared.payload.fields);
        var written := UpsertBinding(id, BindingStarting, binding.resumeCursor, prepared.payload.fields);
        if written {
          ok := SetSession(id, Resumed(session));
        }
        attempt := attempt + 1;
      }
    }

    /** One pass of the reconciliation loop. Whatever fails, the records end in one of the outcomes
        above and no other thread is touched; if nothing fails, they end reconciled. Failures alone do not
        leave the session as it is: its write is tried twice, and a continuation that cannot be prepared
        is settled. */
    method ReconcileThread(id: ThreadId, continueAfterRestart: bool)
      requires id in threads && threads[id].session.Some?
      modifies this
      ensures failures >= old(failures)
      ensures id in threads && threads == old(threads)[id := threads[id]]
      ensures bindings == WithBinding(old(bindings), id, BindingOf(bindings, id))
      ensures Outcome(old(threads[id]), old(BindingOf(bindings, id)), continueAfterRestart, threads[id], BindingOf(bindings, id))
      ensures failures == old(failures) ==>
        (threads[id], BindingOf(bindings, id)) == Reconciled(old(threads[id]), old(BindingOf(bindings, id)), continueAfterRestart)
      ensures failures <= old(failures) + (if Continues(old(threads[id]), old(BindingOf(bindings, id)), continueAfterRestart) then 2 else 1) ==>
        && threads[id].session.Some?
        && threads[id].session.value in {Session(Starting, None, None), Session(Error, None, Some(ORPHANED_PROVIDER_SESSION_ERROR))}
    {
      var thread := threads[id];
      var session := thread.session.value;
      var binding, _ := ReadBinding(id);
      if Continues(thread, binding, continueAfterRestart) {
        var prepared := Prepare(id, session, binding.value);
        if prepared {
          return;
        }
      }
      if binding.Some? {
        SettledOverIs(bindings[id], binding.value, ClearsMarkers(session, binding.value, continueAfterRestart));
      }
      SettleAsError(id, session, binding, binding.Some? && ClearsMarkers(session, binding.value, continueAfterRestart), ORPHANED_PROVIDER_SESSION_ERROR);
    }

    /** The bindings that hold a prepared continuation. When they cannot be listed, those of the ready
        and dead sessions are asked one by one, and one that cannot be read counts as unprepared. */
    method PreparedThreads(listing: seq<ThreadId>, live: set<ThreadId>) returns (prepared: set<ThreadId>, ghost listed: bool)
      requires forall id <- listing :: id in threads
      modifies this`failures
      ensures failures >= old(failures) + if listed then 0 else 1
      ensures forall id <- prepared :: id in bindings && IsPrepared(bindings[id])
      ensures failures == old(failures) + (if listed then 0 else 1) ==>
        forall id <- listing :: id in bindings && IsPrepared(bindings[id]) && IsReady(threads[id]) && id !in live ==> id in prepared
    {
      var isListed: bool := *;
      listed := isListed;
      if isListed {
        prepared := set id | id in bindings && IsPrepared(bindings[id]);
        return;
      }
      failures := failures + 1;
      prepared := {};
      for i := 0 to |listing|
        invariant failures > old(failures)
        invariant forall id <- prepared :: id in bindings && IsPrepared(bindings[id])
        invariant failures == old(failures) + 1 ==>
          forall id <- listing[..i] :: id in bindings && IsPrepared(bindings[id]) && IsReady(threads[id]) && id !in live ==> id in prepared
      {
        var id := listing[i];
        assert listing[..i + 1] == listing[..i] + [id];
        if threads[id].session.Some? && threads[id].session.value.status.Ready? && id !in live {
          var binding, _ := ReadBinding(id);
          if binding.Some? && IsPrepared(binding.value) {
            prepared := prepared + {id};
          }
        }
      }
      assert listing[..|listing|] == listing;
    }

    /** Picks the thread up if the loop's guard says so. */
    method ReconcileIfOrphaned(id: ThreadId, isLive: bool, isPrepared: bool, continueAfterRestart: bool)
      requires id in threads
      requires isPrepared ==> BindingOf(bindings, id).Some? && IsPrepared(bindings[id])
      modifies this
      ensures failures >= old(failures)
      ensures id in threads && threads == old(threads)[id := threads[id]]
      ensures bindings == WithBinding(old(bindings), id, BindingOf(bindings, id))
      ensures Left(old(threads[id]), old(BindingOf(bindings, id)), isLive, continueAfterRestart, threads[id], BindingOf(bindings, id),
                   failures == old(failures)
                   && (IsReady(old(threads)[id]) && BindingOf(old(bindings), id).Some? && IsPrepared(old(bindings)[id]) && !isLive ==> isPrepared))
    {
      var session := threads[id].session;
      if && session.Some? && !isLive
         && (session.value.status.Starting? || session.value.status.Running? || session.value.activeTurn.Some?
             || (session.value.status.Ready? && isPrepared)) {
        ReconcileThread(id, continueAfterRestart);
      }
    }

    /** `reconcileProviderSessions`. Live threads and threads that are not orphaned keep both records
        whatever fails; every orphan ends in one of the outcomes above; and when nothing fails, but for
        listing the bindings, every orphan ends reconciled and every thread recovered. */
    method Reconcile(listing: seq<ThreadId>, live: set<ThreadId>, continueAfterRestart: bool) returns (ghost listed: bool)
      requires forall i, j :: 0 <= i < j < |listing| ==> listing[i] != listing[j]
      requires forall id :: id in listing <==> id in threads
      modifies this
      ensures failures >= old(failures) + if listed then 0 else 1
      ensures threads.Keys == old(threads.Keys)
      ensures forall id :: id !in threads || id in live ==> BindingOf(bindings, id) == BindingOf(old(bindings), id)
      ensures forall id <- threads :: id in live ==> threads[id] == old(threads)[id]
      ensures forall id <- threads :: Left(old(threads)[id], BindingOf(old(bindings), id), id in live, continueAfterRestart,
                                           threads[id], BindingOf(bindings, id), failures == old(failures) + if listed then 0 else 1)
      ensures failures == old(failures) + (if listed then 0 else 1) ==>
        forall id <- threads :: id !in live && threads[id].session.Some? ==>
          old(threads)[id].session.Some?
          && Recovered(old(threads)[id], BindingOf(old(bindings), id), threads[id], BindingOf(bindings, id))
    {
      var prepared;
      prepared, listed := PreparedThreads(listing, live);
      ghost var durable := Durable(threads, bindings);
      ghost var expected := old(failures) + if listed then 0 else 1;
      for i := 0 to |listing|
        invariant failures >= expected
        invariant failures == expected ==>
          forall id <- listing :: id in durable.bindings && IsPrepared(durable.bindings[id]) && IsReady(durable.threads[id]) && id !in live ==> id in prepared
        invariant LeftUpTo(listing[..i], live, continueAfterRestart, durable, Durable(threads, bindings), failures == expected)
      {
        var id := listing[i];
        ghost var before, clean := Durable(threads, bindings), failures == expected;
        assert id !in listing[..i];
        assert BindingOf(bindings, id) == BindingOf(durable.bindings, id);
        ReconcileIfOrphaned(id, id in live, id in prepared, continueAfterRestart);
        LeftOneMore(listing[..i], id, live, continueAfterRestart, durable, before, clean, Durable(threads, bindings), failures == expected);
        assert listing[..i + 1] == listing[..i] + [id];
      }
      assert listing[..|listing|] == listing;
      AllRecovered(listing, live, continueAfterRestart, durable, Durable(threads, bindings), failures == expected);
    }

    /** `clearContinuationMarkers`: stops at the first read or write that fails. */
    method ClearMarkers(ids: seq<ThreadId>) returns (ok: bool)
      modifies this`bindings, this`failures
      ensures failures >= old(failures) && (ok <==> failures == old(failures))
      ensures bindings.Keys == old(bindings.Keys)
      ensures forall id <- bindings :: bindings[id] == old(bindings)[id] || (id in ids && bindings[id] == ClearedBinding(old(bindings)[id]))
      ensures ok ==> forall id <- bindings :: id in ids ==> bindings[id] == ClearedBinding(old(bindings)[id])
    {
      for i := 0 to |ids|
        invariant failures == old(failures)
        invariant bindings.Keys == old(bindings.Keys)
        invariant forall id <- bindings ::
          bindings[id] == if id in ids[..i] then ClearedBinding(old(bindings)[id]) else old(bindings)[id]
      {
        var id := ids[i];
        assert ids[..i + 1] == ids[..i] + [id];
        var binding, read := ReadBinding(id);
        if !read {
          return false;
        }
        if binding.Some? {
          var cleared := ClearedBinding(binding.value);
          MergeReplaces(binding.value.payload, cleared.payload.fields);
          var written := UpsertBinding(id, cleared.status, cleared.resumeCursor, cleared.payload.fields);
          if !written {
            return false;
          }
          ClearingAgain(old(bindings)[id]);
        }
      }
      assert ids[..|ids|] == ids;
      ok := true;
    }

    /** `markRunningProviderSessionsForContinuation`: marks exactly the running, resumable threads that
        are neither archived nor deleted; when a read or write fails it takes the markers it set back,
        and only when that fails too can one of them stay. */
    method MarkRunning(listing: seq<ThreadId>) returns (result: Result<seq<ThreadId>, bool>)
      requires forall i, j :: 0 <= i < j < |listing| ==> listing[i] != listing[j]
      requires forall id <- listing :: id in threads
      modifies this`bindings, this`failures
      ensures result.Ok? ==>
        && (forall id :: id in result.value <==> id in listing && Marks(threads[id], BindingOf(old(bindings), id)))
        && bindings.Keys == old(bindings.Keys)
        && forall id <- bindings ::
             bindings[id] == if id in result.value then MarkedBinding(old(bindings)[id], threads[id].session.value.activeTurn.value)
                             else old(bindings)[id]
      ensures result.Err? ==>
        && failures > old(failures) && bindings.Keys == old(bindings.Keys)
        && (result.error ==> forall id <- bindings :: bindings[id] in {old(bindings)[id], ClearedBinding(old(bindings)[id])})
    {
      var marked: seq<ThreadId> := [];
      for i := 0 to |listing|
        invariant failures == old(failures)
        invariant bindings.Keys == old(bindings.Keys)
        invariant forall id :: id in marked <==> id in listing[..i] && Marks(threads[id], BindingOf(old(bindings), id))
        invariant forall id <- bindings ::
          bindings[id] == if id in marked then MarkedBinding(old(bindings)[id], threads[id].session.value.activeTurn.value)
                          else old(bindings)[id]
      {
        var id := listing[i];
        assert listing[..i + 1] == listing[..i] + [id] && id !in listing[..i];
        var thread := threads[id];
        if && !thread.archived && !thread.deleted
           && thread.session.Some? && thread.session.value.status.Running? && thread.session.value.activeTurn.Some? {
          var binding, ok := ReadBinding(id);
          if ok && binding.Some? && binding.value.resumeCursor.Some? {
            var next := MarkedBinding(binding.value, thread.session.value.activeTurn.value);
            MergeReplaces(binding.value.payload, next.payload.fields);
            ok := UpsertBinding(id, next.status, next.resumeCursor, next.payload.fields);
            if ok {
              marked := marked + [id];
            }
          }
          if !ok {
            var cleared := ClearMarkers(marked);
            if cleared {
              forall other <- bindings
                ensures bindings[other] in {old(bindings)[other], ClearedBinding(old(bindings)[other])}
              {
                if other in marked {
                  ClearingMarked(old(bindings)[other], threads[other].session.value.activeTurn.value);
                }
              }
            }
            return Err(cleared);
          }
        }
      }
      assert listing[..|listing|] == listing;
      result := Ok(marked);
    }

    /** The parked continuation of a thread that was prepared with `session` and `binding`. By now the
        provider may have rewritten the stored binding. `admitted` is the turn `sendTurn` got, or none if it
        was refused. Once a turn was admitted no marker stays, even when clearing fails; a refused one
        settles the thread, which also puts the resume cursor from before the startup back. */
    method SubmitContinuation(id: ThreadId, session: Session, binding: Binding, continueAfterRestart: bool, admitted: Option<TurnId>,
                              cursor: Option<Option<string>>)
      requires id in threads && (admitted.Some? ==> id in bindings)
      modifies this
      ensures failures >= old(failures)
      ensures admitted.Some? ==>
        && threads == old(threads) && id in bindings && bindings == old(bindings)[id := bindings[id]]
        && bindings[id].status.BindingRunning? && ContinuationTurn(bindings[id].payload) == None
        && FieldOf(bindings[id].payload, ActiveTurnId) == Some(JText(admitted.value))
        && bindings[id].resumeCursor == if cursor.Some? then cursor.value else old(bindings[id]).resumeCursor
      ensures var settled := SettledOver(BindingOf(old(bindings), id), binding, ClearsMarkers(session, binding, continueAfterRestart));
        var thread := old(threads[id]).(session := Some(Settled(session, CONTINUATION_FAILED_ERROR)));
        admitted.None? ==>
          && (threads == old(threads) || threads == old(threads)[id := thread])
          && (bindings == old(bindings) || bindings == old(bindings)[id := settled])
          && (failures == old(failures) ==> threads == old(threads)[id := thread] && bindings == old(bindings)[id := settled])
    {
      if admitted.Some? {
        bindings := bindings[id := Admitted(bindings[id], admitted.value, cursor)];
        var _ := ClearMarkers([id]);
      } else {
        SettleAsError(id, session, Some(binding), ClearsMarkers(session, binding, continueAfterRestart), CONTINUATION_FAILED_ERROR);
      }
    }

    /** The first loop of `runStopAll`: one write for every session an adapter lists, up to the first that
        fails. */
    method ReportSessions(sessions: seq<(ThreadId, AdapterSession)>, continueAfterRestart: bool) returns (ok: bool, ghost count: nat)
      modifies this`bindings, this`failures
      ensures count <= |sessions| && bindings == Reported(old(bindings), sessions[..count], continueAfterRestart)
      ensures if ok then failures == old(failures) && count == |sessions| else failures > old(failures)
    {
      ok, count := true, 0;
      for k := 0 to |sessions|
        invariant count == k && failures == old(failures)
        invariant bindings == Reported(old(bindings), sessions[..k], continueAfterRestart)
      {
        var (id, adapter) := sessions[k];
        assert sessions[..k + 1][..k] == sessions[..k];
        var cursor := if adapter.cursor.Some? then adapter.cursor.value else CursorOf(BindingOf(bindings, id));
        ok := UpsertBinding(id, RuntimeStatus(adapter.status), cursor, ReportedFields(adapter, continueAfterRestart));
        if !ok {
          return;
        }
        count := k + 1;
      }
    }

    /** The second loop: every listed binding is stopped, up to the first write that fails. */
    method StopBindings(fields: map<string, Json>)
      modifies this`bindings, this`failures
      ensures failures >= old(failures) && bindings.Keys == old(bindings).Keys
      ensures forall id <- bindings :: bindings[id] in {old(bindings)[id], StoppedBinding(old(bindings)[id], fields)}
      ensures failures == old(failures) ==> forall id <- bindings :: bindings[id] == StoppedBinding(old(bindings)[id], fields)
    {
      var remaining := bindings.Keys;
      while remaining != {}
        invariant failures == old(failures) && remaining <= old(bindings).Keys == bindings.Keys
        invariant forall id <- bindings :: bindings[id] == if id in remaining then old(bindings)[id] else StoppedBinding(old(bindings)[id], fields)
      {
        var id :| id in remaining;
        remaining := remaining - {id};
        var stopped := UpsertBinding(id, BindingStopped, bindings[id].resumeCursor, OtherFields(fields)[ActiveTurnId := JNull]);
        if !stopped {
          return;
        }
      }
    }

    /** `runStopAll`, of sessions and a preference that were read. When nothing fails every binding is left
        as `AfterStop` says; whatever fails, each is as it was reported, or stopped after that. */
    method StopAll(sessions: seq<(ThreadId, AdapterSession)>, continueAfterRestart: bool, fields: map<string, Json>)
      returns (ghost count: nat)
      modifies this`bindings, this`failures
      ensures failures >= old(failures) && count <= |sessions|
      ensures var reported := Reported(old(bindings), sessions[..count], continueAfterRestart);
        && bindings.Keys == reported.Keys
        && forall id <- bindings :: bindings[id] in {reported[id], StoppedBinding(reported[id], fields)}
      ensures failures == old(failures) ==>
        bindings == AllStopped(Reported(old(bindings), sessions, continueAfterRestart), fields)
    {
      var ok;
      ok, count := ReportSessions(sessions, continueAfterRestart);
      if ok {
        assert sessions[..|sessions|] == sessions;
        var listed: bool := *;
        if listed {
          StopBindings(fields);
        } else {
          failures := failures + 1;
        }
      }
    }
  }

  /** What reporting some sessions one after another leaves. */
  function Reported(bindings: map<ThreadId, Binding>, sessions: seq<(ThreadId, AdapterSession)>, continueAfterRestart: bool): map<ThreadId, Binding> {
    if sessions == [] then bindings
    else
      var (id, adapter) := sessions[|sessions| - 1];
      var before := Reported(bindings, sessions[..|sessions| - 1], continueAfterRestart);
      before[id := ReportedBinding(BindingOf(before, id), adapter, continueAfterRestart)]
  }

  function AllStopped(bindings: map<ThreadId, Binding>, fields: map<string, Json>): map<ThreadId, Binding> {
    map id | id in bindings :: StoppedBinding(bindings[id], fields)
  }

  lemma ReportedOther(bindings: map<ThreadId, Binding>, sessions: seq<(ThreadId, AdapterSession)>, continueAfterRestart: bool, id: ThreadId)
    requires sessions != [] && sessions[|sessions| - 1].0 != id
    ensures BindingOf(Reported(bindings, sessions, continueAfterRestart), id)
         == BindingOf(Reported(bindings, sessions[..|sessions| - 1], continueAfterRestart), id)
  {
  }

  lemma ReportedNow(bindings: map<ThreadId, Binding>, sessions: seq<(ThreadId, AdapterSession)>, continueAfterRestart: bool,
                    id: ThreadId, adapter: AdapterSession, before: Option<Binding>)
    requires sessions != [] && sessions[|sessions| - 1] == (id, adapter)
    requires before == BindingOf(Reported(bindings, sessions[..|sessions| - 1], continueAfterRestart), id)
    ensures BindingOf(Reported(bindings, sessions, continueAfterRestart), id) == AfterReport(before, Some(adapter), continueAfterRestart)
  {
  }

  lemma {:induction false} NotReported(bindings: map<ThreadId, Binding>, sessions: seq<(ThreadId, AdapterSession)>, continueAfterRestart: bool, id: ThreadId)
    requires forall j :: 0 <= j < |sessions| ==> sessions[j].0 != id
    ensures BindingOf(Reported(bindings, sessions, continueAfterRestart), id) == BindingOf(bindings, id)
  {
    if sessions != [] {
      ReportedOther(bindings, sessions, continueAfterRestart, id);
      NotReported(bindings, sessions[..|sessions| - 1], continueAfterRestart, id);
    }
  }

  /** A session listed once is reported over what was stored. */
  lemma {:induction false} ReportedOnce(bindings: map<ThreadId, Binding>, sessions: seq<(ThreadId, AdapterSession)>, continueAfterRestart: bool,
                                        id: ThreadId, adapter: AdapterSession, k: nat)
    requires k < |sessions| && sessions[k] == (id, adapter)
    requires forall j :: 0 <= j < |sessions| && j != k ==> sessions[j].0 != id
    ensures BindingOf(Reported(bindings, sessions, continueAfterRestart), id) == AfterReport(BindingOf(bindings, id), Some(adapter), continueAfterRestart)
  {
    var front := sessions[..|sessions| - 1];
    if k == |front| {
      NotReported(bindings, front, continueAfterRestart, id);
      ReportedNow(bindings, sessions, continueAfterRestart, id, adapter, BindingOf(bindings, id));
    } else {
      assert front[k] == sessions[k];
      ReportedOther(bindings, sessions, continueAfterRestart, id);
      ReportedOnce(bindings, front, continueAfterRestart, id, adapter, k);
    }
  }

  /** A restart under the preference, over all threads: each session whose adapter is running a turn and
      can resume is continued with that turn at the next startup, whatever the preference then is. */
  lemma RestartContinuesEveryTurn(threads: map<ThreadId, Thread>, bindings: map<ThreadId, Binding>, sessions: seq<(ThreadId, AdapterSession)>,
                                  fields: map<string, Json>, k: nat, later: bool)
    requires k < |sessions| && sessions[k].0 in threads
    requires forall j :: 0 <= j < |sessions| && j != k ==> sessions[j].0 != sessions[k].0
    requires sessions[k].1.status.AdapterRunning? && sessions[k].1.activeTurn.Some?
    requires CursorAfterStop(BindingOf(bindings, sessions[k].0), Some(sessions[k].1)).Some?
    requires IsOpen(threads[sessions[k].0]) && threads[sessions[k].0].session.value.activeTurn in {None, sessions[k].1.activeTurn}
    requires threads[sessions[k].0].session.value.status.Starting? || threads[sessions[k].0].session.value.status.Running?
    ensures var (id, adapter) := sessions[k];
      var stopped := BindingOf(AllStopped(Reported(bindings, sessions, true), fields), id);
      && Orphaned(threads[id], stopped, false) && Continues(threads[id], stopped, later)
      && ContinuationId(threads[id].session.value, stopped.value) == adapter.activeTurn
  {
    var (id, adapter) := sessions[k];
    ReportedOnce(bindings, sessions, true, id, adapter, k);
    GracefulRestartContinues(threads[id], BindingOf(bindings, id), adapter, fields, later);
    ContinuedIsOrphaned(threads[id], AfterStop(BindingOf(bindings, id), Some(adapter), true, fields), later);
  }
}
