/** The command gate of `serverRuntimeStartup.ts` as a state machine. Commands that arrive before the
    server is ready wait in a queue that one worker serves; a command that finds the gate open runs
    at once, and one that finds it failed is refused. The readiness flag and the deferred that the
    worker waits on are two cells, so signalling either way takes two steps. */
module CommandGate {
  import opened Prelude

  type CallId = nat
  type Exit = nat

  datatype Fault = Fault(cause: string)

  /** The content of the readiness flag, and of the deferred (where pending means not completed). */
  datatype Readiness = Pending | Ready | Failed(fault: Fault)

  /** How far startup got: it signals ready at most once, and may fail before, during or after. */
  datatype Startup = Starting | ReadySet | Accepting | FaultSet(fault: Fault) | Stopped(fault: Fault)

  datatype Outcome = Own(exit: Exit) | StartupFault(fault: Fault)

  /** One call of `enqueueCommand`. */
  datatype Call = Entered | Direct | RunningDirect | Offering | Waiting | Done(outcome: Outcome)

  datatype Worker = Idle | Awaiting(call: CallId) | Running(call: CallId) | Settling(call: CallId, outcome: Outcome)

  /** The last five fields only record history: whether ready was ever signalled, the calls in the
      order they were queued, the order in which queued commands began, the order in which results
      were settled, and the exit each command ended with. */
  datatype State = State(
    startup: Startup, flag: Readiness, deferred: Readiness,
    calls: map<CallId, Call>, queue: seq<CallId>, worker: Worker, results: map<CallId, Outcome>,
    everReady: bool, offered: seq<CallId>, begun: seq<CallId>, settled: seq<CallId>, exits: map<CallId, Exit>)

  const Init := State(Starting, Pending, Pending, map[], [], Idle, map[], false, [], [], [], map[])

  datatype Step =
    | SetReady
    | CompleteReady
    | SetFault(fault: Fault)
    | CompleteFault
    | Enter(call: CallId)
    | ReadFlag(call: CallId)
    | StartDirect(call: CallId)
    | FinishDirect(call: CallId, exit: Exit)
    | Offer(call: CallId)
    | Take
    | PassGate
    | FinishQueued(exit: Exit)
    | Settle
    | Return(call: CallId)

  predicate CallIs(s: State, call: CallId, phase: Call) {
    call in s.calls && s.calls[call] == phase
  }

  predicate Enabled(s: State, step: Step) {
    match step
    case SetReady => s.startup.Starting?
    case CompleteReady => s.startup.ReadySet?
    case SetFault(_) => s.startup.Starting? || s.startup.ReadySet? || s.startup.Accepting?
    case CompleteFault => s.startup.FaultSet?
    case Enter(call) => call !in s.calls
    case ReadFlag(call) => CallIs(s, call, Entered)
    case StartDirect(call) => CallIs(s, call, Direct)
    case FinishDirect(call, _) => CallIs(s, call, RunningDirect)
    case Offer(call) => CallIs(s, call, Offering)
    case Take => s.worker.Idle? && s.queue != []
    case PassGate => s.worker.Awaiting? && !s.deferred.Pending?
    case FinishQueued(_) => s.worker.Running?
    case Settle => s.worker.Settling?
    case Return(call) => CallIs(s, call, Waiting) && call in s.results
  }

  /** Completing a deferred that is completed already does nothing. */
  function Completed(deferred: Readiness, value: Readiness): Readiness {
    if deferred.Pending? then value else deferred
  }

  function Apply(s: State, step: Step): State
    requires Enabled(s, step)
  {
    match step
    case SetReady => s.(startup := ReadySet, flag := Ready, everReady := true)
    case CompleteReady => s.(startup := Accepting, deferred := Completed(s.deferred, Ready))
    case SetFault(fault) => s.(startup := FaultSet(fault), flag := Failed(fault))
    case CompleteFault => s.(startup := Stopped(s.startup.fault), deferred := Completed(s.deferred, Failed(s.startup.fault)))
    case Enter(call) => s.(calls := s.calls[call := Entered])
    case ReadFlag(call) =>
      s.(calls := s.calls[call := match s.flag
                                  case Ready => Direct
                                  case Failed(fault) => Done(StartupFault(fault))
                                  case Pending => Offering])
    case StartDirect(call) => s.(calls := s.calls[call := RunningDirect])
    case FinishDirect(call, exit) => s.(calls := s.calls[call := Done(Own(exit))], exits := s.exits[call := exit])
    case Offer(call) => s.(calls := s.calls[call := Waiting], queue := s.queue + [call], offered := s.offered + [call])
    case Take => s.(queue := s.queue[1..], worker := Awaiting(s.queue[0]))
    case PassGate =>
      if s.deferred.Ready? then s.(worker := Running(s.worker.call), begun := s.begun + [s.worker.call])
      else s.(worker := Settling(s.worker.call, StartupFault(s.deferred.fault)))
    case FinishQueued(exit) => s.(worker := Settling(s.worker.call, Own(exit)), exits := s.exits[s.worker.call := exit])
    case Settle =>
      s.(results := if s.worker.call in s.results then s.results else s.results[s.worker.call := s.worker.outcome],
         worker := Idle, settled := s.settled + [s.worker.call])
    case Return(call) => s.(calls := s.calls[call := Done(s.results[call])])
  }

  predicate ValidRun(s: State, steps: seq<Step>)
    decreases |steps|
  {
    steps == [] || (Enabled(s, steps[0]) && ValidRun(Apply(s, steps[0]), steps[1..]))
  }

  function Run(s: State, steps: seq<Step>): State
    requires ValidRun(s, steps)
    decreases |steps|
  {
    if steps == [] then s else Run(Apply(s, steps[0]), steps[1..])
  }

  // ----- The invariant -----

  /** The flag follows startup; the deferred is completed once and for all. */
  ghost predicate SignalsOk(s: State) {
    && s.flag == (match s.startup
                  case Starting => Pending
                  case ReadySet => Ready
                  case Accepting => Ready
                  case FaultSet(fault) => Failed(fault)
                  case Stopped(fault) => Failed(fault))
    && (s.startup.Starting? ==> !s.everReady)
    && (s.startup.ReadySet? || s.startup.Accepting? || s.deferred.Ready? ==> s.everReady)
    && (s.startup.Starting? || s.startup.ReadySet? ==> s.deferred.Pending?)
    && (s.startup.Accepting? ==> s.deferred.Ready?)
    && (s.startup.Stopped? ==> !s.deferred.Pending?)
    && (s.deferred.Failed? ==> s.startup == Stopped(s.deferred.fault))
  }

  function InHand(worker: Worker): seq<CallId> {
    if worker.Idle? then [] else [worker.call]
  }

  /** Every queued call is settled, in the worker's hand or in the queue, in that order. */
  ghost predicate OrderOk(s: State) {
    && s.offered == s.settled + InHand(s.worker) + s.queue
    && (forall i, j :: 0 <= i < j < |s.offered| ==> s.offered[i] != s.offered[j])
    && (s.deferred.Pending? ==> s.settled == [] && (s.worker.Idle? || s.worker.Awaiting?))
    && (if s.deferred.Ready? then s.begun == s.settled + (if s.worker.Running? || s.worker.Settling? then InHand(s.worker) else [])
        else s.begun == [] && !s.worker.Running?)
  }

  /** What a settled result says. */
  ghost predicate OutcomeOk(s: State, call: CallId, outcome: Outcome) {
    match s.deferred
    case Pending => false
    case Ready => call in s.exits && outcome == Own(s.exits[call])
    case Failed(fault) => outcome == StartupFault(fault)
  }

  /** The fault startup ended with, if it did. */
  function FaultOf(startup: Startup): Option<Fault> {
    if startup.FaultSet? || startup.Stopped? then Some(startup.fault) else None
  }

  /** A finished call was refused with the startup fault, or has what its own command ended with. */
  ghost predicate DoneOk(s: State, call: CallId, outcome: Outcome) {
    match outcome
    case StartupFault(fault) => FaultOf(s.startup) == Some(fault)
    case Own(exit) => call in s.exits && exit == s.exits[call]
  }

  ghost predicate CallOk(s: State, call: CallId)
    requires call in s.calls
  {
    match s.calls[call]
    case Entered => call !in s.offered && call !in s.exits
    case Offering => call !in s.offered && call !in s.exits
    case Direct => call !in s.offered && call !in s.exits && s.everReady
    case RunningDirect => call !in s.offered && call !in s.exits && s.everReady
    case Waiting => call in s.offered
    case Done(outcome) => DoneOk(s, call, outcome) && (call in s.offered ==> call in s.results && outcome == s.results[call])
  }

  /** Results are exactly those of the settled calls, and say what they should. */
  ghost predicate ResultsOk(s: State) {
    && (forall call :: call in s.results <==> call in s.settled)
    && (forall call <- s.results :: OutcomeOk(s, call, s.results[call]))
    && (s.worker.Settling? ==> OutcomeOk(s, s.worker.call, s.worker.outcome))
  }

  /** Only commands that were allowed to start have ended, and a queued one only once it was begun. */
  ghost predicate ExitsOk(s: State) {
    && (forall call <- s.exits :: s.everReady && call in s.calls)
    && (forall call <- s.exits :: call in s.offered ==> call in s.settled || s.worker == Settling(call, Own(s.exits[call])))
  }

  ghost predicate CallsOk(s: State) {
    && (forall call <- s.offered :: call in s.calls)
    && (forall call <- s.calls :: CallOk(s, call))
  }

  ghost predicate Inv(s: State) {
    SignalsOk(s) && OrderOk(s) && CallsOk(s) && ResultsOk(s) && ExitsOk(s)
  }

  predicate Signals(step: Step) {
    step.SetReady? || step.CompleteReady? || step.SetFault? || step.CompleteFault?
  }

  lemma SignalKeepsSignals(s: State, step: Step)
    requires SignalsOk(s) && OrderOk(s) && Enabled(s, step) && Signals(step)
    ensures SignalsOk(Apply(s, step)) && OrderOk(Apply(s, step))
  {
  }

  lemma SignalKeepsCalls(s: State, step: Step)
    requires Inv(s) && Enabled(s, step) && Signals(step)
    ensures CallsOk(Apply(s, step))
  {
    forall call <- s.calls
      ensures CallOk(Apply(s, step), call)
    {
      assert CallOk(s, call);
    }
  }

  lemma SignalKeepsInv(s: State, step: Step)
    requires Inv(s) && Enabled(s, step) && Signals(step)
    ensures Inv(Apply(s, step))
  {
    SignalKeepsSignals(s, step);
    SignalKeepsCalls(s, step);
  }

  predicate MovesWorker(step: Step) {
    step.Take? || step.PassGate? || step.FinishQueued? || step.Settle?
  }

  /** The call in the worker's hand was queued and is not settled. */
  lemma InHandIsUnsettled(s: State)
    requires OrderOk(s) && !s.worker.Idle?
    ensures s.worker.call in s.offered && s.worker.call !in s.settled
  {
    var k := |s.settled|;
    assert s.offered[k] == s.worker.call;
    assert forall i :: 0 <= i < k ==> s.offered[i] == s.settled[i];
  }

  lemma TakeStep(s: State)
    requires Inv(s) && Enabled(s, Take)
    ensures Inv(Apply(s, Take))
  {
    var s' := Apply(s, Take);
    TakeKeepsOrder(s);
    SameCalls(s, s');
  }

  lemma TakeKeepsOrder(s: State)
    requires OrderOk(s) && Enabled(s, Take)
    ensures OrderOk(Apply(s, Take))
  {
    var s' := Apply(s, Take);
    assert s.settled + InHand(s.worker) + s.queue == s'.settled + InHand(s'.worker) + s'.queue;
  }

  /** What is said of a call depends on these parts of the state only. */
  lemma SameCalls(s: State, s': State)
    requires CallsOk(s) && s'.calls == s.calls && s'.offered == s.offered && s'.exits == s.exits
    requires s'.results == s.results && s'.everReady == s.everReady && s'.startup == s.startup
    ensures CallsOk(s')
  {
    forall call <- s'.calls
      ensures CallOk(s', call)
    {
      assert CallOk(s, call);
    }
  }

  lemma PassGateKeepsOrder(s: State)
    requires SignalsOk(s) && OrderOk(s) && Enabled(s, PassGate)
    ensures SignalsOk(Apply(s, PassGate)) && OrderOk(Apply(s, PassGate))
  {
  }

  lemma PassGateStep(s: State)
    requires Inv(s) && Enabled(s, PassGate)
    ensures Inv(Apply(s, PassGate))
  {
    InHandIsUnsettled(s);
    PassGateKeepsOrder(s);
    SameCalls(s, Apply(s, PassGate));
  }

  lemma FinishQueuedStep(s: State, exit: Exit)
    requires Inv(s) && Enabled(s, FinishQueued(exit))
    ensures Inv(Apply(s, FinishQueued(exit)))
  {
    var s' := Apply(s, FinishQueued(exit));
    InHandIsUnsettled(s);
    assert s.worker.call !in s.results;
    forall call <- s'.calls
      ensures CallOk(s', call)
    {
      assert CallOk(s, call);
    }
    forall call <- s'.results
      ensures OutcomeOk(s', call, s'.results[call])
    {
      assert OutcomeOk(s, call, s.results[call]);
    }
  }

  lemma SettleStep(s: State)
    requires Inv(s) && Enabled(s, Settle)
    ensures Inv(Apply(s, Settle))
  {
    var s' := Apply(s, Settle);
    InHandIsUnsettled(s);
    assert s.settled + InHand(s.worker) + s.queue == s'.settled + InHand(s'.worker) + s'.queue;
    forall call <- s'.calls
      ensures CallOk(s', call)
    {
      assert CallOk(s, call);
    }
    forall call <- s'.results
      ensures OutcomeOk(s', call, s'.results[call])
    {
      if call != s.worker.call {
        assert OutcomeOk(s, call, s.results[call]);
      }
    }
  }

  lemma OfferStep(s: State, call: CallId)
    requires Inv(s) && Enabled(s, Offer(call))
    ensures Inv(Apply(s, Offer(call)))
  {
    assert CallOk(s, call);
    OfferKeepsOrder(s, call);
    OfferKeepsCalls(s, call);
  }

  lemma OfferKeepsOrder(s: State, call: CallId)
    requires OrderOk(s) && Enabled(s, Offer(call)) && call !in s.offered
    ensures OrderOk(Apply(s, Offer(call)))
  {
    var s' := Apply(s, Offer(call));
    assert s'.offered == s'.settled + InHand(s'.worker) + s'.queue;
  }

  lemma OfferKeepsCalls(s: State, call: CallId)
    requires CallsOk(s) && Enabled(s, Offer(call))
    ensures CallsOk(Apply(s, Offer(call)))
  {
    var s' := Apply(s, Offer(call));
    forall other <- s'.calls
      ensures CallOk(s', other)
    {
      if other != call {
        assert CallOk(s, other);
      }
    }
  }

  predicate MovesCall(step: Step) {
    step.Enter? || step.ReadFlag? || step.StartDirect? || step.FinishDirect? || step.Return?
  }

  lemma CallStepKeepsCalls(s: State, step: Step)
    requires Inv(s) && Enabled(s, step) && MovesCall(step)
    ensures CallsOk(Apply(s, step))
  {
    var s' := Apply(s, step);
    if !step.Enter? {
      assert CallOk(s, step.call);
    }
    forall other <- s'.calls
      ensures CallOk(s', other)
    {
      if other != step.call {
        assert CallOk(s, other);
      }
    }
  }

  /** The other steps of a call change its phase, and for a direct one its exit. */
  lemma CallStep(s: State, step: Step)
    requires Inv(s) && Enabled(s, step) && MovesCall(step)
    ensures Inv(Apply(s, step))
  {
    var s' := Apply(s, step);
    CallStepKeepsCalls(s, step);
    if !step.Enter? {
      assert CallOk(s, step.call);
    }
    forall call <- s'.results
      ensures OutcomeOk(s', call, s'.results[call])
    {
      assert OutcomeOk(s, call, s.results[call]);
      assert call in s.settled && call in s.offered;
    }
  }

  lemma StepKeepsInv(s: State, step: Step)
    requires Inv(s) && Enabled(s, step)
    ensures Inv(Apply(s, step))
  {
    match step
    case SetReady => SignalKeepsInv(s, step);
    case CompleteReady => SignalKeepsInv(s, step);
    case SetFault(_) => SignalKeepsInv(s, step);
    case CompleteFault => SignalKeepsInv(s, step);
    case Take => TakeStep(s);
    case PassGate => PassGateStep(s);
    case FinishQueued(exit) => FinishQueuedStep(s, exit);
    case Settle => SettleStep(s);
    case Offer(call) => OfferStep(s, call);
    case _ => CallStep(s, step);
  }

  lemma {:induction false} RunKeepsInv(s: State, steps: seq<Step>)
    requires Inv(s) && ValidRun(s, steps)
    ensures Inv(Run(s, steps))
    decreases |steps|
  {
    if steps != [] {
      StepKeepsInv(s, steps[0]);
      RunKeepsInv(Apply(s, steps[0]), steps[1..]);
    }
  }

  // ----- What every run keeps -----

  lemma {:induction false} InitRunKeepsInv(steps: seq<Step>)
    requires ValidRun(Init, steps)
    ensures Inv(Run(Init, steps))
  {
    RunKeepsInv(Init, steps);
  }

  /** A command's effect has begun. */
  predicate Started(s: State, call: CallId) {
    call in s.begun || call in s.exits || (call in s.calls && s.calls[call].RunningDirect?)
  }

  /** No command starts before ready is signalled. */
  lemma NothingStartsBeforeReady(steps: seq<Step>, call: CallId)
    requires ValidRun(Init, steps)
    ensures Started(Run(Init, steps), call) ==> Run(Init, steps).everReady
  {
    InitRunKeepsInv(steps);
    var s := Run(Init, steps);
    assert call in s.calls ==> CallOk(s, call);
  }

  predicate HasFailed(startup: Startup) { startup.FaultSet? || startup.Stopped? }

  lemma FaultIsFinal(s: State, step: Step)
    requires HasFailed(s.startup) && Enabled(s, step)
    ensures HasFailed(Apply(s, step).startup) && FaultOf(Apply(s, step).startup) == FaultOf(s.startup)
    ensures Apply(s, step).everReady == s.everReady
  {
  }

  lemma {:induction false} FaultIsFinalInRun(s: State, steps: seq<Step>)
    requires HasFailed(s.startup) && ValidRun(s, steps)
    ensures FaultOf(Run(s, steps).startup) == FaultOf(s.startup) && Run(s, steps).everReady == s.everReady
    decreases |steps|
  {
    if steps != [] {
      FaultIsFinal(s, steps[0]);
      FaultIsFinalInRun(Apply(s, steps[0]), steps[1..]);
    }
  }

  /** If failure is signalled first, no command ever starts, and every call that finishes gets the
      startup fault. */
  lemma NothingStartsAfterFault(before: seq<Step>, fault: Fault, after: seq<Step>, call: CallId)
    requires ValidRun(Init, before) && !Run(Init, before).everReady && Enabled(Run(Init, before), SetFault(fault))
    requires ValidRun(Apply(Run(Init, before), SetFault(fault)), after)
    ensures var s := Run(Apply(Run(Init, before), SetFault(fault)), after);
      && !Started(s, call)
      && (call in s.calls && s.calls[call].Done? ==> s.calls[call] == Done(StartupFault(fault)))
  {
    InitRunKeepsInv(before);
    var failed := Apply(Run(Init, before), SetFault(fault));
    StepKeepsInv(Run(Init, before), SetFault(fault));
    RunKeepsInv(failed, after);
    FaultIsFinalInRun(failed, after);
    var s := Run(failed, after);
    assert call in s.calls ==> CallOk(s, call);
  }

  /** Queued commands begin in the order they were queued, each only after the one before it was
      settled: at any moment at most the last one begun is still running. */
  lemma QueuedRunInOrder(steps: seq<Step>)
    requires ValidRun(Init, steps)
    ensures var s := Run(Init, steps);
      && s.begun <= s.offered
      && (forall k :: 0 <= k < |s.begun| - 1 ==> s.begun[k] in s.settled)
      && (s.worker.Running? ==> s.begun != [] && s.begun[|s.begun| - 1] == s.worker.call)
      && (forall i, j :: 0 <= i < j < |s.begun| ==> s.begun[i] != s.begun[j])
  {
    InitRunKeepsInv(steps);
    var s := Run(Init, steps);
    if s.deferred.Ready? {
      var rest := (if s.worker.Running? || s.worker.Settling? then [] else InHand(s.worker)) + s.queue;
      assert s.offered == s.begun + rest;
      assert forall k :: 0 <= k < |s.begun| ==> s.begun[k] == s.offered[k];
      assert forall k :: 0 <= k < |s.begun| - 1 ==> s.begun[k] == s.settled[k];
    }
  }

  /** Each result is settled once, and no call is settled twice. */
  lemma SettledOnce(steps: seq<Step>)
    requires ValidRun(Init, steps)
    ensures var s := Run(Init, steps); forall i, j :: 0 <= i < j < |s.settled| ==> s.settled[i] != s.settled[j]
  {
    InitRunKeepsInv(steps);
    var s := Run(Init, steps);
    assert forall i :: 0 <= i < |s.settled| ==> s.settled[i] == s.offered[i];
  }

  lemma ResultStays(s: State, step: Step, call: CallId)
    requires Enabled(s, step) && call in s.results
    ensures call in Apply(s, step).results && Apply(s, step).results[call] == s.results[call]
  {
  }

  lemma {:induction false} ResultStaysInRun(s: State, steps: seq<Step>, call: CallId)
    requires ValidRun(s, steps) && call in s.results
    ensures call in Run(s, steps).results && Run(s, steps).results[call] == s.results[call]
    decreases |steps|
  {
    if steps != [] {
      ResultStays(s, steps[0], call);
      ResultStaysInRun(Apply(s, steps[0]), steps[1..], call);
    }
  }

  /** Every call that finishes has the exit of its own command, which then did start, or the fault that
      startup signalled; and nothing else. */
  lemma FinishedWithOwnExitOrFault(steps: seq<Step>, call: CallId)
    requires ValidRun(Init, steps)
    requires var s := Run(Init, steps); call in s.calls && s.calls[call].Done?
    ensures var s := Run(Init, steps);
      match s.calls[call].outcome
      case Own(exit) => call in s.exits && exit == s.exits[call] && s.everReady
      case StartupFault(fault) => FaultOf(s.startup) == Some(fault)
  {
    InitRunKeepsInv(steps);
    var s := Run(Init, steps);
    assert CallOk(s, call);
  }

  // ----- Every queued call is served -----

  /** How many worker steps are left to the calls queued so far. */
  function WorkLeft(s: State): nat {
    4 * |s.queue| + match s.worker
                    case Idle => 0
                    case Awaiting(_) => 3
                    case Running(_) => 2
                    case Settling(_, _) => 1
  }

  /** Once the gate is decided, a call without a result always leaves the worker a step it can take,
      and every worker step brings the end nearer. */
  lemma WorkerNeverStuck(steps: seq<Step>, call: CallId, exit: Exit) returns (step: Step)
    requires ValidRun(Init, steps)
    requires var s := Run(Init, steps); !s.deferred.Pending? && call in s.offered && call !in s.results
    ensures var s := Run(Init, steps); MovesWorker(step) && Enabled(s, step) && WorkLeft(Apply(s, step)) < WorkLeft(s)
  {
    InitRunKeepsInv(steps);
    step := WorkerMoves(Run(Init, steps), call, exit);
  }

  lemma WorkerMoves(s: State, call: CallId, exit: Exit) returns (step: Step)
    requires Inv(s) && !s.deferred.Pending? && call in s.offered && call !in s.results
    ensures MovesWorker(step) && Enabled(s, step) && WorkLeft(Apply(s, step)) < WorkLeft(s)
  {
    match s.worker
    case Idle =>
      assert s.offered == s.settled + s.queue;
      step := Take;
    case Awaiting(_) => step := PassGate;
    case Running(_) => step := FinishQueued(exit);
    case Settling(_, _) => step := Settle;
  }

  /** How far a call is from its end. */
  function StagesLeft(phase: Call): nat {
    match phase
    case Entered => 5
    case Offering => 4
    case Direct => 3
    case RunningDirect => 2
    case Waiting => 1
    case Done(_) => 0
  }

  /** One step of the call itself, or of the worker it waits for. */
  lemma CallMoves(s: State, call: CallId, exit: Exit) returns (step: Step)
    requires Inv(s) && !s.deferred.Pending? && call in s.calls && !s.calls[call].Done?
    ensures Enabled(s, step) && !Signals(step) && !step.Enter?
    ensures var s' := Apply(s, step);
      && call in s'.calls && !s'.deferred.Pending?
      && (StagesLeft(s'.calls[call]) < StagesLeft(s.calls[call])
          || (StagesLeft(s'.calls[call]) == StagesLeft(s.calls[call]) && WorkLeft(s') < WorkLeft(s)))
  {
    assert CallOk(s, call);
    match s.calls[call]
    case Entered => step := ReadFlag(call);
    case Direct => step := StartDirect(call);
    case RunningDirect => step := FinishDirect(call, exit);
    case Offering => step := Offer(call);
    case Waiting =>
      if call in s.results {
        step := Return(call);
      } else {
        step := WorkerMoves(s, call, exit);
      }
  }

  /** Once startup has decided, every call can come to its end, whatever it is doing and whoever waits before
      it, by steps of its own and of the worker alone. */
  lemma {:induction false} EveryCallCanFinish(s: State, call: CallId, exit: Exit) returns (steps: seq<Step>)
    requires Inv(s) && !s.deferred.Pending? && call in s.calls
    ensures ValidRun(s, steps) && call in Run(s, steps).calls && Run(s, steps).calls[call].Done?
    ensures forall step <- steps :: !Signals(step) && !step.Enter?
    decreases if call in s.calls then StagesLeft(s.calls[call]) else 0, WorkLeft(s)
  {
    steps := [];
    if !s.calls[call].Done? {
      var step := CallMoves(s, call, exit);
      StepKeepsInv(s, step);
      var rest := EveryCallCanFinish(Apply(s, step), call, exit);
      steps := [step] + rest;
      assert steps[1..] == rest;
    }
  }

  lemma DirectEnds(s: State, call: CallId, exit: Exit) returns (s1: State, s2: State, s3: State)
    requires s.flag.Ready? && call !in s.calls
    ensures s1 == Apply(s, Enter(call)) && Enabled(s1, ReadFlag(call)) && s2 == Apply(s1, ReadFlag(call))
    ensures Enabled(s2, StartDirect(call)) && s3 == Apply(s2, StartDirect(call)) && Enabled(s3, FinishDirect(call, exit))
    ensures var s4 := Apply(s3, FinishDirect(call, exit));
      s4.calls == s.calls[call := Done(Own(exit))] && s4.queue == s.queue && s4.worker == s.worker
  {
    s1 := Apply(s, Enter(call));
    s2 := Apply(s1, ReadFlag(call));
    s3 := Apply(s2, StartDirect(call));
    assert s3.calls[call := Done(Own(exit))] == s.calls[call := Done(Own(exit))];
  }

  /** While the gate is open a new call does not queue: it starts at once, whatever the worker is doing, and
      returns the exit of its own command. */
  lemma OpenGateRunsAtOnce(steps: seq<Step>, call: CallId, exit: Exit)
    requires ValidRun(Init, steps) && Run(Init, steps).startup.Accepting? && call !in Run(Init, steps).calls
    ensures var s, direct := Run(Init, steps), [Enter(call)] + ([ReadFlag(call)] + ([StartDirect(call)] + ([FinishDirect(call, exit)] + [])));
      && ValidRun(s, direct)
      && Run(s, direct).calls == s.calls[call := Done(Own(exit))]
      && Run(s, direct).queue == s.queue && Run(s, direct).worker == s.worker
  {
    InitRunKeepsInv(steps);
    var s := Run(Init, steps);
    var s1, s2, s3 := DirectEnds(s, call, exit);
    RunCons(s3, FinishDirect(call, exit), []);
    RunCons(s2, StartDirect(call), [FinishDirect(call, exit)] + []);
    RunCons(s1, ReadFlag(call), [StartDirect(call)] + ([FinishDirect(call, exit)] + []));
    RunCons(s, Enter(call), [ReadFlag(call)] + ([StartDirect(call)] + ([FinishDirect(call, exit)] + [])));
  }

  lemma RunCons(s: State, step: Step, rest: seq<Step>)
    requires Enabled(s, step) && ValidRun(Apply(s, step), rest)
    ensures ValidRun(s, [step] + rest) && Run(s, [step] + rest) == Run(Apply(s, step), rest)
  {
    assert ([step] + rest)[0] == step && ([step] + rest)[1..] == rest;
  }

  /** The step in which a call's command ends. */
  predicate Ends(s: State, step: Step, call: CallId, exit: Exit)
    requires Enabled(s, step)
  {
    step == FinishDirect(call, exit) || (step == FinishQueued(exit) && s.worker.call == call)
  }

  lemma ExitStays(s: State, step: Step, call: CallId)
    requires Inv(s) && Enabled(s, step) && call in s.exits
    ensures call in Apply(s, step).exits && Apply(s, step).exits[call] == s.exits[call]
  {
    assert CallOk(s, call);
    if step.FinishQueued? && s.worker.call == call {
      InHandIsUnsettled(s);
    }
  }

  lemma {:induction false} ExitStaysInRun(s: State, steps: seq<Step>, call: CallId)
    requires Inv(s) && ValidRun(s, steps) && call in s.exits
    ensures call in Run(s, steps).exits && Run(s, steps).exits[call] == s.exits[call]
    decreases |steps|
  {
    if steps != [] {
      StepKeepsInv(s, steps[0]);
      ExitStays(s, steps[0], call);
      ExitStaysInRun(Apply(s, steps[0]), steps[1..], call);
    }
  }

  /** A caller gets what its command ended with: in every run that goes on after that step, a finished call
      that was not refused has exactly that exit. */
  lemma CallerGetsItsExit(before: seq<Step>, step: Step, after: seq<Step>, call: CallId, exit: Exit)
    requires ValidRun(Init, before) && Enabled(Run(Init, before), step) && Ends(Run(Init, before), step, call, exit)
    requires ValidRun(Apply(Run(Init, before), step), after)
    ensures var s := Run(Apply(Run(Init, before), step), after);
      call in s.calls && s.calls[call].Done? && s.calls[call].outcome.Own? ==> s.calls[call] == Done(Own(exit))
  {
    InitRunKeepsInv(before);
    var ended := Apply(Run(Init, before), step);
    StepKeepsInv(Run(Init, before), step);
    ExitStaysInRun(ended, after, call);
    RunKeepsInv(ended, after);
    var s := Run(ended, after);
    assert call in s.calls ==> CallOk(s, call);
  }

  /** A fault signalled after ready closes the gate for new calls but does not take back what was
      promised: the deferred stays ready, so calls queued before still run. */
  lemma LateFaultSparesQueued(steps: seq<Step>, fault: Fault)
    requires ValidRun(Init, steps) && Run(Init, steps).startup.Accepting?
    ensures var s := Apply(Run(Init, steps), SetFault(fault));
      && s.deferred.Ready? && Apply(s, CompleteFault).deferred.Ready?
      && (forall call :: call !in s.calls ==>
            Apply(Apply(s, Enter(call)), ReadFlag(call)).calls[call] == Done(StartupFault(fault)))
  {
    InitRunKeepsInv(steps);
  }

  /** The gate itself accepts a ready signal at any time; that it never follows a fault is the
      discipline of startup. */
  function SignalledReady(s: State): State {
    s.(flag := Ready, deferred := Completed(s.deferred, Ready), everReady := true)
  }

  /** Without that discipline, in every run in which failure came first, a new call would start instead
      of being refused; a queued one would be refused all the same. */
  lemma ReadyAfterFaultWouldStart(steps: seq<Step>, call: CallId)
    requires ValidRun(Init, steps)
    requires var s := Run(Init, steps); s.startup.Stopped? && !s.everReady && call !in s.calls
    ensures var s := Run(Init, steps);
      var reopened := SignalledReady(s);
      && Apply(Apply(s, Enter(call)), ReadFlag(call)).calls[call] == Done(StartupFault(s.startup.fault))
      && Apply(Apply(Apply(reopened, Enter(call)), ReadFlag(call)), StartDirect(call)).calls[call] == RunningDirect
      && reopened.deferred == s.deferred == Failed(s.startup.fault)
  {
    InitRunKeepsInv(steps);
  }
}
