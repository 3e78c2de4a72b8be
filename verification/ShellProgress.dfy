/** The subscription always drains: without new commits or disconnects every run is finite and can
    only end with the client up to date. */
module ShellProgress {
  import opened Prelude
  import opened ShellCoalescing
  import opened ShellProtocol
  import opened ShellConvergence

  /** The steps that neither bring new work nor cut the connection. */
  predicate Internal(step: Step) {
    !step.Commit? && !step.Subscribe? && !step.Disconnect? && !step.LoadOverHttp?
  }

  function SlotWeight(slot: Slot): nat {
    if slot.Refetch? && slot.result.Unread? then 2 else 1
  }

  function Weight(slots: seq<Slot>): nat {
    if slots == [] then 0 else SlotWeight(slots[0]) + Weight(slots[1..])
  }

  function PhaseWeight(phase: Phase): nat {
    match phase
    case Attached(_) => 5_000
    case SnapshotNeeded => 100
    case Replaying(_, remaining, _, fetched) => 100 + 4 * remaining + 3 * |fetched|
    case CaughtUp => 50
    case MarkerQueued => 10
    case Live => 0
  }

  /** An upper bound on the internal steps left. */
  function Measure(s: State): nat {
    (if s.server.head < LastSequence(s.server.log) then 1 else 0)
    + 4 * (if s.server.published <= |s.server.log| then |s.server.log| - s.server.published else 0)
    + if s.link.Down? then 0
      else PhaseWeight(s.link.sub.phase) + 3 * |s.link.sub.queue| + Weight(s.link.sub.pending)
  }

  lemma {:induction false} WeightAppend(a: seq<Slot>, b: seq<Slot>)
    ensures Weight(a + b) == Weight(a) + Weight(b)
  {
    if a == [] {
      assert a + b == b;
    } else {
      assert (a + b)[1..] == a[1..] + b;
      WeightAppend(a[1..], b);
    }
  }

  lemma {:induction false} RefetchesWeight(events: seq<ShellEvent>)
    ensures Weight(Refetches(events)) == 2 * |events|
  {
    if events != [] {
      assert Refetches(events)[1..] == Refetches(events[1..]);
      RefetchesWeight(events[1..]);
    }
  }

  lemma {:induction false} WithoutShortens(events: seq<ShellEvent>, a: Aggregate)
    ensures |Without(events, a)| <= |events|
  {
    if events != [] {
      WithoutShortens(events[..|events| - 1], a);
    }
  }

  lemma {:induction false} SurvivorsShorten(events: seq<ShellEvent>)
    ensures |Survivors(events)| <= |events|
  {
    if events != [] {
      SurvivorsShorten(events[..|events| - 1]);
      WithoutShortens(Survivors(events[..|events| - 1]), events[|events| - 1].aggregate);
    }
  }

  /** Coalescing never makes a batch heavier than the inputs it took. */
  lemma {:induction false} PlanWeight(inputs: seq<LiveInput>, pending: seq<ShellEvent>)
    ensures Weight(Plan(inputs, pending)) <= 2 * (|inputs| + |pending|)
  {
    SurvivorsShorten(pending);
    RefetchesWeight(Survivors(pending));
    if inputs != [] {
      if inputs[0].Event? {
        PlanWeight(inputs[1..], pending + [inputs[0].event]);
      } else {
        PlanWeight(inputs[1..], []);
        var own := Refetches(Survivors(pending));
        WeightAppend(own + [Mark], Plan(inputs[1..], []));
        WeightAppend(own, [Mark]);
      }
    }
  }

  lemma {:induction false} ReadLightens(slots: seq<Slot>, k: nat, result: ReadState)
    requires k < |slots| && slots[k].Refetch? && slots[k].result.Unread? && !result.Unread?
    ensures Weight(slots[k := Refetch(slots[k].event, result)]) < Weight(slots)
  {
    var slots' := slots[k := Refetch(slots[k].event, result)];
    if k == 0 {
      assert slots'[1..] == slots[1..];
    } else {
      assert slots'[1..] == slots[1..][k - 1 := Refetch(slots[k].event, result)];
      ReadLightens(slots[1..], k - 1, result);
    }
  }

  lemma FetchLightens(s: State, sub: Subscription)
    requires SubEnabled(s, sub, FetchPage)
    ensures PhaseWeight(NextSub(s, sub, FetchPage).phase) < PhaseWeight(sub.phase)
  {
  }

  function SubMeasure(sub: Subscription): nat {
    PhaseWeight(sub.phase) + 3 * |sub.queue| + Weight(sub.pending)
  }

  lemma SubStepDecreases(s: State, sub: Subscription, step: Step)
    requires SubEnabled(s, sub, step) && !step.ReadRow? && !step.Deliver?
    ensures SubMeasure(NextSub(s, sub, step)) < SubMeasure(sub)
  {
    match step
    case ReadHead(_) =>
    case LoadSnapshot => assert Weight([Snapshot(s.server.rows, LastSequence(s.server.log))]) == 1;
    case FetchPage => FetchLightens(s, sub);
    case CoalesceReplay(count) => PlanWeight(Inputs(sub.phase.fetched[..count]), []);
    case FinishReplay =>
    case StartLive =>
    case TakeAll => PlanWeight(sub.queue[..|sub.queue|], []);
    case TakeLive(count) => PlanWeight(sub.queue[..count], []);
  }

  /** Every internal step uses up some of the measure. */
  lemma InternalStepDecreases(s: State, step: Step)
    requires Enabled(s, step) && Internal(step)
    ensures Measure(Apply(s, step)) < Measure(s)
  {
    if step.ReadRow? {
      ReadLightens(s.link.sub.pending, step.slot, Apply(s, step).link.sub.pending[step.slot].result);
    } else if !step.AdvanceHead? && !step.Publish? && !step.Deliver? {
      SubStepDecreases(s, s.link.sub, step);
    }
  }

  /** Runs without commits or disconnects are bounded. */
  lemma {:induction false} InternalRunsEnd(s: State, steps: seq<Step>)
    requires ValidRun(s, steps)
    requires forall i :: 0 <= i < |steps| ==> Internal(steps[i])
    ensures |steps| <= Measure(s)
    decreases |steps|
  {
    if steps != [] {
      InternalStepDecreases(s, steps[0]);
      InternalRunsEnd(Apply(s, steps[0]), steps[1..]);
    }
  }

  /** A connected subscription that is not quiet can always move. */
  lemma NeverStuck(s: State) returns (step: Step)
    requires Inv(s) && s.link.Up? && !Quiet(s)
    ensures Internal(step) && Clean(step) && Enabled(s, step)
  {
    var sub, sv := s.link.sub, s.server;
    if sv.published < |sv.log| {
      BelowLast(sv.log, sv.published);
      step := if sv.log[sv.published].sequence <= sv.head then Publish else AdvanceHead;
    } else if sub.pending != [] {
      if k: nat :| k < |sub.pending| && sub.pending[k].Refetch? && sub.pending[k].result.Unread? {
        step := ReadRow(k, true);
      } else {
        step := Deliver;
      }
    } else {
      step := match sub.phase
        case Attached(_) => ReadHead(true)
        case SnapshotNeeded => LoadSnapshot
        case Replaying(_, remaining, _, fetched) =>
          if remaining > 0 then FetchPage else if fetched != [] then CoalesceReplay(1) else FinishReplay
        case CaughtUp => StartLive
        case MarkerQueued => TakeAll
        case Live => TakeLive(1);
    }
  }

  lemma MoveOn(s: State) returns (step: Step)
    requires Inv(s) && s.link.Up? && !Quiet(s)
    ensures Internal(step) && Clean(step) && Enabled(s, step)
    ensures Inv(Apply(s, step)) && Measure(Apply(s, step)) < Measure(s)
  {
    step := NeverStuck(s);
    StepKeepsInv(s, step);
    InternalStepDecreases(s, step);
  }

  lemma InternalKeepsLink(s: State, step: Step)
    requires Enabled(s, step) && Internal(step) && s.link.Up?
    ensures Apply(s, step).link.Up?
  {
  }

  /** From every reachable connected state the subscription can drain, within the measure, to a
      quiet state; with successful reads it then shows exactly the projection. */
  lemma {:induction false} DrainsToQuiet(s: State) returns (steps: seq<Step>)
    requires Inv(s) && s.link.Up?
    ensures ValidRun(s, steps) && Quiet(Run(s, steps)) && |steps| <= Measure(s)
    ensures forall i :: 0 <= i < |steps| ==> Internal(steps[i]) && Clean(steps[i])
    decreases Measure(s)
  {
    steps := [];
    if !Quiet(s) {
      var step := MoveOn(s);
      InternalKeepsLink(s, step);
      var rest := DrainsToQuiet(Apply(s, step));
      steps := [step] + rest;
      assert steps[1..] == rest;
    }
  }

  lemma {:induction false} RunAppend(s: State, steps: seq<Step>, more: seq<Step>)
    requires ValidRun(s, steps) && ValidRun(Run(s, steps), more)
    ensures ValidRun(s, steps + more) && Run(s, steps + more) == Run(Run(s, steps), more)
    decreases |steps|
  {
    if steps == [] {
      assert steps + more == more;
    } else {
      assert (steps + more)[1..] == steps[1..] + more;
      RunAppend(Apply(s, steps[0]), steps[1..], more);
    }
  }

  /** Whatever happened before, a connected client can be brought up to date by the subscription
      alone: some internal continuation ends with its rows equal to the projection. */
  lemma CatchesUp(steps: seq<Step>) returns (more: seq<Step>)
    requires ValidRun(Init, steps) && Run(Init, steps).link.Up?
    requires forall i :: 0 <= i < |steps| ==> Clean(steps[i])
    ensures |more| <= Measure(Run(Init, steps)) && forall i :: 0 <= i < |more| ==> Internal(more[i])
    ensures ValidRun(Init, steps + more)
    ensures var s := Run(Init, steps + more); s.client.Some? && s.client.value.rows == s.server.rows
  {
    RunKeepsInv(Init, steps);
    more := DrainsToQuiet(Run(Init, steps));
    RunAppend(Init, steps, more);
    ConvergesExactly(steps + more);
  }
}
