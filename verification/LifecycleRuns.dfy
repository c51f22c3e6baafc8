/** What every run of the engine's lifecycle keeps. */
module LifecycleRuns {
  import opened LivePositions
  import opened Options
  import opened SessionUnits
  import opened EngineLifecycle

  /** A reconciled fence belongs to the current, active, acknowledged epoch, with no generation in progress; no fence
      belongs to an epoch that has not started. */
  ghost predicate FenceSound(e: Engine) {
    && e.hydration.fenceEpoch <= e.epoch.live
    && (e.hydration.fenceReconciled ==>
          && e.epoch.active && e.epoch.acked && e.hydration.fenceEpoch == e.epoch.live
          && !e.hydration.generation.active)
  }

  /** Live means reconciled, and a generation is only ever in progress while hydrating or recovering. */
  ghost predicate LifecycleSound(e: Engine) {
    && (e.lifecycle == Live ==> e.hydration.fenceReconciled)
    && (e.hydration.generation.active ==> e.lifecycle == Hydrating || e.lifecycle == Recovering || e.globalFailure)
    && (e.session.Some? ==> e.lifecycle != Initializing)
  }

  ghost predicate Sound(e: Engine) {
    FenceSound(e) && LifecycleSound(e)
  }

  /** The parts a lifecycle transition and a suppression leave alone. */
  ghost predicate SameFacts(e: Engine, t: Engine) {
    && t.session == e.session && t.epoch == e.epoch && t.control == e.control && t.hydration == e.hydration
    && t.coverage == e.coverage && t.watermark == e.watermark && t.clockMonotonic == e.clockMonotonic
    && t.aggregateIntegrity == e.aggregateIntegrity
  }

  lemma TransitionShape(e: Engine, event: LifecycleEvent, now: int)
    ensures var t := TransitionOrStay(e, event, now);
            && SameFacts(e, t) && t.recovery == e.recovery && t.suppression == e.suppression
            && t.globalFailure == e.globalFailure
            && t.lifecycle == (if NextLifecycle(e, event, now).Some? then NextLifecycle(e, event, now).value.0
                               else e.lifecycle)
  {}

  lemma ScheduleShape(e: Engine, now: int)
    ensures var t := ScheduleRecovery(e, now);
            SameFacts(e, t) && t.lifecycle == e.lifecycle && t.suppression == e.suppression
            && t.globalFailure == e.globalFailure && t.reason == e.reason
  {}

  /** A suppression ends suppressed, wherever it starts. */
  lemma SuppressionShape(e: Engine, event: LifecycleEvent, reason: Reason, now: int)
    requires event.IngressEvent? ==> e.lifecycle != Initializing && e.lifecycle != Ended
    requires event.IngressEvent? || event == CanonicalEvent || event == AccountingEvent || event == ClockRegressionEvent
    ensures var t := EnterSuppression(e, event, reason, now);
            && SameFacts(e, t) && t.lifecycle == Suppressed
            && t.globalFailure == (e.globalFailure || SuppressionFor(reason) != Some(SameBindingRecovery))
  {
    var kind := SuppressionFor(reason);
    var disposition := if kind.Some? then kind.value else RestartRequired;
    var a := e.(suppression := Some(disposition));
    ScheduleShape(a, now);
    var b := if disposition == SameBindingRecovery && reason != RecoveryExhausted then ScheduleRecovery(a, now) else a;
    var c := if disposition == SameBindingRecovery then b else b.(globalFailure := true);
    assert SameFacts(e, c);
    TransitionShape(c, if kind.Some? then event else AccountingEvent, now);
  }

  lemma LoseShape(e: Engine)
    ensures var t := LoseEpoch(e);
            && !t.epoch.active && !t.epoch.acked && t.epoch.live == e.epoch.live && !t.hydration.fenceReconciled
            && t.hydration.generation == e.hydration.generation && t.hydration.fenceEpoch == e.hydration.fenceEpoch
            && t.hydration.supportedThrough == e.hydration.supportedThrough
            && t.hydration.supportedT == e.hydration.supportedT
            && t.watermark == e.watermark && t.lifecycle == e.lifecycle && t.session == e.session
            && t.globalFailure == e.globalFailure
  {}

  lemma CancelShape(e: Engine)
    ensures var t := CancelGeneration(e);
            && !t.hydration.generation.active && t.hydration.fenceReconciled == e.hydration.fenceReconciled
            && t.hydration.fenceEpoch == e.hydration.fenceEpoch
            && t.hydration.supportedThrough == e.hydration.supportedThrough
            && t.hydration.supportedT == e.hydration.supportedT
            && t.epoch == e.epoch && t.watermark == e.watermark && t.lifecycle == e.lifecycle && t.session == e.session
            && t.globalFailure == e.globalFailure && t.suppression == e.suppression && t.recovery == e.recovery
            && t.control == e.control && t.aggregateIntegrity == e.aggregateIntegrity
  {}

  lemma RouteLossSound(e: Engine, now: int)
    requires FenceSound(e) && !e.hydration.generation.active && RouteLoss(e, now).Some?
    ensures var t := RouteLoss(e, now).value;
            Sound(t) && t.lifecycle == Recovering && !t.epoch.active && t.epoch.live == e.epoch.live
            && !t.hydration.fenceReconciled && t.watermark == e.watermark
            && t.hydration.fenceEpoch == e.hydration.fenceEpoch
            && t.hydration.supportedT == e.watermark.committedT && !t.hydration.generation.active
  {
    var kept := e.(hydration := e.hydration.(supportedT := e.watermark.committedT), suppression := None);
    LoseShape(kept);
    TransitionShape(LoseEpoch(kept), LossEvent, now);
    ScheduleShape(TransitionOrStay(LoseEpoch(kept), LossEvent, now), now);
  }

  lemma FailIngressSound(e: Engine, now: int)
    requires FenceSound(e) && e.session.Some? && e.lifecycle != Initializing && e.lifecycle != Ended
    ensures var t := FailIngress(e, now);
            Sound(t) && !t.epoch.active && t.epoch.live == e.epoch.live && !t.hydration.fenceReconciled
            && t.watermark == e.watermark && t.hydration.fenceEpoch == e.hydration.fenceEpoch
            && !t.hydration.generation.active && t.lifecycle != Live
  {
    CancelShape(e);
    var canceled := CancelGeneration(e);
    if RouteLoss(canceled, now).Some? {
      RouteLossSound(canceled, now);
    } else {
      LoseShape(canceled);
      SuppressionShape(LoseEpoch(canceled), IngressEvent(IngressIntegrity), IngressIntegrity, now);
    }
  }

  lemma LoseConnectionSound(e: Engine, now: int)
    requires Sound(e) && !e.globalFailure
    ensures var t := LoseConnection(e, now).0;
            && Sound(t) && t.epoch.live == e.epoch.live && t.watermark == e.watermark
            && t.hydration.fenceEpoch == e.hydration.fenceEpoch
            && (t == e || (!t.epoch.active && !t.hydration.fenceReconciled))
  {
    var kept := if e.lifecycle == Live
                then e.(hydration := e.hydration.(supportedT := e.watermark.committedT)) else e;
    var canceled := if e.lifecycle == Hydrating || e.lifecycle == Recovering then CancelGeneration(kept) else kept;
    CancelShape(kept);
    LoseShape(canceled);
    TransitionShape(LoseEpoch(canceled), LossEvent, now);
    ScheduleShape(TransitionOrStay(LoseEpoch(canceled), LossEvent, now), now);
  }

  /** How one step may move the epoch: a lost epoch never returns, only a greater one starts, and a fence is only ever
      accepted for the epoch in force. */
  ghost predicate EpochStep(e: Engine, t: Engine) {
    && t.epoch.live >= e.epoch.live
    && (t.epoch.active ==> t.epoch.live > e.epoch.live || e.epoch.active)
    && (t.hydration.fenceEpoch == e.hydration.fenceEpoch
        || (t.epoch.active && t.hydration.fenceEpoch == t.epoch.live))
  }

  /** What applying an input keeps; the committed watermark is not its business. */
  ghost predicate Kept(e: Engine, t: Engine) {
    Sound(t) && EpochStep(e, t) && t.watermark.committedT == e.watermark.committedT
  }

  lemma SubscriptionKeeps(e: Engine, c: ControlInput, now: int)
    requires Sound(e) && !e.globalFailure && e.epoch.active
    ensures Kept(e, Subscription(e, c, now).0)
  {
    TransitionShape(e, AckEvent, now);
  }

  lemma NewEpochKeeps(e: Engine, epoch: nat)
    requires Sound(e) && !e.epoch.active && epoch > e.epoch.live
    ensures Kept(e, NewEpoch(e, epoch))
  {}

  lemma RecordKeeps(e: Engine, t: Engine, c: ControlInput, code: Code)
    requires Kept(e, t)
    ensures Kept(e, RecordControl(t, c, code))
  {
    var r := RecordControl(t, c, code);
    assert r.hydration == t.hydration && r.lifecycle == t.lifecycle && r.globalFailure == t.globalFailure;
    assert r.epoch.live == t.epoch.live && r.epoch.active == t.epoch.active && r.epoch.acked == t.epoch.acked;
  }

  lemma ControlKeeps(e: Engine, c: ControlInput, now: int)
    requires Sound(e) && !e.globalFailure && e.lifecycle != Ended
    ensures Kept(e, ApplyControl(e, c, now))
  {
    var r := DecideControl(e, c, now);
    if r.0 == e {
    } else if c.kind == Attempt {
      NewEpochKeeps(e, c.epoch);
    } else if c.kind == AggregateSubscription {
      SubscriptionKeeps(e, c, now);
    } else if c.kind == Lost {
      LoseConnectionSound(e, now);
    } else if c.kind == IngressFailure {
      FailIngressSound(e, now);
    }
    RecordKeeps(e, r.0, c, r.1);
  }

  lemma PlanKeeps(e: Engine, purpose: Purpose, epoch: nat, requests: nat)
    requires Sound(e)
    ensures Kept(e, ApplyPlan(e, purpose, epoch, requests).0)
  {}

  lemma CloseKeeps(e: Engine, generation: nat, completed: bool)
    requires Sound(e)
    ensures Kept(e, CloseRequest(e, generation, completed).0)
  {}

  lemma BreakOffKeeps(e: Engine, f: IngressFence, now: int)
    requires Sound(e) && !e.globalFailure && e.hydration.generation.active && e.lifecycle != Ended
    ensures Kept(e, BreakOffFence(e, f, now).0)
  {
    CancelShape(e);
    var canceled := CancelGeneration(e);
    LoseShape(canceled);
    TransitionShape(LoseEpoch(canceled), LossEvent, now);
    var h := canceled.(hydration := canceled.hydration.(fenceReconciled := false));
    SuppressionShape(h, IngressEvent(IngressIntegrity), IngressIntegrity, now);
  }

  lemma CompleteFenceKeeps(e: Engine, f: IngressFence, target: int, unknown: bool, now: int)
    requires Sound(e) && !e.globalFailure && e.hydration.generation.active
    requires e.epoch.active && e.epoch.acked && e.epoch.live == f.epoch
    ensures Kept(e, CompleteFence(e, f, target, unknown, now))
  {
    var h := FenceAt(e.hydration, f).(generation := e.hydration.generation.(active := false), fenceReconciled := true,
                                      supportedThrough := Some(target));
    TransitionShape(e.(hydration := h, watermark := e.watermark.(latestTarget := Some(target))),
                    HydrationCompleteEvent, now);
  }

  lemma IngressFenceKeeps(e: Engine, f: IngressFence, unknown: bool, now: int)
    requires Sound(e) && !e.globalFailure && e.lifecycle != Ended
    ensures Kept(e, ApplyIngressFence(e, f, unknown, now).0)
  {
    var g := e.hydration.generation;
    if g.active && e.session.Some? {
      if f.outcome != FenceComplete {
        BreakOffKeeps(e, f, now);
      } else if e.epoch.active && e.epoch.acked && e.epoch.live == f.epoch {
        CompleteFenceKeeps(e, f, TimerTarget(f.capturedAt, e.session.value), unknown, now);
      }
    }
  }

  lemma PolicyKeeps(e: Engine, action: PolicyAction, epoch: nat, generation: nat, token: nat, now: int)
    requires Sound(e) && !e.globalFailure
    ensures Kept(e, ApplyPolicy(e, action, epoch, generation, token, now).0)
  {
    var decided := e.(hydration := e.hydration.(lastPolicyToken := token, policyWaiting := false,
                                                generation := e.hydration.generation.(policyDecided := true)));
    CancelShape(decided);
    var canceled := CancelGeneration(decided);
    TransitionShape(canceled, StopEvent, now);
    if e.lifecycle == Recovering {
      SuppressionShape(canceled, IngressEvent(RecoveryExhausted), RecoveryExhausted, now);
    }
  }

  lemma TimerKeeps(e: Engine, now: int)
    requires Sound(e) && !e.globalFailure
    ensures Kept(e, ApplyTimer(e, now).0)
  {
    TransitionShape(e, TimerEvent, now);
    CancelShape(TransitionOrStay(e, TimerEvent, now));
  }

  lemma RecoveryKeeps(e: Engine, command: RecoveryCommand, now: int)
    requires Sound(e) && !e.globalFailure
    ensures Kept(e, ApplyScheduledRecovery(e, command, now).0)
  {
    TransitionShape(e.(recovery := Recovery(None, false)), ScheduledRecoveryEvent, now);
  }

  lemma ExhaustionKeeps(e: Engine, attempts: nat, now: int)
    requires Sound(e) && !e.globalFailure && e.lifecycle != Ended
    ensures Kept(e, ApplyExhaustion(e, attempts, now).0)
  {
    if e.lifecycle != Initializing {
      SuppressionShape(e.(recovery := Recovery(None, false)), IngressEvent(RecoveryExhausted), RecoveryExhausted, now);
    }
  }

  lemma CoverageKeeps(e: Engine, f: CoverageFence, now: int)
    requires Sound(e)
    ensures Kept(e, ApplyCoverageFence(e, f, now).0)
  {}

  lemma AggregateKeeps(e: Engine, position: Position, clash: bool, now: int)
    requires Sound(e) && !e.globalFailure
    ensures Kept(e, ApplyAggregate(e, position, clash, now))
  {
    var seen := if position.epoch == e.epoch.live && position.frame > 0
                   && (e.epoch.greatestIngress.epoch == 0 || After(position, e.epoch.greatestIngress))
                then e.(epoch := e.epoch.(greatestIngress := position)) else e;
    SuppressionShape(seen.(aggregateIntegrity := true), CanonicalEvent, CanonicalIntegrity, now);
  }

  lemma FaultKeeps(e: Engine, now: int)
    requires Sound(e) && e.hydration.generation.active
    ensures Kept(e, EnterSuppression(CloseRequests(e), AccountingEvent, AccountingIntegrity, now))
  {
    SuppressionShape(CloseRequests(e), AccountingEvent, AccountingIntegrity, now);
  }

  lemma BindingKeeps(e: Engine, session: Session, now: int)
    requires Sound(e) && e.session.None? && e.lifecycle == Initializing
    ensures Kept(e, Apply(e, BindingInput(session), now).0)
  {
    TransitionShape(e.(session := Some(session)), BindingEvent, now);
  }

  lemma ApplyKeeps(e: Engine, input: Input, now: int)
    requires Sound(e) && !e.globalFailure && e.lifecycle != Ended
    ensures Kept(e, Apply(e, input, now).0)
  {
    match input
    case BindingInput(session) => if e.session.None? && e.lifecycle == Initializing { BindingKeeps(e, session, now); }
    case TimerInput => TimerKeeps(e, now);
    case StopInput =>
      CancelShape(e);
      TransitionShape(CancelGeneration(e), StopEvent, now);
    case ControlFact(control) => ControlKeeps(e, control, now);
    case ExhaustionInput(attempts) => ExhaustionKeeps(e, attempts, now);
    case RecoveryInput(command) => RecoveryKeeps(e, command, now);
    case IssueRecoveryInput =>
    case OperationalIngressInput => if e.session.Some? { FailIngressSound(e, now); }
    case AggregateInput(position, clash) => AggregateKeeps(e, position, clash, now);
    case PlanInput(purpose, epoch, requests) => PlanKeeps(e, purpose, epoch, requests);
    case TerminalInput(generation, completed) => CloseKeeps(e, generation, completed);
    case HydrationFaultInput => if e.hydration.generation.active { FaultKeeps(e, now); }
    case IngressFenceInput(fence, unknown) => IngressFenceKeeps(e, fence, unknown, now);
    case PolicyInput(action, epoch, generation, token) => PolicyKeeps(e, action, epoch, generation, token, now);
    case IssueCoverageInput =>
    case CoverageFenceInput(fence) => CoverageKeeps(e, fence, now);
  }

  // ---------------------------------------------------------------------------------------------- steps and runs

  /** The committed watermark stays, or moves up to a target that the reconciled fence of the active epoch supports. */
  ghost predicate WatermarkStep(e: Engine, t: Engine) {
    || t.watermark.committedT == e.watermark.committedT
    || (&& t.watermark.committedT.Some?
        && (e.watermark.committedT.Some? ==> e.watermark.committedT.value < t.watermark.committedT.value)
        && t.epoch.active && t.epoch.acked && t.hydration.fenceReconciled && t.hydration.fenceEpoch == t.epoch.live
        && t.hydration.fenceThrough >= t.epoch.ackPosition.frame
        && t.hydration.supportedThrough.Some?
        && t.watermark.committedT.value <= t.hydration.supportedThrough.value
        && t.clockMonotonic && !t.aggregateIntegrity)
  }

  lemma EvaluateKeeps(e: Engine, input: Input, code: Code, evaluation: Evaluation, now: int)
    requires Sound(e)
    ensures var t := Evaluate(e, input, code, evaluation, now);
            && Sound(t) && t.epoch == e.epoch && t.hydration == e.hydration && t.session == e.session
            && WatermarkStep(e, t)
  {
    SuppressionShape(e, AccountingEvent, AccountingIntegrity, now);
  }

  /** An accepted evaluation ends with the watermark at its own target: what resets the recovery attempts after a fence
      is that its evaluation was accepted, whichever target that was for. */
  lemma CommitIsTarget(e: Engine, input: Input, now: int)
    requires !e.globalFailure && Evaluates(input) && EvaluationTarget(e).Some?
    ensures var t := Evaluate(e, input, Applied, Accept, now);
            && t.watermark.committedT == EvaluationTarget(e)
            && (input.IngressFenceInput? ==> t.control.attempts == 0 && t.recovery.pending.None?)
  {}

  lemma StepKeeps(e: Engine, event: Event)
    requires Sound(e)
    ensures var t := Step(e, event); Sound(t) && EpochStep(e, t) && WatermarkStep(e, t)
  {
    if e.lifecycle != Ended && !e.globalFailure {
      if event.clockRegression {
        SuppressionShape(e.(clockMonotonic := false), ClockRegressionEvent, ClockRegression, event.now);
      } else {
        ApplyKeeps(e, event.input, event.now);
        var applied := Apply(e, event.input, event.now);
        EvaluateKeeps(applied.0, event.input, applied.1, event.evaluation, event.now);
      }
    }
  }

  ghost function Run(e: Engine, events: seq<Event>): Engine {
    if events == [] then e else Step(Run(e, events[..|events| - 1]), events[|events| - 1])
  }

  lemma {:induction false} RunKeeps(e: Engine, events: seq<Event>)
    requires Sound(e)
    ensures Sound(Run(e, events))
    decreases |events|
  {
    if events != [] {
      RunKeeps(e, events[..|events| - 1]);
      StepKeeps(Run(e, events[..|events| - 1]), events[|events| - 1]);
    }
  }

  lemma StartSound()
    ensures Sound(Start)
  {}

  /** Live over every run: the current epoch is active and acknowledged, the fence is reconciled for that same epoch,
      and no hydration generation is in progress. */
  lemma LiveMeans(events: seq<Event>)
    ensures var e := Run(Start, events);
            e.lifecycle == Live ==>
              && e.epoch.active && e.epoch.acked && e.hydration.fenceReconciled
              && e.hydration.fenceEpoch == e.epoch.live && !e.hydration.generation.active
  {
    StartSound();
    RunKeeps(Start, events);
  }

  /** The watermark over every run: each step keeps it, or moves it up to a supported target. */
  lemma WatermarkMovesWithSupport(events: seq<Event>, event: Event)
    ensures WatermarkStep(Run(Start, events), Step(Run(Start, events), event))
  {
    StartSound();
    RunKeeps(Start, events);
    StepKeeps(Run(Start, events), event);
  }

  ghost predicate AtMost(a: Option<int>, b: Option<int>) {
    a.Some? ==> b.Some? && a.value <= b.value
  }

  /** It never decreases, between any two points of any run. */
  lemma {:induction false} WatermarkNeverDecreases(e: Engine, events: seq<Event>)
    requires Sound(e)
    ensures AtMost(e.watermark.committedT, Run(e, events).watermark.committedT)
    decreases |events|
  {
    if events != [] {
      WatermarkNeverDecreases(e, events[..|events| - 1]);
      RunKeeps(e, events[..|events| - 1]);
      StepKeeps(Run(e, events[..|events| - 1]), events[|events| - 1]);
    }
  }

  /** The event is a complete ingress fence of an epoch after n, and the engine accepts it and is reconciled by it. */
  ghost predicate AcceptsFenceAfter(e: Engine, event: Event, n: nat) {
    && event.input.IngressFenceInput? && event.input.fence.outcome == FenceComplete
    && n < event.input.fence.epoch == Step(e, event).epoch.live
    && Apply(e, event.input, event.now).1 == Applied && Step(e, event).hydration.fenceReconciled
  }

  /** Nothing but an accepted ingress fence of the epoch in force reconciles an engine that is not. */
  lemma ReconciledByFence(e: Engine, input: Input, now: int)
    requires Sound(e) && !e.globalFailure && e.lifecycle != Ended && !e.hydration.fenceReconciled
    ensures var r := Apply(e, input, now);
            r.0.hydration.fenceReconciled ==>
              && input.IngressFenceInput? && input.fence.outcome == FenceComplete && r.1 == Applied
              && input.fence.epoch == r.0.epoch.live
  {
    match input
    case BindingInput(session) => TransitionShape(e.(session := Some(session)), BindingEvent, now);
    case TimerInput => ReconciledByTimer(e, now);
    case StopInput =>
      CancelShape(e);
      TransitionShape(CancelGeneration(e), StopEvent, now);
    case ControlFact(control) => ReconciledByControl(e, control, now);
    case ExhaustionInput(attempts) =>
      if e.lifecycle != Initializing {
        SuppressionShape(e.(recovery := Recovery(None, false)), IngressEvent(RecoveryExhausted), RecoveryExhausted,
                         now);
      }
    case RecoveryInput(command) => TransitionShape(e.(recovery := Recovery(None, false)), ScheduledRecoveryEvent, now);
    case OperationalIngressInput => if e.session.Some? { FailIngressSound(e, now); }
    case AggregateInput(position, clash) => ReconciledByAggregate(e, position, clash, now);
    case HydrationFaultInput =>
      SuppressionShape(CloseRequests(e), AccountingEvent, AccountingIntegrity, now);
    case IngressFenceInput(fence, unknown) => ReconciledByIngress(e, fence, unknown, now);
    case PolicyInput(action, epoch, generation, token) => ReconciledByPolicy(e, action, epoch, generation, token, now);
    case _ =>
  }

  lemma ReconciledByTimer(e: Engine, now: int)
    ensures ApplyTimer(e, now).0.hydration.fenceReconciled == e.hydration.fenceReconciled
  {
    TransitionShape(e, TimerEvent, now);
    CancelShape(TransitionOrStay(e, TimerEvent, now));
  }

  lemma ReconciledByAggregate(e: Engine, position: Position, clash: bool, now: int)
    ensures ApplyAggregate(e, position, clash, now).hydration == e.hydration
  {
    var seen := if position.epoch == e.epoch.live && position.frame > 0
                   && (e.epoch.greatestIngress.epoch == 0 || After(position, e.epoch.greatestIngress))
                then e.(epoch := e.epoch.(greatestIngress := position)) else e;
    SuppressionShape(seen.(aggregateIntegrity := true), CanonicalEvent, CanonicalIntegrity, now);
  }

  lemma ReconciledByControl(e: Engine, c: ControlInput, now: int)
    requires Sound(e) && !e.globalFailure && e.lifecycle != Ended && !e.hydration.fenceReconciled
    ensures !ApplyControl(e, c, now).hydration.fenceReconciled
  {
    var r := DecideControl(e, c, now);
    if r.0 == e {
    } else if c.kind == AggregateSubscription {
      TransitionShape(e, AckEvent, now);
    } else if c.kind == Lost {
      LoseConnectionSound(e, now);
    } else if c.kind == IngressFailure {
      FailIngressSound(e, now);
    }
    assert !r.0.hydration.fenceReconciled;
  }

  lemma ReconciledByIngress(e: Engine, f: IngressFence, unknown: bool, now: int)
    requires !e.hydration.fenceReconciled && e.lifecycle != Ended && Sound(e) && !e.globalFailure
    ensures var r := ApplyIngressFence(e, f, unknown, now);
            r.0.hydration.fenceReconciled ==> f.outcome == FenceComplete && r.1 == Applied && f.epoch == r.0.epoch.live
  {
    if e.hydration.generation.active && e.session.Some? {
      CancelShape(e);
      var canceled := CancelGeneration(e);
      LoseShape(canceled);
      TransitionShape(LoseEpoch(canceled), LossEvent, now);
      var h := canceled.(hydration := canceled.hydration.(fenceReconciled := false));
      SuppressionShape(h, IngressEvent(IngressIntegrity), IngressIntegrity, now);
      if e.epoch.active && e.epoch.acked && e.epoch.live == f.epoch {
        CompleteFenceKeeps(e, f, TimerTarget(f.capturedAt, e.session.value), unknown, now);
      }
    }
  }

  lemma ReconciledByPolicy(e: Engine, action: PolicyAction, epoch: nat, generation: nat, token: nat, now: int)
    requires !e.hydration.fenceReconciled && e.lifecycle != Ended
    ensures !ApplyPolicy(e, action, epoch, generation, token, now).0.hydration.fenceReconciled
  {
    var decided := e.(hydration := e.hydration.(lastPolicyToken := token, policyWaiting := false,
                                                generation := e.hydration.generation.(policyDecided := true)));
    CancelShape(decided);
    var canceled := CancelGeneration(decided);
    TransitionShape(canceled, StopEvent, now);
    if e.lifecycle == Recovering {
      SuppressionShape(canceled, IngressEvent(RecoveryExhausted), RecoveryExhausted, now);
    }
  }

  /** A step that leaves an engine reconciled which was not accepts such a fence; one that does not keeps the
      watermark. */
  lemma FrozenStep(e: Engine, event: Event, n: nat)
    requires Sound(e) && !e.hydration.fenceReconciled && e.epoch.live >= n && (e.epoch.active ==> e.epoch.live > n)
    ensures var t := Step(e, event);
            && t.epoch.live >= n && (t.epoch.active ==> t.epoch.live > n)
            && (AcceptsFenceAfter(e, event, n)
                || (!t.hydration.fenceReconciled && t.watermark.committedT == e.watermark.committedT))
  {
    StepKeeps(e, event);
    if e.lifecycle != Ended && !e.globalFailure {
      if event.clockRegression {
        SuppressionShape(e.(clockMonotonic := false), ClockRegressionEvent, ClockRegression, event.now);
      } else {
        ApplyKeeps(e, event.input, event.now);
        ReconciledByFence(e, event.input, event.now);
        var applied := Apply(e, event.input, event.now);
        EvaluateKeeps(applied.0, event.input, applied.1, event.evaluation, event.now);
      }
    }
  }

  /** Somewhere in the run a complete ingress fence of an epoch after n was accepted. */
  ghost predicate FenceAccepted(e: Engine, events: seq<Event>, n: nat) {
    exists k :: 0 <= k < |events| && AcceptsFenceAfter(Run(e, events[..k]), events[k], n)
  }

  /** From the loss of an epoch the watermark stays fixed, and nothing is reconciled, until an ingress fence of a later
      epoch is accepted. */
  lemma {:induction false} FrozenAfterLoss(e: Engine, events: seq<Event>)
    requires Sound(e) && !e.epoch.active
    ensures var t, n := Run(e, events), e.epoch.live;
            && t.epoch.live >= n && (t.epoch.active ==> t.epoch.live > n)
            && (FenceAccepted(e, events, n)
                || (!t.hydration.fenceReconciled && t.watermark.committedT == e.watermark.committedT))
    decreases |events|
  {
    if events != [] {
      var rest, n := events[..|events| - 1], e.epoch.live;
      FrozenAfterLoss(e, rest);
      RunKeeps(e, rest);
      StepKeeps(Run(e, rest), events[|events| - 1]);
      if FenceAccepted(e, rest, n) {
        var k :| 0 <= k < |rest| && AcceptsFenceAfter(Run(e, rest[..k]), rest[k], n);
        assert rest[..k] == events[..k] && rest[k] == events[k];
      } else {
        FrozenStep(Run(e, rest), events[|events| - 1], n);
      }
    }
  }

  // ----------------------------------------------------------------------------------- recovery that cannot complete

  /** Out of the live path with no boundary to recover from. */
  ghost predicate Trapped(e: Engine) {
    && (e.lifecycle == Recovering || e.lifecycle == Suppressed || e.lifecycle == Ended)
    && e.hydration.supportedT.None? && !e.hydration.generation.active && e.session.Some?
    && !e.hydration.fenceReconciled
  }

  lemma TrapKeepsLoss(e: Engine, now: int)
    requires Trapped(e)
    ensures Trapped(LoseConnection(e, now).0)
  {
    var canceled := if e.lifecycle == Recovering then CancelGeneration(e) else e;
    CancelShape(e);
    LoseShape(canceled);
    TransitionShape(LoseEpoch(canceled), LossEvent, now);
    ScheduleShape(TransitionOrStay(LoseEpoch(canceled), LossEvent, now), now);
  }

  lemma TrapKeepsFailure(e: Engine, now: int)
    requires Trapped(e) && e.lifecycle != Ended
    ensures Trapped(FailIngress(e, now))
  {
    CancelShape(e);
    LoseShape(CancelGeneration(e));
    SuppressionShape(LoseEpoch(CancelGeneration(e)), IngressEvent(IngressIntegrity), IngressIntegrity, now);
  }

  lemma TrapKeepsControl(e: Engine, c: ControlInput, now: int)
    requires Trapped(e) && e.lifecycle != Ended
    ensures Trapped(ApplyControl(e, c, now))
  {
    hide LoseConnection, FailIngress;
    var r := DecideControl(e, c, now);
    if r.0 == e {
    } else if c.kind == AggregateSubscription {
      TransitionShape(e, AckEvent, now);
    } else if c.kind == Lost {
      TrapKeepsLoss(e, now);
    } else if c.kind == IngressFailure {
      TrapKeepsFailure(e, now);
    }
    assert Trapped(r.0);
    var t := RecordControl(r.0, c, r.1);
    assert t.hydration == r.0.hydration && t.lifecycle == r.0.lifecycle && t.session == r.0.session;
  }

  lemma TrapKeepsApply(e: Engine, input: Input, now: int)
    requires Trapped(e) && e.lifecycle != Ended && !e.globalFailure
    ensures Trapped(Apply(e, input, now).0)
  {
    hide ApplyControl, FailIngress, EnterSuppression;
    match input
    case TimerInput =>
      TransitionShape(e, TimerEvent, now);
      CancelShape(TransitionOrStay(e, TimerEvent, now));
    case StopInput =>
      CancelShape(e);
      TransitionShape(CancelGeneration(e), StopEvent, now);
    case ControlFact(control) => TrapKeepsControl(e, control, now);
    case ExhaustionInput(attempts) =>
      SuppressionShape(e.(recovery := Recovery(None, false)), IngressEvent(RecoveryExhausted), RecoveryExhausted, now);
    case RecoveryInput(command) => TransitionShape(e.(recovery := Recovery(None, false)), ScheduledRecoveryEvent, now);
    case OperationalIngressInput => TrapKeepsFailure(e, now);
    case AggregateInput(position, clash) =>
      var seen := if position.epoch == e.epoch.live && position.frame > 0
                     && (e.epoch.greatestIngress.epoch == 0 || After(position, e.epoch.greatestIngress))
                  then e.(epoch := e.epoch.(greatestIngress := position)) else e;
      SuppressionShape(seen.(aggregateIntegrity := true), CanonicalEvent, CanonicalIntegrity, now);
    case _ =>
  }

  lemma TrapKeepsStep(e: Engine, event: Event)
    requires Trapped(e)
    ensures Trapped(Step(e, event))
  {
    if e.lifecycle != Ended && !e.globalFailure {
      if event.clockRegression {
        SuppressionShape(e.(clockMonotonic := false), ClockRegressionEvent, ClockRegression, event.now);
      } else {
        TrapKeepsApply(e, event.input, event.now);
        SuppressionShape(Apply(e, event.input, event.now).0, AccountingEvent, AccountingIntegrity, event.now);
      }
    }
  }

  /** An engine suppressed before it ever had a committed boundary to recover from never goes live again: every plan
      it could make in recovery is refused. */
  lemma {:induction false} TrappedNeverLive(e: Engine, events: seq<Event>)
    requires Trapped(e)
    ensures Trapped(Run(e, events)) && Run(e, events).lifecycle != Live
    decreases |events|
  {
    if events != [] {
      TrappedNeverLive(e, events[..|events| - 1]);
      TrapKeepsStep(Run(e, events[..|events| - 1]), events[|events| - 1]);
    }
  }

  function Quiet(input: Input, now: int): Event {
    Event(input, now, false, Skip)
  }

  function Fact(kind: ControlKind, epoch: nat, frame: nat, token: nat, at: int): Input {
    var position := if frame == 0 then NoPosition else Position(epoch, frame, 0);
    ControlFact(ControlInput(kind, epoch, position, at, token, true))
  }

  /** A recovering engine between epochs, and a time in the session by which its boundary is reached, with room for the
      delay before the session ends. */
  ghost predicate Resumable(e: Engine, at: int) {
    && e.lifecycle == Recovering && !e.epoch.active && !e.hydration.generation.active && !e.globalFailure
    && e.session.Some? && e.hydration.supportedT.Some? && RoomAt(e.session.value, at)
    && e.session.value.start <= e.hydration.supportedT.value <= AcknowledgementBoundary(at, e.session.value)
  }

  ghost predicate RoomAt(s: Session, at: int) {
    0 <= s.delay && s.start <= at && AcknowledgementBoundary(at, s) + s.delay < s.end
  }

  function FenceTime(s: Session, at: int): int {
    AcknowledgementBoundary(at, s) + s.delay
  }

  /** A fence captured a delay after the acknowledgement boundary has exactly that boundary as its target. */
  lemma FenceReachesBoundary(s: Session, at: int)
    requires RoomAt(s, at)
    ensures at <= FenceTime(s, at) < s.end && TimerTarget(FenceTime(s, at), s) == AcknowledgementBoundary(at, s)
  {
    var down := TruncateToSecond(at);
    var boundary := AcknowledgementBoundary(at, s);
    assert down % SECOND == 0 && down <= at < down + SECOND;
    if boundary == s.start {
    } else {
      assert boundary % SECOND == 0;
    }
  }

  lemma RunSnoc(e: Engine, events: seq<Event>, event: Event)
    ensures Run(e, events + [event]) == Step(Run(e, events), event)
  {
    assert (events + [event])[..|events|] == events;
  }

  lemma RunThree(e: Engine, x: Event, y: Event, z: Event)
    ensures Run(e, [x, y, z]) == Step(Step(Step(e, x), y), z)
  {
    RunSnoc(e, [], x);
    assert [] + [x] == [x];
    RunSnoc(e, [x], y);
    assert [x] + [y] == [x, y];
    RunSnoc(e, [x, y], z);
    assert [x, y] + [z] == [x, y, z];
  }

  /** A new epoch between epochs. */
  lemma AttemptStep(e: Engine, at: int)
    requires !e.globalFailure && e.session.Some? && !e.epoch.active && Waiting(e.lifecycle)
    ensures var t := Step(e, Quiet(Fact(Attempt, e.epoch.live + 1, 0, 1, at), at));
            && t.epoch.active && !t.epoch.acked && t.epoch.live == e.epoch.live + 1 && t.control.greatest == NoPosition
            && t.epoch.greatestIngress == Position(t.epoch.live, 0, 0)
            && t.lifecycle == e.lifecycle && t.session == e.session && t.hydration == e.hydration && !t.globalFailure
            && t.watermark == e.watermark
  {}

  lemma WriteStep(e: Engine, at: int)
    requires !e.globalFailure && e.session.Some? && e.epoch.active && e.epoch.live > 0 && Waiting(e.lifecycle)
    requires e.control.greatest == NoPosition
    ensures var t := Step(e, Quiet(Fact(AggregateWrite, e.epoch.live, 0, 7, at), at));
            && t.epoch == e.epoch.(writeToken := 7) && t.control.greatest == NoPosition
            && t.lifecycle == e.lifecycle && t.session == e.session && t.hydration == e.hydration && !t.globalFailure
            && t.watermark == e.watermark
  {}

  lemma SubscribeStep(e: Engine, at: int)
    requires !e.globalFailure && e.session.Some? && e.epoch.active && e.epoch.live > 0 && !e.epoch.acked
    requires e.epoch.writeToken == 7 && e.control.greatest == NoPosition
    requires e.epoch.greatestIngress == Position(e.epoch.live, 0, 0)
    requires e.lifecycle == Recovering
             || (e.lifecycle == AwaitingAck && e.session.value.start <= at < e.session.value.end)
    ensures var t := Step(e, Quiet(Fact(AggregateSubscription, e.epoch.live, 1, 7, at), at));
            && t.epoch.active && t.epoch.acked && t.epoch.live == e.epoch.live && t.epoch.ackReceivedAt == at
            && t.epoch.ackPosition == Position(t.epoch.live, 1, 0) && t.epoch.greatestIngress == t.epoch.ackPosition
            && t.control.greatest == t.epoch.ackPosition
            && t.lifecycle == (if e.lifecycle == Recovering then Recovering else Hydrating)
            && t.session == e.session && t.hydration == e.hydration && !t.globalFailure && t.watermark == e.watermark
  {
    TransitionShape(e, AckEvent, at);
  }

  /** The first half of a recovery: a new epoch, its subscription written and acknowledged. */
  lemma Reacknowledge(e: Engine, at: int) returns (t: Engine, events: seq<Event>)
    requires Resumable(e, at)
    ensures t == Run(e, events) && ReadyToPlan(t, at) && AllBetween(events, at, e.session.value.end)
    ensures t.session == e.session && t.hydration == e.hydration
  {
    var n := e.epoch.live + 1;
    AttemptStep(e, at);
    var a := Step(e, Quiet(Fact(Attempt, n, 0, 1, at), at));
    WriteStep(a, at);
    var b := Step(a, Quiet(Fact(AggregateWrite, n, 0, 7, at), at));
    SubscribeStep(b, at);
    t := Step(b, Quiet(Fact(AggregateSubscription, n, 1, 7, at), at));
    events := [Quiet(Fact(Attempt, n, 0, 1, at), at), Quiet(Fact(AggregateWrite, n, 0, 7, at), at),
               Quiet(Fact(AggregateSubscription, n, 1, 7, at), at)];
    RunThree(e, events[0], events[1], events[2]);
    FenceReachesBoundary(e.session.value, at);
  }

  /** Every event of the run happens in an interval. */
  ghost predicate AllBetween(events: seq<Event>, from: int, until: int) {
    forall i :: 0 <= i < |events| ==> from <= events[i].now < until && !events[i].clockRegression
  }

  /** Acknowledged at a time in the session, with the acknowledgement the last thing seen. */
  ghost predicate ReadyToPlan(e: Engine, at: int) {
    && e.lifecycle == Recovering && e.epoch.active && e.epoch.acked && !e.globalFailure
    && e.session.Some? && RoomAt(e.session.value, at)
    && e.epoch.ackReceivedAt == at && e.epoch.ackPosition.frame == 1
    && e.epoch.greatestIngress.epoch == e.epoch.live && e.epoch.greatestIngress.frame == 1
  }

  lemma PlanOpens(e: Engine, at: int, now: int)
    requires ReadyToPlan(e, at) && !e.hydration.generation.active && e.hydration.supportedT.Some?
    requires e.session.value.start <= e.hydration.supportedT.value <= AcknowledgementBoundary(at, e.session.value)
    ensures var t := Step(e, Quiet(PlanInput(GapRecovery, e.epoch.live, 1), now)); var g := t.hydration.generation;
            && ReadyToPlan(t, at) && t.session == e.session && g.active && g.epoch == t.epoch.live
            && g.end == AcknowledgementBoundary(at, t.session.value) && g.open <= 1
            && (g.open == 0 ==> g.fenceToken != 0)
            && (g.open == 1 ==> g.fenceToken == 0)
  {}

  lemma TerminalCloses(e: Engine, at: int, now: int)
    requires ReadyToPlan(e, at) && e.hydration.generation.active && e.hydration.generation.open <= 1
    requires e.hydration.generation.open == 0 ==> e.hydration.generation.fenceToken != 0
    requires e.hydration.generation.open == 1 ==> e.hydration.generation.fenceToken == 0
    ensures var t := Step(e, Quiet(TerminalInput(e.hydration.generation.id, true), now));
            var g, was := t.hydration.generation, e.hydration.generation;
            && ReadyToPlan(t, at) && t.session == e.session && g.active && g.open == 0 && g.fenceToken != 0
            && g.epoch == was.epoch && g.end == was.end
  {}

  /** A timer inside the session moves the latest target and nothing else. */
  lemma TickStays(e: Engine, at: int, now: int)
    requires ReadyToPlan(e, at) && now < e.session.value.end
    ensures var t := Step(e, Quiet(TimerInput, now));
            ReadyToPlan(t, at) && t.session == e.session && t.hydration == e.hydration
  {
    TransitionShape(e, TimerEvent, now);
  }

  lemma FenceGoesLive(e: Engine, f: IngressFence, at: int)
    requires ReadyToPlan(e, at)
    requires var g, now := e.hydration.generation, FenceTime(e.session.value, at);
             && g.active && g.open == 0 && g.fenceToken != 0 && g.epoch == e.epoch.live
             && g.end == AcknowledgementBoundary(at, e.session.value)
             && f == IngressFence(g.id, g.epoch, g.fenceToken, FenceComplete, 1, e.hydration.fenceMarker + 1, now)
    ensures Step(e, Quiet(IngressFenceInput(f, false), f.capturedAt)).lifecycle == Live
  {
    var now := f.capturedAt;
    FenceReachesBoundary(e.session.value, at);
    var target := TimerTarget(now, e.session.value);
    TransitionShape(e, HydrationCompleteEvent, now);
    assert ApplyIngressFence(e, f, false, now) == (CompleteFence(e, f, target, false, now), Applied);
  }

  /** The second half: the gap is planned, hydrated and fenced, with the clock ticking before the fence. */
  lemma CloseGap(e: Engine, at: int) returns (t: Engine, events: seq<Event>)
    requires ReadyToPlan(e, at) && !e.hydration.generation.active && e.hydration.supportedT.Some?
    requires e.session.value.start <= e.hydration.supportedT.value <= AcknowledgementBoundary(at, e.session.value)
    ensures t == Run(e, events) && t.lifecycle == Live && AllBetween(events, at, e.session.value.end)
  {
    var now := FenceTime(e.session.value, at);
    FenceReachesBoundary(e.session.value, at);
    var plan := Quiet(PlanInput(GapRecovery, e.epoch.live, 1), at);
    PlanOpens(e, at, at);
    var a := Step(e, plan);
    var terminal := Quiet(TerminalInput(a.hydration.generation.id, true), at);
    TerminalCloses(a, at, at);
    var b := Step(a, terminal);
    var tick := Quiet(TimerInput, now);
    TickStays(b, at, now);
    var c := Step(b, tick);
    var g := c.hydration.generation;
    var f := IngressFence(g.id, g.epoch, g.fenceToken, FenceComplete, 1, c.hydration.fenceMarker + 1, now);
    var fence := Quiet(IngressFenceInput(f, false), now);
    FenceGoesLive(c, f, at);
    t := Step(c, fence);
    RunThree(e, plan, terminal, tick);
    RunSnoc(e, [plan, terminal, tick], fence);
    events := [plan, terminal, tick] + [fence];
  }

  lemma {:induction false} RunAppends(e: Engine, first: seq<Event>, second: seq<Event>)
    ensures Run(e, first + second) == Run(Run(e, first), second)
    decreases |second|
  {
    if second == [] {
      assert first + second == first;
    } else {
      assert (first + second)[..|first + second| - 1] == first + second[..|second| - 1];
      RunAppends(e, first, second[..|second| - 1]);
    }
  }

  /** The other half: with a boundary to recover from, a recovering engine can go live again, inside the session. */
  lemma ResumableCanGoLive(e: Engine, at: int) returns (events: seq<Event>)
    requires Resumable(e, at)
    ensures Run(e, events).lifecycle == Live && AllBetween(events, at, e.session.value.end)
  {
    var acked, first := Reacknowledge(e, at);
    var live, second := CloseGap(acked, at);
    RunAppends(e, first, second);
    events := first + second;
  }

  /** An ingress failure of an acknowledged epoch that has not committed anything. */
  lemma FailureStep(e: Engine, at: int)
    requires e.lifecycle == Hydrating && !e.globalFailure && e.session.Some? && e.epoch.active && e.epoch.live > 0
    requires e.control.greatest == Position(e.epoch.live, 1, 0) && e.recovery.pending.None?
    requires e.hydration.supportedT.None?
    ensures var c := ControlInput(IngressFailure, e.epoch.live, Position(e.epoch.live, 2, 0), at, 0, false);
            var t := Step(e, Quiet(ControlFact(c), at));
            && Trapped(t) && t.lifecycle == Suppressed && t.suppression == Some(SameBindingRecovery)
            && !t.epoch.active && !t.globalFailure && t.recovery.pending.Some? && !t.recovery.dispatched
            && t.recovery.pending.value.failedEpoch == t.epoch.live
  {
    CancelShape(e);
    LoseShape(CancelGeneration(e));
    var lost := LoseEpoch(CancelGeneration(e));
    SuppressionShape(lost, IngressEvent(IngressIntegrity), IngressIntegrity, at);
    var a := lost.(suppression := Some(SameBindingRecovery));
    ScheduleShape(a, at);
    TransitionShape(ScheduleRecovery(a, at), IngressEvent(IngressIntegrity), at);
    assert FailIngress(e, at) == EnterSuppression(lost, IngressEvent(IngressIntegrity), IngressIntegrity, at);
  }

  lemma ScheduledStep(e: Engine, at: int)
    requires Trapped(e) && e.lifecycle == Suppressed && e.suppression == Some(SameBindingRecovery)
    requires !e.epoch.active && !e.globalFailure && e.recovery.pending.Some? && !e.recovery.dispatched
    requires e.recovery.pending.value.failedEpoch == e.epoch.live && at == e.recovery.pending.value.earliestAt
    ensures var a := Step(e, Quiet(IssueRecoveryInput, at));
            var t := Step(a, Quiet(RecoveryInput(e.recovery.pending.value), at));
            Trapped(t) && t.lifecycle == Recovering
  {
    var a := Step(e, Quiet(IssueRecoveryInput, at));
    assert a == e.(recovery := e.recovery.(dispatched := true));
    TransitionShape(a.(recovery := Recovery(None, false)), ScheduledRecoveryEvent, at);
    TrapKeepsStep(e, Quiet(IssueRecoveryInput, at));
    TrapKeepsStep(a, Quiet(RecoveryInput(e.recovery.pending.value), at));
  }

  /** Nothing about recovery happens while the first epoch is bootstrapped. */
  lemma BootstrapSteps(s: Session, at: int) returns (d: Engine, events: seq<Event>)
    requires s.start <= at < s.end
    ensures d == Run(Start, events) && d.lifecycle == Hydrating && !d.globalFailure && d.session == Some(s)
    ensures d.epoch.active && d.epoch.live == 1 && d.control.greatest == Position(1, 1, 0)
    ensures d.recovery.pending.None? && d.hydration.supportedT.None?
  {
    var a := Step(Start, Quiet(BindingInput(s), at));
    assert a == Start.(session := Some(s), lifecycle := AwaitingAck, reason := BindingInSession);
    AttemptStep(a, at);
    var b := Step(a, Quiet(Fact(Attempt, 1, 0, 1, at), at));
    WriteStep(b, at);
    var c := Step(b, Quiet(Fact(AggregateWrite, 1, 0, 7, at), at));
    SubscribeStep(c, at);
    d := Step(c, Quiet(Fact(AggregateSubscription, 1, 1, 7, at), at));
    NoRecoveryYet(a, Quiet(Fact(Attempt, 1, 0, 1, at), at));
    NoRecoveryYet(b, Quiet(Fact(AggregateWrite, 1, 0, 7, at), at));
    NoRecoveryYet(c, Quiet(Fact(AggregateSubscription, 1, 1, 7, at), at));
    var more := [Quiet(Fact(Attempt, 1, 0, 1, at), at), Quiet(Fact(AggregateWrite, 1, 0, 7, at), at),
                 Quiet(Fact(AggregateSubscription, 1, 1, 7, at), at)];
    RunThree(a, more[0], more[1], more[2]);
    RunSnoc(Start, [], Quiet(BindingInput(s), at));
    assert [] + [Quiet(BindingInput(s), at)] == [Quiet(BindingInput(s), at)];
    RunAppends(Start, [Quiet(BindingInput(s), at)], more);
    events := [Quiet(BindingInput(s), at)] + more;
  }

  lemma NoRecoveryYet(e: Engine, event: Event)
    requires e.recovery.pending.None? && !event.clockRegression && event.evaluation == Skip
    requires event.input.ControlFact? && event.input.control.kind != Lost && event.input.control.kind != IngressFailure
    ensures Step(e, event).recovery.pending.None?
  {
    TransitionShape(e, AckEvent, event.now);
  }

  /** The trap is reachable: a first epoch that fails while bootstrapping leaves the engine recovering, scheduled
      recovery and all, without a boundary. */
  lemma BootstrapFailureTraps(s: Session, at: int) returns (events: seq<Event>)
    requires s.start <= at < s.end
    ensures Trapped(Run(Start, events)) && Run(Start, events).lifecycle == Recovering
  {
    var d, first := BootstrapSteps(s, at);
    var failure := Quiet(ControlFact(ControlInput(IngressFailure, 1, Position(1, 2, 0), at, 0, false)), at);
    FailureStep(d, at);
    var f := Step(d, failure);
    var later := f.recovery.pending.value.earliestAt;
    ScheduledStep(f, later);
    var more := [failure, Quiet(IssueRecoveryInput, later), Quiet(RecoveryInput(f.recovery.pending.value), later)];
    RunThree(d, more[0], more[1], more[2]);
    RunAppends(Start, first, more);
    events := first + more;
  }

  function Doubled(initial: int, times: nat): int {
    if times == 0 then initial else 2 * Doubled(initial, times - 1)
  }

  /** Backoff is the doubled initial delay, capped at the maximum, for every attempt. */
  lemma {:induction false} RecoveryDelayMeans(initial: int, maximum: int, ordinal: nat)
    requires 0 < initial <= maximum && ordinal >= 1
    ensures RecoveryDelay(initial, maximum, ordinal)
         == if Doubled(initial, ordinal - 1) > maximum then maximum else Doubled(initial, ordinal - 1)
  {
    if ordinal > 1 { RecoveryDelayMeans(initial, maximum, ordinal - 1); }
  }
}
