/** The engine's lifecycle as it runs: one owner whose fields every consumed input updates in place.  Each method leaves
    the engine exactly as its counterpart in `EngineLifecycle` says; `Consume` is one step of it, and keeps what a
    caller may rely on. */
module LiveEngines {
  import opened Options
  import opened LivePositions
  import opened L = EngineLifecycle
  import R = LifecycleRuns

  class LiveEngine {
    var lifecycle: Lifecycle
    var reason: Reason
    var session: Option<Session>
    var epoch: Epoch
    var control: Control
    var hydration: Hydration
    var coverage: Coverage
    var recovery: Recovery
    var watermark: Watermark
    var suppression: Option<Suppression>
    var globalFailure: bool
    var clockMonotonic: bool
    var aggregateIntegrity: bool

    function View(): Engine
      reads this
    {
      Engine(lifecycle, reason, session, epoch, control, hydration, coverage, recovery, watermark, suppression,
             globalFailure, clockMonotonic, aggregateIntegrity)
    }

    /** Live means an acknowledged epoch with its own reconciled fence and no generation in progress. */
    ghost predicate Valid()
      reads this
    {
      R.Sound(View())
    }

    constructor ()
      ensures Valid() && View() == Start
    {
      lifecycle, reason, session := Initializing, NoReason, None;
      epoch := Epoch(0, false, 0, false, NoPosition, 0, NoPosition);
      control := Control(None, NoPosition, 0);
      hydration := Hydration(NoGeneration, 0, 0, false, 0, 0, 0, None, None, 0, false);
      coverage, recovery, watermark := Coverage(0, None), Recovery(None, false), Watermark(None, None);
      suppression, globalFailure, clockMonotonic, aggregateIntegrity := None, false, true, false;
    }

    // ------------------------------------------------------------------------------------------------- transitions

    /** Applies a legal lifecycle event; an illegal one changes nothing. */
    method TransitionLifecycle(event: LifecycleEvent, now: int) returns (legal: bool)
      modifies this`lifecycle, this`reason
      ensures legal == Transition(old(View()), event, now).Some?
      ensures View() == TransitionOrStay(old(View()), event, now)
    {
      var next := NextLifecycle(View(), event, now);
      legal := next.Some?;
      if legal {
        var (after, why) := next.value;
        if after != lifecycle || (why != NoReason && after == Suppressed && reason != why) {
          lifecycle, reason := after, why;
        }
      }
    }

    /** The one pending recovery command, unless one is pending. */
    method PlanRecovery(now: int)
      modifies this`recovery
      ensures View() == ScheduleRecovery(old(View()), now)
    {
      if recovery.pending.None? && session.Some? {
        var ordinal := control.attempts + 1;
        var delay := Backoff(INITIAL_BACKOFF, MAXIMUM_BACKOFF, ordinal);
        recovery := Recovery(Some(RecoveryCommand(epoch.live, ordinal, now + delay)), false);
      }
    }

    /** Doubles the delay once for every attempt after the first, up to the maximum. */
    static method Backoff(initial: int, maximum: int, ordinal: nat) returns (delay: int)
      ensures delay == RecoveryDelay(initial, maximum, ordinal)
    {
      delay := if initial > maximum then maximum else initial;
      var k := 1;
      while k < ordinal
        invariant 1 <= k && (ordinal <= 1 || k <= ordinal)
        invariant delay == RecoveryDelay(initial, maximum, if k < ordinal then k else ordinal)
      {
        k := k + 1;
        if delay >= maximum || delay > maximum / 2 { delay := maximum; } else { delay := delay * 2; }
      }
    }

    method Suppress(event: LifecycleEvent, why: Reason, now: int)
      modifies this
      ensures View() == EnterSuppression(old(View()), event, why, now)
    {
      var kind := SuppressionFor(why);
      var disposition := if kind.Some? then kind.value else RestartRequired;
      suppression := Some(disposition);
      if disposition == SameBindingRecovery && why != RecoveryExhausted { PlanRecovery(now); }
      if disposition != SameBindingRecovery { globalFailure := true; }
      var legal := TransitionLifecycle(if kind.Some? then event else AccountingEvent, now);
    }

    method DropEpoch()
      modifies this`epoch, this`hydration
      ensures View() == LoseEpoch(old(View()))
    {
      epoch := ClearAck(epoch).(active := false);
      hydration := hydration.(fenceReconciled := false);
    }

    method RetireGeneration()
      modifies this`hydration
      ensures View() == CancelGeneration(old(View()))
    {
      var g := hydration.generation;
      if g.active {
        hydration := hydration.(generation := g.(open := 0, failed := g.failed + g.open, active := false));
      }
    }

    method CloseOpenRequests()
      modifies this`hydration
      ensures View() == CloseRequests(old(View()))
    {
      var g := hydration.generation;
      if g.active { hydration := hydration.(generation := g.(open := 0, failed := g.failed + g.open)); }
    }

    // ------------------------------------------------------------------------------------------ connection control

    /** A recoverable loss of a committed live boundary. */
    method RouteRecoverableLoss(now: int) returns (routed: bool)
      modifies this
      ensures routed == RouteLoss(old(View()), now).Some?
      ensures View() == if routed then RouteLoss(old(View()), now).value else old(View())
    {
      routed := lifecycle == Live && watermark.committedT.Some? && !aggregateIntegrity;
      if routed {
        hydration, suppression := hydration.(supportedT := watermark.committedT), None;
        DropEpoch();
        var legal := TransitionLifecycle(LossEvent, now);
        PlanRecovery(now);
      }
    }

    method StartEpoch(of: nat)
      modifies this`epoch, this`control
      ensures View() == NewEpoch(old(View()), of)
    {
      epoch := ClearAck(epoch).(live := of, active := true, greatestIngress := Position(of, 0, 0));
      control := control.(greatest := NoPosition, attempts := control.attempts + 1);
    }

    method Subscribe(c: ControlInput, now: int) returns (code: Code)
      modifies this
      ensures (View(), code) == Subscription(old(View()), c, now)
    {
      if epoch.acked || !c.succeeded { return Applied; }
      if epoch.writeToken == 0 || c.token != epoch.writeToken { return Rejected; }
      var legal := TransitionLifecycle(AckEvent, now);
      if !legal { return Rejected; }
      epoch := epoch.(acked := true, ackPosition := c.position, ackReceivedAt := c.receivedAt);
      code := Applied;
    }

    method LoseLink(now: int) returns (code: Code)
      modifies this
      ensures (View(), code) == LoseConnection(old(View()), now)
    {
      if !(lifecycle == AwaitingSession || InSessionState(lifecycle)) { return Rejected; }
      if lifecycle == Live && watermark.committedT.None? { return IngressIntegrityCode; }
      if lifecycle == Live { hydration := hydration.(supportedT := watermark.committedT); }
      if lifecycle == Hydrating || lifecycle == Recovering { RetireGeneration(); }
      DropEpoch();
      var legal := TransitionLifecycle(LossEvent, now);
      PlanRecovery(now);
      code := Applied;
    }

    method LoseIngress(now: int)
      modifies this
      ensures View() == FailIngress(old(View()), now)
    {
      RetireGeneration();
      var routed := RouteRecoverableLoss(now);
      if !routed {
        DropEpoch();
        Suppress(IngressEvent(IngressIntegrity), IngressIntegrity, now);
      }
    }

    /** One control fact of the current epoch, past its kind-independent guards. */
    method DecideCurrent(c: ControlInput, now: int) returns (code: Code)
      modifies this
      ensures (View(), code) == L.DecideCurrent(old(View()), c, now)
    {
      match c.kind {
        case AggregateWrite => {
          if c.succeeded {
            epoch := epoch.(writeToken := c.token);
          } else if epoch.writeToken == c.token {
            epoch := epoch.(writeToken := 0);
          }
          code := Applied;
        }
        case AggregateSubscription => { code := Subscribe(c, now); }
        case TQWrite => { code := Deferred; }
        case TQSubscription => { code := Deferred; }
        case Lost => { code := LoseLink(now); }
        case IngressFailure => {
          LoseIngress(now);
          code := IngressIntegrityCode;
        }
        case _ => { code := Applied; }
      }
    }

    method Decide(c: ControlInput, now: int) returns (code: Code)
      modifies this
      ensures (View(), code) == DecideControl(old(View()), c, now)
    {
      if session.None? || c.epoch == 0 { return Rejected; }
      if c.kind == Attempt {
        if c.epoch <= epoch.live { return Fenced; }
        if epoch.active || !Waiting(lifecycle) { return Rejected; }
        StartEpoch(c.epoch);
        return Applied;
      }
      if c.epoch != epoch.live || !epoch.active { return Fenced; }
      if CausalKind(c.kind) && control.greatest.epoch == c.epoch && !After(c.position, control.greatest) {
        return Fenced;
      }
      code := DecideCurrent(c, now);
    }

    method Record(c: ControlInput, code: Code)
      modifies this`control, this`epoch
      ensures View() == RecordControl(old(View()), c, code)
    {
      control := control.(latestKind := Some(c.kind));
      if (code == Applied || code == Deferred || code == IngressIntegrityCode) && c.position.epoch == epoch.live
         && c.position.frame > 0 {
        if control.greatest.epoch == 0 || After(c.position, control.greatest) {
          control := control.(greatest := c.position);
        }
        if epoch.greatestIngress.epoch == 0 || After(c.position, epoch.greatestIngress) {
          epoch := epoch.(greatestIngress := c.position);
        }
      }
    }

    method ControlConnection(c: ControlInput, now: int)
      modifies this
      ensures View() == ApplyControl(old(View()), c, now)
    {
      var code := Decide(c, now);
      Record(c, code);
    }

    // ---------------------------------------------------------------------------------------- hydration and fences

    method GiveFence()
      modifies this`hydration
      ensures View() == old(View()).(hydration := AllocateFence(old(hydration)))
    {
      if hydration.generation.open == 0 && hydration.generation.fenceToken == 0 {
        var token := hydration.lastToken + 1;
        hydration := hydration.(lastToken := token, generation := hydration.generation.(fenceToken := token));
      }
    }

    method PlanHydration(purpose: Purpose, of: nat, requests: nat) returns (code: Code)
      modifies this`hydration
      ensures (View(), code) == ApplyPlan(old(View()), purpose, of, requests)
    {
      if session.None? { return Rejected; }
      if !epoch.active || of != epoch.live { return Fenced; }
      if !epoch.acked || hydration.generation.active { return Rejected; }
      var start := HydrationStart(View(), purpose);
      var end := AcknowledgementBoundary(epoch.ackReceivedAt, session.value);
      if start.None? || start.value < session.value.start || start.value > session.value.end || start.value > end {
        return Rejected;
      }
      var id := hydration.lastGeneration + 1;
      var open := if start.value == end then 0 else requests;
      hydration := hydration.(
        generation := Generation(true, id, purpose, epoch.live, start.value, end, open, 0, 0, false),
        lastGeneration := id, fenceReconciled := false, policyWaiting := false);
      GiveFence();
      code := Applied;
    }

    method CloseOne(generation: nat, completed: bool) returns (code: Code)
      modifies this`hydration
      ensures (View(), code) == CloseRequest(old(View()), generation, completed)
    {
      var g := hydration.generation;
      if !g.active || generation != g.id || g.open == 0 { return Fenced; }
      if !completed { g := g.(failed := g.failed + 1); }
      hydration := hydration.(generation := g.(open := g.open - 1));
      GiveFence();
      code := Applied;
    }

    method AbandonFence(f: IngressFence, now: int) returns (code: Code)
      modifies this
      ensures (View(), code) == BreakOffFence(old(View()), f, now)
    {
      RetireGeneration();
      if f.outcome == FenceCanceled {
        DropEpoch();
        var legal := TransitionLifecycle(LossEvent, now);
        return Rejected;
      }
      hydration := hydration.(fenceReconciled := false);
      Suppress(IngressEvent(IngressIntegrity), IngressIntegrity, now);
      code := IngressIntegrityCode;
    }

    method AcceptFence(f: IngressFence, target: int, unknown: bool, now: int)
      modifies this
      ensures View() == CompleteFence(old(View()), f, target, unknown, now)
    {
      hydration := hydration.(fenceEpoch := f.epoch, fenceThrough := f.through, fenceMarker := f.marker);
      if hydration.generation.purpose == GapRecovery && unknown {
        hydration := hydration.(fenceReconciled := false, policyWaiting := true);
      } else {
        hydration := hydration.(generation := hydration.generation.(active := false), fenceReconciled := true,
                                supportedThrough := Some(target));
        watermark := watermark.(latestTarget := Some(target));
        var legal := TransitionLifecycle(HydrationCompleteEvent, now);
      }
    }

    method TakeIngressFence(f: IngressFence, unknown: bool, now: int) returns (code: Code)
      modifies this
      ensures (View(), code) == ApplyIngressFence(old(View()), f, unknown, now)
    {
      var g := hydration.generation;
      if !g.active || f.token == 0 || f.token != g.fenceToken || f.generation != g.id || f.epoch != g.epoch
         || session.None? {
        return Fenced;
      }
      if g.open != 0 || (hydration.fenceEpoch == g.epoch && f.marker <= hydration.fenceMarker) { return Rejected; }
      if f.outcome != FenceComplete {
        code := AbandonFence(f, now);
        return;
      }
      if !epoch.active || !epoch.acked || epoch.live != g.epoch
         || !FenceCovers(View(), g.epoch, f.through, f.capturedAt, now) {
        return Fenced;
      }
      var target := TimerTarget(f.capturedAt, session.value);
      if target < g.end { return Rejected; }
      AcceptFence(f, target, unknown, now);
      code := Applied;
    }

    method FinishPolicy(action: PolicyAction, now: int) returns (code: Code)
      modifies this
      ensures (View(), code) == L.FinishPolicy(old(View()), action, now)
    {
      RetireGeneration();
      match action {
        case Retry => { code := Applied; }
        case CancelAction => {
          epoch := ClearAck(epoch).(active := false);
          hydration := hydration.(policyWaiting := true);
          code := Applied;
        }
        case Exhaust => {
          Suppress(IngressEvent(RecoveryExhausted), RecoveryExhausted, now);
          code := IngressIntegrityCode;
        }
        case StopAction => {
          var legal := TransitionLifecycle(StopEvent, now);
          code := Applied;
        }
      }
    }

    method DecidePolicy(action: PolicyAction, of: nat, generation: nat, token: nat, now: int) returns (code: Code)
      modifies this
      ensures (View(), code) == ApplyPolicy(old(View()), action, of, generation, token, now)
    {
      var g := hydration.generation;
      if session.None? || lifecycle != Recovering || !g.active || g.policyDecided || of != g.epoch
         || generation != g.id || token <= hydration.lastPolicyToken
         || ((action == Retry || action == Exhaust) && !(g.open == 0 && g.failed > 0)) {
        return Rejected;
      }
      hydration := hydration.(lastPolicyToken := token, policyWaiting := false,
                              generation := g.(policyDecided := true));
      code := FinishPolicy(action, now);
    }

    // ------------------------------------------------------------------------------------------------ live coverage

    method RequestCoverage()
      modifies this`coverage
      ensures View() == IssueCoverageFence(old(View()))
    {
      if session.Some? && lifecycle == Live && epoch.active && epoch.acked && hydration.fenceReconciled
         && hydration.supportedThrough.Some? && !hydration.generation.active && coverage.outstanding.None? {
        var token := coverage.lastToken + 1;
        coverage := Coverage(token, Some((epoch.live, token)));
      }
    }

    method TakeCoverageFence(f: CoverageFence, now: int) returns (code: Code)
      modifies this
      ensures (View(), code) == ApplyCoverageFence(old(View()), f, now)
    {
      if coverage.outstanding != Some((f.epoch, f.token)) || session.None? || f.epoch != epoch.live { return Fenced; }
      coverage := coverage.(outstanding := None);
      if !f.complete { return Rejected; }
      if lifecycle != Live || !epoch.active || !epoch.acked || hydration.generation.active
         || !FenceCovers(View(), epoch.live, f.through, f.capturedAt, now) || f.marker <= hydration.fenceMarker {
        return Fenced;
      }
      var target := TimerTarget(f.capturedAt, session.value);
      if hydration.supportedThrough.Some? && target < hydration.supportedThrough.value { return Rejected; }
      hydration := hydration.(supportedThrough := Some(target), fenceReconciled := true, fenceEpoch := epoch.live,
                              fenceThrough := f.through, fenceMarker := f.marker);
      watermark := watermark.(latestTarget := Some(target));
      code := Applied;
    }

    // --------------------------------------------------------------------------------------------- timers, recovery

    method Tick(now: int) returns (code: Code)
      modifies this
      ensures (View(), code) == ApplyTimer(old(View()), now)
    {
      if session.None? { return Rejected; }
      var legal := TransitionLifecycle(TimerEvent, now);
      if !legal { return Rejected; }
      if lifecycle == Ended { RetireGeneration(); }
      watermark := watermark.(latestTarget := Some(TimerTarget(now, session.value)));
      code := Applied;
    }

    method TakeRecoveryCommand()
      modifies this`recovery
      ensures View() == IssueRecovery(old(View()))
    {
      if RecoverySelectable(View()) && recovery.pending.Some? && !recovery.dispatched {
        recovery := recovery.(dispatched := true);
      }
    }

    method Recover(command: RecoveryCommand, now: int) returns (code: Code)
      modifies this
      ensures (View(), code) == ApplyScheduledRecovery(old(View()), command, now)
    {
      if session.None? || !RecoverySelectable(View()) || !recovery.dispatched || recovery.pending != Some(command)
         || command.failedEpoch != epoch.live {
        return Fenced;
      }
      if now < command.earliestAt { return Rejected; }
      recovery := Recovery(None, false);
      if lifecycle == Suppressed {
        var legal := TransitionLifecycle(ScheduledRecoveryEvent, now);
        if !legal { return Rejected; }
        suppression := None;
      }
      code := Applied;
    }

    method ExhaustRecovery(attempts: nat, now: int) returns (code: Code)
      modifies this
      ensures (View(), code) == ApplyExhaustion(old(View()), attempts, now)
    {
      var valid := Waiting(lifecycle) || (lifecycle == Suppressed && suppression == Some(SameBindingRecovery));
      var evidence := control.latestKind == Some(Lost) || control.latestKind == Some(IngressFailure)
                      || (lifecycle == Suppressed && reason == IngressIntegrity);
      if session.None? || !valid || epoch.active || hydration.generation.active || !evidence
         || attempts == 0 || attempts != control.attempts {
        return Rejected;
      }
      recovery := Recovery(None, false);
      Suppress(IngressEvent(RecoveryExhausted), RecoveryExhausted, now);
      code := IngressIntegrityCode;
    }

    // -------------------------------------------------------------------------------------------------------- a step

    method SeeAggregate(position: Position, clash: bool, now: int)
      modifies this
      ensures View() == ApplyAggregate(old(View()), position, clash, now)
    {
      var breaks := clash && epoch.active && epoch.acked && Streaming(lifecycle);
      if position.epoch == epoch.live && position.frame > 0
         && (epoch.greatestIngress.epoch == 0 || After(position, epoch.greatestIngress)) {
        epoch := epoch.(greatestIngress := position);
      }
      if breaks {
        aggregateIntegrity := true;
        Suppress(CanonicalEvent, CanonicalIntegrity, now);
      }
    }

    method Bind(of: Session, now: int) returns (code: Code)
      modifies this
      ensures (View(), code) == Apply(old(View()), BindingInput(of), now)
    {
      if session.Some? || lifecycle != Initializing { return Rejected; }
      session := Some(of);
      var legal := TransitionLifecycle(BindingEvent, now);
      if !legal {
        session := None;
        return Rejected;
      }
      code := Applied;
    }

    method Stop(now: int) returns (code: Code)
      modifies this
      ensures (View(), code) == Apply(old(View()), StopInput, now)
    {
      RetireGeneration();
      var legal := TransitionLifecycle(StopEvent, now);
      code := Applied;
    }

    method BreakIngress(now: int) returns (code: Code)
      modifies this
      ensures (View(), code) == Apply(old(View()), OperationalIngressInput, now)
    {
      if session.None? || !epoch.active { return Fenced; }
      LoseIngress(now);
      code := IngressIntegrityCode;
    }

    method BreakHydration(now: int) returns (code: Code)
      modifies this
      ensures (View(), code) == Apply(old(View()), HydrationFaultInput, now)
    {
      if !hydration.generation.active { return Fenced; }
      CloseOpenRequests();
      Suppress(AccountingEvent, AccountingIntegrity, now);
      code := AccountingCode;
    }

    method ApplyInput(input: Input, now: int) returns (code: Code)
      modifies this
      ensures (View(), code) == Apply(old(View()), input, now)
    {
      match input {
        case BindingInput(of) => { code := Bind(of, now); }
        case TimerInput => { code := Tick(now); }
        case StopInput => { code := Stop(now); }
        case ControlFact(c) => {
          ControlConnection(c, now);
          code := Applied;
        }
        case ExhaustionInput(attempts) => { code := ExhaustRecovery(attempts, now); }
        case RecoveryInput(command) => { code := Recover(command, now); }
        case IssueRecoveryInput => {
          TakeRecoveryCommand();
          code := Applied;
        }
        case OperationalIngressInput => { code := BreakIngress(now); }
        case AggregateInput(position, clash) => {
          if session.None? { return Rejected; }
          SeeAggregate(position, clash, now);
          code := Applied;
        }
        case PlanInput(purpose, of, requests) => { code := PlanHydration(purpose, of, requests); }
        case TerminalInput(generation, completed) => { code := CloseOne(generation, completed); }
        case HydrationFaultInput => { code := BreakHydration(now); }
        case IngressFenceInput(fence, unknown) => { code := TakeIngressFence(fence, unknown, now); }
        case PolicyInput(action, of, generation, token) => { code := DecidePolicy(action, of, generation, token, now); }
        case IssueCoverageInput => {
          RequestCoverage();
          code := Applied;
        }
        case CoverageFenceInput(fence) => { code := TakeCoverageFence(fence, now); }
      }
    }

    method Commit(target: int)
      modifies this`watermark
      ensures View() == old(View()).(watermark := CommitTarget(old(watermark), target))
    {
      if watermark.committedT.None? || target > watermark.committedT.value {
        watermark := watermark.(committedT := Some(target));
      }
    }

    method ChooseTarget() returns (target: Option<int>)
      ensures target == EvaluationTarget(View())
    {
      target := watermark.latestTarget;
      if target.None? || !TargetSupported(View(), target.value) {
        target := watermark.committedT;
        if target.Some? && !TargetSupported(View(), target.value) { target := None; }
      }
    }

    method EvaluateStep(input: Input, code: Code, evaluation: Evaluation, now: int)
      modifies this
      ensures View() == Evaluate(old(View()), input, code, evaluation, now)
    {
      if globalFailure || code != Applied || !Evaluates(input) || evaluation == Skip { return; }
      var target := ChooseTarget();
      if target.None? { return; }
      if evaluation == Fault {
        Suppress(AccountingEvent, AccountingIntegrity, now);
        return;
      }
      Commit(target.value);
      if input.IngressFenceInput? {
        control, recovery := control.(attempts := 0), Recovery(None, false);
      }
    }

    method Dispatch(event: Event)
      modifies this
      ensures View() == Step(old(View()), event)
    {
      if lifecycle == Ended || globalFailure { return; }
      if event.clockRegression {
        clockMonotonic := false;
        Suppress(ClockRegressionEvent, ClockRegression, event.now);
        return;
      }
      var code := ApplyInput(event.input, event.now);
      EvaluateStep(event.input, code, event.evaluation, event.now);
    }

    /** Consumes one input: dispatch, then the evaluation it may cause.  The watermark stays or moves up to a supported
        target, and a lost epoch never returns. */
    method Consume(event: Event)
      requires Valid()
      modifies this
      ensures Valid() && View() == Step(old(View()), event)
      ensures R.WatermarkStep(old(View()), View()) && R.EpochStep(old(View()), View())
      ensures lifecycle == Live ==> epoch.active && epoch.acked && !hydration.generation.active
                                    && hydration.fenceReconciled && hydration.fenceEpoch == epoch.live
    {
      hide Step;
      R.StepKeeps(View(), event);
      Dispatch(event);
    }
  }
}
