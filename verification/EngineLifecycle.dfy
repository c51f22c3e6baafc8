/** The engine's lifecycle and watermark as one state machine: connection epochs, acknowledgement, hydration
    generations, fences, suppression and recovery, and the committed watermark that moves only with support. */
module EngineLifecycle {
  import opened Options
  import opened SessionUnits
  import opened LivePositions

  datatype Lifecycle =
    | Initializing | AwaitingSession | AwaitingAck | Hydrating | Live | Recovering | Ended | Suppressed

  /** The states in which a new epoch may start. */
  predicate Waiting(l: Lifecycle) {
    l == AwaitingSession || l == AwaitingAck || l == Recovering
  }

  /** The states in which aggregates flow. */
  predicate Streaming(l: Lifecycle) {
    l == Hydrating || l == Live || l == Recovering
  }

  predicate InSessionState(l: Lifecycle) {
    l == AwaitingAck || Streaming(l)
  }

  datatype Reason =
    | NoReason | BindingBeforeSession | BindingInSession | BindingAfterSession | SessionEnd | SessionStart
    | AckAtStart | Ack | EpochLost | IngressIntegrity | RecoveryExhausted | HydrationComplete | ScheduledRecovery
    | ControlledStop | CanonicalIntegrity | ClockRegression | AccountingIntegrity

  datatype Suppression = SameBindingRecovery | CleanReinitialization | RestartRequired

  /** The installed session: start and end, and the delay of every target behind the clock. */
  datatype Session = Session(start: int, end: int, delay: int)

  datatype Epoch = Epoch(live: nat, active: bool, writeToken: nat, acked: bool, ackPosition: Position,
                         ackReceivedAt: int, greatestIngress: Position)

  datatype ControlKind = Attempt | Established | Authentication | AggregateWrite | AggregateSubscription | TQWrite
                       | TQSubscription | Lost | IngressFailure

  datatype Control = Control(latestKind: Option<ControlKind>, greatest: Position, attempts: nat)

  datatype Purpose = FreshBootstrap | GapRecovery

  /** The current hydration generation; `failed` counts requests that closed without completing. */
  datatype Generation = Generation(active: bool, id: nat, purpose: Purpose, epoch: nat, start: int, end: int,
                                   open: nat, failed: nat, fenceToken: nat, policyDecided: bool)

  const NoGeneration := Generation(false, 0, FreshBootstrap, 0, 0, 0, 0, 0, 0, false)

  datatype Hydration = Hydration(generation: Generation, lastGeneration: nat, lastToken: nat, fenceReconciled: bool,
                                 fenceEpoch: nat, fenceThrough: nat, fenceMarker: nat, supportedThrough: Option<int>,
                                 supportedT: Option<int>, lastPolicyToken: nat, policyWaiting: bool)

  datatype Coverage = Coverage(lastToken: nat, outstanding: Option<(nat, nat)>)

  datatype RecoveryCommand = RecoveryCommand(failedEpoch: nat, ordinal: nat, earliestAt: int)

  datatype Recovery = Recovery(pending: Option<RecoveryCommand>, dispatched: bool)

  datatype Watermark = Watermark(latestTarget: Option<int>, committedT: Option<int>)

  datatype Engine = Engine(lifecycle: Lifecycle, reason: Reason, session: Option<Session>, epoch: Epoch,
                           control: Control, hydration: Hydration, coverage: Coverage, recovery: Recovery,
                           watermark: Watermark, suppression: Option<Suppression>, globalFailure: bool,
                           clockMonotonic: bool, aggregateIntegrity: bool)

  const Start := Engine(
    Initializing, NoReason, None, Epoch(0, false, 0, false, NoPosition, 0, NoPosition), Control(None, NoPosition, 0),
    Hydration(NoGeneration, 0, 0, false, 0, 0, 0, None, None, 0, false), Coverage(0, None), Recovery(None, false),
    Watermark(None, None), None, false, true, false)

  // --------------------------------------------------------------------------------------------- time and targets

  function TruncateToSecond(at: int): int {
    at - at % SECOND
  }

  /** The watermark target of a clock reading: delayed, whole seconds, inside the session. */
  function TimerTarget(now: int, s: Session): int {
    var target := TruncateToSecond(now - s.delay);
    if target <= s.start then s.start else if target >= s.end then s.end else target
  }

  /** The first whole second at or after the acknowledgement, inside the session. */
  function AcknowledgementBoundary(receivedAt: int, s: Session): int {
    var down := TruncateToSecond(receivedAt);
    var boundary := if receivedAt > down then down + SECOND else down;
    if boundary < s.start then s.start else if boundary > s.end then s.end else boundary
  }

  /** The central gate before a target is committed. */
  predicate TargetSupported(e: Engine, target: int) {
    && e.session.Some? && e.clockMonotonic && !e.aggregateIntegrity
    && (e.watermark.committedT.Some? ==> target >= e.watermark.committedT.value)
    && ((e.watermark.committedT.Some? && target == e.watermark.committedT.value)
        || (&& e.epoch.active && e.epoch.acked && e.epoch.live != 0
            && e.hydration.fenceReconciled && e.hydration.fenceEpoch == e.epoch.live
            && e.hydration.fenceThrough >= e.epoch.ackPosition.frame
            && e.hydration.supportedThrough.Some? && e.hydration.supportedThrough.value >= target))
  }

  // ------------------------------------------------------------------------------------------ lifecycle transitions

  datatype LifecycleEvent =
    | BindingEvent | TimerEvent | StopEvent | ClockRegressionEvent | CanonicalEvent | AccountingEvent | AckEvent
    | LossEvent | IngressEvent(reason: Reason) | HydrationCompleteEvent | ScheduledRecoveryEvent

  /** The next lifecycle and its reason, or None when the event is not legal here.  NoReason with an unchanged
      lifecycle is a quiet self-transition. */
  function NextLifecycle(e: Engine, event: LifecycleEvent, now: int): Option<(Lifecycle, Reason)> {
    var was := e.lifecycle;
    match event
    case BindingEvent =>
      if was != Initializing || e.session.None? then None
      else if now < e.session.value.start then Some((AwaitingSession, BindingBeforeSession))
      else if now < e.session.value.end then Some((AwaitingAck, BindingInSession))
      else Some((Ended, BindingAfterSession))
    case TimerEvent =>
      if e.session.None? then None
      else if now >= e.session.value.end then Some((Ended, SessionEnd))
      else if was == AwaitingSession then
        if now < e.session.value.start then Some((was, NoReason))
        else if e.epoch.active && e.epoch.acked then Some((Hydrating, AckAtStart))
        else Some((AwaitingAck, SessionStart))
      else if InSessionState(was) || was == Suppressed then Some((was, NoReason))
      else None
    case StopEvent => Some((Ended, ControlledStop))
    case ClockRegressionEvent => Some((Suppressed, ClockRegression))
    case CanonicalEvent => Some((Suppressed, CanonicalIntegrity))
    case AccountingEvent => Some((Suppressed, AccountingIntegrity))
    case AckEvent =>
      if !e.epoch.active || e.session.None? then None
      else if was == AwaitingSession then Some((was, NoReason))
      else if was == AwaitingAck then
        if now < e.session.value.start || now >= e.session.value.end then None else Some((Hydrating, Ack))
      else if Streaming(was) then Some((was, NoReason))
      else None
    case LossEvent =>
      if Waiting(was) then Some((was, NoReason))
      else if was == Hydrating then Some((AwaitingAck, EpochLost))
      else if was == Live then Some((Recovering, EpochLost))
      else None
    case IngressEvent(reason) =>
      if was == Initializing || was == Ended then None else Some((Suppressed, reason))
    case HydrationCompleteEvent =>
      if was != Hydrating && was != Recovering then None else Some((Live, HydrationComplete))
    case ScheduledRecoveryEvent =>
      if was != Suppressed || e.suppression != Some(SameBindingRecovery) || e.epoch.active then None
      else Some((Recovering, ScheduledRecovery))
  }

  /** Applies a legal transition; the reason is replaced only by new evidence. */
  function Transition(e: Engine, event: LifecycleEvent, now: int): Option<Engine> {
    match NextLifecycle(e, event, now)
    case None => None
    case Some((next, reason)) =>
      if next == e.lifecycle && (reason == NoReason || next != Suppressed || e.reason == reason) then Some(e)
      else Some(e.(lifecycle := next, reason := reason))
  }

  function TransitionOrStay(e: Engine, event: LifecycleEvent, now: int): Engine {
    var next := Transition(e, event, now);
    if next.Some? then next.value else e
  }

  function SuppressionFor(reason: Reason): Option<Suppression> {
    match reason
    case IngressIntegrity => Some(SameBindingRecovery)
    case RecoveryExhausted => Some(SameBindingRecovery)
    case CanonicalIntegrity => Some(CleanReinitialization)
    case ClockRegression => Some(RestartRequired)
    case AccountingIntegrity => Some(RestartRequired)
    case _ => None
  }

  /** Backoff: doubling from the initial delay up to the maximum. */
  function RecoveryDelay(initial: int, maximum: int, ordinal: nat): int
    decreases ordinal
  {
    if ordinal <= 1 then if initial > maximum then maximum else initial
    else
      var before := RecoveryDelay(initial, maximum, ordinal - 1);
      if before >= maximum || before > maximum / 2 then maximum else before * 2
  }

  const INITIAL_BACKOFF: int := SECOND
  const MAXIMUM_BACKOFF: int := 30 * SECOND

  /** Schedules the one pending recovery command, unless one is pending. */
  function ScheduleRecovery(e: Engine, now: int): Engine {
    if e.recovery.pending.Some? || e.session.None? then e
    else
      var ordinal := e.control.attempts + 1;
      var command := RecoveryCommand(e.epoch.live, ordinal,
                                     now + RecoveryDelay(INITIAL_BACKOFF, MAXIMUM_BACKOFF, ordinal));
      e.(recovery := Recovery(Some(command), false))
  }

  /** Binds a suppression cause to its recovery requirement and containment. */
  function EnterSuppression(e: Engine, event: LifecycleEvent, reason: Reason, now: int): Engine {
    var kind := SuppressionFor(reason);
    var disposition := if kind.Some? then kind.value else RestartRequired;
    var cause := if kind.Some? then event else AccountingEvent;
    var a := e.(suppression := Some(disposition));
    var b := if disposition == SameBindingRecovery && reason != RecoveryExhausted then ScheduleRecovery(a, now) else a;
    var c := if disposition == SameBindingRecovery then b else b.(globalFailure := true);
    TransitionOrStay(c, cause, now)
  }

  // -------------------------------------------------------------------------------------------------- epoch changes

  function ClearAck(epoch: Epoch): Epoch {
    epoch.(writeToken := 0, acked := false, ackPosition := NoPosition, ackReceivedAt := 0)
  }

  /** The epoch is lost: nothing stays acknowledged or reconciled. */
  function LoseEpoch(e: Engine): Engine {
    e.(epoch := ClearAck(e.epoch).(active := false), hydration := e.hydration.(fenceReconciled := false))
  }

  /** Closes every open request of the current generation and retires it. */
  function CancelGeneration(e: Engine): Engine {
    var g := e.hydration.generation;
    if !g.active then e
    else e.(hydration := e.hydration.(generation := g.(open := 0, failed := g.failed + g.open, active := false)))
  }

  /** The same without retiring it: the integrity paths leave it current. */
  function CloseRequests(e: Engine): Engine {
    var g := e.hydration.generation;
    if !g.active then e
    else e.(hydration := e.hydration.(generation := g.(open := 0, failed := g.failed + g.open)))
  }

  datatype ControlInput = ControlInput(kind: ControlKind, epoch: nat, position: Position, receivedAt: int,
                                       token: nat, succeeded: bool)

  datatype Code = Applied | Deferred | Rejected | Fenced | IngressIntegrityCode | AccountingCode

  predicate CausalKind(kind: ControlKind) {
    || kind == Established || kind == Authentication || kind == AggregateSubscription || kind == TQSubscription
    || kind == Lost || kind == IngressFailure
  }

  /** A committed live boundary can name the unsupported suffix: the loss becomes an ordinary gap recovery. */
  function RouteLoss(e: Engine, now: int): Option<Engine> {
    if e.lifecycle != Live || e.watermark.committedT.None? || e.aggregateIntegrity then None
    else
      var lost := LoseEpoch(e.(hydration := e.hydration.(supportedT := e.watermark.committedT), suppression := None));
      Some(ScheduleRecovery(TransitionOrStay(lost, LossEvent, now), now))
  }

  function NewEpoch(e: Engine, epoch: nat): Engine {
    e.(epoch := ClearAck(e.epoch).(live := epoch, active := true, greatestIngress := Position(epoch, 0, 0)),
       control := e.control.(greatest := NoPosition, attempts := e.control.attempts + 1))
  }

  function Acknowledge(e: Engine, c: ControlInput): Engine {
    e.(epoch := e.epoch.(acked := true, ackPosition := c.position, ackReceivedAt := c.receivedAt))
  }

  function Subscription(e: Engine, c: ControlInput, now: int): (Engine, Code) {
    if e.epoch.acked || !c.succeeded then (e, Applied)
    else if e.epoch.writeToken == 0 || c.token != e.epoch.writeToken then (e, Rejected)
    else
      var next := Transition(e, AckEvent, now);
      if next.None? then (e, Rejected) else (Acknowledge(next.value, c), Applied)
  }

  function LoseConnection(e: Engine, now: int): (Engine, Code) {
    if !(e.lifecycle == AwaitingSession || InSessionState(e.lifecycle)) then (e, Rejected)
    else if e.lifecycle == Live && e.watermark.committedT.None? then (e, IngressIntegrityCode)
    else
      var kept := if e.lifecycle == Live
                  then e.(hydration := e.hydration.(supportedT := e.watermark.committedT)) else e;
      var canceled := if e.lifecycle == Hydrating || e.lifecycle == Recovering then CancelGeneration(kept) else kept;
      (ScheduleRecovery(TransitionOrStay(LoseEpoch(canceled), LossEvent, now), now), Applied)
  }

  /** Raw loss of ingress: recover from the committed boundary if there is one, else suppress. */
  function FailIngress(e: Engine, now: int): Engine {
    var canceled := CancelGeneration(e);
    var routed := RouteLoss(canceled, now);
    if routed.Some? then routed.value
    else EnterSuppression(LoseEpoch(canceled), IngressEvent(IngressIntegrity), IngressIntegrity, now)
  }

  /** A control fact of the current epoch that is not stale. */
  function DecideCurrent(e: Engine, c: ControlInput, now: int): (Engine, Code) {
    match c.kind
    case AggregateWrite =>
      if c.succeeded then (e.(epoch := e.epoch.(writeToken := c.token)), Applied)
      else if e.epoch.writeToken == c.token then (e.(epoch := e.epoch.(writeToken := 0)), Applied)
      else (e, Applied)
    case AggregateSubscription => Subscription(e, c, now)
    case TQWrite => (e, Deferred)
    case TQSubscription => (e, Deferred)
    case Lost => LoseConnection(e, now)
    case IngressFailure => (FailIngress(e, now), IngressIntegrityCode)
    case _ => (e, Applied)
  }

  function DecideControl(e: Engine, c: ControlInput, now: int): (Engine, Code) {
    if e.session.None? then (e, Rejected)
    else if c.epoch == 0 then (e, Rejected)
    else if c.kind == Attempt then
      if c.epoch <= e.epoch.live then (e, Fenced)
      else if e.epoch.active || !Waiting(e.lifecycle) then (e, Rejected)
      else (NewEpoch(e, c.epoch), Applied)
    else if c.epoch != e.epoch.live || !e.epoch.active then (e, Fenced)
    else if CausalKind(c.kind) && e.control.greatest.epoch == c.epoch && !After(c.position, e.control.greatest)
    then (e, Fenced)
    else DecideCurrent(e, c, now)
  }

  /** What is remembered of a consumed control: its kind, and the greatest accepted position of the current epoch. */
  function RecordControl(e: Engine, c: ControlInput, code: Code): Engine {
    var accepted := && (code == Applied || code == Deferred || code == IngressIntegrityCode)
                    && c.position.epoch == e.epoch.live
                    && c.position.frame > 0;
    var greatest := if accepted && (e.control.greatest.epoch == 0 || After(c.position, e.control.greatest))
                    then c.position else e.control.greatest;
    var ingress := if accepted && (e.epoch.greatestIngress.epoch == 0 || After(c.position, e.epoch.greatestIngress))
                   then c.position else e.epoch.greatestIngress;
    e.(control := e.control.(latestKind := Some(c.kind), greatest := greatest),
       epoch := e.epoch.(greatestIngress := ingress))
  }

  function ApplyControl(e: Engine, c: ControlInput, now: int): Engine {
    var r := DecideControl(e, c, now);
    RecordControl(r.0, c, r.1)
  }

  // ------------------------------------------------------------------------------------------ hydration and fences

  function HydrationStart(e: Engine, purpose: Purpose): Option<int>
    requires e.session.Some?
  {
    match purpose
    case FreshBootstrap => if e.lifecycle == Hydrating then Some(e.session.value.start) else None
    case GapRecovery => if e.lifecycle == Recovering then e.hydration.supportedT else None
  }

  /** Allocates the generation's one fence token, once nothing is open. */
  function AllocateFence(h: Hydration): Hydration {
    if h.generation.open != 0 || h.generation.fenceToken != 0 then h
    else h.(lastToken := h.lastToken + 1, generation := h.generation.(fenceToken := h.lastToken + 1))
  }

  /** Installs a new generation of `requests` requests; its budgets and symbols are not part of this state. */
  function ApplyPlan(e: Engine, purpose: Purpose, epoch: nat, requests: nat): (Engine, Code) {
    if e.session.None? then (e, Rejected)
    else if !e.epoch.active || epoch != e.epoch.live then (e, Fenced)
    else if !e.epoch.acked || e.hydration.generation.active then (e, Rejected)
    else
      var start := HydrationStart(e, purpose);
      var end := AcknowledgementBoundary(e.epoch.ackReceivedAt, e.session.value);
      if start.None? || start.value < e.session.value.start || start.value > e.session.value.end || start.value > end
      then (e, Rejected)
      else
        var id := e.hydration.lastGeneration + 1;
        var open := if start.value == end then 0 else requests;
        var g := Generation(true, id, purpose, e.epoch.live, start.value, end, open, 0, 0, false);
        (e.(hydration := AllocateFence(e.hydration.(generation := g, lastGeneration := id, fenceReconciled := false,
                                                    policyWaiting := false))),
         Applied)
  }

  /** One request of the current generation closes. */
  function CloseRequest(e: Engine, generation: nat, completed: bool): (Engine, Code) {
    var g := e.hydration.generation;
    if !g.active || generation != g.id || g.open == 0 then (e, Fenced)
    else
      var closed := g.(open := g.open - 1, failed := if completed then g.failed else g.failed + 1);
      (e.(hydration := AllocateFence(e.hydration.(generation := closed))), Applied)
  }

  datatype FenceOutcome = FenceComplete | FenceCanceled | FenceFailed

  datatype IngressFence = IngressFence(generation: nat, epoch: nat, token: nat, outcome: FenceOutcome, through: nat,
                                       marker: nat, capturedAt: int)

  /** The fence boundary covers everything the engine has seen of the epoch, and lies between ack and now. */
  predicate FenceCovers(e: Engine, epoch: nat, through: nat, capturedAt: int, now: int) {
    && through >= e.epoch.ackPosition.frame
    && (e.epoch.greatestIngress.epoch == epoch ==> through >= e.epoch.greatestIngress.frame)
    && e.epoch.ackReceivedAt <= capturedAt <= now
  }

  function FenceAt(h: Hydration, f: IngressFence): Hydration {
    h.(fenceEpoch := f.epoch, fenceThrough := f.through, fenceMarker := f.marker)
  }

  function BreakOffFence(e: Engine, f: IngressFence, now: int): (Engine, Code) {
    var canceled := CancelGeneration(e);
    if f.outcome == FenceCanceled then
      (TransitionOrStay(LoseEpoch(canceled), LossEvent, now), Rejected)
    else
      var h := canceled.(hydration := canceled.hydration.(fenceReconciled := false));
      (EnterSuppression(h, IngressEvent(IngressIntegrity), IngressIntegrity, now), IngressIntegrityCode)
  }

  /** An accepted fence: the gap is closed through its target, unless a recovery could not cover every symbol. */
  function CompleteFence(e: Engine, f: IngressFence, target: int, unknown: bool, now: int): Engine {
    var g := e.hydration.generation;
    if g.purpose == GapRecovery && unknown then
      e.(hydration := FenceAt(e.hydration, f).(fenceReconciled := false, policyWaiting := true))
    else
      var h := FenceAt(e.hydration, f).(generation := g.(active := false), fenceReconciled := true,
                                        supportedThrough := Some(target));
      TransitionOrStay(e.(hydration := h, watermark := e.watermark.(latestTarget := Some(target))),
                       HydrationCompleteEvent, now)
  }

  function ApplyIngressFence(e: Engine, f: IngressFence, unknown: bool, now: int): (Engine, Code) {
    var g := e.hydration.generation;
    if !g.active || f.token == 0 || f.token != g.fenceToken || f.generation != g.id || f.epoch != g.epoch
       || e.session.None? then (e, Fenced)
    else if g.open != 0 || (e.hydration.fenceEpoch == g.epoch && f.marker <= e.hydration.fenceMarker) then (e, Rejected)
    else if f.outcome != FenceComplete then BreakOffFence(e, f, now)
    else if || !e.epoch.active || !e.epoch.acked || e.epoch.live != g.epoch
            || !FenceCovers(e, g.epoch, f.through, f.capturedAt, now)
    then (e, Fenced)
    else
      var target := TimerTarget(f.capturedAt, e.session.value);
      if target < g.end then (e, Rejected) else (CompleteFence(e, f, target, unknown, now), Applied)
  }

  datatype PolicyAction = Retry | CancelAction | Exhaust | StopAction

  function ApplyPolicy(e: Engine, action: PolicyAction, epoch: nat, generation: nat, token: nat, now: int)
    : (Engine, Code)
  {
    var g := e.hydration.generation;
    if e.session.None? || e.lifecycle != Recovering || !g.active || g.policyDecided || epoch != g.epoch
       || generation != g.id || token <= e.hydration.lastPolicyToken
       || ((action == Retry || action == Exhaust) && !(g.open == 0 && g.failed > 0)) then (e, Rejected)
    else
      var decided := e.(hydration := e.hydration.(lastPolicyToken := token, policyWaiting := false,
                                                  generation := g.(policyDecided := true)));
      FinishPolicy(decided, action, now)
  }

  /** What a decided policy does with its generation. */
  function FinishPolicy(e: Engine, action: PolicyAction, now: int): (Engine, Code) {
    var canceled := CancelGeneration(e);
    match action
    case Retry => (canceled, Applied)
    case CancelAction =>
      (canceled.(epoch := ClearAck(canceled.epoch).(active := false),
                 hydration := canceled.hydration.(policyWaiting := true)), Applied)
    case Exhaust =>
      (EnterSuppression(canceled, IngressEvent(RecoveryExhausted), RecoveryExhausted, now), IngressIntegrityCode)
    case StopAction => (TransitionOrStay(canceled, StopEvent, now), Applied)
  }

  /** Issues the one outstanding live coverage fence. */
  function IssueCoverageFence(e: Engine): Engine {
    if e.session.None? || e.lifecycle != Live || !e.epoch.active || !e.epoch.acked || !e.hydration.fenceReconciled
       || e.hydration.supportedThrough.None? || e.hydration.generation.active || e.coverage.outstanding.Some? then e
    else
      var token := e.coverage.lastToken + 1;
      e.(coverage := Coverage(token, Some((e.epoch.live, token))))
  }

  datatype CoverageFence = CoverageFence(epoch: nat, token: nat, complete: bool, through: nat, marker: nat,
                                         capturedAt: int)

  function ApplyCoverageFence(e: Engine, f: CoverageFence, now: int): (Engine, Code) {
    if e.coverage.outstanding != Some((f.epoch, f.token)) || e.session.None? || f.epoch != e.epoch.live
    then (e, Fenced)
    else
      var taken := e.(coverage := e.coverage.(outstanding := None));
      if !f.complete then (taken, Rejected)
      else if e.lifecycle != Live || !e.epoch.active || !e.epoch.acked || e.hydration.generation.active
              || !FenceCovers(e, e.epoch.live, f.through, f.capturedAt, now) || f.marker <= e.hydration.fenceMarker
      then (taken, Fenced)
      else
        var target := TimerTarget(f.capturedAt, e.session.value);
        if e.hydration.supportedThrough.Some? && target < e.hydration.supportedThrough.value then (taken, Rejected)
        else
          (taken.(hydration := e.hydration.(supportedThrough := Some(target), fenceReconciled := true,
                                            fenceEpoch := e.epoch.live, fenceThrough := f.through,
                                            fenceMarker := f.marker),
                  watermark := e.watermark.(latestTarget := Some(target))), Applied)
  }

  // ---------------------------------------------------------------------------------------------- timers, recovery

  function ApplyTimer(e: Engine, now: int): (Engine, Code) {
    var next := Transition(e, TimerEvent, now);
    if e.session.None? || next.None? then (e, Rejected)
    else
      var moved := if next.value.lifecycle == Ended then CancelGeneration(next.value) else next.value;
      (moved.(watermark := moved.watermark.(latestTarget := Some(TimerTarget(now, e.session.value)))), Applied)
  }

  predicate RecoverySelectable(e: Engine) {
    || (e.lifecycle == Suppressed && e.suppression == Some(SameBindingRecovery))
    || (Waiting(e.lifecycle) && !e.epoch.active)
  }

  function IssueRecovery(e: Engine): Engine {
    if !RecoverySelectable(e) || e.recovery.pending.None? || e.recovery.dispatched then e
    else e.(recovery := e.recovery.(dispatched := true))
  }

  function ApplyScheduledRecovery(e: Engine, command: RecoveryCommand, now: int): (Engine, Code) {
    if e.session.None? || !RecoverySelectable(e) || !e.recovery.dispatched || e.recovery.pending != Some(command)
       || command.failedEpoch != e.epoch.live then (e, Fenced)
    else if now < command.earliestAt then (e, Rejected)
    else
      var taken := e.(recovery := Recovery(None, false));
      if e.lifecycle == Suppressed then
        var next := Transition(taken, ScheduledRecoveryEvent, now);
        if next.None? then (taken, Rejected) else (next.value.(suppression := None), Applied)
      else (taken, Applied)
  }

  function ApplyExhaustion(e: Engine, attempts: nat, now: int): (Engine, Code) {
    var valid := Waiting(e.lifecycle)
                 || (e.lifecycle == Suppressed && e.suppression == Some(SameBindingRecovery));
    var evidence := e.control.latestKind == Some(Lost) || e.control.latestKind == Some(IngressFailure)
                    || (e.lifecycle == Suppressed && e.reason == IngressIntegrity);
    if e.session.None? || !valid || e.epoch.active || e.hydration.generation.active || !evidence
       || attempts == 0 || attempts != e.control.attempts then (e, Rejected)
    else
      (EnterSuppression(e.(recovery := Recovery(None, false)), IngressEvent(RecoveryExhausted), RecoveryExhausted, now),
       IngressIntegrityCode)
  }

  // -------------------------------------------------------------------------------------------------------- a step

  datatype Input =
    | BindingInput(session: Session)
    | TimerInput
    | StopInput
    | ControlFact(control: ControlInput)
    | ExhaustionInput(attempts: nat)
    | RecoveryInput(command: RecoveryCommand)
    | IssueRecoveryInput
    | OperationalIngressInput
    | AggregateInput(position: Position, clash: bool)
    | PlanInput(purpose: Purpose, planEpoch: nat, requests: nat)
    | TerminalInput(generation: nat, completed: bool)
    | HydrationFaultInput
    | IngressFenceInput(fence: IngressFence, unknown: bool)
    | PolicyInput(action: PolicyAction, policyEpoch: nat, policyGeneration: nat, policyToken: nat)
    | IssueCoverageInput
    | CoverageFenceInput(coverageFence: CoverageFence)

  /** Whether the population is evaluated at this step, and whether the evaluation validates. */
  datatype Evaluation = Skip | Accept | Fault

  /** One consumed input: what it is, the engine's time, and whether the clock went backwards. */
  datatype Event = Event(input: Input, now: int, clockRegression: bool, evaluation: Evaluation)

  /** A live aggregate: its position is seen whatever becomes of it; only an accepted one can clash. */
  function ApplyAggregate(e: Engine, position: Position, clash: bool, now: int): Engine {
    var seen := if position.epoch == e.epoch.live && position.frame > 0
                   && (e.epoch.greatestIngress.epoch == 0 || After(position, e.epoch.greatestIngress))
                then e.(epoch := e.epoch.(greatestIngress := position)) else e;
    if clash && e.epoch.active && e.epoch.acked && Streaming(e.lifecycle)
    then EnterSuppression(seen.(aggregateIntegrity := true), CanonicalEvent, CanonicalIntegrity, now) else seen
  }

  function Apply(e: Engine, input: Input, now: int): (Engine, Code) {
    match input
    case BindingInput(session) =>
      if e.session.Some? || e.lifecycle != Initializing then (e, Rejected)
      else
        var next := Transition(e.(session := Some(session)), BindingEvent, now);
        if next.None? then (e, Rejected) else (next.value, Applied)
    case TimerInput => ApplyTimer(e, now)
    case StopInput => (TransitionOrStay(CancelGeneration(e), StopEvent, now), Applied)
    case ControlFact(control) => (ApplyControl(e, control, now), Applied)
    case ExhaustionInput(attempts) => ApplyExhaustion(e, attempts, now)
    case RecoveryInput(command) => ApplyScheduledRecovery(e, command, now)
    case IssueRecoveryInput => (IssueRecovery(e), Applied)
    case OperationalIngressInput =>
      if e.session.None? || !e.epoch.active then (e, Fenced) else (FailIngress(e, now), IngressIntegrityCode)
    case AggregateInput(position, clash) =>
      if e.session.None? then (e, Rejected) else (ApplyAggregate(e, position, clash, now), Applied)
    case PlanInput(purpose, epoch, requests) => ApplyPlan(e, purpose, epoch, requests)
    case TerminalInput(generation, completed) => CloseRequest(e, generation, completed)
    case HydrationFaultInput =>
      if !e.hydration.generation.active then (e, Fenced)
      else (EnterSuppression(CloseRequests(e), AccountingEvent, AccountingIntegrity, now), AccountingCode)
    case IngressFenceInput(fence, unknown) => ApplyIngressFence(e, fence, unknown, now)
    case PolicyInput(action, epoch, generation, token) => ApplyPolicy(e, action, epoch, generation, token, now)
    case IssueCoverageInput => (IssueCoverageFence(e), Applied)
    case CoverageFenceInput(fence) => ApplyCoverageFence(e, fence, now)
  }

  predicate Evaluates(input: Input) {
    input.TimerInput? || input.IngressFenceInput? || input.CoverageFenceInput?
  }

  function Max(a: int, b: int): int {
    if a < b then b else a
  }

  /** The committed watermark after an accepted evaluation at a target. */
  function CommitTarget(w: Watermark, target: int): Watermark {
    w.(committedT := Some(if w.committedT.Some? then Max(w.committedT.value, target) else target))
  }

  /** What an evaluation is for: the latest target if that is supported, or else the committed watermark again. */
  function EvaluationTarget(e: Engine): Option<int> {
    if e.watermark.latestTarget.Some? && TargetSupported(e, e.watermark.latestTarget.value)
    then e.watermark.latestTarget
    else if e.watermark.committedT.Some? && TargetSupported(e, e.watermark.committedT.value) then e.watermark.committedT
    else None
  }

  /** The evaluation after an applied input. */
  function Evaluate(e: Engine, input: Input, code: Code, evaluation: Evaluation, now: int): Engine {
    var target := EvaluationTarget(e);
    if e.globalFailure || code != Applied || !Evaluates(input) || evaluation == Skip || target.None? then e
    else if evaluation == Fault then EnterSuppression(e, AccountingEvent, AccountingIntegrity, now)
    else
      var t := e.(watermark := CommitTarget(e.watermark, target.value));
      if input.IngressFenceInput? then
        t.(control := t.control.(attempts := 0), recovery := Recovery(None, false))
      else t
  }

  /** One transition of the engine: nothing after the end or a global failure, a regression suppresses, and every
      other input is applied and then, if it may be, evaluated. */
  function Step(e: Engine, event: Event): Engine {
    if e.lifecycle == Ended || e.globalFailure then e
    else if event.clockRegression then
      EnterSuppression(e.(clockMonotonic := false), ClockRegressionEvent, ClockRegression, event.now)
    else
      var applied := Apply(e, event.input, event.now);
      Evaluate(applied.0, event.input, applied.1, event.evaluation, event.now)
  }
}
