/** What every input makes of the engine, told over the engine before it: where each lifecycle state leads, what a
    containment and a loss leave behind, which facts are taken and which are refused, and when a target is committed. */
module EngineMeaning {
  import opened LivePositions
  import opened Options
  import opened SessionUnits
  import opened EngineLifecycle

  const Nowhere := Position(0, 0, 0)

  // ------------------------------------------------------------------------------------------------ where states lead

  /** The events that contain the engine from any state, and why. */
  function Contains(event: LifecycleEvent): Option<Reason> {
    match event
    case ClockRegressionEvent => Some(ClockRegression)
    case CanonicalEvent => Some(CanonicalIntegrity)
    case AccountingEvent => Some(AccountingIntegrity)
    case _ => None
  }

  /** A timer before the end of the session moves on only from waiting for its start. */
  function OnTimer(e: Engine, now: int): Option<(Lifecycle, Reason)>
    requires e.session.Some?
  {
    var started := e.session.value.start <= now;
    if e.session.value.end <= now then Some((Ended, SessionEnd))
    else
      match e.lifecycle
      case Initializing => None
      case Ended => None
      case AwaitingSession =>
        if !started then Some((AwaitingSession, NoReason))
        else if e.epoch.active && e.epoch.acked then Some((Hydrating, AckAtStart))
        else Some((AwaitingAck, SessionStart))
      case _ => Some((e.lifecycle, NoReason))
  }

  /** Where an event leads, read by the state it meets. */
  function Leads(e: Engine, event: LifecycleEvent, now: int): Option<(Lifecycle, Reason)> {
    if Contains(event).Some? then Some((Suppressed, Contains(event).value))
    else if event == StopEvent then Some((Ended, ControlledStop))
    else if event == TimerEvent then if e.session.Some? then OnTimer(e, now) else None
    else
      match e.lifecycle
      case Initializing =>
        if event == BindingEvent && e.session.Some? then
          if e.session.value.start > now then Some((AwaitingSession, BindingBeforeSession))
          else if e.session.value.end > now then Some((AwaitingAck, BindingInSession))
          else Some((Ended, BindingAfterSession))
        else None
      case AwaitingSession =>
        if event == AckEvent && e.epoch.active && e.session.Some? then Some((AwaitingSession, NoReason))
        else if event == LossEvent then Some((AwaitingSession, NoReason))
        else if event.IngressEvent? then Some((Suppressed, event.reason))
        else None
      case AwaitingAck =>
        if event == AckEvent && e.epoch.active && e.session.Some?
           && e.session.value.start <= now < e.session.value.end then Some((Hydrating, Ack))
        else if event == LossEvent then Some((AwaitingAck, NoReason))
        else if event.IngressEvent? then Some((Suppressed, event.reason))
        else None
      case Hydrating =>
        if event == AckEvent && e.epoch.active && e.session.Some? then Some((Hydrating, NoReason))
        else if event == LossEvent then Some((AwaitingAck, EpochLost))
        else if event == HydrationCompleteEvent then Some((Live, HydrationComplete))
        else if event.IngressEvent? then Some((Suppressed, event.reason))
        else None
      case Live =>
        if event == AckEvent && e.epoch.active && e.session.Some? then Some((Live, NoReason))
        else if event == LossEvent then Some((Recovering, EpochLost))
        else if event.IngressEvent? then Some((Suppressed, event.reason))
        else None
      case Recovering =>
        if event == AckEvent && e.epoch.active && e.session.Some? then Some((Recovering, NoReason))
        else if event == LossEvent then Some((Recovering, NoReason))
        else if event == HydrationCompleteEvent then Some((Live, HydrationComplete))
        else if event.IngressEvent? then Some((Suppressed, event.reason))
        else None
      case Ended => None
      case Suppressed =>
        if event.IngressEvent? then Some((Suppressed, event.reason))
        else if event == ScheduledRecoveryEvent && e.suppression == Some(SameBindingRecovery) && !e.epoch.active
        then Some((Recovering, ScheduledRecovery))
        else None
  }

  lemma LeadsMeans(e: Engine, event: LifecycleEvent, now: int)
    ensures NextLifecycle(e, event, now) == Leads(e, event, now)
  {}

  /** The reason of the state changes with the state, and inside a suppression with its cause. */
  function MovedTo(e: Engine, next: Lifecycle, reason: Reason): Engine {
    if next != e.lifecycle || (next == Suppressed && reason != NoReason)
    then e.(lifecycle := next, reason := reason) else e
  }

  function Moved(e: Engine, to: Option<(Lifecycle, Reason)>): Option<Engine> {
    if to.None? then None else Some(MovedTo(e, to.value.0, to.value.1))
  }

  lemma MoveMeans(e: Engine, event: LifecycleEvent, now: int)
    ensures Transition(e, event, now) == Moved(e, Leads(e, event, now))
    ensures TransitionOrStay(e, event, now)
         == if Leads(e, event, now).None? then e
            else MovedTo(e, Leads(e, event, now).value.0, Leads(e, event, now).value.1)
  {
    hide NextLifecycle, Leads;
    LeadsMeans(e, event, now);
  }

  // -------------------------------------------------------------------------------------- what is lost and contained

  /** The epoch is over: nothing of its acknowledgement and nothing of its reconciliation is left. */
  function WithoutEpoch(e: Engine): Engine {
    e.(epoch := Epoch(e.epoch.live, false, 0, false, Nowhere, 0, e.epoch.greatestIngress),
       hydration := e.hydration.(fenceReconciled := false))
  }

  /** The open requests of an active generation are closed as failed, and the generation is over or stays current. */
  function Drained(e: Engine, over: bool): Engine {
    var g := e.hydration.generation;
    if g.active then
      e.(hydration := e.hydration.(generation := Generation(!over, g.id, g.purpose, g.epoch, g.start, g.end, 0,
                                                            g.open + g.failed, g.fenceToken, g.policyDecided)))
    else e
  }

  lemma DrainMeans(e: Engine)
    ensures CancelGeneration(e) == Drained(e, true) && CloseRequests(e) == Drained(e, false)
    ensures LoseEpoch(e) == WithoutEpoch(e)
  {}

  /** One recovery at a time: none while one is pending, else the next attempt after the epoch that failed, delayed by
      doubling seconds up to thirty. */
  function Rescheduled(e: Engine, now: int): Recovery {
    if e.session.Some? && e.recovery.pending.None? then
      Recovery(Some(RecoveryCommand(e.epoch.live, 1 + e.control.attempts,
                                    now + RecoveryDelay(SECOND, 30 * SECOND, 1 + e.control.attempts))), false)
    else e.recovery
  }

  lemma ScheduleMeans(e: Engine, now: int)
    ensures ScheduleRecovery(e, now) == e.(recovery := Rescheduled(e, now))
  {}

  /** A suppression: a fault of ingress or an exhausted recovery may be recovered from with the same binding, and only
      the first is by itself; any other fails the whole engine. */
  function Contained(e: Engine, reason: Reason, now: int): Engine {
    var recoverable := reason == IngressIntegrity || reason == RecoveryExhausted;
    var stays := recoverable && (e.lifecycle == Initializing || e.lifecycle == Ended);
    e.(suppression := Some(if recoverable then SameBindingRecovery
                           else if reason == CanonicalIntegrity then CleanReinitialization else RestartRequired),
       globalFailure := e.globalFailure || !recoverable,
       recovery := if reason == IngressIntegrity then Rescheduled(e, now) else e.recovery,
       lifecycle := if stays then e.lifecycle else Suppressed,
       reason := if stays then e.reason else reason)
  }

  lemma ContainMeans(e: Engine, now: int)
    ensures EnterSuppression(e, IngressEvent(IngressIntegrity), IngressIntegrity, now)
         == Contained(e, IngressIntegrity, now)
    ensures EnterSuppression(e, IngressEvent(RecoveryExhausted), RecoveryExhausted, now)
         == Contained(e, RecoveryExhausted, now)
    ensures EnterSuppression(e, CanonicalEvent, CanonicalIntegrity, now) == Contained(e, CanonicalIntegrity, now)
    ensures EnterSuppression(e, ClockRegressionEvent, ClockRegression, now) == Contained(e, ClockRegression, now)
    ensures EnterSuppression(e, AccountingEvent, AccountingIntegrity, now) == Contained(e, AccountingIntegrity, now)
  {
    hide EnterSuppression, Contained;
    ContainOne(e, IngressEvent(IngressIntegrity), IngressIntegrity, now);
    ContainOne(e, IngressEvent(RecoveryExhausted), RecoveryExhausted, now);
    ContainOne(e, CanonicalEvent, CanonicalIntegrity, now);
    ContainOne(e, ClockRegressionEvent, ClockRegression, now);
    ContainOne(e, AccountingEvent, AccountingIntegrity, now);
  }

  /** The event a reason comes with. */
  function EventOf(reason: Reason): LifecycleEvent {
    match reason
    case CanonicalIntegrity => CanonicalEvent
    case ClockRegression => ClockRegressionEvent
    case AccountingIntegrity => AccountingEvent
    case _ => IngressEvent(reason)
  }

  predicate Containing(reason: Reason) {
    reason in {IngressIntegrity, RecoveryExhausted, CanonicalIntegrity, ClockRegression, AccountingIntegrity}
  }

  lemma ContainOne(e: Engine, event: LifecycleEvent, reason: Reason, now: int)
    requires Containing(reason) && event == EventOf(reason)
    ensures EnterSuppression(e, event, reason, now) == Contained(e, reason, now)
  {
    hide ScheduleRecovery, Rescheduled;
    var same := reason == IngressIntegrity || reason == RecoveryExhausted;
    var a := e.(suppression := Some(if same then SameBindingRecovery
                                    else if reason == CanonicalIntegrity then CleanReinitialization
                                    else RestartRequired));
    ScheduleMeans(a, now);
    RescheduledAlike(e, a, now);
  }

  lemma RescheduledAlike(e: Engine, a: Engine, now: int)
    requires a.session == e.session && a.recovery == e.recovery && a.epoch.live == e.epoch.live
    requires a.control.attempts == e.control.attempts
    ensures Rescheduled(a, now) == Rescheduled(e, now)
  {}

  // ------------------------------------------------------------------------------------------------- losing an epoch

  /** Raw loss of ingress: a live engine with a committed watermark and no integrity fault recovers from there by
      itself; any other is contained. */
  function AfterIngressFailure(e: Engine, now: int): Engine {
    var u := WithoutEpoch(Drained(e, true));
    if e.lifecycle == Live && e.watermark.committedT.Some? && !e.aggregateIntegrity then
      u.(lifecycle := Recovering, reason := EpochLost, suppression := None, recovery := Rescheduled(e, now),
         hydration := u.hydration.(supportedT := e.watermark.committedT))
    else Contained(u, IngressIntegrity, now)
  }

  lemma FailIngressMeans(e: Engine, now: int)
    ensures FailIngress(e, now) == AfterIngressFailure(e, now)
  {
    hide NextLifecycle, EnterSuppression, Rescheduled, CancelGeneration, Drained, LoseEpoch, Transition;
    hide TransitionOrStay, ScheduleRecovery, Contained;
    DrainMeans(e);
    var d := CancelGeneration(e);
    DrainedRest(e, true);
    DrainMeans(d);
    ContainMeans(LoseEpoch(d), now);
    var kept := d.(hydration := d.hydration.(supportedT := d.watermark.committedT), suppression := None);
    DrainMeans(kept);
    var lost := LoseEpoch(kept);
    MoveMeans(lost, LossEvent, now);
    ScheduleMeans(TransitionOrStay(lost, LossEvent, now), now);
    if RouteLoss(d, now).Some? { RescheduledAlike(e, TransitionOrStay(lost, LossEvent, now), now); }
  }

  /** Draining changes the generation's requests and nothing else. */
  lemma DrainedRest(e: Engine, over: bool)
    ensures var t := Drained(e, over);
            t == e.(hydration := e.hydration.(generation := t.hydration.generation))
  {}

  /** The provider's loss of a connection, by the state it meets. */
  function AfterLoss(e: Engine, now: int): (Engine, Code) {
    var again := Rescheduled(e, now);
    match e.lifecycle
    case Initializing => (e, Rejected)
    case Ended => (e, Rejected)
    case Suppressed => (e, Rejected)
    case AwaitingSession => (WithoutEpoch(e).(recovery := again), Applied)
    case AwaitingAck => (WithoutEpoch(e).(recovery := again), Applied)
    case Hydrating =>
      (WithoutEpoch(Drained(e, true)).(lifecycle := AwaitingAck, reason := EpochLost, recovery := again), Applied)
    case Recovering => (WithoutEpoch(Drained(e, true)).(recovery := again), Applied)
    case Live =>
      if e.watermark.committedT.None? then (e, IngressIntegrityCode)
      else
        var u := WithoutEpoch(e);
        (u.(lifecycle := Recovering, reason := EpochLost, recovery := again,
            hydration := u.hydration.(supportedT := e.watermark.committedT)), Applied)
  }

  lemma LossMeans(e: Engine, now: int)
    ensures LoseConnection(e, now) == AfterLoss(e, now)
  {
    hide NextLifecycle, Rescheduled, CancelGeneration, Drained, LoseEpoch, Transition, TransitionOrStay;
    hide ScheduleRecovery;
    DrainMeans(e);
    DrainedRest(e, true);
    var kept := if e.lifecycle == Live then e.(hydration := e.hydration.(supportedT := e.watermark.committedT)) else e;
    var canceled := if e.lifecycle == Hydrating || e.lifecycle == Recovering then CancelGeneration(kept) else kept;
    DrainMeans(canceled);
    MoveMeans(LoseEpoch(canceled), LossEvent, now);
    ScheduleMeans(TransitionOrStay(LoseEpoch(canceled), LossEvent, now), now);
    if Waiting(e.lifecycle) || Streaming(e.lifecycle) {
      RescheduledAlike(e, TransitionOrStay(LoseEpoch(canceled), LossEvent, now), now);
    }
  }

  // ------------------------------------------------------------------------------------------------ control facts

  /** The acknowledgement of the aggregate subscription: taken once, for the write in flight, and in the states that
      wait for it or go on with it; while waiting for it, only inside the session. */
  function Subscribed(e: Engine, c: ControlInput, now: int): (Engine, Code)
    requires e.session.Some? && e.epoch.active
  {
    var acked := e.(epoch := Epoch(e.epoch.live, true, e.epoch.writeToken, true, c.position, c.receivedAt,
                                   e.epoch.greatestIngress));
    if !c.succeeded || e.epoch.acked then (e, Applied)
    else if c.token != e.epoch.writeToken || c.token == 0 then (e, Rejected)
    else
      match e.lifecycle
      case AwaitingAck =>
        if e.session.value.start <= now < e.session.value.end
        then (acked.(lifecycle := Hydrating, reason := Ack), Applied) else (e, Rejected)
      case Initializing => (e, Rejected)
      case Ended => (e, Rejected)
      case Suppressed => (e, Rejected)
      case _ => (acked, Applied)
  }

  lemma SubscriptionMeans(e: Engine, c: ControlInput, now: int)
    requires e.session.Some? && e.epoch.active
    ensures Subscription(e, c, now) == Subscribed(e, c, now)
  {
    hide NextLifecycle, Transition;
    MoveMeans(e, AckEvent, now);
  }

  /** A control fact of another epoch than the current, active one. */
  predicate OfAnother(e: Engine, c: ControlInput) {
    !e.epoch.active || e.epoch.live != c.epoch
  }

  /** A causal fact not later than the latest one taken of its epoch. */
  predicate OutOfOrder(e: Engine, c: ControlInput) {
    e.control.greatest.epoch == c.epoch && !After(c.position, e.control.greatest)
  }

  /** What a control fact makes of the engine, by its kind. */
  function Controlled(e: Engine, c: ControlInput, now: int): (Engine, Code) {
    if e.session.None? || c.epoch == 0 then (e, Rejected)
    else
      match c.kind
      case Attempt =>
        if c.epoch <= e.epoch.live then (e, Fenced)
        else if !e.epoch.active && e.lifecycle in {AwaitingSession, AwaitingAck, Recovering} then
          (e.(epoch := Epoch(c.epoch, true, 0, false, Nowhere, 0, Position(c.epoch, 0, 0)),
              control := Control(e.control.latestKind, Nowhere, 1 + e.control.attempts)), Applied)
        else (e, Rejected)
      case AggregateWrite =>
        if OfAnother(e, c) then (e, Fenced)
        else
          var token := if c.succeeded then c.token else if c.token == e.epoch.writeToken then 0
                       else e.epoch.writeToken;
          (e.(epoch := e.epoch.(writeToken := token)), Applied)
      case TQWrite => (e, if OfAnother(e, c) then Fenced else Deferred)
      case TQSubscription => (e, if OfAnother(e, c) || OutOfOrder(e, c) then Fenced else Deferred)
      case Established => (e, if OfAnother(e, c) || OutOfOrder(e, c) then Fenced else Applied)
      case Authentication => (e, if OfAnother(e, c) || OutOfOrder(e, c) then Fenced else Applied)
      case AggregateSubscription =>
        if OfAnother(e, c) || OutOfOrder(e, c) then (e, Fenced) else Subscribed(e, c, now)
      case Lost => if OfAnother(e, c) || OutOfOrder(e, c) then (e, Fenced) else AfterLoss(e, now)
      case IngressFailure =>
        if OfAnother(e, c) || OutOfOrder(e, c) then (e, Fenced) else (AfterIngressFailure(e, now), IngressIntegrityCode)
  }

  lemma DecideControlMeans(e: Engine, c: ControlInput, now: int)
    ensures DecideControl(e, c, now) == Controlled(e, c, now)
  {
    hide Subscription, Subscribed, LoseConnection, AfterLoss, FailIngress, AfterIngressFailure, After;
    if e.session.Some? && e.epoch.active { SubscriptionMeans(e, c, now); }
    LossMeans(e, now);
    FailIngressMeans(e, now);
  }

  /** The later of two positions; nothing seen yet is before everything. */
  function Latest(seen: Position, p: Position): Position {
    if seen.epoch != 0 && !After(p, seen) then seen else p
  }

  /** Beside its effect, a control fact is remembered as the latest kind, and one that was not refused moves what
      was seen of the epoch, of the control facts and of the ingress. */
  lemma RecordMeans(e: Engine, c: ControlInput, code: Code)
    ensures var t := RecordControl(e, c, code);
            var counts := (code == Applied || code == Deferred || code == IngressIntegrityCode)
                          && c.position.epoch == e.epoch.live && c.position.frame >= 1;
            t == e.(control := Control(Some(c.kind), if counts then Latest(e.control.greatest, c.position)
                                                     else e.control.greatest, e.control.attempts),
                    epoch := e.epoch.(greatestIngress := if counts then Latest(e.epoch.greatestIngress, c.position)
                                                         else e.epoch.greatestIngress))
  {}

  // ----------------------------------------------------------------------------------------- plans and their requests

  /** With nothing open and no token yet, a generation gets the next token. */
  function Tokened(h: Hydration): Hydration {
    var g := h.generation;
    if g.open == 0 && g.fenceToken == 0 then
      h.(lastToken := 1 + h.lastToken,
         generation := Generation(g.active, g.id, g.purpose, g.epoch, g.start, g.end, 0, g.failed, 1 + h.lastToken,
                                  g.policyDecided))
    else h
  }

  /** A plan is taken in the current, acknowledged epoch with no generation in progress: a bootstrap from the start
      of the session while hydrating, the closing of a gap from the supported boundary while recovering; and only
      when that is not past the acknowledgement. */
  function PlanCode(e: Engine, purpose: Purpose, epoch: nat): Code {
    if e.session.None? then Rejected
    else if epoch != e.epoch.live || !e.epoch.active then Fenced
    else if e.hydration.generation.active || !e.epoch.acked then Rejected
    else if purpose == FreshBootstrap then
      if e.lifecycle == Hydrating && PlanInside(e, e.session.value.start) then Applied else Rejected
    else if e.lifecycle == Recovering && e.hydration.supportedT.Some? && PlanInside(e, e.hydration.supportedT.value)
    then Applied else Rejected
  }

  predicate PlanInside(e: Engine, start: int)
    requires e.session.Some?
  {
    && e.session.value.start <= start && start <= e.session.value.end
    && start <= AcknowledgementBoundary(e.epoch.ackReceivedAt, e.session.value)
  }

  lemma PlanMeans(e: Engine, purpose: Purpose, epoch: nat, requests: nat)
    ensures var (t, code) := ApplyPlan(e, purpose, epoch, requests);
            && code == PlanCode(e, purpose, epoch) && (code != Applied ==> t == e)
            && (code == Applied ==>
                  var start := if purpose == GapRecovery then e.hydration.supportedT.value else e.session.value.start;
                  var end := AcknowledgementBoundary(e.epoch.ackReceivedAt, e.session.value);
                  var g := Generation(true, e.hydration.lastGeneration + 1, purpose, epoch, start, end,
                                      if start < end then requests else 0, 0, 0, false);
                  t == e.(hydration := Tokened(e.hydration.(generation := g, fenceReconciled := false,
                                                            lastGeneration := e.hydration.lastGeneration + 1,
                                                            policyWaiting := false))))
  {
    hide AcknowledgementBoundary;
  }

  /** A request of the current generation closes, failed unless it completed; the last one to close brings the token. */
  lemma CloseMeans(e: Engine, generation: nat, completed: bool)
    ensures var (t, code) := CloseRequest(e, generation, completed);
            var g := e.hydration.generation;
            if g.active && g.id == generation && g.open > 0 then
              && code == Applied
              && t == e.(hydration := Tokened(e.hydration.(generation :=
                           Generation(true, g.id, g.purpose, g.epoch, g.start, g.end, g.open - 1,
                                      g.failed + (if completed then 0 else 1), g.fenceToken, g.policyDecided))))
            else code == Fenced && t == e
  {}

  // ---------------------------------------------------------------------------------------------------------- fences

  /** A boundary covers the epoch: no frame acknowledged or seen of it is past it, and it was captured between the
      acknowledgement and now. */
  predicate Covers(e: Engine, epoch: nat, through: nat, capturedAt: int, now: int) {
    && e.epoch.ackPosition.frame <= through && e.epoch.ackReceivedAt <= capturedAt && capturedAt <= now
    && !(e.epoch.greatestIngress.epoch == epoch && e.epoch.greatestIngress.frame > through)
  }

  /** The fence of the current generation: its token, its id and its epoch. */
  predicate OfGeneration(e: Engine, f: IngressFence) {
    var g := e.hydration.generation;
    && e.session.Some? && g.active && f.generation == g.id && f.epoch == g.epoch
    && f.token == g.fenceToken && f.token > 0
  }

  /** What an ingress fence comes to: it is taken only when it is of the current generation and of no request left open,
      later than the last of its epoch, complete, of a current and acknowledged epoch that it covers, and reaches the
      end of the generation. */
  function FenceCode(e: Engine, f: IngressFence, now: int): Code {
    var g := e.hydration.generation;
    if !OfGeneration(e, f) then Fenced
    else if g.open > 0 || (e.hydration.fenceEpoch == g.epoch && e.hydration.fenceMarker >= f.marker) then Rejected
    else if f.outcome == FenceCanceled then Rejected
    else if f.outcome == FenceFailed then IngressIntegrityCode
    else if !(e.epoch.active && e.epoch.acked && e.epoch.live == g.epoch
              && Covers(e, g.epoch, f.through, f.capturedAt, now)) then Fenced
    else if TimerTarget(f.capturedAt, e.session.value) >= g.end then Applied
    else Rejected
  }

  /** The hydration record with a fence's boundary. */
  function Bounded(h: Hydration, epoch: nat, through: nat, marker: nat): Hydration {
    h.(fenceEpoch := epoch, fenceThrough := through, fenceMarker := marker)
  }

  /** A fence broken off ends the generation: canceled, with the epoch, and failed, in containment. */
  function BrokenOff(e: Engine, outcome: FenceOutcome, now: int): Engine {
    var u := Drained(e, true);
    if outcome == FenceFailed then
      Contained(u.(hydration := u.hydration.(fenceReconciled := false)), IngressIntegrity, now)
    else
      match e.lifecycle
      case Hydrating => WithoutEpoch(u).(lifecycle := AwaitingAck, reason := EpochLost)
      case Live => WithoutEpoch(u).(lifecycle := Recovering, reason := EpochLost)
      case _ => WithoutEpoch(u)
  }

  lemma BreakOffMeans(e: Engine, f: IngressFence, now: int)
    requires f.outcome != FenceComplete
    ensures BreakOffFence(e, f, now)
         == (BrokenOff(e, f.outcome, now), if f.outcome == FenceCanceled then Rejected else IngressIntegrityCode)
  {
    hide NextLifecycle, Transition, TransitionOrStay, EnterSuppression, CancelGeneration, Drained, LoseEpoch;
    hide Contained;
    DrainMeans(e);
    DrainedRest(e, true);
    var canceled := CancelGeneration(e);
    DrainMeans(canceled);
    MoveMeans(LoseEpoch(canceled), LossEvent, now);
    ContainMeans(canceled.(hydration := canceled.hydration.(fenceReconciled := false)), now);
  }

  /** A fence taken makes the engine live and reconciled through its target, unless a recovery left symbols unknown:
      then the policy is waited for. */
  function Reconciled(e: Engine, f: IngressFence, target: int, unknown: bool): Engine {
    var g, h := e.hydration.generation, Bounded(e.hydration, f.epoch, f.through, f.marker);
    if unknown && g.purpose == GapRecovery then
      e.(hydration := h.(fenceReconciled := false, policyWaiting := true))
    else
      var done := Generation(false, g.id, g.purpose, g.epoch, g.start, g.end, g.open, g.failed, g.fenceToken,
                             g.policyDecided);
      var u := e.(hydration := h.(generation := done, fenceReconciled := true, supportedThrough := Some(target)),
                  watermark := Watermark(Some(target), e.watermark.committedT));
      if e.lifecycle in {Hydrating, Recovering} then u.(lifecycle := Live, reason := HydrationComplete) else u
  }

  lemma CompleteMeans(e: Engine, f: IngressFence, target: int, unknown: bool, now: int)
    ensures CompleteFence(e, f, target, unknown, now) == Reconciled(e, f, target, unknown)
  {
    hide NextLifecycle, Transition, TransitionOrStay;
    var g := e.hydration.generation;
    var h := FenceAt(e.hydration, f).(generation := g.(active := false), fenceReconciled := true,
                                      supportedThrough := Some(target));
    MoveMeans(e.(hydration := h, watermark := e.watermark.(latestTarget := Some(target))), HydrationCompleteEvent, now);
  }

  /** What an ingress fence leaves. */
  function AfterFence(e: Engine, f: IngressFence, unknown: bool, now: int): Engine {
    var g := e.hydration.generation;
    if !OfGeneration(e, f) || g.open > 0 || (e.hydration.fenceEpoch == g.epoch && e.hydration.fenceMarker >= f.marker)
    then e
    else if f.outcome != FenceComplete then BrokenOff(e, f.outcome, now)
    else if FenceCode(e, f, now) == Applied then Reconciled(e, f, TimerTarget(f.capturedAt, e.session.value), unknown)
    else e
  }

  lemma IngressFenceMeans(e: Engine, f: IngressFence, unknown: bool, now: int)
    ensures ApplyIngressFence(e, f, unknown, now) == (AfterFence(e, f, unknown, now), FenceCode(e, f, now))
  {
    hide BreakOffFence, BrokenOff, CompleteFence, Reconciled, TimerTarget;
    if f.outcome != FenceComplete { BreakOffMeans(e, f, now); }
    if e.session.Some? { CompleteMeans(e, f, TimerTarget(f.capturedAt, e.session.value), unknown, now); }
  }

  // --------------------------------------------------------------------------------------------- the recovery's policy

  /** A decision is taken once for the current generation of a recovery, under a new token; to retry or to give up, only
      when nothing is open and something failed. */
  predicate Decides(e: Engine, action: PolicyAction, epoch: nat, generation: nat, token: nat) {
    var g := e.hydration.generation;
    && e.session.Some? && e.lifecycle == Recovering && g.active && !g.policyDecided
    && g.epoch == epoch && g.id == generation && e.hydration.lastPolicyToken < token
    && (action in {CancelAction, StopAction} || (g.open == 0 && g.failed >= 1))
  }

  /** The generation is over and decided, whatever the decision; a cancellation gives up the epoch and waits for another
      decision, giving up contains the engine, and stopping ends it. */
  lemma PolicyMeans(e: Engine, action: PolicyAction, epoch: nat, generation: nat, token: nat, now: int)
    ensures var (t, code) := ApplyPolicy(e, action, epoch, generation, token, now);
            var g := e.hydration.generation;
            var over := e.(hydration := e.hydration.(lastPolicyToken := token, policyWaiting := action == CancelAction,
                             generation := Generation(false, g.id, g.purpose, g.epoch, g.start, g.end, 0,
                                                      g.open + g.failed, g.fenceToken, true)));
            if !Decides(e, action, epoch, generation, token) then t == e && code == Rejected
            else
              && code == (if action == Exhaust then IngressIntegrityCode else Applied)
              && t == match action
                      case Retry => over
                      case CancelAction =>
                        over.(epoch := Epoch(e.epoch.live, false, 0, false, Nowhere, 0, e.epoch.greatestIngress))
                      case Exhaust => Contained(over, RecoveryExhausted, now)
                      case StopAction => over.(lifecycle := Ended, reason := ControlledStop)
  {
    hide NextLifecycle, Transition, TransitionOrStay, EnterSuppression, Contained;
    var g := e.hydration.generation;
    var decided := e.(hydration := e.hydration.(lastPolicyToken := token, policyWaiting := false,
                                                generation := g.(policyDecided := true)));
    DrainMeans(decided);
    ContainMeans(CancelGeneration(decided), now);
    MoveMeans(CancelGeneration(decided), StopEvent, now);
  }

  // --------------------------------------------------------------------------------------------------- live coverage

  /** A coverage fence is asked for only of a live engine, current, acknowledged and reconciled, with a boundary, no
      generation in progress and no fence outstanding. */
  lemma IssueCoverageMeans(e: Engine)
    ensures var t := IssueCoverageFence(e);
            t == if e.session.Some? && e.lifecycle == Live && e.epoch.active && e.epoch.acked
                    && e.hydration.fenceReconciled && e.hydration.supportedThrough.Some?
                    && !e.hydration.generation.active && e.coverage.outstanding.None?
                 then e.(coverage := Coverage(1 + e.coverage.lastToken,
                                              Some((e.epoch.live, 1 + e.coverage.lastToken))))
                 else e
  {}

  /** It is taken from a live, current and acknowledged engine with no generation in progress, when it covers the epoch
      past the last fence, and never moves the boundary back. */
  function CoverageCode(e: Engine, f: CoverageFence, now: int): Code {
    if e.session.None? || e.coverage.outstanding != Some((e.epoch.live, f.token)) || f.epoch != e.epoch.live then Fenced
    else if !f.complete then Rejected
    else if !(e.lifecycle == Live && e.epoch.active && e.epoch.acked && !e.hydration.generation.active
              && Covers(e, f.epoch, f.through, f.capturedAt, now) && e.hydration.fenceMarker < f.marker) then Fenced
    else if e.hydration.supportedThrough.Some?
            && TimerTarget(f.capturedAt, e.session.value) < e.hydration.supportedThrough.value then Rejected
    else Applied
  }

  lemma CoverageMeans(e: Engine, f: CoverageFence, now: int)
    ensures var (t, code) := ApplyCoverageFence(e, f, now);
            var mine := e.session.Some? && f.epoch == e.epoch.live
                        && e.coverage.outstanding == Some((f.epoch, f.token));
            && code == CoverageCode(e, f, now)
            && t.coverage == Coverage(e.coverage.lastToken, if mine then None else e.coverage.outstanding)
            && (code != Applied ==> t == e.(coverage := t.coverage))
            && (code == Applied ==>
                  var target := TimerTarget(f.capturedAt, e.session.value);
                  t == e.(coverage := t.coverage, watermark := Watermark(Some(target), e.watermark.committedT),
                          hydration := Bounded(e.hydration, e.epoch.live, f.through, f.marker)
                                         .(supportedThrough := Some(target), fenceReconciled := true)))
  {
    hide TimerTarget;
  }

  // ------------------------------------------------------------------------------------------------- time and recovery

  /** A timer is taken in every state but before a binding and after the end; the target is the delayed second, and the
      end of the session ends the engine and its generation. */
  lemma TimerMeans(e: Engine, now: int)
    ensures var (t, code) := ApplyTimer(e, now);
            if e.session.None? || OnTimer(e, now).None? then t == e && code == Rejected
            else
              && code == Applied
              && (var to := OnTimer(e, now).value;
                  var m := MovedTo(e, to.0, to.1);
                  t == (if to.0 == Ended then Drained(m, true) else m)
                         .(watermark := Watermark(Some(TimerTarget(now, e.session.value)), e.watermark.committedT)))
  {
    hide NextLifecycle, Transition, TransitionOrStay, TimerTarget, OnTimer;
    MoveMeans(e, TimerEvent, now);
    if Leads(e, TimerEvent, now).Some? {
      DrainMeans(MovedTo(e, Leads(e, TimerEvent, now).value.0, Leads(e, TimerEvent, now).value.1));
    }
  }

  /** A recovery may run between epochs: while waiting for one, or suppressed for a cause it can recover from. */
  predicate Recoverable(e: Engine) {
    match e.lifecycle
    case Suppressed => e.suppression == Some(SameBindingRecovery)
    case AwaitingSession => !e.epoch.active
    case AwaitingAck => !e.epoch.active
    case Recovering => !e.epoch.active
    case _ => false
  }

  lemma IssueRecoveryMeans(e: Engine)
    ensures IssueRecovery(e)
         == if Recoverable(e) && e.recovery.pending.Some? then e.(recovery := Recovery(e.recovery.pending, true))
            else e
  {
    if e.recovery.pending.Some? && e.recovery.dispatched {
      assert e.recovery == Recovery(e.recovery.pending, true);
    }
  }

  /** The recovery handed over, of the epoch that failed, is taken when it is due, and leaves a suppression. */
  lemma RecoveryMeans(e: Engine, command: RecoveryCommand, now: int)
    ensures var (t, code) := ApplyScheduledRecovery(e, command, now);
            var mine := e.session.Some? && Recoverable(e) && e.recovery == Recovery(Some(command), true)
                        && command.failedEpoch == e.epoch.live;
            if !mine then t == e && code == Fenced
            else if now < command.earliestAt then t == e && code == Rejected
            else if e.lifecycle != Suppressed then t == e.(recovery := Recovery(None, false)) && code == Applied
            else if e.epoch.active then t == e.(recovery := Recovery(None, false)) && code == Rejected
            else
              && code == Applied
              && t == e.(recovery := Recovery(None, false), lifecycle := Recovering, reason := ScheduledRecovery,
                         suppression := None)
  {
    hide NextLifecycle, Transition;
    MoveMeans(e.(recovery := Recovery(None, false)), ScheduledRecoveryEvent, now);
  }

  /** Recovery is given up on the evidence of a loss or a fault of ingress, between epochs, with no generation in
      progress and for the attempts that were made. */
  lemma ExhaustionMeans(e: Engine, attempts: nat, now: int)
    ensures var (t, code) := ApplyExhaustion(e, attempts, now);
            if && e.session.Some? && !e.epoch.active && !e.hydration.generation.active
               && attempts > 0 && attempts == e.control.attempts
               && (e.lifecycle in {AwaitingSession, AwaitingAck, Recovering}
                   || (e.lifecycle == Suppressed && e.suppression == Some(SameBindingRecovery)))
               && (e.control.latestKind in {Some(Lost), Some(IngressFailure)}
                   || (e.lifecycle == Suppressed && e.reason == IngressIntegrity))
            then t == Contained(e.(recovery := Recovery(None, false)), RecoveryExhausted, now)
                 && code == IngressIntegrityCode
            else t == e && code == Rejected
  {
    hide EnterSuppression, Contained;
    ContainMeans(e.(recovery := Recovery(None, false)), now);
  }

  /** A live aggregate moves what was seen of its epoch, whatever becomes of it; a clash contains a streaming engine
      of an acknowledged epoch. */
  lemma AggregateMeans(e: Engine, position: Position, clash: bool, now: int)
    ensures var t := ApplyAggregate(e, position, clash, now);
            var seen := if position.epoch == e.epoch.live && position.frame >= 1
                        then e.(epoch := e.epoch.(greatestIngress := Latest(e.epoch.greatestIngress, position))) else e;
            t == if clash && e.epoch.acked && e.epoch.active && e.lifecycle in {Hydrating, Live, Recovering}
                 then Contained(seen.(aggregateIntegrity := true), CanonicalIntegrity, now) else seen
  {
    hide EnterSuppression, Contained;
    var seen := if position.epoch == e.epoch.live && position.frame > 0
                   && (e.epoch.greatestIngress.epoch == 0 || After(position, e.epoch.greatestIngress))
                then e.(epoch := e.epoch.(greatestIngress := position)) else e;
    ContainMeans(seen.(aggregateIntegrity := true), now);
  }

  // ------------------------------------------------------------------------------------------------------ the others

  /** A binding is taken once, and places the engine before, inside or after the session; a stop ends it and its
      generation; raw loss of ingress concerns a current epoch only; and a fault of the hydration accounting fails the
      engine with the generation left as it is, its open requests closed. */
  lemma OthersMean(e: Engine, session: Session, now: int)
    ensures Apply(e, BindingInput(session), now)
         == if e.session.Some? || e.lifecycle != Initializing then (e, Rejected)
            else (e.(session := Some(session),
                     lifecycle := if now < session.start then AwaitingSession
                                  else if now < session.end then AwaitingAck else Ended,
                     reason := if now < session.start then BindingBeforeSession
                               else if now < session.end then BindingInSession else BindingAfterSession), Applied)
    ensures Apply(e, StopInput, now)
         == (MovedTo(Drained(e, true), Ended, ControlledStop), Applied)
    ensures Apply(e, OperationalIngressInput, now)
         == if e.session.Some? && e.epoch.active then (AfterIngressFailure(e, now), IngressIntegrityCode)
            else (e, Fenced)
    ensures Apply(e, HydrationFaultInput, now)
         == if e.hydration.generation.active
            then (Contained(Drained(e, false), AccountingIntegrity, now), AccountingCode) else (e, Fenced)
  {
    hide NextLifecycle, Transition, TransitionOrStay, EnterSuppression, Contained, FailIngress, AfterIngressFailure;
    hide CancelGeneration, CloseRequests, Drained;
    DrainMeans(e);
    FailIngressMeans(e, now);
    ContainMeans(CloseRequests(e), now);
    MoveMeans(e.(session := Some(session)), BindingEvent, now);
    MoveMeans(CancelGeneration(e), StopEvent, now);
  }

  /** Every other input is the operation of its name. */
  lemma InputsMean(e: Engine, input: Input, now: int)
    requires !input.BindingInput? && !input.StopInput? && !input.OperationalIngressInput? && !input.HydrationFaultInput?
    ensures Apply(e, input, now)
         == match input
            case TimerInput => ApplyTimer(e, now)
            case ControlFact(c) => (RecordControl(Controlled(e, c, now).0, c, Controlled(e, c, now).1), Applied)
            case ExhaustionInput(attempts) => ApplyExhaustion(e, attempts, now)
            case RecoveryInput(command) => ApplyScheduledRecovery(e, command, now)
            case IssueRecoveryInput => (IssueRecovery(e), Applied)
            case AggregateInput(position, clash) =>
              if e.session.Some? then (ApplyAggregate(e, position, clash, now), Applied) else (e, Rejected)
            case PlanInput(purpose, epoch, requests) => ApplyPlan(e, purpose, epoch, requests)
            case TerminalInput(generation, completed) => CloseRequest(e, generation, completed)
            case IngressFenceInput(f, unknown) => (AfterFence(e, f, unknown, now), FenceCode(e, f, now))
            case PolicyInput(action, epoch, generation, token) => ApplyPolicy(e, action, epoch, generation, token, now)
            case IssueCoverageInput => (IssueCoverageFence(e), Applied)
            case CoverageFenceInput(f) => ApplyCoverageFence(e, f, now)
            case _ => (e, Rejected)
  {
    hide ApplyTimer, ApplyExhaustion, ApplyScheduledRecovery, IssueRecovery, ApplyAggregate, ApplyPlan, CloseRequest;
    hide ApplyPolicy, IssueCoverageFence, ApplyCoverageFence, ApplyIngressFence, AfterFence, FenceCode, DecideControl;
    hide Controlled, RecordControl;
    if input.ControlFact? { DecideControlMeans(e, input.control, now); }
    if input.IngressFenceInput? { IngressFenceMeans(e, input.fence, input.unknown, now); }
  }

  // ------------------------------------------------------------------------------------------------------- committing

  /** A target may be committed when it is not behind the watermark, the clock never went back and no values
      clashed; and, unless it is the watermark again, when the current epoch is acknowledged, reconciled past its
      acknowledgement, and supported that far. */
  predicate Committable(e: Engine, target: int) {
    && e.session.Some? && e.clockMonotonic && !e.aggregateIntegrity
    && (e.watermark.committedT.None? || e.watermark.committedT.value <= target)
    && (e.watermark.committedT == Some(target)
        || (&& e.epoch.active && e.epoch.acked && e.epoch.live > 0 && e.hydration.fenceReconciled
            && e.hydration.fenceEpoch == e.epoch.live && e.epoch.ackPosition.frame <= e.hydration.fenceThrough
            && e.hydration.supportedThrough.Some? && target <= e.hydration.supportedThrough.value))
  }

  /** The latest target if it may be committed, or else the watermark again. */
  function Chosen(e: Engine): Option<int> {
    var w := e.watermark;
    if w.latestTarget.Some? && Committable(e, w.latestTarget.value) then w.latestTarget
    else if w.committedT.Some? && Committable(e, w.committedT.value) then w.committedT
    else None
  }

  /** Only a timer or a fence that was taken is evaluated, in an engine that has not failed and with something to
      commit; an evaluation that does not validate fails the engine, and one that does commits its target. After an
      ingress fence the recovery is over, and its attempts are forgotten. */
  lemma EvaluateMeans(e: Engine, input: Input, code: Code, evaluation: Evaluation, now: int)
    ensures var t := Evaluate(e, input, code, evaluation, now);
            if !(input.TimerInput? || input.IngressFenceInput? || input.CoverageFenceInput?) || code != Applied
               || e.globalFailure || Chosen(e).None? || evaluation == Skip then t == e
            else if evaluation == Fault then t == Contained(e, AccountingIntegrity, now)
            else
              var committed := e.(watermark := Watermark(e.watermark.latestTarget, Chosen(e)));
              t == if input.IngressFenceInput?
                   then committed.(control := Control(e.control.latestKind, e.control.greatest, 0),
                                   recovery := Recovery(None, false))
                   else committed
  {
    hide EnterSuppression, Contained;
    ContainMeans(e, now);
  }

  /** Nothing moves an engine that has ended or failed; a clock that went back fails it; and every other event is its
      input and then its evaluation. */
  lemma StepMeans(e: Engine, event: Event)
    ensures Step(e, event)
         == if e.globalFailure || e.lifecycle == Ended then e
            else if event.clockRegression then Contained(e.(clockMonotonic := false), ClockRegression, event.now)
            else
              var (t, code) := Apply(e, event.input, event.now);
              Evaluate(t, event.input, code, event.evaluation, event.now)
  {
    hide EnterSuppression, Contained, Apply, Evaluate;
    ContainMeans(e.(clockMonotonic := false), event.now);
  }
}
