/** Where targets come from: a target is the last whole second that was over, with the delay, at a clock reading the
    engine consumed. So neither support nor the committed watermark is ever ahead of the clock less the delay. */
module WatermarkBounds {
  import opened Options
  import opened SessionUnits
  import opened LivePositions
  import opened EngineLifecycle
  import R = LifecycleRuns

  /** The greatest whole second no later than a time. */
  predicate LastSecond(second: int, at: int) {
    second % SECOND == 0 && second <= at < second + SECOND
  }

  /** The least whole second no earlier than a time. */
  predicate NextSecond(second: int, at: int) {
    second % SECOND == 0 && second - SECOND < at <= second
  }

  predicate Clamped(target: int, second: int, s: Session) {
    if second <= s.start then target == s.start
    else if second >= s.end then target == s.end
    else target == second
  }

  /** The target of a clock reading: the last whole second the delay behind it, kept inside the session. */
  ghost predicate Due(target: int, clock: int, s: Session) {
    exists second :: LastSecond(second, clock - s.delay) && Clamped(target, second, s)
  }

  lemma Truncates(at: int)
    ensures LastSecond(TruncateToSecond(at), at)
  {}

  lemma LastSecondUnique(a: int, b: int, at: int)
    requires LastSecond(a, at) && LastSecond(b, at)
    ensures a == b
  {
    assert a / SECOND == at / SECOND == b / SECOND;
  }

  lemma TargetIsDue(now: int, s: Session)
    ensures Due(TimerTarget(now, s), now, s)
    ensures forall target :: Due(target, now, s) ==> target == TimerTarget(now, s)
  {
    var second := TruncateToSecond(now - s.delay);
    Truncates(now - s.delay);
    assert LastSecond(second, now - s.delay) && Clamped(TimerTarget(now, s), second, s);
    forall target | Due(target, now, s) ensures target == TimerTarget(now, s) {
      var other :| LastSecond(other, now - s.delay) && Clamped(target, other, s);
      LastSecondUnique(second, other, now - s.delay);
    }
  }

  /** Between the clamps the target is a whole second, over by the delay and by less than a second more. */
  lemma BetweenClamps(now: int, s: Session)
    ensures var target := TimerTarget(now, s);
            s.start < target < s.end ==> target % SECOND == 0 && target <= now - s.delay < target + SECOND
    ensures s.start <= s.end ==> s.start <= TimerTarget(now, s) <= s.end
    ensures TimerTarget(now, s) <= s.start || TimerTarget(now, s) <= now - s.delay
  {
    Truncates(now - s.delay);
  }

  /** A hydration asks for everything before the first whole second at or after the acknowledgement. */
  lemma BoundaryMeans(receivedAt: int, s: Session)
    requires s.start <= s.end
    ensures exists second :: NextSecond(second, receivedAt)
              && AcknowledgementBoundary(receivedAt, s) == if second < s.start then s.start
                                                           else if second > s.end then s.end else second
  {
    var down := TruncateToSecond(receivedAt);
    Truncates(receivedAt);
    assert NextSecond(if receivedAt > down then down + SECOND else down, receivedAt);
  }

  // ------------------------------------------------------------------------------------------------ over every run

  /** Not ahead of a clock reading less the delay, unless it is the session's start. */
  predicate Behind(target: Option<int>, clock: int, s: Session) {
    target.Some? ==> target.value <= s.start || target.value <= clock - s.delay
  }

  /** No target of the engine is ahead of the clock; without a session there is none. */
  ghost predicate NotAhead(e: Engine, clock: int) {
    var w, h := e.watermark, e.hydration;
    if e.session.None? then
      w.latestTarget == None && w.committedT == None && h.supportedThrough == None && h.supportedT == None
    else
      var s := e.session.value;
      && Behind(w.latestTarget, clock, s) && Behind(w.committedT, clock, s)
      && Behind(h.supportedThrough, clock, s) && Behind(h.supportedT, clock, s)
  }

  ghost predicate SameTargets(e: Engine, t: Engine) {
    && t.session == e.session && t.watermark == e.watermark
    && t.hydration.supportedThrough == e.hydration.supportedThrough
    && (t.hydration.supportedT == e.hydration.supportedT || t.hydration.supportedT == e.watermark.committedT)
  }

  lemma SuppressionSame(e: Engine, event: LifecycleEvent, reason: Reason, now: int)
    ensures SameTargets(e, EnterSuppression(e, event, reason, now))
  {}

  lemma LossSame(e: Engine, now: int)
    ensures SameTargets(e, LoseConnection(e, now).0)
  {}

  lemma SubscriptionSame(e: Engine, c: ControlInput, now: int)
    ensures SameTargets(e, Subscription(e, c, now).0)
  {}

  lemma ControlSame(e: Engine, c: ControlInput, now: int)
    ensures SameTargets(e, ApplyControl(e, c, now))
  {
    hide LoseConnection, Subscription, FailIngress;
    LossSame(e, now);
    SubscriptionSame(e, c, now);
    FailIngressSame(e, now);
  }

  /** A timer's target is due at its own time, and nothing else of the targets moves. */
  lemma TimerTargets(e: Engine, now: int)
    ensures var (t, code) := ApplyTimer(e, now);
            if code != Applied then t == e
            else
              && e.session.Some? && t.watermark == e.watermark.(latestTarget := t.watermark.latestTarget)
              && t.watermark.latestTarget.Some? && Due(t.watermark.latestTarget.value, now, e.session.value)
              && SameTargets(e, t.(watermark := e.watermark))
  {
    if e.session.Some? { TargetIsDue(now, e.session.value); }
  }

  /** An accepted ingress fence supports what was due when it was captured, unless a policy has to decide first. */
  lemma IngressTargets(e: Engine, f: IngressFence, unknown: bool, now: int)
    ensures var (t, code) := ApplyIngressFence(e, f, unknown, now);
            if code == Applied && t.hydration.fenceReconciled then
              && e.session.Some? && f.capturedAt <= now
              && t.hydration.supportedThrough.Some? && t.watermark.latestTarget == t.hydration.supportedThrough
              && Due(t.hydration.supportedThrough.value, f.capturedAt, e.session.value)
              && t.session == e.session && t.watermark.committedT == e.watermark.committedT
              && t.hydration.supportedT == e.hydration.supportedT
            else SameTargets(e, t)
  {
    if e.session.Some? { TargetIsDue(f.capturedAt, e.session.value); }
  }

  /** So does an accepted coverage fence. */
  lemma CoverageTargets(e: Engine, f: CoverageFence, now: int)
    ensures var (t, code) := ApplyCoverageFence(e, f, now);
            if code == Applied then
              && e.session.Some? && f.capturedAt <= now
              && t.hydration.supportedThrough.Some? && t.watermark.latestTarget == t.hydration.supportedThrough
              && Due(t.hydration.supportedThrough.value, f.capturedAt, e.session.value)
              && t.session == e.session && t.watermark.committedT == e.watermark.committedT
              && t.hydration.supportedT == e.hydration.supportedT
            else SameTargets(e, t)
  {
    if e.session.Some? { TargetIsDue(f.capturedAt, e.session.value); }
  }

  lemma DueBehind(target: int, clock: int, s: Session)
    requires Due(target, clock, s)
    ensures Behind(Some(target), clock, s)
  {}

  lemma SameStays(e: Engine, t: Engine, clock: int)
    requires NotAhead(e, clock) && SameTargets(e, t)
    ensures NotAhead(t, clock)
  {}

  /** Time passing keeps every target behind. */
  lemma LaterStays(e: Engine, clock: int, now: int)
    requires NotAhead(e, clock) && clock <= now
    ensures NotAhead(e, now)
  {}

  /** Every input but the three that set targets, and the binding of a session, leaves them alone. */
  lemma OthersSame(e: Engine, input: Input, now: int)
    requires !input.TimerInput? && !input.IngressFenceInput? && !input.CoverageFenceInput? && !input.BindingInput?
    ensures SameTargets(e, Apply(e, input, now).0)
  {
    hide ApplyControl, EnterSuppression;
    match input
    case ControlFact(control) => ControlSame(e, control, now);
    case ExhaustionInput(attempts) =>
      SuppressionSame(e.(recovery := Recovery(None, false)), IngressEvent(RecoveryExhausted), RecoveryExhausted, now);
    case OperationalIngressInput => FailIngressSame(e, now);
    case AggregateInput(position, clash) => AggregateSame(e, position, clash, now);
    case HydrationFaultInput =>
      SuppressionSame(CloseRequests(e), AccountingEvent, AccountingIntegrity, now);
    case PolicyInput(action, epoch, generation, token) => PolicySame(e, action, epoch, generation, token, now);
    case _ =>
  }

  lemma FailIngressSame(e: Engine, now: int)
    ensures SameTargets(e, FailIngress(e, now))
  {}

  lemma AggregateSame(e: Engine, position: Position, clash: bool, now: int)
    ensures SameTargets(e, ApplyAggregate(e, position, clash, now))
  {}

  lemma PolicySame(e: Engine, action: PolicyAction, epoch: nat, generation: nat, token: nat, now: int)
    ensures SameTargets(e, ApplyPolicy(e, action, epoch, generation, token, now).0)
  {}

  lemma ApplyNotAhead(e: Engine, input: Input, now: int, clock: int)
    requires NotAhead(e, clock) && now <= clock
    ensures NotAhead(Apply(e, input, now).0, clock)
  {
    hide ApplyTimer, ApplyIngressFence, ApplyCoverageFence, Due;
    match input {
      case TimerInput => {
        TimerTargets(e, now);
        var t := ApplyTimer(e, now).0;
        if ApplyTimer(e, now).1 == Applied { DueBehind(t.watermark.latestTarget.value, now, e.session.value); }
      }
      case IngressFenceInput(fence, unknown) => {
        IngressTargets(e, fence, unknown, now);
        var (t, code) := ApplyIngressFence(e, fence, unknown, now);
        if code == Applied && t.hydration.fenceReconciled {
          DueBehind(t.hydration.supportedThrough.value, fence.capturedAt, e.session.value);
        } else {
          SameStays(e, t, clock);
        }
      }
      case CoverageFenceInput(fence) => {
        CoverageTargets(e, fence, now);
        var (t, code) := ApplyCoverageFence(e, fence, now);
        if code == Applied {
          DueBehind(t.hydration.supportedThrough.value, fence.capturedAt, e.session.value);
        } else {
          SameStays(e, t, clock);
        }
      }
      case BindingInput(session) => {}
      case _ => {
        OthersSame(e, input, now);
        SameStays(e, Apply(e, input, now).0, clock);
      }
    }
  }

  lemma EvaluateNotAhead(e: Engine, input: Input, code: Code, evaluation: Evaluation, now: int, clock: int)
    requires NotAhead(e, clock)
    ensures NotAhead(Evaluate(e, input, code, evaluation, now), clock)
  {
    SuppressionSame(e, AccountingEvent, AccountingIntegrity, now);
  }

  lemma StepNotAhead(e: Engine, event: Event, clock: int)
    requires NotAhead(e, clock) && event.now <= clock
    ensures NotAhead(Step(e, event), clock)
  {
    hide Apply, Evaluate, EnterSuppression;
    SuppressionSame(e.(clockMonotonic := false), ClockRegressionEvent, ClockRegression, event.now);
    ApplyNotAhead(e, event.input, event.now, clock);
    var applied := Apply(e, event.input, event.now);
    EvaluateNotAhead(applied.0, event.input, applied.1, event.evaluation, event.now, clock);
  }

  /** The greatest engine time a run has consumed. */
  function Greatest(events: seq<Event>): int
    requires events != []
  {
    if |events| == 1 then events[0].now
    else
      var before := Greatest(events[..|events| - 1]);
      if events[|events| - 1].now > before then events[|events| - 1].now else before
  }

  /** Over every run the committed watermark, the support and every target stay at or below the session's start or the
      greatest time consumed less the delay. */
  lemma {:induction false} NeverAhead(events: seq<Event>)
    requires events != []
    ensures NotAhead(R.Run(Start, events), Greatest(events))
    decreases |events|
  {
    hide Step;
    var rest, last, g := events[..|events| - 1], events[|events| - 1], Greatest(events);
    if rest != [] {
      NeverAhead(rest);
      LaterStays(R.Run(Start, rest), Greatest(rest), g);
    } else {
      assert R.Run(Start, rest) == Start;
    }
    StepNotAhead(R.Run(Start, rest), last, g);
  }
}
