/** When a symbol is marked as contradicted: over every run, exactly when a trade since the symbol's last renewal said
    something else than the trade remembered under its identity; and so only when two of its trades did not agree. */
module TQRepeats {
  import opened Options
  import opened SessionUnits
  import P = LivePositions
  import opened TQModel
  import opened TQRuns
  import opened TQWire
  import opened TQMeaning
  import opened TQCommandsMeaning

  // -------------------------------------------------------------------------------------------------------- one step

  /** The event is a trade of the symbol, heard and in time. */
  predicate Trades(s: TQ, e: Event, x: nat) {
    && e.TradeEvent? && e.trade.symbol == x && Heard(s, e.current, x, TradeFamily, e.trade.at)
    && Timely(e.clock, e.trade.event)
  }

  /** It says something else than the trade first received under its identity within the last thirty seconds. */
  predicate Contradicts(s: TQ, e: Event, x: nat) {
    && Trades(s, e, x) && e.trade.identity in s.members[x].held.prints
    && (var first := s.members[x].held.prints[e.trade.identity];
        e.now - first.receipt <= 30 * SECOND && first.value != e.trade.value)
  }

  /** The symbol starts again: with its connection, or with a write that removes it or takes it on. */
  predicate Renews(s: TQ, e: Event, x: nat) {
    match e
    case ResultEvent(current, c, _, succeeded) =>
      && Answers(s, current, c) && succeeded && x in c.symbols && (c.action == Subscribe ==> !Unwelcome(s, x))
    case ReconcileEvent(w, _) => w.epoch != s.epoch
    case _ => false
  }

  function MarkOf(m: Option<Member>): bool {
    m.Some? && m.value.unequalRepeat
  }

  function PrintsOf(m: Option<Member>): map<nat, Print> {
    if m.Some? then m.value.held.prints else map[]
  }

  ghost predicate Within(a: map<nat, Print>, b: map<nat, Print>) {
    forall k :: k in b ==> k in a && a[k] == b[k]
  }

  /** The mark is as it was, and nothing is remembered that was not. */
  ghost predicate Carries(a: Option<Member>, b: Option<Member>) {
    b.Some? ==> MarkOf(b) == MarkOf(a) && Within(PrintsOf(a), PrintsOf(b))
  }

  lemma ShutCarries(a: Option<Member>)
    ensures Carries(a, Shut(a)) && Carries(a, EmptiedIf(a)) && Carries(a, Shut(EmptiedIf(a)))
  {}

  lemma CarriesThen(a: Option<Member>, b: Option<Member>, c: Option<Member>)
    requires Carries(a, b) && Carries(b, c) && (c.Some? ==> b.Some?)
    ensures Carries(a, c)
  {}

  lemma PruneCarries(s: TQ, n: nat, target: int, now: int, x: nat)
    ensures Carries(Lookup(s.members, x), Lookup(Prune(s, n, target, now).members, x))
    ensures x in Prune(s, n, target, now).members <==> x in s.members
  {
    PruneMeans(s, n, target, now, x);
  }

  lemma FailingCarries(s: TQ, action: Action, symbols: set<nat>, x: nat)
    ensures Carries(Lookup(s.members, x), AfterFailing(s, action, symbols, x))
  {}

  lemma ResultCarries(s: TQ, e: Event, limits: Limits, n: nat, x: nat)
    requires e.ResultEvent? && x < n && !Renews(s, e, x)
    ensures Carries(Lookup(s.members, x), Lookup(Step(s, e, limits, n).members, x))
  {
    hide ApplyResult, ShutOff, Failed;
    ResultMeans(s, e.current, e.command, e.boundary, e.succeeded, n, x);
    var f := AfterFailing(s, e.command.action, e.command.symbols, x);
    FailingCarries(s, e.command.action, e.command.symbols, x);
    ShutCarries(f);
    CarriesThen(Lookup(s.members, x), f, Shut(f));
  }

  lemma ControlErrorCarries(s: TQ, e: Event, limits: Limits, n: nat, x: nat)
    requires e.ControlErrorEvent? && x < n && Counted(s)
    ensures Carries(Lookup(s.members, x), Lookup(Step(s, e, limits, n).members, x))
  {
    hide ApplyControlError, ShutOff, AfterFailing, Emptied;
    ControlErrorMeans(s, e.current, e.position, n, x);
    var base := if s.pending.None? then Lookup(s.members, x)
                else AfterFailing(s, s.pending.value.action, s.pending.value.symbols, x);
    if s.pending.Some? { FailingCarries(s, s.pending.value.action, s.pending.value.symbols, x); }
    ShutCarries(base);
    CarriesThen(Lookup(s.members, x), base, Shut(EmptiedIf(base)));
  }

  /** Settling makes at most a new member, and only of a symbol that is wanted. */
  lemma SettleCarries(d: TQ, n: nat, x: nat)
    requires WireBounded(d) && d.pending.None? && x < n
    ensures Carries(Lookup(d.members, x), Lookup(Settle(d, n).members, x))
    ensures x !in d.members && x !in d.wish.desired ==> x !in Settle(d, n).members
  {
    hide Settle, WireBounded;
    SettledMembers(d, n, x);
    OwedHeld(d, x);
  }

  lemma LetGoCarries(p: TQ, x: nat)
    ensures Carries(Lookup(p.members, x), LetGo(p, x))
    ensures LetGo(p, x).None? ==> x !in p.members || x !in p.wish.desired
  {}

  lemma TidiedCarries(s: TQ, e: Surroundings, cadence: bool, n: nat, x: nat)
    requires x < n
    ensures var c, d := Renewed(s, e, cadence), Tidied(s, e, cadence, n);
            && Carries(Lookup(c.members, x), Lookup(d.members, x))
            && (x in c.members && x !in d.members ==> x !in d.wish.desired)
  {
    hide Renewed, Prune, DropUnwanted, LetGo;
    var c := Renewed(s, e, cadence);
    var p := Prune(c, n, e.target, e.now);
    PruneCarries(c, n, e.target, e.now, x);
    DropUnwantedMeans(p, n, x);
    DropKeepsWish(p, n);
    LetGoCarries(p, x);
  }

  lemma ReconcileShape(s: TQ, w: Surroundings, cadence: bool, n: nat)
    requires WireBounded(s)
    ensures var d, t := Tidied(s, w, cadence, n), Reconcile(s, w, cadence, n);
            WireBounded(d) && (t == d || (d.pending.None? && t == Settle(d, n)))
  {
    hide Settle, Renewed, Prune, DropUnwanted, WireBounded;
    RenewedBounded(s, w, cadence);
    var c := Renewed(s, w, cadence);
    BoundedSound(c);
    PrunedCalm(c, n, w.target, w.now);
    CalmBounded(c, Tidied(s, w, cadence, n));
  }

  lemma BoundedSound(s: TQ)
    requires WireBounded(s)
    ensures WireSound(s.members)
  {}

  lemma ReconcileCarries(s: TQ, e: Event, limits: Limits, n: nat, x: nat)
    requires WireBounded(s) && e.ReconcileEvent? && x < n && !Renews(s, e, x)
    ensures Carries(Lookup(s.members, x), Lookup(Step(s, e, limits, n).members, x))
  {
    hide Renewed, Settle, Tidied, Reconcile, WireBounded;
    var w, cadence := e.surroundings, e.cadence;
    var c, d, t := Renewed(s, w, cadence), Tidied(s, w, cadence, n), Reconcile(s, w, cadence, n);
    RenewedMeans(s, w, cadence);
    TidiedCarries(s, w, cadence, n, x);
    ReconcileShape(s, w, cadence, n);
    if t != d { SettleCarries(d, n, x); }
  }

  // ---------------------------------------------------------------------------------------- the facts, and every step

  /** What a trade leaves, read as a mark and what is remembered. */
  lemma TradeProjects(p: TQ, t: TQ, v: TradeFact, clock: Clock, limits: Limits, o: Outcome, y: nat)
    requires TradeLeaves(p, t, v, clock, limits, o) && y in t.members && o != ShedOnTheWay
    ensures y in p.members
    ensures t.members[y].unequalRepeat
       <==> p.members[y].unequalRepeat || (y == v.symbol && o == TurnedAway && Timely(clock, v.event))
    ensures forall k :: k in t.members[y].held.prints ==>
              || (k in p.members[y].held.prints && t.members[y].held.prints[k] == p.members[y].held.prints[k])
              || (y == v.symbol && o == TakenIn && k == v.identity
                  && t.members[y].held.prints[k] == Print(v.value, v.receipt))
  {
    hide Opening, Timely, RoomFor;
    if v.symbol in p.members { OpeningKeeps(p.members[v.symbol], TradeFamily, v.at); }
  }

  /** A pruning does not change whom a fact is heard by. */
  lemma HeardPruned(s: TQ, p: TQ, current: bool, x: nat, f: Family, at: P.Position)
    requires p.wish == s.wish && (x in p.members <==> x in s.members)
    requires x in s.members ==> p.members[x].wire == s.members[x].wire && p.members[x].trade == s.members[x].trade
                                && p.members[x].quote == s.members[x].quote
    ensures Heard(p, current, x, f, at) <==> Heard(s, current, x, f, at)
  {}

  /** A trade carries the mark of every symbol but the one it contradicts, and is remembered by its own symbol alone. */
  lemma TradeCarries(s: TQ, e: Event, limits: Limits, n: nat, x: nat)
    requires e.TradeEvent? && x < n
    ensures var t := Step(s, e, limits, n);
            x in t.members ==>
              && x in s.members
              && (t.members[x].unequalRepeat <==> s.members[x].unequalRepeat || Contradicts(s, e, x))
              && forall k :: k in t.members[x].held.prints ==>
                   || (k in s.members[x].held.prints && t.members[x].held.prints[k] == s.members[x].held.prints[k])
                   || (Trades(s, e, x) && k == e.trade.identity
                       && t.members[x].held.prints[k] == Print(e.trade.value, e.trade.receipt))
  {
    hide ApplyTrade, Prune, Heard, Timely, TradeLeaves, Counts, RoomFor, RoomForAll;
    var v, target := e.trade, TargetOf(e.clock, e.now);
    var p := Prune(Consume(s), n, target, e.now);
    PruneMeans(Consume(s), n, target, e.now, x);
    PruneMeans(Consume(s), n, target, e.now, v.symbol);
    PruneKeepsRest(Consume(s), n, target, e.now);
    TradeMeans(s, e.current, v, e.clock, e.now, limits, n);
    var t := Step(s, e, limits, n);
    if x in t.members {
      TradeProjects(p, t, v, e.clock, limits, TradeOutcome(p, e.current, v, e.clock, limits), x);
      if x == v.symbol { HeardPruned(s, p, e.current, x, TradeFamily, v.at); }
    }
  }

  lemma QuoteCarries(s: TQ, e: Event, limits: Limits, n: nat, x: nat)
    requires e.QuoteEvent?
    ensures Carries(Lookup(s.members, x), Lookup(Step(s, e, limits, n).members, x))
  {
    hide ApplyQuote, Heard, Timely, Counts, MoreQuotes, Opening;
    QuoteMeans(s, e.current, e.quoted, e.quote, e.clock, limits);
    if e.quoted in s.members { OpeningKeeps(s.members[e.quoted], QuoteFamily, e.quote.position); }
  }

  lemma DropCarries(s: TQ, e: Event, limits: Limits, n: nat, x: nat)
    requires e.DropEvent?
    ensures Carries(Lookup(s.members, x), Lookup(Step(s, e, limits, n).members, x))
  {
    hide ApplyDrop, PastAllOpen, After, Counts, AdditionsStopped;
    DropMeans(s, e.current, e.family, e.symbol, e.shed, e.at);
  }

  lemma ModeCarries(s: TQ, e: Event, limits: Limits, n: nat, x: nat)
    requires e.ModeEvent?
    ensures Carries(Lookup(s.members, x), Lookup(Step(s, e, limits, n).members, x))
  {
    hide SetMode, AdditionsStopped;
    ModeMeans(s, e.mode);
  }

  /** A symbol that starts again, starts unmarked and with nothing remembered. */
  lemma RenewedClean(s: TQ, e: Event, limits: Limits, n: nat, x: nat)
    requires WireBounded(s) && x < n && Renews(s, e, x)
    ensures Carries(None, Lookup(Step(s, e, limits, n).members, x))
  {
    hide Renewed, Settle, Tidied, Reconcile, WireBounded, ApplyResult;
    match e {
      case ResultEvent(current, c, boundary, succeeded) => { ResultMeans(s, current, c, boundary, succeeded, n, x); }
      case ReconcileEvent(w, cadence) => {
        var d, t := Tidied(s, w, cadence, n), Reconcile(s, w, cadence, n);
        RenewedMeans(s, w, cadence);
        TidiedCarries(s, w, cadence, n, x);
        ReconcileShape(s, w, cadence, n);
        if t != d { SettleCarries(d, n, x); }
      }
    }
  }

  /** Every event but a trade. */
  lemma OtherCarries(s: TQ, e: Event, limits: Limits, n: nat, x: nat)
    requires Counted(s) && WireBounded(s) && x < n && !e.TradeEvent? && !Renews(s, e, x)
    ensures Carries(Lookup(s.members, x), Lookup(Step(s, e, limits, n).members, x))
  {
    hide Step, Carries, Counted, WireBounded, Renews;
    match e {
      case ResultEvent(_, _, _, _) => { ResultCarries(s, e, limits, n, x); }
      case ControlErrorEvent(_, _) => { ControlErrorCarries(s, e, limits, n, x); }
      case DropEvent(_, _, _, _, _) => { DropCarries(s, e, limits, n, x); }
      case QuoteEvent(_, _, _, _) => { QuoteCarries(s, e, limits, n, x); }
      case ReconcileEvent(_, _) => { ReconcileCarries(s, e, limits, n, x); }
      case ModeEvent(_) => { ModeCarries(s, e, limits, n, x); }
      case _ => { StillCarries(s, e, limits, n, x); }
    }
  }

  lemma StillCarries(s: TQ, e: Event, limits: Limits, n: nat, x: nat)
    requires e.DispatchEvent? || e.ClearEvent?
    ensures Carries(Lookup(s.members, x), Lookup(Step(s, e, limits, n).members, x))
  {}

  /** One step: a symbol is marked when it was and has not started again, or when a trade contradicts it now; and
      what it remembers it remembered before, or learns from a trade now. */
  ghost predicate Marks(s: TQ, e: Event, t: TQ, x: nat) {
    x in t.members ==>
      && (t.members[x].unequalRepeat <==>
            x in s.members && !Renews(s, e, x) && (s.members[x].unequalRepeat || Contradicts(s, e, x)))
      && forall k :: k in t.members[x].held.prints ==>
           || (x in s.members && !Renews(s, e, x) && k in s.members[x].held.prints
               && s.members[x].held.prints[k] == t.members[x].held.prints[k])
           || (Trades(s, e, x) && k == e.trade.identity
               && t.members[x].held.prints[k] == Print(e.trade.value, e.trade.receipt))
  }

  lemma StepMarks(s: TQ, e: Event, limits: Limits, n: nat, x: nat)
    requires Counted(s) && WireBounded(s) && x < n
    ensures Marks(s, e, Step(s, e, limits, n), x)
  {
    hide Step, Counted, WireBounded, Heard, Timely;
    if e.TradeEvent? {
      TradeCarries(s, e, limits, n, x);
    } else if Renews(s, e, x) {
      hide Renews;
      RenewedClean(s, e, limits, n, x);
    } else {
      hide Renews;
      OtherCarries(s, e, limits, n, x);
    }
  }

  // ------------------------------------------------------------------------------------------------------- every run

  /** From the i-th event on the symbol has been a member, and has not started again. */
  ghost predicate Unbroken(es: seq<Event>, limits: Limits, n: nat, x: nat, i: nat, k: nat)
    requires k <= |es|
  {
    && (forall j :: i < j <= k ==> x in After(es, j, limits, n).members)
    && (forall j :: i <= j < k ==> !Renews(After(es, j, limits, n), es[j], x))
  }

  /** The i-th event of a run is a trade that contradicts what the symbol remembers. */
  ghost predicate ContradictsAt(es: seq<Event>, limits: Limits, n: nat, x: nat, i: nat)
    requires i < |es|
  {
    Contradicts(After(es, i, limits, n), es[i], x)
  }

  /** The i-th event of a run is a trade of the symbol with this identity and value. */
  ghost predicate TradesAt(es: seq<Event>, limits: Limits, n: nat, x: nat, i: nat, identity: nat, value: nat)
    requires i < |es|
  {
    Trades(After(es, i, limits, n), es[i], x) && es[i].trade.identity == identity && es[i].trade.value == value
  }

  lemma MemberWithin(es: seq<Event>, k: nat, limits: Limits, n: nat, x: nat)
    requires AllAdmissible(es, n) && k <= |es| && x in After(es, k, limits, n).members
    ensures x < n
  {
    RunHolds(es, k, limits, n);
  }

  lemma RunMarks(es: seq<Event>, k: nat, limits: Limits, n: nat, x: nat)
    requires AllAdmissible(es, n) && 0 < k <= |es| && x < n
    ensures Marks(After(es, k - 1, limits, n), es[k - 1], After(es, k, limits, n), x)
  {
    hide Step, Marks;
    RunHolds(es, k - 1, limits, n);
    StepMarks(After(es, k - 1, limits, n), es[k - 1], limits, n, x);
  }

  lemma NotRenewed(s: TQ, e: Event, x: nat)
    requires e.TradeEvent?
    ensures !Renews(s, e, x)
  {}

  lemma UnbrokenGrows(es: seq<Event>, limits: Limits, n: nat, x: nat, i: nat, k: nat)
    requires i < k < |es| && x in After(es, k + 1, limits, n).members && !Renews(After(es, k, limits, n), es[k], x)
    ensures Unbroken(es, limits, n, x, i, k + 1) <==> Unbroken(es, limits, n, x, i, k)
  {
    hide Step, Renews;
  }

  lemma ContradictsHeard(s: TQ, e: Event, x: nat)
    requires Contradicts(s, e, x)
    ensures x in s.members && Trades(s, e, x)
  {}

  /** Over every run a symbol is marked exactly when, since it last started again, a trade contradicted what it
      remembered. */
  lemma {:induction false} MarkedMeans(es: seq<Event>, k: nat, limits: Limits, n: nat, x: nat)
    requires AllAdmissible(es, n) && k <= |es| && x in After(es, k, limits, n).members
    ensures After(es, k, limits, n).members[x].unequalRepeat
       <==> exists i: nat :: i < k && ContradictsAt(es, limits, n, x, i) && Unbroken(es, limits, n, x, i, k)
  {
    hide Step, Renews, Contradicts;
    if k > 0 {
      MemberWithin(es, k, limits, n, x);
      RunMarks(es, k, limits, n, x);
      var s, e := After(es, k - 1, limits, n), es[k - 1];
      if x in s.members { MarkedMeans(es, k - 1, limits, n, x); }
      if After(es, k, limits, n).members[x].unequalRepeat {
        if Contradicts(s, e, x) {
          assert ContradictsAt(es, limits, n, x, k - 1) && Unbroken(es, limits, n, x, k - 1, k);
        } else {
          var i: nat :| i < k - 1 && ContradictsAt(es, limits, n, x, i) && Unbroken(es, limits, n, x, i, k - 1);
          UnbrokenGrows(es, limits, n, x, i, k - 1);
        }
      }
      if i: nat :| i < k && ContradictsAt(es, limits, n, x, i) && Unbroken(es, limits, n, x, i, k) {
        if i == k - 1 { ContradictsHeard(s, e, x); } else { UnbrokenGrows(es, limits, n, x, i, k - 1); }
      }
    }
  }

  /** What a symbol remembers under an identity, one of its trades said since it last started again. */
  lemma {:induction false} RememberedMeans(es: seq<Event>, k: nat, limits: Limits, n: nat, x: nat, identity: nat)
    requires AllAdmissible(es, n) && k <= |es| && x in After(es, k, limits, n).members
    requires identity in After(es, k, limits, n).members[x].held.prints
    ensures exists i: nat :: i < k && Unbroken(es, limits, n, x, i, k)
              && TradesAt(es, limits, n, x, i, identity, After(es, k, limits, n).members[x].held.prints[identity].value)
  {
    hide Step, Renews, Contradicts, Trades;
    if k > 0 {
      MemberWithin(es, k, limits, n, x);
      RunMarks(es, k, limits, n, x);
      var s, e := After(es, k - 1, limits, n), es[k - 1];
      var value := After(es, k, limits, n).members[x].held.prints[identity].value;
      TradesEvent(s, e, x);
      if Trades(s, e, x) && e.trade.identity == identity && e.trade.value == value {
        NotRenewed(s, e, x);
        assert TradesAt(es, limits, n, x, k - 1, identity, value) && Unbroken(es, limits, n, x, k - 1, k);
      } else {
        RememberedMeans(es, k - 1, limits, n, x, identity);
        var i: nat :| i < k - 1 && Unbroken(es, limits, n, x, i, k - 1)
                      && TradesAt(es, limits, n, x, i, identity, value);
        UnbrokenGrows(es, limits, n, x, i, k - 1);
      }
    }
  }

  lemma TradesEvent(s: TQ, e: Event, x: nat)
    ensures Trades(s, e, x) ==> e.TradeEvent?
  {}

  /** So a symbol is marked only when two of its trades, both since it last started again, had one identity and said
      different things. */
  lemma MarkedByTwo(es: seq<Event>, k: nat, limits: Limits, n: nat, x: nat)
    requires AllAdmissible(es, n) && k <= |es| && x in After(es, k, limits, n).members
    requires After(es, k, limits, n).members[x].unequalRepeat
    ensures exists i: nat, j: nat, identity, a, b ::
              && i < j < k && a != b && Unbroken(es, limits, n, x, i, k)
              && TradesAt(es, limits, n, x, i, identity, a) && TradesAt(es, limits, n, x, j, identity, b)
  {
    hide Step, Renews, Trades;
    MarkedMeans(es, k, limits, n, x);
    var j: nat :| j < k && ContradictsAt(es, limits, n, x, j) && Unbroken(es, limits, n, x, j, k);
    var s, e := After(es, j, limits, n), es[j];
    ContradictsHeard(s, e, x);
    TradesEvent(s, e, x);
    RememberedMeans(es, j, limits, n, x, e.trade.identity);
    var a, b := s.members[x].held.prints[e.trade.identity].value, e.trade.value;
    var i: nat :| i < j && Unbroken(es, limits, n, x, i, j) && TradesAt(es, limits, n, x, i, e.trade.identity, a);
    assert TradesAt(es, limits, n, x, j, e.trade.identity, b);
    UnbrokenJoins(es, limits, n, x, i, j, k);
  }

  lemma UnbrokenJoins(es: seq<Event>, limits: Limits, n: nat, x: nat, i: nat, j: nat, k: nat)
    requires i < j < k <= |es| && Unbroken(es, limits, n, x, i, j) && Unbroken(es, limits, n, x, j, k)
    ensures Unbroken(es, limits, n, x, i, k)
  {
    hide Step, Renews;
  }

  /** A repeat that agrees changes nothing a symbol holds and marks nothing, and counts one duplicate; one that does not
      marks the symbol, and counts one rejection. */
  lemma RepeatLeaves(s: TQ, e: Event, limits: Limits, n: nat)
    requires e.TradeEvent? && Trades(s, e, e.trade.symbol) && e.trade.symbol < n
    requires var prints := s.members[e.trade.symbol].held.prints;
             e.trade.identity in prints && e.now - prints[e.trade.identity].receipt <= 30 * SECOND
    ensures var x, t := e.trade.symbol, Step(s, e, limits, n);
            var agrees := s.members[x].held.prints[e.trade.identity].value == e.trade.value;
            && Counts(s.facts, t.facts, if agrees then Repeat else TurnedAway)
            && x in t.members
            && Pruned(s.members[x], t.members[x].(wire := s.members[x].wire, trade := s.members[x].trade,
                                                  unequalRepeat := s.members[x].unequalRepeat),
                      TargetOf(e.clock, e.now), e.now)
            && t.members[x].unequalRepeat == (s.members[x].unequalRepeat || !agrees)
            && t.totals == Prune(Consume(s), n, TargetOf(e.clock, e.now), e.now).totals
  {
    hide ApplyTrade, Prune, Heard, Timely, RoomFor, RoomForAll;
    var v, target := e.trade, TargetOf(e.clock, e.now);
    var p := Prune(Consume(s), n, target, e.now);
    PruneMeans(Consume(s), n, target, e.now, v.symbol);
    PruneKeepsRest(Consume(s), n, target, e.now);
    HeardPruned(s, p, e.current, v.symbol, TradeFamily, v.at);
    TradeMeans(s, e.current, v, e.clock, e.now, limits, n);
  }
}
