/** What trade and quote membership does to one symbol, told over what the symbol was on the wire and held: which facts
    it takes and what each leaves behind, what a pruning forgets, and what the commands, their results and the errors of
    the control channel make of it. */
module TQMeaning {
  import opened Options
  import opened SessionUnits
  import opened LivePositions
  import opened TQModel
  import opened TQRuns

  // -------------------------------------------------------------------------------------------------- what is counted

  datatype Outcome = TakenIn | Repeat | TurnedAway | Stale | ShedOnTheWay | OverBound

  /** One more fact consumed, with this outcome and no other. */
  ghost predicate Counts(a: Facts, b: Facts, o: Outcome) {
    && b.consumed == a.consumed + 1
    && b.taken.applied == a.taken.applied + Bit(o == TakenIn)
    && b.taken.duplicate == a.taken.duplicate + Bit(o == Repeat)
    && b.taken.rejected == a.taken.rejected + Bit(o == TurnedAway)
    && b.refused.fenced == a.refused.fenced + Bit(o == Stale)
    && b.refused.shed == a.refused.shed + Bit(o == ShedOnTheWay)
    && b.refused.integrity == a.refused.integrity + Bit(o == OverBound)
  }

  lemma OneOutcome(a: Facts, b: Facts, o: Outcome, other: Outcome)
    requires Counts(a, b, o) && Counts(a, b, other)
    ensures o == other
  {}

  // ---------------------------------------------------------------------------------------------------- what is kept

  lemma {:induction false} SinceMeans(trades: seq<int>, cutoff: int, x: int)
    ensures multiset(Since(trades, cutoff))[x] == if x < cutoff then 0 else multiset(trades)[x]
  {
    if trades != [] {
      var front, last := trades[..|trades| - 1], trades[|trades| - 1];
      SinceMeans(front, cutoff, x);
      assert trades == front + [last];
    }
  }

  /** A pruning forgets the trades more than thirty seconds behind the clock or five behind the target, and the
      identities first received more than thirty seconds ago; nothing else of the symbol moves. */
  ghost predicate Pruned(a: Member, b: Member, target: int, now: int) {
    && b.wire == a.wire && b.trade == a.trade && b.quote == a.quote && b.unequalRepeat == a.unequalRepeat
    && b.held.latest == a.held.latest && b.held.latestValid == a.held.latestValid
    && (forall at :: multiset(b.held.trades)[at]
                     == if now - at <= 30 * SECOND && target - at <= 5 * SECOND then multiset(a.held.trades)[at] else 0)
    && (forall k :: k in b.held.prints <==> k in a.held.prints && now - a.held.prints[k].receipt <= 30 * SECOND)
    && (forall k :: k in b.held.prints ==> b.held.prints[k] == a.held.prints[k])
  }

  lemma PruneOneMeans(s: TQ, symbol: nat, target: int, now: int)
    requires symbol in s.members
    ensures Pruned(s.members[symbol], PruneOne(s, symbol, target, now).members[symbol], target, now)
  {
    var trades := s.members[symbol].held.trades;
    forall at ensures multiset(Since(trades, TradeCutoff(target, now)))[at]
                   == if now - at <= 30 * SECOND && target - at <= 5 * SECOND then multiset(trades)[at] else 0 {
      SinceMeans(trades, TradeCutoff(target, now), at);
    }
  }

  lemma {:induction false} PruneMeans(s: TQ, k: nat, target: int, now: int, x: nat)
    ensures var t := Prune(s, k, target, now);
            && (x in t.members <==> x in s.members)
            && (x in s.members && x < k ==> Pruned(s.members[x], t.members[x], target, now))
            && (x in s.members && x >= k ==> t.members[x] == s.members[x])
  {
    hide PruneOne, Pruned;
    if k > 0 {
      PruneMeans(s, k - 1, target, now, x);
      var t := Prune(s, k - 1, target, now);
      if k - 1 in t.members {
        PruneOneMeans(t, k - 1, target, now);
        PruneOneLeaves(t, k - 1, target, now, x);
      }
    }
  }

  lemma PruneOneLeaves(s: TQ, symbol: nat, target: int, now: int, x: nat)
    requires symbol in s.members
    ensures var t := PruneOne(s, symbol, target, now);
            && (x in t.members <==> x in s.members) && (x in s.members && x != symbol ==> t.members[x] == s.members[x])
  {}

  // --------------------------------------------------------------------------------------------------- one fact taken

  /** A fact is heard when its symbol is wanted, on the wire, and the fact is of the symbol's epoch, of a later frame
      than the request, and strictly later than what the open channel gave before. */
  predicate Heard(s: TQ, current: bool, x: nat, f: Family, at: Position) {
    && current && x in s.members && x in s.wish.desired
    && (s.members[x].wire.requested || s.members[x].wire.present || s.members[x].wire.unknown)
    && (var channel := if f == TradeFamily then s.members[x].trade else s.members[x].quote;
        && at.epoch == channel.epoch && channel.boundary < at.frame
        && (channel.active ==> After(at, channel.greatest)))
  }

  lemma AdmitsMeans(s: TQ, current: bool, x: nat, f: Family, at: Position)
    ensures Admits(s, current, x, f, at) <==> Heard(s, current, x, f, at)
  {
    if x in s.members { CompareOrders(at, CoverageOf(s.members[x], f).greatest); }
  }

  /** A pruning is against the watermark, or against the clock while there is none. */
  function TargetOf(c: Clock, now: int): int {
    match c.committed
    case Some(at) => at
    case None => now
  }

  /** Its own time is inside the session and no more than thirty seconds behind the watermark. */
  predicate Timely(c: Clock, at: int) {
    c.start <= at && at < c.end && (c.committed.Some? ==> c.committed.value - at <= 30 * SECOND)
  }

  /** A member whose channel is open at the fact's position; opening it makes the symbol present once the other
      channel is open too, and unknown until then. */
  function Opening(m: Member, f: Family, at: Position): Member {
    var was := if f == TradeFamily then m.trade.active else m.quote.active;
    var other := if f == TradeFamily then m.quote.active else m.trade.active;
    Member(Wire(m.wire.requested, if was then m.wire.present else other, if was then m.wire.unknown else !other,
                m.wire.resetRequired, m.wire.bound),
           if f == TradeFamily then Coverage(true, m.trade.epoch, m.trade.boundary, at) else m.trade,
           if f == QuoteFamily then Coverage(true, m.quote.epoch, m.quote.boundary, at) else m.quote,
           m.held, m.unequalRepeat, m.bytes)
  }

  /** A member with both channels closed and another standing on the wire. */
  function Hushed(m: Member, wire: Wire): Member {
    Member(wire, Coverage(false, m.trade.epoch, m.trade.boundary, m.trade.greatest),
           Coverage(false, m.quote.epoch, m.quote.boundary, m.quote.greatest), m.held, m.unequalRepeat, m.bytes)
  }

  /** Closed, what was on the wire is requested and unknown, and what was not is off it. */
  function ShutOff(m: Member): Member {
    var on := m.wire.requested || m.wire.present || m.wire.unknown;
    Hushed(m, Wire(on, false, on, m.wire.resetRequired, m.wire.bound))
  }

  /** Nothing but the members, the totals and the counts has moved. */
  ghost predicate SameFrame(a: TQ, b: TQ) {
    b == a.(members := b.members, totals := b.totals, facts := b.facts)
  }

  /** Of the members, only one symbol's may have moved. */
  ghost predicate OthersAsWere(a: map<nat, Member>, b: map<nat, Member>, x: nat) {
    && (forall y :: y != x ==> (y in b <==> y in a))
    && (forall y :: y != x && y in b ==> b[y] == a[y])
  }

  /** An undispatched subscription is withdrawn and counted as fenced, any other pending command stays, and no addition
      is permitted any more. */
  ghost predicate AdditionsStopped(a: TQ, b: TQ) {
    var gone := a.pending.Some? && a.pending.value.action == Subscribe && !a.dispatched;
    && b.pending == (if gone then None else a.pending) && b.dispatched == (!gone && a.dispatched)
    && b.commands == a.commands.(fenced := a.commands.fenced + Bit(gone))
    && b.wish == Wish(a.wish.desired, [], false, a.wish.freshEpoch, a.wish.restoring)
    && b.epoch == a.epoch && b.nextToken == a.nextToken && b.totals == a.totals && b.control == a.control
  }

  /** Nothing is added any more, and every channel is closed. */
  ghost predicate Contained(a: TQ, b: TQ) {
    && b.mode == AggregateOnly && b.aggregateOnly && AdditionsStopped(a, b)
    && b.members == map y | y in a.members :: ShutOff(a.members[y])
  }

  lemma StopMeans(s: TQ)
    ensures AdditionsStopped(s, StopAdditions(s))
    ensures var t := StopAdditions(s);
            t == s.(wish := t.wish, pending := t.pending, dispatched := t.dispatched, commands := t.commands)
  {}

  lemma CloseMeans(s: TQ)
    ensures CloseAll(s) == s.(members := map y | y in s.members :: ShutOff(s.members[y]))
  {
    assert forall y | y in s.members :: Closed(s.members[y]) == ShutOff(s.members[y]);
  }

  lemma ContainMeans(s: TQ)
    ensures Contained(s, EnterAggregateOnly(s)) && EnterAggregateOnly(s).globalBound == s.globalBound
    ensures Contained(s, EnterGlobalBound(s)) && EnterGlobalBound(s).globalBound
    ensures EnterAggregateOnly(s).facts == s.facts && EnterGlobalBound(s).facts == s.facts
  {
    hide StopAdditions, CloseAll;
    StopMeans(s.(mode := AggregateOnly, aggregateOnly := true));
    StopMeans(s.(globalBound := true, mode := AggregateOnly, aggregateOnly := true));
    CloseMeans(StopAdditions(s.(mode := AggregateOnly, aggregateOnly := true)));
    CloseMeans(StopAdditions(s.(globalBound := true, mode := AggregateOnly, aggregateOnly := true)));
  }

  lemma BrokenMeans(u: TQ)
    ensures Contained(u, Broken(EnterGlobalBound(u))) && EnterGlobalBound(u).globalBound
    ensures EnterGlobalBound(u).facts == u.facts
  {
    hide EnterGlobalBound;
    ContainMeans(u);
  }

  // ------------------------------------------------------------------------------------------------------------ trades

  /** One more trade and its identity fit the symbol. */
  predicate RoomFor(m: Member, limits: Limits) {
    && |m.held.trades| < limits.tradesPerSymbol && |m.held.prints| < limits.printsPerSymbol
    && m.bytes + 448 <= limits.bytesPerSymbol
  }

  predicate RoomForAll(totals: Totals, limits: Limits) {
    && totals.trades < limits.tradesGlobal && totals.prints < limits.printsGlobal
    && totals.bytes + 448 <= limits.bytesGlobal
  }

  /** The outcome of a trade in a pruned state. */
  function TradeOutcome(p: TQ, current: bool, v: TradeFact, clock: Clock, limits: Limits): Outcome {
    if !Heard(p, current, v.symbol, TradeFamily, v.at) then Stale
    else if !Timely(clock, v.event) then TurnedAway
    else
      var m := p.members[v.symbol];
      if v.identity in m.held.prints then if m.held.prints[v.identity].value == v.value then Repeat else TurnedAway
      else if RoomFor(m, limits) && RoomForAll(p.totals, limits) then TakenIn
      else OverBound
  }

  /** The trade's time and its identity are one more thing held. */
  ghost predicate Grown(a: Held, b: Held, v: TradeFact) {
    && b.trades == a.trades + [v.event] && b.latest == a.latest && b.latestValid == a.latestValid
    && b.prints == a.prints[v.identity := Print(v.value, v.receipt)]
  }

  /** What a trade leaves behind in a pruned state: an equal repeat nothing but its position, an unequal one the mark of
      the contradiction, one more trade itself; one over a bound closes its symbol, or everything. */
  ghost predicate TradeLeaves(p: TQ, t: TQ, v: TradeFact, clock: Clock, limits: Limits, o: Outcome) {
    if o == Stale then t.members == p.members && t.totals == p.totals && SameFrame(p, t)
    else
      && v.symbol in p.members
      && (var m := Opening(p.members[v.symbol], TradeFamily, v.at);
          if o == OverBound && RoomFor(p.members[v.symbol], limits) then
            Contained(Set(p, v.symbol, m), t) && t.globalBound
          else
            && v.symbol in t.members && OthersAsWere(p.members, t.members, v.symbol) && SameFrame(p, t)
            && (var b := t.members[v.symbol];
                match o
                case Repeat => b == m && t.totals == p.totals
                case TurnedAway =>
                  b == m.(unequalRepeat := Timely(clock, v.event) || m.unequalRepeat) && t.totals == p.totals
                case TakenIn =>
                  && Grown(m.held, b.held, v) && b == m.(held := b.held, bytes := m.bytes + 448)
                  && t.totals == Totals(p.totals.trades + 1, p.totals.quotes, p.totals.prints + 1, p.totals.bytes + 448)
                case _ => b == Hushed(m, m.wire.(bound := true)) && t.totals == p.totals))
  }

  lemma OpeningKeeps(m: Member, f: Family, at: Position)
    ensures var o := Opening(m, f, at); o.held == m.held && o.bytes == m.bytes && o.unequalRepeat == m.unequalRepeat
  {}

  lemma RepeatMeans(p: TQ, v: TradeFact, clock: Clock, limits: Limits)
    requires Heard(p, true, v.symbol, TradeFamily, v.at) && Timely(clock, v.event)
    requires v.identity in p.members[v.symbol].held.prints
    ensures var m := Opening(p.members[v.symbol], TradeFamily, v.at);
            var o, t := TradeOutcome(p, true, v, clock, limits), TakeTrade(Set(p, v.symbol, m), v, m, limits);
            Counts(p.facts, Consume(t).facts, o) && TradeLeaves(p, t, v, clock, limits, o)
  {
    hide Opening;
    OpeningKeeps(p.members[v.symbol], TradeFamily, v.at);
  }

  lemma KeepMeans(p: TQ, v: TradeFact, clock: Clock, limits: Limits)
    requires Heard(p, true, v.symbol, TradeFamily, v.at) && Timely(clock, v.event)
    requires v.identity !in p.members[v.symbol].held.prints && RoomFor(p.members[v.symbol], limits)
    requires RoomForAll(p.totals, limits)
    ensures var m := Opening(p.members[v.symbol], TradeFamily, v.at);
            var o, t := TradeOutcome(p, true, v, clock, limits), TakeTrade(Set(p, v.symbol, m), v, m, limits);
            Counts(p.facts, Consume(t).facts, o) && TradeLeaves(p, t, v, clock, limits, o)
  {
    hide Opening;
    OpeningKeeps(p.members[v.symbol], TradeFamily, v.at);
  }

  lemma OverMeans(p: TQ, v: TradeFact, clock: Clock, limits: Limits)
    requires Heard(p, true, v.symbol, TradeFamily, v.at) && Timely(clock, v.event)
    requires v.identity !in p.members[v.symbol].held.prints
    requires !RoomFor(p.members[v.symbol], limits) || !RoomForAll(p.totals, limits)
    ensures var m := Opening(p.members[v.symbol], TradeFamily, v.at);
            var o, t := TradeOutcome(p, true, v, clock, limits), TakeTrade(Set(p, v.symbol, m), v, m, limits);
            Counts(p.facts, Consume(t).facts, o) && TradeLeaves(p, t, v, clock, limits, o)
  {
    hide Opening, EnterGlobalBound, Contained;
    OpeningKeeps(p.members[v.symbol], TradeFamily, v.at);
    BrokenMeans(Set(p, v.symbol, Opening(p.members[v.symbol], TradeFamily, v.at)));
  }

  lemma TakeTradeMeans(p: TQ, v: TradeFact, clock: Clock, limits: Limits)
    requires Heard(p, true, v.symbol, TradeFamily, v.at) && Timely(clock, v.event)
    ensures var m := Opening(p.members[v.symbol], TradeFamily, v.at);
            var o, t := TradeOutcome(p, true, v, clock, limits), TakeTrade(Set(p, v.symbol, m), v, m, limits);
            Counts(p.facts, Consume(t).facts, o) && TradeLeaves(p, t, v, clock, limits, o)
  {
    hide Opening, TradeOutcome, TakeTrade, Counts, TradeLeaves;
    if v.identity in p.members[v.symbol].held.prints {
      RepeatMeans(p, v, clock, limits);
    } else if RoomFor(p.members[v.symbol], limits) && RoomForAll(p.totals, limits) {
      KeepMeans(p, v, clock, limits);
    } else {
      OverMeans(p, v, clock, limits);
    }
  }

  lemma SeenMeans(m: Member, f: Family, at: Position)
    ensures Seen(m, f, at) == Opening(m, f, at)
  {}

  /** A trade in a pruned state that has counted it. */
  lemma HeardMeans(p: TQ, s: TQ, current: bool, v: TradeFact, clock: Clock, limits: Limits)
    requires p.facts == Consume(s).facts
    ensures var m := if v.symbol in p.members then Seen(p.members[v.symbol], TradeFamily, v.at) else NewMember;
            var o := TradeOutcome(p, current, v, clock, limits);
            var t := if !Admits(p, current, v.symbol, TradeFamily, v.at) then Fenced(p)
                     else if InTime(clock, v.event) then TakeTrade(Set(p, v.symbol, m), v, m, limits)
                     else Rejected(Set(p, v.symbol, m));
            Counts(s.facts, t.facts, o) && TradeLeaves(p, t, v, clock, limits, o)
  {
    hide Seen, TakeTrade, Admits;
    AdmitsMeans(p, current, v.symbol, TradeFamily, v.at);
    if Heard(p, current, v.symbol, TradeFamily, v.at) {
      SeenMeans(p.members[v.symbol], TradeFamily, v.at);
      OpeningKeeps(p.members[v.symbol], TradeFamily, v.at);
      if Timely(clock, v.event) {
        hide Heard, TradeLeaves, Opening;
        TakeTradeMeans(p, v, clock, limits);
      }
    }
  }

  /** What becomes of every trade, and of the symbol it names: the state is pruned first, whatever the outcome. */
  lemma TradeMeans(s: TQ, current: bool, v: TradeFact, clock: Clock, now: int, limits: Limits, n: nat)
    ensures var p := Prune(Consume(s), n, TargetOf(clock, now), now);
            var o, t := TradeOutcome(p, current, v, clock, limits), ApplyTrade(s, current, v, clock, now, limits, n);
            Counts(s.facts, t.facts, o) && TradeLeaves(p, t, v, clock, limits, o)
  {
    hide Seen, TakeTrade, Admits, TradeLeaves, Counts, TradeOutcome, InTime;
    var p := Prune(Consume(s), n, TargetOf(clock, now), now);
    PruneKeepsRest(Consume(s), n, TargetOf(clock, now), now);
    HeardMeans(p, s, current, v, clock, limits);
    if Admits(p, current, v.symbol, TradeFamily, v.at) { AdmitsMeans(p, current, v.symbol, TradeFamily, v.at); }
  }

  // ------------------------------------------------------------------------------------------------------------ quotes

  /** The positions of the quotes held: the latest, and the latest valid one beside it. */
  function QuotesHeld(h: Held): set<Position> {
    if h.latest.None? then {}
    else {h.latest.value.position} + if h.latestValid.Some? then {h.latestValid.value.position} else {}
  }

  lemma QuoteCountMeans(h: Held)
    ensures QuoteCount(h) == |QuotesHeld(h)|
  {
    if h.latest.Some? && h.latestValid.Some? && h.latest.value.position != h.latestValid.value.position {
      assert QuotesHeld(h) == {h.latest.value.position, h.latestValid.value.position};
    }
  }

  /** With a quote taken in: it is the latest, and the latest valid one when both sides are there and not crossed. */
  function Quoted(h: Held, q: Quote): Held {
    var ok := q.bid.Some? && q.ask.Some? && q.bid.value <= q.ask.value;
    Held(h.trades, h.prints, Some(q), if ok then Some(q) else h.latestValid)
  }

  /** How many more quotes are held with this one taken in. */
  function MoreQuotes(h: Held, q: Quote): int {
    |QuotesHeld(Quoted(h, q))| - |QuotesHeld(h)|
  }

  function QuoteOutcome(p: TQ, current: bool, x: nat, q: Quote, clock: Clock, limits: Limits): Outcome {
    if !Heard(p, current, x, QuoteFamily, q.position) then Stale
    else if !Timely(clock, q.at) then TurnedAway
    else
      var more := MoreQuotes(p.members[x].held, q);
      if more > 0 && (p.members[x].bytes + more * 192 > limits.bytesPerSymbol
                      || p.totals.bytes + more * 192 > limits.bytesGlobal) then OverBound
      else TakenIn
  }

  /** What a quote leaves behind; one over a bound is not taken in, and closes its symbol, or everything. */
  ghost predicate QuoteLeaves(p: TQ, t: TQ, x: nat, q: Quote, clock: Clock, limits: Limits, o: Outcome) {
    if o == Stale then t.members == p.members && t.totals == p.totals && SameFrame(p, t)
    else
      && x in p.members
      && (var m := Opening(p.members[x], QuoteFamily, q.position);
          var more := MoreQuotes(m.held, q);
          if o == OverBound && m.bytes + more * 192 <= limits.bytesPerSymbol then
            Contained(Set(p, x, m), t) && t.globalBound
          else
            && x in t.members && OthersAsWere(p.members, t.members, x) && SameFrame(p, t)
            && (var b := t.members[x];
                match o
                case TurnedAway => b == m && t.totals == p.totals
                case TakenIn =>
                  && b == m.(held := Quoted(m.held, q), bytes := m.bytes + more * 192)
                  && t.totals == Totals(p.totals.trades, p.totals.quotes + more, p.totals.prints,
                                        p.totals.bytes + more * 192)
                case _ => b == Hushed(m, m.wire.(bound := true)) && t.totals == p.totals))
  }

  lemma MoreMeans(h: Held, q: Quote)
    ensures WithQuote(h, q) == Quoted(h, q)
    ensures QuoteCount(WithQuote(h, q)) - QuoteCount(h) == MoreQuotes(h, q)
  {
    hide QuoteCount, QuotesHeld;
    QuoteCountMeans(h);
    QuoteCountMeans(Quoted(h, q));
  }

  lemma KeepQuoteMeans(p: TQ, x: nat, q: Quote, clock: Clock, limits: Limits)
    requires Heard(p, true, x, QuoteFamily, q.position) && Timely(clock, q.at)
    requires QuoteOutcome(p, true, x, q, clock, limits) == TakenIn
    ensures var m := Opening(p.members[x], QuoteFamily, q.position);
            var t := TakeQuote(Set(p, x, m), x, q, m, limits);
            Counts(p.facts, Consume(t).facts, TakenIn) && QuoteLeaves(p, t, x, q, clock, limits, TakenIn)
  {
    hide Opening, EnterGlobalBound, QuoteCount, WithQuote, Quoted, MoreQuotes, Contained;
    var m := Opening(p.members[x], QuoteFamily, q.position);
    OpeningKeeps(p.members[x], QuoteFamily, q.position);
    MoreMeans(m.held, q);
  }

  lemma OverQuoteMeans(p: TQ, x: nat, q: Quote, clock: Clock, limits: Limits)
    requires Heard(p, true, x, QuoteFamily, q.position) && Timely(clock, q.at)
    requires QuoteOutcome(p, true, x, q, clock, limits) == OverBound
    ensures var m := Opening(p.members[x], QuoteFamily, q.position);
            var t := TakeQuote(Set(p, x, m), x, q, m, limits);
            Counts(p.facts, Consume(t).facts, OverBound) && QuoteLeaves(p, t, x, q, clock, limits, OverBound)
  {
    hide Opening, EnterGlobalBound, QuoteCount, WithQuote, Quoted, MoreQuotes, Contained, KeepQuote;
    var m := Opening(p.members[x], QuoteFamily, q.position);
    OpeningKeeps(p.members[x], QuoteFamily, q.position);
    MoreMeans(m.held, q);
    BrokenMeans(Set(p, x, m));
  }

  lemma TakeQuoteMeans(p: TQ, x: nat, q: Quote, clock: Clock, limits: Limits)
    requires Heard(p, true, x, QuoteFamily, q.position) && Timely(clock, q.at)
    ensures var m := Opening(p.members[x], QuoteFamily, q.position);
            var o, t := QuoteOutcome(p, true, x, q, clock, limits), TakeQuote(Set(p, x, m), x, q, m, limits);
            Counts(p.facts, Consume(t).facts, o) && QuoteLeaves(p, t, x, q, clock, limits, o)
  {
    hide Opening, MoreQuotes, TakeQuote, Counts, QuoteLeaves;
    if QuoteOutcome(p, true, x, q, clock, limits) == OverBound {
      OverQuoteMeans(p, x, q, clock, limits);
    } else {
      KeepQuoteMeans(p, x, q, clock, limits);
    }
  }

  /** What becomes of every quote, and of the symbol it names. */
  lemma QuoteMeans(s: TQ, current: bool, x: nat, q: Quote, clock: Clock, limits: Limits)
    ensures var p := Consume(s);
            var o, t := QuoteOutcome(p, current, x, q, clock, limits), ApplyQuote(s, current, x, q, clock, limits);
            Counts(s.facts, t.facts, o) && QuoteLeaves(p, t, x, q, clock, limits, o)
  {
    hide Seen, TakeQuote, Admits, MoreQuotes, Contained;
    AdmitsMeans(Consume(s), current, x, QuoteFamily, q.position);
    if Heard(Consume(s), current, x, QuoteFamily, q.position) {
      SeenMeans(s.members[x], QuoteFamily, q.position);
      OpeningKeeps(s.members[x], QuoteFamily, q.position);
      if Timely(clock, q.at) {
        hide Heard, QuoteLeaves, Opening;
        TakeQuoteMeans(Consume(s), x, q, clock, limits);
      }
    }
  }

  // ------------------------------------------------------------------------------------------------------------- drops

  /** A drop that names a symbol is of its open channel, past what the channel gave before. */
  predicate NamesAnOpen(s: TQ, f: Family, x: nat, at: Position) {
    && x in s.members && s.members[x].wire.present
    && (var channel := if f == TradeFamily then s.members[x].trade else s.members[x].quote;
        channel.active && After(at, channel.greatest))
  }

  /** A loss that names none is past every open channel of its kind, of which there is one that has given something. */
  ghost predicate PastAllOpen(s: TQ, f: Family, at: Position) {
    && (exists k :: k in s.members && CoverageOf(s.members[k], f).active
                    && CoverageOf(s.members[k], f).greatest.epoch > 0)
    && forall k :: k in s.members && CoverageOf(s.members[k], f).active ==>
         After(at, CoverageOf(s.members[k], f).greatest)
  }

  ghost function DropOutcome(s: TQ, current: bool, f: Family, x: Option<nat>, shed: bool, at: Position): Outcome {
    if !current then Stale
    else if x.Some? then if !NamesAnOpen(s, f, x.value, at) then Stale else if shed then ShedOnTheWay else TurnedAway
    else if shed then ShedOnTheWay
    else if PastAllOpen(s, f, at) then OverBound
    else Stale
  }

  /** A member that has lost a fact at a position: both channels closed, and owed a removal. */
  function Lost(m: Member, f: Family, at: Position): Member {
    Member(Wire(m.wire.requested, m.wire.present, m.wire.unknown, true, m.wire.bound),
           Coverage(false, m.trade.epoch, m.trade.boundary, if f == TradeFamily then at else m.trade.greatest),
           Coverage(false, m.quote.epoch, m.quote.boundary, if f == QuoteFamily then at else m.quote.greatest),
           m.held, m.unequalRepeat, m.bytes)
  }

  /** A member whose channel of one kind has lost facts: that channel closed, and owed a removal when present. */
  function HalfLost(m: Member, f: Family): Member {
    Member(Wire(m.wire.requested, m.wire.present, m.wire.unknown, m.wire.present || m.wire.resetRequired, m.wire.bound),
           Coverage(m.trade.active && f != TradeFamily, m.trade.epoch, m.trade.boundary, m.trade.greatest),
           Coverage(m.quote.active && f != QuoteFamily, m.quote.epoch, m.quote.boundary, m.quote.greatest),
           m.held, m.unequalRepeat, m.bytes)
  }

  /** A fact dropped on the way: of a named symbol it closes that symbol, shed of no named one it closes the channel of
      every symbol, and lost of no named one it closes everything. */
  lemma DropMeans(s: TQ, current: bool, f: Family, x: Option<nat>, shed: bool, at: Position)
    ensures var o, t := DropOutcome(s, current, f, x, shed, at), ApplyDrop(s, current, f, x, shed, at);
            && Counts(s.facts, t.facts, o)
            && (o == Stale ==> t == s.(facts := t.facts))
            && (o == OverBound ==> Contained(s, t) && t.globalBound == s.globalBound)
            && (o == ShedOnTheWay && x.None? ==>
                  t == s.(facts := t.facts, members := map y | y in s.members :: HalfLost(s.members[y], f)))
            && (o == ShedOnTheWay && x.Some? ==>
                  t == s.(facts := t.facts, members := s.members[x.value := Lost(s.members[x.value], f, at)]))
            && (o == TurnedAway ==>
                  t == s.(facts := t.facts, members := s.members[x.value := Lost(s.members[x.value], f, at)]))
  {
    hide EnterAggregateOnly, CompareLive, PastSomeCoverage, PastAllOpen, Contained, After;
    LossContains(s);
    PastMeans(s, Consume(s), f, at);
    if x.Some? && x.value in s.members { CompareOrders(at, CoverageOf(s.members[x.value], f).greatest); }
    ShedMeans(s, f);
  }

  lemma LossContains(s: TQ)
    ensures var t := EnterAggregateOnly(Consume(s)); Contained(s, Broken(t)) && t.globalBound == s.globalBound
    ensures EnterAggregateOnly(Consume(s)).facts == Consume(s).facts
  {
    hide EnterAggregateOnly;
    ContainMeans(Consume(s));
  }

  lemma PastMeans(s: TQ, u: TQ, f: Family, at: Position)
    requires u.members == s.members
    ensures PastSomeCoverage(u, f, at) <==> PastAllOpen(s, f, at)
  {
    forall k | k in s.members
      ensures CompareLive(at, CoverageOf(s.members[k], f).greatest) > 0
         <==> After(at, CoverageOf(s.members[k], f).greatest) {
      CompareOrders(at, CoverageOf(s.members[k], f).greatest);
    }
  }

  lemma ShedMeans(s: TQ, f: Family)
    ensures ShedEach(s, f) == s.(members := map y | y in s.members :: HalfLost(s.members[y], f))
  {
    hide AfterShedAll, HalfLost;
    forall y | y in s.members ensures AfterShedAll(s.members[y], f) == HalfLost(s.members[y], f) {
      HalfLostMeans(s.members[y], f);
    }
  }

  lemma HalfLostMeans(m: Member, f: Family)
    ensures AfterShedAll(m, f) == HalfLost(m, f)
  {}
}
