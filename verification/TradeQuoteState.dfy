/** Trade and quote membership as the engine runs it: member records, totals and counters updated in place, and loops
    over the members.  Each method leaves the state exactly as its counterpart in `TQModel` says; `Handle` is one step,
    and keeps every charge, every count and the bound on the wire. */
module TradeQuoteStates {
  import opened Options
  import opened LivePositions
  import opened M = TQModel
  import W = TQWire

  class TradeQuoteState {
    const population: nat
    const limits: Limits
    var epoch: nat
    var nextToken: nat
    var members: map<nat, Member>
    var wish: Wish
    var pending: Option<Command>
    var dispatched: bool
    var facts: Facts
    var commands: Commands
    var totals: Totals
    var globalBound: bool
    var aggregateOnly: bool
    var mode: Mode
    var control: Control

    ghost function View(): TQ
      reads this
    {
      TQ(epoch, nextToken, members, wish, pending, dispatched, facts, commands, totals, globalBound, aggregateOnly,
         mode, control)
    }

    /** Charges and totals are of what is held, commands and facts are conserved, the wire keeps its bound, and a
        pending command is for symbols of the population. */
    ghost predicate Valid()
      reads this
    {
      W.Keeps(View(), population)
    }

    constructor (population: nat, limits: Limits)
      ensures Valid() && View() == Start() && this.population == population && this.limits == limits
    {
      this.population, this.limits := population, limits;
      var start := Start();
      epoch, nextToken, members, wish := start.epoch, start.nextToken, start.members, start.wish;
      pending, dispatched, facts, commands := start.pending, start.dispatched, start.facts, start.commands;
      totals, globalBound, aggregateOnly := start.totals, start.globalBound, start.aggregateOnly;
      mode, control := start.mode, start.control;
      new;
      hide W.Keeps, Start;
      W.StartKeeps(population);
    }

    // ------------------------------------------------------------------------------------------------- one member

    method EnsureMember(symbol: nat)
      modifies this`members, this`totals
      ensures View() == Ensure(old(View()), symbol)
    {
      if symbol !in members {
        members := members[symbol := NewMember];
        totals := totals.(bytes := totals.bytes + MEMBER_CHARGE);
      }
    }

    method ReleaseMember(symbol: nat)
      requires symbol in members
      modifies this`members, this`totals
      ensures View() == Release(old(View()), symbol)
    {
      var m := members[symbol];
      totals := totals.(trades := totals.trades - |m.held.trades|, quotes := totals.quotes - QuoteCount(m.held),
                        prints := totals.prints - |m.held.prints|);
      var released := |m.held.trades| * TRADE_CHARGE + |m.held.prints| * PRINT_CHARGE
                      + QuoteCount(m.held) * QUOTE_CHARGE;
      totals := totals.(bytes := totals.bytes - released);
      members := members[symbol := m.(held := NothingHeld, bytes := m.bytes - released)];
    }

    method DeleteMember(symbol: nat)
      modifies this`members, this`totals
      ensures View() == Delete(old(View()), symbol)
    {
      if symbol in members {
        ReleaseMember(symbol);
        totals := totals.(bytes := totals.bytes - members[symbol].bytes);
        members := members - {symbol};
      }
    }

    // --------------------------------------------------------------------------------------------------- pruning

    static method KeepSince(trades: seq<int>, cutoff: int) returns (kept: seq<int>)
      ensures kept == Since(trades, cutoff)
    {
      kept := [];
      for i := 0 to |trades|
        invariant kept == Since(trades[..i], cutoff)
      {
        assert trades[..i + 1][..i] == trades[..i];
        if trades[i] >= cutoff { kept := kept + [trades[i]]; }
      }
      assert trades[..|trades|] == trades;
    }

    method PruneMember(symbol: nat, target: int, now: int)
      requires symbol in members
      modifies this`members, this`totals
      ensures View() == PruneOne(old(View()), symbol, target, now)
    {
      hide Since, Fresh, TradeCutoff;
      var m := members[symbol];
      var kept := KeepSince(m.held.trades, TradeCutoff(target, now));
      var remembered := KeepFresh(m.held.prints, now);
      var fewerTrades, fewerPrints := |m.held.trades| - |kept|, |m.held.prints| - |remembered|;
      var less := fewerTrades * TRADE_CHARGE + fewerPrints * PRINT_CHARGE;
      totals := totals.(trades := totals.trades - fewerTrades, prints := totals.prints - fewerPrints,
                        bytes := totals.bytes - less);
      members := members[symbol := m.(held := m.held.(trades := kept, prints := remembered), bytes := m.bytes - less)];
    }

    method PruneMembers(target: int, now: int)
      modifies this`members, this`totals
      ensures View() == Prune(old(View()), population, target, now)
    {
      for k := 0 to population
        invariant View() == Prune(old(View()), k, target, now)
      {
        if k in members { PruneMember(k, target, now); }
      }
    }

    // ------------------------------------------------------------------------------------------------ containment

    method CloseAllCoverage()
      modifies this`members
      ensures View() == CloseAll(old(View()))
    {
      ghost var was := members;
      var left := members.Keys;
      while left != {}
        invariant forall k :: k in left ==> k in was
        invariant forall k :: k in members <==> k in was
        invariant forall k :: k in was ==> members[k] == if k in left then was[k] else Closed(was[k])
        decreases |left|
      {
        var k :| k in left;
        members := members[k := Closed(members[k])];
        left := left - {k};
      }
      assert members == CloseAll(old(View())).members;
    }

    method WithdrawAdditions()
      modifies this`wish, this`pending, this`dispatched, this`commands
      ensures View() == StopAdditions(old(View()))
    {
      wish := wish.(permit := false, cadence := []);
      if pending.Some? && pending.value.action == Subscribe && !dispatched {
        pending, dispatched := None, false;
        commands := commands.(fenced := commands.fenced + 1);
      }
    }

    method ContainAll()
      modifies this
      ensures View() == EnterAggregateOnly(old(View()))
    {
      mode, aggregateOnly := AggregateOnly, true;
      WithdrawAdditions();
      CloseAllCoverage();
    }

    method ReachGlobalBound()
      modifies this
      ensures View() == EnterGlobalBound(old(View()))
    {
      globalBound := true;
      ContainAll();
    }

    // ------------------------------------------------------------------------------------------------- the commands

    method SilenceMember(symbol: nat)
      modifies this`members, this`totals
      ensures View() == SilenceOne(old(View()), symbol)
    {
      EnsureMember(symbol);
      members := members[symbol := Silent(members[symbol])];
    }

    method IssueCommand(action: Action, symbols: set<nat>)
      modifies this
      ensures View() == Issue(old(View()), action, symbols, population)
    {
      if symbols == {} || |symbols| > MAXIMUM_TQ_SYMBOLS {
        ReachGlobalBound();
        return;
      }
      pending, dispatched := Some(Command(epoch, nextToken, action, symbols)), false;
      nextToken := nextToken + 1;
      commands := commands.(issued := commands.issued + 1);
      if action == Unsubscribe { SilenceMembers(symbols); }
    }

    method SilenceMembers(symbols: set<nat>)
      modifies this`members, this`totals
      ensures View() == SilenceEach(old(View()), symbols, population)
    {
      for k := 0 to population
        invariant View() == SilenceEach(old(View()), symbols, k)
      {
        if k in symbols { SilenceMember(k); }
      }
    }

    /** Hands the pending command over, once. */
    method TakeCommand() returns (command: Option<Command>)
      modifies this`dispatched
      ensures View() == Dispatch(old(View()))
      ensures command == if dispatched && !old(dispatched) then pending else None
    {
      if pending.None? || dispatched || (aggregateOnly && pending.value.action == Subscribe) { return None; }
      dispatched := true;
      command := pending;
    }

    method FailMember(action: Action, symbol: nat)
      modifies this`members, this`totals
      ensures View() == FailOne(old(View()), action, symbol)
    {
      EnsureMember(symbol);
      members := members[symbol := AfterFailure(members[symbol], action)];
    }

    method FailMembers(action: Action, symbols: set<nat>)
      modifies this`members, this`totals
      ensures View() == FailEach(old(View()), action, symbols, population)
    {
      for k := 0 to population
        invariant View() == FailEach(old(View()), action, symbols, k)
      {
        if k in symbols { FailMember(action, k); }
      }
    }

    method RemoveMember(symbol: nat)
      modifies this`members, this`totals
      ensures View() == RemoveOne(old(View()), symbol)
    {
      EnsureMember(symbol);
      var m := members[symbol];
      members := members[symbol := m.(wire := m.wire.(requested := false, present := false, unknown := false,
                                                      resetRequired := false))];
      ReleaseMember(symbol);
      members := members[symbol := members[symbol].(unequalRepeat := false)];
      if symbol !in wish.desired { DeleteMember(symbol); }
    }

    method AddMember(symbol: nat, of: nat, boundary: nat)
      modifies this`members, this`totals
      ensures View() == AddOne(old(View()), symbol, of, boundary)
    {
      EnsureMember(symbol);
      var m := members[symbol];
      if mode != Normal || aggregateOnly || m.wire.bound || m.wire.resetRequired || symbol !in wish.desired {
        members := members[symbol := Silent(m).(wire := m.wire.(requested := true, present := false, unknown := true,
                                                               resetRequired := true))];
        ReleaseMember(symbol);
      } else {
        var on := Coverage(false, of, boundary, NoPosition);
        members := members[symbol := m.(wire := m.wire.(requested := true, present := false, unknown := true),
                                        trade := on, quote := on)];
        ReleaseMember(symbol);
        members := members[symbol := members[symbol].(unequalRepeat := false)];
      }
    }

    method WriteMember(c: Command, boundary: nat, symbol: nat)
      modifies this`members, this`totals
      ensures View() == WriteOne(old(View()), c, boundary, symbol)
    {
      if symbol in c.symbols {
        if c.action == Unsubscribe { RemoveMember(symbol); } else { AddMember(symbol, c.epoch, boundary); }
      }
    }

    method WriteMembers(c: Command, boundary: nat)
      modifies this`members, this`totals
      ensures View() == WriteEach(old(View()), c, boundary, population)
    {
      for k := 0 to population
        invariant View() == WriteEach(old(View()), c, boundary, k)
      {
        WriteMember(c, boundary, k);
      }
    }

    method CountFenced()
      modifies this`facts
      ensures View() == Fenced(old(View()))
    {
      facts := facts.(refused := facts.refused.(fenced := facts.refused.fenced + 1));
    }

    method CountRejected()
      modifies this`facts
      ensures View() == Rejected(old(View()))
    {
      facts := facts.(taken := facts.taken.(rejected := facts.taken.rejected + 1));
    }

    method CountApplied()
      modifies this`facts
      ensures View() == Applied(old(View()))
    {
      facts := facts.(taken := facts.taken.(applied := facts.taken.applied + 1));
    }

    method CountBroken()
      modifies this`facts
      ensures View() == Broken(old(View()))
    {
      facts := facts.(refused := facts.refused.(integrity := facts.refused.integrity + 1));
    }

    method ApplyCommandResult(current: bool, c: Command, boundary: nat, succeeded: bool)
      modifies this
      ensures View() == ApplyResult(old(View()), current, c, boundary, succeeded, population)
    {
      facts := facts.(consumed := facts.consumed + 1);
      if !current || pending != Some(c) || !dispatched {
        CountFenced();
        return;
      }
      pending, dispatched := None, false;
      if succeeded { FinishWritten(c, boundary); } else { FinishFailed(c); }
    }

    method FinishWritten(c: Command, boundary: nat)
      modifies this
      ensures View() == Applied(WriteEach(
                          old(View()).(commands := old(commands).(written := old(commands).written + 1)), c, boundary,
                          population))
    {
      commands := commands.(written := commands.written + 1);
      WriteMembers(c, boundary);
      CountApplied();
    }

    method FinishFailed(c: Command)
      modifies this
      ensures var v := FailEach(old(View()).(commands := old(commands).(failed := old(commands).failed + 1)), c.action,
                                c.symbols, population);
              View() == Rejected(CloseAll(StopAdditions(
                          v.(control := v.control.(closed := true, epoch := old(epoch))))))
    {
      commands := commands.(failed := commands.failed + 1);
      FailMembers(c.action, c.symbols);
      control := control.(closed := true, epoch := epoch);
      WithdrawAdditions();
      CloseAllCoverage();
      CountRejected();
    }

    method ReleaseMembers()
      modifies this`members, this`totals
      ensures View() == ReleaseAll(old(View()), population)
    {
      for k := 0 to population
        invariant View() == ReleaseAll(old(View()), k)
      {
        if k in members { ReleaseMember(k); }
      }
    }

    method LoseMembership()
      modifies this`members
      ensures View() == AllUnknown(old(View()))
    {
      ghost var was := members;
      var left := members.Keys;
      while left != {}
        invariant forall k :: k in left ==> k in was
        invariant forall k :: k in members <==> k in was
        invariant forall k :: k in was ==> members[k] == if k in left then was[k] else MadeUnknown(was[k])
        decreases |left|
      {
        var k :| k in left;
        members := members[k := MadeUnknown(members[k])];
        left := left - {k};
      }
      assert members == AllUnknown(old(View())).members;
    }

    method FailPending()
      modifies this
      ensures View() == if old(pending).None? then old(View())
                        else FailEach(old(View()).(pending := None, dispatched := false,
                                                   commands := old(commands).(failed := old(commands).failed + 1)),
                                      old(pending).value.action, old(pending).value.symbols, population)
    {
      if pending.Some? {
        var c := pending.value;
        pending, dispatched := None, false;
        commands := commands.(failed := commands.failed + 1);
        FailMembers(c.action, c.symbols);
      }
    }

    method ApplyControlFailure(current: bool, position: Position)
      modifies this
      ensures View() == ApplyControlError(old(View()), current, position, population)
    {
      if !current { return; }
      if position != NoPosition && control.position != NoPosition && CompareLive(position, control.position) <= 0 {
        return;
      }
      if !control.closed {
        control := Control(true, epoch, position);
      } else if position != NoPosition {
        control := control.(position := position);
      }
      FailPending();
      LoseMembership();
      ReleaseMembers();
      WithdrawAdditions();
      CloseAllCoverage();
    }

    // ------------------------------------------------------------------------------------------- trades and quotes

    method RetainTrade(v: TradeFact)
      requires v.symbol in members
      modifies this`members, this`totals
      ensures View() == Keep(old(View()), v, old(members)[v.symbol], TRADE_CHARGE + PRINT_CHARGE)
    {
      var m, incoming := members[v.symbol], TRADE_CHARGE + PRINT_CHARGE;
      var held := m.held.(prints := m.held.prints[v.identity := Print(v.value, v.receipt)]);
      held := held.(trades := held.trades + [v.event]);
      totals := totals.(trades := totals.trades + 1, prints := totals.prints + 1);
      members := members[v.symbol := m.(held := held, bytes := m.bytes + incoming)];
      totals := totals.(bytes := totals.bytes + incoming);
    }

    method BindMember(symbol: nat)
      requires symbol in members
      modifies this`members, this`facts
      ensures View() == Broken(Set(old(View()), symbol, Unbounded(old(members)[symbol])))
    {
      members := members[symbol := Unbounded(members[symbol])];
      CountBroken();
    }

    method BindAll()
      modifies this
      ensures View() == Broken(EnterGlobalBound(old(View())))
    {
      ReachGlobalBound();
      CountBroken();
    }

    method MeetAgain(v: TradeFact)
      requires v.symbol in members && v.identity in members[v.symbol].held.prints
      modifies this`members, this`facts
      ensures View() == Repeated(old(View()), v, old(members)[v.symbol])
    {
      var m := members[v.symbol];
      if m.held.prints[v.identity].value == v.value {
        facts := facts.(taken := facts.taken.(duplicate := facts.taken.duplicate + 1));
      } else {
        members := members[v.symbol := m.(unequalRepeat := true)];
        CountRejected();
      }
    }

    method TakeAdmittedTrade(v: TradeFact)
      requires v.symbol in members
      modifies this
      ensures View() == TakeTrade(old(View()), v, old(members)[v.symbol], limits)
    {
      var m, incoming := members[v.symbol], TRADE_CHARGE + PRINT_CHARGE;
      if v.identity in m.held.prints {
        MeetAgain(v);
      } else if |m.held.trades| >= limits.tradesPerSymbol || |m.held.prints| >= limits.printsPerSymbol
                || m.bytes + incoming > limits.bytesPerSymbol {
        BindMember(v.symbol);
      } else if totals.trades >= limits.tradesGlobal || totals.prints >= limits.printsGlobal
                || totals.bytes + incoming > limits.bytesGlobal {
        BindAll();
      } else {
        RetainTrade(v);
        CountApplied();
      }
    }

    predicate Accepts(current: bool, symbol: nat, f: Family, at: Position)
      reads this
      ensures Accepts(current, symbol, f, at) == Admits(View(), current, symbol, f, at)
    {
      && current && symbol in members && symbol in wish.desired
      && OnWire(members[symbol])
      && at.epoch == CoverageOf(members[symbol], f).epoch && at.frame > CoverageOf(members[symbol], f).boundary
      && (CoverageOf(members[symbol], f).active ==>
            CompareLive(at, CoverageOf(members[symbol], f).greatest) > 0)
    }

    method ApplyTradeFact(current: bool, v: TradeFact, clock: Clock, now: int)
      modifies this
      ensures View() == ApplyTrade(old(View()), current, v, clock, now, limits, population)
    {
      facts := facts.(consumed := facts.consumed + 1);
      PruneMembers(if clock.committed.Some? then clock.committed.value else now, now);
      if !Accepts(current, v.symbol, TradeFamily, v.at) {
        CountFenced();
      } else {
        TakeSeenTrade(v, clock);
      }
    }

    method TakeSeenTrade(v: TradeFact, clock: Clock)
      requires v.symbol in members
      modifies this
      ensures var m := Seen(old(members)[v.symbol], TradeFamily, v.at);
              View() == if InTime(clock, v.event) then TakeTrade(Set(old(View()), v.symbol, m), v, m, limits)
                        else Rejected(Set(old(View()), v.symbol, m))
    {
      members := members[v.symbol := Seen(members[v.symbol], TradeFamily, v.at)];
      if InTime(clock, v.event) { TakeAdmittedTrade(v); } else { CountRejected(); }
    }

    method RetainQuote(symbol: nat, q: Quote)
      requires symbol in members
      modifies this`members, this`totals
      ensures View() == KeepQuote(old(View()), symbol, q, old(members)[symbol])
    {
      var m := members[symbol];
      var before := QuoteCount(m.held);
      var held := m.held.(latest := Some(q));
      if IsValid(q) { held := held.(latestValid := Some(q)); }
      var change := QuoteCount(held) - before;
      totals := totals.(quotes := totals.quotes + change, bytes := totals.bytes + change * QUOTE_CHARGE);
      members := members[symbol := m.(held := held, bytes := m.bytes + change * QUOTE_CHARGE)];
    }

    method TakeSeenQuote(symbol: nat, q: Quote, clock: Clock)
      requires symbol in members
      modifies this
      ensures var m := Seen(old(members)[symbol], QuoteFamily, q.position);
              View() == if InTime(clock, q.at) then TakeQuote(Set(old(View()), symbol, m), symbol, q, m, limits)
                        else Rejected(Set(old(View()), symbol, m))
    {
      members := members[symbol := Seen(members[symbol], QuoteFamily, q.position)];
      if InTime(clock, q.at) { TakeAdmittedQuote(symbol, q); } else { CountRejected(); }
    }

    method TakeAdmittedQuote(symbol: nat, q: Quote)
      requires symbol in members
      modifies this
      ensures View() == TakeQuote(old(View()), symbol, q, old(members)[symbol], limits)
    {
      var m := members[symbol];
      var change := QuoteCount(WithQuote(m.held, q)) - QuoteCount(m.held);
      if change > 0 && m.bytes + change * QUOTE_CHARGE > limits.bytesPerSymbol {
        BindMember(symbol);
      } else if change > 0 && totals.bytes + change * QUOTE_CHARGE > limits.bytesGlobal {
        BindAll();
      } else {
        RetainQuote(symbol, q);
        CountApplied();
      }
    }

    method ApplyQuoteFact(current: bool, symbol: nat, q: Quote, clock: Clock)
      modifies this
      ensures View() == ApplyQuote(old(View()), current, symbol, q, clock, limits)
    {
      facts := facts.(consumed := facts.consumed + 1);
      if !Accepts(current, symbol, QuoteFamily, q.position) {
        CountFenced();
      } else {
        TakeSeenQuote(symbol, q, clock);
      }
    }

    // ------------------------------------------------------------------------------------- dropped and shed facts

    method SilenceChannel(f: Family)
      modifies this`members
      ensures View() == ShedEach(old(View()), f)
    {
      ghost var was := members;
      var left := members.Keys;
      while left != {}
        invariant forall k :: k in left ==> k in was
        invariant forall k :: k in members <==> k in was
        invariant forall k :: k in was ==> members[k] == if k in left then was[k] else AfterShedAll(was[k], f)
        decreases |left|
      {
        var k :| k in left;
        members := members[k := AfterShedAll(members[k], f)];
        left := left - {k};
      }
      assert members == ShedEach(old(View()), f).members;
    }

    method CountShed(change: int)
      modifies this`facts
      ensures View() == Shed(old(View()), change)
    {
      facts := facts.(refused := facts.refused.(shed := facts.refused.shed + change));
    }

    /** A drop named for one symbol: stale unless the symbol is present and its channel open before it. */
    method DropFrom(f: Family, symbol: nat, at: Position) returns (applied: bool)
      modifies this`members
      ensures applied == DropApplies(old(View()), f, symbol, at)
      ensures View() == if applied then DropOne(old(View()), f, symbol, at) else old(View())
    {
      if symbol !in members || !members[symbol].wire.present { return false; }
      var covered := CoverageOf(members[symbol], f);
      if !covered.active || CompareLive(at, covered.greatest) <= 0 { return false; }
      members := members[symbol := AfterDrop(members[symbol], f, at)];
      applied := true;
    }

    method ShedFact(f: Family, symbol: Option<nat>, at: Position)
      modifies this`members, this`facts
      ensures View() == ApplyShed(old(View()), f, symbol, at)
    {
      CountShed(1);
      if symbol.None? {
        SilenceChannel(f);
      } else {
        var applied := DropFrom(f, symbol.value, at);
        if !applied {
          CountFenced();
          CountShed(-1);
        }
      }
    }

    /** Whether a position is past every open coverage of a channel, and there is one of a connection. */
    method PastCoverage(f: Family, at: Position) returns (past: bool)
      ensures past == PastSomeCoverage(View(), f, at)
    {
      var greatest := NoPosition;
      var left := members.Keys;
      while left != {}
        invariant forall k :: k in left ==> k in members
        invariant forall k :: k in members && k !in left && CoverageOf(members[k], f).active ==>
                    !After(CoverageOf(members[k], f).greatest, greatest)
        invariant greatest == NoPosition
                  || exists k :: k in members && CoverageOf(members[k], f).active
                                 && CoverageOf(members[k], f).greatest == greatest
        decreases |left|
      {
        var k :| k in left;
        var covered := CoverageOf(members[k], f);
        CompareOrders(covered.greatest, greatest);
        if covered.active && CompareLive(covered.greatest, greatest) > 0 { greatest := covered.greatest; }
        left := left - {k};
      }
      past := greatest.epoch != 0 && CompareLive(at, greatest) > 0;
      GreatestDecides(View(), f, at, greatest);
    }

    method LoseFact(f: Family, symbol: Option<nat>, at: Position)
      modifies this
      ensures View() == ApplyLoss(old(View()), f, symbol, at)
    {
      if symbol.None? {
        var past := PastCoverage(f, at);
        if !past {
          CountFenced();
        } else {
          ContainAll();
          CountBroken();
        }
      } else {
        var applied := DropFrom(f, symbol.value, at);
        if applied { CountRejected(); } else { CountFenced(); }
      }
    }

    method ApplyDropFact(current: bool, f: Family, symbol: Option<nat>, shed: bool, at: Position)
      modifies this
      ensures View() == ApplyDrop(old(View()), current, f, symbol, shed, at)
    {
      hide ApplyShed, ApplyLoss;
      facts := facts.(consumed := facts.consumed + 1);
      if !current {
        CountFenced();
      } else if shed {
        ShedFact(f, symbol, at);
      } else {
        LoseFact(f, symbol, at);
      }
    }

    // ------------------------------------------------------------------------------------ pressure mode and control

    method DegradeMembers()
      modifies this`members
      ensures View() == old(View()).(members := map k | k in old(members) :: Degrade(old(members)[k]))
    {
      ghost var was := members;
      var left := members.Keys;
      while left != {}
        invariant forall k :: k in left ==> k in was
        invariant forall k :: k in members <==> k in was
        invariant forall k :: k in was ==> members[k] == if k in left then was[k] else Degrade(was[k])
        decreases |left|
      {
        var k :| k in left;
        members := members[k := Degrade(members[k])];
        left := left - {k};
      }
      assert members == map k | k in was :: Degrade(was[k]);
    }

    method SwitchMode(next: Mode)
      modifies this
      ensures View() == SetMode(old(View()), next)
    {
      if (next == Normal && globalBound) || (next == Degraded && (mode == AggregateOnly || aggregateOnly))
         || mode == next { return; }
      mode := next;
      match next {
        case Degraded => {
          WithdrawAdditions();
          DegradeMembers();
        }
        case AggregateOnly => { ContainAll(); }
        case Normal => {
          aggregateOnly := false;
          wish := wish.(restoring := true);
        }
      }
    }

    /** A strictly newer acknowledgement reopens the control channel. */
    method ReopenControl(of: nat)
      modifies this`control
      ensures View() == ClearControl(old(View()), of)
    {
      if control.closed && of > control.epoch { control := Control(false, 0, NoPosition); }
    }

    // ------------------------------------------------------------------------------------------------- reconciliation

    method UnwantMember(symbol: nat)
      requires symbol in members
      modifies this`members, this`totals
      ensures View() == UnwantOne(old(View()), symbol)
    {
      var m := members[symbol];
      members := members[symbol := Unwanted(m)];
      if !m.wire.requested && HoldsNothing(m.held) { DeleteMember(symbol); }
    }

    method UnwantMembers()
      modifies this`members, this`totals
      ensures View() == DropUnwanted(old(View()), population)
    {
      for k := 0 to population
        invariant View() == DropUnwanted(old(View()), k)
      {
        if k in members && k !in wish.desired { UnwantMember(k); }
      }
    }

    method WithdrawStale()
      modifies this`pending, this`dispatched, this`commands
      ensures View() == DropStale(old(View()))
    {
      if pending.Some? && pending.value.action == Subscribe && !dispatched
         && exists k :: k in pending.value.symbols && k !in wish.desired {
        pending, dispatched := None, false;
        commands := commands.(fenced := commands.fenced + 1);
      }
    }

    /** The additions wanted, in ranking order, while the wire has room. */
    method CollectMissing(desired: seq<nat>, room: nat) returns (missing: seq<nat>)
      modifies this`members, this`totals
      ensures (View(), missing) == Missing(old(View()), desired, room)
    {
      missing := [];
      for i := 0 to |desired|
        invariant (View(), missing) == Missing(old(View()), desired[..i], room)
        invariant wish == old(wish)
      {
        assert desired[..i + 1][..i] == desired[..i];
        if desired[i] in wish.cadence { missing := ConsiderSymbol(desired[i], missing, room); }
      }
      assert desired[..|desired|] == desired;
    }

    method ConsiderSymbol(symbol: nat, missing: seq<nat>, room: nat) returns (more: seq<nat>)
      modifies this`members, this`totals
      ensures View() == Ensure(old(View()), symbol)
      ensures var m := members[symbol];
              more == if m.wire.bound || m.wire.requested || |missing| >= room then missing else missing + [symbol]
    {
      EnsureMember(symbol);
      more := missing;
      if !members[symbol].wire.bound && !members[symbol].wire.requested && |missing| < room {
        more := missing + [symbol];
      }
    }

    /** Goes over the members for those on the wire that are owed a removal. */
    method CollectOwed() returns (owed: set<nat>)
      ensures owed == Removals(View())
    {
      owed := {};
      var left := members.Keys;
      while left != {}
        invariant forall k :: k in left ==> k in members
        invariant forall k :: k in owed <==> k in Removals(View()) && k !in left
        decreases |left|
      {
        var k :| k in left;
        var m := members[k];
        if OnWire(m) && (aggregateOnly || m.wire.bound || m.wire.resetRequired || k !in wish.desired) {
          owed := owed + {k};
        }
        left := left - {k};
      }
    }

    method SettleWire()
      modifies this
      ensures View() == Settle(old(View()), population)
    {
      var owed := CollectOwed();
      if owed != {} {
        IssueCommand(Unsubscribe, owed);
      } else if !aggregateOnly && mode != Degraded && wish.permit {
        AddMissing();
      }
    }

    method AddMissing()
      requires Removals(View()) == {} && !aggregateOnly && mode != Degraded && wish.permit
      modifies this
      ensures View() == Settle(old(View()), population)
    {
      var onWire := |WireSet(members)|;
      var room := if onWire < MAXIMUM_TQ_SYMBOLS then MAXIMUM_TQ_SYMBOLS - onWire else 0;
      var missing := CollectMissing(wish.desired, room);
      wish := wish.(permit := false);
      if missing == [] {
        wish := wish.(restoring := false);
      } else if wish.restoring {
        IssueCommand(Subscribe, {missing[0]});
      } else {
        IssueCommand(Subscribe, Elements(missing));
      }
    }

    method StartEpoch(of: nat, writeToken: nat)
      modifies this
      ensures View() == NextEpoch(old(View()), of, writeToken)
    {
      if pending.Some? { commands := commands.(fenced := commands.fenced + 1); }
      epoch, nextToken := of, Greatest(writeToken + 1, Greatest(1, nextToken));
      members, wish := map[], Wish([], [], false, true, false);
      pending, dispatched := None, false;
      totals, control := Totals(0, 0, 0, 0), Control(false, 0, NoPosition);
    }

    method Renew(e: Surroundings, cadence: bool)
      modifies this
      ensures View() == Renewed(old(View()), e, cadence)
    {
      if epoch != e.epoch { StartEpoch(e.epoch, e.writeToken); }
      if nextToken <= e.writeToken { nextToken := e.writeToken + 1; }
      wish := wish.(desired := e.desired);
      if cadence || wish.freshEpoch {
        wish := wish.(cadence := e.desired, permit := true, freshEpoch := false);
      }
    }

    /** The reconciliation after every input. */
    method ReconcileWire(e: Surroundings, cadence: bool)
      modifies this
      ensures View() == Reconcile(old(View()), e, cadence, population)
    {
      Renew(e, cadence);
      PruneMembers(e.target, e.now);
      UnwantMembers();
      WithdrawStale();
      if pending.None? && !control.closed && e.live { SettleWire(); }
    }

    // --------------------------------------------------------------------------------------------------- one step

    method Route(e: Event)
      modifies this
      ensures View() == Step(old(View()), e, limits, population)
    {
      match e {
        case DispatchEvent => { var command := TakeCommand(); }
        case ResultEvent(current, c, boundary, ok) => { ApplyCommandResult(current, c, boundary, ok); }
        case ControlErrorEvent(current, position) => { ApplyControlFailure(current, position); }
        case DropEvent(current, f, symbol, shed, at) => { ApplyDropFact(current, f, symbol, shed, at); }
        case TradeEvent(current, v, clock, now) => { ApplyTradeFact(current, v, clock, now); }
        case QuoteEvent(current, symbol, q, clock) => { ApplyQuoteFact(current, symbol, q, clock); }
        case ReconcileEvent(w, cadence) => { ReconcileWire(w, cadence); }
        case ModeEvent(next) => { SwitchMode(next); }
        case ClearEvent(of) => { ReopenControl(of); }
      }
    }

    /** One event in place.  Whatever it is, the charges, the counts and the wire bound are kept; and what a caller can
        read off the state: no more than twenty symbols on the wire and on their way to it. */
    method Handle(e: Event)
      requires Valid() && W.Admissible(e, population)
      modifies this
      ensures Valid() && View() == Step(old(View()), e, limits, population)
      ensures |WireSet(members) + W.Adding(View())| <= MAXIMUM_TQ_SYMBOLS
      ensures forall k :: k in members ==> k < population && members[k].bytes == MEMBER_CHARGE + Charge(members[k].held)
    {
      hide Step;
      W.StepKeeps(View(), e, limits, population);
      Route(e);
    }
  }

  /** The greatest open coverage decides whether a position is past all of them. */
  lemma GreatestDecides(s: TQ, f: Family, at: Position, greatest: Position)
    requires forall k :: k in s.members && CoverageOf(s.members[k], f).active ==>
               !After(CoverageOf(s.members[k], f).greatest, greatest)
    requires greatest == NoPosition || exists k :: k in s.members && CoverageOf(s.members[k], f).active
                                                   && CoverageOf(s.members[k], f).greatest == greatest
    ensures greatest.epoch != 0 && CompareLive(at, greatest) > 0 <==> PastSomeCoverage(s, f, at)
  {
    CompareOrders(at, greatest);
    forall k | k in s.members && CoverageOf(s.members[k], f).active
      ensures CompareLive(at, CoverageOf(s.members[k], f).greatest) > 0 <== After(at, greatest)
      ensures CoverageOf(s.members[k], f).greatest.epoch <= greatest.epoch
    {
      CompareOrders(at, CoverageOf(s.members[k], f).greatest);
    }
  }

  /** Forgets the identities first received too long ago. */
  method KeepFresh(prints: map<nat, Print>, now: int) returns (kept: map<nat, Print>)
    ensures kept == Fresh(prints, now)
  {
    kept := prints;
    var left := prints.Keys;
    while left != {}
      invariant forall k :: k in left ==> k in prints
      invariant forall k :: k in kept <==> k in prints && (k in left || now <= prints[k].receipt + DISORDER_HORIZON)
      invariant forall k :: k in kept ==> kept[k] == prints[k]
      decreases |left|
    {
      var k :| k in left;
      if now > prints[k].receipt + DISORDER_HORIZON { kept := kept - {k}; }
      left := left - {k};
    }
  }
}
