/** What trade and quote membership keeps over every run: conservation of commands, facts and retained bytes, and the
    bound on what is on the wire. */
module TQRuns {
  import opened Options
  import opened LivePositions
  import opened TQModel

  // ------------------------------------------------------------------------------------------------------ retention

  datatype Kind = TradeKind | QuoteKind | PrintKind | ByteKind

  function Measure(m: Member, k: Kind): int {
    match k
    case TradeKind => |m.held.trades|
    case QuoteKind => QuoteCount(m.held)
    case PrintKind => |m.held.prints|
    case ByteKind => m.bytes
  }

  /** The sum of a measure over the population. */
  function Sum(members: map<nat, Member>, n: nat, k: Kind): int {
    if n == 0 then 0 else Sum(members, n - 1, k) + if n - 1 in members then Measure(members[n - 1], k) else 0
  }

  lemma {:induction false} SumUpdate(members: map<nat, Member>, n: nat, k: Kind, symbol: nat, m: Member)
    ensures Sum(members[symbol := m], n, k)
         == Sum(members, n, k) + if symbol >= n then 0
              else if symbol in members then Measure(m, k) - Measure(members[symbol], k) else Measure(m, k)
  {
    if n > 0 { SumUpdate(members, n - 1, k, symbol, m); }
  }

  lemma {:induction false} SumRemove(members: map<nat, Member>, n: nat, k: Kind, symbol: nat)
    requires symbol in members
    ensures Sum(members - {symbol}, n, k)
         == Sum(members, n, k) - if symbol < n then Measure(members[symbol], k) else 0
  {
    if n > 0 { SumRemove(members, n - 1, k, symbol); }
  }

  lemma {:induction false} SumSame(a: map<nat, Member>, b: map<nat, Member>, n: nat, k: Kind)
    requires forall x :: x in a <==> x in b
    requires forall x :: x in a ==> Measure(a[x], k) == Measure(b[x], k)
    ensures Sum(a, n, k) == Sum(b, n, k)
  {
    if n > 0 { SumSame(a, b, n - 1, k); }
  }

  ghost predicate MembersHold(members: map<nat, Member>, n: nat) {
    forall k :: k in members ==> k < n && members[k].bytes == MEMBER_CHARGE + Charge(members[k].held)
  }

  ghost predicate TotalsHold(s: TQ, n: nat) {
    && s.totals.trades == Sum(s.members, n, TradeKind) && s.totals.quotes == Sum(s.members, n, QuoteKind)
    && s.totals.prints == Sum(s.members, n, PrintKind) && s.totals.bytes == Sum(s.members, n, ByteKind)
  }

  /** Every member is charged for exactly what it holds, and the totals are the sums over the members. */
  ghost predicate Balanced(s: TQ, n: nat) {
    MembersHold(s.members, n) && TotalsHold(s, n)
  }

  /** The same holdings throughout. */
  ghost predicate SameHoldings(a: map<nat, Member>, b: map<nat, Member>) {
    && (forall x :: x in a <==> x in b)
    && (forall x :: x in a ==> a[x].held == b[x].held && a[x].bytes == b[x].bytes)
  }

  lemma RemapBalanced(s: TQ, t: TQ, n: nat)
    requires Balanced(s, n) && SameHoldings(s.members, t.members) && t.totals == s.totals
    ensures Balanced(t, n)
  {
    SumSame(s.members, t.members, n, TradeKind);
    SumSame(s.members, t.members, n, QuoteKind);
    SumSame(s.members, t.members, n, PrintKind);
    SumSame(s.members, t.members, n, ByteKind);
  }

  /** One member replaced, with every total moved by its difference. */
  lemma ReplaceBalanced(s: TQ, t: TQ, n: nat, symbol: nat, m: Member)
    requires Balanced(s, n) && symbol in s.members && t.members == s.members[symbol := m]
    requires m.bytes == MEMBER_CHARGE + Charge(m.held)
    requires var was := s.members[symbol];
             && t.totals.trades == s.totals.trades + |m.held.trades| - |was.held.trades|
             && t.totals.quotes == s.totals.quotes + QuoteCount(m.held) - QuoteCount(was.held)
             && t.totals.prints == s.totals.prints + |m.held.prints| - |was.held.prints|
             && t.totals.bytes == s.totals.bytes + m.bytes - was.bytes
    ensures Balanced(t, n)
  {
    SumUpdate(s.members, n, TradeKind, symbol, m);
    SumUpdate(s.members, n, QuoteKind, symbol, m);
    SumUpdate(s.members, n, PrintKind, symbol, m);
    SumUpdate(s.members, n, ByteKind, symbol, m);
  }

  lemma EnsureBalanced(s: TQ, n: nat, symbol: nat)
    requires Balanced(s, n) && symbol < n
    ensures Balanced(Ensure(s, symbol), n)
  {
    if symbol !in s.members {
      SumUpdate(s.members, n, TradeKind, symbol, NewMember);
      SumUpdate(s.members, n, QuoteKind, symbol, NewMember);
      SumUpdate(s.members, n, PrintKind, symbol, NewMember);
      SumUpdate(s.members, n, ByteKind, symbol, NewMember);
    }
  }

  lemma SetBalanced(s: TQ, n: nat, symbol: nat, m: Member)
    requires Balanced(s, n) && symbol in s.members
    requires m.held == s.members[symbol].held && m.bytes == s.members[symbol].bytes
    ensures Balanced(Set(s, symbol, m), n)
  {
    RemapBalanced(s, Set(s, symbol, m), n);
  }

  lemma ReleaseBalanced(s: TQ, n: nat, symbol: nat)
    requires Balanced(s, n) && symbol in s.members
    ensures Balanced(Release(s, symbol), n) && Release(s, symbol).members[symbol].bytes == MEMBER_CHARGE
    ensures Release(s, symbol).members[symbol].held == NothingHeld
  {
    ReplaceBalanced(s, Release(s, symbol), n, symbol, Release(s, symbol).members[symbol]);
  }

  lemma DeleteBalanced(s: TQ, n: nat, symbol: nat)
    requires Balanced(s, n)
    ensures Balanced(Delete(s, symbol), n)
  {
    if symbol in s.members {
      ReleaseBalanced(s, n, symbol);
      var t := Release(s, symbol);
      SumRemove(t.members, n, TradeKind, symbol);
      SumRemove(t.members, n, QuoteKind, symbol);
      SumRemove(t.members, n, PrintKind, symbol);
      SumRemove(t.members, n, ByteKind, symbol);
    }
  }

  lemma PruneOneBalanced(s: TQ, n: nat, symbol: nat, target: int, now: int)
    requires Balanced(s, n) && symbol in s.members
    ensures Balanced(PruneOne(s, symbol, target, now), n)
  {
    ReplaceBalanced(s, PruneOne(s, symbol, target, now), n, symbol, PruneOne(s, symbol, target, now).members[symbol]);
  }

  lemma {:induction false} PruneBalanced(s: TQ, k: nat, n: nat, target: int, now: int)
    requires Balanced(s, n)
    ensures Balanced(Prune(s, k, target, now), n)
  {
    if k > 0 {
      PruneBalanced(s, k - 1, n, target, now);
      var t := Prune(s, k - 1, target, now);
      if k - 1 in t.members { PruneOneBalanced(t, n, k - 1, target, now); }
    }
  }

  lemma {:induction false} ReleaseAllBalanced(s: TQ, k: nat, n: nat)
    requires Balanced(s, n)
    ensures Balanced(ReleaseAll(s, k), n)
  {
    if k > 0 {
      ReleaseAllBalanced(s, k - 1, n);
      var t := ReleaseAll(s, k - 1);
      if k - 1 in t.members { ReleaseBalanced(t, n, k - 1); }
    }
  }

  lemma CloseAllBalanced(s: TQ, n: nat)
    requires Balanced(s, n)
    ensures Balanced(CloseAll(s), n)
  {
    RemapBalanced(s, CloseAll(s), n);
  }

  lemma EnterBalanced(s: TQ, n: nat)
    requires Balanced(s, n)
    ensures Balanced(EnterAggregateOnly(s), n) && Balanced(EnterGlobalBound(s), n)
  {
    CloseAllBalanced(StopAdditions(s.(mode := AggregateOnly, aggregateOnly := true)), n);
    CloseAllBalanced(StopAdditions(s.(globalBound := true, mode := AggregateOnly, aggregateOnly := true)), n);
  }

  lemma SilenceOneBalanced(s: TQ, symbol: nat, n: nat)
    requires Balanced(s, n) && symbol < n
    ensures Balanced(SilenceOne(s, symbol), n)
  {
    EnsureBalanced(s, n, symbol);
    var u := Ensure(s, symbol);
    SetBalanced(u, n, symbol, Silent(u.members[symbol]));
  }

  lemma {:induction false} SilenceBalanced(s: TQ, symbols: set<nat>, k: nat, n: nat)
    requires Balanced(s, n) && k <= n
    ensures Balanced(SilenceEach(s, symbols, k), n)
  {
    if k > 0 {
      SilenceBalanced(s, symbols, k - 1, n);
      SilenceOneBalanced(SilenceEach(s, symbols, k - 1), k - 1, n);
    }
  }

  lemma IssueBalanced(s: TQ, action: Action, symbols: set<nat>, n: nat)
    requires Balanced(s, n)
    ensures Balanced(Issue(s, action, symbols, n), n)
  {
    if symbols == {} || |symbols| > MAXIMUM_TQ_SYMBOLS {
      EnterBalanced(s, n);
    } else if action == Unsubscribe {
      SilenceBalanced(s.(pending := Some(Command(s.epoch, s.nextToken, action, symbols)), dispatched := false,
                         nextToken := s.nextToken + 1,
                         commands := s.commands.(issued := s.commands.issued + 1)), symbols, n, n);
    }
  }

  lemma FailOneBalanced(s: TQ, action: Action, symbol: nat, n: nat)
    requires Balanced(s, n) && symbol < n
    ensures Balanced(FailOne(s, action, symbol), n)
  {
    EnsureBalanced(s, n, symbol);
    var u := Ensure(s, symbol);
    SetBalanced(u, n, symbol, AfterFailure(u.members[symbol], action));
  }

  lemma {:induction false} FailBalanced(s: TQ, action: Action, symbols: set<nat>, k: nat, n: nat)
    requires Balanced(s, n) && k <= n
    ensures Balanced(FailEach(s, action, symbols, k), n)
  {
    if k > 0 {
      FailBalanced(s, action, symbols, k - 1, n);
      FailOneBalanced(FailEach(s, action, symbols, k - 1), action, k - 1, n);
    }
  }

  lemma RemoveOneBalanced(s: TQ, symbol: nat, n: nat)
    requires Balanced(s, n) && symbol < n
    ensures Balanced(RemoveOne(s, symbol), n)
  {
    EnsureBalanced(s, n, symbol);
    var t := Ensure(s, symbol);
    var m := t.members[symbol].(wire := t.members[symbol].wire.(requested := false, present := false, unknown := false,
                                                                resetRequired := false));
    SetBalanced(t, n, symbol, m);
    ReleaseBalanced(Set(t, symbol, m), n, symbol);
    var u := Release(Set(t, symbol, m), symbol);
    var v := Set(u, symbol, u.members[symbol].(unequalRepeat := false));
    SetBalanced(u, n, symbol, u.members[symbol].(unequalRepeat := false));
    DeleteBalanced(v, n, symbol);
  }

  lemma AddOneBalanced(s: TQ, symbol: nat, epoch: nat, boundary: nat, n: nat)
    requires Balanced(s, n) && symbol < n
    ensures Balanced(AddOne(s, symbol, epoch, boundary), n)
  {
    EnsureBalanced(s, n, symbol);
    var t := Ensure(s, symbol);
    var m := t.members[symbol];
    var on := Coverage(false, epoch, boundary, NoPosition);
    var owed := Silent(m).(wire := m.wire.(requested := true, present := false, unknown := true,
                                           resetRequired := true));
    var added := m.(wire := m.wire.(requested := true, present := false, unknown := true), trade := on, quote := on);
    SetBalanced(t, n, symbol, owed);
    ReleaseBalanced(Set(t, symbol, owed), n, symbol);
    SetBalanced(t, n, symbol, added);
    ReleaseBalanced(Set(t, symbol, added), n, symbol);
    var u := Release(Set(t, symbol, added), symbol);
    SetBalanced(u, n, symbol, u.members[symbol].(unequalRepeat := false));
  }

  lemma WriteOneBalanced(s: TQ, c: Command, boundary: nat, symbol: nat, n: nat)
    requires Balanced(s, n) && symbol < n
    ensures Balanced(WriteOne(s, c, boundary, symbol), n)
  {
    if symbol in c.symbols {
      if c.action == Unsubscribe {
        RemoveOneBalanced(s, symbol, n);
      } else {
        AddOneBalanced(s, symbol, c.epoch, boundary, n);
      }
    }
  }

  lemma {:induction false} WriteBalanced(s: TQ, c: Command, boundary: nat, k: nat, n: nat)
    requires Balanced(s, n) && k <= n
    ensures Balanced(WriteEach(s, c, boundary, k), n)
  {
    hide WriteOne;
    if k > 0 {
      WriteBalanced(s, c, boundary, k - 1, n);
      WriteOneBalanced(WriteEach(s, c, boundary, k - 1), c, boundary, k - 1, n);
    }
  }

  /** Balance is a matter of the members and the totals alone. */
  lemma SameMembersBalanced(s: TQ, t: TQ, n: nat)
    requires Balanced(s, n) && t.members == s.members && t.totals == s.totals
    ensures Balanced(t, n)
  {}

  lemma ResultBalanced(s: TQ, current: bool, c: Command, boundary: nat, succeeded: bool, n: nat)
    requires Balanced(s, n)
    ensures Balanced(ApplyResult(s, current, c, boundary, succeeded, n), n)
  {
    var t := Consume(s);
    if current && t.pending == Some(c) && t.dispatched {
      var u := t.(pending := None, dispatched := false);
      if !succeeded {
        var f := u.(commands := u.commands.(failed := u.commands.failed + 1));
        FailBalanced(f, c.action, c.symbols, n, n);
        var v := FailEach(f, c.action, c.symbols, n);
        CloseAllBalanced(StopAdditions(v.(control := v.control.(closed := true, epoch := s.epoch))), n);
      } else {
        WriteBalanced(u.(commands := u.commands.(written := u.commands.written + 1)), c, boundary, n, n);
      }
    }
  }

  lemma SilencedBalanced(u: TQ, n: nat)
    requires Balanced(u, n)
    ensures Balanced(CloseAll(StopAdditions(ReleaseAll(AllUnknown(u), n))), n)
  {
    RemapBalanced(u, AllUnknown(u), n);
    ReleaseAllBalanced(AllUnknown(u), n, n);
    SameMembersBalanced(ReleaseAll(AllUnknown(u), n), StopAdditions(ReleaseAll(AllUnknown(u), n)), n);
    CloseAllBalanced(StopAdditions(ReleaseAll(AllUnknown(u), n)), n);
  }

  lemma ControlErrorBalanced(s: TQ, current: bool, position: Position, n: nat)
    requires Balanced(s, n)
    ensures Balanced(ApplyControlError(s, current, position, n), n)
  {
    var t := Signalled(s, position);
    var f := t.(pending := None, dispatched := false, commands := t.commands.(failed := t.commands.failed + 1));
    SameMembersBalanced(s, t, n);
    SameMembersBalanced(s, f, n);
    if t.pending.None? {
      SilencedBalanced(t, n);
    } else {
      FailBalanced(f, t.pending.value.action, t.pending.value.symbols, n, n);
      SilencedBalanced(FailEach(f, t.pending.value.action, t.pending.value.symbols, n), n);
    }
  }

  lemma DropOneBalanced(s: TQ, f: Family, symbol: nat, at: Position, n: nat)
    requires Balanced(s, n) && symbol in s.members
    ensures Balanced(DropOne(s, f, symbol, at), n)
  {
    SetBalanced(s, n, symbol, AfterDrop(s.members[symbol], f, at));
  }

  /** Counting an outcome moves nothing else. */
  lemma CountedBalanced(s: TQ, n: nat, change: int)
    requires Balanced(s, n)
    ensures Balanced(Consume(s), n) && Balanced(Applied(s), n) && Balanced(Duplicated(s), n) && Balanced(Rejected(s), n)
    ensures Balanced(Fenced(s), n) && Balanced(Broken(s), n) && Balanced(Shed(s, change), n)
  {}

  lemma ShedBalanced(s: TQ, f: Family, symbol: Option<nat>, at: Position, n: nat)
    requires Balanced(s, n)
    ensures Balanced(ApplyShed(s, f, symbol, at), n)
  {
    var u := Shed(s, 1);
    CountedBalanced(s, n, 1);
    if symbol.None? {
      RemapBalanced(u, ShedEach(u, f), n);
    } else if DropApplies(u, f, symbol.value, at) {
      DropOneBalanced(u, f, symbol.value, at, n);
    } else {
      CountedBalanced(u, n, 0);
      CountedBalanced(Fenced(u), n, -1);
    }
  }

  lemma LossBalanced(s: TQ, f: Family, symbol: Option<nat>, at: Position, n: nat)
    requires Balanced(s, n)
    ensures Balanced(ApplyLoss(s, f, symbol, at), n)
  {
    CountedBalanced(s, n, 0);
    if symbol.None? {
      EnterBalanced(s, n);
      CountedBalanced(EnterAggregateOnly(s), n, 0);
    } else if DropApplies(s, f, symbol.value, at) {
      DropOneBalanced(s, f, symbol.value, at, n);
      CountedBalanced(DropOne(s, f, symbol.value, at), n, 0);
    }
  }

  lemma DropBalanced(s: TQ, current: bool, f: Family, symbol: Option<nat>, shed: bool, at: Position, n: nat)
    requires Balanced(s, n)
    ensures Balanced(ApplyDrop(s, current, f, symbol, shed, at), n)
  {
    CountedBalanced(s, n, 0);
    CountedBalanced(Consume(s), n, 0);
    ShedBalanced(Consume(s), f, symbol, at, n);
    LossBalanced(Consume(s), f, symbol, at, n);
  }

  lemma KeepBalanced(s: TQ, v: TradeFact, n: nat)
    requires Balanced(s, n) && v.symbol in s.members && v.identity !in s.members[v.symbol].held.prints
    ensures Balanced(Keep(s, v, s.members[v.symbol], TRADE_CHARGE + PRINT_CHARGE), n)
  {
    var m := s.members[v.symbol];
    var prints := m.held.prints[v.identity := Print(v.value, v.receipt)];
    assert prints.Keys == m.held.prints.Keys + {v.identity};
    assert |prints| == |prints.Keys| == |m.held.prints| + 1;
    ReplaceBalanced(s, Keep(s, v, m, TRADE_CHARGE + PRINT_CHARGE), n, v.symbol,
                    Keep(s, v, m, TRADE_CHARGE + PRINT_CHARGE).members[v.symbol]);
  }

  lemma RepeatedBalanced(s: TQ, v: TradeFact, n: nat)
    requires Balanced(s, n) && v.symbol in s.members && v.identity in s.members[v.symbol].held.prints
    ensures Balanced(Repeated(s, v, s.members[v.symbol]), n)
  {
    var m := s.members[v.symbol].(unequalRepeat := true);
    CountedBalanced(s, n, 0);
    SetBalanced(s, n, v.symbol, m);
    CountedBalanced(Set(s, v.symbol, m), n, 0);
  }

  lemma TakeTradeBalanced(s: TQ, v: TradeFact, limits: Limits, n: nat)
    requires Balanced(s, n) && v.symbol in s.members
    ensures Balanced(TakeTrade(s, v, s.members[v.symbol], limits), n)
  {
    var m := s.members[v.symbol];
    if v.identity in m.held.prints {
      RepeatedBalanced(s, v, n);
    } else {
      SetBalanced(s, n, v.symbol, Unbounded(m));
      CountedBalanced(Set(s, v.symbol, Unbounded(m)), n, 0);
      EnterBalanced(s, n);
      CountedBalanced(EnterGlobalBound(s), n, 0);
      KeepBalanced(s, v, n);
      CountedBalanced(Keep(s, v, m, TRADE_CHARGE + PRINT_CHARGE), n, 0);
    }
  }

  lemma TradeBalanced(s: TQ, current: bool, v: TradeFact, clock: Clock, now: int, limits: Limits, n: nat)
    requires Balanced(s, n)
    ensures Balanced(ApplyTrade(s, current, v, clock, now, limits, n), n)
  {
    var target := if clock.committed.Some? then clock.committed.value else now;
    var t := Prune(Consume(s), n, target, now);
    SameMembersBalanced(s, Consume(s), n);
    PruneBalanced(Consume(s), n, n, target, now);
    if v.symbol in t.members {
      var m := Seen(t.members[v.symbol], TradeFamily, v.at);
      SetBalanced(t, n, v.symbol, m);
      TakeTradeBalanced(Set(t, v.symbol, m), v, limits, n);
    }
  }

  lemma KeepQuoteBalanced(s: TQ, symbol: nat, q: Quote, n: nat)
    requires Balanced(s, n) && symbol in s.members
    ensures Balanced(KeepQuote(s, symbol, q, s.members[symbol]), n)
  {
    var t := KeepQuote(s, symbol, q, s.members[symbol]);
    ReplaceBalanced(s, t, n, symbol, t.members[symbol]);
  }

  lemma TakeQuoteBalanced(s: TQ, symbol: nat, q: Quote, limits: Limits, n: nat)
    requires Balanced(s, n) && symbol in s.members
    ensures Balanced(TakeQuote(s, symbol, q, s.members[symbol], limits), n)
  {
    var m := s.members[symbol];
    SetBalanced(s, n, symbol, Unbounded(m));
    CountedBalanced(Set(s, symbol, Unbounded(m)), n, 0);
    EnterBalanced(s, n);
    CountedBalanced(EnterGlobalBound(s), n, 0);
    KeepQuoteBalanced(s, symbol, q, n);
    CountedBalanced(KeepQuote(s, symbol, q, m), n, 0);
  }

  lemma QuoteBalanced(s: TQ, current: bool, symbol: nat, q: Quote, clock: Clock, limits: Limits, n: nat)
    requires Balanced(s, n)
    ensures Balanced(ApplyQuote(s, current, symbol, q, clock, limits), n)
  {
    var t := Consume(s);
    SameMembersBalanced(s, t, n);
    if symbol in t.members {
      var m := Seen(t.members[symbol], QuoteFamily, q.position);
      SetBalanced(t, n, symbol, m);
      TakeQuoteBalanced(Set(t, symbol, m), symbol, q, limits, n);
    }
  }

  lemma UnwantOneBalanced(s: TQ, symbol: nat, n: nat)
    requires Balanced(s, n) && symbol in s.members
    ensures Balanced(UnwantOne(s, symbol), n)
  {
    SetBalanced(s, n, symbol, Unwanted(s.members[symbol]));
    DeleteBalanced(Set(s, symbol, Unwanted(s.members[symbol])), n, symbol);
  }

  lemma {:induction false} UnwantedBalanced(s: TQ, k: nat, n: nat)
    requires Balanced(s, n)
    ensures Balanced(DropUnwanted(s, k), n)
  {
    if k > 0 {
      UnwantedBalanced(s, k - 1, n);
      if k - 1 in DropUnwanted(s, k - 1).members { UnwantOneBalanced(DropUnwanted(s, k - 1), k - 1, n); }
    }
  }

  lemma {:induction false} MissingBalanced(s: TQ, desired: seq<nat>, room: nat, n: nat)
    requires Balanced(s, n) && forall i :: 0 <= i < |desired| ==> desired[i] < n
    ensures Balanced(Missing(s, desired, room).0, n)
    decreases |desired|
  {
    if desired != [] {
      MissingBalanced(s, desired[..|desired| - 1], room, n);
      EnsureBalanced(Missing(s, desired[..|desired| - 1], room).0, n, desired[|desired| - 1]);
    }
  }

  function Room(s: TQ): nat {
    var onWire := |WireSet(s.members)|;
    if onWire < MAXIMUM_TQ_SYMBOLS then MAXIMUM_TQ_SYMBOLS - onWire else 0
  }

  lemma SettleBalanced(s: TQ, n: nat)
    requires Balanced(s, n) && forall i :: 0 <= i < |s.wish.desired| ==> s.wish.desired[i] < n
    ensures Balanced(Settle(s, n), n)
  {
    if Removals(s) != {} {
      IssueBalanced(s, Unsubscribe, Removals(s), n);
    } else {
      MissingBalanced(s, s.wish.desired, Room(s), n);
      var (t, missing) := Missing(s, s.wish.desired, Room(s));
      var u := t.(wish := t.wish.(permit := false));
      if missing != [] {
        IssueBalanced(u, Subscribe, {missing[0]}, n);
        IssueBalanced(u, Subscribe, Elements(missing), n);
      }
    }
  }

  lemma EpochBalanced(s: TQ, epoch: nat, writeToken: nat, n: nat)
    ensures Balanced(NextEpoch(s, epoch, writeToken), n)
  {
    EmptySum(n, TradeKind);
    EmptySum(n, QuoteKind);
    EmptySum(n, PrintKind);
    EmptySum(n, ByteKind);
  }

  lemma {:induction false} EmptySum(n: nat, k: Kind)
    ensures Sum(map[], n, k) == 0
  {
    if n > 0 { EmptySum(n - 1, k); }
  }

  /** The state a reconciliation settles the wire from. */
  function Tidied(s: TQ, e: Surroundings, cadence: bool, n: nat): TQ {
    DropStale(DropUnwanted(Prune(Renewed(s, e, cadence), n, e.target, e.now), n))
  }

  lemma TidiedBalanced(s: TQ, e: Surroundings, cadence: bool, n: nat)
    requires Balanced(s, n)
    ensures var d := Tidied(s, e, cadence, n);
            Balanced(d, n) && d.wish.desired == e.desired
            && (d.pending.None? || d.pending == s.pending)
  {
    EpochBalanced(s, e.epoch, e.writeToken, n);
    var c := Renewed(s, e, cadence);
    SameMembersBalanced(if s.epoch != e.epoch then NextEpoch(s, e.epoch, e.writeToken) else s, c, n);
    PruneBalanced(c, n, n, e.target, e.now);
    UnwantedBalanced(Prune(c, n, e.target, e.now), n, n);
    DropKeepsWish(Prune(c, n, e.target, e.now), n);
    PruneKeepsRest(c, n, e.target, e.now);
  }

  lemma ReconcileBalanced(s: TQ, e: Surroundings, cadence: bool, n: nat)
    requires Balanced(s, n) && forall i :: 0 <= i < |e.desired| ==> e.desired[i] < n
    ensures Balanced(Reconcile(s, e, cadence, n), n)
  {
    TidiedBalanced(s, e, cadence, n);
    SettleBalanced(Tidied(s, e, cadence, n), n);
  }

  lemma ModeBalanced(s: TQ, mode: Mode, n: nat)
    requires Balanced(s, n)
    ensures Balanced(SetMode(s, mode), n)
  {
    var t := s.(mode := mode);
    EnterBalanced(t, n);
    var u := StopAdditions(t);
    RemapBalanced(u, u.(members := map k | k in u.members :: Degrade(u.members[k])), n);
  }

  // --------------------------------------------------------------------------------------- what the loops leave alone

  /** Everything but the members and the totals. */
  ghost predicate SameRest(s: TQ, t: TQ) {
    t == s.(members := t.members, totals := t.totals)
  }

  lemma {:induction false} PruneKeepsRest(s: TQ, k: nat, target: int, now: int)
    ensures SameRest(s, Prune(s, k, target, now))
  {
    if k > 0 { PruneKeepsRest(s, k - 1, target, now); }
  }

  lemma UnwantOneKeepsRest(s: TQ, symbol: nat)
    requires symbol in s.members
    ensures SameRest(s, UnwantOne(s, symbol))
  {}

  lemma {:induction false} DropKeepsWish(s: TQ, k: nat)
    ensures SameRest(s, DropUnwanted(s, k))
  {
    if k > 0 {
      DropKeepsWish(s, k - 1);
      if k - 1 in DropUnwanted(s, k - 1).members { UnwantOneKeepsRest(DropUnwanted(s, k - 1), k - 1); }
    }
  }

  // ------------------------------------------------------------------------------------------- commands and facts

  function Bit(b: bool): nat {
    if b then 1 else 0
  }

  /** Every command issued is pending, written, failed or fenced, and only a pending one is dispatched. */
  ghost predicate CommandsAdd(s: TQ) {
    && s.commands.issued == Bit(s.pending.Some?) + s.commands.written + s.commands.failed + s.commands.fenced
    && (s.dispatched ==> s.pending.Some?)
  }

  /** Every fact consumed has one outcome. */
  ghost predicate FactsAdd(s: TQ) {
    s.facts.consumed == s.facts.taken.applied + s.facts.taken.duplicate + s.facts.taken.rejected
                        + s.facts.refused.fenced + s.facts.refused.shed + s.facts.refused.integrity
  }

  ghost predicate Counted(s: TQ) {
    CommandsAdd(s) && FactsAdd(s)
  }

  lemma SameRestCounted(s: TQ, t: TQ)
    requires Counted(s) && SameRest(s, t)
    ensures Counted(t)
  {}

  lemma {:induction false} SilenceKeepsRest(s: TQ, symbols: set<nat>, k: nat)
    ensures SameRest(s, SilenceEach(s, symbols, k))
  {
    if k > 0 { SilenceKeepsRest(s, symbols, k - 1); }
  }

  lemma {:induction false} FailKeepsRest(s: TQ, action: Action, symbols: set<nat>, k: nat)
    ensures SameRest(s, FailEach(s, action, symbols, k))
  {
    if k > 0 { FailKeepsRest(s, action, symbols, k - 1); }
  }

  lemma RestTransitive(a: TQ, b: TQ, c: TQ)
    requires SameRest(a, b) && SameRest(b, c)
    ensures SameRest(a, c)
  {}

  lemma EnsureKeepsRest(s: TQ, symbol: nat, m: Member)
    ensures SameRest(s, Ensure(s, symbol)) && SameRest(s, Set(s, symbol, m))
  {}

  lemma ReleaseOneKeepsRest(s: TQ, symbol: nat)
    requires symbol in s.members
    ensures SameRest(s, Release(s, symbol)) && SameRest(s, Delete(s, symbol))
  {}

  lemma RemoveOneKeepsRest(s: TQ, symbol: nat)
    ensures SameRest(s, RemoveOne(s, symbol))
  {
    var t := Ensure(s, symbol);
    var m := t.members[symbol].(wire := t.members[symbol].wire.(requested := false, present := false, unknown := false,
                                                                resetRequired := false));
    EnsureKeepsRest(s, symbol, m);
    var x := Set(t, symbol, m);
    EnsureKeepsRest(t, symbol, m);
    RestTransitive(s, t, x);
    ReleaseOneKeepsRest(x, symbol);
    var u := Release(x, symbol);
    RestTransitive(s, x, u);
    var v := Set(u, symbol, u.members[symbol].(unequalRepeat := false));
    EnsureKeepsRest(u, symbol, u.members[symbol].(unequalRepeat := false));
    RestTransitive(s, u, v);
    ReleaseOneKeepsRest(v, symbol);
    if !Desires(v, symbol) { RestTransitive(s, v, Delete(v, symbol)); }
  }

  lemma SetReleaseKeepsRest(t: TQ, symbol: nat, m: Member)
    ensures SameRest(t, Release(Set(t, symbol, m), symbol))
  {
    EnsureKeepsRest(t, symbol, m);
    ReleaseOneKeepsRest(Set(t, symbol, m), symbol);
    RestTransitive(t, Set(t, symbol, m), Release(Set(t, symbol, m), symbol));
  }

  lemma AddOneKeepsRest(s: TQ, symbol: nat, epoch: nat, boundary: nat)
    ensures SameRest(s, AddOne(s, symbol, epoch, boundary))
  {
    var t := Ensure(s, symbol);
    var m := t.members[symbol];
    EnsureKeepsRest(s, symbol, m);
    var on := Coverage(false, epoch, boundary, NoPosition);
    var owed := Silent(m).(wire := m.wire.(requested := true, present := false, unknown := true,
                                           resetRequired := true));
    var added := m.(wire := m.wire.(requested := true, present := false, unknown := true), trade := on, quote := on);
    if t.mode != Normal || t.aggregateOnly || m.wire.bound || m.wire.resetRequired || !Desires(t, symbol) {
      SetReleaseKeepsRest(t, symbol, owed);
      RestTransitive(s, t, Release(Set(t, symbol, owed), symbol));
    } else {
      SetReleaseKeepsRest(t, symbol, added);
      var u := Release(Set(t, symbol, added), symbol);
      RestTransitive(s, t, u);
      EnsureKeepsRest(u, symbol, u.members[symbol].(unequalRepeat := false));
      RestTransitive(s, u, Set(u, symbol, u.members[symbol].(unequalRepeat := false)));
    }
  }

  lemma WriteOneKeepsRest(s: TQ, c: Command, boundary: nat, symbol: nat)
    ensures SameRest(s, WriteOne(s, c, boundary, symbol))
  {
    if symbol in c.symbols {
      if c.action == Unsubscribe {
        RemoveOneKeepsRest(s, symbol);
      } else {
        AddOneKeepsRest(s, symbol, c.epoch, boundary);
      }
    }
  }

  lemma {:induction false} WriteKeepsRest(s: TQ, c: Command, boundary: nat, k: nat)
    ensures SameRest(s, WriteEach(s, c, boundary, k))
  {
    hide WriteOne;
    if k > 0 {
      WriteKeepsRest(s, c, boundary, k - 1);
      var t := WriteEach(s, c, boundary, k - 1);
      WriteOneKeepsRest(t, c, boundary, k - 1);
      RestTransitive(s, t, WriteOne(t, c, boundary, k - 1));
    }
  }

  lemma {:induction false} ReleaseKeepsRest(s: TQ, k: nat)
    ensures SameRest(s, ReleaseAll(s, k))
  {
    if k > 0 { ReleaseKeepsRest(s, k - 1); }
  }

  lemma {:induction false} MissingKeepsRest(s: TQ, desired: seq<nat>, room: nat)
    ensures SameRest(s, Missing(s, desired, room).0)
    decreases |desired|
  {
    if desired != [] { MissingKeepsRest(s, desired[..|desired| - 1], room); }
  }

  lemma StopCounted(s: TQ)
    requires Counted(s)
    ensures Counted(StopAdditions(s)) && Counted(EnterAggregateOnly(s)) && Counted(EnterGlobalBound(s))
  {}

  lemma IssueCounted(s: TQ, action: Action, symbols: set<nat>, n: nat)
    requires Counted(s) && s.pending.None?
    ensures Counted(Issue(s, action, symbols, n))
  {
    var t := s.(pending := Some(Command(s.epoch, s.nextToken, action, symbols)), dispatched := false,
                nextToken := s.nextToken + 1, commands := s.commands.(issued := s.commands.issued + 1));
    if symbols == {} || |symbols| > MAXIMUM_TQ_SYMBOLS {
      StopCounted(s);
    } else if action == Unsubscribe {
      SilenceKeepsRest(t, symbols, n);
      SameRestCounted(t, SilenceEach(t, symbols, n));
    }
  }

  lemma ResultCounted(s: TQ, current: bool, c: Command, boundary: nat, succeeded: bool, n: nat)
    requires Counted(s)
    ensures Counted(ApplyResult(s, current, c, boundary, succeeded, n))
  {
    var t := Consume(s);
    if current && t.pending == Some(c) && t.dispatched {
      var u := t.(pending := None, dispatched := false);
      if !succeeded {
        FailKeepsRest(u.(commands := u.commands.(failed := u.commands.failed + 1)), c.action, c.symbols, n);
      } else {
        WriteKeepsRest(u.(commands := u.commands.(written := u.commands.written + 1)), c, boundary, n);
      }
    }
  }

  lemma ControlErrorCounted(s: TQ, current: bool, position: Position, n: nat)
    requires Counted(s)
    ensures Counted(ApplyControlError(s, current, position, n))
  {
    var t := Signalled(s, position);
    var f := t.(pending := None, dispatched := false, commands := t.commands.(failed := t.commands.failed + 1));
    if t.pending.Some? { FailKeepsRest(f, t.pending.value.action, t.pending.value.symbols, n); }
    var u := if t.pending.None? then t else FailEach(f, t.pending.value.action, t.pending.value.symbols, n);
    assert Counted(u);
    ReleaseKeepsRest(AllUnknown(u), n);
    SameRestCounted(u, ReleaseAll(AllUnknown(u), n));
    StopCounted(ReleaseAll(AllUnknown(u), n));
  }

  /** Every fact is consumed with exactly one outcome. */
  lemma DropCounted(s: TQ, current: bool, f: Family, symbol: Option<nat>, shed: bool, at: Position)
    requires Counted(s)
    ensures Counted(ApplyDrop(s, current, f, symbol, shed, at))
  {}

  /** A fact consumed and not yet given its outcome. */
  ghost predicate OneOwed(s: TQ) {
    CommandsAdd(s) && s.facts.consumed == s.facts.taken.applied + s.facts.taken.duplicate + s.facts.taken.rejected
                        + s.facts.refused.fenced + s.facts.refused.shed + s.facts.refused.integrity + 1
  }

  lemma OutcomeCounted(s: TQ)
    requires OneOwed(s)
    ensures Counted(Applied(s)) && Counted(Duplicated(s)) && Counted(Rejected(s)) && Counted(Fenced(s))
    ensures Counted(Broken(s))
  {}

  lemma SameRestOwed(s: TQ, t: TQ)
    requires OneOwed(s) && SameRest(s, t)
    ensures OneOwed(t)
  {}

  lemma BoundOwed(s: TQ)
    requires OneOwed(s)
    ensures OneOwed(EnterGlobalBound(s))
  {}

  lemma TakeTradeCounted(s: TQ, v: TradeFact, m: Member, limits: Limits)
    requires OneOwed(s)
    ensures Counted(TakeTrade(s, v, m, limits))
  {
    OutcomeCounted(s);
    SameRestOwed(s, Set(s, v.symbol, m.(unequalRepeat := true)));
    OutcomeCounted(Set(s, v.symbol, m.(unequalRepeat := true)));
    SameRestOwed(s, Set(s, v.symbol, Unbounded(m)));
    OutcomeCounted(Set(s, v.symbol, Unbounded(m)));
    BoundOwed(s);
    OutcomeCounted(EnterGlobalBound(s));
    var kept := Keep(s, v, m, TRADE_CHARGE + PRINT_CHARGE);
    SameRestOwed(s, kept);
    OutcomeCounted(kept);
  }

  lemma TakeQuoteCounted(s: TQ, symbol: nat, q: Quote, m: Member, limits: Limits)
    requires OneOwed(s)
    ensures Counted(TakeQuote(s, symbol, q, m, limits))
  {
    SameRestOwed(s, Set(s, symbol, Unbounded(m)));
    OutcomeCounted(Set(s, symbol, Unbounded(m)));
    BoundOwed(s);
    OutcomeCounted(EnterGlobalBound(s));
    SameRestOwed(s, KeepQuote(s, symbol, q, m));
    OutcomeCounted(KeepQuote(s, symbol, q, m));
  }

  lemma TradeCounted(s: TQ, current: bool, v: TradeFact, clock: Clock, now: int, limits: Limits, n: nat)
    requires Counted(s)
    ensures Counted(ApplyTrade(s, current, v, clock, now, limits, n))
  {
    var target := if clock.committed.Some? then clock.committed.value else now;
    var t := Prune(Consume(s), n, target, now);
    PruneKeepsRest(Consume(s), n, target, now);
    SameRestOwed(Consume(s), t);
    OutcomeCounted(t);
    if v.symbol in t.members {
      var m := Seen(t.members[v.symbol], TradeFamily, v.at);
      SameRestOwed(t, Set(t, v.symbol, m));
      OutcomeCounted(Set(t, v.symbol, m));
      TakeTradeCounted(Set(t, v.symbol, m), v, m, limits);
    }
  }

  lemma QuoteCounted(s: TQ, current: bool, symbol: nat, q: Quote, clock: Clock, limits: Limits)
    requires Counted(s)
    ensures Counted(ApplyQuote(s, current, symbol, q, clock, limits))
  {
    var t := Consume(s);
    OutcomeCounted(t);
    if symbol in t.members {
      var m := Seen(t.members[symbol], QuoteFamily, q.position);
      SameRestOwed(t, Set(t, symbol, m));
      OutcomeCounted(Set(t, symbol, m));
      TakeQuoteCounted(Set(t, symbol, m), symbol, q, m, limits);
    }
  }

  lemma SettleCounted(s: TQ, n: nat)
    requires Counted(s) && s.pending.None?
    ensures Counted(Settle(s, n))
  {
    if Removals(s) != {} {
      IssueCounted(s, Unsubscribe, Removals(s), n);
    } else {
      MissingKeepsRest(s, s.wish.desired, Room(s));
      var (t, missing) := Missing(s, s.wish.desired, Room(s));
      var u := t.(wish := t.wish.(permit := false));
      if missing != [] {
        IssueCounted(u, Subscribe, {missing[0]}, n);
        IssueCounted(u, Subscribe, Elements(missing), n);
      }
    }
  }

  lemma RenewedCounted(s: TQ, e: Surroundings, cadence: bool)
    requires Counted(s)
    ensures Counted(Renewed(s, e, cadence))
  {}

  lemma PrunedCounted(c: TQ, n: nat, target: int, now: int)
    requires Counted(c)
    ensures Counted(DropStale(DropUnwanted(Prune(c, n, target, now), n)))
  {
    var p := Prune(c, n, target, now);
    PruneKeepsRest(c, n, target, now);
    SameRestCounted(c, p);
    DropKeepsWish(p, n);
    SameRestCounted(p, DropUnwanted(p, n));
  }

  lemma ReconcileCounted(s: TQ, e: Surroundings, cadence: bool, n: nat)
    requires Counted(s)
    ensures Counted(Reconcile(s, e, cadence, n))
  {
    RenewedCounted(s, e, cadence);
    PrunedCounted(Renewed(s, e, cadence), n, e.target, e.now);
    var d := DropStale(DropUnwanted(Prune(Renewed(s, e, cadence), n, e.target, e.now), n));
    if d.pending.None? { SettleCounted(d, n); }
  }
}
