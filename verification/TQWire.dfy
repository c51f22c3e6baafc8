/** At most twenty symbols are ever requested on the wire, counting the additions in flight; and the run theorem that
    puts conservation and the wire bound together. */
module TQWire {
  import opened Options
  import opened LivePositions
  import opened TQModel
  import opened TQRuns

  /** Present or unknown implies requested. */
  ghost predicate WireSound(members: map<nat, Member>) {
    forall k :: k in members ==> (members[k].wire.present || members[k].wire.unknown ==> members[k].wire.requested)
  }

  predicate On(members: map<nat, Member>, k: nat) {
    k in members && OnWire(members[k])
  }

  /** The same symbols on the wire. */
  ghost predicate SameWire(a: map<nat, Member>, b: map<nat, Member>) {
    WireSound(b) && forall k :: On(a, k) <==> On(b, k)
  }

  lemma SameWireTransitive(a: map<nat, Member>, b: map<nat, Member>, c: map<nat, Member>)
    requires SameWire(a, b) && SameWire(b, c)
    ensures SameWire(a, c)
  {}

  lemma SetSameWire(s: TQ, symbol: nat, m: Member)
    requires WireSound(s.members) && symbol in s.members
    requires m.wire.requested == s.members[symbol].wire.requested
    requires m.wire.present || m.wire.unknown ==> m.wire.requested
    ensures SameWire(s.members, Set(s, symbol, m).members)
  {}

  lemma EnsureSameWire(s: TQ, symbol: nat)
    requires WireSound(s.members)
    ensures SameWire(s.members, Ensure(s, symbol).members)
  {}

  lemma ReleaseSameWire(s: TQ, symbol: nat)
    requires WireSound(s.members) && symbol in s.members
    ensures SameWire(s.members, Release(s, symbol).members)
  {}

  lemma DeleteSameWire(s: TQ, symbol: nat)
    requires WireSound(s.members) && !On(s.members, symbol)
    ensures SameWire(s.members, Delete(s, symbol).members)
  {}

  lemma {:induction false} PruneSameWire(s: TQ, k: nat, target: int, now: int)
    requires WireSound(s.members)
    ensures SameWire(s.members, Prune(s, k, target, now).members)
  {
    if k > 0 {
      PruneSameWire(s, k - 1, target, now);
      var t := Prune(s, k - 1, target, now);
      if k - 1 in t.members {
        SetSameWire(t, k - 1, PruneOne(t, k - 1, target, now).members[k - 1]);
        SameWireTransitive(s.members, t.members, PruneOne(t, k - 1, target, now).members);
      }
    }
  }

  lemma {:induction false} ReleaseAllSameWire(s: TQ, k: nat)
    requires WireSound(s.members)
    ensures SameWire(s.members, ReleaseAll(s, k).members)
  {
    if k > 0 {
      ReleaseAllSameWire(s, k - 1);
      var t := ReleaseAll(s, k - 1);
      if k - 1 in t.members {
        ReleaseSameWire(t, k - 1);
        SameWireTransitive(s.members, t.members, Release(t, k - 1).members);
      }
    }
  }

  lemma {:induction false} SilenceSameWire(s: TQ, symbols: set<nat>, k: nat)
    requires WireSound(s.members)
    ensures SameWire(s.members, SilenceEach(s, symbols, k).members)
  {
    if k > 0 {
      SilenceSameWire(s, symbols, k - 1);
      var t := SilenceEach(s, symbols, k - 1);
      if k - 1 in symbols {
        EnsureSameWire(t, k - 1);
        var u := Ensure(t, k - 1);
        SetSameWire(u, k - 1, Silent(u.members[k - 1]));
        SameWireTransitive(t.members, u.members, SilenceOne(t, k - 1).members);
        SameWireTransitive(s.members, t.members, SilenceOne(t, k - 1).members);
      }
    }
  }

  lemma UnwantOneSameWire(s: TQ, symbol: nat)
    requires WireSound(s.members) && symbol in s.members
    ensures SameWire(s.members, UnwantOne(s, symbol).members)
  {
    var u := Set(s, symbol, Unwanted(s.members[symbol]));
    SetSameWire(s, symbol, Unwanted(s.members[symbol]));
    if !s.members[symbol].wire.requested && HoldsNothing(s.members[symbol].held) {
      DeleteSameWire(u, symbol);
      SameWireTransitive(s.members, u.members, Delete(u, symbol).members);
    }
  }

  lemma {:induction false} UnwantedSameWire(s: TQ, k: nat)
    requires WireSound(s.members)
    ensures SameWire(s.members, DropUnwanted(s, k).members)
  {
    if k > 0 {
      UnwantedSameWire(s, k - 1);
      var t := DropUnwanted(s, k - 1);
      if k - 1 in t.members && !Desires(t, k - 1) {
        UnwantOneSameWire(t, k - 1);
        SameWireTransitive(s.members, t.members, UnwantOne(t, k - 1).members);
      }
    }
  }

  lemma {:induction false} MissingSameWire(s: TQ, desired: seq<nat>, room: nat)
    requires WireSound(s.members)
    ensures SameWire(s.members, Missing(s, desired, room).0.members)
    ensures |Missing(s, desired, room).1| <= room
    decreases |desired|
  {
    if desired != [] {
      MissingSameWire(s, desired[..|desired| - 1], room);
      var t := Missing(s, desired[..|desired| - 1], room).0;
      EnsureSameWire(t, desired[|desired| - 1]);
      SameWireTransitive(s.members, t.members, Ensure(t, desired[|desired| - 1]).members);
    }
  }

  lemma CloseSameWire(s: TQ)
    requires WireSound(s.members)
    ensures SameWire(s.members, CloseAll(s).members) && SameWire(s.members, AllUnknown(s).members)
  {}

  // ------------------------------------------------------------------------------------------------ the wire itself

  /** The additions in flight. */
  function Adding(s: TQ): set<nat> {
    if s.pending.Some? && s.pending.value.action == Subscribe then s.pending.value.symbols else {}
  }

  /** No more than twenty symbols on the wire and on their way to it, and removals only of what is on it. */
  ghost predicate WireBounded(s: TQ) {
    && WireSound(s.members)
    && |WireSet(s.members) + Adding(s)| <= MAXIMUM_TQ_SYMBOLS
    && (s.pending.Some? && s.pending.value.action == Unsubscribe ==>
          forall k :: k in s.pending.value.symbols ==> On(s.members, k))
  }

  lemma SameWireSet(a: map<nat, Member>, b: map<nat, Member>)
    requires SameWire(a, b)
    ensures WireSet(a) == WireSet(b)
  {
    forall k ensures k in WireSet(a) <==> k in WireSet(b) { assert On(a, k) <==> On(b, k); }
  }

  lemma SmallerSet(a: set<nat>, b: set<nat>)
    requires forall k :: k in a ==> k in b
    ensures |a| <= |b|
  {
    assert a <= b;
    assert b == a + (b - a);
  }

  /** The wire as it was, and the pending command kept or gone. */
  lemma SameWireBounded(s: TQ, t: TQ)
    requires WireBounded(s) && SameWire(s.members, t.members) && (t.pending == s.pending || t.pending.None?)
    ensures WireBounded(t)
  {
    SameWireSet(s.members, t.members);
    SmallerSet(WireSet(t.members) + Adding(t), WireSet(s.members) + Adding(s));
    if t.pending.Some? && t.pending.value.action == Unsubscribe {
      forall k | k in t.pending.value.symbols ensures On(t.members, k) { assert On(s.members, k); }
    }
  }

  /** A step that may put some symbols on the wire, and nothing else. */
  ghost predicate Grows(a: map<nat, Member>, b: map<nat, Member>, extra: set<nat>) {
    WireSound(b) && forall k :: On(b, k) ==> On(a, k) || k in extra
  }

  lemma {:induction false} FailGrows(s: TQ, action: Action, symbols: set<nat>, k: nat)
    requires WireSound(s.members)
    requires action == Unsubscribe ==> forall x :: x in symbols ==> On(s.members, x)
    ensures Grows(s.members, FailEach(s, action, symbols, k).members, {})
  {
    if k > 0 {
      FailGrows(s, action, symbols, k - 1);
      if k - 1 in symbols { EnsureSameWire(FailEach(s, action, symbols, k - 1), k - 1); }
    }
  }

  lemma RemoveOneGrows(s: TQ, symbol: nat)
    requires WireSound(s.members)
    ensures Grows(s.members, RemoveOne(s, symbol).members, {})
  {
    var t := Ensure(s, symbol);
    EnsureSameWire(s, symbol);
    var m := t.members[symbol].(wire := t.members[symbol].wire.(requested := false, present := false, unknown := false,
                                                                resetRequired := false));
    var x := Set(t, symbol, m);
    assert Grows(s.members, x.members, {}) && !On(x.members, symbol);
    var u := Release(x, symbol);
    ReleaseSameWire(x, symbol);
    var v := Set(u, symbol, u.members[symbol].(unequalRepeat := false));
    SetSameWire(u, symbol, u.members[symbol].(unequalRepeat := false));
    SameWireTransitive(x.members, u.members, v.members);
    assert !On(v.members, symbol);
    DeleteSameWire(v, symbol);
  }

  /** One member put on the wire and released. */
  lemma PutGrows(t: TQ, symbol: nat, m: Member)
    requires WireSound(t.members) && symbol in t.members && m.wire.requested
    ensures Grows(t.members, Release(Set(t, symbol, m), symbol).members, {symbol})
  {
    ReleaseSameWire(Set(t, symbol, m), symbol);
  }

  lemma GrowsThen(a: map<nat, Member>, b: map<nat, Member>, c: map<nat, Member>, extra: set<nat>, more: set<nat>)
    requires Grows(a, b, extra) && Grows(b, c, more)
    ensures Grows(a, c, extra + more)
  {}

  lemma AddOneGrows(s: TQ, symbol: nat, epoch: nat, boundary: nat)
    requires WireSound(s.members)
    ensures Grows(s.members, AddOne(s, symbol, epoch, boundary).members, {symbol})
  {
    var t := Ensure(s, symbol);
    var m := t.members[symbol];
    EnsureSameWire(s, symbol);
    var on := Coverage(false, epoch, boundary, NoPosition);
    var owed := Silent(m).(wire := m.wire.(requested := true, present := false, unknown := true,
                                           resetRequired := true));
    var added := m.(wire := m.wire.(requested := true, present := false, unknown := true), trade := on, quote := on);
    PutGrows(t, symbol, owed);
    PutGrows(t, symbol, added);
    var u := Release(Set(t, symbol, added), symbol);
    SetSameWire(u, symbol, u.members[symbol].(unequalRepeat := false));
  }

  lemma WriteOneGrows(s: TQ, c: Command, boundary: nat, symbol: nat)
    requires WireSound(s.members)
    ensures Grows(s.members, WriteOne(s, c, boundary, symbol).members, if c.action == Subscribe then c.symbols else {})
  {
    if symbol in c.symbols {
      if c.action == Unsubscribe { RemoveOneGrows(s, symbol); } else { AddOneGrows(s, symbol, c.epoch, boundary); }
    }
  }

  lemma {:induction false} WriteGrows(s: TQ, c: Command, boundary: nat, k: nat)
    requires WireSound(s.members)
    ensures Grows(s.members, WriteEach(s, c, boundary, k).members, if c.action == Subscribe then c.symbols else {})
  {
    hide WriteOne;
    var extra := if c.action == Subscribe then c.symbols else {};
    if k > 0 {
      WriteGrows(s, c, boundary, k - 1);
      var t := WriteEach(s, c, boundary, k - 1);
      WriteOneGrows(t, c, boundary, k - 1);
      GrowsThen(s.members, t.members, WriteOne(t, c, boundary, k - 1).members, extra, extra);
      assert extra + extra == extra;
    }
  }

  /** Putting on the wire what was on its way keeps the bound. */
  lemma GrowsBounded(s: TQ, t: TQ)
    requires WireBounded(s) && Grows(s.members, t.members, Adding(s)) && t.pending.None?
    ensures WireBounded(t)
  {
    forall k | k in WireSet(t.members) + Adding(t) ensures k in WireSet(s.members) + Adding(s) {
      assert On(t.members, k);
      assert On(s.members, k) || k in Adding(s);
    }
    SmallerSet(WireSet(t.members) + Adding(t), WireSet(s.members) + Adding(s));
  }

  // ------------------------------------------------------------------------------------------------------- the steps

  /** A step that leaves the wire as it is, and the pending command kept or gone. */
  ghost predicate Calm(s: TQ, t: TQ) {
    SameWire(s.members, t.members) && (t.pending == s.pending || t.pending.None?)
  }

  lemma CalmThen(a: TQ, b: TQ, c: TQ)
    requires Calm(a, b) && Calm(b, c)
    ensures Calm(a, c)
  {
    SameWireTransitive(a.members, b.members, c.members);
  }

  lemma OutcomeCalm(s: TQ)
    requires WireSound(s.members)
    ensures Calm(s, Consume(s)) && Calm(s, Applied(s)) && Calm(s, Duplicated(s)) && Calm(s, Rejected(s))
    ensures Calm(s, Fenced(s)) && Calm(s, Broken(s)) && Calm(s, Shed(s, 1)) && Calm(s, Shed(s, -1))
  {}

  /** A step and then its outcome. */
  lemma ThenOutcome(s: TQ, t: TQ)
    requires Calm(s, t)
    ensures Calm(s, Applied(t)) && Calm(s, Rejected(t)) && Calm(s, Broken(t)) && Calm(s, Fenced(t))
  {}

  lemma SetCalm(s: TQ, symbol: nat, m: Member)
    requires WireSound(s.members) && symbol in s.members
    requires m.wire.requested == s.members[symbol].wire.requested
    requires m.wire.present || m.wire.unknown ==> m.wire.requested
    ensures Calm(s, Set(s, symbol, m))
  {
    SetSameWire(s, symbol, m);
  }

  lemma StopCalm(s: TQ)
    requires WireSound(s.members)
    ensures Calm(s, StopAdditions(s))
  {}

  lemma CloseCalm(s: TQ)
    requires WireSound(s.members)
    ensures Calm(s, CloseAll(s)) && Calm(s, AllUnknown(s))
  {
    CloseSameWire(s);
  }

  lemma EnterCalm(s: TQ)
    requires WireSound(s.members)
    ensures Calm(s, EnterAggregateOnly(s))
  {
    var a := s.(mode := AggregateOnly, aggregateOnly := true);
    StopCalm(a);
    CloseCalm(StopAdditions(a));
    CalmThen(a, StopAdditions(a), CloseAll(StopAdditions(a)));
  }

  lemma BoundCalm(s: TQ)
    requires WireSound(s.members)
    ensures Calm(s, EnterGlobalBound(s))
  {
    EnterCalm(s.(globalBound := true));
  }

  lemma CalmBounded(s: TQ, t: TQ)
    requires WireBounded(s) && Calm(s, t)
    ensures WireBounded(t)
  {
    SameWireBounded(s, t);
  }

  lemma ShedCalm(s: TQ, f: Family, symbol: Option<nat>, at: Position)
    requires WireSound(s.members)
    ensures Calm(s, ApplyShed(s, f, symbol, at))
  {
    var u := Shed(s, 1);
    if symbol.Some? && DropApplies(u, f, symbol.value, at) {
      SetCalm(u, symbol.value, AfterDrop(u.members[symbol.value], f, at));
    }
  }

  lemma LossCalm(s: TQ, f: Family, symbol: Option<nat>, at: Position)
    requires WireSound(s.members)
    ensures Calm(s, ApplyLoss(s, f, symbol, at))
  {
    OutcomeCalm(s);
    if symbol.None? {
      EnterCalm(s);
      ThenOutcome(s, EnterAggregateOnly(s));
    } else if DropApplies(s, f, symbol.value, at) {
      SetCalm(s, symbol.value, AfterDrop(s.members[symbol.value], f, at));
      ThenOutcome(s, DropOne(s, f, symbol.value, at));
    }
  }

  lemma DropCalm(s: TQ, current: bool, f: Family, symbol: Option<nat>, shed: bool, at: Position)
    requires WireSound(s.members)
    ensures Calm(s, ApplyDrop(s, current, f, symbol, shed, at))
  {
    OutcomeCalm(s);
    OutcomeCalm(Consume(s));
    ShedCalm(Consume(s), f, symbol, at);
    LossCalm(Consume(s), f, symbol, at);
  }

  lemma RepeatedCalm(s: TQ, v: TradeFact)
    requires WireSound(s.members) && v.symbol in s.members && v.identity in s.members[v.symbol].held.prints
    ensures Calm(s, Repeated(s, v, s.members[v.symbol]))
  {
    var m := s.members[v.symbol].(unequalRepeat := true);
    OutcomeCalm(s);
    SetCalm(s, v.symbol, m);
    ThenOutcome(s, Set(s, v.symbol, m));
  }

  lemma TakeTradeCalm(s: TQ, v: TradeFact, limits: Limits)
    requires WireSound(s.members) && v.symbol in s.members
    ensures Calm(s, TakeTrade(s, v, s.members[v.symbol], limits))
  {
    var m := s.members[v.symbol];
    if v.identity in m.held.prints {
      RepeatedCalm(s, v);
    } else {
      SetCalm(s, v.symbol, Unbounded(m));
      ThenOutcome(s, Set(s, v.symbol, Unbounded(m)));
      BoundCalm(s);
      ThenOutcome(s, EnterGlobalBound(s));
      var kept := Keep(s, v, m, TRADE_CHARGE + PRINT_CHARGE);
      SetCalm(s, v.symbol, kept.members[v.symbol]);
      ThenOutcome(s, kept);
    }
  }

  lemma TakeQuoteCalm(s: TQ, symbol: nat, q: Quote, limits: Limits)
    requires WireSound(s.members) && symbol in s.members
    ensures Calm(s, TakeQuote(s, symbol, q, s.members[symbol], limits))
  {
    var m := s.members[symbol];
    SetCalm(s, symbol, Unbounded(m));
    ThenOutcome(s, Set(s, symbol, Unbounded(m)));
    BoundCalm(s);
    ThenOutcome(s, EnterGlobalBound(s));
    var kept := KeepQuote(s, symbol, q, m);
    SetCalm(s, symbol, kept.members[symbol]);
    ThenOutcome(s, kept);
  }

  lemma PruneCalm(s: TQ, n: nat, target: int, now: int)
    requires WireSound(s.members)
    ensures Calm(s, Prune(s, n, target, now))
  {
    PruneSameWire(s, n, target, now);
    PruneKeepsRest(s, n, target, now);
  }

  /** A channel seen to work is still of a requested symbol. */
  lemma SeenCalm(s: TQ, symbol: nat, f: Family, at: Position)
    requires WireSound(s.members) && symbol in s.members && OnWire(s.members[symbol])
    ensures Calm(s, Set(s, symbol, Seen(s.members[symbol], f, at)))
  {
    SetCalm(s, symbol, Seen(s.members[symbol], f, at));
  }

  lemma TradeCalm(s: TQ, current: bool, v: TradeFact, clock: Clock, now: int, limits: Limits, n: nat)
    requires WireSound(s.members)
    ensures Calm(s, ApplyTrade(s, current, v, clock, now, limits, n))
  {
    var target := if clock.committed.Some? then clock.committed.value else now;
    var t := Prune(Consume(s), n, target, now);
    PruneCalm(Consume(s), n, target, now);
    ThenOutcome(s, t);
    if Admits(t, current, v.symbol, TradeFamily, v.at) {
      var u := Set(t, v.symbol, Seen(t.members[v.symbol], TradeFamily, v.at));
      SeenCalm(t, v.symbol, TradeFamily, v.at);
      CalmThen(s, t, u);
      ThenOutcome(s, u);
      TakeTradeCalm(u, v, limits);
      CalmThen(s, u, TakeTrade(u, v, u.members[v.symbol], limits));
    }
  }

  lemma QuoteCalm(s: TQ, current: bool, symbol: nat, q: Quote, clock: Clock, limits: Limits)
    requires WireSound(s.members)
    ensures Calm(s, ApplyQuote(s, current, symbol, q, clock, limits))
  {
    var t := Consume(s);
    OutcomeCalm(s);
    ThenOutcome(s, t);
    if Admits(t, current, symbol, QuoteFamily, q.position) {
      var u := Set(t, symbol, Seen(t.members[symbol], QuoteFamily, q.position));
      SeenCalm(t, symbol, QuoteFamily, q.position);
      CalmThen(s, t, u);
      ThenOutcome(s, u);
      TakeQuoteCalm(u, symbol, q, limits);
      CalmThen(s, u, TakeQuote(u, symbol, q, u.members[symbol], limits));
    }
  }

  lemma ModeCalm(s: TQ, mode: Mode)
    requires WireSound(s.members)
    ensures Calm(s, SetMode(s, mode))
  {
    var t := s.(mode := mode);
    EnterCalm(t);
    var u := StopAdditions(t);
    StopCalm(t);
    DegradeSameWire(u);
  }

  lemma DegradeSameWire(u: TQ)
    requires WireSound(u.members)
    ensures SameWire(u.members, map k | k in u.members :: Degrade(u.members[k]))
  {}

  // --------------------------------------------------------------------------------- the steps that move the wire

  /** The failed command gone, its symbols no more on the wire than they were. */
  lemma FailedCalm(f: TQ, s: TQ, n: nat)
    requires WireBounded(s) && s.pending.Some? && f.pending.None? && f.members == s.members
    ensures WireBounded(FailEach(f, s.pending.value.action, s.pending.value.symbols, n))
  {
    FailGrows(f, s.pending.value.action, s.pending.value.symbols, n);
    FailKeepsRest(f, s.pending.value.action, s.pending.value.symbols, n);
    GrowsBounded(s, FailEach(f, s.pending.value.action, s.pending.value.symbols, n));
  }

  lemma WrittenBounded(w: TQ, s: TQ, boundary: nat, n: nat)
    requires WireBounded(s) && s.pending.Some? && w.pending.None? && w.members == s.members
    ensures WireBounded(WriteEach(w, s.pending.value, boundary, n))
  {
    WriteGrows(w, s.pending.value, boundary, n);
    WriteKeepsRest(w, s.pending.value, boundary, n);
    GrowsBounded(s, WriteEach(w, s.pending.value, boundary, n));
  }

  lemma ClosedCalm(v: TQ)
    requires WireSound(v.members)
    ensures Calm(v, CloseAll(StopAdditions(v)))
  {
    StopCalm(v);
    CloseCalm(StopAdditions(v));
    CalmThen(v, StopAdditions(v), CloseAll(StopAdditions(v)));
  }

  lemma FailureBounded(s: TQ, f: TQ, n: nat)
    requires WireBounded(s) && s.pending.Some? && f.pending.None? && f.members == s.members
    ensures var v := FailEach(f, s.pending.value.action, s.pending.value.symbols, n);
            WireBounded(Rejected(CloseAll(StopAdditions(v.(control := v.control.(closed := true, epoch := s.epoch))))))
  {
    FailedCalm(f, s, n);
    var v := FailEach(f, s.pending.value.action, s.pending.value.symbols, n);
    var x := v.(control := v.control.(closed := true, epoch := s.epoch));
    ClosedCalm(x);
    ThenOutcome(x, CloseAll(StopAdditions(x)));
    CalmBounded(v, Rejected(CloseAll(StopAdditions(x))));
  }

  lemma SuccessBounded(s: TQ, w: TQ, boundary: nat, n: nat)
    requires WireBounded(s) && s.pending.Some? && w.pending.None? && w.members == s.members
    ensures WireBounded(Applied(WriteEach(w, s.pending.value, boundary, n)))
  {
    WrittenBounded(w, s, boundary, n);
    var x := WriteEach(w, s.pending.value, boundary, n);
    OutcomeCalm(x);
    CalmBounded(x, Applied(x));
  }

  lemma ResultBounded(s: TQ, current: bool, c: Command, boundary: nat, succeeded: bool, n: nat)
    requires WireBounded(s)
    ensures WireBounded(ApplyResult(s, current, c, boundary, succeeded, n))
  {
    var u := Consume(s).(pending := None, dispatched := false);
    if !(current && s.pending == Some(c) && s.dispatched) {
      CalmBounded(s, ApplyResult(s, current, c, boundary, succeeded, n));
    } else if succeeded {
      SuccessBounded(s, u.(commands := u.commands.(written := u.commands.written + 1)), boundary, n);
    } else {
      FailureBounded(s, u.(commands := u.commands.(failed := u.commands.failed + 1)), n);
    }
  }

  /** A control error silences the whole channel. */
  lemma SilencedCalm(u: TQ, n: nat)
    requires WireSound(u.members)
    ensures Calm(u, CloseAll(StopAdditions(ReleaseAll(AllUnknown(u), n))))
  {
    var a := AllUnknown(u);
    CloseCalm(u);
    ReleaseAllSameWire(a, n);
    ReleaseKeepsRest(a, n);
    var b := ReleaseAll(a, n);
    CalmThen(u, a, b);
    ClosedCalm(b);
    CalmThen(u, b, CloseAll(StopAdditions(b)));
  }

  lemma ControlErrorBounded(s: TQ, current: bool, position: Position, n: nat)
    requires WireBounded(s)
    ensures WireBounded(ApplyControlError(s, current, position, n))
  {
    var t := Signalled(s, position);
    var f := t.(pending := None, dispatched := false, commands := t.commands.(failed := t.commands.failed + 1));
    if t.pending.None? {
      SilencedCalm(t, n);
      CalmBounded(s, CloseAll(StopAdditions(ReleaseAll(AllUnknown(t), n))));
    } else {
      FailedCalm(f, s, n);
      var u := FailEach(f, t.pending.value.action, t.pending.value.symbols, n);
      SilencedCalm(u, n);
      CalmBounded(u, CloseAll(StopAdditions(ReleaseAll(AllUnknown(u), n))));
    }
  }

  /** A removal command is for symbols on the wire, so never for too many. */
  lemma RemovalsOnWire(s: TQ)
    requires WireBounded(s)
    ensures |Removals(s)| <= MAXIMUM_TQ_SYMBOLS && forall k :: k in Removals(s) ==> On(s.members, k)
  {
    forall k | k in Removals(s) ensures k in WireSet(s.members) + Adding(s) {}
    SmallerSet(Removals(s), WireSet(s.members) + Adding(s));
  }

  lemma RemovalBounded(s: TQ, n: nat)
    requires WireBounded(s) && s.pending.None? && Removals(s) != {}
    ensures WireBounded(Issue(s, Unsubscribe, Removals(s), n))
  {
    RemovalsOnWire(s);
    var t := s.(pending := Some(Command(s.epoch, s.nextToken, Unsubscribe, Removals(s))), dispatched := false,
                nextToken := s.nextToken + 1, commands := s.commands.(issued := s.commands.issued + 1));
    SilenceSameWire(t, Removals(s), n);
    SilenceKeepsRest(t, Removals(s), n);
    var u := SilenceEach(t, Removals(s), n);
    SameWireSet(s.members, u.members);
    assert Adding(u) == {} && Adding(s) == {};
    forall k | k in Removals(s) ensures On(u.members, k) { assert On(s.members, k); }
  }

  lemma UnionSize(a: set<nat>, b: set<nat>)
    ensures |a + b| <= |a| + |b|
  {
    assert a + b == a + (b - a);
    SmallerSet(b - a, b);
  }

  lemma {:induction false} SequenceSize(missing: seq<nat>)
    ensures |Elements(missing)| <= |missing|
    decreases |missing|
  {
    if missing == [] {
      assert Elements(missing) == {};
    } else {
      var front, last := missing[..|missing| - 1], missing[|missing| - 1];
      SequenceSize(front);
      assert missing == front + [last];
      assert Elements(missing) == Elements(front) + {last};
      UnionSize(Elements(front), {last});
    }
  }

  /** An addition command is for as many symbols as the wire has room for. */
  lemma AdditionBounded(u: TQ, symbols: set<nat>, n: nat)
    requires WireBounded(u) && u.pending.None? && symbols != {}
    requires |WireSet(u.members)| + |symbols| <= MAXIMUM_TQ_SYMBOLS
    ensures WireBounded(Issue(u, Subscribe, symbols, n))
  {
    UnionSize(WireSet(u.members), symbols);
  }

  lemma RoomLeft(s: TQ)
    requires WireBounded(s)
    ensures |WireSet(s.members)| + Room(s) <= MAXIMUM_TQ_SYMBOLS
  {
    SmallerSet(WireSet(s.members), WireSet(s.members) + Adding(s));
  }

  lemma AdditionsBounded(u: TQ, missing: seq<nat>, n: nat)
    requires WireBounded(u) && u.pending.None? && missing != []
    requires |WireSet(u.members)| + |missing| <= MAXIMUM_TQ_SYMBOLS
    ensures WireBounded(Issue(u, Subscribe, {missing[0]}, n))
    ensures WireBounded(Issue(u, Subscribe, Elements(missing), n))
  {
    SequenceSize(missing);
    assert missing[0] in Elements(missing);
    AdditionBounded(u, {missing[0]}, n);
    AdditionBounded(u, Elements(missing), n);
  }

  lemma SettleBounded(s: TQ, n: nat)
    requires WireBounded(s) && s.pending.None?
    ensures WireBounded(Settle(s, n))
  {
    if Removals(s) != {} {
      RemovalBounded(s, n);
    } else {
      var (t, missing) := Missing(s, s.wish.desired, Room(s));
      var u := t.(wish := t.wish.(permit := false));
      MissingSameWire(s, s.wish.desired, Room(s));
      MissingKeepsRest(s, s.wish.desired, Room(s));
      RoomLeft(s);
      SameWireSet(s.members, u.members);
      CalmBounded(s, u);
      if missing == [] {
        CalmBounded(s, u.(wish := u.wish.(restoring := false)));
      } else {
        AdditionsBounded(u, missing, n);
      }
    }
  }

  lemma NextEpochBounded(s: TQ, epoch: nat, writeToken: nat)
    ensures WireBounded(NextEpoch(s, epoch, writeToken))
  {
    var t := NextEpoch(s, epoch, writeToken);
    assert WireSet(t.members) + Adding(t) == {};
  }

  lemma RenewedBounded(s: TQ, e: Surroundings, cadence: bool)
    requires WireBounded(s)
    ensures WireBounded(Renewed(s, e, cadence))
  {
    NextEpochBounded(s, e.epoch, e.writeToken);
    CalmBounded(if s.epoch != e.epoch then NextEpoch(s, e.epoch, e.writeToken) else s, Renewed(s, e, cadence));
  }

  lemma PrunedCalm(c: TQ, n: nat, target: int, now: int)
    requires WireSound(c.members)
    ensures Calm(c, DropStale(DropUnwanted(Prune(c, n, target, now), n)))
  {
    var p := Prune(c, n, target, now);
    PruneCalm(c, n, target, now);
    UnwantedSameWire(p, n);
    DropKeepsWish(p, n);
    var d := DropUnwanted(p, n);
    CalmThen(c, p, d);
    CalmThen(c, d, DropStale(d));
  }

  lemma ReconcileBounded(s: TQ, e: Surroundings, cadence: bool, n: nat)
    requires WireBounded(s)
    ensures WireBounded(Reconcile(s, e, cadence, n))
  {
    var c := Renewed(s, e, cadence);
    RenewedBounded(s, e, cadence);
    var d := DropStale(DropUnwanted(Prune(c, n, e.target, e.now), n));
    PrunedCalm(c, n, e.target, e.now);
    CalmBounded(c, d);
    if d.pending.None? { SettleBounded(d, n); }
  }

  // ---------------------------------------------------------------------------------------- whom a command is for

  /** A pending command is for symbols of the population, so a pass over the population reaches every one of them. */
  ghost predicate PendingWithin(s: TQ, n: nat) {
    s.pending.Some? ==> forall k :: k in s.pending.value.symbols ==> k < n
  }

  lemma ResultPending(s: TQ, current: bool, c: Command, boundary: nat, succeeded: bool, n: nat)
    ensures var t := ApplyResult(s, current, c, boundary, succeeded, n); t.pending.None? || t.pending == s.pending
  {
    var u := Consume(s).(pending := None, dispatched := false);
    FailKeepsRest(u.(commands := u.commands.(failed := u.commands.failed + 1)), c.action, c.symbols, n);
    WriteKeepsRest(u.(commands := u.commands.(written := u.commands.written + 1)), c, boundary, n);
  }

  lemma ControlErrorPending(s: TQ, current: bool, position: Position, n: nat)
    ensures var t := ApplyControlError(s, current, position, n); t.pending.None? || t.pending == s.pending
  {
    var t := Signalled(s, position);
    if t.pending.Some? {
      var f := t.(pending := None, dispatched := false, commands := t.commands.(failed := t.commands.failed + 1));
      FailKeepsRest(f, t.pending.value.action, t.pending.value.symbols, n);
      ReleaseKeepsRest(AllUnknown(FailEach(f, t.pending.value.action, t.pending.value.symbols, n)), n);
    } else {
      ReleaseKeepsRest(AllUnknown(t), n);
    }
  }

  lemma IssueWithin(s: TQ, action: Action, symbols: set<nat>, n: nat)
    requires PendingWithin(s, n) && forall k :: k in symbols ==> k < n
    ensures PendingWithin(Issue(s, action, symbols, n), n)
  {
    var t := s.(pending := Some(Command(s.epoch, s.nextToken, action, symbols)), dispatched := false,
                nextToken := s.nextToken + 1, commands := s.commands.(issued := s.commands.issued + 1));
    SilenceKeepsRest(t, symbols, n);
  }

  lemma {:induction false} MissingWithin(s: TQ, desired: seq<nat>, room: nat, n: nat)
    requires forall i :: 0 <= i < |desired| ==> desired[i] < n
    ensures forall i :: 0 <= i < |Missing(s, desired, room).1| ==> Missing(s, desired, room).1[i] < n
    decreases |desired|
  {
    if desired != [] { MissingWithin(s, desired[..|desired| - 1], room, n); }
  }

  lemma SettleWithin(s: TQ, n: nat)
    requires Balanced(s, n) && PendingWithin(s, n) && forall i :: 0 <= i < |s.wish.desired| ==> s.wish.desired[i] < n
    ensures PendingWithin(Settle(s, n), n)
  {
    if Removals(s) != {} {
      IssueWithin(s, Unsubscribe, Removals(s), n);
    } else {
      MissingWithin(s, s.wish.desired, Room(s), n);
      MissingKeepsRest(s, s.wish.desired, Room(s));
      var (t, missing) := Missing(s, s.wish.desired, Room(s));
      var u := t.(wish := t.wish.(permit := false));
      if missing != [] {
        IssueWithin(u, Subscribe, {missing[0]}, n);
        IssueWithin(u, Subscribe, Elements(missing), n);
      }
    }
  }

  /** One symbol's member is as it was. */
  ghost predicate SameAt(a: map<nat, Member>, b: map<nat, Member>, k: nat) {
    (k in a <==> k in b) && (k in a ==> a[k] == b[k])
  }

  lemma OthersLeft(s: TQ, symbol: nat, m: Member, other: nat)
    requires other != symbol
    ensures SameAt(s.members, Ensure(s, symbol).members, other) && SameAt(s.members, Set(s, symbol, m).members, other)
    ensures symbol in s.members ==> SameAt(s.members, Release(s, symbol).members, other)
    ensures SameAt(s.members, Delete(s, symbol).members, other)
  {}

  lemma RemoveOneLeaves(s: TQ, symbol: nat, other: nat)
    requires other != symbol
    ensures SameAt(s.members, RemoveOne(s, symbol).members, other)
  {
    hide Ensure, Release, Delete;
    var t := Ensure(s, symbol);
    var m := t.members[symbol].(wire := t.members[symbol].wire.(requested := false, present := false, unknown := false,
                                                                resetRequired := false));
    OthersLeft(s, symbol, m, other);
    OthersLeft(t, symbol, m, other);
    var x := Set(t, symbol, m);
    OthersLeft(x, symbol, m, other);
    var u := Release(x, symbol);
    var v := Set(u, symbol, u.members[symbol].(unequalRepeat := false));
    OthersLeft(u, symbol, u.members[symbol].(unequalRepeat := false), other);
    OthersLeft(v, symbol, m, other);
  }

  /** A member replaced, released, and marked free of repeats. */
  lemma PutLeaves(t: TQ, symbol: nat, m: Member, other: nat)
    requires other != symbol && symbol in t.members
    ensures var u := Release(Set(t, symbol, m), symbol);
            && SameAt(t.members, u.members, other)
            && SameAt(t.members, Set(u, symbol, u.members[symbol].(unequalRepeat := false)).members, other)
  {
    hide Release;
    var x := Set(t, symbol, m);
    OthersLeft(t, symbol, m, other);
    OthersLeft(x, symbol, m, other);
    var u := Release(x, symbol);
    OthersLeft(u, symbol, u.members[symbol].(unequalRepeat := false), other);
  }

  lemma AddOneLeaves(s: TQ, symbol: nat, epoch: nat, boundary: nat, other: nat)
    requires other != symbol
    ensures SameAt(s.members, AddOne(s, symbol, epoch, boundary).members, other)
  {
    hide Ensure, Release;
    var t := Ensure(s, symbol);
    var m := t.members[symbol];
    OthersLeft(s, symbol, m, other);
    var on := Coverage(false, epoch, boundary, NoPosition);
    PutLeaves(t, symbol, Silent(m).(wire := m.wire.(requested := true, present := false, unknown := true,
                                                    resetRequired := true)), other);
    PutLeaves(t, symbol, m.(wire := m.wire.(requested := true, present := false, unknown := true), trade := on,
                            quote := on), other);
  }

  lemma WriteOneLeaves(s: TQ, c: Command, boundary: nat, symbol: nat, other: nat)
    requires other != symbol
    ensures On(WriteOne(s, c, boundary, symbol).members, other) <==> On(s.members, other)
  {
    hide RemoveOne, AddOne;
    RemoveOneLeaves(s, symbol, other);
    AddOneLeaves(s, symbol, c.epoch, boundary, other);
  }

  lemma WriteOneReaches(s: TQ, c: Command, boundary: nat, symbol: nat)
    requires symbol in c.symbols
    ensures On(WriteOne(s, c, boundary, symbol).members, symbol) <==> c.action == Subscribe
  {}

  /** A written command takes effect for every one of its symbols: an addition is on the wire, a removal is off it. */
  lemma {:induction false} WriteReaches(s: TQ, c: Command, boundary: nat, k: nat, symbol: nat)
    requires symbol in c.symbols && symbol < k
    ensures On(WriteEach(s, c, boundary, k).members, symbol) <==> c.action == Subscribe
  {
    hide WriteOne, On;
    var t := WriteEach(s, c, boundary, k - 1);
    if symbol == k - 1 {
      WriteOneReaches(t, c, boundary, symbol);
    } else {
      WriteReaches(s, c, boundary, k - 1, symbol);
      WriteOneLeaves(t, c, boundary, k - 1, symbol);
    }
  }

  /** So it does for the pending command of any run, whose symbols are all in the population. */
  lemma WrittenTakesEffect(es: seq<Event>, k: nat, limits: Limits, n: nat, boundary: nat, symbol: nat)
    requires AllAdmissible(es, n) && k <= |es|
    requires var s := After(es, k, limits, n); s.dispatched && s.pending.Some? && symbol in s.pending.value.symbols
    ensures var s := After(es, k, limits, n);
            var t := ApplyResult(s, true, s.pending.value, boundary, true, n);
            On(t.members, symbol) <==> s.pending.value.action == Subscribe
  {
    RunHolds(es, k, limits, n);
    var s := After(es, k, limits, n);
    var u := Consume(s).(pending := None, dispatched := false);
    WriteReaches(u.(commands := u.commands.(written := u.commands.written + 1)), s.pending.value, boundary, n, symbol);
  }

  lemma StepWithin(s: TQ, e: Event, limits: Limits, n: nat)
    requires Balanced(s, n) && WireBounded(s) && PendingWithin(s, n) && Admissible(e, n)
    ensures PendingWithin(Step(s, e, limits, n), n)
  {
    match e {
      case ResultEvent(current, c, boundary, ok) => { ResultPending(s, current, c, boundary, ok, n); }
      case ControlErrorEvent(current, position) => { ControlErrorPending(s, current, position, n); }
      case ReconcileEvent(w, cadence) => {
        TidiedBalanced(s, w, cadence, n);
        SettleWithin(Tidied(s, w, cadence, n), n);
      }
      case _ => { StepCalm(s, e, limits, n); }
    }
  }

  // ------------------------------------------------------------------------------------------------------- the runs

  /** The ranking names symbols of the population. */
  predicate Admissible(e: Event, n: nat) {
    e.ReconcileEvent? ==> forall i :: 0 <= i < |e.surroundings.desired| ==> e.surroundings.desired[i] < n
  }

  predicate AllAdmissible(es: seq<Event>, n: nat) {
    forall i :: 0 <= i < |es| ==> Admissible(es[i], n)
  }

  /** The state after the first events of a run, over a population of so many symbols. */
  function After(es: seq<Event>, k: nat, limits: Limits, n: nat): TQ
    requires k <= |es|
  {
    if k == 0 then Start() else Step(After(es, k - 1, limits, n), es[k - 1], limits, n)
  }

  lemma StepBalanced(s: TQ, e: Event, limits: Limits, n: nat)
    requires Balanced(s, n) && Admissible(e, n)
    ensures Balanced(Step(s, e, limits, n), n)
  {
    match e {
      case DispatchEvent => { SameMembersBalanced(s, Dispatch(s), n); }
      case ResultEvent(current, c, boundary, ok) => { ResultBalanced(s, current, c, boundary, ok, n); }
      case ControlErrorEvent(current, position) => { ControlErrorBalanced(s, current, position, n); }
      case DropEvent(current, f, symbol, shed, at) => { DropBalanced(s, current, f, symbol, shed, at, n); }
      case TradeEvent(current, v, clock, now) => { TradeBalanced(s, current, v, clock, now, limits, n); }
      case QuoteEvent(current, symbol, q, clock) => { QuoteBalanced(s, current, symbol, q, clock, limits, n); }
      case ReconcileEvent(w, cadence) => { ReconcileBalanced(s, w, cadence, n); }
      case ModeEvent(mode) => { ModeBalanced(s, mode, n); }
      case ClearEvent(epoch) => { SameMembersBalanced(s, ClearControl(s, epoch), n); }
    }
  }

  lemma ModeCounted(s: TQ, mode: Mode)
    requires Counted(s)
    ensures Counted(SetMode(s, mode))
  {
    StopCounted(s.(mode := mode));
  }

  lemma StepCounted(s: TQ, e: Event, limits: Limits, n: nat)
    requires Counted(s)
    ensures Counted(Step(s, e, limits, n))
  {
    match e {
      case DispatchEvent => {}
      case ResultEvent(current, c, boundary, ok) => { ResultCounted(s, current, c, boundary, ok, n); }
      case ControlErrorEvent(current, position) => { ControlErrorCounted(s, current, position, n); }
      case DropEvent(current, f, symbol, shed, at) => { DropCounted(s, current, f, symbol, shed, at); }
      case TradeEvent(current, v, clock, now) => { TradeCounted(s, current, v, clock, now, limits, n); }
      case QuoteEvent(current, symbol, q, clock) => { QuoteCounted(s, current, symbol, q, clock, limits); }
      case ReconcileEvent(w, cadence) => { ReconcileCounted(s, w, cadence, n); }
      case ModeEvent(mode) => { ModeCounted(s, mode); }
      case ClearEvent(_) => {}
    }
  }

  lemma StepCalm(s: TQ, e: Event, limits: Limits, n: nat)
    requires WireSound(s.members)
    requires !e.ResultEvent? && !e.ControlErrorEvent? && !e.ReconcileEvent?
    ensures Calm(s, Step(s, e, limits, n))
  {
    match e {
      case DispatchEvent => {}
      case DropEvent(current, f, symbol, shed, at) => { DropCalm(s, current, f, symbol, shed, at); }
      case TradeEvent(current, v, clock, now) => { TradeCalm(s, current, v, clock, now, limits, n); }
      case QuoteEvent(current, symbol, q, clock) => { QuoteCalm(s, current, symbol, q, clock, limits); }
      case ModeEvent(mode) => { ModeCalm(s, mode); }
      case ClearEvent(_) => {}
    }
  }

  lemma StepBounded(s: TQ, e: Event, limits: Limits, n: nat)
    requires WireBounded(s)
    ensures WireBounded(Step(s, e, limits, n))
  {
    match e {
      case ResultEvent(current, c, boundary, ok) => { ResultBounded(s, current, c, boundary, ok, n); }
      case ControlErrorEvent(current, position) => { ControlErrorBounded(s, current, position, n); }
      case ReconcileEvent(w, cadence) => { ReconcileBounded(s, w, cadence, n); }
      case _ => {
        StepCalm(s, e, limits, n);
        CalmBounded(s, Step(s, e, limits, n));
      }
    }
  }

  lemma EmptyBalanced(s: TQ, n: nat)
    requires s.members == map[] && s.totals == Totals(0, 0, 0, 0)
    ensures Balanced(s, n)
  {
    EmptySum(n, TradeKind);
    EmptySum(n, QuoteKind);
    EmptySum(n, PrintKind);
    EmptySum(n, ByteKind);
  }

  lemma EmptyBounded(s: TQ)
    requires s.members == map[] && s.pending.None?
    ensures WireBounded(s)
  {
    assert WireSet(s.members) + Adding(s) == {};
  }

  /** Everything a step keeps: charges and totals, conservation, the wire bound, and commands within the population. */
  ghost predicate Keeps(s: TQ, n: nat) {
    Balanced(s, n) && Counted(s) && WireBounded(s) && PendingWithin(s, n)
  }

  lemma StepKeeps(s: TQ, e: Event, limits: Limits, n: nat)
    requires Keeps(s, n) && Admissible(e, n)
    ensures Keeps(Step(s, e, limits, n), n)
  {
    hide Step, Balanced, Counted, WireBounded, PendingWithin;
    StepBalanced(s, e, limits, n);
    StepCounted(s, e, limits, n);
    StepBounded(s, e, limits, n);
    StepWithin(s, e, limits, n);
  }

  lemma StartKeeps(n: nat)
    ensures Keeps(Start(), n)
  {
    EmptyBalanced(Start(), n);
    EmptyBounded(Start());
  }

  lemma {:induction false} RunHolds(es: seq<Event>, k: nat, limits: Limits, n: nat)
    requires AllAdmissible(es, n) && k <= |es|
    ensures Keeps(After(es, k, limits, n), n)
  {
    if k == 0 {
      StartKeeps(n);
    } else {
      RunHolds(es, k - 1, limits, n);
      StepKeeps(After(es, k - 1, limits, n), es[k - 1], limits, n);
    }
  }

  /** Conservation over every run: commands, facts and what is retained. */
  lemma Conservation(es: seq<Event>, k: nat, limits: Limits, n: nat)
    requires AllAdmissible(es, n) && k <= |es|
    ensures var s := After(es, k, limits, n);
            && s.commands.issued == Bit(s.pending.Some?) + s.commands.written + s.commands.failed + s.commands.fenced
            && s.facts.consumed == s.facts.taken.applied + s.facts.taken.duplicate + s.facts.taken.rejected
                                   + s.facts.refused.fenced + s.facts.refused.shed + s.facts.refused.integrity
            && s.totals == Totals(Sum(s.members, n, TradeKind), Sum(s.members, n, QuoteKind),
                                  Sum(s.members, n, PrintKind), Sum(s.members, n, ByteKind))
            && forall m :: m in s.members ==> s.members[m].bytes == MEMBER_CHARGE + Charge(s.members[m].held)
  {
    RunHolds(es, k, limits, n);
  }

  /** At most twenty symbols are ever requested, the additions in flight included; and what is present or unknown was
      requested. */
  lemma WireStaysBounded(es: seq<Event>, k: nat, limits: Limits, n: nat)
    requires AllAdmissible(es, n) && k <= |es|
    ensures var s := After(es, k, limits, n);
            && |WireSet(s.members) + Adding(s)| <= MAXIMUM_TQ_SYMBOLS
            && forall m :: m in s.members ==>
                 (s.members[m].wire.present || s.members[m].wire.unknown ==> s.members[m].wire.requested)
  {
    RunHolds(es, k, limits, n);
  }

  /** So the removal bound is never hit: a removal never has to be given up for being too large. */
  lemma RemovalsAlwaysFit(es: seq<Event>, k: nat, limits: Limits, n: nat)
    requires AllAdmissible(es, n) && k <= |es|
    ensures |Removals(After(es, k, limits, n))| <= MAXIMUM_TQ_SYMBOLS
  {
    RunHolds(es, k, limits, n);
    RemovalsOnWire(After(es, k, limits, n));
  }
}
