/** Trade and quote membership on values: the command protocol, what each symbol retains and the counters beside it. */
module TQModel {
  import opened Options
  import opened SessionUnits
  import opened LivePositions

  const MAXIMUM_TQ_SYMBOLS: nat := 20
  const MEMBER_CHARGE: int := 1024
  const TRADE_CHARGE: int := 64
  const PRINT_CHARGE: int := 384
  const QUOTE_CHARGE: int := 192
  const DISORDER_HORIZON: int := 30 * SECOND
  const TAPE_WINDOW: int := 5 * SECOND

  datatype Action = Subscribe | Unsubscribe

  datatype Command = Command(epoch: nat, token: nat, action: Action, symbols: set<nat>)

  datatype Coverage = Coverage(active: bool, epoch: nat, boundary: nat, greatest: Position)

  datatype Quote = Quote(position: Position, at: int, bid: Option<real>, ask: Option<real>)

  /** One remembered trade identity: what it said, and when it was first received. */
  datatype Print = Print(value: nat, receipt: int)

  /** What is known of a symbol on the wire. */
  datatype Wire = Wire(requested: bool, present: bool, unknown: bool, resetRequired: bool, bound: bool)

  datatype Held = Held(trades: seq<int>, prints: map<nat, Print>, latest: Option<Quote>, latestValid: Option<Quote>)

  datatype Member = Member(wire: Wire, trade: Coverage, quote: Coverage, held: Held, unequalRepeat: bool, bytes: int)

  const NoCoverage := Coverage(false, 0, 0, NoPosition)
  const NothingHeld := Held([], map[], None, None)
  const NewMember := Member(Wire(false, false, false, false, false), NoCoverage, NoCoverage, NothingHeld, false,
                            MEMBER_CHARGE)

  /** How many different quotes a symbol retains. */
  function QuoteCount(h: Held): nat {
    if h.latest.None? then 0
    else if h.latestValid.None? || h.latestValid.value.position == h.latest.value.position then 1
    else 2
  }

  /** What a symbol is charged for what it holds. */
  function Charge(h: Held): int {
    |h.trades| * TRADE_CHARGE + |h.prints| * PRINT_CHARGE + QuoteCount(h) * QUOTE_CHARGE
  }

  datatype Totals = Totals(trades: int, quotes: int, prints: int, bytes: int)

  datatype Taken = Taken(applied: nat, duplicate: nat, rejected: nat)

  datatype Refused = Refused(fenced: nat, shed: int, integrity: nat)

  /** Every fact consumed, by its outcome. */
  datatype Facts = Facts(consumed: nat, taken: Taken, refused: Refused)

  datatype Commands = Commands(issued: nat, written: nat, failed: nat, fenced: nat)

  datatype Mode = Normal | Degraded | AggregateOnly

  datatype Limits = Limits(tradesPerSymbol: nat, tradesGlobal: nat, printsPerSymbol: nat, printsGlobal: nat,
                           bytesPerSymbol: int, bytesGlobal: int)

  datatype Control = Control(closed: bool, epoch: nat, position: Position)

  datatype Wish = Wish(desired: seq<nat>, cadence: seq<nat>, permit: bool, freshEpoch: bool, restoring: bool)

  datatype TQ = TQ(epoch: nat, nextToken: nat, members: map<nat, Member>, wish: Wish, pending: Option<Command>,
                   dispatched: bool, facts: Facts, commands: Commands, totals: Totals, globalBound: bool,
                   aggregateOnly: bool, mode: Mode, control: Control)

  /** Before the first connection. */
  function Start(): TQ {
    TQ(0, 1, map[], Wish([], [], false, false, false), None, false, Facts(0, Taken(0, 0, 0), Refused(0, 0, 0)),
       Commands(0, 0, 0, 0), Totals(0, 0, 0, 0), false, false, Normal, Control(false, 0, NoPosition))
  }

  // ------------------------------------------------------------------------------------------------- one member

  predicate OnWire(m: Member) {
    m.wire.requested || m.wire.present || m.wire.unknown
  }

  function Silent(m: Member): Member {
    m.(trade := m.trade.(active := false), quote := m.quote.(active := false))
  }

  /** The member of a symbol, made on first use. */
  function Ensure(s: TQ, symbol: nat): (t: TQ)
    ensures symbol in t.members
  {
    if symbol in s.members then s
    else s.(members := s.members[symbol := NewMember],
            totals := s.totals.(bytes := s.totals.bytes + MEMBER_CHARGE))
  }

  function Set(s: TQ, symbol: nat, m: Member): TQ {
    s.(members := s.members[symbol := m])
  }

  /** Lets go of everything a symbol retains. */
  function Release(s: TQ, symbol: nat): (t: TQ)
    requires symbol in s.members
    ensures t.members.Keys == s.members.Keys
  {
    var m := s.members[symbol];
    var released := |m.held.trades| * TRADE_CHARGE + |m.held.prints| * PRINT_CHARGE
                    + QuoteCount(m.held) * QUOTE_CHARGE;
    Set(s, symbol, m.(held := NothingHeld, bytes := m.bytes - released))
      .(totals := Totals(s.totals.trades - |m.held.trades|, s.totals.quotes - QuoteCount(m.held),
                         s.totals.prints - |m.held.prints|, s.totals.bytes - released))
  }

  function Delete(s: TQ, symbol: nat): TQ {
    if symbol !in s.members then s
    else
      var t := Release(s, symbol);
      t.(members := t.members - {symbol},
         totals := t.totals.(bytes := t.totals.bytes - t.members[symbol].bytes))
  }

  /** The trades at or after a cutoff, in order. */
  function Since(trades: seq<int>, cutoff: int): (kept: seq<int>)
    ensures |kept| <= |trades|
  {
    if trades == [] then []
    else
      var front := Since(trades[..|trades| - 1], cutoff);
      if trades[|trades| - 1] < cutoff then front else front + [trades[|trades| - 1]]
  }

  /** The identities still remembered: those first received no more than the disorder horizon ago. */
  function Fresh(prints: map<nat, Print>, now: int): map<nat, Print> {
    map k | k in prints && now <= prints[k].receipt + DISORDER_HORIZON :: prints[k]
  }

  function TradeCutoff(target: int, now: int): int {
    if now - DISORDER_HORIZON > target - TAPE_WINDOW then now - DISORDER_HORIZON else target - TAPE_WINDOW
  }

  /** Drops what one symbol holds beyond its use. */
  function PruneOne(s: TQ, symbol: nat, target: int, now: int): TQ
    requires symbol in s.members
  {
    var m := s.members[symbol];
    var trades, prints := Since(m.held.trades, TradeCutoff(target, now)), Fresh(m.held.prints, now);
    var fewerTrades, fewerPrints := |m.held.trades| - |trades|, |m.held.prints| - |prints|;
    var less := fewerTrades * TRADE_CHARGE + fewerPrints * PRINT_CHARGE;
    Set(s, symbol, m.(held := m.held.(trades := trades, prints := prints), bytes := m.bytes - less))
      .(totals := s.totals.(trades := s.totals.trades - fewerTrades, prints := s.totals.prints - fewerPrints,
                            bytes := s.totals.bytes - less))
  }

  function Prune(s: TQ, n: nat, target: int, now: int): TQ {
    if n == 0 then s
    else
      var t := Prune(s, n - 1, target, now);
      if n - 1 in t.members then PruneOne(t, n - 1, target, now) else t
  }

  function ReleaseAll(s: TQ, n: nat): TQ {
    if n == 0 then s
    else
      var t := ReleaseAll(s, n - 1);
      if n - 1 in t.members then Release(t, n - 1) else t
  }

  /** No coverage any more, and nothing confirmed: what was requested is unknown. */
  function Closed(m: Member): Member {
    Silent(m).(wire := m.wire.(requested := OnWire(m), present := false, unknown := OnWire(m)))
  }

  function CloseAll(s: TQ): TQ {
    s.(members := map k | k in s.members :: Closed(s.members[k]))
  }

  /** No more additions: an undispatched subscription is withdrawn. */
  function StopAdditions(s: TQ): TQ {
    var t := s.(wish := s.wish.(permit := false, cadence := []));
    if t.pending.Some? && t.pending.value.action == Subscribe && !t.dispatched
    then t.(pending := None, dispatched := false, commands := t.commands.(fenced := t.commands.fenced + 1))
    else t
  }

  function EnterAggregateOnly(s: TQ): TQ {
    CloseAll(StopAdditions(s.(mode := AggregateOnly, aggregateOnly := true)))
  }

  function EnterGlobalBound(s: TQ): TQ {
    EnterAggregateOnly(s.(globalBound := true))
  }

  // ------------------------------------------------------------------------------------------------- the commands

  /** Issues one command for some symbols; a removal closes their coverage at once. */
  function Issue(s: TQ, action: Action, symbols: set<nat>, n: nat): TQ {
    if symbols == {} || |symbols| > MAXIMUM_TQ_SYMBOLS then EnterGlobalBound(s)
    else
      var t := s.(pending := Some(Command(s.epoch, s.nextToken, action, symbols)), dispatched := false,
                  nextToken := s.nextToken + 1, commands := s.commands.(issued := s.commands.issued + 1));
      if action == Unsubscribe then SilenceEach(t, symbols, n) else t
  }

  function SilenceEach(s: TQ, symbols: set<nat>, n: nat): TQ {
    if n == 0 then s
    else
      var t := SilenceEach(s, symbols, n - 1);
      if n - 1 in symbols then SilenceOne(t, n - 1) else t
  }

  function SilenceOne(s: TQ, symbol: nat): TQ {
    var u := Ensure(s, symbol);
    Set(u, symbol, Silent(u.members[symbol]))
  }

  /** Hands the pending command over, once. */
  function Dispatch(s: TQ): TQ {
    if s.pending.None? || s.dispatched || (s.aggregateOnly && s.pending.value.action == Subscribe) then s
    else s.(dispatched := true)
  }

  predicate Desires(s: TQ, symbol: nat) {
    symbol in s.wish.desired
  }

  /** A failed write says nothing of the provider: a removal leaves its symbol unknown, an addition was never made. */
  function AfterFailure(m: Member, action: Action): Member {
    Silent(m).(wire := if action == Unsubscribe then m.wire.(requested := true, present := false, unknown := true,
                                                            resetRequired := true)
                       else m.wire.(requested := false, present := false, unknown := false))
  }

  function FailEach(s: TQ, action: Action, symbols: set<nat>, n: nat): TQ {
    if n == 0 then s
    else
      var t := FailEach(s, action, symbols, n - 1);
      if n - 1 in symbols then FailOne(t, action, n - 1) else t
  }

  function FailOne(s: TQ, action: Action, symbol: nat): TQ {
    var u := Ensure(s, symbol);
    Set(u, symbol, AfterFailure(u.members[symbol], action))
  }

  /** A written removal: the symbol is off the wire and holds nothing. */
  function RemoveOne(s: TQ, symbol: nat): TQ {
    var t := Ensure(s, symbol);
    var m := t.members[symbol];
    var u := Release(Set(t, symbol, m.(wire := m.wire.(requested := false, present := false, unknown := false,
                                                       resetRequired := false))), symbol);
    var v := Set(u, symbol, u.members[symbol].(unequalRepeat := false));
    if Desires(v, symbol) then v else Delete(v, symbol)
  }

  /** A written addition: the symbol is on the wire from the write's position on, unless it was contained meanwhile and
      only its removal is still owed. */
  function AddOne(s: TQ, symbol: nat, epoch: nat, boundary: nat): TQ {
    var t := Ensure(s, symbol);
    var m := t.members[symbol];
    if t.mode != Normal || t.aggregateOnly || m.wire.bound || m.wire.resetRequired || !Desires(t, symbol) then
      Release(Set(t, symbol, Silent(m).(wire := m.wire.(requested := true, present := false, unknown := true,
                                                       resetRequired := true))), symbol)
    else
      var on := Coverage(false, epoch, boundary, NoPosition);
      var u := Release(Set(t, symbol, m.(wire := m.wire.(requested := true, present := false, unknown := true),
                                         trade := on, quote := on)), symbol);
      Set(u, symbol, u.members[symbol].(unequalRepeat := false))
  }

  function WriteEach(s: TQ, c: Command, boundary: nat, n: nat): TQ {
    if n == 0 then s else WriteOne(WriteEach(s, c, boundary, n - 1), c, boundary, n - 1)
  }

  function WriteOne(s: TQ, c: Command, boundary: nat, symbol: nat): TQ {
    if symbol !in c.symbols then s
    else if c.action == Unsubscribe then RemoveOne(s, symbol)
    else AddOne(s, symbol, c.epoch, boundary)
  }

  function Consume(s: TQ): TQ {
    s.(facts := s.facts.(consumed := s.facts.consumed + 1))
  }

  function Applied(s: TQ): TQ {
    s.(facts := s.facts.(taken := s.facts.taken.(applied := s.facts.taken.applied + 1)))
  }

  function Duplicated(s: TQ): TQ {
    s.(facts := s.facts.(taken := s.facts.taken.(duplicate := s.facts.taken.duplicate + 1)))
  }

  function Rejected(s: TQ): TQ {
    s.(facts := s.facts.(taken := s.facts.taken.(rejected := s.facts.taken.rejected + 1)))
  }

  function Fenced(s: TQ): TQ {
    s.(facts := s.facts.(refused := s.facts.refused.(fenced := s.facts.refused.fenced + 1)))
  }

  function Shed(s: TQ, change: int): TQ {
    s.(facts := s.facts.(refused := s.facts.refused.(shed := s.facts.refused.shed + change)))
  }

  function Broken(s: TQ): TQ {
    s.(facts := s.facts.(refused := s.facts.refused.(integrity := s.facts.refused.integrity + 1)))
  }

  /** The result of a command: only the pending, dispatched one is taken. */
  function ApplyResult(s: TQ, current: bool, c: Command, boundary: nat, succeeded: bool, n: nat): TQ {
    var t := Consume(s);
    if !current || t.pending != Some(c) || !t.dispatched then Fenced(t)
    else
      var u := t.(pending := None, dispatched := false);
      if !succeeded then
        var v := FailEach(u.(commands := u.commands.(failed := u.commands.failed + 1)), c.action, c.symbols, n);
        Rejected(CloseAll(StopAdditions(v.(control := v.control.(closed := true, epoch := s.epoch)))))
      else
        Applied(WriteEach(u.(commands := u.commands.(written := u.commands.written + 1)), c, boundary, n))
  }

  /** A provider control error: the pending command fails, and everything on the wire is unknown and holds nothing. */
  function ApplyControlError(s: TQ, current: bool, position: Position, n: nat): TQ {
    if !current then s
    else if position != NoPosition && s.control.position != NoPosition
            && CompareLive(position, s.control.position) <= 0 then s
    else
      var t := Signalled(s, position);
      var u := if t.pending.None? then t
               else FailEach(t.(pending := None, dispatched := false,
                                commands := t.commands.(failed := t.commands.failed + 1)),
                             t.pending.value.action, t.pending.value.symbols, n);
      CloseAll(StopAdditions(ReleaseAll(AllUnknown(u), n)))
  }

  /** The control channel is closed, at the latest position an error gave. */
  function Signalled(s: TQ, position: Position): TQ {
    s.(control := if !s.control.closed then Control(true, s.epoch, position)
                  else if position != NoPosition then s.control.(position := position) else s.control)
  }

  function MadeUnknown(m: Member): Member {
    Silent(m).(wire := if OnWire(m) then m.wire.(present := false, unknown := true) else m.wire)
  }

  function AllUnknown(s: TQ): TQ {
    s.(members := map k | k in s.members :: MadeUnknown(s.members[k]))
  }

  // ------------------------------------------------------------------------------------------------- trades and quotes

  datatype Family = TradeFamily | QuoteFamily

  function CoverageOf(m: Member, f: Family): Coverage {
    if f == TradeFamily then m.trade else m.quote
  }

  /** A dropped fact of one symbol invalidates both of its channels until it is renewed. */
  function AfterDrop(m: Member, f: Family, at: Position): Member {
    Silent(if f == TradeFamily then m.(trade := m.trade.(greatest := at)) else m.(quote := m.quote.(greatest := at)))
      .(wire := m.wire.(resetRequired := true))
  }

  /** A drop naming a symbol is about its current coverage only. */
  predicate DropApplies(s: TQ, f: Family, symbol: nat, at: Position) {
    && symbol in s.members && s.members[symbol].wire.present && CoverageOf(s.members[symbol], f).active
    && CompareLive(at, CoverageOf(s.members[symbol], f).greatest) > 0
  }

  function AfterShedAll(m: Member, f: Family): Member {
    (if f == TradeFamily then m.(trade := m.trade.(active := false)) else m.(quote := m.quote.(active := false)))
      .(wire := if m.wire.present then m.wire.(resetRequired := true) else m.wire)
  }

  function ShedEach(s: TQ, f: Family): TQ {
    s.(members := map k | k in s.members :: AfterShedAll(s.members[k], f))
  }

  /** An unattributed drop that is not optional work shed: behind no active coverage it is stale. */
  predicate PastSomeCoverage(s: TQ, f: Family, at: Position) {
    && (exists k :: k in s.members && CoverageOf(s.members[k], f).active
                    && CoverageOf(s.members[k], f).greatest.epoch > 0)
    && forall k :: k in s.members && CoverageOf(s.members[k], f).active ==>
         CompareLive(at, CoverageOf(s.members[k], f).greatest) > 0
  }

  function DropOne(s: TQ, f: Family, symbol: nat, at: Position): TQ
    requires symbol in s.members
  {
    Set(s, symbol, AfterDrop(s.members[symbol], f, at))
  }

  /** Optional work shed on the way in: of one channel throughout, or of one symbol. */
  function ApplyShed(s: TQ, f: Family, symbol: Option<nat>, at: Position): TQ {
    var u := Shed(s, 1);
    if symbol.None? then ShedEach(u, f)
    else if !DropApplies(u, f, symbol.value, at) then Shed(Fenced(u), -1)
    else DropOne(u, f, symbol.value, at)
  }

  /** A fact lost: unattributed, it contains everything; of one symbol, it contains that symbol. */
  function ApplyLoss(s: TQ, f: Family, symbol: Option<nat>, at: Position): TQ {
    if symbol.None? then if !PastSomeCoverage(s, f, at) then Fenced(s) else Broken(EnterAggregateOnly(s))
    else if !DropApplies(s, f, symbol.value, at) then Fenced(s)
    else Rejected(DropOne(s, f, symbol.value, at))
  }

  function ApplyDrop(s: TQ, current: bool, f: Family, symbol: Option<nat>, shed: bool, at: Position): TQ {
    if !current then Fenced(Consume(s))
    else if shed then ApplyShed(Consume(s), f, symbol, at)
    else ApplyLoss(Consume(s), f, symbol, at)
  }

  /** A fact is taken while its symbol is wanted, on the wire, and past its request boundary and what came before. */
  predicate Admits(s: TQ, current: bool, symbol: nat, f: Family, at: Position) {
    && current && symbol in s.members && Desires(s, symbol)
    && (var m := s.members[symbol];
        && OnWire(m)
        && at.epoch == CoverageOf(m, f).epoch && at.frame > CoverageOf(m, f).boundary
        && (CoverageOf(m, f).active ==> CompareLive(at, CoverageOf(m, f).greatest) > 0))
  }

  /** The first fact of a channel opens it; both open make the symbol present. */
  function Seen(m: Member, f: Family, at: Position): Member {
    var other := if f == TradeFamily then m.quote.active else m.trade.active;
    var wire := if CoverageOf(m, f).active then m.wire else m.wire.(present := other, unknown := !other);
    if f == TradeFamily then m.(wire := wire, trade := m.trade.(active := true, greatest := at))
    else m.(wire := wire, quote := m.quote.(active := true, greatest := at))
  }

  function Unbounded(m: Member): Member {
    Silent(m).(wire := m.wire.(bound := true))
  }

  /** The session and the committed watermark a fact's own time is held against. */
  datatype Clock = Clock(start: int, end: int, committed: Option<int>)

  predicate InTime(c: Clock, at: int) {
    c.start <= at < c.end && (c.committed.Some? ==> at >= c.committed.value - DISORDER_HORIZON)
  }

  datatype TradeFact = TradeFact(symbol: nat, identity: nat, value: nat, event: int, receipt: int, at: Position)

  function ApplyTrade(s: TQ, current: bool, v: TradeFact, clock: Clock, now: int, limits: Limits, n: nat): TQ {
    var target := if clock.committed.Some? then clock.committed.value else now;
    var t := Prune(Consume(s), n, target, now);
    if !Admits(t, current, v.symbol, TradeFamily, v.at) then Fenced(t)
    else
      var m := Seen(t.members[v.symbol], TradeFamily, v.at);
      if InTime(clock, v.event) then TakeTrade(Set(t, v.symbol, m), v, m, limits) else Rejected(Set(t, v.symbol, m))
  }

  /** A trade already remembered: the same again, or another under the same identity. */
  function Repeated(s: TQ, v: TradeFact, m: Member): TQ
    requires v.identity in m.held.prints
  {
    if m.held.prints[v.identity].value == v.value then Duplicated(s)
    else Rejected(Set(s, v.symbol, m.(unequalRepeat := true)))
  }

  /** An admitted trade: a repeat, one too many for its symbol or for all of them, or one more. */
  function TakeTrade(s: TQ, v: TradeFact, m: Member, limits: Limits): TQ {
    var incoming := TRADE_CHARGE + PRINT_CHARGE;
    if v.identity in m.held.prints then Repeated(s, v, m)
    else if |m.held.trades| >= limits.tradesPerSymbol || |m.held.prints| >= limits.printsPerSymbol
            || m.bytes + incoming > limits.bytesPerSymbol then Broken(Set(s, v.symbol, Unbounded(m)))
    else if s.totals.trades >= limits.tradesGlobal || s.totals.prints >= limits.printsGlobal
            || s.totals.bytes + incoming > limits.bytesGlobal then Broken(EnterGlobalBound(s))
    else Applied(Keep(s, v, m, incoming))
  }

  function Keep(s: TQ, v: TradeFact, m: Member, incoming: int): TQ {
    var held := m.held.(trades := m.held.trades + [v.event],
                        prints := m.held.prints[v.identity := Print(v.value, v.receipt)]);
    Set(s, v.symbol, m.(held := held, bytes := m.bytes + incoming))
      .(totals := s.totals.(trades := s.totals.trades + 1, prints := s.totals.prints + 1,
                            bytes := s.totals.bytes + incoming))
  }

  predicate IsValid(q: Quote) {
    q.bid.Some? && q.ask.Some? && q.ask.value >= q.bid.value
  }

  function WithQuote(h: Held, q: Quote): Held {
    h.(latest := Some(q), latestValid := if IsValid(q) then Some(q) else h.latestValid)
  }

  function ApplyQuote(s: TQ, current: bool, symbol: nat, q: Quote, clock: Clock, limits: Limits): TQ {
    var t := Consume(s);
    if !Admits(t, current, symbol, QuoteFamily, q.position) then Fenced(t)
    else
      var m := Seen(t.members[symbol], QuoteFamily, q.position);
      if InTime(clock, q.at) then TakeQuote(Set(t, symbol, m), symbol, q, m, limits) else Rejected(Set(t, symbol, m))
  }

  function TakeQuote(s: TQ, symbol: nat, q: Quote, m: Member, limits: Limits): TQ {
    var change := QuoteCount(WithQuote(m.held, q)) - QuoteCount(m.held);
    var more := change * QUOTE_CHARGE;
    if change > 0 && m.bytes + more > limits.bytesPerSymbol then Broken(Set(s, symbol, Unbounded(m)))
    else if change > 0 && s.totals.bytes + more > limits.bytesGlobal then Broken(EnterGlobalBound(s))
    else Applied(KeepQuote(s, symbol, q, m))
  }

  function KeepQuote(s: TQ, symbol: nat, q: Quote, m: Member): TQ {
    var change := QuoteCount(WithQuote(m.held, q)) - QuoteCount(m.held);
    Set(s, symbol, m.(held := WithQuote(m.held, q), bytes := m.bytes + change * QUOTE_CHARGE))
      .(totals := s.totals.(quotes := s.totals.quotes + change, bytes := s.totals.bytes + change * QUOTE_CHARGE))
  }

  // ------------------------------------------------------------------------------------------------- reconciliation

  /** A new connection epoch starts from nothing but the counters; a command in flight is fenced with the old one. */
  function NextEpoch(s: TQ, epoch: nat, writeToken: nat): TQ {
    s.(epoch := epoch, nextToken := Greatest(writeToken + 1, Greatest(1, s.nextToken)), members := map[],
       wish := Wish([], [], false, true, false), pending := None, dispatched := false,
       commands := if s.pending.Some? then s.commands.(fenced := s.commands.fenced + 1) else s.commands,
       totals := Totals(0, 0, 0, 0), control := Control(false, 0, NoPosition))
  }

  function Greatest(a: nat, b: nat): nat {
    if a > b then a else b
  }

  /** What the reconciliation reads from the engine. */
  datatype Surroundings = Surroundings(epoch: nat, writeToken: nat, desired: seq<nat>, live: bool, target: int,
                                       now: int)

  predicate HoldsNothing(h: Held) {
    h.trades == [] && h.latest.None? && h.latestValid.None? && h.prints == map[]
  }

  /** A symbol no longer wanted: its coverage ends at once, and a wire membership is owed a removal. */
  function Unwanted(m: Member): Member {
    Silent(m).(wire := Wire(m.wire.requested, false, m.wire.requested, OnWire(m), m.wire.bound && m.wire.requested))
  }

  function DropUnwanted(s: TQ, n: nat): TQ {
    if n == 0 then s
    else
      var t := DropUnwanted(s, n - 1);
      if n - 1 in t.members && !Desires(t, n - 1) then UnwantOne(t, n - 1) else t
  }

  function UnwantOne(s: TQ, symbol: nat): TQ
    requires symbol in s.members
  {
    var m := s.members[symbol];
    var u := Set(s, symbol, Unwanted(m));
    if !m.wire.requested && HoldsNothing(m.held) then Delete(u, symbol) else u
  }

  /** An undispatched subscription for a symbol no longer wanted is withdrawn. */
  function DropStale(s: TQ): TQ {
    if s.pending.Some? && s.pending.value.action == Subscribe && !s.dispatched
       && exists k :: k in s.pending.value.symbols && !Desires(s, k)
    then s.(pending := None, dispatched := false, commands := s.commands.(fenced := s.commands.fenced + 1))
    else s
  }

  function WireSet(members: map<nat, Member>): set<nat> {
    set k | k in members && OnWire(members[k])
  }

  /** What is owed a removal. */
  function Removals(s: TQ): set<nat> {
    set k | k in s.members && OnWire(s.members[k])
            && (s.aggregateOnly || s.members[k].wire.bound || s.members[k].wire.resetRequired || !Desires(s, k))
  }

  /** The additions wanted at the cadence, in ranking order, as far as the wire has room. */
  function Missing(s: TQ, desired: seq<nat>, room: nat): (r: (TQ, seq<nat>))
    decreases |desired|
  {
    if desired == [] then (s, [])
    else
      var (t, before) := Missing(s, desired[..|desired| - 1], room);
      var symbol := desired[|desired| - 1];
      if symbol !in s.wish.cadence then (t, before)
      else
        var u := Ensure(t, symbol);
        if u.members[symbol].wire.bound || u.members[symbol].wire.requested || |before| >= room then (u, before)
        else (u, before + [symbol])
  }

  function Elements(symbols: seq<nat>): set<nat> {
    set k | k in symbols
  }

  function Settle(s: TQ, n: nat): TQ {
    if Removals(s) != {} then Issue(s, Unsubscribe, Removals(s), n)
    else if s.aggregateOnly || s.mode == Degraded || !s.wish.permit then s
    else
      var onWire := |WireSet(s.members)|;
      var room := if onWire < MAXIMUM_TQ_SYMBOLS then MAXIMUM_TQ_SYMBOLS - onWire else 0;
      var (t, missing) := Missing(s, s.wish.desired, room);
      var u := t.(wish := t.wish.(permit := false));
      if missing == [] then u.(wish := u.wish.(restoring := false))
      else if u.wish.restoring then Issue(u, Subscribe, {missing[0]}, n)
      else Issue(u, Subscribe, Elements(missing), n)
  }

  /** The epoch, the tokens and the wishes a reconciliation starts from. */
  function Renewed(s: TQ, e: Surroundings, cadence: bool): TQ {
    var a := if s.epoch != e.epoch then NextEpoch(s, e.epoch, e.writeToken) else s;
    var b := if a.nextToken <= e.writeToken then a.(nextToken := e.writeToken + 1) else a;
    var wish := b.wish.(desired := e.desired);
    b.(wish := if cadence || wish.freshEpoch
               then wish.(cadence := e.desired, permit := true, freshEpoch := false) else wish)
  }

  /** The reconciliation after every input. */
  function Reconcile(s: TQ, e: Surroundings, cadence: bool, n: nat): TQ {
    var d := DropStale(DropUnwanted(Prune(Renewed(s, e, cadence), n, e.target, e.now), n));
    if d.pending.Some? || d.control.closed || !e.live then d else Settle(d, n)
  }

  // ------------------------------------------------------------------------------------------------- pressure and runs

  function Degrade(m: Member): Member {
    Silent(m).(wire := if m.wire.present then m.wire.(resetRequired := true) else m.wire)
  }

  function SetMode(s: TQ, mode: Mode): TQ {
    if mode == Normal && s.globalBound then s
    else if mode == Degraded && (s.mode == AggregateOnly || s.aggregateOnly) then s
    else if s.mode == mode then s
    else
      var t := s.(mode := mode);
      match mode
      case Degraded =>
        var u := StopAdditions(t);
        u.(members := map k | k in u.members :: Degrade(u.members[k]))
      case AggregateOnly => EnterAggregateOnly(t)
      case Normal => t.(aggregateOnly := false, wish := t.wish.(restoring := true))
  }

  /** A strictly newer acknowledgement reopens the control channel. */
  function ClearControl(s: TQ, epoch: nat): TQ {
    if !s.control.closed || epoch <= s.control.epoch then s else s.(control := Control(false, 0, NoPosition))
  }

  datatype Event =
    | DispatchEvent
    | ResultEvent(current: bool, command: Command, boundary: nat, succeeded: bool)
    | ControlErrorEvent(current: bool, position: Position)
    | DropEvent(current: bool, family: Family, symbol: Option<nat>, shed: bool, at: Position)
    | TradeEvent(current: bool, trade: TradeFact, clock: Clock, now: int)
    | QuoteEvent(current: bool, quoted: nat, quote: Quote, clock: Clock)
    | ReconcileEvent(surroundings: Surroundings, cadence: bool)
    | ModeEvent(mode: Mode)
    | ClearEvent(epoch: nat)

  /** One step over a population of so many symbols. */
  function Step(s: TQ, e: Event, limits: Limits, n: nat): TQ {
    match e
    case DispatchEvent => Dispatch(s)
    case ResultEvent(current, c, boundary, succeeded) => ApplyResult(s, current, c, boundary, succeeded, n)
    case ControlErrorEvent(current, position) => ApplyControlError(s, current, position, n)
    case DropEvent(current, f, symbol, shed, at) => ApplyDrop(s, current, f, symbol, shed, at)
    case TradeEvent(current, v, clock, now) => ApplyTrade(s, current, v, clock, now, limits, n)
    case QuoteEvent(current, symbol, q, clock) => ApplyQuote(s, current, symbol, q, clock, limits)
    case ReconcileEvent(w, cadence) => Reconcile(s, w, cadence, n)
    case ModeEvent(mode) => SetMode(s, mode)
    case ClearEvent(epoch) => ClearControl(s, epoch)
  }
}
