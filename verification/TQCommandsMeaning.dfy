/** What the commands of trade and quote membership, their results and the errors of their control channel make of every
    symbol, told symbol by symbol rather than pass by pass; and which command a reconciliation issues. */
module TQCommandsMeaning {
  import opened Options
  import P = LivePositions
  import opened LivePositions
  import opened TQModel
  import opened TQRuns
  import opened TQWire
  import opened TQMeaning

  /** The member of a symbol, or what a first use makes of it: off the wire, closed, and holding nothing. */
  function MemberOr(s: TQ, y: nat): Member {
    if y in s.members then s.members[y]
    else Member(Wire(false, false, false, false, false), Coverage(false, 0, 0, Position(0, 0, 0)),
                Coverage(false, 0, 0, Position(0, 0, 0)), Held([], map[], None, None), false, 1024)
  }

  /** Before the first connection nothing is held, wanted, permitted, pending, counted or closed. */
  lemma StartMeans()
    ensures var s := Start();
            && s.members == map[] && s.wish == Wish([], [], false, false, false) && s.pending.None? && !s.dispatched
            && s.epoch == 0 && s.nextToken == 1 && !s.globalBound && !s.aggregateOnly && s.mode == Normal
            && !s.control.closed && s.facts.consumed == 0 && s.commands.issued == 0
            && s.totals.trades + s.totals.quotes + s.totals.prints + s.totals.bytes == 0
  {}

  /** A member that has let go of everything it held. */
  function Emptied(m: Member): Member {
    Member(m.wire, m.trade, m.quote, Held([], map[], None, None), m.unequalRepeat, m.bytes - Charge(m.held))
  }

  // ------------------------------------------------------------------------------------------------ a written command

  /** A symbol's addition written while it may not be added: it is wanted no more, the additions stopped, or it is over
      its bound or owed a removal. */
  predicate Unwelcome(s: TQ, y: nat) {
    || s.mode != Normal || s.aggregateOnly || y !in s.wish.desired
    || MemberOr(s, y).wire.bound || MemberOr(s, y).wire.resetRequired
  }

  /** What a written addition makes of a symbol: requested and unknown, holding nothing, both channels waiting behind
      the write; an unwelcome one is owed its removal at once. */
  function Added(s: TQ, y: nat, epoch: nat, boundary: nat): Member {
    var m := MemberOr(s, y);
    if Unwelcome(s, y) then Emptied(Hushed(m, Wire(true, false, true, true, m.wire.bound)))
    else
      Member(Wire(true, false, true, false, false), Coverage(false, epoch, boundary, Position(0, 0, 0)),
             Coverage(false, epoch, boundary, Position(0, 0, 0)), Held([], map[], None, None), false,
             m.bytes - Charge(m.held))
  }

  /** What a written removal makes of a symbol: off the wire and holding nothing, and gone unless it is still wanted. */
  function Removed(s: TQ, y: nat): Option<Member> {
    var m := MemberOr(s, y);
    if y !in s.wish.desired then None
    else Some(Member(Wire(false, false, false, false, m.wire.bound), m.trade, m.quote, Held([], map[], None, None),
                     false, m.bytes - Charge(m.held)))
  }

  /** What a written command makes of a symbol. */
  function Written(s: TQ, c: Command, boundary: nat, y: nat): Option<Member> {
    if y !in c.symbols then if y in s.members then Some(s.members[y]) else None
    else if c.action == Subscribe then Some(Added(s, y, c.epoch, boundary))
    else Removed(s, y)
  }

  function Lookup(members: map<nat, Member>, y: nat): Option<Member> {
    if y in members then Some(members[y]) else None
  }

  lemma EnsureMeans(s: TQ, y: nat)
    ensures var t := Ensure(s, y); t.members[y] == MemberOr(s, y) && SameRest(s, t)
  {}

  lemma ReleaseMeans(t: TQ, y: nat, m: Member)
    ensures var u := Release(Set(t, y, m), y); u.members[y] == Emptied(m) && SameRest(t, u)
  {}

  lemma AddOneMeans(s: TQ, y: nat, epoch: nat, boundary: nat)
    ensures Lookup(AddOne(s, y, epoch, boundary).members, y) == Some(Added(s, y, epoch, boundary))
  {
    hide Ensure, Release, Charge, MemberOr;
    EnsureMeans(s, y);
    var t := Ensure(s, y);
    var m := t.members[y];
    var on := Coverage(false, epoch, boundary, NoPosition);
    ReleaseMeans(t, y, Silent(m).(wire := m.wire.(requested := true, present := false, unknown := true,
                                                  resetRequired := true)));
    ReleaseMeans(t, y, m.(wire := m.wire.(requested := true, present := false, unknown := true), trade := on,
                          quote := on));
  }

  lemma RemoveOneMeans(s: TQ, y: nat)
    ensures Lookup(RemoveOne(s, y).members, y) == Removed(s, y)
  {}

  lemma WriteOneMeans(s: TQ, c: Command, boundary: nat, symbol: nat, y: nat)
    ensures var t := WriteOne(s, c, boundary, symbol);
            Lookup(t.members, y) == if y == symbol then Written(s, c, boundary, y) else Lookup(s.members, y)
  {
    hide AddOne, RemoveOne, Added, Removed;
    AddOneMeans(s, y, c.epoch, boundary);
    RemoveOneMeans(s, y);
    if y != symbol {
      AddOneLeaves(s, symbol, c.epoch, boundary, y);
      RemoveOneLeaves(s, symbol, y);
    }
  }

  /** What is made of a symbol depends on that symbol and the wishes alone. */
  lemma WrittenAlike(s: TQ, t: TQ, c: Command, boundary: nat, y: nat)
    requires SameRest(s, t) && Lookup(t.members, y) == Lookup(s.members, y)
    ensures Written(t, c, boundary, y) == Written(s, c, boundary, y)
  {}

  lemma {:induction false} WriteEachMeans(s: TQ, c: Command, boundary: nat, k: nat, y: nat)
    ensures Lookup(WriteEach(s, c, boundary, k).members, y)
         == if y < k then Written(s, c, boundary, y) else Lookup(s.members, y)
  {
    hide WriteOne, Written, SameRest;
    if k > 0 {
      WriteEachMeans(s, c, boundary, k - 1, y);
      var t := WriteEach(s, c, boundary, k - 1);
      WriteOneMeans(t, c, boundary, k - 1, y);
      WriteKeepsRest(s, c, boundary, k - 1);
      if y == k - 1 { WrittenAlike(s, t, c, boundary, y); }
    }
  }

  // ------------------------------------------------------------------------------------------------- a failed command

  /** A failed removal leaves its symbol unknown and owed a removal; a failed addition was never made. */
  function Failed(m: Member, action: Action): Member {
    Hushed(m, if action == Unsubscribe then Wire(true, false, true, true, m.wire.bound)
              else Wire(false, false, false, m.wire.resetRequired, m.wire.bound))
  }

  /** What a failed command makes of a symbol. */
  function AfterFailing(s: TQ, action: Action, symbols: set<nat>, y: nat): Option<Member> {
    if y in symbols then Some(Failed(MemberOr(s, y), action)) else Lookup(s.members, y)
  }

  lemma FailOneMeans(s: TQ, action: Action, symbol: nat, y: nat)
    ensures Lookup(FailOne(s, action, symbol).members, y)
         == if y == symbol then Some(Failed(MemberOr(s, y), action)) else Lookup(s.members, y)
  {}

  lemma {:induction false} FailEachMeans(s: TQ, action: Action, symbols: set<nat>, k: nat, y: nat)
    ensures Lookup(FailEach(s, action, symbols, k).members, y)
         == if y < k then AfterFailing(s, action, symbols, y) else Lookup(s.members, y)
  {
    hide FailOne, Failed;
    if k > 0 {
      FailEachMeans(s, action, symbols, k - 1, y);
      if k - 1 in symbols { FailOneMeans(FailEach(s, action, symbols, k - 1), action, k - 1, y); }
    }
  }

  function Shut(m: Option<Member>): Option<Member> {
    if m.None? then None else Some(ShutOff(m.value))
  }

  /** The result of a command is stale unless it is of the pending command, once handed over. */
  predicate Answers(s: TQ, current: bool, c: Command) {
    current && s.pending == Some(c) && s.dispatched
  }

  /** The result of a command: a write makes of each symbol what the command is for; a failure closes the control
      channel and with it every symbol, and stops the additions. */
  lemma ResultMeans(s: TQ, current: bool, c: Command, boundary: nat, succeeded: bool, n: nat, y: nat)
    requires y < n
    ensures var t := ApplyResult(s, current, c, boundary, succeeded, n);
            if !Answers(s, current, c) then Counts(s.facts, t.facts, Stale) && t == s.(facts := t.facts)
            else
              && t.pending.None? && !t.dispatched && t.epoch == s.epoch && t.nextToken == s.nextToken
              && t.mode == s.mode && t.aggregateOnly == s.aggregateOnly && t.globalBound == s.globalBound
              && if succeeded then
                   && Counts(s.facts, t.facts, TakenIn) && t.wish == s.wish && t.control == s.control
                   && t.commands == s.commands.(written := s.commands.written + 1)
                   && Lookup(t.members, y) == Written(s, c, boundary, y)
                 else
                   && Counts(s.facts, t.facts, TurnedAway) && t.control == Control(true, s.epoch, s.control.position)
                   && t.wish == Wish(s.wish.desired, [], false, s.wish.freshEpoch, s.wish.restoring)
                   && t.commands == s.commands.(failed := s.commands.failed + 1)
                   && Lookup(t.members, y) == Shut(AfterFailing(s, c.action, c.symbols, y))
  {
    hide WriteEach, FailEach, Written, Failed, StopAdditions, CloseAll, ShutOff, MemberOr;
    var u := Consume(s).(pending := None, dispatched := false);
    if !Answers(s, current, c) {
    } else if succeeded {
      var w := u.(commands := u.commands.(written := u.commands.written + 1));
      WriteEachMeans(w, c, boundary, n, y);
      WriteKeepsRest(w, c, boundary, n);
      WrittenFrom(s, w, c, boundary, y);
    } else {
      var f := u.(commands := u.commands.(failed := u.commands.failed + 1));
      FailEachMeans(f, c.action, c.symbols, n, y);
      FailKeepsRest(f, c.action, c.symbols, n);
      MemberFrom(s, f, y);
      var v := FailEach(f, c.action, c.symbols, n);
      var x := v.(control := v.control.(closed := true, epoch := s.epoch));
      StopMeans(x);
      CloseMeans(StopAdditions(x));
    }
  }

  lemma MemberFrom(s: TQ, w: TQ, y: nat)
    requires w.members == s.members
    ensures MemberOr(w, y) == MemberOr(s, y)
  {}

  lemma WrittenFrom(s: TQ, w: TQ, c: Command, boundary: nat, y: nat)
    requires w.members == s.members && w.wish == s.wish && w.mode == s.mode && w.aggregateOnly == s.aggregateOnly
    ensures Written(w, c, boundary, y) == Written(s, c, boundary, y)
  {}

  // ------------------------------------------------------------------------------------- errors of the control channel

  /** An error is stale when it is not of this connection, or not later than the latest one with a position. */
  predicate StaleError(s: TQ, current: bool, position: Position) {
    || !current
    || (position != Position(0, 0, 0) && s.control.position != Position(0, 0, 0)
        && !P.After(position, s.control.position))
  }

  function EmptiedIf(m: Option<Member>): Option<Member> {
    if m.None? then None else Some(Emptied(m.value))
  }

  /** What a control error makes of a symbol: closed, unknown when it was on the wire, and holding nothing; a symbol of
      the command in flight is what the failure of that command makes of it. */
  function Silenced(s: TQ, y: nat): Option<Member> {
    Shut(EmptiedIf(if s.pending.None? then Lookup(s.members, y)
                   else AfterFailing(s, s.pending.value.action, s.pending.value.symbols, y)))
  }

  lemma {:induction false} ReleaseAllMeans(s: TQ, k: nat, y: nat)
    ensures Lookup(ReleaseAll(s, k).members, y)
         == if y < k then EmptiedIf(Lookup(s.members, y)) else Lookup(s.members, y)
  {
    hide Release, Emptied;
    if k > 0 {
      ReleaseAllMeans(s, k - 1, y);
      var t := ReleaseAll(s, k - 1);
      if k - 1 in t.members {
        ReleaseMeans(t, k - 1, t.members[k - 1]);
        assert Set(t, k - 1, t.members[k - 1]) == t;
        if y != k - 1 { OthersLeft(t, k - 1, t.members[k - 1], y); }
      }
    }
  }

  lemma UnknownMeans(m: Member)
    ensures ShutOff(Emptied(MadeUnknown(m))) == ShutOff(Emptied(m))
  {}

  lemma SilencedMeans(u: TQ, n: nat, y: nat)
    requires y < n
    ensures var t := CloseAll(StopAdditions(ReleaseAll(AllUnknown(u), n)));
            && Lookup(t.members, y) == Shut(EmptiedIf(Lookup(u.members, y)))
            && t.control == u.control && t.facts == u.facts && t.epoch == u.epoch && t.mode == u.mode
            && t.nextToken == u.nextToken && t.aggregateOnly == u.aggregateOnly && t.globalBound == u.globalBound
            && t.wish == Wish(u.wish.desired, [], false, u.wish.freshEpoch, u.wish.restoring)
            && (u.pending.None? ==> t.pending.None? && t.commands == u.commands)
  {
    hide StopAdditions, ShutOff, Emptied, MadeUnknown;
    var a := AllUnknown(u);
    ReleaseAllMeans(a, n, y);
    ReleaseKeepsRest(a, n);
    var b := ReleaseAll(a, n);
    StopMeans(b);
    CloseMeans(StopAdditions(b));
    if y in u.members { UnknownMeans(u.members[y]); }
  }

  lemma ControlErrorMeans(s: TQ, current: bool, position: Position, n: nat, y: nat)
    requires y < n && (s.pending.None? ==> !s.dispatched)
    ensures var t := ApplyControlError(s, current, position, n);
            if StaleError(s, current, position) then t == s
            else
              && t.control.closed && t.control.epoch == (if s.control.closed then s.control.epoch else s.epoch)
              && t.control.position == (if s.control.closed && position == Position(0, 0, 0) then s.control.position
                                        else position)
              && t.facts == s.facts && t.epoch == s.epoch && t.nextToken == s.nextToken && t.mode == s.mode
              && t.aggregateOnly == s.aggregateOnly && t.globalBound == s.globalBound
              && t.wish == Wish(s.wish.desired, [], false, s.wish.freshEpoch, s.wish.restoring)
              && t.pending.None? && t.commands == s.commands.(failed := s.commands.failed + Bit(s.pending.Some?))
              && Lookup(t.members, y) == Silenced(s, y)
  {
    hide FailEach, AfterFailing, CloseAll, StopAdditions, ReleaseAll, AllUnknown, Shut, EmptiedIf, CompareLive;
    CompareOrders(position, s.control.position);
    var t := Signalled(s, position);
    if t.pending.None? {
      SilencedMeans(t, n, y);
    } else {
      var f := t.(pending := None, dispatched := false, commands := t.commands.(failed := t.commands.failed + 1));
      FailEachMeans(f, t.pending.value.action, t.pending.value.symbols, n, y);
      FailKeepsRest(f, t.pending.value.action, t.pending.value.symbols, n);
      FailingFrom(s, f, t.pending.value.action, t.pending.value.symbols, y);
      SilencedMeans(FailEach(f, t.pending.value.action, t.pending.value.symbols, n), n, y);
    }
  }

  lemma FailingFrom(s: TQ, f: TQ, action: Action, symbols: set<nat>, y: nat)
    requires f.members == s.members
    ensures AfterFailing(f, action, symbols, y) == AfterFailing(s, action, symbols, y)
  {}

  // ------------------------------------------------------------------------------------------- pressure, handing over

  /** A member under pressure: both channels closed, and owed a removal when it was present. */
  function Pressed(m: Member): Member {
    Hushed(m, Wire(m.wire.requested, m.wire.present, m.wire.unknown, m.wire.present || m.wire.resetRequired,
                   m.wire.bound))
  }

  /** A change of mode: none back to normal once a global bound was met, and none to degraded while contained. */
  lemma ModeMeans(s: TQ, mode: Mode)
    ensures var t := SetMode(s, mode);
            if s.mode == mode || (mode == Normal && s.globalBound)
               || (mode == Degraded && (s.mode == AggregateOnly || s.aggregateOnly)) then t == s
            else
              && t.mode == mode && t.facts == s.facts && t.globalBound == s.globalBound
              && (mode == AggregateOnly ==> Contained(s, t))
              && (mode == Degraded ==>
                    && AdditionsStopped(s, t) && t.aggregateOnly == s.aggregateOnly
                    && t.members == map y | y in s.members :: Pressed(s.members[y]))
              && (mode == Normal ==>
                    t == s.(mode := Normal, aggregateOnly := false, wish := s.wish.(restoring := true)))
  {
    hide StopAdditions, EnterAggregateOnly, Degrade, Pressed;
    var t := s.(mode := mode);
    ContainMeans(t);
    StopMeans(t);
    forall y | y in s.members ensures Degrade(s.members[y]) == Pressed(s.members[y]) {
      DegradeMeans(s.members[y]);
    }
  }

  lemma DegradeMeans(m: Member)
    ensures Degrade(m) == Pressed(m)
  {}

  /** A pending command is handed over once, and an addition not while contained; the control channel reopens only
      for an acknowledgement later than the epoch it was closed in. */
  lemma HandOverMeans(s: TQ, epoch: nat)
    ensures var t := Dispatch(s);
            && t == s.(dispatched := t.dispatched)
            && (t.dispatched <==> s.dispatched
                                  || (s.pending.Some? && (s.pending.value.action == Unsubscribe || !s.aggregateOnly)))
    ensures var t := ClearControl(s, epoch);
            && t == s.(control := t.control)
            && t.control == if s.control.closed && s.control.epoch < epoch then Control(false, 0, Position(0, 0, 0))
                            else s.control
  {}

  // ------------------------------------------------------------------------------------------------- reconciliation

  /** Another epoch starts with no member and no wish but what is asked for now; a pending command is fenced with
      the old one. Tokens are above those of every write so far, and the wishes of a cadence are those of its
      ranking. */
  lemma RenewedMeans(s: TQ, e: Surroundings, cadence: bool)
    ensures var t := Renewed(s, e, cadence);
            var another := s.epoch != e.epoch;
            && t.epoch == e.epoch && t.nextToken >= s.nextToken && t.nextToken > e.writeToken
            && (t.nextToken == s.nextToken || t.nextToken == e.writeToken + 1 || (another && t.nextToken == 1))
            && t.wish.desired == e.desired && !t.wish.freshEpoch
            && t.wish.restoring == (!another && s.wish.restoring)
            && (if another || cadence || s.wish.freshEpoch then t.wish.permit && t.wish.cadence == e.desired
                else t.wish.permit == s.wish.permit && t.wish.cadence == s.wish.cadence)
            && t.members == (if another then map[] else s.members)
            && t.totals == (if another then Totals(0, 0, 0, 0) else s.totals)
            && t.pending == (if another then None else s.pending) && t.dispatched == (!another && s.dispatched)
            && t.commands == s.commands.(fenced := s.commands.fenced + Bit(another && s.pending.Some?))
            && t.control == (if another then Control(false, 0, Position(0, 0, 0)) else s.control)
            && t.facts == s.facts && t.mode == s.mode && t.aggregateOnly == s.aggregateOnly
            && t.globalBound == s.globalBound
  {}

  /** A symbol no longer wanted is closed and owed a removal when it is on the wire; one that was never requested and
      holds nothing is gone. */
  function LetGo(s: TQ, y: nat): Option<Member> {
    if y !in s.members then None
    else
      var m := s.members[y];
      if y in s.wish.desired then Some(m)
      else if !m.wire.requested && m.held == Held([], map[], None, None) then None
      else Some(Hushed(m, Wire(m.wire.requested, false, m.wire.requested,
                               m.wire.requested || m.wire.present || m.wire.unknown,
                               m.wire.requested && m.wire.bound)))
  }

  lemma UnwantOneMeans(s: TQ, symbol: nat, y: nat)
    requires symbol in s.members && symbol !in s.wish.desired
    ensures Lookup(UnwantOne(s, symbol).members, y) == if y == symbol then LetGo(s, y) else Lookup(s.members, y)
  {
    hide Delete;
    var m := s.members[symbol];
    DeleteMeans(Set(s, symbol, Unwanted(m)), symbol, y);
  }

  lemma DeleteMeans(s: TQ, symbol: nat, y: nat)
    ensures Lookup(Delete(s, symbol).members, y) == if y == symbol then None else Lookup(s.members, y)
  {}

  lemma LetGoAlike(s: TQ, t: TQ, y: nat)
    requires SameRest(s, t) && Lookup(t.members, y) == Lookup(s.members, y)
    ensures LetGo(t, y) == LetGo(s, y)
  {}

  lemma {:induction false} DropUnwantedMeans(s: TQ, k: nat, y: nat)
    ensures Lookup(DropUnwanted(s, k).members, y) == if y < k then LetGo(s, y) else Lookup(s.members, y)
  {
    hide UnwantOne, SameRest;
    if k > 0 {
      DropUnwantedMeans(s, k - 1, y);
      DropKeepsWish(s, k - 1);
      var t := DropUnwanted(s, k - 1);
      RestWish(s, t);
      if k - 1 in t.members && k - 1 !in t.wish.desired { UnwantOneMeans(t, k - 1, y); }
      if y == k - 1 { LetGoAlike(s, t, y); }
    }
  }

  lemma RestWish(s: TQ, t: TQ)
    requires SameRest(s, t)
    ensures t.wish == s.wish
  {}

  /** An undispatched subscription that names a symbol no longer wanted is withdrawn, and fenced. */
  lemma DropStaleMeans(s: TQ)
    ensures var t := DropStale(s);
            var gone := s.pending.Some? && s.pending.value.action == Subscribe && !s.dispatched
                        && !(forall k :: k in s.pending.value.symbols ==> k in s.wish.desired);
            t == if gone then s.(pending := None, dispatched := false,
                                 commands := s.commands.(fenced := s.commands.fenced + 1))
                 else s
  {}

  // ------------------------------------------------------------------------------------------- which command is issued

  /** Owed a removal: on the wire, and contained, over its bound, to be renewed, or wanted no more. */
  ghost predicate Owed(s: TQ, y: nat) {
    && y in s.members && (s.members[y].wire.requested || s.members[y].wire.present || s.members[y].wire.unknown)
    && (s.aggregateOnly || s.members[y].wire.bound || s.members[y].wire.resetRequired || y !in s.wish.desired)
  }

  /** Open to an addition: wanted by the cadence, not requested yet, and not over its bound. */
  predicate Open(s: TQ, y: nat) {
    y in s.wish.cadence && !MemberOr(s, y).wire.requested && !MemberOr(s, y).wire.bound
  }

  /** The symbols open to an addition, in the order of the ranking. */
  function Wanted(s: TQ, ranking: seq<nat>): seq<nat> {
    if ranking == [] then []
    else Wanted(s, ranking[..|ranking| - 1])
         + if Open(s, ranking[|ranking| - 1]) then [ranking[|ranking| - 1]] else []
  }

  function First(symbols: seq<nat>, room: nat): seq<nat> {
    if |symbols| <= room then symbols else symbols[..room]
  }

  /** The additions are as many of those open to one as there is room for, best ranked first; the members are those
      there were, and new ones for what the cadence names. */
  lemma {:induction false} MissingMeans(s: TQ, ranking: seq<nat>, room: nat, y: nat)
    ensures var (t, missing) := Missing(s, ranking, room);
            && missing == First(Wanted(s, ranking), room) && SameRest(s, t)
            && Lookup(t.members, y) == if y in s.members || (y in ranking && y in s.wish.cadence)
                                       then Some(MemberOr(s, y)) else None
    decreases |ranking|
  {
    hide MemberOr;
    if ranking == [] {
      MemberOrMeans(s, y);
    } else {
      var front, last := ranking[..|ranking| - 1], ranking[|ranking| - 1];
      assert ranking == front + [last];
      MissingMeans(s, front, room, y);
      MissingMeans(s, front, room, last);
      var t := Missing(s, front, room).0;
      EnsureMeans(t, last);
      MemberOrMeans(s, y);
      MemberOrMeans(s, last);
      MemberOrMeans(t, last);
    }
  }

  lemma MemberOrMeans(s: TQ, y: nat)
    ensures y in s.members ==> MemberOr(s, y) == s.members[y]
    ensures y !in s.members ==> MemberOr(s, y) == NewMember
  {}

  lemma {:induction false} SilenceEachMeans(s: TQ, symbols: set<nat>, k: nat, y: nat)
    requires forall x :: x in symbols ==> x in s.members
    ensures Lookup(SilenceEach(s, symbols, k).members, y)
         == if y < k && y in symbols then Some(Hushed(s.members[y], s.members[y].wire)) else Lookup(s.members, y)
  {
    hide SilenceOne, Hushed;
    if k > 0 {
      SilenceEachMeans(s, symbols, k - 1, y);
      SilenceEachMeans(s, symbols, k - 1, k - 1);
      if k - 1 in symbols { SilenceOneMeans(SilenceEach(s, symbols, k - 1), k - 1, y); }
    }
  }

  lemma SilenceOneMeans(s: TQ, symbol: nat, y: nat)
    requires symbol in s.members
    ensures Lookup(SilenceOne(s, symbol).members, y)
         == if y == symbol then Some(Hushed(s.members[y], s.members[y].wire)) else Lookup(s.members, y)
  {}

  /** A state with one more command issued: under the next token, and not handed over yet. */
  ghost predicate Issued(s: TQ, t: TQ, action: Action, symbols: set<nat>) {
    && t.pending == Some(Command(s.epoch, s.nextToken, action, symbols)) && !t.dispatched
    && t.nextToken == s.nextToken + 1 && t.commands == s.commands.(issued := s.commands.issued + 1)
  }

  /** The additions a reconciliation may make: the best ranked open to one, as far as twenty symbols on the wire. */
  function Additions(s: TQ): seq<nat> {
    First(Wanted(s, s.wish.desired),
          if |WireSet(s.members)| < 20 then 20 - |WireSet(s.members)| else 0)
  }

  /** Removals come first, of exactly what is owed one; then, while additions are permitted, all of them at once, or
      only the first while the additions are being restored. A permit is used up by the attempt. */
  ghost predicate Settles(s: TQ, t: TQ) {
    && t.epoch == s.epoch && t.mode == s.mode && t.aggregateOnly == s.aggregateOnly && t.globalBound == s.globalBound
    && t.control == s.control && t.facts == s.facts
    && if exists y :: Owed(s, y) then
         Issued(s, t, Unsubscribe, set y | y in s.members && Owed(s, y)) && t.wish == s.wish
       else if s.aggregateOnly || s.mode == Degraded || !s.wish.permit then t == s
       else if Additions(s) == [] then
         && t.pending.None? && t.nextToken == s.nextToken && t.commands == s.commands
         && t.wish == Wish(s.wish.desired, s.wish.cadence, false, s.wish.freshEpoch, false)
       else
         && t.wish == Wish(s.wish.desired, s.wish.cadence, false, s.wish.freshEpoch, s.wish.restoring)
         && Issued(s, t, Subscribe, if s.wish.restoring then {Additions(s)[0]} else set y | y in Additions(s))
  }

  lemma RemovalsMean(s: TQ, y: nat)
    ensures y in Removals(s) <==> Owed(s, y)
  {}

  lemma OwedMeans(s: TQ)
    ensures Removals(s) == set y | y in s.members && Owed(s, y)
    ensures Removals(s) != {} <==> exists y :: Owed(s, y)
  {
    hide Removals, Owed;
    forall y ensures y in Removals(s) <==> y in (set z | z in s.members && Owed(s, z)) {
      RemovalsMean(s, y);
      OwedHeld(s, y);
    }
    if y :| y in Removals(s) { RemovalsMean(s, y); }
    if y :| Owed(s, y) { RemovalsMean(s, y); }
  }

  lemma OwedHeld(s: TQ, y: nat)
    ensures Owed(s, y) ==> y in s.members
  {}

  lemma SettleRemoves(s: TQ, n: nat)
    requires WireBounded(s) && s.pending.None? && Removals(s) != {}
    ensures Settles(s, Settle(s, n))
  {
    hide Removals, Owed;
    RemovalsOnWire(s);
    OwedMeans(s);
    SilenceKeepsRest(s.(pending := Some(Command(s.epoch, s.nextToken, Unsubscribe, Removals(s))), dispatched := false,
                        nextToken := s.nextToken + 1,
                        commands := s.commands.(issued := s.commands.issued + 1)), Removals(s), n);
  }

  lemma SettleAdds(s: TQ, n: nat)
    requires WireBounded(s) && s.pending.None? && Removals(s) == {}
    ensures Settles(s, Settle(s, n))
  {
    hide Removals, Owed, Wanted, Missing, WireSet, WireBounded;
    OwedMeans(s);
    MissingMeans(s, s.wish.desired, Room(s), 0);
    RoomLeft(s);
    var (t, missing) := Missing(s, s.wish.desired, Room(s));
    assert missing == Additions(s);
    SequenceSize(missing);
    assert missing != [] ==> missing[0] in Elements(missing);
  }

  /** Which command a reconciliation issues, when none is pending. */
  lemma SettleMeans(s: TQ, n: nat)
    requires WireBounded(s) && s.pending.None?
    ensures Settles(s, Settle(s, n))
  {
    hide Settles, Settle;
    if Removals(s) != {} { SettleRemoves(s, n); } else { SettleAdds(s, n); }
  }

  /** What it makes of a symbol: one owed a removal is closed at once, and a first addition makes a member. */
  lemma SettledMembers(s: TQ, n: nat, y: nat)
    requires WireBounded(s) && s.pending.None? && y < n
    ensures Lookup(Settle(s, n).members, y)
         == if exists x :: Owed(s, x) then
              if Owed(s, y) then Some(Hushed(MemberOr(s, y), MemberOr(s, y).wire)) else Lookup(s.members, y)
            else if s.aggregateOnly || s.mode == Degraded || !s.wish.permit then Lookup(s.members, y)
            else if y in s.members || (y in s.wish.desired && y in s.wish.cadence) then Some(MemberOr(s, y))
            else None
  {
    hide Removals, Owed, Wanted, Missing, WireSet, WireBounded, Hushed, SilenceEach;
    OwedMeans(s);
    RemovalsMean(s, y);
    OwedHeld(s, y);
    MemberOrMeans(s, y);
    if Removals(s) != {} {
      RemovalsOnWire(s);
      var u := s.(pending := Some(Command(s.epoch, s.nextToken, Unsubscribe, Removals(s))), dispatched := false,
                  nextToken := s.nextToken + 1, commands := s.commands.(issued := s.commands.issued + 1));
      forall x | x in Removals(s) ensures x in s.members {
        RemovalsMean(s, x);
        OwedHeld(s, x);
      }
      SilenceEachMeans(u, Removals(s), n, y);
    } else {
      MissingMeans(s, s.wish.desired, Room(s), y);
      RoomLeft(s);
      SequenceSize(Missing(s, s.wish.desired, Room(s)).1);
      var missing := Missing(s, s.wish.desired, Room(s)).1;
      assert missing != [] ==> missing[0] in Elements(missing);
    }
  }

  /** A reconciliation renews, prunes, lets go of what is wanted no more and withdraws what is stale; only then, live,
      with the control channel open and nothing pending, may it issue a command. */
  lemma ReconcileMeans(s: TQ, e: Surroundings, cadence: bool, n: nat)
    requires Keeps(s, n) && Admissible(ReconcileEvent(e, cadence), n)
    ensures var d, t := Tidied(s, e, cadence, n), Reconcile(s, e, cadence, n);
            if e.live && !d.control.closed && d.pending.None? then Settles(d, t) else t == d
  {
    hide Settle, Settles;
    var c := Renewed(s, e, cadence);
    RenewedBounded(s, e, cadence);
    PrunedCalm(c, n, e.target, e.now);
    CalmBounded(c, Tidied(s, e, cadence, n));
    if Tidied(s, e, cadence, n).pending.None? { SettleMeans(Tidied(s, e, cadence, n), n); }
  }

  /** What the tidying makes of a symbol: nothing of an older epoch is left, and of this one what a pruning keeps,
      closed when it is wanted no more. */
  lemma TidiedMeans(s: TQ, e: Surroundings, cadence: bool, n: nat, y: nat)
    requires y < n
    ensures var c, d := Renewed(s, e, cadence), Tidied(s, e, cadence, n);
            exists p :: && SameRest(c, p) && (y in p.members <==> y in c.members)
                        && (y in c.members ==> Pruned(c.members[y], p.members[y], e.target, e.now))
                        && Lookup(d.members, y) == LetGo(p, y)
  {
    hide Pruned, LetGo, DropUnwanted, Renewed;
    var c := Renewed(s, e, cadence);
    var p := Prune(c, n, e.target, e.now);
    PruneKeepsRest(c, n, e.target, e.now);
    PruneMeans(c, n, e.target, e.now, y);
    DropUnwantedMeans(p, n, y);
  }
}
