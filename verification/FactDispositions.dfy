/** What becomes of every consumed bar, by the bar its second already has: inside the correction horizon, past it, and
    for good once the second is sealed. */
module FactDispositions {
  import opened Options
  import opened SessionUnits
  import opened LivePositions
  import opened CanonicalMerge
  import opened AggregateStore
  import opened FeatureRuns
  import P = AggregatePrefixes

  /** A bar is late strictly more than 960 seconds after its end. */
  lemma LateMeans(now: int, start: int)
    ensures Expired(now, start) <==> now > (start + 961) * SECOND
  {}

  // ------------------------------------------------------------------------------------------- inside the horizon

  /** Inside the horizon the outcome is told by the second's record, and by nothing else of the state: by its values, by
      who vouches for it, and by the place of the fact against the record's own. */
  lemma MergeMeans(c: Cell, f: Fact)
    ensures var d := Merge(c, f).1;
            if c.record.None? then
              && (d == HistoricalHistoricalConflict <==> f.source.Historical? && c.conflict)
              && (d == Inserted <==> f.source.Live? || !c.conflict)
            else
              var r := c.record.value;
              && (d == ExactDuplicate <==> f.values == r.values)
              && (d == HistoricalLiveConflict <==>
                    f.values != r.values && f.source.Historical? && r.authority.Live?)
              && (d == Withdrawn <==> f.values != r.values && f.source.Historical? && r.authority.Historical?)
              && (d == Nonprecedent <==>
                    f.values != r.values && f.source.Live? && r.authority.Live?
                    && After(r.authority.position, f.source.position))
              && (d == Integrity <==> f.values != r.values && f.source.Live? && f.source == r.authority)
              && (d == Revised <==>
                    f.values != r.values && f.source.Live?
                    && (r.authority.Live? ==> After(f.source.position, r.authority.position)))
  {
    if c.record.Some? && c.record.value.authority.Live? && f.source.Live? {
      CompareOrders(f.source.position, c.record.value.authority.position);
      CompareOrders(c.record.value.authority.position, f.source.position);
    }
  }

  lemma CompareOrders(a: Position, b: Position)
    ensures CompareLive(a, b) > 0 <==> After(a, b)
    ensures CompareLive(a, b) < 0 <==> After(b, a)
    ensures CompareLive(a, b) == 0 <==> a == b
  {}

  // -------------------------------------------------------------------------------------------------- past the horizon

  /** The record the state can still recall of a second: its tail record, or a mark kept of its folded bar. */
  ghost predicate Recalls(s: Store, at: int, r: Record) {
    if at in s.tail then r == s.tail[at]
    else if s.marks.latest.Some? && s.marks.latest.value.start == at then s.marks.latest == Some(r)
    else s.marks.older == Some(r) && r.start == at
  }

  lemma FindMeans(s: Store, at: int, r: Record)
    ensures Find(s, at).Found? && Find(s, at).record == r <==> Recalls(s, at, r)
  {}

  /** A live record stands at its greatest live position, and a historical one has none. */
  predicate Supported(r: Record) {
    match r.authority
    case Live(p) => r.greatest == Some(p)
    case Historical => r.greatest.None?
  }

  ghost predicate MarkSupported(s: Store, m: Option<Record>) {
    m.Some? ==>
      && Supported(m.value)
      && (m.value.start !in s.tail && m.value.start in s.bits.presence ==>
            (m.value.authority.Live? <==> m.value.start in s.bits.sealedLive))
  }

  /** A second is sealed exactly when the bar folded for it is a live one. */
  ghost predicate SealsHold(s: Store) {
    && (forall k :: k in s.bits.sealedLive ==> k in s.bits.presence)
    && (forall i :: 0 <= i < |s.folded| ==> (s.folded[i].start in s.bits.sealedLive <==> s.folded[i].authority.Live?))
  }

  ghost predicate RecordsHold(s: Store) {
    && (forall k :: k in s.tail ==> Supported(s.tail[k]))
    && MarkSupported(s, s.marks.latest) && MarkSupported(s, s.marks.older)
    && (s.marks.latest.Some? && s.marks.latest.value.start in s.tail ==>
          s.marks.latest.value == s.tail[s.marks.latest.value.start])
  }

  ghost predicate Sound(s: Store, clock: int) {
    Holds(s, clock) && OlderHeld(s) && SealsHold(s) && RecordsHold(s)
  }

  /** A live bar past the horizon changes no bar: it repeats the live bar recalled for its second, or it is too late. */
  lemma LateLiveMeans(s: Store, f: Fact, now: int, reconciled: Option<Values>)
    requires Sound(s, now) && Admissible(f, now) && Expired(now, f.start) && f.source.Live?
    ensures var (t, d) := Decide(s, f, now, reconciled);
            && SameHeld(s, t) && t.bits == s.bits
            && (d == ExactDuplicate <==>
                  exists r :: Recalls(s, f.start, r) && r.authority.Live? && r.values == f.values)
            && (d != ExactDuplicate ==> d == TooLate && t == s)
  {
    var (t, d) := Decide(s, f, now, reconciled);
    DecisionChanges(s, f, now, reconciled);
    if Find(s, f.start).Found? { FindMeans(s, f.start, Find(s, f.start).record); }
    forall r | Recalls(s, f.start, r) ensures Find(s, f.start).Found? && Find(s, f.start).record == r {
      FindMeans(s, f.start, r);
    }
  }

  /** A historical row of a sealed second changes nothing: it repeats the value kept for reconciliation, or it is in
      conflict with the live bar. */
  lemma SealedRowMeans(s: Store, f: Fact, now: int, reconciled: Option<Values>)
    requires f.source.Historical? && f.start in s.bits.sealedLive
    ensures var (t, d) := Decide(s, f, now, reconciled);
            && t == s && (d == ExactDuplicate <==> reconciled == Some(f.values))
            && (d != ExactDuplicate ==> d == HistoricalLiveConflict)
  {}

  /** Any other historical row past the horizon is told by what is recalled of its second, then by whether a bar is held
      there at all: a bar that can no longer be compared is fenced, one that contradicts is withdrawn, and an empty
      second takes the row unless rows contradicted each other there before. */
  lemma LateRowMeans(s: Store, f: Fact, now: int, reconciled: Option<Values>)
    requires Sound(s, now) && Admissible(f, now) && Expired(now, f.start)
    requires f.source.Historical? && f.start !in s.bits.sealedLive
    ensures var (t, d) := Decide(s, f, now, reconciled);
            && (d == ExactDuplicate <==> exists r :: Recalls(s, f.start, r) && r.values == f.values)
            && (d == HistoricalLiveConflict <==>
                  exists r :: Recalls(s, f.start, r) && r.values != f.values && r.authority.Live?)
            && (d == Withdrawn <==>
                  exists r :: Recalls(s, f.start, r) && r.values != f.values && r.authority.Historical?)
            && (d == FencedContext <==> f.start in s.bits.presence && !exists r :: Recalls(s, f.start, r))
            && (d == HistoricalHistoricalConflict <==>
                  f.start in s.bits.conflict && !exists r :: Recalls(s, f.start, r))
            && (d == Inserted <==>
                  f.start !in s.bits.presence && f.start !in s.bits.conflict && !exists r :: Recalls(s, f.start, r))
            && (d == Inserted ==>
                  OneChanged(s, t, f.start, Some(f.values)) && f.start in t.bits.presence)
            && (d == Withdrawn ==> OneChanged(s, t, f.start, None) && t.bits.conflict == s.bits.conflict + {f.start})
            && (d != Inserted && d != Withdrawn ==> t == s)
  {
    DecisionChanges(s, f, now, reconciled);
    if Find(s, f.start).Found? { FindMeans(s, f.start, Find(s, f.start).record); }
    forall r | Recalls(s, f.start, r) ensures Find(s, f.start).Found? && Find(s, f.start).record == r {
      FindMeans(s, f.start, r);
    }
  }

  /** What is recalled of a second is the bar held there, or of a second whose rows contradicted each other. */
  lemma RecalledIsHeld(s: Store, now: int, at: int, r: Record)
    requires Holds(s, now) && OlderHeld(s) && Recalls(s, at, r)
    ensures r.start == at && (HasBar(s, at, r.values) || at in s.bits.conflict)
  {
    if at !in s.tail && at !in s.bits.conflict {
      assert at in s.bits.presence || exists i :: FoldedIndex(s.folded, i, at);
      var i :| FoldedIndex(s.folded, i, at);
      assert s.folded[i].values == r.values;
    }
  }

  // ----------------------------------------------------------------------------- what keeps the seals and the records

  lemma FoldOutSound(s: Store, start: int, clock: int)
    requires Sound(s, clock) && start in s.tail && Expired(clock, start)
    ensures var t := FoldOut(s, start); SealsHold(t) && RecordsHold(t)
  {
    var t := FoldOut(s, start);
    FoldMore(s.folded, s.tail[start]);
    assert start !in s.bits.sealedLive;
    assert SealsHold(t);
    assert t.marks.latest == s.marks.latest;
    assert MarkSupported(t, t.marks.older);
  }

  lemma {:induction false} CompactSound(s: Store, now: int)
    requires Sound(s, now)
    ensures Sound(Compact(s, now), now)
    decreases |s.tail.Keys|
  {
    hide Holds, OlderHeld, SealsHold, RecordsHold, FoldOut;
    CompactHolds(s, now);
    HoldsKeyed(s, now);
    CompactKeepsOlder(s, now);
    if exists k :: IsLeast(s.tail.Keys, k) && Expired(now, k) {
      var least :| IsLeast(s.tail.Keys, least) && Expired(now, least)
                   && Compact(s, now) == Compact(FoldOut(s, least), now);
      assert (s.tail - {least}).Keys == s.tail.Keys - {least};
      FoldOutHolds(s, least, now);
      FoldOutSound(s, least, now);
      FoldOutOlder(s, least, now);
      assert (FoldOut(s, least)).tail.Keys == s.tail.Keys - {least} by { FoldOutTail(s, least); }
      CompactSound(FoldOut(s, least), now);
    }
  }

  lemma FoldOutTail(s: Store, least: int)
    requires least in s.tail
    ensures FoldOut(s, least).tail.Keys == s.tail.Keys - {least}
  {}

  lemma FoldOutOlder(s: Store, start: int, clock: int)
    requires Holds(s, clock) && OlderHeld(s) && start in s.tail
    ensures OlderHeld(FoldOut(s, start))
  {}

  lemma ClearedSound(c: Store, f: Fact, clock: int)
    requires Sound(c, clock)
    ensures var t := c.(bits := ClearAbsence(c.bits, f)); SealsHold(t) && RecordsHold(t)
  {}

  lemma PutSound(c: Store, r: Record, clock: int)
    requires Holds(c, clock) && SealsHold(c) && RecordsHold(c) && Supported(r) && r.start !in c.bits.presence
    ensures SealsHold(PutTail(c, r)) && RecordsHold(PutTail(c, r))
  {}

  lemma FoldDirectSound(c: Store, r: Record, clock: int)
    requires Holds(c, clock) && SealsHold(c) && RecordsHold(c) && Supported(r) && r.authority.Historical?
    requires r.start !in c.bits.presence && r.start !in c.tail && Find(c, r.start).Missing?
    ensures SealsHold(FoldDirect(c, r)) && RecordsHold(FoldDirect(c, r))
  {
    FoldMore(c.folded, r);
  }

  lemma InstallSound(s: Store, f: Fact, now: int)
    requires Sound(s, now) && f.start !in s.bits.presence && (f.source.Historical? ==> Find(s, f.start).Missing?)
    requires Expired(now, f.start) ==> f.source.Historical?
    ensures SealsHold(Install(s, f, now)) && RecordsHold(Install(s, f, now))
  {
    hide Compact, PutTail, FoldDirect;
    CompactSound(s, now);
    CompactCompacts(s, now);
    if f.source.Historical? { CompactFinds(s, now, f.start); }
    var c := Compact(s, now);
    ClearedSound(c, f, now);
    ClearAbsenceHolds(c, f, now);
    var cleared, r := c.(bits := ClearAbsence(c.bits, f)), Canonical(c, f);
    if f.source.Historical? && Expired(now, f.start) {
      FoldDirectSound(cleared, r, now);
    } else {
      PutSound(cleared, r, now);
    }
  }

  lemma TouchSound(s: Store, start: int, position: Position, clock: int)
    requires Sound(s, clock) && Find(s, start).Found?
    requires start !in s.tail ==> Find(s, start).record.authority.Live?
    ensures var t := Touch(s, Find(s, start), position); SealsHold(t) && RecordsHold(t)
  {}

  lemma ContradictSound(s: Store, existing: Record, clock: int)
    requires Sound(s, clock) && existing.start !in s.bits.sealedLive && existing.authority.Historical?
    ensures var t := Contradict(s, existing); SealsHold(t) && RecordsHold(t)
  {
    if existing.start in s.bits.presence {
      var i := UnfoldIs(s, existing);
      P.WithoutKeeps(s.folded, i);
    }
  }

  ghost predicate OlderApart(t: Store) {
    Keyed(t) && (t.marks.older.Some? ==> t.marks.older.value.start !in t.tail)
  }

  lemma RecomputedSound(t: Store)
    requires SealsHold(t) && RecordsHold(t) && OlderApart(t)
    ensures var u := t.(marks := t.marks.(latest := RecomputeLatest(t))); SealsHold(u) && RecordsHold(u)
  {}

  lemma ForgetSound(t: Store, start: int)
    requires SealsHold(t) && RecordsHold(t) && OlderApart(t)
    ensures SealsHold(ForgetMark(t, start)) && RecordsHold(ForgetMark(t, start))
  {
    hide RecomputeLatest;
    RecomputedSound(t);
    RecomputedSound(t.(marks := t.marks.(older := None)));
  }

  lemma ContradictApart(s: Store, existing: Record, clock: int)
    requires Holds(s, clock)
    ensures OlderApart(Contradict(s, existing))
    ensures OlderApart(s.(tail := s.tail - {existing.start},
                          bits := s.bits.(presence := s.bits.presence - {existing.start})))
  {}

  lemma RemovedSound(s: Store, start: int, clock: int)
    requires Sound(s, clock) && start in s.tail
    ensures var t := s.(tail := s.tail - {start}, bits := s.bits.(presence := s.bits.presence - {start}));
            SealsHold(t) && RecordsHold(t) && OlderApart(t)
  {
    assert s.bits.presence - {start} == s.bits.presence;
  }

  /** Of a folded second only a live record is ever lent a position. */
  lemma TouchedIsLive(s: Store, f: Fact, now: int, reconciled: Option<Values>)
    requires Sound(s, now) && Find(s, f.start).Found? && f.source.Live?
    requires Decide(s, f, now, reconciled).1 == ExactDuplicate
    ensures f.start !in s.tail ==> Find(s, f.start).record.authority.Live?
  {
    hide Install, WithdrawHistorical, WithdrawIntegrity, Touch, SealsHold, OlderHeld;
  }

  lemma DecideSound(s: Store, f: Fact, now: int, reconciled: Option<Values>)
    requires Sound(s, now) && Admissible(f, now)
    ensures Sound(Decide(s, f, now, reconciled).0, now)
  {
    hide Install, Contradict, ForgetMark, Touch, SealsHold, RecordsHold;
    var found := Find(s, f.start);
    var r := Decide(s, f, now, reconciled);
    DecideHolds(s, f, now, reconciled);
    DecideKeepsOlder(s, f, now, reconciled);
    if r.1 == Inserted || r.1 == Revised {
      AcceptedInstalls(s, f, now, reconciled);
      InstallSound(s, f, now);
    } else if r.1 == Withdrawn {
      ContradictSound(s, found.record, now);
      ContradictApart(s, found.record, now);
      ForgetSound(Contradict(s, found.record), f.start);
    } else if r.1 == Integrity {
      RemovedSound(s, f.start, now);
      ForgetSound(s.(tail := s.tail - {f.start}, bits := s.bits.(presence := s.bits.presence - {f.start})), f.start);
    } else if r.1 == ExactDuplicate && found.Found? && f.source.Live? {
      TouchedIsLive(s, f, now, reconciled);
      TouchSound(s, f.start, f.source.position, now);
    }
  }

  // ------------------------------------------------------------------------------------------------------- every run

  lemma StepSound(s: System, e: Timed)
    requires Sound(s.store, s.clock) && Enabled(s, e)
    ensures Sound(Step(s, e).store, Step(s, e).clock)
  {
    hide Decide, SealsHold, RecordsHold;
    ClockAdvances(s.store, s.clock, e.now);
    match e.event
    case Consume(f, reconciled) => DecideSound(s.store, f, e.now, reconciled);
    case Cover(start, end, invalid) =>
      CoverHolds(s.store, start, end, invalid, e.now);
      CoverSound(s.store, start, end, invalid);
  }

  lemma CoverSound(s: Store, start: int, end: int, invalid: Option<int>)
    requires OlderHeld(s) && SealsHold(s) && RecordsHold(s)
    ensures var t := InstallCoverage(s, start, end, invalid); OlderHeld(t) && SealsHold(t) && RecordsHold(t)
  {}

  lemma {:induction false} RunSound(es: seq<Timed>)
    requires IsRun(es)
    ensures Sound(Run(es).store, Run(es).clock)
    decreases |es|
  {
    hide Sound, Step;
    if es == [] {
      RunHolds(es);
      EmptySound();
    } else {
      RunSound(es[..|es| - 1]);
      StepSound(Run(es[..|es| - 1]), es[|es| - 1]);
    }
  }

  lemma EmptySound()
    ensures Sound(EmptyStore, 0)
  {
    assert FoldedHolds(EmptyStore);
  }

  /** Over every run the state answers as it should: `LateLiveMeans`, `SealedRowMeans` and `LateRowMeans` are about the
      state of any run, and a second is sealed exactly when the bar folded for it is a live one. */
  lemma SealedMeans(es: seq<Timed>, at: int)
    requires IsRun(es)
    ensures Sound(Run(es).store, Run(es).clock)
    ensures at in Run(es).store.bits.sealedLive
       <==> exists i :: FoldedIndex(Run(es).store.folded, i, at) && Run(es).store.folded[i].authority.Live?
  {
    RunSound(es);
    var s := Run(es).store;
    if at in s.bits.sealedLive {
      assert at in s.bits.presence;
      var i :| FoldedIndex(s.folded, i, at);
    }
  }

  /** A decision leaves a sealed second sealed, with its bar. */
  lemma SealedStays(s: Store, f: Fact, now: int, reconciled: Option<Values>, at: int, v: Values)
    requires Sound(s, now) && Admissible(f, now) && at in s.bits.sealedLive && HasBar(s, at, v)
    ensures var t := Decide(s, f, now, reconciled).0; at in t.bits.sealedLive && HasBar(t, at, v)
  {
    hide HasBar, Install, WithdrawHistorical, WithdrawIntegrity, Touch;
    var (t, d) := Decide(s, f, now, reconciled);
    DecisionChanges(s, f, now, reconciled);
    SealedLate(s, now, at);
    if f.start == at && f.source.Live? { LateLiveMeans(s, f, now, reconciled); }
    SealsGrow(s, f, now, reconciled, at);
  }

  lemma SealedLate(s: Store, now: int, at: int)
    requires Sound(s, now) && at in s.bits.sealedLive
    ensures Expired(now, at) && at in s.bits.presence && at !in s.tail
  {}

  lemma SealsGrow(s: Store, f: Fact, now: int, reconciled: Option<Values>, at: int)
    requires at in s.bits.sealedLive
    ensures at in Decide(s, f, now, reconciled).0.bits.sealedLive
  {
    hide Compact, RecomputeLatest, P.Without;
    CompactCompacts(s, now);
  }

  /** Once sealed, a second holds its bar for the rest of the run: no fact, live or historical, changes it any more. */
  lemma {:induction false} SealedForGood(es: seq<Timed>, m: nat, at: int, v: Values)
    requires IsRun(es) && m <= |es| && IsRun(es[..m])
    requires at in Run(es[..m]).store.bits.sealedLive && HasBar(Run(es[..m]).store, at, v)
    ensures at in Run(es).store.bits.sealedLive && HasBar(Run(es).store, at, v)
    decreases |es|
  {
    hide HasBar, Decide, Sound, InstallCoverage;
    if m == |es| {
      assert es[..m] == es;
    } else {
      var rest, e := es[..|es| - 1], es[|es| - 1];
      assert rest[..m] == es[..m];
      SealedForGood(rest, m, at, v);
      RunSound(rest);
      var s := Run(rest);
      LaterSound(s.store, s.clock, e.now);
      match e.event
      case Consume(f, reconciled) => SealedStays(s.store, f, e.now, reconciled, at, v);
      case Cover(start, end, invalid) => CoverSame(s.store, start, end, invalid, at, v);
    }
  }

  lemma LaterSound(s: Store, clock: int, now: int)
    requires Sound(s, clock) && clock <= now
    ensures Sound(s, now)
  {
    ClockAdvances(s, clock, now);
  }

  lemma CoverSame(s: Store, start: int, end: int, invalid: Option<int>, at: int, v: Values)
    ensures var t := InstallCoverage(s, start, end, invalid);
            t.bits.sealedLive == s.bits.sealedLive && (HasBar(t, at, v) <==> HasBar(s, at, v))
  {}

  // ------------------------------------------------------------------------------------- a mark that outlives its bar

  lemma LatestHeld(s: Store, now: int)
    requires Holds(s, now)
    ensures s.marks.latest.Some? ==>
              s.marks.latest.value.start in s.tail || s.marks.latest.value.start in s.bits.presence
  {
    if s.marks.latest.Some? && s.marks.latest.value.start !in s.tail {
      var i :| FoldedIndex(s.folded, i, s.marks.latest.value.start);
    }
  }

  /** A late row of a second whose rows contradicted each other is answered with that conflict, and changes nothing,
      if and only if the older delivery mark is not of that second. */
  lemma ConflictAnswered(s: Store, f: Fact, now: int, reconciled: Option<Values>)
    requires Sound(s, now) && Admissible(f, now) && Expired(now, f.start) && f.source.Historical?
    requires f.start in s.bits.conflict
    ensures Decide(s, f, now, reconciled) == (s, HistoricalHistoricalConflict)
       <==> (s.marks.older.Some? ==> s.marks.older.value.start != f.start)
  {
    assert f.start !in s.bits.presence && f.start !in s.bits.sealedLive && f.start !in s.tail;
    LatestHeld(s, now);
    LateRowMeans(s, f, now, reconciled);
    if s.marks.older.Some? && s.marks.older.value.start == f.start {
      assert Recalls(s, f.start, s.marks.older.value);
    } else {
      assert forall r :: !Recalls(s, f.start, r);
    }
  }

  function ValuesAt(price: real): Values {
    Values(price, price, price, price, 1.0, price, 1, RestFloorVolumeOverTrades)
  }

  function RowAt(start: int, price: real): Event {
    Consume(Fact(start, Historical, ValuesAt(price)), None)
  }

  /** A late row, one inside the horizon, and a late row that contradicts the first. */
  function Contradicted(): seq<Timed> {
    var now := 2000 * SECOND;
    [Timed(RowAt(0, 1.0), now), Timed(RowAt(1990, 1.0), now), Timed(RowAt(0, 2.0), now)]
  }

  lemma NothingToCompact(s: Store, now: int)
    requires forall k :: k in s.tail ==> !Expired(now, k)
    ensures Compact(s, now) == s
  {}

  lemma FirstRow(now: int)
    requires now == 2000 * SECOND
    ensures var t := Step(System(EmptyStore, false, 0), Timed(RowAt(0, 1.0), now));
            var r := Record(0, ValuesAt(1.0), Historical, None);
            && !t.integrity && t.clock == now && t.store.tail == map[] && t.store.folded == [r]
            && t.store.marks.older == Some(r) && t.store.marks.latest == Some(r)
            && t.store.bits == Bits({0}, {}, {}, {})
  {
    NothingToCompact(EmptyStore, now);
    assert {} + {0} == {0};
  }

  lemma SecondRow(s: System, now: int)
    requires now == 2000 * SECOND && s.clock == now && !s.integrity && s.store.tail == map[]
    requires s.store.marks.older == Some(Record(0, ValuesAt(1.0), Historical, None)) && 1990 !in s.store.bits.presence
    requires 1990 !in s.store.bits.conflict && 1990 !in s.store.bits.sealedLive && Find(s.store, 1990).Missing?
    requires s.store.marks.latest.Some? ==> s.store.marks.latest.value.start < 1990
    ensures var t := Step(s, Timed(RowAt(1990, 1.0), now));
            && !t.integrity && t.clock == now && t.store.tail.Keys == {1990}
            && t.store.marks.older == s.store.marks.older
            && t.store.marks.latest.Some? && t.store.marks.latest.value.start == 1990
            && t.store.folded == s.store.folded && t.store.bits.presence == s.store.bits.presence
            && t.store.bits.sealedLive == s.store.bits.sealedLive && t.store.bits.conflict == s.store.bits.conflict
  {
    NothingToCompact(s.store, now);
  }

  lemma ThirdRow(s: System, now: int)
    requires now == 2000 * SECOND && s.clock == now && !s.integrity && s.store.tail.Keys == {1990}
    requires s.store.marks.older == Some(Record(0, ValuesAt(1.0), Historical, None))
    requires s.store.folded == [s.store.marks.older.value]
    requires s.store.marks.latest.Some? && s.store.marks.latest.value.start == 1990
    requires s.store.bits.presence == {0} && s.store.bits.sealedLive == {} && s.store.bits.conflict == {}
    ensures var t := Step(s, Timed(RowAt(0, 2.0), now));
            && !t.integrity && t.clock == now && t.store.tail == s.store.tail && t.store.bits.conflict == {0}
            && t.store.marks.older == s.store.marks.older && t.store.marks.latest == s.store.marks.latest
            && t.store.bits.presence == {}
            && t.store.bits.sealedLive == {} && t.store.folded == []
  {
    var existing := s.store.marks.older.value;
    assert FoldedIndex(s.store.folded, 0, 0);
    assert Decide(s.store, Fact(0, Historical, ValuesAt(2.0)), now, None)
        == (WithdrawHistorical(s.store, existing), Withdrawn);
    var i :| FoldedIndex(s.store.folded, i, 0) && Unfold(s.store, existing).folded == P.Without(s.store.folded, i);
    assert i == 0;
    assert s.store.tail - {0} == s.store.tail;
  }

  /** A run that ends with a second in conflict and no bar held for it, where a late row that repeats the first of the
      rows that contradicted each other is still answered as a duplicate, and not as the conflict it is part of. */
  lemma MarkOutlivesBar() returns (es: seq<Timed>)
    ensures IsRun(es)
    ensures var s, now := Run(es).store, Run(es).clock;
            && 0 in s.bits.conflict && (forall v :: !HasBar(s, 0, v))
            && Decide(s, Fact(0, Historical, ValuesAt(1.0)), now, None) == (s, ExactDuplicate)
  {
    hide Step, Decide;
    es := Contradicted();
    var now := 2000 * SECOND;
    FirstRow(now);
    var a := Step(System(EmptyStore, false, 0), es[0]);
    SecondRow(a, now);
    var b := Step(a, es[1]);
    ThirdRow(b, now);
    var c := Step(b, es[2]);
    assert es[..0] == [] && es[..1][..0] == [] && es[..2][..1] == es[..1] && es[..3][..2] == es[..2] && es[..3] == es;
    assert Run(es[..1]) == a && IsRun(es[..1]);
    assert Run(es[..2]) == b && IsRun(es[..2]);
    assert Run(es) == c && IsRun(es);
    RepeatAnswered(c, now);
  }

  lemma RepeatAnswered(s: System, now: int)
    requires s.store.tail.Keys == {1990} && s.store.bits.sealedLive == {}
    requires s.store.marks.older == Some(Record(0, ValuesAt(1.0), Historical, None))
    requires s.store.marks.latest.Some? && s.store.marks.latest.value.start == 1990
    ensures Decide(s.store, Fact(0, Historical, ValuesAt(1.0)), now, None) == (s.store, ExactDuplicate)
  {}
}
