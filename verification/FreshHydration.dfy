/** The end of a fresh hydration, from the chunks of a request to the qualification state.  A request is complete when
    no row of it was refused.  Its findings then become the state, and they are passing windows of the bars alone: they
    are what passes exactly when no window among them holds a second that the completion left unknown. */
module FreshHydrations {
  import opened Options
  import opened SessionUnits
  import opened Intervals
  import opened QualificationGate
  import opened HydrationScans
  import C = ExactCoverage
  import M = CanonicalMerge
  import B = SlotBitmaps
  import Q = Qualifications

  /** No chunk's first row follows directly on the row before it. */
  ghost predicate Spaced(chunks: seq<seq<Row>>) {
    forall k :: 0 < k < |chunks| ==> !Adjoins(Concat(chunks[..k]), chunks[k])
  }

  lemma SpacedReads(chunks: seq<seq<Row>>)
    requires Spaced(chunks)
    ensures ReadInTime(chunks) == Concat(chunks)
  {
    SpacedChunksLoseNothing(chunks);
  }

  /** The compact bars alone say what the whole evidence says. */
  ghost predicate Whole(m: Market, bars: map<int, GateBar>) {
    forall at :: BarAt(m, bars, at) == Get(bars, at)
  }

  /** A window passes exactly if its bars do and its coverage can be trusted. */
  lemma PassingSplits(m: Market, bars: map<int, GateBar>, proofEnd: int)
    requires Whole(m, bars)
    ensures Passing(m, bars, proofEnd)
       <==> BarsPass(m.sessionStart, bars, proofEnd) && Trustworthy(m, proofEnd - WINDOW, proofEnd)
  {
    var v, w := ViewAt(m, bars, proofEnd), ViewAt(Bare(m.sessionStart), bars, proofEnd);
    forall i | 0 <= i < WINDOW ensures v[i].bar == w[i].bar && v[i].active == w[i].active {
      assert BarAt(m, bars, proofEnd - WINDOW + i) == Get(bars, proofEnd - WINDOW + i);
    }
    SameBarsSameFacts(v, w);
  }

  /** What the scan found over the bars is what passes, once the coverage of the session so far is trusted. */
  lemma FoundIsExact(m: Market, bars: map<int, GateBar>, at: int, earliest: Option<int>, recent: set<int>)
    requires Whole(m, bars) && Trustworthy(m, m.sessionStart, at) && m.sessionStart <= at
    requires Found(m.sessionStart, bars, at, at + 1, earliest, recent)
    ensures Q.Qualification.ScanFound(m, bars, at, Q.ScanResult(earliest, recent))
  {
    forall p | m.sessionStart <= p <= at ensures Passing(m, bars, p) <==> BarsPass(m.sessionStart, bars, p) {
      PassingSplits(m, bars, p);
    }
  }

  /** The rows delivered are the whole evidence, and from the last reachable window on the held bars agree with them. */
  lemma DeliveredIsWhole(m: Market, gate: map<int, GateBar>, rows: seq<Row>, at: int)
    requires Retains(m, gate, rows, at)
    ensures Whole(m, BarsOf(rows)) && SameBarsFrom(m, BarsOf(rows), gate, at - 1020)
  {
    forall s
      ensures BarAt(m, BarsOf(rows), s) == Get(BarsOf(rows), s)
      ensures s >= at - 1020 ==> BarAt(m, BarsOf(rows), s) == BarAt(m, gate, s)
    {
      BarsOfHolds(rows, s);
      assert BarAt(m, gate, s) == Lookup(rows, s) || (BarAt(m, gate, s).None? && s < at - CORRECTION_SECONDS - WINDOW);
    }
  }

  lemma BarsFit(m: Market, gate: map<int, GateBar>)
    requires BarsInside(m, gate)
    ensures |gate| <= SESSION_SECONDS
  {
    IntervalCount(gate.Keys, m.sessionStart, SESSION_SECONDS);
  }

  // -------------------------------------------------------------------------------- the coverage of a whole interval

  /** Bitmaps and a tail of records that stand for a market. */
  ghost predicate Depicts(e: C.Evidence, tail: map<int, M.Record>, m: Market) {
    && tail.Keys == m.tail.Keys && (forall k :: k in tail ==> C.Placed(tail, m.sessionStart, k))
    && forall slot :: B.InSession(slot) ==>
         && (B.Has(e.presence, slot) <==> m.sessionStart + slot in m.presence)
         && (B.Has(e.provenAbsent, slot) <==> m.sessionStart + slot in m.provenAbsent)
         && (B.Has(e.conflict, slot) <==> m.sessionStart + slot in m.conflict)
  }

  lemma DepictedKnown(e: C.Evidence, tail: map<int, M.Record>, m: Market, slot: int)
    requires Depicts(e, tail, m) && B.InSession(slot)
    ensures C.Covered(e, tail, m.sessionStart, slot) <==> Known(m, m.sessionStart + slot)
  {
    if m.sessionStart + slot in tail { assert C.Placed(tail, m.sessionStart, m.sessionStart + slot); }
  }

  lemma DepictedCovered(e: C.Evidence, tail: map<int, M.Record>, m: Market, until: int)
    requires Depicts(e, tail, m) && m.sessionStart <= until <= m.SessionEnd()
    ensures C.AllCovered(e, tail, m.sessionStart, 0, until - m.sessionStart) <==> Trustworthy(m, m.sessionStart, until)
  {
    forall slot | 0 <= slot < until - m.sessionStart
      ensures C.Covered(e, tail, m.sessionStart, slot) <==> Known(m, m.sessionStart + slot)
    {
      DepictedKnown(e, tail, m, slot);
    }
    if C.AllCovered(e, tail, m.sessionStart, 0, until - m.sessionStart) {
      forall at | m.sessionStart <= at < until
        ensures at !in m.conflict && (at in m.tail || at in m.presence || at in m.provenAbsent)
      {
        assert C.Covered(e, tail, m.sessionStart, at - m.sessionStart);
        assert Known(m, m.sessionStart + (at - m.sessionStart));
      }
    }
    if Trustworthy(m, m.sessionStart, until) {
      forall slot | 0 <= slot < until - m.sessionStart ensures C.Covered(e, tail, m.sessionStart, slot) {
        assert m.InSession(m.sessionStart + slot) && Known(m, m.sessionStart + slot);
      }
    }
  }

  lemma InstalledDepicts(e: C.Evidence, absent: B.Bitmap, tail: map<int, M.Record>, m: Market, until: int,
                         invalid: Option<int>)
    requires Depicts(e, tail, m) && m.sessionStart <= until <= m.SessionEnd()
    requires C.Installed(e, absent, tail, m.sessionStart, 0, until - m.sessionStart, invalid)
    ensures Depicts(e.(provenAbsent := absent), tail, CoverInterval(m, m.sessionStart, until, invalid))
  {
    hide B.Has, C.Placed;
    var c := CoverInterval(m, m.sessionStart, until, invalid);
    forall slot | B.InSession(slot) ensures B.Has(absent, slot) <==> m.sessionStart + slot in c.provenAbsent {
      assert B.Has(absent, slot)
        <==> C.Filled(e, m.sessionStart, 0, until - m.sessionStart, invalid, slot)
             && !(0 <= slot < until - m.sessionStart && m.sessionStart + slot in tail);
    }
  }

  /** A second the installation leaves known: free of conflict, and known before if it is the excluded one. */
  predicate Coverable(m: Market, invalid: Option<int>, at: int) {
    at !in m.conflict && (invalid == Some(at) ==> Known(m, at))
  }

  lemma DepictedCoverable(e: C.Evidence, tail: map<int, M.Record>, m: Market, invalid: Option<int>, slot: int)
    requires Depicts(e, tail, m) && B.InSession(slot)
    ensures Coverable(m, invalid, m.sessionStart + slot)
       <==> !B.Has(e.conflict, slot)
            && (C.Excluded(invalid, m.sessionStart, slot) ==> C.Covered(e, tail, m.sessionStart, slot))
  {
    DepictedKnown(e, tail, m, slot);
  }

  ghost predicate AllCoverable(m: Market, until: int, invalid: Option<int>) {
    forall at :: m.sessionStart <= at < until ==> Coverable(m, invalid, at)
  }

  lemma DepictedAllCoverable(e: C.Evidence, tail: map<int, M.Record>, m: Market, until: int, invalid: Option<int>)
    requires Depicts(e, tail, m) && m.sessionStart <= until <= m.SessionEnd()
    ensures AllCoverable(m, until, invalid)
       <==> forall slot :: 0 <= slot < until - m.sessionStart ==>
              !B.Has(e.conflict, slot)
              && (C.Excluded(invalid, m.sessionStart, slot) ==> C.Covered(e, tail, m.sessionStart, slot))
  {
    hide Depicts, C.Covered, C.Excluded, B.Has, Coverable;
    if AllCoverable(m, until, invalid) {
      forall slot | 0 <= slot < until - m.sessionStart
        ensures !B.Has(e.conflict, slot)
                && (C.Excluded(invalid, m.sessionStart, slot) ==> C.Covered(e, tail, m.sessionStart, slot))
      {
        DepictedCoverable(e, tail, m, invalid, slot);
        assert Coverable(m, invalid, m.sessionStart + slot);
      }
    } else {
      var at :| m.sessionStart <= at < until && !Coverable(m, invalid, at);
      var slot := at - m.sessionStart;
      DepictedCoverable(e, tail, m, invalid, slot);
      assert m.sessionStart + slot == at && 0 <= slot < until - m.sessionStart;
    }
  }

  lemma DepictedTail(e: C.Evidence, tail: map<int, M.Record>, m: Market)
    requires Depicts(e, tail, m)
    ensures forall k :: k in tail ==> C.Placed(tail, m.sessionStart, k)
  {}

  /** After the installation the whole interval is trusted if and only if no second of it is in conflict and the
      excluded one, if the interval has it, was known already. */
  lemma IntervalTrusted(e: C.Evidence, absent: B.Bitmap, tail: map<int, M.Record>, m: Market, until: int,
                        invalid: Option<int>)
    requires Depicts(e, tail, m) && m.sessionStart < until <= m.SessionEnd()
    requires C.Installed(e, absent, tail, m.sessionStart, 0, until - m.sessionStart, invalid)
    ensures Trustworthy(CoverInterval(m, m.sessionStart, until, invalid), m.sessionStart, until)
       <==> AllCoverable(m, until, invalid)
  {
    var n, c := until - m.sessionStart, CoverInterval(m, m.sessionStart, until, invalid);
    assert c.sessionStart == m.sessionStart;
    hide Depicts, C.Installed, CoverInterval, C.Covered, C.Excluded, C.Placed, B.Has, C.AllCovered, Trustworthy,
         AllCoverable;
    InstalledDepicts(e, absent, tail, m, until, invalid);
    DepictedCovered(e.(provenAbsent := absent), tail, c, until);
    DepictedTail(e, tail, m);
    C.InstallThenCovered(e, absent, tail, m.sessionStart, 0, n, invalid);
    DepictedAllCoverable(e, tail, m, until, invalid);
  }

  // ---------------------------------------------------------------------------------------------- the whole request

  /** The state is exact for the whole evidence: its earliest passing end for good, or all passing ends, ready for what
      comes next. */
  ghost predicate HydratedExact(q: Q.Qualification, m: Market, bars: map<int, GateBar>, at: int, engineTime: int)
    reads q
  {
    if q.finalized then
      q.finalProofEnd.Some? && Q.LeastPassing(m, bars, m.sessionStart, q.finalProofEnd.value)
      && Q.Settled(engineTime, q.finalProofEnd.value)
    else
      Q.Exact(m, bars, q.proofs, m.sessionStart, at) && q.Ready(m, at) && q.ExactThrough(m, at)
  }

  /** The least window end of the bars alone that passes. */
  ghost predicate LeastBarsPass(sessionStart: int, bars: map<int, GateBar>, proofEnd: int) {
    && sessionStart <= proofEnd && BarsPass(sessionStart, bars, proofEnd)
    && forall p :: sessionStart <= p < proofEnd ==> !BarsPass(sessionStart, bars, p)
  }

  /** The window ends of the bars alone that pass, up to a boundary. */
  ghost predicate PassEnds(sessionStart: int, bars: map<int, GateBar>, ends: set<int>, at: int) {
    forall p :: p in ends <==> sessionStart <= p <= at && BarsPass(sessionStart, bars, p)
  }

  /** No session second of a window is one the completion leaves unknown. */
  ghost predicate Clear(m: Market, rows: seq<Row>, invalid: Option<int>, proofEnd: int) {
    forall at :: proofEnd - WINDOW <= at < proofEnd && m.sessionStart <= at ==> !Unknowable(m, rows, invalid, at)
  }

  ghost predicate AllClear(m: Market, rows: seq<Row>, invalid: Option<int>, ends: set<int>) {
    forall p :: p in ends ==> Clear(m, rows, invalid, p)
  }

  /** Every second of the session up to a boundary is known but the unknowable ones. */
  ghost predicate KnownThrough(m: Market, after: Market, rows: seq<Row>, invalid: Option<int>, until: int) {
    forall at :: m.sessionStart <= at < until ==> (Known(after, at) <==> !Unknowable(m, rows, invalid, at))
  }

  lemma ClearIsTrusted(m: Market, after: Market, rows: seq<Row>, invalid: Option<int>, until: int, proofEnd: int)
    requires KnownThrough(m, after, rows, invalid, until) && after.sessionStart == m.sessionStart
    requires proofEnd <= until <= m.SessionEnd()
    ensures Trustworthy(after, proofEnd - WINDOW, proofEnd) <==> Clear(m, rows, invalid, proofEnd)
  {
    hide Unknowable;
    if Trustworthy(after, proofEnd - WINDOW, proofEnd) {
      forall at | proofEnd - WINDOW <= at < proofEnd && m.sessionStart <= at
        ensures !Unknowable(m, rows, invalid, at)
      {
        assert after.InSession(at) && Known(after, at);
      }
    }
    if Clear(m, rows, invalid, proofEnd) {
      forall at | proofEnd - WINDOW <= at < proofEnd && after.InSession(at)
        ensures at !in after.conflict && (at in after.tail || at in after.presence || at in after.provenAbsent)
      {
        assert Known(after, at);
      }
    }
  }

  lemma AllClearIsTrusted(m: Market, after: Market, rows: seq<Row>, invalid: Option<int>, until: int)
    requires KnownThrough(m, after, rows, invalid, until) && after.sessionStart == m.sessionStart
    requires forall at :: m.sessionStart <= at < until ==> !Unknowable(m, rows, invalid, at)
    ensures Trustworthy(after, m.sessionStart, until)
  {
    forall at | m.sessionStart <= at < until
      ensures at !in after.conflict && (at in after.tail || at in after.presence || at in after.provenAbsent)
    {
      assert Known(after, at);
    }
  }

  /** A request without rows: the coverage of its interval, and no scan. */
  lemma EmptyRequest(m: Market, until: int, invalid: Option<int>, now: int)
    requires m.tail == map[]
    ensures var after := CompactMarket(CoverInterval(m, m.sessionStart, until, invalid), now);
            && after.sessionStart == m.sessionStart && after.tail == map[] && Custody(after, map[])
            && Retains(after, map[], [], until) && KnownThrough(m, after, [], invalid, until)
  {
    forall at | m.sessionStart <= at < until
      ensures var after := CompactMarket(CoverInterval(m, m.sessionStart, until, invalid), now);
              Known(after, at) <==> !Unknowable(m, [], invalid, at)
    {
      CoveredKnown(m, m, [], until, invalid, now, at);
    }
  }

  /** A request from its first chunk to its terminal. */
  method Request(m: Market, chunks: seq<seq<Row>>, times: seq<int>, invalid: Option<int>, at: int, now: int)
    returns (after: Market, gate: map<int, GateBar>, scan: Option<Q.ScanResult>, complete: bool)
    requires Deliverable(chunks, m.sessionStart, at) && |times| == |chunks|
    requires m.tail == map[] && at <= m.SessionEnd()
    ensures after.sessionStart == m.sessionStart && Custody(after, gate)
    ensures complete <==> AllTaken(m, Concat(chunks))
    ensures complete ==> Retains(after, gate, Concat(chunks), at) && KnownThrough(m, after, Concat(chunks), invalid, at)
    ensures complete && scan.Some? ==> Found(m.sessionStart, BarsOf(ReadInTime(chunks)), at, at + 1,
                                             scan.value.earliest, scan.value.recent)
    ensures scan.None? <==> chunks == []
    ensures scan.None? ==> after.tail == map[] && gate == map[]
  {
    if chunks == [] {
      EmptyRequest(m, at, invalid, now);
      return CompactMarket(CoverInterval(m, m.sessionStart, at, invalid), now), map[], None, true;
    }
    hide Found, Retains, Unknowable, Known;
    var earliest, recent;
    earliest, recent, after, gate, complete := ScanRequest(m, chunks, times, at, invalid, now);
    scan := Some(Q.ScanResult(earliest, recent));
  }

  /** The state a scan's findings become, told over the bars. */
  lemma ConcludedBars(q: Q.Qualification, bars: map<int, GateBar>, sessionStart: int, at: int, engineTime: int,
                      found: Q.ScanResult)
    requires q.Concluded(found, {}, engineTime) && at * SECOND <= engineTime && sessionStart <= at
    requires Found(sessionStart, bars, at, at + 1, found.earliest, found.recent)
    ensures q.finalized ==> q.finalProofEnd.Some? && LeastBarsPass(sessionStart, bars, q.finalProofEnd.value)
                            && q.finalProofEnd.value <= at && Q.Settled(engineTime, q.finalProofEnd.value)
    ensures !q.finalized ==> PassEnds(sessionStart, bars, q.proofs, at) && Q.NoneSettled(q.proofs, engineTime)
  {
    hide BarsPass;
  }

  lemma RecentHoldable(bars: map<int, GateBar>, sessionStart: int, at: int, found: Q.ScanResult)
    requires Found(sessionStart, bars, at, at + 1, found.earliest, found.recent)
    ensures |found.recent| <= MAXIMUM_PROOFS
  {
    hide BarsPass;
    IntervalCount(found.recent, at - 960, 961);
  }

  lemma NoBarsPass(m: Market)
    ensures forall p :: !BarsPass(m.sessionStart, map[], p)
    ensures m.tail == map[] ==> forall p :: !Passing(m, map[], p)
  {
    FewBarsFail(Bare(m.sessionStart), map[]);
    if m.tail == map[] { FewBarsFail(m, map[]); }
  }

  /** Over chunks that lose no row and coverage that leaves nothing unknown, the findings are what passes. */
  lemma RequestExact(m: Market, chunks: seq<seq<Row>>, invalid: Option<int>, at: int, after: Market,
                     gate: map<int, GateBar>, scan: Option<Q.ScanResult>)
    requires Deliverable(chunks, m.sessionStart, at) && Spaced(chunks) && after.sessionStart == m.sessionStart <= at
    requires Retains(after, gate, Concat(chunks), at) && KnownThrough(m, after, Concat(chunks), invalid, at)
    requires forall s :: m.sessionStart <= s < at ==> !Unknowable(m, Concat(chunks), invalid, s)
    requires scan.Some? ==> Found(m.sessionStart, BarsOf(ReadInTime(chunks)), at, at + 1, scan.value.earliest,
                                  scan.value.recent)
    ensures scan.Some? ==> Q.Qualification.ScanFound(after, BarsOf(Concat(chunks)), at, scan.value)
    ensures SameBarsFrom(after, BarsOf(Concat(chunks)), gate, at - 1020)
  {
    hide Found, Retains, KnownThrough, Unknowable, BarsOf, Trustworthy, Q.Qualification.ScanFound, Whole, SameBarsFrom,
         Ascending, Within;
    SpacedReads(chunks);
    DeliveredIsWhole(after, gate, Concat(chunks), at);
    AllClearIsTrusted(m, after, Concat(chunks), invalid, at);
    if scan.Some? {
      FoundIsExact(after, BarsOf(Concat(chunks)), at, scan.value.earliest, scan.value.recent);
    }
  }

  /** With its coverage a window of the delivered rows passes exactly if it is clear. */
  lemma RequestPassing(m: Market, rows: seq<Row>, invalid: Option<int>, at: int, after: Market,
                       gate: map<int, GateBar>)
    requires after.sessionStart == m.sessionStart && at <= m.SessionEnd()
    requires Retains(after, gate, rows, at) && KnownThrough(m, after, rows, invalid, at)
    ensures forall p :: m.sessionStart <= p <= at ==>
              (Passing(after, BarsOf(rows), p)
               <==> BarsPass(m.sessionStart, BarsOf(rows), p) && Clear(m, rows, invalid, p))
  {
    hide Retains, KnownThrough, Passing, BarsPass, Clear, Trustworthy, Whole;
    DeliveredIsWhole(after, gate, rows, at);
    forall p | m.sessionStart <= p <= at
      ensures Passing(after, BarsOf(rows), p)
         <==> BarsPass(m.sessionStart, BarsOf(rows), p) && Clear(m, rows, invalid, p)
    {
      PassingSplits(after, BarsOf(rows), p);
      ClearIsTrusted(m, after, rows, invalid, at, p);
    }
  }

  /** Windows that pass by their bars are what passes exactly if all of them are clear; the least one is the earliest
      passing end exactly if it is. */
  lemma ExactIfClear(m: Market, rows: seq<Row>, invalid: Option<int>, at: int, after: Market, ends: set<int>)
    requires after.sessionStart == m.sessionStart
    requires forall p :: m.sessionStart <= p <= at ==>
               (Passing(after, BarsOf(rows), p)
                <==> BarsPass(m.sessionStart, BarsOf(rows), p) && Clear(m, rows, invalid, p))
    ensures PassEnds(m.sessionStart, BarsOf(rows), ends, at) ==>
              (Q.Exact(after, BarsOf(rows), ends, m.sessionStart, at) <==> AllClear(m, rows, invalid, ends))
    ensures forall e :: e <= at && LeastBarsPass(m.sessionStart, BarsOf(rows), e) ==>
              (Q.LeastPassing(after, BarsOf(rows), m.sessionStart, e) <==> Clear(m, rows, invalid, e))
  {
    hide Passing, BarsPass, Clear, BarsOf;
    if PassEnds(m.sessionStart, BarsOf(rows), ends, at) && Q.Exact(after, BarsOf(rows), ends, m.sessionStart, at) {
      forall p | p in ends ensures Clear(m, rows, invalid, p) {
        assert Passing(after, BarsOf(rows), p);
      }
    }
  }

  lemma EmptyHydrated(q: Q.Qualification, after: Market, at: int, engineTime: int)
    requires q.Ready(after, at) && q.proofs == {} && q.gateBars == map[] && after.tail == map[]
    requires q.accountedThrough == Some(at) && q.floor == after.sessionStart
    ensures PassEnds(after.sessionStart, map[], q.proofs, at) && HydratedExact(q, after, map[], at, engineTime)
  {
    NoBarsPass(after);
  }

  lemma NoChunks()
    ensures Concat([]) == [] && ReadInTime([]) == [] && BarsOf([]) == map[]
  {}

  /** A fresh hydration from its first chunk to the qualification state.  An incomplete request claims nothing.  A
      complete one makes the passing windows of the rows read in time the state, or the least of them for good if it is
      settled.  Such a window passes with its coverage exactly if no second of it was left unknown.  So with chunks that
      lose no row and an interval without unknowable seconds the state is exact, and evaluation goes on from it. */
  method HydrateFresh(m: Market, chunks: seq<seq<Row>>, times: seq<int>, invalid: Option<int>, at: int, engineTime: int)
    returns (q: Q.Qualification, after: Market, complete: bool)
    requires Deliverable(chunks, m.sessionStart, at) && |times| == |chunks|
    requires m.tail == map[] && m.sessionStart <= at <= m.SessionEnd() && at * SECOND <= engineTime
    ensures fresh(q) && after.sessionStart == m.sessionStart && GateBarsFolded(after, q.gateBars)
    ensures complete <==> AllTaken(m, Concat(chunks))
    ensures !complete ==> q.Open() && q.proofs == {} && q.accountedThrough == None && !q.finalized
    ensures complete ==> q.accountedThrough == Some(at) && Retains(after, q.gateBars, Concat(chunks), at)
    ensures complete && q.finalized ==>
              && q.finalProofEnd.Some? && Q.Settled(engineTime, q.finalProofEnd.value) && q.finalProofEnd.value <= at
              && LeastBarsPass(m.sessionStart, BarsOf(ReadInTime(chunks)), q.finalProofEnd.value)
    ensures complete && !q.finalized ==>
              PassEnds(m.sessionStart, BarsOf(ReadInTime(chunks)), q.proofs, at) && Q.NoneSettled(q.proofs, engineTime)
    ensures complete ==> forall p :: m.sessionStart <= p <= at ==>
              (Passing(after, BarsOf(Concat(chunks)), p)
               <==> BarsPass(m.sessionStart, BarsOf(Concat(chunks)), p) && Clear(m, Concat(chunks), invalid, p))
    ensures complete && Spaced(chunks) && q.finalized ==>
              (Q.LeastPassing(after, BarsOf(Concat(chunks)), m.sessionStart, q.finalProofEnd.value)
               <==> Clear(m, Concat(chunks), invalid, q.finalProofEnd.value))
    ensures complete && Spaced(chunks) && !q.finalized ==>
              (Q.Exact(after, BarsOf(Concat(chunks)), q.proofs, m.sessionStart, at)
               <==> AllClear(m, Concat(chunks), invalid, q.proofs))
    ensures complete && Spaced(chunks)
            && (forall s :: m.sessionStart <= s < at ==> !Unknowable(m, Concat(chunks), invalid, s)) ==>
              HydratedExact(q, after, BarsOf(Concat(chunks)), at, engineTime)
  {
    hide Found, Retains, Q.Exact, Q.LeastPassing, BarsOf, Concat, Lookup, ReadInTime, Unknowable, Passing, BarsPass,
         KnownThrough, Clear, AllClear, PassEnds, LeastBarsPass, Deliverable, Spaced, AllTaken,
         Q.Qualification.Concluded, Q.Qualification.ScanFound;
    var gate, scan;
    after, gate, scan, complete := Request(m, chunks, times, invalid, at, engineTime);
    BarsFit(after, gate);
    q := new Q.Qualification(m.sessionStart);
    q.gateBars := gate;
    if complete && scan.Some? { RecentHoldable(BarsOf(ReadInTime(chunks)), m.sessionStart, at, scan.value); }
    ghost var exact := complete && Spaced(chunks)
      && forall s :: m.sessionStart <= s < at ==> !Unknowable(m, Concat(chunks), invalid, s);
    if exact { RequestExact(m, chunks, invalid, at, after, gate, scan); }
    q.CompleteFreshHydration(after, BarsOf(Concat(chunks)), at, engineTime, complete, scan);
    if complete {
      RequestPassing(m, Concat(chunks), invalid, at, after, gate);
      if scan.Some? {
        ConcludedBars(q, BarsOf(ReadInTime(chunks)), m.sessionStart, at, engineTime, scan.value);
      } else {
        NoChunks();
        EmptyHydrated(q, after, at, engineTime);
      }
      if Spaced(chunks) {
        SpacedReads(chunks);
        ExactIfClear(m, Concat(chunks), invalid, at, after, q.proofs);
      }
    }
  }

  // ------------------------------------------------------------------------------------- a proof that does not pass

  /** Before the session's 45th second no window has bars enough. */
  lemma EarlyFails(sessionStart: int, bars: map<int, GateBar>, proofEnd: int)
    requires proofEnd < sessionStart + MINIMUM_SECONDS
    ensures !BarsPass(sessionStart, bars, proofEnd)
  {
    var view := ViewAt(Bare(sessionStart), bars, proofEnd);
    var seconds := set at | at in bars && sessionStart <= at < proofEnd;
    IntervalCount(seconds, sessionStart, if proofEnd < sessionStart then 0 else proofEnd - sessionStart);
    PresentAtMost(Bare(sessionStart), bars, proofEnd, WINDOW, seconds);
    assert view[..WINDOW] == view && WellFormed(view);
    if Passes(FactsOf(view)) { CanPossiblyPassNecessary(view); }
  }

  /** With the fourth second unknowable no window of the first minute passes. */
  lemma UnknownMinute(sessionStart: int, rows: seq<Row>, after: Market)
    requires rows == BusyRows(sessionStart, WINDOW) && after.sessionStart == sessionStart
    requires forall p :: sessionStart <= p <= sessionStart + WINDOW ==>
               (Passing(after, BarsOf(rows), p)
                <==> BarsPass(sessionStart, BarsOf(rows), p)
                     && Clear(Bare(sessionStart), rows, Some(sessionStart + 3), p))
    ensures forall p :: sessionStart <= p <= sessionStart + WINDOW ==> !Passing(after, BarsOf(rows), p)
  {
    hide BusyRows, Lookup, BarsPass, Passing, BarsOf;
    BusyLookup(sessionStart, WINDOW, sessionStart + 3);
    assert Unknowable(Bare(sessionStart), rows, Some(sessionStart + 3), sessionStart + 3);
    forall p | sessionStart <= p <= sessionStart + WINDOW ensures !Passing(after, BarsOf(rows), p) {
      if p < sessionStart + MINIMUM_SECONDS { EarlyFails(sessionStart, BarsOf(rows), p); }
    }
  }

  lemma OneChunk(rows: seq<Row>, from: int, until: int)
    requires rows != [] && Ascending(rows) && Within(rows, from, until)
    ensures Deliverable([rows], from, until) && Concat([rows]) == rows == ReadInTime([rows])
    ensures AllTaken(Bare(from), rows)
  {
    assert [rows][..0] == [];
    assert Concat([rows]) == [] + rows && ReadInTime([rows]) == [] + rows;
  }

  /** A minute's rows, all of them taken, while a structurally invalid live bar was recorded for the fourth second,
      which has no row.  The request is complete, but its coverage leaves that second out.  Not one proof end of the
      minute passes; the state still holds the minute's end as a proof, and once it is settled it ends final. */
  method UnknownSecondIsProved(sessionStart: int, engineTime: int) returns (q: Q.Qualification, after: Market)
    requires (sessionStart + WINDOW) * SECOND <= engineTime
    ensures fresh(q) && q.accountedThrough == Some(sessionStart + WINDOW)
    ensures q.finalized || sessionStart + WINDOW in q.proofs
    ensures Q.Settled(engineTime, sessionStart + WINDOW) ==> q.finalized
    ensures forall p :: sessionStart <= p <= sessionStart + WINDOW ==>
              !Passing(after, BarsOf(BusyRows(sessionStart, WINDOW)), p)
  {
    hide BusyRows, Deliverable, Concat, ReadInTime, AllTaken, Passing, BarsPass, BarsOf, Clear, Retains, Unknowable,
         GateBarsFolded, Q.Exact, Q.LeastPassing;
    var rows := BusyRows(sessionStart, WINDOW);
    BusyAscends(sessionStart, WINDOW);
    BusyRowsPass(sessionStart);
    OneChunk(rows, sessionStart, sessionStart + WINDOW);
    var complete;
    q, after, complete := HydrateFresh(Bare(sessionStart), [rows], [engineTime], Some(sessionStart + 3),
                                       sessionStart + WINDOW, engineTime);
    UnknownMinute(sessionStart, rows, after);
  }
}
