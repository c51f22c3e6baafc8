/** The fresh-hydration scan: one pass of the rolling window over rows that arrive in chunks.  What a chunked scan
    finds is exactly what one whole-session scan finds in the rows it read in time; a chunk whose first row follows
    directly on the previous chunk's last row loses that row, and no other row is ever lost. */
module HydrationScans {
  import opened Options
  import opened SessionUnits
  import opened Intervals
  import opened ProofWindows
  import opened QualificationGate
  import W = HydrationWorkers

  /** The window over bars alone; the scan does not look at coverage. */
  function Bare(sessionStart: int): Market {
    Market(sessionStart, map[], {}, {}, {})
  }

  ghost predicate BarsPass(sessionStart: int, bars: map<int, GateBar>, proofEnd: int) {
    Passes(FactsOf(ViewAt(Bare(sessionStart), bars, proofEnd)))
  }

  /** Two windows with the same bars. */
  ghost predicate SameBars(a: seq<Entry>, b: seq<Entry>) {
    |a| == |b| && forall i :: 0 <= i < |a| ==> a[i].bar == b[i].bar && a[i].active == b[i].active
  }

  lemma {:induction false} SameBarsSameSums(a: seq<Entry>, b: seq<Entry>)
    requires SameBars(a, b)
    ensures TallyOf(a) == TallyOf(b) && CurrentGap(a) == CurrentGap(b) && LongestGap(a) == LongestGap(b)
    decreases |a|
  {
    if a != [] {
      var n := |a| - 1;
      assert SameBars(a[..n], b[..n]);
      SameBarsSameSums(a[..n], b[..n]);
      TallyIgnoresCoverage(TallyOf(a[..n]), n, a[n]);
      TallyIgnoresCoverage(TallyOf(b[..n]), n, b[n]);
      assert a[n].(covered := false) == b[n].(covered := false);
    }
  }

  lemma SameBarsSameFacts(a: seq<Entry>, b: seq<Entry>)
    requires SameBars(a, b)
    ensures FactsOf(a) == FactsOf(b)
  {
    SameBarsSameSums(a, b);
  }

  /** What the scan has found below a proof end: the earliest passing end no correction can reach, and the passing ends
      one still can. */
  ghost predicate Found(sessionStart: int, bars: map<int, GateBar>, generationEnd: int, next: int,
                        earliest: Option<int>, recent: set<int>)
  {
    var split := generationEnd - CORRECTION_SECONDS;
    && (match earliest
        case None => forall p :: sessionStart <= p < next && p < split ==> !BarsPass(sessionStart, bars, p)
        case Some(e) =>
          && sessionStart <= e < next && e < split && BarsPass(sessionStart, bars, e)
          && forall p :: sessionStart <= p < e ==> !BarsPass(sessionStart, bars, p))
    && forall p :: p in recent <==> sessionStart <= p < next && p >= split && BarsPass(sessionStart, bars, p)
  }

  /** Bars that agree below a boundary. */
  ghost predicate AgreeBelow(a: map<int, GateBar>, b: map<int, GateBar>, boundary: int) {
    forall at :: at < boundary ==> (at in a <==> at in b) && (at in a ==> a[at] == b[at])
  }

  lemma PassAgrees(sessionStart: int, a: map<int, GateBar>, b: map<int, GateBar>, proofEnd: int)
    requires AgreeBelow(a, b, proofEnd)
    ensures BarsPass(sessionStart, a, proofEnd) <==> BarsPass(sessionStart, b, proofEnd)
  {
    var m := Bare(sessionStart);
    var v, w := ViewAt(m, a, proofEnd), ViewAt(m, b, proofEnd);
    forall i | 0 <= i < WINDOW ensures v[i].bar == w[i].bar && v[i].active == w[i].active {
      assert proofEnd - WINDOW + i < proofEnd;
    }
    SameBarsSameFacts(v, w);
  }

  lemma FoundAgrees(sessionStart: int, a: map<int, GateBar>, b: map<int, GateBar>, generationEnd: int, next: int,
                    earliest: Option<int>, recent: set<int>)
    requires Found(sessionStart, a, generationEnd, next, earliest, recent) && AgreeBelow(a, b, next - 1)
    ensures Found(sessionStart, b, generationEnd, next, earliest, recent)
  {
    forall p | p < next ensures BarsPass(sessionStart, a, p) <==> BarsPass(sessionStart, b, p) {
      PassAgrees(sessionStart, a, b, p);
    }
  }

  /** What the scan has read of a state's bars by one more second. */
  function Read(bars: map<int, GateBar>, m: Market, gate: map<int, GateBar>, at: int): map<int, GateBar> {
    var bar := EntryAt(m, gate, at).bar;
    if bar.Some? then bars[at := bar.value] else bars
  }

  class HydrationScan {
    const window: ProofWindow
    const sessionStart: int
    const generationEnd: int
    var nextProof: int
    var lastBarEnd: Option<int>
    var earliestPassing: Option<int>
    var recentPassing: set<int>

    /** The bars the window read, each as the state stood when its second was reached. */
    ghost var bars: map<int, GateBar>

    ghost predicate Valid()
      reads this, window, window.entries
    {
      && window.Valid() && WellFormed(window.view)
      && SameBars(window.view, ViewAt(Bare(sessionStart), bars, nextProof))
      && (forall at :: at in bars ==> at < nextProof)
      && sessionStart <= nextProof && generationEnd <= sessionStart + SESSION_SECONDS
      && Found(sessionStart, bars, generationEnd, nextProof, earliestPassing, recentPassing)
      && (forall p :: p in recentPassing ==> p <= generationEnd)
    }

    /** Starts at the session's first proof end, where nothing can have been read. */
    constructor (m: Market, gate: map<int, GateBar>, generationEnd: int)
      requires generationEnd <= m.SessionEnd()
      ensures Valid() && fresh(window) && fresh(window.entries)
      ensures bars == map[] && nextProof == m.sessionStart == sessionStart && this.generationEnd == generationEnd
      ensures lastBarEnd == None
    {
      window := new ProofWindow(m, gate, m.sessionStart);
      this.sessionStart, this.generationEnd := m.sessionStart, generationEnd;
      nextProof, lastBarEnd, earliestPassing, recentPassing := m.sessionStart, None, None, {};
      bars := map[];
    }

    /** Tests the current window. */
    method Test()
      requires Valid() && nextProof <= generationEnd
      modifies this`earliestPassing, this`recentPassing
      ensures Found(sessionStart, bars, generationEnd, nextProof + 1, earliestPassing, recentPassing)
      ensures forall p :: p in recentPassing ==> p <= generationEnd
    {
      SameBarsSameFacts(window.view, ViewAt(Bare(sessionStart), bars, nextProof));
      var passing := ScanVerdict(window);
      if passing {
        if nextProof < generationEnd - CORRECTION_SECONDS {
          if earliestPassing.None? {
            earliestPassing := Some(nextProof);
          }
        } else {
          RecentFits(recentPassing, generationEnd, nextProof);
          assert |recentPassing| < MAXIMUM_PROOFS;
          recentPassing := recentPassing + {nextProof};
        }
      }
    }

    /** Rolls the window on over the next second. */
    method ReadNext(m: Market, gate: map<int, GateBar>)
      requires window.Valid() && WellFormed(window.view) && m.sessionStart == sessionStart
      requires SameBars(window.view, ViewAt(Bare(sessionStart), bars, nextProof))
      requires forall at :: at in bars ==> at < nextProof
      modifies this`bars, this`nextProof, window, window.entries
      ensures window.Valid() && WellFormed(window.view)
      ensures SameBars(window.view, ViewAt(Bare(sessionStart), bars, nextProof))
      ensures forall at :: at in bars ==> at < nextProof
      ensures nextProof == old(nextProof) + 1 && bars == Read(old(bars), m, gate, old(nextProof))
    {
      ReadMovesOn(m, gate, bars, window.view, nextProof);
      window.Advance(m, gate, nextProof);
      bars := Read(bars, m, gate, nextProof);
      nextProof := nextProof + 1;
    }

    /** Tests the current window, then reads the second at its end. */
    method TestAndRead(m: Market, gate: map<int, GateBar>)
      requires Valid() && nextProof <= generationEnd && m.sessionStart == sessionStart
      modifies this, window, window.entries
      ensures Valid() && nextProof == old(nextProof) + 1 && bars == Read(old(bars), m, gate, old(nextProof))
      ensures lastBarEnd == old(lastBarEnd)
    {
      Test();
      FoundAgrees(sessionStart, bars, Read(bars, m, gate, nextProof), generationEnd, nextProof + 1, earliestPassing,
                  recentPassing);
      ReadNext(m, gate);
    }

    /** Scans through a boundary, clipped to the generation's end; does nothing for one already passed. */
    method Advance(m: Market, gate: map<int, GateBar>, through: int)
      requires Valid() && m.sessionStart == sessionStart
      modifies this, window, window.entries
      ensures Valid()
      ensures var limit := if through > generationEnd then generationEnd else through;
              if through < sessionStart || limit < old(nextProof) then
                nextProof == old(nextProof) && bars == old(bars) && lastBarEnd == old(lastBarEnd)
              else
                && nextProof == limit + 1 && ReadRange(old(bars), bars, m, gate, old(nextProof), limit)
                && lastBarEnd == (if old(lastBarEnd).Some? && limit <= old(lastBarEnd).value then old(lastBarEnd)
                                  else Some(limit))
    {
      if through < sessionStart {
        return;
      }
      var limit := if through > generationEnd then generationEnd else through;
      if limit < nextProof {
        return;
      }
      while nextProof <= limit
        invariant Valid() && old(nextProof) <= nextProof <= limit + 1 && lastBarEnd == old(lastBarEnd)
        invariant ReadRange(old(bars), bars, m, gate, old(nextProof), nextProof - 1)
        decreases limit - nextProof
      {
        TestAndRead(m, gate);
      }
      if lastBarEnd.None? || limit > lastBarEnd.value {
        lastBarEnd := Some(limit);
      }
    }
  }

  /** The bars after reading a range of seconds. */
  ghost predicate ReadRange(before: map<int, GateBar>, after: map<int, GateBar>, m: Market, gate: map<int, GateBar>,
                            first: int, last: int)
  {
    forall at ::
      if first <= at <= last && EntryAt(m, gate, at).bar.Some? then
        at in after && after[at] == EntryAt(m, gate, at).bar.value
      else
        (at in after <==> at in before) && (at in after ==> after[at] == before[at])
  }

  /** The scan's verdict on a window: facts only when the counters allow a pass. */
  method ScanVerdict(window: ProofWindow) returns (passing: bool)
    requires window.Valid() && WellFormed(window.view)
    ensures passing <==> Passes(FactsOf(window.view))
  {
    if Passes(FactsOf(window.view)) { CanPossiblyPassNecessary(window.view); }
    if !window.CanPossiblyPass() {
      return false;
    }
    var facts := window.CurrentFacts();
    passing := Passes(facts);
  }

  lemma ReadMovesOn(m: Market, gate: map<int, GateBar>, bars: map<int, GateBar>, view: seq<Entry>, next: int)
    requires SameBars(view, ViewAt(Bare(m.sessionStart), bars, next)) && WellFormed(view)
    requires forall at :: at in bars ==> at < next
    ensures var moved := view[1..] + [EntryAt(m, gate, next)];
            SameBars(moved, ViewAt(Bare(m.sessionStart), Read(bars, m, gate, next), next + 1)) && WellFormed(moved)
  {
    var moved, after := view[1..] + [EntryAt(m, gate, next)], Read(bars, m, gate, next);
    var b, c := ViewAt(Bare(m.sessionStart), bars, next), ViewAt(Bare(m.sessionStart), after, next + 1);
    forall i | 0 <= i < WINDOW ensures moved[i].bar == c[i].bar && moved[i].active == c[i].active {
      if i < WINDOW - 1 {
        assert moved[i] == view[i + 1];
        assert b[i + 1].bar == c[i].bar;
      }
    }
  }

  /** The 961-entry bound on recent passing ends is never reached. */
  lemma RecentFits(recent: set<int>, generationEnd: int, proofEnd: int)
    requires forall p :: p in recent ==> generationEnd - CORRECTION_SECONDS <= p <= generationEnd
    requires proofEnd !in recent && generationEnd - CORRECTION_SECONDS <= proofEnd <= generationEnd
    ensures |recent| < MAXIMUM_PROOFS
  {
    IntervalCount(recent + {proofEnd}, generationEnd - CORRECTION_SECONDS, 961);
  }

  // ------------------------------------------------------------------------------------------------------- pruning

  /** Compact bars the scan has consumed and no later correction can need are discarded. */
  method PruneGateBars(gate: map<int, GateBar>, nextProof: int, generationEnd: int) returns (kept: map<int, GateBar>)
    ensures forall at :: at in kept ==> at in gate && kept[at] == gate[at]
    ensures forall at :: at in gate && at !in kept ==>
              at < nextProof - WINDOW && at < generationEnd - CORRECTION_SECONDS - WINDOW
  {
    var floor := nextProof - WINDOW;
    if generationEnd - CORRECTION_SECONDS - WINDOW < floor {
      floor := generationEnd - CORRECTION_SECONDS - WINDOW;
    }
    kept := map at | at in gate && at >= floor :: gate[at];
  }

  // -------------------------------------------------------------------------------------------------------- chunks

  datatype Row = Row(start: int, bar: GateBar)

  predicate Ascending(rows: seq<Row>) {
    forall i, j :: 0 <= i < j < |rows| ==> rows[i].start < rows[j].start
  }

  function Concat(chunks: seq<seq<Row>>): seq<Row> {
    if chunks == [] then [] else Concat(chunks[..|chunks| - 1]) + chunks[|chunks| - 1]
  }

  function BarsOf(rows: seq<Row>): map<int, GateBar> {
    if rows == [] then map[] else BarsOf(rows[..|rows| - 1])[rows[|rows| - 1].start := rows[|rows| - 1].bar]
  }

  /** A chunk's first row follows directly on the last row before it. */
  predicate Adjoins(before: seq<Row>, chunk: seq<Row>) {
    before != [] && chunk != [] && chunk[0].start == before[|before| - 1].start + 1
  }

  /** The rows a chunked scan reads in time: all but the first row of each chunk that adjoins what came before. */
  function ReadInTime(chunks: seq<seq<Row>>): seq<Row> {
    if chunks == [] then []
    else
      var before, chunk := chunks[..|chunks| - 1], chunks[|chunks| - 1];
      ReadInTime(before) + (if Adjoins(Concat(before), chunk) then chunk[1..] else chunk)
  }

  /** The bar a list of rows has for a second. */
  function Lookup(rows: seq<Row>, at: int): Option<GateBar> {
    if rows == [] then None
    else if rows[|rows| - 1].start == at then Some(rows[|rows| - 1].bar)
    else Lookup(rows[..|rows| - 1], at)
  }

  function Get(bars: map<int, GateBar>, at: int): Option<GateBar> {
    if at in bars then Some(bars[at]) else None
  }

  /** A map holds exactly a list of rows. */
  ghost predicate Holds(bars: map<int, GateBar>, rows: seq<Row>) {
    forall at :: Get(bars, at) == Lookup(rows, at)
  }

  lemma {:induction false} BarsOfHolds(rows: seq<Row>, at: int)
    ensures Get(BarsOf(rows), at) == Lookup(rows, at)
    decreases |rows|
  {
    if rows != [] { BarsOfHolds(rows[..|rows| - 1], at); }
  }

  lemma HoldsAgrees(bars: map<int, GateBar>, rows: seq<Row>, boundary: int)
    requires Holds(bars, rows)
    ensures AgreeBelow(bars, BarsOf(rows), boundary)
  {
    forall at | at < boundary
      ensures (at in bars <==> at in BarsOf(rows)) && (at in bars ==> bars[at] == BarsOf(rows)[at])
    {
      BarsOfHolds(rows, at);
      assert Get(bars, at) == Lookup(rows, at);
    }
  }

  lemma {:induction false} LookupAppend(a: seq<Row>, b: seq<Row>, at: int)
    ensures Lookup(a + b, at) == if Lookup(b, at).Some? then Lookup(b, at) else Lookup(a, at)
    decreases |b|
  {
    if b == [] {
      assert a + b == a;
    } else {
      assert (a + b)[..|a + b| - 1] == a + b[..|b| - 1];
      LookupAppend(a, b[..|b| - 1], at);
    }
  }

  lemma {:induction false} LookupRange(rows: seq<Row>, at: int)
    requires Ascending(rows)
    ensures Lookup(rows, at).Some? ==> rows != [] && rows[0].start <= at <= rows[|rows| - 1].start
    decreases |rows|
  {
    if rows != [] { LookupRange(rows[..|rows| - 1], at); }
  }

  /** The chunks of one request: none empty, ascending throughout, inside the interval. */
  ghost predicate Deliverable(chunks: seq<seq<Row>>, sessionStart: int, generationEnd: int) {
    && (forall k :: 0 <= k < |chunks| ==> chunks[k] != [])
    && Ascending(Concat(chunks)) && Within(Concat(chunks), sessionStart, generationEnd)
  }

  ghost predicate Within(rows: seq<Row>, from: int, until: int) {
    forall i :: 0 <= i < |rows| ==> from <= rows[i].start < until
  }

  lemma WithinParts(a: seq<Row>, b: seq<Row>, from: int, until: int)
    requires Within(a + b, from, until)
    ensures Within(a, from, until) && Within(b, from, until)
  {
    var all := a + b;
    assert forall i :: 0 <= i < |a| ==> a[i] == all[i];
    assert forall i :: 0 <= i < |b| ==> b[i] == all[|a| + i];
  }

  lemma AscendingParts(a: seq<Row>, b: seq<Row>)
    requires Ascending(a + b)
    ensures Ascending(a) && Ascending(b)
    ensures a != [] && b != [] ==> a[|a| - 1].start < b[0].start
  {
    var all := a + b;
    assert forall i :: 0 <= i < |a| ==> a[i] == all[i];
    assert forall i :: 0 <= i < |b| ==> b[i] == all[|a| + i];
    if a != [] && b != [] { assert all[|a| - 1].start < all[|a|].start; }
  }

  lemma DeliverablePrefix(chunks: seq<seq<Row>>, sessionStart: int, generationEnd: int)
    requires Deliverable(chunks, sessionStart, generationEnd) && chunks != []
    ensures Deliverable(chunks[..|chunks| - 1], sessionStart, generationEnd)
    ensures var before, chunk := Concat(chunks[..|chunks| - 1]), chunks[|chunks| - 1];
            && Concat(chunks) == before + chunk && chunk != [] && Ascending(chunk)
            && Within(chunk, sessionStart, generationEnd)
            && (before != [] ==> before[|before| - 1].start < chunk[0].start)
  {
    hide Ascending, Within;
    var before, chunk := Concat(chunks[..|chunks| - 1]), chunks[|chunks| - 1];
    AscendingParts(before, chunk);
    WithinParts(before, chunk, sessionStart, generationEnd);
  }

  function LastStart(rows: seq<Row>): int
    requires rows != []
  {
    rows[|rows| - 1].start
  }

  /** What a chunk's rows say without its first one. */
  lemma LookupRest(chunk: seq<Row>, at: int)
    requires chunk != [] && Ascending(chunk)
    ensures Lookup(chunk[1..], at) == if at == chunk[0].start then None else Lookup(chunk, at)
    ensures Lookup(chunk, at).Some? ==> chunk[0].start <= at <= LastStart(chunk)
  {
    LookupAppend([chunk[0]], chunk[1..], at);
    assert [chunk[0]] + chunk[1..] == chunk;
    assert [chunk[0]][..0] == [];
    LookupRange(chunk[1..], at);
    LookupRange(chunk, at);
  }

  /** One second of a chunk read from a point on. */
  lemma ReadOneSecond(m: Market, before: map<int, GateBar>, after: map<int, GateBar>, gate: map<int, GateBar>,
                      chunk: seq<Row>, next: int, at: int)
    requires chunk != [] && Ascending(chunk)
    requires at >= next ==> BarAt(m, gate, at) == Lookup(chunk, at)
    requires m.sessionStart <= chunk[0].start && LastStart(chunk) < m.SessionEnd()
    requires ReadRange(before, after, m, gate, next, LastStart(chunk) + 1)
    ensures Get(after, at) == if at >= next && Lookup(chunk, at).Some? then Lookup(chunk, at) else Get(before, at)
  {
    LookupRest(chunk, at);
  }

  /** Reading one more chunk adds exactly the rows not already passed over. */
  lemma ReadOneChunk(m: Market, before: map<int, GateBar>, after: map<int, GateBar>, gate: map<int, GateBar>,
                     read: seq<Row>, done: seq<Row>, chunk: seq<Row>, next: int)
    requires Holds(before, read) && chunk != [] && Ascending(chunk)
    requires forall at :: at >= next ==> BarAt(m, gate, at) == Lookup(chunk, at)
    requires m.sessionStart <= chunk[0].start && LastStart(chunk) < m.SessionEnd()
    requires done != [] ==> LastStart(done) < chunk[0].start
    requires next == if done == [] then m.sessionStart else LastStart(done) + 2
    requires ReadRange(before, after, m, gate, next, LastStart(chunk) + 1)
    ensures Holds(after, read + (if Adjoins(done, chunk) then chunk[1..] else chunk))
  {
    var taken := if Adjoins(done, chunk) then chunk[1..] else chunk;
    forall at ensures Get(after, at) == Lookup(read + taken, at) {
      assert Get(before, at) == Lookup(read, at);
      LookupAppend(read, taken, at);
      LookupRest(chunk, at);
      ReadOneSecond(m, before, after, gate, chunk, next, at);
    }
  }

  // ------------------------------------------------------------------------------------------------- the whole scan

  /** Four seconds past the last bar the gap rule fails every window. */
  lemma NothingPassesBeyond(sessionStart: int, bars: map<int, GateBar>, last: int, proofEnd: int)
    requires forall at :: at in bars ==> at <= last
    requires proofEnd > last + 4
    ensures !BarsPass(sessionStart, bars, proofEnd)
  {
    var view := ViewAt(Bare(sessionStart), bars, proofEnd);
    var at := LongestGapMeans(view);
    forall k | WINDOW - 4 <= k < WINDOW ensures !Present(view[k]) {
      assert proofEnd - WINDOW + k > last;
    }
    assert GapAt(view, WINDOW - 4, WINDOW);
  }

  /** Extends what was found to the whole session once nothing later can pass. */
  lemma FoundToEnd(sessionStart: int, bars: map<int, GateBar>, generationEnd: int, next: int, last: int,
                   earliest: Option<int>, recent: set<int>)
    requires Found(sessionStart, bars, generationEnd, next, earliest, recent)
    requires (forall at :: at in bars ==> at <= last) && (next > generationEnd || next > last + 4)
    requires forall p :: p in recent ==> p <= generationEnd
    ensures Found(sessionStart, bars, generationEnd, generationEnd + 1, earliest, recent)
  {
    forall p | next <= p <= generationEnd ensures !BarsPass(sessionStart, bars, p) {
      NothingPassesBeyond(sessionStart, bars, last, p);
    }
  }

  /** Between chunks the scan stands one second past the last row, and holds the rows it read in time. */
  ghost predicate Between(scan: HydrationScan, done: seq<Row>, read: seq<Row>)
    reads scan
  {
    && Holds(scan.bars, read)
    && scan.nextProof == (if done == [] then scan.sessionStart else LastStart(done) + 2)
    && scan.lastBarEnd == (if done == [] then None else Some(LastStart(done) + 1))
  }

  // ------------------------------------------------------------------------------------------- where rows are held

  /** A second ended longer ago than the correction horizon. */
  predicate Expired(now: int, start: int) {
    now - (start + 1) * SECOND > CORRECTION_HORIZON
  }

  function ExpiredOf(tail: map<int, GateBar>, now: int): set<int> {
    set at | at in tail && Expired(now, at)
  }

  /** Compaction moves the expired tail into the compact bars. */
  function CompactMarket(m: Market, now: int): Market {
    m.(tail := m.tail - ExpiredOf(m.tail, now), presence := m.presence + ExpiredOf(m.tail, now))
  }

  function CompactGate(m: Market, gate: map<int, GateBar>, now: int): map<int, GateBar> {
    gate + map at | at in ExpiredOf(m.tail, now) :: m.tail[at]
  }

  /** One row installed at a time: compaction first, then into the tail, or into the compact bars when it is late. */
  function InstallRow(m: Market, gate: map<int, GateBar>, row: Row, now: int): (Market, map<int, GateBar>) {
    var c := CompactMarket(m, now);
    var known := c.(provenAbsent := c.provenAbsent - {row.start});
    if Expired(now, row.start)
    then (known.(presence := known.presence + {row.start}), CompactGate(m, gate, now)[row.start := row.bar])
    else (known.(tail := known.tail[row.start := row.bar]), CompactGate(m, gate, now))
  }

  /** Wherever a row goes, it becomes the bar of its second, and no other second's bar changes. */
  lemma InstalledBar(m: Market, gate: map<int, GateBar>, row: Row, now: int, at: int)
    ensures var (n, g) := InstallRow(m, gate, row, now);
            BarAt(n, g, at) == if at == row.start then Some(row.bar) else BarAt(m, gate, at)
  {}

  lemma InstalledFolded(m: Market, gate: map<int, GateBar>, row: Row, now: int)
    requires GateBarsFolded(m, gate)
    ensures var (n, g) := InstallRow(m, gate, row, now); GateBarsFolded(n, g) && n.sessionStart == m.sessionStart
  {}

  lemma InstalledInside(m: Market, gate: map<int, GateBar>, row: Row, now: int)
    requires BarsInside(m, gate) && m.InSession(row.start)
    ensures var (n, g) := InstallRow(m, gate, row, now); BarsInside(n, g)
  {}

  /** Every bar held is of a session second. */
  ghost predicate BarsInside(m: Market, gate: map<int, GateBar>) {
    forall at :: at in gate || at in m.tail ==> m.InSession(at)
  }

  /** What delivery keeps beside the bars. */
  ghost predicate Custody(m: Market, gate: map<int, GateBar>) {
    GateBarsFolded(m, gate) && BarsInside(m, gate)
  }

  /** A historical row is refused for a second that is folded or in conflict, and then the request's coverage is no
      longer known. */
  predicate Refused(m: Market, start: int) {
    start in m.presence || start in m.conflict
  }

  predicate AllTaken(m: Market, rows: seq<Row>) {
    forall i :: 0 <= i < |rows| ==> !Refused(m, rows[i].start)
  }

  /** What rows on top of a market can have changed: no conflict, no second but theirs. */
  ghost predicate Grown(was: Market, m: Market, rows: seq<Row>) {
    && m.sessionStart == was.sessionStart && m.conflict == was.conflict
    && (forall at :: at in was.presence ==> at in m.presence)
    && (forall at :: at in m.presence || at in m.tail ==>
          at in was.presence || at in was.tail || Lookup(rows, at).Some?)
  }

  /** All of the rows are held: each second of theirs is present and not proven absent, and every other as it was. */
  ghost predicate Delivered(was: Market, m: Market, rows: seq<Row>) {
    forall at ::
      && (at in m.presence || at in m.tail <==> at in was.presence || at in was.tail || Lookup(rows, at).Some?)
      && (at in m.provenAbsent <==> at in was.provenAbsent && Lookup(rows, at).None?)
  }

  /** The next row is refused exactly if the market of the request's start refuses it. */
  lemma RefusedAtStart(was: Market, m: Market, rows: seq<Row>, row: Row)
    requires Grown(was, m, rows) && was.tail == map[] && Ascending(rows + [row])
    ensures Refused(m, row.start) <==> Refused(was, row.start)
  {
    AscendingParts(rows, [row]);
    LookupRange(rows, row.start);
  }

  lemma InstalledGrows(was: Market, m: Market, gate: map<int, GateBar>, rows: seq<Row>, row: Row, now: int)
    requires Grown(was, m, rows)
    ensures var n := InstallRow(m, gate, row, now).0;
            && Grown(was, n, rows + [row]) && (Delivered(was, m, rows) ==> Delivered(was, n, rows + [row]))
  {
    forall at ensures Lookup(rows + [row], at) == if at == row.start then Some(row.bar) else Lookup(rows, at) {
      assert (rows + [row])[..|rows|] == rows;
    }
  }

  lemma RefusedGrows(was: Market, m: Market, rows: seq<Row>, row: Row)
    requires Grown(was, m, rows)
    ensures Grown(was, m, rows + [row])
  {
    assert (rows + [row])[..|rows|] == rows;
  }

  /** A chunk delivered at a time, row by row; `whole` says that no row was refused. */
  method DeliverRows(m: Market, gate: map<int, GateBar>, chunk: seq<Row>, now: int, ghost was: Market,
                     ghost done: seq<Row>)
    returns (after: Market, kept: map<int, GateBar>, whole: bool)
    requires Custody(m, gate) && forall i :: 0 <= i < |chunk| ==> m.InSession(chunk[i].start)
    requires Grown(was, m, done) && was.tail == map[] && Ascending(done + chunk)
    ensures Custody(after, kept) && Grown(was, after, done + chunk)
    ensures whole <==> AllTaken(was, chunk)
    ensures whole ==> forall at :: BarAt(after, kept, at) == Shown(m, gate, chunk, at)
    ensures whole && Delivered(was, m, done) ==> Delivered(was, after, done + chunk)
  {
    hide InstallRow, Grown, Delivered, Custody, BarAt, Shown, Refused;
    after, kept, whole := m, gate, true;
    var i := 0;
    NothingShown(m, gate);
    assert chunk[..0] == [] && done + [] == done;
    while i < |chunk|
      invariant i <= |chunk| && Custody(after, kept) && after.sessionStart == m.sessionStart
      invariant Grown(was, after, done + chunk[..i]) && (whole <==> AllTaken(was, chunk[..i]))
      invariant whole ==> forall at :: BarAt(after, kept, at) == Shown(m, gate, chunk[..i], at)
      invariant whole && Delivered(was, m, done) ==> Delivered(was, after, done + chunk[..i])
    {
      DeliverOne(m, gate, after, kept, was, done, chunk, i, now);
      if Refused(after, chunk[i].start) {
        whole := false;
      } else {
        var installed := InstallRow(after, kept, chunk[i], now);
        after, kept := installed.0, installed.1;
      }
      i := i + 1;
    }
    assert chunk[..|chunk|] == chunk;
    assert after.sessionStart == m.sessionStart;
  }

  lemma NothingShown(m: Market, gate: map<int, GateBar>)
    ensures forall at :: BarAt(m, gate, at) == Shown(m, gate, [], at)
  {}

  /** One row of a chunk. */
  lemma DeliverOne(m: Market, gate: map<int, GateBar>, n: Market, held: map<int, GateBar>, was: Market,
                   done: seq<Row>, chunk: seq<Row>, i: nat, now: int)
    requires i < |chunk| && Custody(n, held) && n.InSession(chunk[i].start) && Ascending(done + chunk)
    requires Grown(was, n, done + chunk[..i]) && was.tail == map[]
    ensures Refused(n, chunk[i].start) <==> Refused(was, chunk[i].start)
    ensures AllTaken(was, chunk[..i + 1]) <==> AllTaken(was, chunk[..i]) && !Refused(was, chunk[i].start)
    ensures Grown(was, n, done + chunk[..i + 1])
    ensures var (o, g) := InstallRow(n, held, chunk[i], now);
            && Custody(o, g) && o.sessionStart == n.sessionStart && Grown(was, o, done + chunk[..i + 1])
            && (Delivered(was, n, done + chunk[..i]) ==> Delivered(was, o, done + chunk[..i + 1]))
            && ((forall at :: BarAt(n, held, at) == Shown(m, gate, chunk[..i], at)) ==>
                  forall at :: BarAt(o, g, at) == Shown(m, gate, chunk[..i + 1], at))
  {
    hide InstallRow, Grown, Delivered, BarAt, Refused, GateBarsFolded, BarsInside;
    var rows, row := done + chunk[..i], chunk[i];
    assert chunk[..i + 1] == chunk[..i] + [row] && rows + [row] == done + chunk[..i + 1];
    assert done + chunk == (rows + [row]) + chunk[i + 1..];
    AscendingParts(rows + [row], chunk[i + 1..]);
    RefusedAtStart(was, n, rows, row);
    RefusedGrows(was, n, rows, row);
    InstalledGrows(was, n, held, rows, row, now);
    InstalledFolded(n, held, row, now);
    InstalledInside(n, held, row, now);
    var installed := InstallRow(n, held, row, now);
    if forall at :: BarAt(n, held, at) == Shown(m, gate, chunk[..i], at) {
      forall at ensures BarAt(installed.0, installed.1, at) == Shown(m, gate, chunk[..i + 1], at) {
        InstalledBar(n, held, row, now, at);
        assert chunk[..i + 1][..i] == chunk[..i];
        assert BarAt(n, held, at) == Shown(m, gate, chunk[..i], at);
      }
    }
  }

  /** The bar of a second once some rows were delivered on top. */
  function Shown(m: Market, gate: map<int, GateBar>, rows: seq<Row>, at: int): Option<GateBar> {
    if Lookup(rows, at).Some? then Lookup(rows, at) else BarAt(m, gate, at)
  }

  /** The bars held are the rows delivered, except that a compact bar too old for any later correction may be gone. */
  ghost predicate Retains(m: Market, gate: map<int, GateBar>, done: seq<Row>, generationEnd: int) {
    forall at :: BarAt(m, gate, at) == Lookup(done, at)
                 || (BarAt(m, gate, at).None? && at < generationEnd - CORRECTION_SECONDS - WINDOW)
  }

  lemma PrunedBar(m: Market, gate: map<int, GateBar>, kept: map<int, GateBar>, boundary: int, at: int)
    requires forall k :: k in kept ==> k in gate && kept[k] == gate[k]
    requires forall k :: k in gate && k !in kept ==> k < boundary
    ensures BarAt(m, kept, at) == BarAt(m, gate, at) || (BarAt(m, kept, at).None? && at < boundary)
  {}

  /** Delivered on top of what was held, and pruned, the rows are still retained. */
  lemma StillRetains(m: Market, gate: map<int, GateBar>, after: Market, delivered: map<int, GateBar>,
                     kept: map<int, GateBar>, done: seq<Row>, chunk: seq<Row>, generationEnd: int)
    requires Retains(m, gate, done, generationEnd)
    requires forall at :: BarAt(after, delivered, at) == Shown(m, gate, chunk, at)
    requires forall at :: at in kept ==> at in delivered && kept[at] == delivered[at]
    requires forall at :: at in delivered && at !in kept ==> at < generationEnd - CORRECTION_SECONDS - WINDOW
    ensures Retains(after, kept, done + chunk, generationEnd)
  {
    var boundary := generationEnd - CORRECTION_SECONDS - WINDOW;
    forall at ensures BarAt(after, kept, at) == Lookup(done + chunk, at)
                      || (BarAt(after, kept, at).None? && at < boundary) {
      LookupAppend(done, chunk, at);
      PrunedBar(after, delivered, kept, boundary, at);
      assert BarAt(m, gate, at) == Lookup(done, at) || (BarAt(m, gate, at).None? && at < boundary);
      assert BarAt(after, delivered, at) == Shown(m, gate, chunk, at);
    }
  }

  lemma FewerInCustody(m: Market, gate: map<int, GateBar>, kept: map<int, GateBar>)
    requires Custody(m, gate) && forall at :: at in kept ==> at in gate && kept[at] == gate[at]
    ensures Custody(m, kept)
  {}

  /** What a request keeps from chunk to chunk while no row was refused. */
  ghost predicate InStep(scan: HydrationScan, was: Market, m: Market, gate: map<int, GateBar>, done: seq<Row>,
                         read: seq<Row>)
    reads scan
  {
    Between(scan, done, read) && Retains(m, gate, done, scan.generationEnd) && Delivered(was, m, done)
  }

  /** Delivers one chunk at a time: its rows are installed, then the scan advances past its last row and prunes. */
  method ScanChunk(scan: HydrationScan, m: Market, gate: map<int, GateBar>, chunk: seq<Row>, now: int,
                   ghost was: Market, ghost done: seq<Row>, ghost read: seq<Row>)
    returns (after: Market, kept: map<int, GateBar>, whole: bool)
    requires scan.Valid() && m.sessionStart == scan.sessionStart && Custody(m, gate)
    requires chunk != [] && Within(chunk, m.sessionStart, scan.generationEnd)
    requires Ascending(done + chunk) && Grown(was, m, done) && was.tail == map[]
    modifies scan, scan.window, scan.window.entries
    ensures scan.Valid() && Custody(after, kept) && Grown(was, after, done + chunk)
    ensures whole <==> AllTaken(was, chunk)
    ensures whole && old(InStep(scan, was, m, gate, done, read)) ==>
              InStep(scan, was, after, kept, done + chunk, read + (if Adjoins(done, chunk) then chunk[1..] else chunk))
  {
    hide Custody, Retains, InstallRow, Lookup, BarAt, Grown, Delivered, Ascending, AllTaken;
    ghost var ok := InStep(scan, was, m, gate, done, read);
    var delivered;
    SessionRows(m, chunk, scan.generationEnd);
    AscendingParts(done, chunk);
    after, delivered, whole := DeliverRows(m, gate, chunk, now, was, done);
    GrownSession(was, m, done, after, done + chunk);
    ghost var before, next := scan.bars, scan.nextProof;
    scan.Advance(after, delivered, LastStart(chunk) + 1);
    kept := PruneGateBars(delivered, scan.nextProof, scan.generationEnd);
    FewerInCustody(after, delivered, kept);
    if whole && ok {
      forall at | at >= next ensures BarAt(after, delivered, at) == Lookup(chunk, at) {
        NoBarAhead(m, gate, done, scan.generationEnd, at);
      }
      LastIsLast(chunk);
      ReadOneChunk(after, before, scan.bars, delivered, read, done, chunk, next);
      StillRetains(m, gate, after, delivered, kept, done, chunk, scan.generationEnd);
    }
  }

  lemma SessionRows(m: Market, rows: seq<Row>, until: int)
    requires Within(rows, m.sessionStart, until) && until <= m.SessionEnd()
    ensures forall i :: 0 <= i < |rows| ==> m.InSession(rows[i].start)
  {}

  lemma GrownSession(was: Market, m: Market, done: seq<Row>, after: Market, more: seq<Row>)
    requires Grown(was, m, done) && Grown(was, after, more)
    ensures after.sessionStart == m.sessionStart
  {}

  lemma LastIsLast(chunk: seq<Row>)
    requires chunk != [] && Ascending(chunk)
    ensures chunk[0].start <= LastStart(chunk)
  {}

  /** No bar is held past the last row delivered. */
  lemma NoBarAhead(m: Market, gate: map<int, GateBar>, done: seq<Row>, generationEnd: int, at: int)
    requires Retains(m, gate, done, generationEnd) && Ascending(done) && (done != [] ==> LastStart(done) < at)
    ensures BarAt(m, gate, at).None?
  {
    LookupRange(done, at);
    assert BarAt(m, gate, at) == Lookup(done, at) || BarAt(m, gate, at).None?;
  }

  /** The tail of the scan: three seconds past the last bar are enough. */
  method CompleteScan(scan: HydrationScan, m: Market, gate: map<int, GateBar>, ghost done: seq<Row>,
                      ghost read: seq<Row>) returns (kept: map<int, GateBar>)
    requires scan.Valid() && Between(scan, done, read) && m.sessionStart == scan.sessionStart && Custody(m, gate)
    requires done != [] && LastStart(done) < scan.generationEnd && Ascending(done)
    requires Retains(m, gate, done, scan.generationEnd)
    requires forall at :: Lookup(read, at).Some? ==> at <= LastStart(done)
    modifies scan, scan.window, scan.window.entries
    ensures Found(scan.sessionStart, BarsOf(read), scan.generationEnd, scan.generationEnd + 1, scan.earliestPassing,
                  scan.recentPassing)
    ensures Custody(m, kept) && Retains(m, kept, done, scan.generationEnd)
  {
    var through := scan.generationEnd;
    if through > scan.lastBarEnd.value + 3 {
      through := scan.lastBarEnd.value + 3;
    }
    ghost var before, next := scan.bars, scan.nextProof;
    scan.Advance(m, gate, through);
    NothingMoreRead(scan, m, gate, before, done, read, next, through);
    kept := PruneGateBars(gate, scan.nextProof, scan.generationEnd);
    forall at ensures BarAt(m, kept, at) == Lookup(done, at)
                      || (BarAt(m, kept, at).None? && at < scan.generationEnd - CORRECTION_SECONDS - WINDOW) {
      PrunedBar(m, gate, kept, scan.generationEnd - CORRECTION_SECONDS - WINDOW, at);
      assert BarAt(m, gate, at) == Lookup(done, at)
             || (BarAt(m, gate, at).None? && at < scan.generationEnd - CORRECTION_SECONDS - WINDOW);
    }
    FewerInCustody(m, gate, kept);
  }

  /** Past the last row nothing is left to read, so what was found holds for the whole session. */
  lemma NothingMoreRead(scan: HydrationScan, m: Market, gate: map<int, GateBar>, before: map<int, GateBar>,
                        done: seq<Row>, read: seq<Row>, next: int, through: int)
    requires scan.Valid() && Holds(before, read) && Retains(m, gate, done, scan.generationEnd)
    requires done != [] && Ascending(done) && next == LastStart(done) + 2
    requires ReadRange(before, scan.bars, m, gate, next, through) || scan.bars == before
    requires scan.nextProof > scan.generationEnd || scan.nextProof > LastStart(done) + 4
    requires forall at :: Lookup(read, at).Some? ==> at <= LastStart(done)
    ensures Found(scan.sessionStart, BarsOf(read), scan.generationEnd, scan.generationEnd + 1, scan.earliestPassing,
                  scan.recentPassing)
  {
    forall at ensures Get(scan.bars, at) == Lookup(read, at) {
      assert Get(before, at) == Lookup(read, at);
      if at >= next { NoBarAhead(m, gate, done, scan.generationEnd, at); }
    }
    forall at | at in scan.bars ensures at <= LastStart(done) {
      assert Get(scan.bars, at) == Lookup(read, at);
    }
    FoundToEnd(scan.sessionStart, scan.bars, scan.generationEnd, scan.nextProof, LastStart(done),
               scan.earliestPassing, scan.recentPassing);
    HoldsAgrees(scan.bars, read, scan.generationEnd + 1);
    FoundAgrees(scan.sessionStart, scan.bars, BarsOf(read), scan.generationEnd, scan.generationEnd + 1,
                scan.earliestPassing, scan.recentPassing);
  }

  lemma NothingDelivered(scan: HydrationScan, m: Market)
    requires scan.bars == map[] && scan.nextProof == scan.sessionStart && scan.lastBarEnd == None && m.tail == map[]
    ensures InStep(scan, m, m, map[], [], []) && Custody(m, map[]) && Grown(m, m, [])
    ensures Concat([]) == [] && ReadInTime([]) == [] && Ascending([]) && AllTaken(m, [])
  {}

  /** The chunks of a request, each at its time. */
  method ScanChunks(m: Market, chunks: seq<seq<Row>>, times: seq<int>, generationEnd: int)
    returns (scan: HydrationScan, after: Market, gate: map<int, GateBar>, whole: bool)
    requires Deliverable(chunks, m.sessionStart, generationEnd) && |times| == |chunks|
    requires m.tail == map[] && generationEnd <= m.SessionEnd()
    ensures fresh(scan) && fresh(scan.window) && fresh(scan.window.entries) && scan.Valid()
    ensures scan.sessionStart == m.sessionStart && scan.generationEnd == generationEnd
    ensures Custody(after, gate) && Grown(m, after, Concat(chunks)) && (whole <==> AllTaken(m, Concat(chunks)))
    ensures whole ==> InStep(scan, m, after, gate, Concat(chunks), ReadInTime(chunks))
  {
    hide Adjoins, Within, Custody, InStep, Lookup, Concat, ReadInTime, Ascending, Grown, AllTaken,
         HydrationScan.Valid;
    after, gate, whole := m, map[], true;
    scan := new HydrationScan(m, gate, generationEnd);
    var k := 0;
    assert chunks[..0] == [];
    NothingDelivered(scan, m);
    while k < |chunks|
      invariant k <= |chunks| && scan.Valid() && fresh(scan) && fresh(scan.window) && fresh(scan.window.entries)
      invariant scan.sessionStart == m.sessionStart && scan.generationEnd == generationEnd
      invariant Custody(after, gate) && Grown(m, after, Concat(chunks[..k]))
      invariant whole <==> AllTaken(m, Concat(chunks[..k]))
      invariant whole ==> InStep(scan, m, after, gate, Concat(chunks[..k]), ReadInTime(chunks[..k]))
    {
      DeliverableAt(chunks, k, m.sessionStart, generationEnd);
      TakenParts(m, Concat(chunks[..k]), chunks[k]);
      GrownSession(m, after, Concat(chunks[..k]), after, Concat(chunks[..k]));
      GrownStart(m, after, Concat(chunks[..k]));
      var taken;
      after, gate, taken := ScanChunk(scan, after, gate, chunks[k], times[k], m, Concat(chunks[..k]),
                                      ReadInTime(chunks[..k]));
      whole := whole && taken;
      k := k + 1;
    }
    assert chunks[..|chunks|] == chunks;
  }

  lemma GrownStart(was: Market, m: Market, rows: seq<Row>)
    requires Grown(was, m, rows)
    ensures m.sessionStart == was.sessionStart && m.conflict == was.conflict
  {}

  lemma TakenParts(m: Market, a: seq<Row>, b: seq<Row>)
    ensures AllTaken(m, a + b) <==> AllTaken(m, a) && AllTaken(m, b)
  {
    var all := a + b;
    if AllTaken(m, all) {
      assert forall i :: 0 <= i < |a| ==> a[i] == all[i];
      assert forall i :: 0 <= i < |b| ==> b[i] == all[|a| + i];
    }
  }

  // ------------------------------------------------------------------------------- the coverage a completion installs

  /** Exact coverage of an interval: every second of it that nothing claims is proven absent, but the invalid one. */
  function CoverInterval(m: Market, from: int, until: int, invalid: Option<int>): Market {
    var covered := set k | from <= k < until && k !in m.presence && k !in m.conflict && invalid != Some(k);
    var held := set k | k in m.tail && from <= k < until;
    m.(provenAbsent := (m.provenAbsent + covered) - held)
  }

  /** A second is known: free of conflict, and its bar is held or folded or its absence proven. */
  predicate Known(m: Market, at: int) {
    at !in m.conflict && (at in m.tail || at in m.presence || at in m.provenAbsent)
  }

  /** A second no completion can make known: in conflict, or the invalid one and not known before. */
  predicate Unknowable(m: Market, rows: seq<Row>, invalid: Option<int>, at: int) {
    || at in m.conflict
    || (invalid == Some(at) && at !in m.presence && at !in m.provenAbsent && Lookup(rows, at).None?)
  }

  lemma CoveredKnown(was: Market, m: Market, rows: seq<Row>, until: int, invalid: Option<int>, now: int, at: int)
    requires Grown(was, m, rows) && Delivered(was, m, rows) && was.tail == map[] && m.sessionStart <= at < until
    ensures Known(CompactMarket(CoverInterval(m, m.sessionStart, until, invalid), now), at)
       <==> !Unknowable(was, rows, invalid, at)
  {}

  /** Neither coverage nor compaction changes a bar. */
  lemma CoveredBars(m: Market, gate: map<int, GateBar>, until: int, invalid: Option<int>, now: int)
    requires Custody(m, gate)
    ensures var c := CoverInterval(m, m.sessionStart, until, invalid);
            && Custody(CompactMarket(c, now), CompactGate(c, gate, now))
            && forall at :: BarAt(CompactMarket(c, now), CompactGate(c, gate, now), at) == BarAt(m, gate, at)
  {}

  /** A whole request: every chunk at its time, its rows in the tail or in the compact bars as they are late or not;
      then the coverage of its interval and the tail of the scan.  If no row was refused, what it finds is what one scan
      over the rows read in time finds, every bar a later correction can need is still held, and every second of the
      interval is known but the unknowable ones. */
  method ScanRequest(m: Market, chunks: seq<seq<Row>>, times: seq<int>, generationEnd: int, invalid: Option<int>,
                     now: int)
    returns (earliest: Option<int>, recent: set<int>, after: Market, gate: map<int, GateBar>, whole: bool)
    requires chunks != [] && Deliverable(chunks, m.sessionStart, generationEnd) && |times| == |chunks|
    requires m.tail == map[] && generationEnd <= m.SessionEnd()
    ensures after.sessionStart == m.sessionStart && Custody(after, gate)
    ensures whole <==> AllTaken(m, Concat(chunks))
    ensures whole ==> Found(m.sessionStart, BarsOf(ReadInTime(chunks)), generationEnd, generationEnd + 1, earliest,
                            recent)
    ensures whole ==> Retains(after, gate, Concat(chunks), generationEnd)
    ensures whole ==> forall at :: m.sessionStart <= at < generationEnd ==>
              (Known(after, at) <==> !Unknowable(m, Concat(chunks), invalid, at))
  {
    hide Found, BarsOf, Adjoins, Within, Custody, Retains, Between, Lookup, Concat, ReadInTime, Ascending, Grown,
         Delivered, AllTaken, CoverInterval, CompactMarket, CompactGate, Known, Unknowable;
    var scan;
    scan, after, gate, whole := ScanChunks(m, chunks, times, generationEnd);
    GrownStart(m, after, Concat(chunks));
    ghost var n, held := after, gate;
    var covered := CoverInterval(after, after.sessionStart, generationEnd, invalid);
    after, gate := CompactMarket(covered, now), CompactGate(covered, gate, now);
    CoveredBars(n, held, generationEnd, invalid, now);
    CoveredSession(n, generationEnd, invalid, now);
    if whole {
      SameRetains(n, held, after, gate, Concat(chunks), generationEnd);
      forall at | m.sessionStart <= at < generationEnd
        ensures Known(after, at) <==> !Unknowable(m, Concat(chunks), invalid, at)
      {
        CoveredKnown(m, n, Concat(chunks), generationEnd, invalid, now, at);
      }
      ReadFromDelivered(chunks, m.sessionStart, generationEnd);
      DeliverableEnd(chunks, m.sessionStart, generationEnd);
      gate := CompleteScan(scan, after, gate, Concat(chunks), ReadInTime(chunks));
    }
    return scan.earliestPassing, scan.recentPassing, after, gate, whole;
  }

  lemma CoveredSession(m: Market, until: int, invalid: Option<int>, now: int)
    ensures CompactMarket(CoverInterval(m, m.sessionStart, until, invalid), now).sessionStart == m.sessionStart
  {}

  lemma SameRetains(m: Market, gate: map<int, GateBar>, after: Market, kept: map<int, GateBar>, rows: seq<Row>,
                    generationEnd: int)
    requires Retains(m, gate, rows, generationEnd) && forall at :: BarAt(after, kept, at) == BarAt(m, gate, at)
    ensures Retains(after, kept, rows, generationEnd)
  {
    forall at ensures BarAt(after, kept, at) == Lookup(rows, at)
                      || (BarAt(after, kept, at).None? && at < generationEnd - CORRECTION_SECONDS - WINDOW) {
      assert BarAt(after, kept, at) == BarAt(m, gate, at);
    }
  }

  lemma DeliverableEnd(chunks: seq<seq<Row>>, sessionStart: int, generationEnd: int)
    requires chunks != [] && Deliverable(chunks, sessionStart, generationEnd)
    ensures Concat(chunks) != [] && Ascending(Concat(chunks)) && LastStart(Concat(chunks)) < generationEnd
  {}

  lemma {:induction false} DeliverableAt(chunks: seq<seq<Row>>, k: nat, sessionStart: int, generationEnd: int)
    requires k < |chunks| && Deliverable(chunks, sessionStart, generationEnd)
    ensures var done, chunk := Concat(chunks[..k]), chunks[k];
            && chunk != [] && Ascending(chunk) && Within(chunk, sessionStart, generationEnd)
            && (done != [] ==> LastStart(done) < chunk[0].start) && Ascending(done + chunk)
            && Concat(chunks[..k + 1]) == done + chunk
            && ReadInTime(chunks[..k + 1])
               == ReadInTime(chunks[..k]) + if Adjoins(done, chunk) then chunk[1..] else chunk
    decreases |chunks|
  {
    DeliverablePrefix(chunks, sessionStart, generationEnd);
    if k < |chunks| - 1 {
      var init := chunks[..|chunks| - 1];
      assert init[..k] == chunks[..k] && init[..k + 1] == chunks[..k + 1];
      DeliverableAt(init, k, sessionStart, generationEnd);
    } else {
      assert chunks[..k + 1] == chunks;
    }
  }

  /** The rows read in time are among the rows delivered. */
  lemma {:induction false} ReadFromDelivered(chunks: seq<seq<Row>>, sessionStart: int, generationEnd: int)
    requires chunks != [] && Deliverable(chunks, sessionStart, generationEnd)
    ensures Concat(chunks) != [] && LastStart(Concat(chunks)) < generationEnd
    ensures forall at :: Lookup(ReadInTime(chunks), at).Some? ==> at <= LastStart(Concat(chunks))
    decreases |chunks|
  {
    DeliverablePrefix(chunks, sessionStart, generationEnd);
    var before, chunk := chunks[..|chunks| - 1], chunks[|chunks| - 1];
    if before != [] {
      ReadFromDelivered(before, sessionStart, generationEnd);
    }
    var taken := if Adjoins(Concat(before), chunk) then chunk[1..] else chunk;
    forall at | Lookup(ReadInTime(chunks), at).Some? ensures at <= LastStart(Concat(chunks)) {
      LookupAppend(ReadInTime(before), taken, at);
      LookupRange(taken, at);
    }
  }

  /** When no chunk adjoins the one before, every row is read in time: the chunked scan is the whole-session scan. */
  lemma {:induction false} SpacedChunksLoseNothing(chunks: seq<seq<Row>>)
    requires forall k :: 0 < k < |chunks| ==> !Adjoins(Concat(chunks[..k]), chunks[k])
    ensures ReadInTime(chunks) == Concat(chunks)
    decreases |chunks|
  {
    if chunks != [] {
      var before := chunks[..|chunks| - 1];
      forall k | 0 < k < |before| ensures !Adjoins(Concat(before[..k]), before[k]) {
        assert before[..k] == chunks[..k];
      }
      SpacedChunksLoseNothing(before);
    }
  }

  lemma FirstRowLookup(chunk: seq<Row>)
    requires chunk != [] && Ascending(chunk)
    ensures Lookup(chunk, chunk[0].start) == Some(chunk[0].bar) && Lookup(chunk[1..], chunk[0].start).None?
  {
    var at := chunk[0].start;
    LookupRange(chunk[1..], at);
    LookupAppend([chunk[0]], chunk[1..], at);
    assert [chunk[0]] + chunk[1..] == chunk && [chunk[0]][..0] == [];
  }

  /** The other half: an adjoining chunk always loses its first row, whatever else is delivered. */
  lemma {:induction false} AdjoiningRowIsLost(chunks: seq<seq<Row>>, k: nat, sessionStart: int, generationEnd: int)
    requires Deliverable(chunks, sessionStart, generationEnd)
    requires 0 < k < |chunks| && Adjoins(Concat(chunks[..k]), chunks[k])
    ensures Lookup(Concat(chunks), chunks[k][0].start) == Some(chunks[k][0].bar)
    ensures Lookup(ReadInTime(chunks), chunks[k][0].start).None?
    decreases |chunks|
  {
    var before, chunk, at := chunks[..|chunks| - 1], chunks[|chunks| - 1], chunks[k][0].start;
    DeliverablePrefix(chunks, sessionStart, generationEnd);
    var taken := if Adjoins(Concat(before), chunk) then chunk[1..] else chunk;
    LookupAppend(Concat(before), chunk, at);
    LookupAppend(ReadInTime(before), taken, at);
    ReadFromDelivered(before, sessionStart, generationEnd);
    if k < |before| {
      assert before[..k] == chunks[..k];
      AdjoiningRowIsLost(before, k, sessionStart, generationEnd);
      LookupRange(Concat(before), at);
      LookupRange(chunk, at);
      LookupRange(taken, at);
    } else {
      FirstRowLookup(chunk);
    }
  }

  // ------------------------------------------------------------------------------------- a request that loses a pass

  /** Three bars in every four seconds, large enough for every other threshold. */
  const BusyBar := GateBar(10.0, 1000.0, 10.0, 10, RestFloorVolumeOverTrades)

  function BusyRows(sessionStart: int, n: nat): seq<Row> {
    if n == 0 then []
    else BusyRows(sessionStart, n - 1) + (if n % 4 == 0 then [] else [Row(sessionStart + n - 1, BusyBar)])
  }

  lemma {:induction false} BusyAscends(sessionStart: int, n: nat)
    ensures Ascending(BusyRows(sessionStart, n)) && |BusyRows(sessionStart, n)| == n - n / 4
    ensures forall i :: 0 <= i < |BusyRows(sessionStart, n)| ==>
              sessionStart <= BusyRows(sessionStart, n)[i].start < sessionStart + n
  {
    if n > 0 { BusyAscends(sessionStart, n - 1); }
  }

  lemma NoBusyRows(sessionStart: int, at: int)
    ensures Lookup(BusyRows(sessionStart, 0), at).None?
  {}

  lemma BusyStep(sessionStart: int, n: nat, at: int)
    ensures Lookup(BusyRows(sessionStart, n + 1), at)
         == if (n + 1) % 4 != 0 && at == sessionStart + n then Some(BusyBar) else Lookup(BusyRows(sessionStart, n), at)
  {
    var before := BusyRows(sessionStart, n);
    if (n + 1) % 4 != 0 {
      assert (before + [Row(sessionStart + n, BusyBar)])[..|before|] == before;
    } else {
      assert before + [] == before;
    }
  }

  lemma {:induction false} BusyLookup(sessionStart: int, n: nat, at: int)
    ensures Lookup(BusyRows(sessionStart, n), at)
         == if sessionStart <= at < sessionStart + n && (at - sessionStart) % 4 != 3 then Some(BusyBar) else None
  {
    hide BusyRows, Lookup;
    if n == 0 {
      NoBusyRows(sessionStart, at);
    } else {
      BusyLookup(sessionStart, n - 1, at);
      BusyStep(sessionStart, n - 1, at);
      assert (n - 1) % 4 == 3 <==> n % 4 == 0;
    }
  }

  /** The window of the first minute of such rows. */
  function BusyView(): (view: seq<Entry>)
    ensures |view| == WINDOW
  {
    seq(WINDOW, i requires 0 <= i < WINDOW => Entry(if i % 4 != 3 then Some(BusyBar) else None, true, false))
  }

  lemma {:induction false} BusyGaps(n: nat)
    requires n <= WINDOW
    ensures CurrentGap(BusyView()[..n]) == (if n > 0 && n % 4 == 0 then 1 else 0)
    ensures LongestGap(BusyView()[..n]) <= 1
  {
    if n > 0 {
      assert BusyView()[..n][..n - 1] == BusyView()[..n - 1];
      BusyGaps(n - 1);
    }
  }

  lemma {:induction false} BusySums(n: nat)
    requires n <= WINDOW
    ensures var t, c := TallyOf(BusyView()[..n]), n - n / 4;
            && t.presentSeconds == c && t.a60Available && t.a5Available
            && t.totalVolume == 1000.0 * (c as real) && t.dollarVolume == 10000.0 * (c as real)
            && t.a60 == 100.0 * (c as real)
            && (n > 0 ==> t.latestPrice == 10.0 && t.maximumVolume == 1000.0)
  {
    if n > 0 {
      assert BusyView()[..n][..n - 1] == BusyView()[..n - 1];
      BusySums(n - 1);
    }
  }

  lemma BusySecond(i: nat)
    requires i < WINDOW
    ensures BusyView()[i] == Entry(if i % 4 != 3 then Some(BusyBar) else None, true, false)
  {}

  lemma ShortStep(t: Tally, slot: nat)
    ensures var e := Entry(if slot % 4 != 3 then Some(BusyBar) else None, true, false);
            TallyOne(t, slot, e).a5 == t.a5 + if slot >= 55 && slot % 4 != 3 then 100.0 else 0.0
  {}

  lemma {:induction false} BusyShort(n: nat)
    requires n <= WINDOW
    ensures TallyOf(BusyView()[..n]).a5 == if n <= 55 then 0.0 else 100.0 * ((n - 55 - (n / 4 - 13)) as real)
  {
    hide BusyView, TallyOne;
    if n > 0 {
      assert BusyView()[..n][..n - 1] == BusyView()[..n - 1];
      BusySecond(n - 1);
      BusyShort(n - 1);
      ShortStep(TallyOf(BusyView()[..n - 1]), n - 1);
    }
  }

  lemma BusyPasses()
    ensures Passes(FactsOf(BusyView()))
  {
    BusySums(WINDOW);
    BusyShort(WINDOW);
    BusyGaps(WINDOW);
    assert BusyView()[..WINDOW] == BusyView();
    assert Conclude(TallyOf(BusyView()), LongestGap(BusyView())).concentration == 1000.0 / 45000.0;
  }

  /** The whole minute of rows passes its gate. */
  lemma BusyRowsPass(sessionStart: int)
    ensures BarsPass(sessionStart, BarsOf(BusyRows(sessionStart, WINDOW)), sessionStart + WINDOW)
  {
    var bars := BarsOf(BusyRows(sessionStart, WINDOW));
    var view := ViewAt(Bare(sessionStart), bars, sessionStart + WINDOW);
    forall i | 0 <= i < WINDOW ensures view[i].bar == BusyView()[i].bar && view[i].active {
      BarsOfHolds(BusyRows(sessionStart, WINDOW), sessionStart + i);
      BusyLookup(sessionStart, WINDOW, sessionStart + i);
      assert view[i] == EntryAt(Bare(sessionStart), bars, sessionStart + i);
    }
    assert SameBars(view, BusyView());
    SameBarsSameFacts(view, BusyView());
    BusyPasses();
  }

  lemma {:induction false} BarsOfSize(rows: seq<Row>)
    ensures |BarsOf(rows)| <= |rows|
    decreases |rows|
  {
    if rows != [] {
      var before, row := BarsOf(rows[..|rows| - 1]), rows[|rows| - 1];
      BarsOfSize(rows[..|rows| - 1]);
      assert before[row.start := row.bar].Keys == before.Keys + {row.start};
    }
  }

  function StartsOf(rows: seq<Row>): (starts: seq<int>)
    ensures |starts| == |rows| && forall i :: 0 <= i < |rows| ==> starts[i] == rows[i].start
  {
    seq(|rows|, i requires 0 <= i < |rows| => rows[i].start)
  }

  /** Chunks as a worker cuts them: all of the same number of rows but the last. */
  ghost predicate CutByWorker(chunks: seq<seq<Row>>, r: nat)
    requires 0 < r
  {
    var starts := StartsOf(Concat(chunks));
    && |chunks| == W.TotalChunks(|starts|, r)
    && forall k :: 0 <= k < |chunks| ==> StartsOf(chunks[k]) == W.ChunkAt(starts, r, k).rows
  }

  /** All rows but the last, then the last. */
  function Parted(rows: seq<Row>): seq<seq<Row>>
    requires |rows| >= 2
  {
    [rows[..|rows| - 1], rows[|rows| - 1..]]
  }

  lemma PartedConcat(rows: seq<Row>)
    requires |rows| >= 2
    ensures var chunks := Parted(rows); |chunks| == 2 && Concat(chunks) == rows && chunks[0] != [] && chunks[1] != []
    ensures Concat(Parted(rows)[..1]) == rows[..|rows| - 1]
  {
    var chunks := Parted(rows);
    assert chunks[..1] == [chunks[0]] && [chunks[0]][..0] == [];
    assert Concat([chunks[0]]) == chunks[0] && chunks[0] + chunks[1] == rows;
  }

  /** Where the last row follows directly, all rows but that one are read in time. */
  lemma PartedLosesLast(rows: seq<Row>)
    requires |rows| >= 2 && rows[|rows| - 1].start == rows[|rows| - 2].start + 1
    ensures |ReadInTime(Parted(rows))| == |rows| - 1
  {
    var chunks := Parted(rows);
    PartedConcat(rows);
    assert chunks[..1] == [chunks[0]] && [chunks[0]][..0] == [];
    assert ReadInTime([chunks[0]]) == chunks[0];
  }

  /** A worker with room for all rows but the last in a chunk cuts them that way. */
  lemma PartedByWorker(rows: seq<Row>)
    requires |rows| >= 2
    ensures CutByWorker(Parted(rows), |rows| - 1)
  {
    hide Concat;
    var n, starts := |rows| - 1, StartsOf(rows);
    PartedConcat(rows);
    W.ChunksCover(n + 1, n, 1);
    W.ChunksCover(n + 1, n, 2);
    assert W.ChunkAt(starts, n, 0).rows == starts[..n] == StartsOf(rows[..n]);
    assert W.ChunkAt(starts, n, 1).rows == starts[n..] == StartsOf(rows[n..]);
  }

  lemma LastTwoBusy(sessionStart: int)
    ensures var rows := BusyRows(sessionStart, WINDOW);
            |rows| >= 2 && rows[|rows| - 1].start == sessionStart + 58 && rows[|rows| - 2].start == sessionStart + 57
  {
    assert BusyRows(sessionStart, 58) == BusyRows(sessionStart, 57) + [Row(sessionStart + 57, BusyBar)];
    assert BusyRows(sessionStart, 59) == BusyRows(sessionStart, 58) + [Row(sessionStart + 58, BusyBar)];
    assert BusyRows(sessionStart, 60) == BusyRows(sessionStart, 59) + [];
  }

  /** With too few rows left for any window, losing the last of a passing minute's rows loses everything. */
  lemma LosingSplit(sessionStart: int, rows: seq<Row>)
    requires |rows| == MINIMUM_SECONDS && rows[|rows| - 1].start == rows[|rows| - 2].start + 1
    requires Ascending(rows) && Within(rows, sessionStart, sessionStart + SESSION_SECONDS)
    ensures var chunks := Parted(rows);
            && Deliverable(chunks, sessionStart, sessionStart + SESSION_SECONDS) && CutByWorker(chunks, |rows| - 1)
            && Concat(chunks) == rows && forall p :: !BarsPass(sessionStart, BarsOf(ReadInTime(chunks)), p)
  {
    hide Ascending, CutByWorker, ReadInTime, Concat, Parted, BarsOf, FactsOf, ViewAt;
    var chunks := Parted(rows);
    PartedConcat(rows);
    PartedLosesLast(rows);
    PartedByWorker(rows);
    BarsOfSize(ReadInTime(chunks));
    FewBarsFail(Bare(sessionStart), BarsOf(ReadInTime(chunks)));
  }

  /** Such a minute in chunks of 44 rows, as a worker cuts it: the chunks are deliverable and the whole scan has a
      passing end, but the row that follows directly is lost and the chunked scan finds nothing at all. */
  lemma AdjoiningChunksLoseAPass(sessionStart: int) returns (chunks: seq<seq<Row>>, size: nat)
    ensures Deliverable(chunks, sessionStart, sessionStart + SESSION_SECONDS)
    ensures size == 44 && CutByWorker(chunks, size)
    ensures BarsPass(sessionStart, BarsOf(Concat(chunks)), sessionStart + WINDOW)
    ensures forall p :: !BarsPass(sessionStart, BarsOf(ReadInTime(chunks)), p)
  {
    hide BusyRows, Ascending, CutByWorker, ReadInTime, Concat, Parted, BarsPass, BarsOf, Deliverable;
    var rows := BusyRows(sessionStart, WINDOW);
    BusyAscends(sessionStart, WINDOW);
    LastTwoBusy(sessionStart);
    BusyRowsPass(sessionStart);
    LosingSplit(sessionStart, rows);
    chunks, size := Parted(rows), |rows| - 1;
  }
}
