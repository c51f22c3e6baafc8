/** The 60-second qualification gate from scratch: what one window's facts are, what passing means, and when the
    window's coverage can be trusted.  The rolling window, the dirty ranges and the hydration scan are all proved
    against this. */
module QualificationGate {
  import opened Options
  import opened SessionUnits

  const WINDOW: int := 60
  const SHORT_WINDOW: int := 5
  const MINIMUM_SECONDS: int := 45
  const MAXIMUM_GAP: int := 3
  const MAXIMUM_PROOFS: int := 961

  datatype Provenance = LiveProviderAverage | RestFloorVolumeOverTrades

  datatype GateBar = GateBar(close: real, volume: real, vwap: real, averageTradeSize: int, provenance: Provenance)

  /** The canonical evidence of one symbol: its tail, and which seconds are folded, proven absent or in conflict. */
  datatype Market = Market(sessionStart: int, tail: map<int, GateBar>, presence: set<int>, provenAbsent: set<int>,
                           conflict: set<int>) {
    function SessionEnd(): int { sessionStart + SESSION_SECONDS }

    predicate InSession(at: int) { sessionStart <= at < SessionEnd() }
  }

  /** The tail's bar, else the compact bar kept for a folded second. */
  function BarAt(m: Market, gate: map<int, GateBar>, at: int): Option<GateBar> {
    if at in m.tail then Some(m.tail[at]) else if at in gate then Some(gate[at]) else None
  }

  /** One second as the gate sees it. */
  datatype Entry = Entry(bar: Option<GateBar>, active: bool, covered: bool)

  function EntryAt(m: Market, gate: map<int, GateBar>, at: int): Entry {
    if !m.InSession(at) then Entry(None, false, false)
    else
      var bar := BarAt(m, gate, at);
      Entry(bar, true, at !in m.conflict && (bar.Some? || at in m.presence || at in m.provenAbsent))
  }

  /** The seconds of the window that ends at a proof end, oldest first. */
  function ViewAt(m: Market, gate: map<int, GateBar>, proofEnd: int): (view: seq<Entry>)
    ensures |view| == WINDOW
    ensures forall i :: 0 <= i < WINDOW ==> view[i] == EntryAt(m, gate, proofEnd - WINDOW + i)
  {
    seq(WINDOW, i requires 0 <= i < WINDOW => EntryAt(m, gate, proofEnd - WINDOW + i))
  }

  /** Running sums over a window, in chronological order. */
  datatype Tally = Tally(presentSeconds: nat, latestPrice: real, totalVolume: real, maximumVolume: real,
                         dollarVolume: real, a60: real, a5: real, a60Available: bool, a5Available: bool,
                         liveATS: bool, historicalATS: bool)

  const NoTally := Tally(0, 0.0, 0.0, 0.0, 0.0, 0.0, 0.0, true, true, false, false)

  predicate InShortWindow(slot: int) {
    slot >= WINDOW - SHORT_WINDOW
  }

  /** One more second. */
  function TallyOne(t: Tally, slot: int, entry: Entry): Tally {
    if !entry.active || entry.bar.None? then t
    else
      var bar := entry.bar.value;
      var u := t.(presentSeconds := t.presentSeconds + 1, latestPrice := bar.close,
                  liveATS := t.liveATS || bar.provenance.LiveProviderAverage?,
                  historicalATS := t.historicalATS || bar.provenance.RestFloorVolumeOverTrades?,
                  totalVolume := t.totalVolume + bar.volume,
                  dollarVolume := t.dollarVolume + bar.volume * bar.vwap,
                  maximumVolume := if bar.volume > t.maximumVolume then bar.volume else t.maximumVolume);
      if bar.averageTradeSize <= 0 then
        u.(a60Available := false, a5Available := u.a5Available && !InShortWindow(slot))
      else
        var activity := bar.volume / (bar.averageTradeSize as real);
        u.(a60 := u.a60 + activity, a5 := if InShortWindow(slot) then u.a5 + activity else u.a5)
  }

  function TallyOf(view: seq<Entry>): Tally {
    if view == [] then NoTally else TallyOne(TallyOf(view[..|view| - 1]), |view| - 1, view[|view| - 1])
  }

  predicate Present(e: Entry) {
    e.active && e.bar.Some?
  }

  /** The run of absent seconds at the end of a stretch, and the longest run in it. */
  function CurrentGap(view: seq<Entry>): nat {
    if view == [] || Present(view[|view| - 1]) then 0 else CurrentGap(view[..|view| - 1]) + 1
  }

  function LongestGap(view: seq<Entry>): nat {
    if view == [] then 0
    else
      var before, current := LongestGap(view[..|view| - 1]), CurrentGap(view);
      if current > before then current else before
  }

  /** The facts the gate is decided on. */
  datatype Facts = Facts(tally: Tally, longestGap: nat, concentration: real, valid: bool)

  const NoFacts := Facts(NoTally.(a60Available := false, a5Available := false), 0, 0.0, false)

  function Conclude(t: Tally, gap: nat): Facts {
    if t.totalVolume <= 0.0 then Facts(t, gap, 0.0, false)
    else Facts(t, gap, t.maximumVolume / t.totalVolume, true)
  }

  /** A window's facts, from its seconds alone. */
  function FactsOf(view: seq<Entry>): Facts {
    Conclude(TallyOf(view), LongestGap(view))
  }

  predicate Passes(f: Facts) {
    && f.valid && f.tally.latestPrice >= 0.25 && f.tally.presentSeconds >= MINIMUM_SECONDS
    && f.longestGap <= MAXIMUM_GAP && f.tally.a60Available && f.tally.a60 >= 1000.0
    && f.tally.dollarVolume >= 250000.0 && f.tally.a5Available && f.tally.a5 >= 100.0
    && f.concentration <= 0.50
  }

  /** Exact coverage of the part of an interval inside the session. */
  predicate Trustworthy(m: Market, start: int, end: int) {
    forall at :: start <= at < end && m.InSession(at) ==>
      at !in m.conflict && (at in m.tail || at in m.presence || at in m.provenAbsent)
  }

  /** A proof end passes: its window is exactly covered and its facts pass the gate. */
  ghost predicate Passing(m: Market, gate: map<int, GateBar>, proofEnd: int) {
    Trustworthy(m, proofEnd - WINDOW, proofEnd) && Passes(FactsOf(ViewAt(m, gate, proofEnd)))
  }

  /** Every compact bar is of a second that is folded, in conflict or still in the tail. */
  ghost predicate GateBarsFolded(m: Market, gate: map<int, GateBar>) {
    forall at :: at in gate ==> at in m.presence || at in m.conflict || at in m.tail
  }

  /** Two sets of compact bars that give every second from a boundary on the same bar. */
  ghost predicate SameBarsFrom(m: Market, a: map<int, GateBar>, b: map<int, GateBar>, from: int) {
    forall at :: at >= from ==> BarAt(m, a, at) == BarAt(m, b, at)
  }

  /** A window that starts at the boundary or later cannot tell them apart. */
  lemma PassingAgrees(m: Market, a: map<int, GateBar>, b: map<int, GateBar>, from: int, proofEnd: int)
    requires SameBarsFrom(m, a, b, from) && proofEnd - WINDOW >= from
    ensures Passing(m, a, proofEnd) <==> Passing(m, b, proofEnd)
  {
    forall i | 0 <= i < WINDOW ensures ViewAt(m, a, proofEnd)[i] == ViewAt(m, b, proofEnd)[i] {
      assert BarAt(m, a, proofEnd - WINDOW + i) == BarAt(m, b, proofEnd - WINDOW + i);
    }
    assert ViewAt(m, a, proofEnd) == ViewAt(m, b, proofEnd);
  }

  // ------------------------------------------------------------------------------------------- what the facts mean

  /** A run of seconds without a bar. */
  ghost predicate GapAt(view: seq<Entry>, i: int, j: int) {
    0 <= i <= j <= |view| && forall k :: i <= k < j ==> !Present(view[k])
  }

  lemma GapInit(view: seq<Entry>, i: int, j: int)
    requires view != [] && 0 <= i <= j < |view|
    ensures GapAt(view[..|view| - 1], i, j) <==> GapAt(view, i, j)
  {
    var init := view[..|view| - 1];
    assert forall k :: 0 <= k < |init| ==> init[k] == view[k];
  }

  /** The current gap is the longest run that ends the stretch. */
  lemma {:induction false} CurrentGapMeans(view: seq<Entry>)
    ensures CurrentGap(view) <= |view| && GapAt(view, |view| - CurrentGap(view), |view|)
    ensures forall i :: GapAt(view, i, |view|) ==> |view| - i <= CurrentGap(view)
    decreases |view|
  {
    if view != [] && !Present(view[|view| - 1]) {
      var init := view[..|view| - 1];
      CurrentGapMeans(init);
      GapInit(view, |init| - CurrentGap(init), |init|);
      forall i | GapAt(view, i, |view|) ensures |view| - i <= CurrentGap(view) {
        if i < |view| { GapInit(view, i, |init|); }
      }
    }
  }

  /** The longest gap is exactly the longest run of seconds without a bar. */
  lemma {:induction false} LongestGapMeans(view: seq<Entry>) returns (at: nat)
    ensures GapAt(view, at, at + LongestGap(view))
    ensures forall i, j :: GapAt(view, i, j) ==> j - i <= LongestGap(view)
    decreases |view|
  {
    if view == [] {
      at := 0;
    } else {
      var init := view[..|view| - 1];
      at := LongestGapMeans(init);
      CurrentGapMeans(view);
      forall i, j | GapAt(view, i, j) ensures j - i <= LongestGap(view) {
        if j < |view| { GapInit(view, i, j); }
      }
      if CurrentGap(view) > LongestGap(init) {
        at := |view| - CurrentGap(view);
      } else {
        GapInit(view, at, at + LongestGap(init));
      }
    }
  }

  /** How many seconds of a window are of one kind. */
  datatype Kind = ActiveKind | CoveredKind | PresentKind | UnavailableKind

  predicate Is(kind: Kind, e: Entry) {
    match kind
    case ActiveKind => e.active
    case CoveredKind => e.covered
    case PresentKind => e.bar.Some?
    case UnavailableKind => e.bar.Some? && e.bar.value.averageTradeSize <= 0
  }

  function Count(view: seq<Entry>, kind: Kind): nat {
    if view == [] then 0
    else Count(view[..|view| - 1], kind) + (if Is(kind, view[|view| - 1]) then 1 else 0)
  }

  /** A bar is only ever seen inside the session, and what is covered is active. */
  ghost predicate WellFormed(view: seq<Entry>) {
    forall i :: 0 <= i < |view| ==> (view[i].bar.Some? ==> view[i].active) && (view[i].covered ==> view[i].active)
  }

  /** The tally counts the present seconds, and its activity is available exactly when every present bar has a size. */
  lemma {:induction false} TallyCounts(view: seq<Entry>)
    requires WellFormed(view)
    ensures TallyOf(view).presentSeconds == Count(view, PresentKind)
    ensures TallyOf(view).a60Available <==> Count(view, UnavailableKind) == 0
    decreases |view|
  {
    if view != [] { TallyCounts(view[..|view| - 1]); }
  }

  /** The quick test is necessary: a window with too few bars, or a bar without a size, cannot pass. */
  lemma CanPossiblyPassNecessary(view: seq<Entry>)
    requires WellFormed(view) && Passes(FactsOf(view))
    ensures Count(view, PresentKind) >= MINIMUM_SECONDS && Count(view, UnavailableKind) == 0
  {
    TallyCounts(view);
  }

  lemma {:induction false} AllActiveCovered(view: seq<Entry>)
    requires WellFormed(view)
    ensures Count(view, CoveredKind) <= Count(view, ActiveKind)
    ensures Count(view, CoveredKind) == Count(view, ActiveKind)
       <==> forall i :: 0 <= i < |view| ==> (view[i].active ==> view[i].covered)
    decreases |view|
  {
    if view != [] {
      var init := view[..|view| - 1];
      AllActiveCovered(init);
      assert forall i :: 0 <= i < |init| ==> init[i] == view[i];
    }
  }

  /** The window's covered-equals-active test is exact coverage of its interval. */
  lemma CoveredIsTrustworthy(m: Market, gate: map<int, GateBar>, proofEnd: int)
    requires GateBarsFolded(m, gate)
    ensures var view := ViewAt(m, gate, proofEnd);
            Count(view, CoveredKind) == Count(view, ActiveKind) <==> Trustworthy(m, proofEnd - WINDOW, proofEnd)
  {
    var view := ViewAt(m, gate, proofEnd);
    AllActiveCovered(view);
    if Trustworthy(m, proofEnd - WINDOW, proofEnd) {
    } else {
      var at :| proofEnd - WINDOW <= at < proofEnd && m.InSession(at)
                && !(at !in m.conflict && (at in m.tail || at in m.presence || at in m.provenAbsent));
      assert !view[at - proofEnd + WINDOW].covered;
    }
  }

  /** Markets and compact bars that agree on every second but one. */
  ghost predicate SameBut(m: Market, gate: map<int, GateBar>, n: Market, other: map<int, GateBar>, w: int) {
    && m.sessionStart == n.sessionStart
    && forall at :: at != w ==>
         && BarAt(m, gate, at) == BarAt(n, other, at)
         && (at in m.tail || at in m.presence <==> at in n.tail || at in n.presence)
         && (at in m.provenAbsent <==> at in n.provenAbsent) && (at in m.conflict <==> at in n.conflict)
  }

  /** A change at one second can only change proof ends of the sixty windows that hold it. */
  lemma ChangeIsLocal(m: Market, gate: map<int, GateBar>, n: Market, other: map<int, GateBar>, w: int, proofEnd: int)
    requires SameBut(m, gate, n, other, w) && !(w + 1 <= proofEnd <= w + WINDOW)
    ensures Passing(m, gate, proofEnd) <==> Passing(n, other, proofEnd)
  {
    var a, b := ViewAt(m, gate, proofEnd), ViewAt(n, other, proofEnd);
    forall i | 0 <= i < WINDOW ensures a[i] == b[i] {
      var at := proofEnd - WINDOW + i;
      assert at != w;
    }
    assert a == b;
  }

  /** A window's bars are distinct bars of the state. */
  lemma {:induction false} PresentAtMost(m: Market, gate: map<int, GateBar>, proofEnd: int, n: nat, bars: set<int>)
    requires n <= WINDOW
    requires forall i :: 0 <= i < n && ViewAt(m, gate, proofEnd)[i].bar.Some? ==> proofEnd - WINDOW + i in bars
    ensures Count(ViewAt(m, gate, proofEnd)[..n], PresentKind) <= |bars|
  {
    if n > 0 {
      var view := ViewAt(m, gate, proofEnd);
      assert view[..n][..n - 1] == view[..n - 1];
      var at := proofEnd - WINDOW + n - 1;
      if view[n - 1].bar.Some? {
        PresentAtMost(m, gate, proofEnd, n - 1, bars - {at});
      } else {
        PresentAtMost(m, gate, proofEnd, n - 1, bars);
      }
    }
  }

  /** With fewer than 45 bars in all no window passes the gate. */
  lemma FewBarsFail(m: Market, gate: map<int, GateBar>)
    requires |m.tail| + |gate| < MINIMUM_SECONDS
    ensures forall p :: !Passes(FactsOf(ViewAt(m, gate, p)))
  {
    forall p ensures !Passes(FactsOf(ViewAt(m, gate, p))) {
      var view := ViewAt(m, gate, p);
      PresentAtMost(m, gate, p, WINDOW, m.tail.Keys + gate.Keys);
      assert view[..WINDOW] == view;
      assert WellFormed(view);
      if Passes(FactsOf(view)) { CanPossiblyPassNecessary(view); }
    }
  }
}
