/** The rolling 60-second window and the from-scratch calculation, as loops; both compute the same facts. */
module ProofWindows {
  import opened Options
  import opened QualificationGate

  /** Counting one entry out at the front and one in at the back. */
  lemma {:induction false} CountShift(view: seq<Entry>, e: Entry, kind: Kind)
    requires view != []
    ensures Count(view[1..] + [e], kind)
         == Count(view, kind) - (if Is(kind, view[0]) then 1 else 0) + (if Is(kind, e) then 1 else 0)
    decreases |view|
  {
    assert (view[1..] + [e])[..|view| - 1] == view[1..];
    CountTail(view, kind);
  }

  lemma {:induction false} CountTail(view: seq<Entry>, kind: Kind)
    requires view != []
    ensures Count(view[1..], kind) == Count(view, kind) - (if Is(kind, view[0]) then 1 else 0)
    decreases |view|
  {
    if |view| == 1 {
      assert view[..0] == [];
    } else {
      var init := view[..|view| - 1];
      assert view[1..][..|view| - 2] == init[1..];
      CountTail(init, kind);
    }
  }

  lemma CountNone(view: seq<Entry>, kind: Kind)
    requires view == []
    ensures Count(view, kind) == 0
  {}

  lemma CountAppend(view: seq<Entry>, e: Entry, kind: Kind)
    ensures Count(view + [e], kind) == Count(view, kind) + (if Is(kind, e) then 1 else 0)
  {
    assert (view + [e])[..|view|] == view;
  }

  lemma CountOneMore(view: seq<Entry>, i: nat, kind: Kind)
    requires i < |view|
    ensures Count(view[..i + 1], kind) == Count(view[..i], kind) + (if Is(kind, view[i]) then 1 else 0)
  {
    assert view[..i + 1] == view[..i] + [view[i]];
    CountAppend(view[..i], view[i], kind);
  }

  /** A running longest gap, one second at a time. */
  method LongestQualificationGap(present: seq<bool>, ghost view: seq<Entry>) returns (longest: nat)
    requires |present| == |view| && forall i :: 0 <= i < |view| ==> present[i] == Present(view[i])
    ensures longest == LongestGap(view)
  {
    var current := 0;
    longest := 0;
    assert view[..0] == [];
    for slot := 0 to |present|
      invariant current == CurrentGap(view[..slot]) && longest == LongestGap(view[..slot])
    {
      assert view[..slot + 1][..slot] == view[..slot];
      if present[slot] {
        current := 0;
      } else {
        current := current + 1;
        if current > longest {
          longest := current;
        }
      }
    }
    assert view[..|present|] == view;
  }

  /** Adds one second to the running sums, branch by branch. */
  method AddSecond(t: Tally, slot: nat, entry: Entry) returns (u: Tally)
    ensures u == TallyOne(t, slot, entry)
  {
    u := t;
    if !entry.active || entry.bar.None? {
      return;
    }
    var bar := entry.bar.value;
    u := u.(presentSeconds := u.presentSeconds + 1, latestPrice := bar.close);
    u := u.(liveATS := u.liveATS || bar.provenance == LiveProviderAverage);
    u := u.(historicalATS := u.historicalATS || bar.provenance == RestFloorVolumeOverTrades);
    u := u.(totalVolume := u.totalVolume + bar.volume, dollarVolume := u.dollarVolume + bar.volume * bar.vwap);
    if bar.volume > u.maximumVolume {
      u := u.(maximumVolume := bar.volume);
    }
    if bar.averageTradeSize <= 0 {
      u := u.(a60Available := false);
      if InShortWindow(slot) {
        u := u.(a5Available := false);
      }
      return;
    }
    var activity := bar.volume / (bar.averageTradeSize as real);
    u := u.(a60 := u.a60 + activity);
    if InShortWindow(slot) {
      u := u.(a5 := u.a5 + activity);
    }
  }

  method ConcludeFacts(t: Tally, gap: nat) returns (facts: Facts)
    ensures facts == Conclude(t, gap)
  {
    if t.totalVolume <= 0.0 {
      return Facts(t, gap, 0.0, false);
    }
    facts := Facts(t, gap, t.maximumVolume / t.totalVolume, true);
  }

  /** The bar of one second, if the session has the second and the state has the bar. */
  method LoadSecond(m: Market, gate: map<int, GateBar>, start: int) returns (second: Entry)
    ensures second == EntryAt(m, gate, start).(covered := false)
  {
    if !m.InSession(start) {
      return Entry(None, false, false);
    }
    second := Entry(BarAt(m, gate, start), true, false);
  }

  /** The sums do not look at coverage. */
  lemma TallyIgnoresCoverage(t: Tally, slot: nat, entry: Entry)
    ensures TallyOne(t, slot, entry.(covered := false)) == TallyOne(t, slot, entry)
  {}

  /** The facts of one window, second by second from the canonical state. */
  method CalculateGateFacts(m: Market, gate: map<int, GateBar>, proofEnd: int) returns (facts: Facts)
    ensures facts == FactsOf(ViewAt(m, gate, proofEnd))
  {
    ghost var view := ViewAt(m, gate, proofEnd);
    var present: seq<bool> := [];
    var t := NoTally;
    for slot := 0 to WINDOW
      invariant |present| == slot && forall i :: 0 <= i < slot ==> present[i] == Present(view[i])
      invariant t == TallyOf(view[..slot])
    {
      assert view[..slot + 1][..slot] == view[..slot];
      var second := LoadSecond(m, gate, proofEnd - WINDOW + slot);
      TallyIgnoresCoverage(t, slot, view[slot]);
      present := present + [second.bar.Some?];
      t := AddSecond(t, slot, second);
    }
    assert view[..WINDOW] == view;
    var gap := LongestQualificationGap(present, view);
    facts := ConcludeFacts(t, gap);
  }

  class ProofWindow {
    const entries: array<Entry>
    var head: nat
    var active: int
    var covered: int
    var present: int
    var unavailableATS: int

    /** The window's seconds, oldest first. */
    ghost var view: seq<Entry>

    ghost predicate Shape()
      reads this
    {
      entries.Length == WINDOW && head < WINDOW && |view| == WINDOW
    }

    function Slot(i: nat): (slot: nat)
      reads this
      requires Shape() && i < WINDOW
      ensures slot < WINDOW
    {
      if head + i < WINDOW then head + i else head + i - WINDOW
    }

    ghost predicate Counted()
      reads this
    {
      && active == Count(view, ActiveKind) && covered == Count(view, CoveredKind)
      && present == Count(view, PresentKind) && unavailableATS == Count(view, UnavailableKind)
    }

    ghost predicate Ring()
      reads this, entries
    {
      Shape() && forall i :: 0 <= i < WINDOW ==> entries[Slot(i)] == view[i]
    }

    ghost predicate Valid()
      reads this, entries
    {
      Ring() && Counted()
    }

    /** Puts a second in the oldest one's place and turns the ring. */
    method Turn(next: Entry)
      requires Ring()
      modifies this`head, this`view, entries
      ensures Ring() && view == old(view)[1..] + [next]
    {
      entries[head] := next;
      head := if head + 1 == WINDOW then 0 else head + 1;
      view := view[1..] + [next];
    }
  
    method Add(entry: Entry)
      modifies this`active, this`covered, this`present, this`unavailableATS
      ensures active == old(active) + (if Is(ActiveKind, entry) then 1 else 0)
      ensures covered == old(covered) + (if Is(CoveredKind, entry) then 1 else 0)
      ensures present == old(present) + (if Is(PresentKind, entry) then 1 else 0)
      ensures unavailableATS == old(unavailableATS) + (if Is(UnavailableKind, entry) then 1 else 0)
    {
      if entry.active { active := active + 1; }
      if entry.covered { covered := covered + 1; }
      if entry.bar.Some? {
        present := present + 1;
        if entry.bar.value.averageTradeSize <= 0 { unavailableATS := unavailableATS + 1; }
      }
    }

    method Remove(entry: Entry)
      modifies this`active, this`covered, this`present, this`unavailableATS
      ensures active == old(active) - (if Is(ActiveKind, entry) then 1 else 0)
      ensures covered == old(covered) - (if Is(CoveredKind, entry) then 1 else 0)
      ensures present == old(present) - (if Is(PresentKind, entry) then 1 else 0)
      ensures unavailableATS == old(unavailableATS) - (if Is(UnavailableKind, entry) then 1 else 0)
    {
      if entry.active { active := active - 1; }
      if entry.covered { covered := covered - 1; }
      if entry.bar.Some? {
        present := present - 1;
        if entry.bar.value.averageTradeSize <= 0 { unavailableATS := unavailableATS - 1; }
      }
    }

    /** Fills the window that ends at a proof end. */
    constructor (m: Market, gate: map<int, GateBar>, proofEnd: int)
      ensures Valid() && fresh(entries) && view == ViewAt(m, gate, proofEnd)
    {
      entries := new Entry[WINDOW](_ => Entry(None, false, false));
      head, active, covered, present, unavailableATS := 0, 0, 0, 0, 0;
      new;
      hide EntryAt, Count, Is, ViewAt;
      ghost var target := ViewAt(m, gate, proofEnd);
      forall kind: Kind ensures Count(target[..0], kind) == 0 { CountNone(target[..0], kind); }
      var slot := 0;
      while slot < WINDOW
        invariant slot <= WINDOW && entries.Length == WINDOW && head == 0
        invariant forall i :: 0 <= i < slot ==> entries[i] == target[i]
        invariant active == Count(target[..slot], ActiveKind) && covered == Count(target[..slot], CoveredKind)
        invariant present == Count(target[..slot], PresentKind)
        invariant unavailableATS == Count(target[..slot], UnavailableKind)
      {
        CountOneMore(target, slot, ActiveKind);
        CountOneMore(target, slot, CoveredKind);
        CountOneMore(target, slot, PresentKind);
        CountOneMore(target, slot, UnavailableKind);
        entries[slot] := EntryAt(m, gate, proofEnd - WINDOW + slot);
        Add(entries[slot]);
        slot := slot + 1;
      }
      view := target;
      assert target[..WINDOW] == target;
    }

    /** Drops the oldest second and takes the next one in its place. */
    method Advance(m: Market, gate: map<int, GateBar>, priorProofEnd: int)
      requires Valid()
      modifies this, entries
      ensures Valid() && view == old(view)[1..] + [EntryAt(m, gate, priorProofEnd)]
    {
      var next := EntryAt(m, gate, priorProofEnd);
      CountShift(view, next, ActiveKind);
      CountShift(view, next, CoveredKind);
      CountShift(view, next, PresentKind);
      CountShift(view, next, UnavailableKind);
      assert entries[Slot(0)] == view[0];
      Remove(entries[head]);
      Add(next);
      Turn(next);
    }

    predicate CoverageTrustworthy()
      reads this
    {
      covered == active
    }

    predicate CanPossiblyPass()
      reads this
    {
      present >= MINIMUM_SECONDS && unavailableATS == 0
    }

    /** The facts of the window as it stands. */
    method CurrentFacts() returns (facts: Facts)
      requires Valid()
      ensures facts == FactsOf(view)
    {
      var seconds: seq<bool> := [];
      var t := NoTally;
      for slot := 0 to WINDOW
        invariant |seconds| == slot && forall i :: 0 <= i < slot ==> seconds[i] == Present(view[i])
        invariant t == TallyOf(view[..slot])
      {
        assert view[..slot + 1][..slot] == view[..slot];
        var entry := entries[Slot(slot)];
        seconds := seconds + [entry.active && entry.bar.Some?];
        t := AddSecond(t, slot, entry);
      }
      assert view[..WINDOW] == view;
      var gap := LongestQualificationGap(seconds, view);
      facts := ConcludeFacts(t, gap);
    }

    /** The quick verdict: facts are computed only when the counters allow a pass, and the verdict is the same. */
    method Verdict() returns (passing: bool)
      requires Valid() && WellFormed(view)
      ensures passing <==> ViewPasses(view)
    {
      if Passes(FactsOf(view)) { CanPossiblyPassNecessary(view); }
      if !CoverageTrustworthy() || !CanPossiblyPass() {
        return false;
      }
      var facts := CurrentFacts();
      passing := Passes(facts);
    }
  }

  /** A window's verdict from its seconds: every active one covered, and the facts pass. */
  ghost predicate ViewPasses(view: seq<Entry>) {
    Count(view, CoveredKind) == Count(view, ActiveKind) && Passes(FactsOf(view))
  }

  /** Ring refines recomputation: the rolling window's verdict at a proof end is the from-scratch one. */
  lemma VerdictIsPassing(m: Market, gate: map<int, GateBar>, proofEnd: int)
    requires GateBarsFolded(m, gate)
    ensures WellFormed(ViewAt(m, gate, proofEnd))
    ensures ViewPasses(ViewAt(m, gate, proofEnd)) <==> Passing(m, gate, proofEnd)
  {
    CoveredIsTrustworthy(m, gate, proofEnd);
  }

  /** Over an unchanging state, advancing is moving the window one second on. */
  lemma AdvanceMovesOn(m: Market, gate: map<int, GateBar>, proofEnd: int)
    ensures ViewAt(m, gate, proofEnd)[1..] + [EntryAt(m, gate, proofEnd)] == ViewAt(m, gate, proofEnd + 1)
  {
    var moved, next := ViewAt(m, gate, proofEnd)[1..] + [EntryAt(m, gate, proofEnd)], ViewAt(m, gate, proofEnd + 1);
    forall i | 0 <= i < WINDOW ensures moved[i] == next[i] {
      if i < WINDOW - 1 { assert moved[i] == ViewAt(m, gate, proofEnd)[i + 1]; }
    }
  }
}
