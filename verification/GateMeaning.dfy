/** What the qualification gate decides, told over a window's seconds alone: sums over the present ones, the last close,
    the gaps between them, and no second that carries more than half of the window's volume. */
module GateMeaning {
  import opened Options
  import opened SessionUnits
  import opened QualificationGate

  datatype Measure = Volume | Dollars | Activity

  /** What one bar weighs. */
  function Weight(k: Measure, bar: GateBar): real {
    match k
    case Volume => bar.volume
    case Dollars => bar.volume * bar.vwap
    case Activity => if bar.averageTradeSize <= 0 then 0.0 else bar.volume / (bar.averageTradeSize as real)
  }

  /** The weights of the present seconds of a window from a slot on, put together. */
  function Sum(k: Measure, view: seq<Entry>, from: nat): real {
    if |view| <= from then 0.0
    else
      var last := view[|view| - 1];
      Sum(k, view[..|view| - 1], from) + if last.active && last.bar.Some? then Weight(k, last.bar.value) else 0.0
  }

  /** A second of the window that holds a bar. */
  predicate Held(view: seq<Entry>, i: int) {
    0 <= i < |view| && view[i].active && view[i].bar.Some?
  }

  ghost predicate Sized(view: seq<Entry>, from: int) {
    forall i :: from <= i && Held(view, i) ==> view[i].bar.value.averageTradeSize > 0
  }

  ghost predicate VolumesFit(view: seq<Entry>) {
    forall i :: Held(view, i) ==> view[i].bar.value.volume >= 0.0
  }

  /** The second with the window's last bar. */
  ghost predicate LastHeld(view: seq<Entry>, i: int) {
    Held(view, i) && forall j :: Held(view, j) ==> j <= i
  }

  lemma HeldPrefix(view: seq<Entry>, i: int)
    requires view != [] && i < |view| - 1
    ensures Held(view[..|view| - 1], i) <==> Held(view, i)
    ensures Held(view, i) ==> view[..|view| - 1][i] == view[i]
  {}

  /** The sums are those of the present seconds: volume, volume times price, and activity over all and over the last
      five seconds. */
  lemma {:induction false} SumsMean(view: seq<Entry>)
    ensures var t := TallyOf(view);
            && t.totalVolume == Sum(Volume, view, 0) && t.dollarVolume == Sum(Dollars, view, 0)
            && t.a60 == Sum(Activity, view, 0) && t.a5 == Sum(Activity, view, 55)
    decreases |view|
  {
    if view != [] { SumsMean(view[..|view| - 1]); }
  }

  /** The activities are available exactly when every bar of theirs has a trade size. */
  lemma {:induction false} SizesMean(view: seq<Entry>)
    ensures TallyOf(view).a60Available <==> Sized(view, 0)
    ensures TallyOf(view).a5Available <==> Sized(view, 55)
    decreases |view|
  {
    if view != [] {
      var init, n := view[..|view| - 1], |view| - 1;
      SizesMean(init);
      forall i | i < n ensures Held(init, i) <==> Held(view, i) { HeldPrefix(view, i); }
      assert forall i :: Held(view, i) && i < n ==> Held(init, i) && init[i] == view[i];
      if !Sized(init, 0) {
        var i :| 0 <= i && Held(init, i) && init[i].bar.value.averageTradeSize <= 0;
        assert Held(view, i) && view[i] == init[i];
      }
      if !Sized(init, 55) {
        var i :| 55 <= i && Held(init, i) && init[i].bar.value.averageTradeSize <= 0;
        assert Held(view, i) && view[i] == init[i];
      }
      if Held(view, n) { assert view[n] == view[|view| - 1]; }
    }
  }

  /** Where the averages came from: each flag says that some bar has it. */
  lemma {:induction false} ProvenanceMeans(view: seq<Entry>)
    ensures TallyOf(view).liveATS <==> exists i :: Held(view, i) && view[i].bar.value.provenance == LiveProviderAverage
    ensures TallyOf(view).historicalATS
       <==> exists i :: Held(view, i) && view[i].bar.value.provenance == RestFloorVolumeOverTrades
    decreases |view|
  {
    if view != [] {
      var init, n := view[..|view| - 1], |view| - 1;
      ProvenanceMeans(init);
      forall i | i < n ensures Held(init, i) <==> Held(view, i) { HeldPrefix(view, i); }
      assert forall i :: Held(view, i) && i < n ==> Held(init, i) && init[i] == view[i];
      assert forall i :: Held(init, i) ==> Held(view, i) && init[i] == view[i];
      if Held(view, n) { assert view[n] == view[|view| - 1]; }
    }
  }

  /** The price is the last bar's close. */
  lemma {:induction false} PriceMeans(view: seq<Entry>, last: int)
    requires LastHeld(view, last)
    ensures TallyOf(view).latestPrice == view[last].bar.value.close
    decreases |view|
  {
    var n := |view| - 1;
    if last < n {
      assert !Held(view, n);
      HeldPrefix(view, last);
      forall j | Held(view[..n], j) ensures j <= last { HeldPrefix(view, j); }
      PriceMeans(view[..n], last);
    }
  }

  /** The greatest volume bounds every bar's and is some bar's. */
  lemma {:induction false} LargestMeans(view: seq<Entry>)
    requires VolumesFit(view)
    ensures var largest := TallyOf(view).maximumVolume;
            && largest >= 0.0 && (forall i :: Held(view, i) ==> view[i].bar.value.volume <= largest)
            && (largest > 0.0 ==> exists i :: Held(view, i) && view[i].bar.value.volume == largest)
    decreases |view|
  {
    if view != [] {
      var init, n := view[..|view| - 1], |view| - 1;
      forall i | i < n ensures Held(init, i) <==> Held(view, i) { HeldPrefix(view, i); }
      assert forall i :: Held(init, i) ==> Held(view, i) && init[i] == view[i];
      LargestMeans(init);
      if i :| Held(init, i) && init[i].bar.value.volume == TallyOf(init).maximumVolume {
        assert Held(view, i) && view[i] == init[i];
      }
      if Held(view, n) { assert view[n] == view[|view| - 1]; }
    }
  }

  lemma {:induction false} CountHeld(view: seq<Entry>)
    ensures TallyOf(view).presentSeconds == |HeldSeconds(view)|
    decreases |view|
  {
    if view != [] {
      var init, n := view[..|view| - 1], |view| - 1;
      CountHeld(init);
      var before, after := HeldSeconds(init), HeldSeconds(view);
      forall i | i < n ensures Held(init, i) <==> Held(view, i) { HeldPrefix(view, i); }
      assert after == if Held(view, n) then before + {n} else before;
    }
  }

  function HeldSeconds(view: seq<Entry>): set<int> {
    set i | 0 <= i < |view| && Held(view, i)
  }

  lemma LastExists(view: seq<Entry>, n: nat) returns (last: int)
    requires n <= |view| && exists i :: i < n && Held(view, i)
    requires forall i :: n <= i ==> !Held(view, i)
    ensures LastHeld(view, last)
    decreases n
  {
    if Held(view, n - 1) {
      last := n - 1;
    } else {
      last := LastExists(view, n - 1);
    }
  }

  /** The price condition, seen from the last bar. */
  ghost predicate PricedAtLeast(view: seq<Entry>, price: real) {
    exists last :: LastHeld(view, last) && view[last].bar.value.close >= price
  }

  /** No bar carries more than half of the window's volume. */
  ghost predicate NoneDominates(view: seq<Entry>) {
    forall i :: Held(view, i) ==> 2.0 * view[i].bar.value.volume <= Sum(Volume, view, 0)
  }

  ghost predicate GapsWithin(view: seq<Entry>, seconds: int) {
    forall i, j :: GapAt(view, i, j) ==> j - i <= seconds
  }

  lemma PricedMeans(view: seq<Entry>, price: real)
    requires price > 0.0
    ensures TallyOf(view).latestPrice >= price <==> PricedAtLeast(view, price)
  {
    if exists i :: Held(view, i) {
      var last := LastExists(view, |view|);
      PriceMeans(view, last);
      forall other | LastHeld(view, other) ensures other == last {}
    } else {
      NoneHeld(view);
    }
  }

  lemma {:induction false} NoneHeld(view: seq<Entry>)
    requires forall i :: !Held(view, i)
    ensures TallyOf(view) == NoTally
    decreases |view|
  {
    if view != [] {
      var n := |view| - 1;
      forall i ensures !Held(view[..n], i) { if i < n { HeldPrefix(view, i); } }
      NoneHeld(view[..n]);
      assert !Held(view, n);
    }
  }

  lemma DominanceMeans(view: seq<Entry>)
    requires VolumesFit(view) && Sum(Volume, view, 0) > 0.0
    ensures FactsOf(view).valid && (FactsOf(view).concentration <= 0.50 <==> NoneDominates(view))
  {
    SumsMean(view);
    LargestMeans(view);
    var largest, total := TallyOf(view).maximumVolume, Sum(Volume, view, 0);
    Halved(largest, total);
  }

  lemma Halved(largest: real, total: real)
    requires total > 0.0
    ensures largest / total <= 0.50 <==> 2.0 * largest <= total
  {}

  lemma GapsMean(view: seq<Entry>, seconds: int)
    ensures LongestGap(view) <= seconds <==> GapsWithin(view, seconds)
  {
    var at := LongestGapMeans(view);
  }

  /** A window passes if and only if it traded, its last close is at least a quarter, at least 45 of its seconds hold a
      bar and no more than three in a row hold none, every bar has a trade size, activity and dollars reach their
      thresholds over the minute and over its last five seconds, and no second carries more than half of the volume. */
  lemma GatePasses(view: seq<Entry>)
    requires |view| == WINDOW && VolumesFit(view)
    ensures Passes(FactsOf(view))
       <==> && Sum(Volume, view, 0) > 0.0 && PricedAtLeast(view, 0.25) && |HeldSeconds(view)| >= 45
            && GapsWithin(view, 3) && Sized(view, 0) && Sum(Activity, view, 0) >= 1000.0
            && Sum(Dollars, view, 0) >= 250000.0 && Sum(Activity, view, 55) >= 100.0 && NoneDominates(view)
  {
    hide TallyOf, LongestGap, Sum, PricedAtLeast, GapsWithin, NoneDominates, HeldSeconds, VolumesFit;
    SumsMean(view);
    SizesMean(view);
    PricedMeans(view, 0.25);
    CountHeld(view);
    GapsMean(view, 3);
    if Sum(Volume, view, 0) > 0.0 { DominanceMeans(view); }
  }

  /** A proof end passes if and only if every second of its window inside the session is known and the window's bars
      pass the gate. */
  lemma PassingMeans(m: Market, gate: map<int, GateBar>, proofEnd: int)
    requires forall at :: BarAt(m, gate, at).Some? ==> BarAt(m, gate, at).value.volume >= 0.0
    ensures Passing(m, gate, proofEnd)
       <==> && (forall at ::
                  proofEnd - 60 <= at < proofEnd && m.sessionStart <= at < m.sessionStart + SESSION_SECONDS ==>
                  at !in m.conflict && (at in m.tail || at in m.presence || at in m.provenAbsent))
            && Passes(FactsOf(ViewAt(m, gate, proofEnd)))
    ensures VolumesFit(ViewAt(m, gate, proofEnd))
    ensures forall i :: 0 <= i < WINDOW ==>
              var at := proofEnd - 60 + i;
              && (Held(ViewAt(m, gate, proofEnd), i) <==>
                    m.sessionStart <= at < m.sessionStart + SESSION_SECONDS && (at in m.tail || at in gate))
              && (Held(ViewAt(m, gate, proofEnd), i) ==>
                    ViewAt(m, gate, proofEnd)[i].bar.value == if at in m.tail then m.tail[at] else gate[at])
  {}
}
