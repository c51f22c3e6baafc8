/** One symbol's measurement state: the mutable tail, the folded evidence and scalars.  Folding a bar out of the tail
    leaves the bars themselves as they were, and every as-of answer is a function of those bars alone, so compaction
    changes no answer at any cutoff. */
module SessionFeatures {
  import opened Options
  import opened SessionUnits
  import opened Intervals
  import opened MeasurementPoints
  import opened RangeEvidence

  // ------------------------------------------------------------------------------------- answers over the plain map

  /** The first second of an interval that holds a bar. */
  function FirstIn(bars: map<int, Bar>, from: int, until: int): (first: Option<int>)
    ensures first.Some? ==> from <= first.value < until && first.value in bars
    ensures forall s :: from <= s < until && s in bars ==> first.Some? && first.value <= s
    decreases until - from
  {
    if until <= from then None
    else
      var before := FirstIn(bars, from, until - 1);
      if before.None? && until - 1 in bars then Some(until - 1) else before
  }

  ghost predicate Apart(a: map<int, Bar>, b: map<int, Bar>) {
    forall s :: s in a ==> s !in b
  }

  ghost predicate InSession(bars: map<int, Bar>, from: int) {
    forall s :: s in bars ==> from <= s < from + SESSION_SECONDS
  }

  lemma {:induction false} VolumeSplits(a: map<int, Bar>, b: map<int, Bar>, from: int, until: int)
    requires Apart(a, b)
    ensures VolumeIn(a + b, from, until) == VolumeIn(a, from, until) + VolumeIn(b, from, until)
    decreases until - from
  {
    if from < until { VolumeSplits(a, b, from, until - 1); }
  }

  lemma LastSplit(a: map<int, Bar>, b: map<int, Bar>, from: int, until: int)
    requires Apart(a, b)
    ensures var x, y, z := LastIn(a, from, until), LastIn(b, from, until), LastIn(a + b, from, until);
            z == if x.None? then y else if y.None? || y.value < x.value then x else y
  {}

  lemma JoinIs(x: Option<Range>, y: Option<Range>, a: map<int, Bar>, b: map<int, Bar>, from: int, until: int)
    requires Apart(a, b) && IsRange(x, a, from, until) && IsRange(y, b, from, until)
    ensures IsRange(Join(x, y), a + b, from, until)
  {
    if x.Some? && y.Some? {
      var i :| from <= i < until && i in a && a[i].low == x.value.low;
      var j :| from <= j < until && j in a && a[j].high == x.value.high;
      var k :| from <= k < until && k in b && b[k].low == y.value.low;
      var m :| from <= m < until && m in b && b[m].high == y.value.high;
      assert (a + b)[i].low == x.value.low && (a + b)[j].high == x.value.high;
      assert (a + b)[k].low == y.value.low && (a + b)[m].high == y.value.high;
    } else if y.Some? {
      var k :| from <= k < until && k in b && b[k].low == y.value.low;
      var m :| from <= m < until && m in b && b[m].high == y.value.high;
      assert (a + b)[k].low == y.value.low && (a + b)[m].high == y.value.high;
    } else if x.Some? {
      var i :| from <= i < until && i in a && a[i].low == x.value.low;
      var j :| from <= j < until && j in a && a[j].high == x.value.high;
      assert (a + b)[i].low == x.value.low && (a + b)[j].high == x.value.high;
    }
  }

  // --------------------------------------------------------------------------------------------- the folded scalars

  /** The open of the earliest folded bar. */
  ghost predicate FirstRight(first: Option<(int, real)>, folded: map<int, Bar>) {
    if first.None? then forall s :: s !in folded
    else first.value.0 in folded && folded[first.value.0].open == first.value.1
         && forall s :: s in folded ==> first.value.0 <= s
  }

  ghost predicate ExtremaRight(extrema: Option<Range>, folded: map<int, Bar>, from: int) {
    IsRange(extrema, folded, from, from + SESSION_SECONDS)
  }

  /** Everything folded ends by then, and nothing is waited for past the last of it. */
  ghost predicate ThroughRight(through: int, folded: map<int, Bar>) {
    && (forall s :: s in folded ==> s + 1 <= through)
    && (through == 0 || exists s :: s in folded && s + 1 == through)
  }

  lemma FoldThrough(through: int, folded: map<int, Bar>, start: int, bar: Bar)
    requires ThroughRight(through, folded)
    ensures ThroughRight(if start + 1 > through then start + 1 else through, folded[start := bar])
  {
    var more := folded[start := bar];
    if start + 1 > through {
      assert start in more;
    } else if through != 0 {
      var s :| s in folded && s + 1 == through;
      assert s in more;
    }
  }

  lemma FoldFirst(first: Option<(int, real)>, folded: map<int, Bar>, start: int, bar: Bar)
    requires FirstRight(first, folded) && start !in folded
    ensures FirstRight(if first.None? || start < first.value.0 then Some((start, bar.open)) else first,
                       folded[start := bar])
  {}

  lemma FoldExtrema(extrema: Option<Range>, folded: map<int, Bar>, from: int, start: int, bar: Bar)
    requires ExtremaRight(extrema, folded, from) && start !in folded && from <= start < from + SESSION_SECONDS
    requires bar.low <= bar.high
    ensures ExtremaRight(Widen(extrema, bar.low, bar.high), folded[start := bar], from)
  {
    var one := map[start := bar];
    assert IsRange(Some(Range(bar.low, bar.high)), one, from, from + SESSION_SECONDS) by {
      assert one[start].low == bar.low && one[start].high == bar.high;
    }
    JoinIs(extrema, Some(Range(bar.low, bar.high)), folded, one, from, from + SESSION_SECONDS);
    assert folded + one == folded[start := bar];
  }

  /** Once the cutoff has passed everything folded, the scalars answer for the cutoff. */
  lemma ScalarsAnswer(extrema: Option<Range>, folded: map<int, Bar>, from: int, through: int, at: int)
    requires InSession(folded, from) && ExtremaRight(extrema, folded, from) && ThroughRight(through, folded)
    requires through <= at
    ensures IsRange(extrema, folded, from, at)
  {
    assert forall s :: s in folded ==> from <= s < at;
  }

  lemma EvidenceInSession(points: seq<Extreme>, folded: map<int, Bar>, high: bool, from: int)
    requires EvidenceOf(points, folded, high) && InSession(folded, from)
    ensures |points| <= SESSION_SECONDS
  {
    if points != [] {
      assert forall i :: 0 <= i < |points| ==> points[i].start in folded;
      EvidenceFits(points, from);
    }
  }

  /** The volume, the last bar and the range of a map, from what its two parts say. */
  ghost predicate BarsValid(bars: map<int, Bar>) {
    forall s :: s in bars ==> bars[s].low <= bars[s].high
  }

  /** The folded bars and the tail: apart, inside the session, and each a proper bar. */
  ghost predicate MapsHold(folded: map<int, Bar>, tail: map<int, Bar>, from: int) {
    Apart(folded, tail) && InSession(folded, from) && InSession(tail, from) && BarsValid(folded) && BarsValid(tail)
  }

  lemma MoveKeepsBars(folded: map<int, Bar>, tail: map<int, Bar>, from: int, start: int)
    requires MapsHold(folded, tail, from) && start in tail
    ensures MapsHold(folded[start := tail[start]], tail - {start}, from)
    ensures folded[start := tail[start]] + (tail - {start}) == folded + tail
  {}

  lemma FoldAddsBar(folded: map<int, Bar>, tail: map<int, Bar>, from: int, start: int, bar: Bar)
    requires MapsHold(folded, tail, from) && start !in folded + tail && from <= start < from + SESSION_SECONDS
    requires bar.low <= bar.high
    ensures MapsHold(folded[start := bar], tail, from)
    ensures folded[start := bar] + tail == (folded + tail)[start := bar]
  {}

  class SessionFeatures {
    const sessionStart: int
    var tail: map<int, Bar>
    var foldedPoints: seq<Point>
    var tailPoints: seq<Point>
    var lows: seq<Extreme>
    var highs: seq<Extreme>
    var first: Option<(int, real)>
    var extrema: Option<Range>
    var finalizedThrough: int
    var boundExceeded: bool

    /** The bars folded out of the tail, which the state itself no longer holds. */
    ghost var folded: map<int, Bar>

    ghost function Bars(): map<int, Bar>
      reads this
    {
      folded + tail
    }

    /** The folded lists and scalars are right about the folded bars. */
    ghost predicate FoldedRight()
      reads this
    {
      && Mirrors(foldedPoints, folded) && EvidenceOf(lows, folded, false) && EvidenceOf(highs, folded, true)
      && ScalarsOf(folded)
    }

    ghost predicate ScalarsOf(bars: map<int, Bar>)
      reads this
    {
      && FirstRight(first, bars) && ExtremaRight(extrema, bars, sessionStart)
      && ThroughRight(finalizedThrough, bars) && !boundExceeded
    }

    ghost predicate Valid()
      reads this
    {
      MapsHold(folded, tail, sessionStart) && FoldedRight() && Mirrors(tailPoints, tail)
    }

    constructor (sessionStart: int)
      ensures Valid() && Bars() == map[] && this.sessionStart == sessionStart
    {
      this.sessionStart := sessionStart;
      tail, folded, foldedPoints, tailPoints, lows, highs := map[], map[], [], [], [], [];
      first, extrema, finalizedThrough, boundExceeded := None, None, 0, false;
    }

    /** A bar of the mutable tail: a new one, or another version of the one there. */
    method Put(start: int, bar: Bar)
      requires Valid() && start !in folded && sessionStart <= start < sessionStart + SESSION_SECONDS
      requires bar.low <= bar.high
      modifies this`tail, this`tailPoints
      ensures Valid() && Bars() == old(Bars())[start := bar] && tail == old(tail)[start := bar]
    {
      tailPoints := PutPoint(tailPoints, tail, start, bar);
      tail := tail[start := bar];
    }

    /** A bar taken back out of the tail. */
    method Drop(start: int)
      requires Valid() && start !in folded
      modifies this`tail, this`tailPoints
      ensures Valid() && Bars() == old(Bars()) - {start} && tail == old(tail) - {start}
    {
      tailPoints := RemovePoint(tailPoints, tail, start);
      tail := tail - {start};
    }

    /** Folds one bar into the price evidence. */
    method FoldPrices(start: int, bar: Bar)
      requires ScalarsOf(folded) && InSession(folded, sessionStart)
      requires EvidenceOf(lows, folded, false) && EvidenceOf(highs, folded, true)
      requires start !in folded && sessionStart <= start < sessionStart + SESSION_SECONDS && bar.low <= bar.high
      modifies this`first, this`extrema, this`finalizedThrough, this`boundExceeded, this`lows, this`highs
      ensures ScalarsOf(folded[start := bar])
      ensures EvidenceOf(lows, folded[start := bar], false) && EvidenceOf(highs, folded[start := bar], true)
    {
      hide ThroughRight;
      FoldThrough(finalizedThrough, folded, start, bar);
      FoldFirst(first, folded, start, bar);
      FoldExtrema(extrema, folded, sessionStart, start, bar);
      if first.None? || start < first.value.0 { first := Some((start, bar.open)); }
      extrema := Widen(extrema, bar.low, bar.high);
      highs := InsertEvidence(highs, folded, true, start, bar);
      lows := InsertEvidence(lows, folded, false, start, bar);
      if start + 1 > finalizedThrough { finalizedThrough := start + 1; }
      EvidenceInSession(highs, folded[start := bar], true, sessionStart);
      EvidenceInSession(lows, folded[start := bar], false, sessionStart);
      boundExceeded := boundExceeded || |highs| > SESSION_SECONDS || |lows| > SESSION_SECONDS;
    }

    /** Folds one bar into the prices and the measurements. */
    method FoldBar(start: int, bar: Bar)
      requires FoldedRight() && InSession(folded, sessionStart)
      requires start !in folded && sessionStart <= start < sessionStart + SESSION_SECONDS && bar.low <= bar.high
      modifies this`first, this`extrema, this`finalizedThrough, this`boundExceeded, this`lows, this`highs
      modifies this`foldedPoints, this`folded
      ensures FoldedRight() && folded == old(folded)[start := bar]
    {
      FoldPrices(start, bar);
      foldedPoints := PutPoint(foldedPoints, folded, start, bar);
      folded := folded[start := bar];
    }

    /** A historical bar beyond the horizon, folded directly. */
    method FoldDirect(start: int, bar: Bar)
      requires Valid() && start !in Bars() && sessionStart <= start < sessionStart + SESSION_SECONDS
      requires bar.low <= bar.high
      modifies this
      ensures Valid() && Bars() == old(Bars())[start := bar] && tail == old(tail)
      ensures folded == old(folded)[start := bar]
    {
      FoldAddsBar(folded, tail, sessionStart, start, bar);
      FoldBar(start, bar);
    }

    /** Compaction: one bar leaves the tail for the folded evidence, and the bars stay what they were. */
    method Compact(start: int)
      requires Valid() && start in tail
      modifies this
      ensures Valid() && Bars() == old(Bars()) && tail == old(tail) - {start}
      ensures folded == old(folded)[start := old(tail)[start]]
    {
      MoveKeepsBars(folded, tail, sessionStart, start);
      FoldBar(start, tail[start]);
      tailPoints := RemovePoint(tailPoints, tail, start);
      tail := tail - {start};
    }

    /** The session volume strictly before a cutoff. */
    method SessionVolumeBefore(at: int) returns (volume: real)
      requires Valid()
      ensures volume == VolumeIn(Bars(), sessionStart, at)
    {
      var before := VolumeBefore(foldedPoints, folded, sessionStart, at);
      var mutable := VolumeBefore(tailPoints, tail, sessionStart, at);
      VolumeSplits(folded, tail, sessionStart, at);
      volume := before + mutable;
    }

    /** The bar of a second. */
    method AggregateAt(start: int) returns (found: bool, volume: real, close: real)
      requires Valid()
      ensures found == (start in Bars())
      ensures found ==> volume == Bars()[start].volume && close == Bars()[start].close
    {
      var point;
      found, point := PointAt(tailPoints, tail, start);
      if !found { found, point := PointAt(foldedPoints, folded, start); }
      volume, close := point.volume, point.close;
    }

    /** The last bar strictly before a boundary. */
    method MarkStrictlyBefore(boundary: int) returns (found: bool, mark: Point)
      requires Valid()
      ensures LastIn(Bars(), sessionStart, boundary) == if found then Some(mark.start) else None
      ensures found ==> mark.volume == Bars()[mark.start].volume && mark.close == Bars()[mark.start].close
    {
      found, mark := LastBefore(foldedPoints, folded, sessionStart, boundary);
      var another, candidate := LastBefore(tailPoints, tail, sessionStart, boundary);
      LastSplit(folded, tail, sessionStart, boundary);
      if another && (!found || mark.start < candidate.start) { found, mark := true, candidate; }
    }

    /** The range of the folded bars strictly before a cutoff: the scalars when the cutoff has passed everything folded,
        and the evidence lists when it has not. */
    method FoldedRange(at: int) returns (range: Option<Range>)
      requires MapsHold(folded, tail, sessionStart) && FoldedRight()
      ensures IsRange(range, folded, sessionStart, at)
    {
      if extrema.Some? && finalizedThrough <= at {
        ScalarsAnswer(extrema, folded, sessionStart, finalizedThrough, at);
        range := extrema;
      } else {
        var found, low := ExtremeWithin(lows, folded, false, sessionStart, at);
        var foundHigh, high := ExtremeWithin(highs, folded, true, sessionStart, at);
        range := if found then Some(Range(low, high)) else None;
        SidesMakeRange(folded, sessionStart, at, found, low, high);
      }
    }

    /** The session range strictly before a cutoff. */
    method SessionRangeBefore(at: int) returns (range: Option<Range>)
      requires Valid()
      ensures range == RangeIn(Bars(), sessionStart, at)
    {
      var before := FoldedRange(at);
      var mutable, unused := TailViewAt(tail, sessionStart, at);
      range := Join(before, mutable);
      JoinIs(before, mutable, folded, tail, sessionStart, at);
      RangeInIs(Bars(), sessionStart, at);
      RangeUnique(range, RangeIn(Bars(), sessionStart, at), Bars(), sessionStart, at);
    }

    /** The open of the session's first bar, asked for at a cutoff with some bar before it.  The folded scalar is not
        cut at the cutoff, and need not be: the first bar of all is then before it too. */
    method FirstOpenBefore(at: int) returns (open: real)
      requires Valid() && exists s :: s in Bars() && s < at
      ensures FirstIn(Bars(), sessionStart, at).Some?
      ensures open == Bars()[FirstIn(Bars(), sessionStart, at).value].open
    {
      var unused, earliest := TailViewAt(tail, sessionStart, at);
      var best := first;
      if earliest.Some? && (best.None? || earliest.value < best.value.0) {
        best := Some((earliest.value, tail[earliest.value].open));
      }
      ghost var s :| s in Bars() && s < at;
      FirstOfBoth(first, folded, tail, sessionStart, at, s);
      open := best.value.1;
    }
  }

  /** The two sides of the evidence make one range. */
  lemma SidesMakeRange(bars: map<int, Bar>, from: int, at: int, found: bool, low: real, high: real)
    requires found <==> exists s :: from <= s < at && s in bars
    requires found ==> exists s :: from <= s < at && s in bars && Side(bars[s], false) == low
    requires found ==> exists s :: from <= s < at && s in bars && Side(bars[s], true) == high
    requires forall s :: from <= s < at && s in bars ==> low <= Side(bars[s], false)
    requires forall s :: from <= s < at && s in bars ==> Side(bars[s], true) <= high
    ensures IsRange(if found then Some(Range(low, high)) else None, bars, from, at)
  {
    assert forall s :: from <= s < at && s in bars ==> low <= Side(bars[s], false) && Side(bars[s], true) <= high;
  }

  lemma {:induction false} TailRangeStep(tail: map<int, Bar>, seen: map<int, Bar>, r: Option<Range>, from: int, at: int,
                                         s: int)
    requires s in tail && s !in seen && IsRange(r, seen, from, at) && from <= s && tail[s].low <= tail[s].high
    ensures IsRange(if s < at then Widen(r, tail[s].low, tail[s].high) else r, seen[s := tail[s]], from, at)
  {
    var one := map[s := tail[s]];
    var x: Option<Range> := if s < at then Some(Range(tail[s].low, tail[s].high)) else None;
    assert IsRange(x, one, from, at) by {
      if s < at { assert one[s].low == tail[s].low && one[s].high == tail[s].high; }
    }
    JoinIs(r, x, seen, one, from, at);
    assert seen + one == seen[s := tail[s]];
  }

  /** The tail's range and earliest bar strictly before a cutoff, in whatever order its records come. */
  method TailViewAt(tail: map<int, Bar>, from: int, at: int) returns (range: Option<Range>, earliest: Option<int>)
    requires InSession(tail, from) && BarsValid(tail)
    ensures IsRange(range, tail, from, at)
    ensures earliest == FirstIn(tail, from, at)
  {
    range, earliest := None, None;
    var left := tail.Keys;
    ghost var seen: map<int, Bar> := map[];
    while left != {}
      invariant forall s :: s in tail <==> s in left || s in seen
      invariant forall s :: s in seen ==> s in tail && s !in left && seen[s] == tail[s]
      invariant IsRange(range, seen, from, at)
      invariant earliest == FirstIn(seen, from, at)
      decreases |left|
    {
      var s := Pick(left);
      left := left - {s};
      TailRangeStep(tail, seen, range, from, at, s);
      FirstStep(seen, from, at, s, tail[s]);
      if s < at {
        if earliest.None? || earliest.value > s { earliest := Some(s); }
        range := Widen(range, tail[s].low, tail[s].high);
      }
      seen := seen[s := tail[s]];
    }
    assert forall s :: s in tail <==> s in seen;
    assert seen == tail;
  }

  lemma FirstStep(seen: map<int, Bar>, from: int, at: int, s: int, bar: Bar)
    requires from <= s && s !in seen
    ensures var was, now := FirstIn(seen, from, at), FirstIn(seen[s := bar], from, at);
            now == if s < at && (was.None? || was.value > s) then Some(s) else was
  {
    var was := FirstIn(seen, from, at);
    FirstUnique(seen[s := bar], from, at, if s < at && (was.None? || was.value > s) then Some(s) else was);
  }

  ghost predicate IsFirst(f: Option<int>, bars: map<int, Bar>, from: int, at: int) {
    && (f.Some? ==> from <= f.value < at && f.value in bars)
    && (forall s :: from <= s < at && s in bars ==> f.Some? && f.value <= s)
  }

  lemma FirstUnique(bars: map<int, Bar>, from: int, at: int, f: Option<int>)
    requires IsFirst(f, bars, from, at)
    ensures FirstIn(bars, from, at) == f
  {
    var g := FirstIn(bars, from, at);
    assert f.Some? ==> f.value in bars;
    assert g.Some? ==> g.value in bars;
  }

  /** The earlier of the first folded bar and the tail's first is the first of all, once some bar is before the
      cutoff. */
  lemma FirstOfBoth(first: Option<(int, real)>, folded: map<int, Bar>, tail: map<int, Bar>, from: int, at: int, s: int)
    requires MapsHold(folded, tail, from) && FirstRight(first, folded) && s in folded + tail && s < at
    ensures var f, e := first, FirstIn(tail, from, at);
            var best := if e.Some? && (f.None? || e.value < f.value.0) then e
                        else if f.Some? then Some(f.value.0) else None;
            best.Some? && FirstIn(folded + tail, from, at) == best
  {
    var f, e := first, FirstIn(tail, from, at);
    var best := if e.Some? && (f.None? || e.value < f.value.0) then e
                else if f.Some? then Some(f.value.0) else None;
    if s in tail { assert e.Some? && e.value <= s; }
    FirstUnique(folded + tail, from, at, best);
  }
}
