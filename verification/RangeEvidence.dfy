/** The session extremes: scalars over the folded bars, the sorted evidence lists an older cutoff falls back on, and the
    plain map of bars both must agree with. */
module RangeEvidence {
  import opened Options
  import opened MeasurementPoints

  datatype Extreme = Extreme(start: int, value: real)

  // ----------------------------------------------------------------------------- what a cutoff means on the plain map

  datatype Range = Range(low: real, high: real)

  function Widen(r: Option<Range>, low: real, high: real): Option<Range> {
    if r.None? then Some(Range(low, high))
    else Some(Range(if low < r.value.low then low else r.value.low, if high > r.value.high then high else r.value.high))
  }

  function Join(a: Option<Range>, b: Option<Range>): Option<Range> {
    if b.None? then a else Widen(a, b.value.low, b.value.high)
  }

  /** The lowest low and the highest high of every bar that starts in an interval. */
  function RangeIn(bars: map<int, Bar>, from: int, until: int): Option<Range>
    decreases until - from
  {
    if until <= from then None
    else
      var before := RangeIn(bars, from, until - 1);
      if until - 1 in bars then Widen(before, bars[until - 1].low, bars[until - 1].high) else before
  }

  /** A range that bounds every bar of an interval and is attained. */
  ghost predicate IsRange(r: Option<Range>, bars: map<int, Bar>, from: int, until: int) {
    if r.None? then forall s :: from <= s < until ==> s !in bars
    else
      && (forall s :: from <= s < until && s in bars ==> r.value.low <= bars[s].low && bars[s].high <= r.value.high)
      && (exists s :: from <= s < until && s in bars && bars[s].low == r.value.low)
      && (exists s :: from <= s < until && s in bars && bars[s].high == r.value.high)
  }

  lemma {:induction false} RangeInIs(bars: map<int, Bar>, from: int, until: int)
    ensures IsRange(RangeIn(bars, from, until), bars, from, until)
    decreases until - from
  {
    if from < until { RangeInIs(bars, from, until - 1); }
  }

  /** There is only one such range. */
  lemma RangeUnique(a: Option<Range>, b: Option<Range>, bars: map<int, Bar>, from: int, until: int)
    requires IsRange(a, bars, from, until) && IsRange(b, bars, from, until)
    ensures a == b
  {}

  // -------------------------------------------------------------------------------------------------- evidence lists

  ghost predicate Ascending(points: seq<Extreme>) {
    forall i, j :: 0 <= i < j < |points| ==> points[i].start < points[j].start
  }

  ghost predicate HasExtreme(points: seq<Extreme>, start: int) {
    exists i :: 0 <= i < |points| && points[i].start == start
  }

  /** One value a bar: its low or its high. */
  function Side(bar: Bar, high: bool): real {
    if high then bar.high else bar.low
  }

  ghost predicate AllExtremes(points: seq<Extreme>, bars: map<int, Bar>, high: bool) {
    forall i :: 0 <= i < |points| ==> points[i].start in bars && points[i].value == Side(bars[points[i].start], high)
  }

  ghost predicate CoversExtremes(points: seq<Extreme>, bars: map<int, Bar>) {
    forall s :: s in bars ==> HasExtreme(points, s)
  }

  ghost predicate EvidenceOf(points: seq<Extreme>, bars: map<int, Bar>, high: bool) {
    Ascending(points) && AllExtremes(points, bars, high) && CoversExtremes(points, bars)
  }

  predicate ParsedAt(points: seq<Extreme>, i: nat, key: int)
    requires i <= |points|
  {
    && (forall k :: 0 <= k < i ==> points[k].start < key)
    && (forall k :: i <= k < |points| ==> key <= points[k].start)
  }

  method SearchExtreme(points: seq<Extreme>, key: int) returns (i: nat)
    requires Ascending(points)
    ensures i <= |points| && ParsedAt(points, i, key)
  {
    i := 0;
    var high := |points|;
    while i < high
      invariant 0 <= i <= high <= |points|
      invariant forall k :: 0 <= k < i ==> points[k].start < key
      invariant forall k :: high <= k < |points| ==> key <= points[k].start
    {
      var mid := i + (high - i) / 2;
      if points[mid].start >= key { high := mid; } else { i := mid + 1; }
    }
  }

  lemma InsertedAscending(points: seq<Extreme>, i: nat, point: Extreme)
    requires Ascending(points) && i <= |points| && ParsedAt(points, i, point.start)
    requires i < |points| ==> points[i].start != point.start
    ensures Ascending(points[..i] + [point] + points[i..])
  {
    var placed := points[..i] + [point] + points[i..];
    forall m, n | 0 <= m < n < |placed| ensures placed[m].start < placed[n].start {
      assert placed[m] == if m < i then points[m] else if m == i then point else points[m - 1];
      assert placed[n] == if n < i then points[n] else if n == i then point else points[n - 1];
    }
  }

  lemma InsertedHas(points: seq<Extreme>, i: nat, point: Extreme, s: int)
    requires i <= |points| && (s == point.start || HasExtreme(points, s))
    ensures HasExtreme(points[..i] + [point] + points[i..], s)
  {
    var placed := points[..i] + [point] + points[i..];
    if s == point.start {
      assert placed[i].start == s;
    } else {
      var k :| 0 <= k < |points| && points[k].start == s;
      assert placed[if k < i then k else k + 1].start == s;
    }
  }

  lemma InsertedAll(points: seq<Extreme>, bars: map<int, Bar>, high: bool, i: nat, point: Extreme, bar: Bar)
    requires AllExtremes(points, bars, high) && point.start !in bars && i <= |points| && point.value == Side(bar, high)
    ensures AllExtremes(points[..i] + [point] + points[i..], bars[point.start := bar], high)
  {
    var placed := points[..i] + [point] + points[i..];
    forall k | 0 <= k < |placed|
      ensures placed[k].start in bars[point.start := bar]
           && placed[k].value == Side(bars[point.start := bar][placed[k].start], high)
    {
      assert placed[k] == if k < i then points[k] else if k == i then point else points[k - 1];
    }
  }

  lemma InsertedEvidence(points: seq<Extreme>, bars: map<int, Bar>, high: bool, i: nat, start: int, bar: Bar)
    requires EvidenceOf(points, bars, high) && start !in bars && i <= |points| && ParsedAt(points, i, start)
    ensures EvidenceOf(points[..i] + [Extreme(start, Side(bar, high))] + points[i..], bars[start := bar], high)
  {
    var point := Extreme(start, Side(bar, high));
    assert i < |points| ==> points[i].start in bars;
    InsertedAscending(points, i, point);
    InsertedAll(points, bars, high, i, point, bar);
    forall s | s in bars[start := bar] ensures HasExtreme(points[..i] + [point] + points[i..], s) {
      InsertedHas(points, i, point, s);
    }
  }

  lemma ReplacedEvidence(points: seq<Extreme>, bars: map<int, Bar>, high: bool, i: nat, start: int, bar: Bar)
    requires EvidenceOf(points, bars, high) && i < |points| && points[i].start == start
    ensures EvidenceOf(points[i := Extreme(start, Side(bar, high))], bars[start := bar], high)
  {
    var next := points[i := Extreme(start, Side(bar, high))];
    forall s | s in bars[start := bar] ensures HasExtreme(next, s) {
      if s == start {
        assert next[i].start == s;
      } else {
        assert HasExtreme(points, s);
        var k :| 0 <= k < |points| && points[k].start == s;
        assert next[k].start == s;
      }
    }
  }

  /** Inserts the evidence of a second, or replaces the second's earlier evidence. */
  method InsertEvidence(points: seq<Extreme>, ghost bars: map<int, Bar>, high: bool, start: int, bar: Bar)
    returns (next: seq<Extreme>)
    requires EvidenceOf(points, bars, high)
    ensures EvidenceOf(next, bars[start := bar], high)
    ensures |next| == if start in bars then |points| else |points| + 1
  {
    var i := SearchExtreme(points, start);
    if i < |points| && points[i].start == start {
      ReplacedEvidence(points, bars, high, i, start, bar);
      return points[i := Extreme(start, Side(bar, high))];
    }
    assert start !in bars by {
      assert forall k :: 0 <= k < |points| ==> points[k].start != start;
      assert !HasExtreme(points, start);
    }
    InsertedEvidence(points, bars, high, i, start, bar);
    next := points[..i] + [Extreme(start, Side(bar, high))] + points[i..];
  }

  /** One second a point, so a list inside the session never outgrows it. */
  lemma {:induction false} EvidenceFits(points: seq<Extreme>, from: int)
    requires Ascending(points) && forall i :: 0 <= i < |points| ==> from <= points[i].start
    ensures points != [] ==> |points| <= points[|points| - 1].start - from + 1
    decreases |points|
  {
    if |points| > 1 { EvidenceFits(points[..|points| - 1], from); }
  }

  // ---------------------------------------------------------------------------------------------------------- queries

  /** The least (or greatest) value among the points between two cutoffs. */
  method ExtremeWithin(points: seq<Extreme>, ghost bars: map<int, Bar>, high: bool, floor: int, upper: int)
    returns (found: bool, value: real)
    requires EvidenceOf(points, bars, high)
    ensures found <==> exists s :: floor <= s < upper && s in bars
    ensures found ==> exists s :: floor <= s < upper && s in bars && Side(bars[s], high) == value
    ensures forall s :: floor <= s < upper && s in bars ==>
              if high then Side(bars[s], high) <= value else value <= Side(bars[s], high)
  {
    var first := SearchExtreme(points, floor);
    var last := SearchExtreme(points, upper);
    found, value := false, 0.0;
    var i := first;
    while i < last
      invariant first <= i && (i <= last || last <= first)
      invariant found == (first < i)
      invariant found ==> exists k :: first <= k < i && k < last && points[k].value == value
      invariant forall k :: first <= k < i && k < last ==>
                  if high then points[k].value <= value else value <= points[k].value
    {
      if !found || (if high then points[i].value > value else points[i].value < value) { value := points[i].value; }
      found := true;
      i := i + 1;
    }
    WithinMeans(points, bars, high, floor, upper, first, last);
    if found {
      var k :| first <= k < i && k < last && points[k].value == value;
      assert points[k].start in bars;
    }
  }

  lemma WithinMeans(points: seq<Extreme>, bars: map<int, Bar>, high: bool, floor: int, upper: int, first: nat,
                    last: nat)
    requires EvidenceOf(points, bars, high) && first <= |points| && last <= |points|
    requires ParsedAt(points, first, floor) && ParsedAt(points, last, upper)
    ensures forall s :: floor <= s < upper && s in bars ==>
              exists k :: first <= k < last && points[k].start == s && points[k].value == Side(bars[s], high)
    ensures forall k :: first <= k < last ==> floor <= points[k].start < upper && points[k].start in bars
  {
    forall s | floor <= s < upper && s in bars
      ensures exists k :: first <= k < last && points[k].start == s && points[k].value == Side(bars[s], high)
    {
      assert HasExtreme(points, s);
      var k :| 0 <= k < |points| && points[k].start == s;
      assert first <= k < last;
    }
  }
}
