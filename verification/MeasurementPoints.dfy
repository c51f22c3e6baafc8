/** Sorted measurement points with cumulative volume sums, and the plain map of bars that they must agree with. */
module MeasurementPoints {
  import opened Options

  /** One accepted second. */
  datatype Bar = Bar(open: real, high: real, low: real, close: real, volume: real)

  datatype Point = Point(start: int, volume: real, close: real, cumulative: real)

  // ----------------------------------------------------------------------------- what a cutoff means on the plain map

  /** The volume of every bar that starts in an interval, second by second. */
  function VolumeIn(bars: map<int, Bar>, from: int, until: int): real
    decreases until - from
  {
    if until <= from then 0.0
    else VolumeIn(bars, from, until - 1) + if until - 1 in bars then bars[until - 1].volume else 0.0
  }

  /** The last second before a boundary that holds a bar. */
  function LastIn(bars: map<int, Bar>, from: int, until: int): (last: Option<int>)
    ensures last.Some? ==> from <= last.value < until && last.value in bars
    ensures forall s :: from <= s < until && s in bars ==> last.Some? && s <= last.value
    decreases until - from
  {
    if until <= from then None else if until - 1 in bars then Some(until - 1) else LastIn(bars, from, until - 1)
  }

  // --------------------------------------------------------------------------------------------------- sorted points

  ghost predicate Sorted(points: seq<Point>) {
    forall i, j :: 0 <= i < j < |points| ==> points[i].start < points[j].start
  }

  /** The sum of the first volumes. */
  function VolumeOf(points: seq<Point>, n: nat): real
    requires n <= |points|
  {
    if n == 0 then 0.0 else VolumeOf(points, n - 1) + points[n - 1].volume
  }

  ghost predicate CumulativeTo(points: seq<Point>, n: nat)
    requires n <= |points|
  {
    forall i :: 0 <= i < n ==> points[i].cumulative == VolumeOf(points, i + 1)
  }

  /** Every point is a bar of the map. */
  ghost predicate AllFrom(points: seq<Point>, bars: map<int, Bar>) {
    forall i :: 0 <= i < |points| ==> points[i].start in bars && points[i].volume == bars[points[i].start].volume
                                      && points[i].close == bars[points[i].start].close
  }

  ghost predicate HasPoint(points: seq<Point>, start: int) {
    exists i :: 0 <= i < |points| && points[i].start == start
  }

  /** Every bar of the map has its point. */
  ghost predicate Covers(points: seq<Point>, bars: map<int, Bar>) {
    forall s :: s in bars ==> HasPoint(points, s)
  }

  ghost predicate Holds(points: seq<Point>, bars: map<int, Bar>) {
    AllFrom(points, bars) && Covers(points, bars)
  }

  ghost predicate Mirrors(points: seq<Point>, bars: map<int, Bar>) {
    Sorted(points) && CumulativeTo(points, |points|) && Holds(points, bars)
  }

  predicate SplitsAt(points: seq<Point>, i: nat, key: int)
    requires i <= |points|
  {
    && (forall k :: 0 <= k < i ==> points[k].start < key)
    && (forall k :: i <= k < |points| ==> key <= points[k].start)
  }

  /** A binary search for the first point at or after a second. */
  method Search(points: seq<Point>, key: int) returns (i: nat)
    requires Sorted(points)
    ensures i <= |points| && SplitsAt(points, i, key)
  {
    i := 0;
    var high := |points|;
    while i < high
      invariant 0 <= i <= high <= |points|
      invariant forall k :: 0 <= k < i ==> points[k].start < key
      invariant forall k :: high <= k < |points| ==> key <= points[k].start
    {
      var mid := i + (high - i) / 2;
      if points[mid].start >= key { high := mid; } else { i := mid + 1; }
    }
  }

  lemma {:induction false} VolumeAgrees(a: seq<Point>, b: seq<Point>, n: nat)
    requires n <= |a| && n <= |b| && forall i :: 0 <= i < n ==> a[i].volume == b[i].volume
    ensures VolumeOf(a, n) == VolumeOf(b, n)
  {
    if n > 0 { VolumeAgrees(a, b, n - 1); }
  }

  /** The same points with their cumulative sums left open. */
  ghost predicate SamePoints(a: seq<Point>, b: seq<Point>) {
    && |a| == |b|
    && forall i :: 0 <= i < |a| ==> a[i].start == b[i].start && a[i].volume == b[i].volume && a[i].close == b[i].close
  }

  /** Rewrites the cumulative sums from an index on, from the last sum before it. */
  method Recompute(points: seq<Point>, from: nat) returns (next: seq<Point>)
    requires from <= |points| && CumulativeTo(points, from)
    ensures SamePoints(next, points) && CumulativeTo(next, |next|)
  {
    next := points;
    var running := if from > 0 then points[from - 1].cumulative else 0.0;
    var i := from;
    while i < |next|
      invariant from <= i <= |points| && SamePoints(next, points)
      invariant running == VolumeOf(next, i) && CumulativeTo(next, i)
    {
      running := running + next[i].volume;
      ghost var was := next;
      next := next[i := next[i].(cumulative := running)];
      i := i + 1;
      forall k | 0 <= k <= i ensures VolumeOf(next, k) == VolumeOf(was, k) { VolumeAgrees(next, was, k); }
    }
  }

  /** A point placed over another, or between two. */
  function Placed(points: seq<Point>, i: nat, point: Point): seq<Point>
    requires i <= |points|
  {
    if i < |points| && points[i].start == point.start then points[i := point] else points[..i] + [point] + points[i..]
  }

  lemma PlacedCumulative(points: seq<Point>, i: nat, point: Point)
    requires i <= |points| && CumulativeTo(points, |points|)
    ensures CumulativeTo(Placed(points, i, point), i)
  {
    var placed := Placed(points, i, point);
    forall k | 0 <= k < i ensures placed[k].cumulative == VolumeOf(placed, k + 1) {
      VolumeAgrees(placed, points, k + 1);
    }
  }

  /** Replaces the point of a second, or inserts it in its place. */
  method PutPoint(points: seq<Point>, ghost bars: map<int, Bar>, start: int, bar: Bar) returns (next: seq<Point>)
    requires Mirrors(points, bars)
    ensures Mirrors(next, bars[start := bar])
  {
    var i := Search(points, start);
    var point := Point(start, bar.volume, bar.close, 0.0);
    var placed := if i < |points| && points[i].start == start then points[i := point]
                  else points[..i] + [point] + points[i..];
    hide Sorted, Holds, SamePoints;
    PlacedHolds(points, bars, i, point, bar);
    PlacedCumulative(points, i, point);
    next := Recompute(placed, i);
    SameHolds(next, placed, bars[start := bar]);
  }

  lemma SameHolds(next: seq<Point>, placed: seq<Point>, bars: map<int, Bar>)
    requires SamePoints(next, placed) && Sorted(placed) && Holds(placed, bars)
    ensures Sorted(next) && Holds(next, bars)
  {
    forall s | s in bars ensures HasPoint(next, s) {
      assert HasPoint(placed, s);
      var i :| 0 <= i < |placed| && placed[i].start == s;
      assert next[i].start == s;
    }
  }

  lemma PlacedSorted(points: seq<Point>, i: nat, point: Point)
    requires Sorted(points) && i <= |points| && SplitsAt(points, i, point.start)
    ensures Sorted(Placed(points, i, point))
  {
    var placed := Placed(points, i, point);
    if i < |points| && points[i].start == point.start {
    } else {
      forall m, n | 0 <= m < n < |placed| ensures placed[m].start < placed[n].start {
        assert placed[m] == if m < i then points[m] else if m == i then point else points[m - 1];
        assert placed[n] == if n < i then points[n] else if n == i then point else points[n - 1];
      }
    }
  }

  lemma PlacedHas(points: seq<Point>, i: nat, point: Point, s: int)
    requires i <= |points| && HasPoint(points, s)
    ensures HasPoint(Placed(points, i, point), s)
  {
    var placed := Placed(points, i, point);
    var k :| 0 <= k < |points| && points[k].start == s;
    var at := if |placed| == |points| || k < i then k else k + 1;
    assert placed[at].start == s;
  }

  lemma PlacedHolds(points: seq<Point>, bars: map<int, Bar>, i: nat, point: Point, bar: Bar)
    requires Sorted(points) && Holds(points, bars) && i <= |points| && SplitsAt(points, i, point.start)
    requires point.volume == bar.volume && point.close == bar.close
    ensures Sorted(Placed(points, i, point)) && Holds(Placed(points, i, point), bars[point.start := bar])
  {
    var placed, next := Placed(points, i, point), bars[point.start := bar];
    PlacedSorted(points, i, point);
    forall s | s in next ensures HasPoint(placed, s) {
      if s == point.start { assert placed[i].start == s; } else { PlacedHas(points, i, point, s); }
    }
    forall k | 0 <= k < |placed|
      ensures placed[k].start in next && placed[k].volume == next[placed[k].start].volume
           && placed[k].close == next[placed[k].start].close
    {
      if placed[k].start != point.start {
        assert placed[k] == points[if |placed| == |points| || k < i then k else k - 1];
      } else {
        assert k == i;
      }
    }
  }

  /** Removes the point of a second, if there is one. */
  method RemovePoint(points: seq<Point>, ghost bars: map<int, Bar>, start: int) returns (next: seq<Point>)
    requires Mirrors(points, bars)
    ensures Mirrors(next, bars - {start})
  {
    var i := Search(points, start);
    if i == |points| || points[i].start != start {
      AbsentHolds(points, bars, start, i);
      return points;
    }
    var rest := points[..i] + points[i + 1..];
    assert CumulativeTo(rest, i) by {
      forall k | 0 <= k < i ensures rest[k].cumulative == VolumeOf(rest, k + 1) {
        VolumeAgrees(rest, points, k + 1);
      }
    }
    RemovedHolds(points, bars, start, i);
    next := Recompute(rest, i);
    SameHolds(next, rest, bars - {start});
  }

  lemma AbsentHolds(points: seq<Point>, bars: map<int, Bar>, start: int, i: nat)
    requires Sorted(points) && Holds(points, bars) && i <= |points| && SplitsAt(points, i, start)
    requires i == |points| || points[i].start != start
    ensures start !in bars && bars - {start} == bars
  {
    assert !HasPoint(points, start);
  }

  lemma RemovedHolds(points: seq<Point>, bars: map<int, Bar>, start: int, i: nat)
    requires Sorted(points) && Holds(points, bars) && i < |points| && points[i].start == start
    ensures Sorted(points[..i] + points[i + 1..]) && Holds(points[..i] + points[i + 1..], bars - {start})
  {
    var rest := points[..i] + points[i + 1..];
    forall k | 0 <= k < |rest| ensures rest[k] == points[if k < i then k else k + 1] && rest[k].start != start {}
    forall s | s in bars - {start} ensures HasPoint(rest, s) {
      assert HasPoint(points, s);
      var k :| 0 <= k < |points| && points[k].start == s;
      assert rest[if k < i then k else k - 1].start == s;
    }
  }

  // ---------------------------------------------------------------------------------------------------------- queries

  /** The points before a cutoff sum to the volume of every bar before it. */
  lemma {:induction false} PrefixIsVolume(points: seq<Point>, bars: map<int, Bar>, k: nat, from: int, until: int)
    requires Sorted(points) && Holds(points, bars) && k <= |points| && SplitsAt(points, k, until)
    requires forall s :: s in bars ==> from <= s
    ensures VolumeOf(points, k) == VolumeIn(bars, from, until)
    decreases until - from, k
  {
    if until <= from {
      assert points != [] ==> points[0].start in bars;
    } else if k > 0 && points[k - 1].start == until - 1 {
      PrefixIsVolume(points, bars, k - 1, from, until - 1);
    } else {
      assert until - 1 in bars ==> HasPoint(points, until - 1);
      PrefixIsVolume(points, bars, k, from, until - 1);
    }
  }

  /** The cumulative sum before a cutoff. */
  method VolumeBefore(points: seq<Point>, ghost bars: map<int, Bar>, ghost from: int, at: int) returns (volume: real)
    requires Mirrors(points, bars) && forall s :: s in bars ==> from <= s
    ensures volume == VolumeIn(bars, from, at)
  {
    var i := Search(points, at);
    PrefixIsVolume(points, bars, i, from, at);
    volume := if i > 0 then points[i - 1].cumulative else 0.0;
  }

  /** The point of a second. */
  method PointAt(points: seq<Point>, ghost bars: map<int, Bar>, start: int) returns (found: bool, point: Point)
    requires Mirrors(points, bars)
    ensures found == (start in bars)
    ensures found ==> point.start == start && point.volume == bars[start].volume && point.close == bars[start].close
  {
    var i := Search(points, start);
    found, point := i < |points| && points[i].start == start, Point(start, 0.0, 0.0, 0.0);
    if found { point := points[i]; } else { AbsentHolds(points, bars, start, i); }
  }

  /** The last point before a boundary. */
  method LastBefore(points: seq<Point>, ghost bars: map<int, Bar>, ghost from: int, boundary: int)
    returns (found: bool, point: Point)
    requires Mirrors(points, bars) && forall s :: s in bars ==> from <= s
    ensures LastIn(bars, from, boundary) == if found then Some(point.start) else None
    ensures found ==> point.start in bars && point.volume == bars[point.start].volume
                      && point.close == bars[point.start].close
  {
    var i := Search(points, boundary);
    found, point := i > 0, Point(0, 0.0, 0.0, 0.0);
    if found { point := points[i - 1]; }
    LastSplits(points, bars, from, boundary, i);
  }

  lemma LastSplits(points: seq<Point>, bars: map<int, Bar>, from: int, boundary: int, i: nat)
    requires Sorted(points) && Holds(points, bars) && i <= |points| && SplitsAt(points, i, boundary)
    requires forall s :: s in bars ==> from <= s
    ensures LastIn(bars, from, boundary) == if i > 0 then Some(points[i - 1].start) else None
  {
    var last := LastIn(bars, from, boundary);
    if last.Some? { assert HasPoint(points, last.value); }
    if i > 0 { assert points[i - 1].start in bars; }
  }
}
