/** The sealed summary of the seconds folded out of the correction tail.  It keeps no bar, so a withdrawal can make a
    scalar unknowable; what it still calls trusted is always right about the bars that remain folded. */
module AggregatePrefixes {
  import opened Options
  import opened CanonicalMerge

  function Sum(folded: seq<Record>): real {
    if folded == [] then 0.0 else Sum(folded[..|folded| - 1]) + folded[|folded| - 1].values.volume
  }

  ghost predicate DistinctStarts(folded: seq<Record>) {
    forall i, j :: 0 <= i < j < |folded| ==> folded[i].start != folded[j].start
  }

  /** The place of a bar in the folded list. */
  ghost predicate FoldedAt(folded: seq<Record>, i: int, record: Record) {
    0 <= i < |folded| && folded[i].start == record.start && folded[i].values == record.values
  }

  ghost function Without(folded: seq<Record>, i: int): seq<Record>
    requires 0 <= i < |folded|
  {
    folded[..i] + folded[i + 1..]
  }

  lemma {:induction false} SumNonnegative(folded: seq<Record>)
    requires forall k :: 0 <= k < |folded| ==> folded[k].values.volume >= 0.0
    ensures Sum(folded) >= 0.0
    decreases |folded|
  {
    if folded != [] { SumNonnegative(folded[..|folded| - 1]); }
  }

  lemma {:induction false} SumWithout(folded: seq<Record>, i: int)
    requires 0 <= i < |folded|
    ensures Sum(folded) == Sum(Without(folded, i)) + folded[i].values.volume
    decreases |folded|
  {
    var init, n := folded[..|folded| - 1], |folded| - 1;
    if i == n {
      assert Without(folded, i) == init;
    } else {
      SumWithout(init, i);
      assert Without(folded, i) == Without(init, i) + [folded[n]];
      assert Without(folded, i)[..n - 1] == Without(init, i);
    }
  }

  /** Every other bar stays, and nothing else appears. */
  lemma WithoutKeeps(folded: seq<Record>, at: int)
    requires 0 <= at < |folded|
    ensures var rest := Without(folded, at);
            && (forall k :: 0 <= k < |rest| ==> rest[k] == folded[if k < at then k else k + 1])
            && (forall k :: 0 <= k < |folded| && k != at ==> folded[k] == rest[if k < at then k else k - 1])
  {}

  /** One summary scalar's flags: whether it has a value, whether that value is trusted, and whether a withdrawal made
      it unknowable. */
  datatype FirstOpen = FirstOpen(open: real, at: int, has: bool, trusted: bool, uncertain: bool) {
    function Fold(empty: bool, r: Record): FirstOpen {
      if !uncertain && (empty || !has || r.start < at) then FirstOpen(r.values.open, r.start, true, true, uncertain)
      else this
    }

    function Withdraw(r: Record): FirstOpen {
      if r.start == at then this.(has := false, trusted := false, uncertain := true) else this
    }

    /** A trusted first open is the open of the earliest folded bar. */
    ghost predicate Right(bars: seq<Record>) {
      && has == trusted
      && (has ==>
            && (forall k :: 0 <= k < |bars| ==> at <= bars[k].start)
            && exists k :: 0 <= k < |bars| && bars[k].start == at && bars[k].values.open == open)
      && (!has <==> uncertain || bars == [])
    }

    lemma FoldRight(bars: seq<Record>, r: Record)
      requires Right(bars)
      ensures Fold(bars == [], r).Right(bars + [r])
    {
      assert (bars + [r])[|bars|] == r;
      assert forall k :: 0 <= k < |bars| ==> (bars + [r])[k] == bars[k];
    }

    lemma WithdrawRight(bars: seq<Record>, i: int, r: Record)
      requires Right(bars) && FoldedAt(bars, i, r) && DistinctStarts(bars)
      ensures Withdraw(r).Right(Without(bars, i))
    {
      WithoutKeeps(bars, i);
    }
  }

  datatype Extrema = Extrema(high: real, low: real, has: bool, trusted: bool, uncertain: bool) {
    function Fold(empty: bool, r: Record): Extrema {
      if uncertain then this
      else Extrema(if empty || !has || r.values.high > high then r.values.high else high,
                   if empty || !has || r.values.low < low then r.values.low else low, true, true, false)
    }

    function Withdraw(r: Record): Extrema {
      if has && (r.values.high == high || r.values.low == low)
      then this.(has := false, trusted := false, uncertain := true) else this
    }

    /** Trusted extrema are attained and bound every folded bar. */
    ghost predicate Right(bars: seq<Record>) {
      && has == trusted
      && (has ==>
            && (forall k :: 0 <= k < |bars| ==> low <= bars[k].values.low && bars[k].values.high <= high)
            && (exists k :: 0 <= k < |bars| && bars[k].values.high == high)
            && (exists k :: 0 <= k < |bars| && bars[k].values.low == low))
      && (!has <==> uncertain || bars == [])
    }

    lemma FoldRight(bars: seq<Record>, r: Record)
      requires Right(bars)
      ensures Fold(bars == [], r).Right(bars + [r])
    {
      assert (bars + [r])[|bars|] == r;
      assert forall k :: 0 <= k < |bars| ==> (bars + [r])[k] == bars[k];
    }

    lemma WithdrawRight(bars: seq<Record>, i: int, r: Record)
      requires Right(bars) && FoldedAt(bars, i, r)
      ensures Withdraw(r).Right(Without(bars, i))
    {
      WithoutKeeps(bars, i);
    }
  }

  datatype Latest = Latest(values: Option<Values>, at: int, has: bool, trusted: bool, uncertain: bool) {
    function Fold(empty: bool, r: Record): Latest {
      if (!uncertain || r.start > at) && (empty || !has || r.start > at)
      then Latest(Some(r.values), r.start, true, true, false) else this
    }

    function Withdraw(r: Record): Latest {
      if r.start == at then this.(has := false, trusted := false, uncertain := true) else this
    }

    /** A trusted latest is the last folded bar; an untrusted one at least bounds them. */
    ghost predicate Right(bars: seq<Record>) {
      && has == trusted
      && (has ==> exists k :: 0 <= k < |bars| && bars[k].start == at && values == Some(bars[k].values))
      && (has || uncertain ==> forall k :: 0 <= k < |bars| ==> bars[k].start <= at)
      && (!has <==> uncertain || bars == [])
    }

    lemma FoldRight(bars: seq<Record>, r: Record)
      requires Right(bars) && forall k :: 0 <= k < |bars| ==> bars[k].start != r.start
      ensures Fold(bars == [], r).Right(bars + [r])
    {
      assert (bars + [r])[|bars|] == r;
      assert forall k :: 0 <= k < |bars| ==> (bars + [r])[k] == bars[k];
    }

    lemma WithdrawRight(bars: seq<Record>, i: int, r: Record)
      requires Right(bars) && FoldedAt(bars, i, r) && DistinctStarts(bars)
      ensures Withdraw(r).Right(Without(bars, i))
    {
      WithoutKeeps(bars, i);
    }
  }

  /** The totals of the folded bars. */
  ghost predicate Totals(bars: seq<Record>, volume: real, printCount: nat, foldedThrough: int) {
    && printCount == |bars|
    && volume == Sum(bars)
    && DistinctStarts(bars)
    && (forall k :: 0 <= k < |bars| ==> bars[k].values.volume >= 0.0 && bars[k].start < foldedThrough)
  }

  lemma FoldTotals(bars: seq<Record>, volume: real, through: int, r: Record)
    requires Totals(bars, volume, |bars|, through) && r.values.volume >= 0.0
    requires forall k :: 0 <= k < |bars| ==> bars[k].start != r.start
    ensures Totals(bars + [r], volume + r.values.volume, |bars| + 1,
                   if r.start + 1 > through then r.start + 1 else through)
  {
    assert (bars + [r])[..|bars|] == bars;
  }

  lemma WithoutDistinct(bars: seq<Record>, i: int)
    requires DistinctStarts(bars) && 0 <= i < |bars|
    ensures DistinctStarts(Without(bars, i))
  {
    var rest := Without(bars, i);
    forall j, k | 0 <= j < k < |rest| ensures rest[j].start != rest[k].start {
      assert rest[j] == bars[if j < i then j else j + 1];
      assert rest[k] == bars[if k < i then k else k + 1];
    }
  }

  /** The clamp at zero never acts: what is left is a sum of non-negative volumes. */
  lemma WithdrawTotals(bars: seq<Record>, volume: real, through: int, i: int, r: Record)
    requires Totals(bars, volume, |bars|, through) && FoldedAt(bars, i, r)
    ensures volume - r.values.volume >= 0.0
    ensures Totals(Without(bars, i), volume - r.values.volume, |bars| - 1, through)
  {
    var rest := Without(bars, i);
    assert forall k :: 0 <= k < |rest| ==> rest[k] == bars[if k < i then k else k + 1];
    SumWithout(bars, i);
    SumNonnegative(rest);
    WithoutDistinct(bars, i);
  }

  class AggregatePrefix {
    var volume: real
    var printCount: nat
    var foldedThrough: int
    var firstOpen: FirstOpen
    var extrema: Extrema
    var latest: Latest

    /** The bars folded in and not withdrawn since. */
    ghost var folded: seq<Record>

    /** Whatever the summary still trusts is right about the bars that remain folded. */
    ghost predicate Valid()
      reads this
    {
      && Totals(folded, volume, printCount, foldedThrough)
      && firstOpen.Right(folded) && extrema.Right(folded) && latest.Right(folded)
    }

    constructor ()
      ensures Valid() && folded == []
      ensures !firstOpen.uncertain && !extrema.uncertain && !latest.uncertain
    {
      volume, printCount, foldedThrough := 0.0, 0, 0;
      firstOpen := FirstOpen(0.0, 0, false, false, false);
      extrema := Extrema(0.0, 0.0, false, false, false);
      latest := Latest(None, 0, false, false, false);
      folded := [];
    }

    /** Folds one bar.  Only a withdrawal makes a scalar uncertain, so without one all three stay trusted. */
    method Fold(record: Record)
      requires Valid() && record.values.volume >= 0.0
      requires forall k :: 0 <= k < |folded| ==> folded[k].start != record.start
      modifies this
      ensures Valid() && folded == old(folded) + [record]
      ensures firstOpen.uncertain == old(firstOpen.uncertain) && extrema.uncertain == old(extrema.uncertain)
      ensures latest.uncertain == (old(latest.uncertain) && record.start <= old(latest.at))
    {
      firstOpen.FoldRight(folded, record);
      extrema.FoldRight(folded, record);
      latest.FoldRight(folded, record);
      FoldTotals(folded, volume, foldedThrough, record);
      firstOpen := firstOpen.Fold(printCount == 0, record);
      extrema := extrema.Fold(printCount == 0, record);
      latest := latest.Fold(printCount == 0, record);
      volume := volume + record.values.volume;
      printCount := printCount + 1;
      if record.start + 1 > foldedThrough {
        foldedThrough := record.start + 1;
      }
      folded := folded + [record];
    }

    /** Takes one folded bar back out.  A scalar that rested on it is no longer claimed, for good in the case of the
        first open and the extrema, and until a later bar folds in the case of the latest. */
    method WithdrawHistorical(record: Record, ghost at: int)
      requires Valid() && FoldedAt(folded, at, record)
      modifies this
      ensures Valid() && folded == Without(old(folded), at)
      ensures firstOpen.uncertain == (old(firstOpen.uncertain) || record.start == old(firstOpen.at))
      ensures extrema.uncertain == (old(extrema.uncertain) || (old(extrema.has)
                && (record.values.high == old(extrema.high) || record.values.low == old(extrema.low))))
      ensures latest.uncertain == (old(latest.uncertain) || record.start == old(latest.at))
    {
      firstOpen.WithdrawRight(folded, at, record);
      extrema.WithdrawRight(folded, at, record);
      latest.WithdrawRight(folded, at, record);
      WithdrawTotals(folded, volume, foldedThrough, at, record);
      volume := if volume - record.values.volume < 0.0 then 0.0 else volume - record.values.volume;
      printCount := printCount - 1;
      firstOpen := firstOpen.Withdraw(record);
      extrema := extrema.Withdraw(record);
      latest := latest.Withdraw(record);
      folded := Without(folded, at);
    }
  }
}
