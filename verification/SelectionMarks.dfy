/** The cached selection marks of one symbol: the last bar strictly before the current boundary and before the prior
    one, kept right across new bars, revisions, compaction and boundary advances of any size. */
module SelectionMarks {
  import opened Options
  import opened Intervals
  import opened CanonicalMerge

  // -------------------------------------------------------------------------------------- marks over the plain map

  /** The accepted bar with the greatest start strictly before a boundary, with its latest value. */
  ghost predicate IsMark(mark: Option<Record>, bars: map<int, Record>, boundary: int) {
    && (mark.Some? ==> mark.value.start < boundary && IsBar(mark.value, bars))
    && (forall s :: s in bars && s < boundary ==> mark.Some? && s <= mark.value.start)
  }

  ghost predicate IsBar(r: Record, bars: map<int, Record>) {
    r.start in bars && bars[r.start] == r
  }

  /** Every bar is filed under its start. */
  ghost predicate Filed(bars: map<int, Record>) {
    forall s :: s in bars ==> bars[s].start == s
  }

  /** The greatest bar of all. */
  ghost predicate IsGreatest(mark: Option<Record>, bars: map<int, Record>) {
    && (mark.Some? ==> IsBar(mark.value, bars))
    && (forall s :: s in bars ==> mark.Some? && s <= mark.value.start)
  }

  /** There is at most one mark for a boundary. */
  lemma MarkUnique(a: Option<Record>, b: Option<Record>, bars: map<int, Record>, boundary: int)
    requires IsMark(a, bars, boundary) && IsMark(b, bars, boundary)
    ensures a == b
  {
    if a.Some? && b.Some? { assert a.value.start == b.value.start; }
  }

  /** A better candidate for a boundary: later than what there is, and still strictly before it. */
  function Better(result: Option<Record>, r: Record, boundary: int): Option<Record> {
    if r.start >= boundary || (result.Some? && r.start <= result.value.start) then result else Some(r)
  }

  function BetterOf(result: Option<Record>, r: Option<Record>, boundary: int): Option<Record> {
    if r.None? then result else Better(result, r.value, boundary)
  }

  /** A mark after one bar was accepted: replaced by a later bar before its boundary, or by its own new version. */
  function AfterBar(mark: Option<Record>, r: Record, boundary: int): Option<Record> {
    if r.start < boundary && (mark.None? || r.start >= mark.value.start) then Some(r) else mark
  }

  lemma AfterBarIsMark(mark: Option<Record>, bars: map<int, Record>, boundary: int, r: Record)
    requires IsMark(mark, bars, boundary)
    ensures IsMark(AfterBar(mark, r, boundary), bars[r.start := r], boundary)
  {}

  lemma GreatestAfterBar(latest: Option<Record>, bars: map<int, Record>, r: Record)
    requires IsGreatest(latest, bars)
    ensures IsGreatest(if latest.None? || r.start >= latest.value.start then Some(r) else latest, bars[r.start := r])
  {}

  /** The tail is filed and apart from what was folded, and the two scalars are the greatest bars of all and of those
      folded. */
  ghost predicate ScalarsHold(folded: map<int, Record>, tail: map<int, Record>, latest: Option<Record>,
                              older: Option<Record>) {
    && Filed(tail) && Filed(folded) && (forall s :: s in tail ==> s !in folded)
    && IsGreatest(latest, folded + tail) && IsGreatest(older, folded)
  }

  /** A cached mark is right for its boundary, and nothing at or after the boundary was folded. */
  ghost predicate MarkHolds(at: Option<int>, mark: Option<Record>, folded: map<int, Record>, tail: map<int, Record>) {
    at.Some? ==> IsMark(mark, folded + tail, at.value) && Before(folded, at.value)
  }

  function Later(latest: Option<Record>, r: Record): Option<Record> {
    if latest.None? || r.start >= latest.value.start then Some(r) else latest
  }

  function Updated(at: Option<int>, mark: Option<Record>, r: Record): Option<Record> {
    if at.Some? then AfterBar(mark, r, at.value) else mark
  }

  lemma AcceptScalars(folded: map<int, Record>, tail: map<int, Record>, latest: Option<Record>, older: Option<Record>,
                      r: Record)
    requires ScalarsHold(folded, tail, latest, older) && r.start !in folded
    ensures ScalarsHold(folded, tail[r.start := r], Later(latest, r), older)
    ensures folded + tail[r.start := r] == (folded + tail)[r.start := r]
  {
    GreatestAfterBar(latest, folded + tail, r);
    assert folded + tail[r.start := r] == (folded + tail)[r.start := r];
  }

  lemma AcceptMark(at: Option<int>, mark: Option<Record>, folded: map<int, Record>, tail: map<int, Record>, r: Record)
    requires MarkHolds(at, mark, folded, tail) && r.start !in folded
    ensures MarkHolds(at, Updated(at, mark, r), folded, tail[r.start := r])
  {
    assert folded + tail[r.start := r] == (folded + tail)[r.start := r];
    if at.Some? { AfterBarIsMark(mark, folded + tail, at.value, r); }
  }

  lemma FoldScalarsHold(folded: map<int, Record>, tail: map<int, Record>, latest: Option<Record>,
                        older: Option<Record>, r: Record)
    requires ScalarsHold(folded, tail, latest, older) && r.start !in folded + tail
    ensures ScalarsHold(folded[r.start := r], tail, Later(latest, r), Later(older, r))
    ensures folded[r.start := r] + tail == (folded + tail)[r.start := r]
  {
    GreatestAfterBar(latest, folded + tail, r);
    assert folded[r.start := r] + tail == (folded + tail)[r.start := r];
  }

  lemma FoldMark(at: Option<int>, mark: Option<Record>, folded: map<int, Record>, tail: map<int, Record>, r: Record)
    requires MarkHolds(at, mark, folded, tail) && r.start !in folded + tail && (at.Some? ==> r.start < at.value)
    ensures MarkHolds(at, Updated(at, mark, r), folded[r.start := r], tail)
  {
    assert folded[r.start := r] + tail == (folded + tail)[r.start := r];
    if at.Some? { AfterBarIsMark(mark, folded + tail, at.value, r); }
  }

  class SelectionMarks {
    var tail: map<int, Record>
    var latest: Option<Record>
    var older: Option<Record>
    var committedT: Option<int>
    var selectionAt: Option<int>
    var committed: Option<Record>
    var priorAt: Option<int>
    var prior: Option<Record>

    /** The bars folded out of the tail, which the state no longer holds. */
    ghost var folded: map<int, Record>

    ghost function Bars(): map<int, Record>
      reads this
    {
      folded + tail
    }

    ghost predicate Scalars()
      reads this
    {
      ScalarsHold(folded, tail, latest, older)
    }

    ghost predicate Marks()
      reads this
    {
      MarkHolds(selectionAt, committed, folded, tail) && MarkHolds(priorAt, prior, folded, tail)
      && (selectionAt.None? && committed.Some? ==> IsBar(committed.value, folded))
    }

    ghost predicate Valid()
      reads this
    {
      Scalars() && Marks()
    }

    /** A bar may be folded once it is before both boundaries. */
    predicate Settled(start: int)
      reads this
    {
      (selectionAt.Some? ==> start < selectionAt.value) && (priorAt.Some? ==> start < priorAt.value)
    }

    constructor ()
      ensures Valid() && Bars() == map[] && selectionAt == None && priorAt == None
    {
      tail, folded, latest, older, committedT := map[], map[], None, None, None;
      selectionAt, committed, priorAt, prior := None, None, None, None;
    }

    /** Keeps the latest bar of all: a later one, or the next version of the same one. */
    method ConsiderLatest(r: Record)
      modifies this`latest
      ensures latest == Later(old(latest), r)
    {
      if latest.None? {
        latest := Some(r);
      } else if r.start == latest.value.start {
        latest := Some(r);
      } else if r.start > latest.value.start {
        latest := Some(r);
      }
    }

    /** Brings both cached marks up to date with one accepted bar. */
    method UpdateSelection(r: Record)
      modifies this`committed, this`prior
      ensures committed == Updated(selectionAt, old(committed), r) && prior == Updated(priorAt, old(prior), r)
    {
      if selectionAt.Some? && r.start < selectionAt.value
         && (committed.None? || r.start > committed.value.start || committed.value.start == r.start) {
        committed := Some(r);
      }
      if priorAt.Some? && r.start < priorAt.value
         && (prior.None? || r.start > prior.value.start || prior.value.start == r.start) {
        prior := Some(r);
      }
    }

    /** A new bar of the tail, or a new version of one. */
    method Accept(r: Record)
      requires Valid() && r.start !in folded
      modifies this`tail, this`latest, this`committed, this`prior
      ensures Valid() && Bars() == old(Bars())[r.start := r]
    {
      AcceptScalars(folded, tail, latest, older, r);
      AcceptMark(selectionAt, committed, folded, tail, r);
      AcceptMark(priorAt, prior, folded, tail, r);
      tail := tail[r.start := r];
      ConsiderLatest(r);
      UpdateSelection(r);
    }

    /** The scalars a folded bar moves: the greatest folded bar, and the cached mark below the committed watermark. */
    method FoldScalars(r: Record)
      modifies this`older, this`committed
      ensures older == if old(older).None? || r.start > old(older).value.start then Some(r) else old(older)
      ensures committed == if committedT.Some? && r.start < committedT.value
                              && (old(committed).None? || r.start > old(committed).value.start)
                           then Some(r) else old(committed)
    {
      if older.None? || r.start > older.value.start { older := Some(r); }
      if committedT.Some? && r.start < committedT.value && (committed.None? || r.start > committed.value.start) {
        committed := Some(r);
      }
    }

    /** Compaction: one settled bar leaves the tail.  The bars and both marks stay what they were. */
    method Compact(start: int)
      requires Valid() && start in tail && Settled(start)
      modifies this`tail, this`folded, this`older, this`committed
      ensures Valid() && Bars() == old(Bars()) && start in folded
      ensures selectionAt.Some? ==> committed == old(committed)
    {
      var r := tail[start];
      ghost var was := Bars();
      assert IsBar(r, was);
      FoldScalars(r);
      tail := tail - {start};
      folded := folded[start := r];
      assert Bars() == was;
    }

    /** A settled historical bar folded directly. */
    method FoldDirect(r: Record)
      requires Valid() && r.start !in Bars() && Settled(r.start)
      modifies this`folded, this`older, this`latest, this`committed, this`prior
      ensures Valid() && Bars() == old(Bars())[r.start := r]
    {
      FoldScalarsHold(folded, tail, latest, older, r);
      FoldMark(selectionAt, committed, folded, tail, r);
      FoldMark(priorAt, prior, folded, tail, r);
      assert older.Some? ==> older.value.start in folded;
      FoldScalars(r);
      folded := folded[r.start := r];
      ConsiderLatest(r);
      UpdateSelection(r);
    }

    /** The best of the tail and the scalars strictly before a boundary. */
    method RepairBefore(boundary: int) returns (result: Option<Record>)
      requires Valid() && (if selectionAt.Some? then selectionAt.value <= boundary else Before(folded, boundary))
      ensures IsMark(result, Bars(), boundary)
    {
      result := None;
      if committed.Some? && committed.value.start < boundary { result := committed; }
      result := BetterOf(result, latest, boundary);
      result := BetterOf(result, older, boundary);
      FoldedCovered(folded, tail, selectionAt, committed, latest, older, boundary, result);
      result := BestOfTail(tail, Bars(), boundary, result);
    }

    /** Makes a mark the current one; the one it replaces becomes the prior one. */
    method Install(at: int, next: Option<Record>)
      requires Valid() && IsMark(next, Bars(), at) && Before(folded, at)
      modifies this`selectionAt, this`committed, this`priorAt, this`prior
      ensures Valid() && selectionAt == Some(at) && committed == next
      ensures if old(selectionAt).Some? && old(selectionAt) != Some(at)
              then priorAt == old(selectionAt) && prior == old(committed)
              else priorAt == old(priorAt) && prior == old(prior)
    {
      if selectionAt.Some? && selectionAt.value != at { priorAt, prior := selectionAt, committed; }
      selectionAt, committed := Some(at), next;
    }

    /** Moves the boundary on: by one second with one lookup, by more with a repair. */
    method Advance(target: int)
      requires Valid() && (selectionAt.None? ==> Before(folded, target))
      modifies this`selectionAt, this`committed, this`priorAt, this`prior
      ensures Valid()
      ensures if selectionAt == old(selectionAt) then old(selectionAt).Some? && target <= old(selectionAt).value
              else selectionAt == Some(target) && (old(selectionAt).Some? ==> priorAt == old(selectionAt))
      ensures old(selectionAt).Some? && target <= old(selectionAt).value ==>
                selectionAt == old(selectionAt) && committed == old(committed) && priorAt == old(priorAt)
                && prior == old(prior)
      ensures old(selectionAt).Some? && old(selectionAt).value < target ==> prior == old(committed)
    {
      if selectionAt.Some? && target <= selectionAt.value { return; }
      var next := committed;
      if selectionAt.None? || target - selectionAt.value != 1 {
        next := RepairBefore(target);
      } else if target - 1 in tail {
        next := Some(tail[target - 1]);
      } else if older.Some? && older.value.start == target - 1 {
        next := older;
      }
      Install(target, next);
    }

    /** The mark at a boundary: a cached one, the latest bar once the boundary has passed it, and otherwise the best
        scalar there is. */
    function LatestMarkBefore(at: int): (mark: Option<Record>)
      requires Valid()
      reads this
      ensures mark.Some? ==> mark.value.start < at && IsBar(mark.value, Bars())
      ensures Exact(at) ==> IsMark(mark, Bars(), at)
    {
      if selectionAt == Some(at) then committed
      else if priorAt == Some(at) then prior
      else if latest.Some? && latest.value.start < at then
        if latest.value.start in tail then Some(tail[latest.value.start]) else latest
      else
        var mark := if committed.Some? && committed.value.start < at then committed else None;
        if older.Some? && older.value.start < at && (mark.None? || older.value.start >= mark.value.start) then older
        else mark
    }

    /** The boundaries the compact state answers exactly: the two cached ones, and every one past the latest bar. */
    predicate Exact(at: int)
      reads this
    {
      selectionAt == Some(at) || priorAt == Some(at) || latest.None? || latest.value.start < at
    }
  }

  ghost predicate Before(bars: map<int, Record>, boundary: int) {
    forall s :: s in bars ==> s < boundary
  }

  /** What is known of the result before the tail is scanned: a bar before the boundary, with every folded bar before
      the boundary at or below it. */
  ghost predicate Covering(result: Option<Record>, folded: map<int, Record>, bars: map<int, Record>, boundary: int) {
    && (result.Some? ==> result.value.start < boundary && IsBar(result.value, bars))
    && (forall s :: s in folded && s < boundary ==> result.Some? && s <= result.value.start)
  }

  lemma FoldedCovered(folded: map<int, Record>, tail: map<int, Record>, selectionAt: Option<int>,
                      committed: Option<Record>, latest: Option<Record>, older: Option<Record>, boundary: int,
                      result: Option<Record>)
    requires forall s :: s in tail ==> s !in folded
    requires IsGreatest(latest, folded + tail) && IsGreatest(older, folded)
    requires if selectionAt.Some?
             then IsMark(committed, folded + tail, selectionAt.value) && Before(folded, selectionAt.value)
                  && selectionAt.value <= boundary
             else Before(folded, boundary) && (committed.Some? ==> IsBar(committed.value, folded))
    requires var start := if committed.Some? && committed.value.start < boundary then committed else None;
             result == BetterOf(BetterOf(start, latest, boundary), older, boundary)
    ensures Covering(result, folded, folded + tail, boundary)
  {}

  /** A scan of the tail, in whatever order its records come. */
  method BestOfTail(tail: map<int, Record>, ghost bars: map<int, Record>, boundary: int, start: Option<Record>)
    returns (result: Option<Record>)
    requires Filed(tail) && forall s :: s in tail ==> s in bars && bars[s] == tail[s]
    requires start.Some? ==> start.value.start < boundary && IsBar(start.value, bars)
    requires forall s :: s in bars && s !in tail && s < boundary ==> start.Some? && s <= start.value.start
    ensures IsMark(result, bars, boundary)
  {
    result := start;
    var left := tail.Keys;
    while left != {}
      invariant forall s :: s in left ==> s in tail
      invariant result.Some? ==> result.value.start < boundary && IsBar(result.value, bars)
      invariant forall s :: s in bars && s !in left && s < boundary ==> result.Some? && s <= result.value.start
      decreases |left|
    {
      var s := Pick(left);
      left := left - {s};
      result := Better(result, tail[s], boundary);
    }
  }
}
