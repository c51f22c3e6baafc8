/** The canonical decisions drive the measurement state: every decision changes the bar of at most one second,
    compaction changes none, and the calls each disposition makes keep the measurements' bars the bars of the store.
    So, until a folded bar is withdrawn, the as-of answers of `SessionFeatures` are about the bars decisions left. */
module FeatureRuns {
  import opened Options
  import opened SessionUnits
  import opened LivePositions
  import opened CanonicalMerge
  import opened AggregateStore
  import Intervals
  import M = MeasurementPoints
  import S = SessionFeatures
  import P = AggregatePrefixes

  /** The store holds a bar for a second, in the tail or folded. */
  ghost predicate HasBar(s: Store, at: int, v: Values) {
    (at in s.tail && s.tail[at].values == v) || exists i :: FoldedIndex(s.folded, i, at) && s.folded[i].values == v
  }

  ghost predicate Keyed(s: Store) {
    forall k :: k in s.tail ==> s.tail[k].start == k
  }

  ghost predicate SameHeld(s: Store, t: Store) {
    forall at, v :: HasBar(s, at, v) <==> HasBar(t, at, v)
  }

  /** The bar of one second is replaced, or taken away, and every other stays. */
  ghost predicate OneChanged(s: Store, t: Store, start: int, bar: Option<Values>) {
    forall at, v :: HasBar(t, at, v) <==> if at == start then bar == Some(v) else HasBar(s, at, v)
  }

  lemma FoldedMore(folded: seq<Record>, r: Record, at: int, v: Values)
    ensures (exists i :: FoldedIndex(folded + [r], i, at) && (folded + [r])[i].values == v)
       <==> (exists i :: FoldedIndex(folded, i, at) && folded[i].values == v) || (r.start == at && r.values == v)
  {
    var more := folded + [r];
    if i :| FoldedIndex(folded, i, at) && folded[i].values == v { assert FoldedIndex(more, i, at); }
    if r.start == at && r.values == v { assert FoldedIndex(more, |folded|, at); }
    if i :| FoldedIndex(more, i, at) && more[i].values == v {
      if i < |folded| { assert FoldedIndex(folded, i, at); }
    }
  }

  lemma FoldOutSame(s: Store, start: int)
    requires start in s.tail && s.tail[start].start == start
    ensures SameHeld(s, FoldOut(s, start))
  {
    forall at, v ensures HasBar(s, at, v) <==> HasBar(FoldOut(s, start), at, v) {
      FoldedMore(s.folded, s.tail[start], at, v);
    }
  }

  /** Compaction moves bars and changes none. */
  lemma {:induction false} CompactSame(s: Store, now: int)
    requires Keyed(s)
    ensures SameHeld(s, Compact(s, now))
    decreases |s.tail.Keys|
  {
    if exists k :: IsLeast(s.tail.Keys, k) && Expired(now, k) {
      var least :| IsLeast(s.tail.Keys, least) && Expired(now, least)
                   && Compact(s, now) == Compact(FoldOut(s, least), now);
      assert (s.tail - {least}).Keys == s.tail.Keys - {least};
      FoldOutSame(s, least);
      CompactSame(FoldOut(s, least), now);
    }
  }

  /** No folded bar is of a second that is not present. */
  lemma NotFolded(s: Store, at: int)
    requires FoldedHolds(s) && at !in s.bits.presence
    ensures forall i :: !FoldedIndex(s.folded, i, at)
  {}

  lemma PutChanges(c: Store, r: Record)
    requires FoldedHolds(c) && r.start !in c.bits.presence
    ensures OneChanged(c, PutTail(c, r), r.start, Some(r.values))
  {
    NotFolded(c, r.start);
  }

  lemma FoldDirectChanges(c: Store, r: Record)
    requires FoldedHolds(c) && r.start !in c.bits.presence && r.start !in c.tail
    ensures OneChanged(c, FoldDirect(c, r), r.start, Some(r.values))
  {
    NotFolded(c, r.start);
    forall at, v
      ensures HasBar(FoldDirect(c, r), at, v) <==> if at == r.start then v == r.values else HasBar(c, at, v)
    {
      FoldedMore(c.folded, r, at, v);
    }
  }

  lemma CompactedFor(s: Store, f: Fact, now: int)
    requires Holds(s, now) && f.start !in s.bits.presence
    requires Expired(now, f.start) ==> f.start !in s.tail
    ensures var c := Compact(s, now);
            FoldedHolds(c) && f.start !in c.bits.presence && (Expired(now, f.start) ==> f.start !in c.tail)
  {
    CompactHolds(s, now);
    CompactCompacts(s, now);
  }

  lemma InstallChanges(s: Store, f: Fact, now: int)
    requires Holds(s, now) && f.start !in s.bits.presence
    requires Expired(now, f.start) ==> f.source.Historical? && f.start !in s.tail
    ensures OneChanged(s, Install(s, f, now), f.start, Some(f.values))
  {
    hide Compact, HasBar, Holds, FoldedHolds;
    CompactedFor(s, f, now);
    assert Keyed(s) by { HoldsKeyed(s, now); }
    CompactSame(s, now);
    var c := Compact(s, now);
    var cleared, r := c.(bits := ClearAbsence(c.bits, f)), Canonical(c, f);
    SameHeldFrame(s, c, cleared);
    SameFolded(c, cleared);
    if f.source.Historical? && Expired(now, f.start) {
      FoldDirectChanges(cleared, r);
    } else {
      PutChanges(cleared, r);
    }
  }

  lemma HoldsKeyed(s: Store, now: int)
    requires Holds(s, now)
    ensures Keyed(s)
  {}

  lemma SameFolded(c: Store, t: Store)
    requires FoldedHolds(c) && t.folded == c.folded && t.bits.presence == c.bits.presence && t.marks == c.marks
    ensures FoldedHolds(t)
  {}

  lemma SameHeldFrame(s: Store, c: Store, t: Store)
    requires SameHeld(s, c) && t.tail == c.tail && t.folded == c.folded
    ensures SameHeld(s, t)
  {
    forall at, v ensures HasBar(s, at, v) <==> HasBar(t, at, v) {
      assert HasBar(s, at, v) <==> HasBar(c, at, v);
    }
  }

  lemma WithoutStart(folded: seq<Record>, i: int, start: int, at: int, v: Values)
    requires P.DistinctStarts(folded) && FoldedIndex(folded, i, start)
    ensures var rest := P.Without(folded, i);
            (exists j :: FoldedIndex(rest, j, at) && rest[j].values == v)
            <==> at != start && exists j :: FoldedIndex(folded, j, at) && folded[j].values == v
  {
    var rest := P.Without(folded, i);
    P.WithoutKeeps(folded, i);
    assert |rest| == |folded| - 1;
    hide P.Without;
    if j :| FoldedIndex(rest, j, at) && rest[j].values == v {
      assert FoldedIndex(folded, if j < i then j else j + 1, at);
    }
    if at != start {
      if j :| FoldedIndex(folded, j, at) && folded[j].values == v {
        assert FoldedIndex(rest, if j < i then j else j - 1, at);
      }
    }
  }

  /** A withdrawn second holds nothing, in the tail or folded. */
  lemma WithdrawChanges(s: Store, existing: Record)
    requires FoldedHolds(s) && existing.authority.Historical?
    ensures OneChanged(s, WithdrawHistorical(s, existing), existing.start, None)
  {
    var t, start := Contradict(s, existing), existing.start;
    if start in s.bits.presence {
      var i := UnfoldIs(s, existing);
      hide Unfold, P.Without;
      UnfoldFrame(s, existing);
      forall at, v ensures HasBar(t, at, v) <==> at != start && HasBar(s, at, v) {
        WithoutStart(s.folded, i, start, at, v);
      }
    } else {
      NotFolded(s, start);
    }
    forall at, v ensures HasBar(WithdrawHistorical(s, existing), at, v) <==> HasBar(t, at, v) {}
  }

  lemma IntegrityChanges(s: Store, start: int)
    requires FoldedHolds(s) && start !in s.bits.presence
    ensures OneChanged(s, WithdrawIntegrity(s, start), start, None)
  {
    NotFolded(s, start);
  }

  lemma TouchSame(s: Store, found: Found, position: Position)
    requires found.Found?
    requires found.place.InTail? ==> found.record.start in s.tail && s.tail[found.record.start] == found.record
    ensures SameHeld(s, Touch(s, found, position))
  {
    var t := Touch(s, found, position);
    forall at, v ensures HasBar(s, at, v) <==> HasBar(t, at, v) {}
  }

  /** Every decision changes the bar of the fact's own second alone: to the fact's values if it was accepted, to nothing
      if it was withdrawn, and not at all otherwise. */
  lemma DecisionChanges(s: Store, f: Fact, now: int, reconciled: Option<Values>)
    requires Holds(s, now) && Admissible(f, now)
    ensures var (t, d) := Decide(s, f, now, reconciled);
            match d
            case Inserted => OneChanged(s, t, f.start, Some(f.values))
            case Revised => OneChanged(s, t, f.start, Some(f.values))
            case Withdrawn => OneChanged(s, t, f.start, None)
            case Integrity => OneChanged(s, t, f.start, None)
            case _ => SameHeld(s, t)
  {
    hide HasBar, Install, WithdrawHistorical, WithdrawIntegrity, Touch;
    var found, r := Find(s, f.start), Decide(s, f, now, reconciled);
    if r.1 == Inserted || r.1 == Revised {
      InstallChanges(s, f, now);
    } else if r.1 == Withdrawn {
      WithdrawChanges(s, found.record);
    } else if r.1 == Integrity {
      IntegrityChanges(s, f.start);
    } else if r.1 == ExactDuplicate && found.Found? && f.source.Live? {
      TouchSame(s, found, f.source.position);
    }
  }

  // ----------------------------------------------------------------------------------------------- the calls made

  function BarOf(v: Values): M.Bar {
    M.Bar(v.open, v.high, v.low, v.close, v.volume)
  }

  /** The measurement state holds exactly the bars of the store, each on the side the store has it. */
  ghost predicate Driven(q: S.SessionFeatures, s: Store)
    reads q
  {
    && q.Valid() && q.tail.Keys == s.tail.Keys && q.folded.Keys == s.bits.presence
    && forall at, v :: HasBar(s, at, v) ==> at in q.Bars() && q.Bars()[at] == BarOf(v)
  }

  /** A bar as validation lets it through. */
  predicate Measurable(f: Fact, sessionStart: int) {
    sessionStart <= f.start < sessionStart + SESSION_SECONDS && f.values.low <= f.values.high
  }

  /** Compaction, bar by bar. */
  method CompactExpired(q: S.SessionFeatures, now: int)
    requires q.Valid()
    modifies q
    ensures q.Valid() && q.Bars() == old(q.Bars())
    ensures forall at :: at in q.tail <==> at in old(q.tail) && !Expired(now, at)
    ensures forall at :: at in q.folded <==> at in old(q.folded) || (at in old(q.tail) && Expired(now, at))
  {
    var left := q.tail.Keys;
    while left != {}
      invariant q.Valid() && q.Bars() == old(q.Bars()) && left <= q.tail.Keys
      invariant forall at :: at in q.tail <==> at in old(q.tail) && (at in left || !Expired(now, at))
      invariant forall at :: at in q.folded <==>
                  at in old(q.folded) || (at in old(q.tail) && at !in left && Expired(now, at))
      decreases left
    {
      var at := Intervals.Pick(left);
      left := left - {at};
      if Expired(now, at) { q.Compact(at); }
    }
  }

  /** What the measurement state is told of one decision. */
  method Follow(ghost s: Store, f: Fact, now: int, ghost reconciled: Option<Values>, d: Disposition,
                q: S.SessionFeatures)
    requires Holds(s, now) && Admissible(f, now) && d == Decide(s, f, now, reconciled).1
    requires Driven(q, s) && Measurable(f, q.sessionStart)
    modifies q
    ensures Driven(q, Decide(s, f, now, reconciled).0) || (d == Withdrawn && f.start in s.bits.presence)
  {
    hide HasBar, Decide, Holds, S.SessionFeatures.Valid;
    ghost var t, bars := Decide(s, f, now, reconciled).0, q.Bars();
    DecisionChanges(s, f, now, reconciled);
    DecisionSides(s, f, now, reconciled);
    if d == Inserted || d == Revised {
      Accept(f, now, q);
      SidesAgree(s, t, f, now, q.tail.Keys, q.folded.Keys);
      StillDriven(q, s, t, bars, f.start, Some(f.values));
    } else if d == Withdrawn || d == Integrity {
      if f.start in s.tail { TailApart(s, now, f.start); }
      if f.start in q.tail {
        q.Drop(f.start);
      }
      if f.start !in s.bits.presence {
        assert q.Bars() == bars - {f.start};
        StillDriven(q, s, t, bars, f.start, None);
      }
    }
  }

  lemma TailApart(s: Store, now: int, start: int)
    requires Holds(s, now) && start in s.tail
    ensures start !in s.bits.presence
  {}

  lemma SidesAgree(s: Store, t: Store, f: Fact, now: int, tail: set<int>, folded: set<int>)
    requires AcceptedSides(s, t, f, now)
    requires forall at :: at in tail <==>
               (at in s.tail && !Expired(now, at)) || (at == f.start && !(f.source.Historical? && Expired(now, at)))
    requires forall at :: at in folded <==>
               || at in s.bits.presence || (at in s.tail && Expired(now, at))
               || (at == f.start && f.source.Historical? && Expired(now, at))
    ensures tail == t.tail.Keys && folded == t.bits.presence
  {
    forall at ensures (at in tail <==> at in t.tail) && (at in folded <==> at in t.bits.presence) {}
  }

  /** The bars changed in step. */
  lemma StillDriven(q: S.SessionFeatures, s: Store, t: Store, bars: map<int, M.Bar>, start: int, bar: Option<Values>)
    requires q.Valid() && q.tail.Keys == t.tail.Keys && q.folded.Keys == t.bits.presence
    requires OneChanged(s, t, start, bar)
    requires forall at, v :: HasBar(s, at, v) ==> at in bars && bars[at] == BarOf(v)
    requires q.Bars() == if bar.Some? then bars[start := BarOf(bar.value)] else bars - {start}
    ensures Driven(q, t)
  {
    hide HasBar, S.SessionFeatures.Valid;
    forall at, v | HasBar(t, at, v) ensures at in q.Bars() && q.Bars()[at] == BarOf(v) {
      if at != start { assert HasBar(s, at, v); }
    }
  }

  /** An accepted bar: compaction first, then into the tail, or straight into the folded evidence when it is late. */
  method Accept(f: Fact, now: int, q: S.SessionFeatures)
    requires q.Valid() && f.start !in q.folded && (Expired(now, f.start) ==> f.start !in q.tail)
    requires Measurable(f, q.sessionStart)
    modifies q
    ensures q.Valid() && q.Bars() == old(q.Bars())[f.start := BarOf(f.values)]
    ensures forall at :: at in q.tail <==>
              (at in old(q.tail) && !Expired(now, at))
              || (at == f.start && !(f.source.Historical? && Expired(now, at)))
    ensures forall at :: at in q.folded <==>
              || at in old(q.folded) || (at in old(q.tail) && Expired(now, at))
              || (at == f.start && f.source.Historical? && Expired(now, at))
  {
    CompactExpired(q, now);
    if f.source.Historical? && Expired(now, f.start) {
      q.FoldDirect(f.start, BarOf(f.values));
    } else {
      q.Put(f.start, BarOf(f.values));
    }
  }

  lemma InstallSides(s: Store, f: Fact, now: int)
    requires f.start !in s.bits.presence && (Expired(now, f.start) ==> f.start !in s.tail)
    ensures AcceptedSides(s, Install(s, f, now), f, now)
  {
    hide Compact;
    CompactCompacts(s, now);
  }

  lemma WithdrawSides(s: Store, existing: Record)
    ensures var t := WithdrawHistorical(s, existing);
            t.tail.Keys == s.tail.Keys - {existing.start} && t.bits.presence == s.bits.presence - {existing.start}
  {}

  lemma IntegritySides(s: Store, start: int)
    ensures var t := WithdrawIntegrity(s, start);
            t.tail.Keys == s.tail.Keys - {start} && t.bits.presence == s.bits.presence - {start}
  {}

  lemma TouchSides(s: Store, found: Found, position: Position)
    requires found.Found? && (found.place.InTail? ==> found.record.start in s.tail)
    ensures var t := Touch(s, found, position); t.tail.Keys == s.tail.Keys && t.bits.presence == s.bits.presence
  {
    assert Touch(s, found, position).tail.Keys == s.tail.Keys;
  }

  /** On which side the store has each second after a decision. */
  lemma DecisionSides(s: Store, f: Fact, now: int, reconciled: Option<Values>)
    requires Holds(s, now) && Admissible(f, now)
    ensures var (t, d) := Decide(s, f, now, reconciled);
            match d
            case Inserted => AcceptedSides(s, t, f, now)
            case Revised => AcceptedSides(s, t, f, now)
            case Withdrawn => t.tail.Keys == s.tail.Keys - {f.start} && t.bits.presence == s.bits.presence - {f.start}
            case Integrity =>
              && t.tail.Keys == s.tail.Keys - {f.start} && t.bits.presence == s.bits.presence - {f.start}
              && f.start !in s.bits.presence
            case _ => t.tail.Keys == s.tail.Keys && t.bits.presence == s.bits.presence
  {
    hide Install, WithdrawHistorical, WithdrawIntegrity, Touch, AcceptedSides;
    var found, r := Find(s, f.start), Decide(s, f, now, reconciled);
    if r.1 == Inserted || r.1 == Revised {
      InstallSides(s, f, now);
    } else if r.1 == Withdrawn {
      WithdrawSides(s, found.record);
    } else if r.1 == Integrity {
      IntegritySides(s, f.start);
    } else if r.1 == ExactDuplicate && found.Found? && f.source.Live? {
      TouchSides(s, found, f.source.position);
    }
  }

  ghost predicate AcceptedSides(s: Store, t: Store, f: Fact, now: int) {
    && f.start !in s.bits.presence && (Expired(now, f.start) ==> f.start !in s.tail)
    && (forall at :: at in t.tail <==>
          (at in s.tail && !Expired(now, at)) || (at == f.start && !(f.source.Historical? && Expired(now, at))))
    && forall at :: at in t.bits.presence <==>
         || at in s.bits.presence || (at in s.tail && Expired(now, at))
         || (at == f.start && f.source.Historical? && Expired(now, at))
  }
}
