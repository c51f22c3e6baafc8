/** The engine's validation of a staged evaluation, and the staging method with the theorem that the two agree. */
module EvaluationAccepted {
  import opened RankingRows
  import opened FieldAccounting
  import opened Evaluation
  import opened StagedEvaluation
  import opened EvaluationValidates

  // ------------------------------------------------------------------------------------------------------- validation

  ghost predicate QualificationValid(y: Tally) {
    && y.qualification.notYetPassed + y.qualification.provisional + y.qualification.finalized
       + y.qualification.unresolved == y.population.marks.rankable
    && y.totalPassers + y.qualifiedDayInvalid == y.qualification.provisional + y.qualification.finalized
    && y.knownRankable + y.dayInvalid == y.population.marks.rankable
    && y.qualifiedDayInvalid <= y.dayInvalid
  }

  ghost predicate UncertaintyValid(y: Tally) {
    y.uncertainty.bootstrap + y.uncertainty.postGap + y.uncertainty.local
    == y.population.unknown + y.qualification.unresolved
  }

  ghost predicate PopulationValid(p: PopulationCounts, covered: int, unresolved: nat) {
    PopulationAdds(p) && covered + p.unknown == p.universe && unresolved == p.unknown
  }

  ghost predicate CountsValid(y: Tally, covered: int, unresolved: nat) {
    && PopulationValid(y.population, covered, unresolved) && TransitionsAdd(y.transitions, y.population)
    && QualificationValid(y) && UncertaintyValid(y) && FloatsAdd(y.floats, y.population.universe)
  }

  ghost predicate FieldsValid(y: Tally) {
    && |y.fields| == MEASURED_FIELDS + 1
    && forall d :: 0 <= d <= MEASURED_FIELDS ==> Reconciles(y.fields[d], y.population.universe)
  }

  ghost predicate RowsValid(rows: seq<Row>, tq: bool) {
    && |rows| <= MAXIMUM_ROWS
    && (forall i :: 0 <= i < |rows| ==> rows[i].rank == i + 1 && rows[i].symbol != 0 && rows[i].last >= MINIMUM_PRICE
                                        && rows[i].age >= 0 && rows[i].tqEligible == tq)
    && (forall i :: 0 < i < |rows| ==> Precedes(rows[i - 1], rows[i]))
    && DistinctSymbols(rows)
  }

  /** The mode against the counters, the reason and the number of rows. */
  ghost predicate ModeValid(r: Result) {
    var y := r.tally;
    var doubtful := y.population.unknown != 0 || y.qualification.unresolved != 0;
    match r.mode
    case QualifiedCurrent =>
      r.reason == NoModeReason && !doubtful && |r.rows| == Least(y.totalPassers)
    case DegradedBootstrap =>
      && y.knownRankable > 0 && doubtful && |r.rows| == Least(y.knownRankable)
      && y.uncertainty.postGap == 0 && y.uncertainty.local == 0 && y.uncertainty.bootstrap != 0
      && r.reason == DegradedReason(y)
    case DegradedCurrent =>
      y.knownRankable > 0 && doubtful && |r.rows| == Least(y.knownRankable) && r.reason == DegradedReason(y)
    case UnavailableMode =>
      r.reason in {NoCommittedWatermark, NoTrustedMarks, IncompletePopulation} && r.rows == []
    case Stale => r.reason == NoModeReason && r.rows == []
    case Suppressed => r.reason == GlobalSuppression && r.rows == []
  }

  /** Everything the engine checks before it may apply a staged result. */
  ghost predicate Validates(r: Result) {
    && !r.invalidSupport
    && CountsValid(r.tally, r.covered, r.unresolved) && FieldsValid(r.tally)
    && r.enrichedRows <= MAXIMUM_ROWS && (r.enrichmentBound ==> r.enrichedRows == |r.rows|)
    && RowsValid(r.rows, r.mode == QualifiedCurrent)
    && ModeValid(r)
  }

  // ------------------------------------------------------------------------------------------------ the rows selected

  ghost predicate Named(subjects: seq<Subject>) {
    DistinctSubjects(subjects) && forall i :: 0 <= i < |subjects| ==> subjects[i].symbol != 0
  }

  lemma BestFrom(subjects: seq<Subject>, t: Target, passersOnly: bool)
    requires AllWellFormed(subjects) && Named(subjects)
    ensures var best := Best(RowsOf(subjects, |subjects|, t, passersOnly));
            && Ordered(best) && DistinctSymbols(best)
            && forall i :: 0 <= i < |best| ==> Describes(best[i], subjects, |subjects|, t)
  {
    var rows := RowsOf(subjects, |subjects|, t, passersOnly);
    RowsDistinct(subjects, |subjects|, t, passersOnly);
    RowsDescribe(subjects, |subjects|, t, passersOnly);
    OrderingHolds(rows);
    SymbolsOfOrdering(rows);
    forall i | 0 <= i < |Best(rows)| ensures Describes(Best(rows)[i], subjects, |subjects|, t) {
      assert Best(rows)[i] == Ordering(rows)[i];
      assert Ordering(rows)[i] in multiset(rows);
    }
  }

  lemma DescribedRow(row: Row, subjects: seq<Subject>, t: Target)
    requires AllWellFormed(subjects) && Describes(row, subjects, |subjects|, t)
    ensures row.symbol == subjects[row.index].symbol && row.last >= MINIMUM_PRICE && row.age >= 0
  {}

  lemma RankKeepsDescription(row: Row, rank: nat, tq: bool, subjects: seq<Subject>, t: Target)
    requires AllWellFormed(subjects) && Describes(row, subjects, |subjects|, t)
    ensures Describes(row.(rank := rank, tqEligible := tq), subjects, |subjects|, t)
  {}

  lemma RankedDescribes(best: seq<Row>, tq: bool, subjects: seq<Subject>, t: Target)
    requires AllWellFormed(subjects) && DistinctSymbols(best)
    requires forall i :: 0 <= i < |best| ==> Describes(best[i], subjects, |subjects|, t)
    ensures RowsDescribed(Ranked(best, tq), subjects, t) && Selects(Ranked(best, tq), subjects)
  {
    var rows := Ranked(best, tq);
    forall i | 0 <= i < |rows|
      ensures Describes(rows[i], subjects, |subjects|, t)
      ensures best[i].symbol == subjects[rows[i].index].symbol
    {
      RankKeepsDescription(best[i], i + 1, tq, subjects, t);
      DescribedRow(best[i], subjects, t);
    }
    forall i, j | 0 <= i < j < |rows| ensures rows[i].index != rows[j].index {
      assert best[i].symbol != best[j].symbol;
    }
  }

  lemma RankedOrdered(best: seq<Row>, tq: bool)
    requires Ordered(best) && DistinctSymbols(best)
    ensures var rows := Ranked(best, tq);
            (forall i :: 0 < i < |rows| ==> Precedes(rows[i - 1], rows[i])) && DistinctSymbols(rows)
  {
    forall i | 0 < i < |best| ensures Precedes(best[i - 1], best[i]) {}
  }

  lemma RankedValid(best: seq<Row>, tq: bool, subjects: seq<Subject>, t: Target)
    requires AllWellFormed(subjects) && Named(subjects) && Ordered(best) && DistinctSymbols(best)
    requires |best| <= MAXIMUM_ROWS
    requires forall i :: 0 <= i < |best| ==> Describes(best[i], subjects, |subjects|, t)
    ensures RowsValid(Ranked(best, tq), tq)
  {
    var rows := Ranked(best, tq);
    RankedOrdered(best, tq);
    forall i | 0 <= i < |rows|
      ensures rows[i].rank == i + 1 && rows[i].symbol != 0 && rows[i].last >= MINIMUM_PRICE && rows[i].age >= 0
           && rows[i].tqEligible == tq
    {
      DescribedRow(best[i], subjects, t);
    }
  }

  lemma SelectedDescribes(subjects: seq<Subject>, t: Target, shown: Shown)
    requires AllWellFormed(subjects) && Named(subjects)
    ensures var rows := Selected(subjects, t, shown);
            RowsDescribed(rows, subjects, t) && Selects(rows, subjects) && RowsValid(rows, shown == Passers)
  {
    if shown != NoRows {
      BestFrom(subjects, t, shown == Passers);
      var best := Best(RowsOf(subjects, |subjects|, t, shown == Passers));
      RankedDescribes(best, shown == Passers, subjects, t);
      RankedValid(best, shown == Passers, subjects, t);
    }
  }

  /** Recomputed fields change nothing the row checks look at. */
  lemma EnrichedRowsValid(subjects: seq<Subject>, t: Target, rows: seq<Row>, e: Enrichment, tq: bool)
    requires AllWellFormed(subjects) && Selects(rows, subjects) && RowsValid(rows, tq)
    requires EnrichmentHolds(subjects, t, rows, |rows|, e)
    ensures RowsValid(e.rows, tq)
  {
    assert forall i :: 0 <= i < |rows| ==> e.rows[i].symbol == rows[i].symbol && e.rows[i].percent == rows[i].percent;
  }

  lemma ModeChosen(subjects: seq<Subject>, t: Target, lifecycle: Lifecycle)
    requires AllWellFormed(subjects)
    ensures var y := TallyOf(subjects, |subjects|, t);
            var (mode, reason, shown) := ModeOf(y, lifecycle);
            && (mode == QualifiedCurrent <==> shown == Passers)
            && |Selected(subjects, t, shown)| == match shown case NoRows => 0
                                                 case Passers => Least(y.totalPassers)
                                                 case Known => Least(y.knownRankable)
  {
    RowsCounted(subjects, |subjects|, t);
  }

  // ------------------------------------------------------------------------------------------------------ the theorem

  /** The support of a whole evaluation: the recorded support is well formed, no symbol contradicts itself, and every
      selected row's recomputed fields are valid ones. */
  ghost predicate Supported(subjects: seq<Subject>, t: Target, i: Inputs)
    requires AllWellFormed(subjects) && Named(subjects)
  {
    var rows := Selected(subjects, t, ModeOf(TallyOf(subjects, |subjects|, t), i.lifecycle).2);
    SelectedDescribes(subjects, t, ModeOf(TallyOf(subjects, |subjects|, t), i.lifecycle).2);
    i.supportValid && AgreeTo(subjects, |subjects|, t) && EnrichedValid(subjects, rows, |rows|)
  }

  lemma NobodyFieldsValid()
    ensures FieldsValid(NobodyOver(MEASURED_FIELDS + 1))
  {
    ColumnReconciles([]);
    assert CountsOf([]) == NoFields;
    var y := NobodyOver(MEASURED_FIELDS + 1);
    forall d | 0 <= d <= MEASURED_FIELDS ensures Reconciles(y.fields[d], y.population.universe) {
      assert y.fields[d] == CountsOf([]);
    }
  }

  lemma AddsValid(y: Tally, covered: int, unresolved: nat)
    requires Adds(y) && covered + y.population.unknown == y.population.universe && unresolved == y.population.unknown
    ensures CountsValid(y, covered, unresolved)
  {}

  /** A result that shows nothing, for a reason that fits its mode. */
  ghost predicate ShowsNothing(r: Result) {
    && r.rows == [] && !r.invalidSupport && r.enrichedRows == 0 && FieldsValid(r.tally) && Adds(r.tally)
    && r.covered + r.tally.population.unknown == r.tally.population.universe
    && r.unresolved == r.tally.population.unknown
    && ((r.mode == UnavailableMode && r.reason == NoCommittedWatermark)
        || (r.mode == Suppressed && r.reason == GlobalSuppression))
  }

  lemma NothingShownValidates(r: Result)
    ensures ShowsNothing(r) ==> Validates(r)
  {
    if ShowsNothing(r) { AddsValid(r.tally, r.covered, r.unresolved); }
  }

  lemma StagedSupport(subjects: seq<Subject>, t: Target, i: Inputs)
    requires AllWellFormed(subjects) && Named(subjects) && i.ready && !i.suppressed
    ensures !Staged(subjects, t, i).invalidSupport <==> Supported(subjects, t, i)
  {
    var y := TallyOf(subjects, |subjects|, t);
    var shown := ModeOf(y, i.lifecycle).2;
    var rows := Selected(subjects, t, shown);
    SelectedDescribes(subjects, t, shown);
    TallyAgrees(subjects, |subjects|, t);
    if !y.contradicted {
      TallyCounts(subjects, |subjects|, t);
      EnrichedMeans(subjects, t, y.fields, rows, |rows|);
    }
  }

  lemma ModeHolds(y: Tally, fields: seq<FieldCounts>, lifecycle: Lifecycle, rows: seq<Row>, r: Result)
    requires Adds(y) && r.tally == y.(fields := fields) && |r.rows| == |rows|
    requires var (mode, reason, shown) := ModeOf(y, lifecycle);
             && r.mode == mode && r.reason == reason
             && |rows| == match shown case NoRows => 0 case Passers => Least(y.totalPassers)
                          case Known => Least(y.knownRankable)
    ensures ModeValid(r)
  {}

  lemma SupportedValidates(subjects: seq<Subject>, t: Target, i: Inputs)
    requires AllWellFormed(subjects) && Named(subjects) && i.ready && !i.suppressed && Supported(subjects, t, i)
    ensures Validates(Staged(subjects, t, i))
  {
    var r, y := Staged(subjects, t, i), TallyOf(subjects, |subjects|, t);
    var shown := ModeOf(y, i.lifecycle).2;
    var rows := Selected(subjects, t, shown);
    StagedSupport(subjects, t, i);
    SelectedDescribes(subjects, t, shown);
    TallyAdds(subjects, |subjects|, t);
    TallyAgrees(subjects, |subjects|, t);
    TallyCounts(subjects, |subjects|, t);
    EnrichedMeans(subjects, t, y.fields, rows, |rows|);
    var e := Enriched(subjects, t, Enrichment(y.fields, rows, 0, true), |rows|);
    forall d | 0 <= d <= MEASURED_FIELDS ensures Reconciles(e.fields[d], |subjects|) {
      EnrichedReconciles(subjects, t, rows, e, d);
    }
    EnrichedRowsValid(subjects, t, rows, e, shown == Passers);
    ModeChosen(subjects, t, i.lifecycle);
    ModeHolds(y, e.fields, i.lifecycle, rows, r);
  }

  /** A staged evaluation passes the engine's validation exactly when its support did not contradict itself, for every
      population of named, distinct symbols. */
  lemma StagedValidates(subjects: seq<Subject>, t: Target, i: Inputs)
    requires AllWellFormed(subjects) && Named(subjects)
    ensures Validates(Staged(subjects, t, i)) <==> (i.ready && !i.suppressed ==> Supported(subjects, t, i))
  {
    if !i.ready || i.suppressed {
      NobodyFieldsValid();
      NobodyAdds(MEASURED_FIELDS + 1);
      NothingShownValidates(Staged(subjects, t, i));
    } else {
      StagedSupport(subjects, t, i);
      if Supported(subjects, t, i) { SupportedValidates(subjects, t, i); }
    }
  }

  // ------------------------------------------------------------------------------------------------ the method itself

  method ReplaceInOrder(counts: seq<FieldCounts>, was: seq<Field>, now: seq<Field>)
    returns (replaced: seq<FieldCounts>, ok: bool)
    requires |counts| == |was| == |now|
    ensures (replaced, ok) == ReplaceFields(counts, was, now)
  {
    replaced, ok := [], true;
    for d := 0 to |counts|
      invariant (replaced, ok) == ReplaceFields(counts[..d], was[..d], now[..d])
    {
      assert counts[..d + 1][..d] == counts[..d] && was[..d + 1][..d] == was[..d] && now[..d + 1][..d] == now[..d];
      var one := counts[d];
      if ok { one, ok := ReplaceOne(counts[d], was[d], now[d]); }
      replaced := replaced + [one];
    }
    assert counts[..|counts|] == counts && was[..|counts|] == was && now[..|counts|] == now;
  }

  method ReplaceOne(c: FieldCounts, was: Field, now: Field) returns (next: FieldCounts, ok: bool)
    ensures (next, ok) == Replace(c, was, now)
  {
    next, ok := c, false;
    if !ValidField(was) || !ValidField(now) { return; }
    if c.statuses[was.status] == 0 || c.reasons[was.reason] == 0 || c.pairs[(was.status, was.reason)] == 0 { return; }
    next := CountField(FieldCounts(Down(c.statuses, was.status), Down(c.reasons, was.reason),
                                   Down(c.pairs, (was.status, was.reason))), now);
    ok := true;
  }

  /** Recomputes the selected rows, one by one, until one cannot be. */
  method Enrich(subjects: seq<Subject>, t: Target, fields: seq<FieldCounts>, rows: seq<Row>) returns (e: Enrichment)
    requires AllWellFormed(subjects) && |fields| == MEASURED_FIELDS + 1
    ensures e == Enriched(subjects, t, Enrichment(fields, rows, 0, true), |rows|)
  {
    e := Enrichment(fields, rows, 0, true);
    for k := 0 to |rows|
      invariant e == Enriched(subjects, t, Enrichment(fields, rows, 0, true), k)
    {
      if e.ok {
        if !StillThere(e.rows[k], subjects, t) || |e.rows[k].fields| != MEASURED_FIELDS {
          e := e.(ok := false);
        } else {
          var row, now := e.rows[k], EnrichedOf(subjects[e.rows[k].index]);
          var replaced, ok := ReplaceInOrder(e.fields[1..], row.fields, now);
          e := e.(fields := [e.fields[0]] + replaced, ok := ok);
          if ok { e := e.(rows := e.rows[k := row.(fields := now)], done := e.done + 1); }
        }
      }
    }
  }

  /** One evaluation at a target, staged for the engine to validate. */
  method Stage(subjects: seq<Subject>, t: Target, i: Inputs) returns (r: Result)
    requires AllWellFormed(subjects) && Named(subjects)
    ensures r == Staged(subjects, t, i)
    ensures Validates(r) <==> (i.ready && !i.suppressed ==> Supported(subjects, t, i))
  {
    StagedValidates(subjects, t, i);
    if !i.ready { return NotStaged(UnavailableMode, NoCommittedWatermark); }
    if i.suppressed { return NotStaged(Suppressed, GlobalSuppression); }
    var y, qualified, degraded := Pass(subjects, t);
    var (mode, reason, shown) := ModeOf(y, i.lifecycle);
    var rows := Show(subjects, t, shown, qualified, degraded);
    var e := Enrich(subjects, t, y.fields, rows);
    r := Result(mode, reason, y.(fields := e.fields), y.population.universe - y.population.unknown,
                y.population.unknown, e.rows, !i.supportValid || y.contradicted || !e.ok, e.done, true);
  }

  method Show(subjects: seq<Subject>, t: Target, shown: Shown, qualified: seq<Row>, degraded: seq<Row>)
    returns (rows: seq<Row>)
    requires AllWellFormed(subjects) && Named(subjects)
    requires multiset(qualified) == multiset(Best(RowsOf(subjects, |subjects|, t, true)))
    requires multiset(degraded) == multiset(Best(RowsOf(subjects, |subjects|, t, false)))
    ensures rows == Selected(subjects, t, shown)
  {
    RowsDistinct(subjects, |subjects|, t, true);
    RowsDistinct(subjects, |subjects|, t, false);
    RetainedIsBest(qualified, RowsOf(subjects, |subjects|, t, true));
    RetainedIsBest(degraded, RowsOf(subjects, |subjects|, t, false));
    match shown {
      case NoRows => { rows := []; }
      case Passers => { rows := SortRows(qualified, true); }
      case Known => { rows := SortRows(degraded, false); }
    }
  }
}
