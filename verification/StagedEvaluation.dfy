/** The staged evaluation result: the ranking mode the counters choose, the selected rows with their recomputed fields,
    and the engine's own validation of the result, which it passes exactly when its support did not contradict
    itself. */
module StagedEvaluation {
  import opened Options
  import opened RankingRows
  import opened FieldAccounting
  import opened Evaluation

  datatype Mode = UnavailableMode | QualifiedCurrent | DegradedBootstrap | DegradedCurrent | Stale | Suppressed

  datatype ModeReason = NoModeReason | NoCommittedWatermark | NoTrustedMarks | IncompletePopulation
                      | QualificationIncomplete | GlobalSuppression

  datatype Result = Result(mode: Mode, reason: ModeReason, tally: Tally, covered: int, unresolved: nat, rows: seq<Row>,
                           invalidSupport: bool, enrichedRows: nat, enrichmentBound: bool)

  datatype Shown = NoRows | Passers | Known

  function DegradedReason(y: Tally): ModeReason {
    if y.population.unknown != 0 then IncompletePopulation else QualificationIncomplete
  }

  /** The mode, its reason, and which rows it shows. */
  function ModeOf(y: Tally, lifecycle: Lifecycle): (Mode, ModeReason, Shown) {
    if lifecycle == Elsewhere then (UnavailableMode, NoCommittedWatermark, NoRows)
    else if y.population.unknown == 0 && y.complete then (QualifiedCurrent, NoModeReason, Passers)
    else if lifecycle == Hydrating && y.knownRankable > 0 && y.allBootstrap then
      (DegradedBootstrap, DegradedReason(y), Known)
    else if y.knownRankable > 0 then (DegradedCurrent, DegradedReason(y), Known)
    else (UnavailableMode, NoTrustedMarks, NoRows)
  }

  // ------------------------------------------------------------------------------------------------------- enrichment

  /** Replaces the five measured fields in order, up to the first that cannot be replaced. */
  function ReplaceFields(counts: seq<FieldCounts>, was: seq<Field>, now: seq<Field>): (r: (seq<FieldCounts>, bool))
    requires |counts| == |was| == |now|
    ensures |r.0| == |counts|
    decreases |counts|
  {
    if counts == [] then (counts, true)
    else
      var n := |counts| - 1;
      var (front, ok) := ReplaceFields(counts[..n], was[..n], now[..n]);
      if !ok then (front + [counts[n]], false)
      else
        var (one, fits) := Replace(counts[n], was[n], now[n]);
        (front + [one], fits)
  }

  datatype Enrichment = Enrichment(fields: seq<FieldCounts>, rows: seq<Row>, done: nat, ok: bool)

  /** The row still describes the symbol it was made of. */
  predicate StillThere(row: Row, subjects: seq<Subject>, t: Target) {
    && row.index < |subjects| && subjects[row.index].symbol == row.symbol && subjects[row.index].mark.Some?
    && subjects[row.index].mark.value.close == row.last
    && t.at - subjects[row.index].mark.value.end == row.age
  }

  /** One selected row gets its recomputed fields, and the accounting gets them with it. */
  function EnrichRow(subjects: seq<Subject>, t: Target, e: Enrichment, k: nat): (next: Enrichment)
    requires AllWellFormed(subjects) && |e.fields| == MEASURED_FIELDS + 1 && k < |e.rows|
    ensures |next.fields| == MEASURED_FIELDS + 1 && |next.rows| == |e.rows|
  {
    if !e.ok then e
    else if !StillThere(e.rows[k], subjects, t) || |e.rows[k].fields| != MEASURED_FIELDS then e.(ok := false)
    else
      var row, now := e.rows[k], EnrichedOf(subjects[e.rows[k].index]);
      var (fields, ok) := ReplaceFields(e.fields[1..], row.fields, now);
      if !ok then e.(fields := [e.fields[0]] + fields, ok := false)
      else e.(fields := [e.fields[0]] + fields, rows := e.rows[k := row.(fields := now)], done := e.done + 1)
  }

  function Enriched(subjects: seq<Subject>, t: Target, e: Enrichment, k: nat): (next: Enrichment)
    requires AllWellFormed(subjects) && |e.fields| == MEASURED_FIELDS + 1 && k <= |e.rows|
    ensures |next.fields| == MEASURED_FIELDS + 1 && |next.rows| == |e.rows|
  {
    if k == 0 then e else EnrichRow(subjects, t, Enriched(subjects, t, e, k - 1), k - 1)
  }

  // ---------------------------------------------------------------------------------------------------------- staging

  datatype Inputs = Inputs(ready: bool, suppressed: bool, supportValid: bool, lifecycle: Lifecycle)

  /** A result that shows nothing and counted nobody. */
  function NotStaged(mode: Mode, reason: ModeReason): Result {
    Result(mode, reason, NobodyOver(MEASURED_FIELDS + 1), 0, 0, [], false, 0, false)
  }

  /** The rows a mode shows: the best twenty of its stream, ranked; only qualified rows may be followed live. */
  function Selected(subjects: seq<Subject>, t: Target, shown: Shown): (rows: seq<Row>)
    requires AllWellFormed(subjects)
    ensures |rows| <= MAXIMUM_ROWS
  {
    match shown
    case NoRows => []
    case Passers => Ranked(Best(RowsOf(subjects, |subjects|, t, true)), true)
    case Known => Ranked(Best(RowsOf(subjects, |subjects|, t, false)), false)
  }

  /** What a whole evaluation stages. */
  function Staged(subjects: seq<Subject>, t: Target, i: Inputs): (r: Result)
    requires AllWellFormed(subjects)
  {
    if !i.ready then NotStaged(UnavailableMode, NoCommittedWatermark)
    else if i.suppressed then NotStaged(Suppressed, GlobalSuppression)
    else
      var y := TallyOf(subjects, |subjects|, t);
      var (mode, reason, shown) := ModeOf(y, i.lifecycle);
      var rows := Selected(subjects, t, shown);
      var e := Enriched(subjects, t, Enrichment(y.fields, rows, 0, true), |rows|);
      Result(mode, reason, y.(fields := e.fields), y.population.universe - y.population.unknown, y.population.unknown,
             e.rows, !i.supportValid || y.contradicted || !e.ok, e.done, true)
  }

  /** Keeps a ranked symbol's row among the best so far. */
  method Keep(kept: seq<Row>, subjects: seq<Subject>, i: nat, t: Target, passersOnly: bool) returns (next: seq<Row>)
    requires AllWellFormed(subjects) && DistinctSubjects(subjects) && i < |subjects|
    requires HasRow(subjects[i], t) && (passersOnly ==> Passes(subjects[i]))
    requires multiset(kept) == multiset(Best(RowsOf(subjects, i, t, passersOnly)))
    ensures multiset(next) == multiset(Best(RowsOf(subjects, i + 1, t, passersOnly)))
  {
    hide DistinctSubjects, Best, DistinctSymbols, Passes;
    RowsDistinct(subjects, i + 1, t, passersOnly);
    next := Retain(kept, RowOf(subjects[i], i, t), RowsOf(subjects, i, t, passersOnly));
  }

  /** The pass over the population, with the two streams of best rows kept as it goes. */
  method Pass(subjects: seq<Subject>, t: Target) returns (y: Tally, qualified: seq<Row>, degraded: seq<Row>)
    requires AllWellFormed(subjects) && DistinctSubjects(subjects)
    ensures y == TallyOf(subjects, |subjects|, t)
    ensures multiset(qualified) == multiset(Best(RowsOf(subjects, |subjects|, t, true)))
    ensures multiset(degraded) == multiset(Best(RowsOf(subjects, |subjects|, t, false)))
  {
    y, qualified, degraded := NobodyOver(MEASURED_FIELDS + 1), [], [];
    for i := 0 to |subjects|
      invariant y == TallyOf(subjects, i, t)
      invariant multiset(qualified) == multiset(Best(RowsOf(subjects, i, t, true)))
      invariant multiset(degraded) == multiset(Best(RowsOf(subjects, i, t, false)))
    {
      var ranked;
      y, ranked := CountSubject(y, subjects[i], t);
      if ranked { degraded := Keep(degraded, subjects, i, t, false); }
      if ranked && Passes(subjects[i]) { qualified := Keep(qualified, subjects, i, t, true); }
    }
  }

  // ---------------------------------------------------------------------------------------------- where rows are from

  ghost predicate DistinctSubjects(subjects: seq<Subject>) {
    forall i, j :: 0 <= i < j < |subjects| ==> subjects[i].symbol != subjects[j].symbol
  }

  /** A row made of a rankable symbol with a current return. */
  ghost predicate Describes(row: Row, subjects: seq<Subject>, n: nat, t: Target)
    requires AllWellFormed(subjects) && n <= |subjects|
  {
    && row.index < n && HasRow(subjects[row.index], t)
    && row.(rank := 0, tqEligible := false) == RowOf(subjects[row.index], row.index, t)
  }

  lemma {:induction false} RowsDescribe(subjects: seq<Subject>, n: nat, t: Target, passersOnly: bool)
    requires AllWellFormed(subjects) && n <= |subjects|
    ensures forall row :: row in RowsOf(subjects, n, t, passersOnly) ==> Describes(row, subjects, n, t)
  {
    if n > 0 { RowsDescribe(subjects, n - 1, t, passersOnly); }
  }

  lemma {:induction false} RowsDistinct(subjects: seq<Subject>, n: nat, t: Target, passersOnly: bool)
    requires AllWellFormed(subjects) && DistinctSubjects(subjects) && n <= |subjects|
    ensures DistinctSymbols(RowsOf(subjects, n, t, passersOnly))
  {
    if n > 0 {
      RowsDistinct(subjects, n - 1, t, passersOnly);
      RowsDescribe(subjects, n - 1, t, passersOnly);
      var rows := RowsOf(subjects, n - 1, t, passersOnly);
      forall i | 0 <= i < |rows| ensures rows[i].symbol != subjects[n - 1].symbol {
        assert rows[i] in rows;
      }
    }
  }

  lemma AddCounts(y: Tally, s: Subject, t: Target)
    requires WellFormed(s) && |y.fields| == MEASURED_FIELDS + 1
    ensures Add(y, s, t).totalPassers == y.totalPassers + Bit(HasRow(s, t) && Passes(s))
    ensures Add(y, s, t).knownRankable == y.knownRankable + Bit(HasRow(s, t))
  {}

  lemma RowsStep(subjects: seq<Subject>, n: nat, t: Target, passersOnly: bool)
    requires AllWellFormed(subjects) && n < |subjects|
    ensures |RowsOf(subjects, n + 1, t, passersOnly)|
         == |RowsOf(subjects, n, t, passersOnly)|
            + Bit(HasRow(subjects[n], t) && (passersOnly ==> Passes(subjects[n])))
  {}

  /** As many rows as the counters say. */
  lemma {:induction false} RowsCounted(subjects: seq<Subject>, n: nat, t: Target)
    requires AllWellFormed(subjects) && n <= |subjects|
    ensures |RowsOf(subjects, n, t, true)| == TallyOf(subjects, n, t).totalPassers
    ensures |RowsOf(subjects, n, t, false)| == TallyOf(subjects, n, t).knownRankable
  {
    hide Add;
    if n > 0 {
      RowsCounted(subjects, n - 1, t);
      RowsStep(subjects, n - 1, t, true);
      RowsStep(subjects, n - 1, t, false);
      AddCounts(TallyOf(subjects, n - 1, t), subjects[n - 1], t);
    }
  }
}
