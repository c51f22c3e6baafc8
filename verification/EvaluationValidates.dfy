/** The evaluation validates itself: what the single pass counts always adds up, and the staged result passes the
    engine's validation exactly when its support did not contradict itself. */
module EvaluationValidates {
  import opened RankingRows
  import opened FieldAccounting
  import opened Evaluation
  import opened StagedEvaluation

  // ---------------------------------------------------------------------------------------------- what the tally keeps

  ghost predicate PopulationAdds(p: PopulationCounts) {
    && p.universe == p.validPrior + p.invalidPrior
    && p.validPrior
       == p.marks.rankable + p.marks.belowPrice + p.marks.noPrint + p.marks.invalidMark + p.unknown
  }

  ghost predicate TransitionsAdd(d: TransitionCounts, p: PopulationCounts) {
    && d.bootstrapUnknown
       == d.trusted + d.noLater + d.notLive + d.doubts.noOlder + d.doubts.conflict + d.doubts.invalid
          + d.doubts.incomplete
    && d.trusted <= p.marks.rankable + p.marks.belowPrice
    && d.bootstrapUnknown - d.trusted <= p.unknown
  }

  ghost predicate QualificationAdds(y: Tally) {
    && y.qualification.notYetPassed + y.qualification.provisional + y.qualification.finalized
       + y.qualification.unresolved == y.population.marks.rankable
    && y.totalPassers + y.qualifiedDayInvalid == y.qualification.provisional + y.qualification.finalized
    && y.knownRankable + y.dayInvalid == y.population.marks.rankable
    && y.qualifiedDayInvalid <= y.dayInvalid
    && (y.complete <==> y.qualification.unresolved == 0)
  }

  ghost predicate UncertaintyAdds(y: Tally) {
    && y.uncertainty.bootstrap + y.uncertainty.postGap + y.uncertainty.local
       == y.population.unknown + y.qualification.unresolved
    && (y.allBootstrap <==> y.uncertainty.postGap == 0 && y.uncertainty.local == 0)
  }

  ghost predicate FloatsAdd(f: FloatCounts, universe: nat) {
    f.current + f.stale + f.unavailable + f.invalid == universe
  }

  ghost predicate Adds(y: Tally) {
    && PopulationAdds(y.population) && TransitionsAdd(y.transitions, y.population) && QualificationAdds(y)
    && UncertaintyAdds(y) && FloatsAdd(y.floats, y.population.universe)
  }

  lemma AddKeepsPopulation(y: Tally, s: Subject, t: Target)
    requires WellFormed(s) && |y.fields| == MEASURED_FIELDS + 1
    requires PopulationAdds(y.population) && FloatsAdd(y.floats, y.population.universe)
    ensures var z := Add(y, s, t); PopulationAdds(z.population) && FloatsAdd(z.floats, z.population.universe)
  {}

  /** A trusted transition always leaves a mark to rank or to price; any other one hides the symbol. */
  lemma AddKeepsTransitions(y: Tally, s: Subject, t: Target)
    requires WellFormed(s) && |y.fields| == MEASURED_FIELDS + 1 && TransitionsAdd(y.transitions, y.population)
    ensures var z := Add(y, s, t); TransitionsAdd(z.transitions, z.population)
  {}

  lemma AddKeepsQualification(y: Tally, s: Subject, t: Target)
    requires WellFormed(s) && |y.fields| == MEASURED_FIELDS + 1 && QualificationAdds(y)
    ensures QualificationAdds(Add(y, s, t))
  {}

  lemma AddKeepsUncertainty(y: Tally, s: Subject, t: Target)
    requires WellFormed(s) && |y.fields| == MEASURED_FIELDS + 1 && UncertaintyAdds(y)
    ensures UncertaintyAdds(Add(y, s, t))
  {}

  lemma AddKeepsAdds(y: Tally, s: Subject, t: Target)
    requires WellFormed(s) && |y.fields| == MEASURED_FIELDS + 1
    ensures Adds(y) ==> Adds(Add(y, s, t)) && Add(y, s, t).population.universe == y.population.universe + 1
  {
    if Adds(y) {
      AddKeepsPopulation(y, s, t);
      AddKeepsTransitions(y, s, t);
      AddKeepsQualification(y, s, t);
      AddKeepsUncertainty(y, s, t);
    }
  }

  lemma NobodyAdds(dimensions: nat)
    ensures Adds(NobodyOver(dimensions))
  {}

  /** What the pass counts always adds up. */
  lemma {:induction false} TallyAdds(subjects: seq<Subject>, n: nat, t: Target)
    requires AllWellFormed(subjects) && n <= |subjects|
    ensures Adds(TallyOf(subjects, n, t)) && TallyOf(subjects, n, t).population.universe == n
  {
    hide Add, Adds;
    if n > 0 {
      TallyAdds(subjects, n - 1, t);
      AddKeepsAdds(TallyOf(subjects, n - 1, t), subjects[n - 1], t);
    } else {
      NobodyAdds(MEASURED_FIELDS + 1);
    }
  }

  // ------------------------------------------------------------------------------------------- fields, and enrichment

  /** The six current fields of every symbol: as counted, or as recomputed for a selected row. */
  ghost predicate Table(cur: seq<seq<Field>>) {
    forall i :: 0 <= i < |cur| ==> |cur[i]| == MEASURED_FIELDS + 1
  }

  function ColumnOf(cur: seq<seq<Field>>, d: nat): (column: seq<Field>)
    requires Table(cur) && d <= MEASURED_FIELDS
    ensures |column| == |cur| && forall i :: 0 <= i < |cur| ==> column[i] == cur[i][d]
  {
    if cur == [] then []
    else ColumnOf(cur[..|cur| - 1], d) + [cur[|cur| - 1][d]]
  }

  /** The counters are the counts of the table, column by column. */
  ghost predicate CountsTable(fields: seq<FieldCounts>, cur: seq<seq<Field>>) {
    && Table(cur) && |fields| == MEASURED_FIELDS + 1
    && forall d :: 0 <= d <= MEASURED_FIELDS ==> fields[d] == CountsOf(ColumnOf(cur, d))
  }

  function Counted(subjects: seq<Subject>, n: nat, t: Target): (cur: seq<seq<Field>>)
    requires AllWellFormed(subjects) && n <= |subjects|
    ensures |cur| == n && forall i :: 0 <= i < n ==> cur[i] == FieldsOf(subjects[i], t)
  {
    if n == 0 then [] else Counted(subjects, n - 1, t) + [FieldsOf(subjects[n - 1], t)]
  }

  lemma {:induction false} CountFieldsMeans(counts: seq<FieldCounts>, fields: seq<Field>)
    requires |counts| == |fields|
    ensures CountFields(counts, fields).1 <==> AllValid(fields)
    ensures CountFields(counts, fields).1 ==>
              forall d :: 0 <= d < |fields| ==> CountFields(counts, fields).0[d] == CountField(counts[d], fields[d])
    decreases |fields|
  {
    if fields != [] {
      var n := |fields| - 1;
      CountFieldsMeans(counts[..n], fields[..n]);
      assert fields == fields[..n] + [fields[n]];
    }
  }

  lemma CountAnother(fields: seq<FieldCounts>, cur: seq<seq<Field>>, more: seq<Field>)
    requires CountsTable(fields, cur) && |more| == MEASURED_FIELDS + 1 && AllValid(more)
    ensures CountsTable(CountFields(fields, more).0, cur + [more])
  {
    CountFieldsMeans(fields, more);
    var all := cur + [more];
    assert all[..|cur|] == cur;
  }

  /** A symbol whose support does not contradict itself and whose fields are all valid ones. */
  ghost predicate Agrees(s: Subject, t: Target)
    requires WellFormed(s)
  {
    !Contradicts(s, t) && AllValid(FieldsOf(s, t))
  }

  lemma AddAgrees(y: Tally, s: Subject, t: Target)
    requires WellFormed(s) && |y.fields| == MEASURED_FIELDS + 1
    ensures Add(y, s, t).contradicted <==> y.contradicted || !Agrees(s, t)
    ensures Add(y, s, t).fields == CountFields(y.fields, FieldsOf(s, t)).0
  {
    CountFieldsMeans(y.fields, FieldsOf(s, t));
  }

  /** So do the first symbols of the population. */
  ghost predicate AgreeTo(subjects: seq<Subject>, n: nat, t: Target)
    requires AllWellFormed(subjects) && n <= |subjects|
  {
    n == 0 || (AgreeTo(subjects, n - 1, t) && Agrees(subjects[n - 1], t))
  }

  lemma {:induction false} AgreeToMeans(subjects: seq<Subject>, n: nat, t: Target)
    requires AllWellFormed(subjects) && n <= |subjects|
    ensures AgreeTo(subjects, n, t) <==> forall i :: 0 <= i < n ==> Agrees(subjects[i], t)
  {
    if n > 0 { AgreeToMeans(subjects, n - 1, t); }
  }

  /** The pass contradicts itself exactly when some symbol does. */
  lemma {:induction false} TallyAgrees(subjects: seq<Subject>, n: nat, t: Target)
    requires AllWellFormed(subjects) && n <= |subjects|
    ensures !TallyOf(subjects, n, t).contradicted <==> AgreeTo(subjects, n, t)
  {
    if n > 0 {
      TallyAgrees(subjects, n - 1, t);
      AddAgrees(TallyOf(subjects, n - 1, t), subjects[n - 1], t);
    }
  }

  /** Where it does not, its field counters are the counts of all the fields. */
  lemma {:induction false} TallyCounts(subjects: seq<Subject>, n: nat, t: Target)
    requires AllWellFormed(subjects) && n <= |subjects| && AgreeTo(subjects, n, t)
    ensures CountsTable(TallyOf(subjects, n, t).fields, Counted(subjects, n, t))
  {
    if n > 0 {
      TallyCounts(subjects, n - 1, t);
      var y, s := TallyOf(subjects, n - 1, t), subjects[n - 1];
      AddAgrees(y, s, t);
      CountAnother(y.fields, Counted(subjects, n - 1, t), FieldsOf(s, t));
    }
  }

  // -------------------------------------------------------------------------------------------------------- enrichment

  /** Counters that are the counts of columns holding the replaced fields at one place. */
  ghost predicate Hold(counts: seq<FieldCounts>, columns: seq<seq<Field>>, i: nat, was: seq<Field>) {
    && |counts| == |columns| == |was|
    && forall d :: 0 <= d < |columns| ==>
         i < |columns[d]| && columns[d][i] == was[d] && counts[d] == CountsOf(columns[d])
  }

  lemma HoldFront(counts: seq<FieldCounts>, columns: seq<seq<Field>>, i: nat, was: seq<Field>)
    requires Hold(counts, columns, i, was) && counts != [] && AllValid(was)
    ensures var n := |counts| - 1; Hold(counts[..n], columns[..n], i, was[..n]) && AllValid(was[..n])
  {}

  /** The fields are replaced exactly when the new ones are valid, and then in every column. */
  lemma {:induction false} ReplaceFieldsMeans(counts: seq<FieldCounts>, columns: seq<seq<Field>>, i: nat,
                                              was: seq<Field>, now: seq<Field>)
    requires Hold(counts, columns, i, was) && |now| == |was| && AllValid(was)
    ensures ReplaceFields(counts, was, now).1 <==> AllValid(now)
    ensures AllValid(now) ==> Replaced(ReplaceFields(counts, was, now).0, columns, i, now)
    decreases |counts|
  {
    if counts != [] {
      var n := |counts| - 1;
      HoldFront(counts, columns, i, was);
      ReplaceFieldsMeans(counts[..n], columns[..n], i, was[..n], now[..n]);
      AllValidSplits(now);
      ReplacedInColumn(columns[n], i, was[n], now[n]);
      if AllValid(now) {
        var front := ReplaceFields(counts[..n], was[..n], now[..n]).0;
        assert counts[n] == CountsOf(columns[n]) && columns[n][i] == was[n];
        ReplacedAnother(front, columns, i, now, CountsOf(columns[n][i := now[n]]));
      }
    }
  }

  ghost predicate Replaced(counts: seq<FieldCounts>, columns: seq<seq<Field>>, i: nat, now: seq<Field>) {
    && |counts| == |columns| == |now|
    && forall d :: 0 <= d < |columns| ==> i < |columns[d]| && counts[d] == CountsOf(columns[d][i := now[d]])
  }

  lemma ReplacedAnother(front: seq<FieldCounts>, columns: seq<seq<Field>>, i: nat, now: seq<Field>, one: FieldCounts)
    requires columns != [] && |now| == |columns| && i < |columns[|columns| - 1]|
    requires Replaced(front, columns[..|columns| - 1], i, now[..|now| - 1])
    requires one == CountsOf(columns[|columns| - 1][i := now[|now| - 1]])
    ensures Replaced(front + [one], columns, i, now)
  {
    var all, n := front + [one], |columns| - 1;
    forall d | 0 <= d < |columns| ensures i < |columns[d]| && all[d] == CountsOf(columns[d][i := now[d]]) {
      if d < n { assert columns[..n][d] == columns[d] && now[..n][d] == now[d]; }
    }
  }

  lemma AllValidSplits(fields: seq<Field>)
    requires fields != []
    ensures AllValid(fields) <==> AllValid(fields[..|fields| - 1]) && ValidField(fields[|fields| - 1])
  {
    assert fields == fields[..|fields| - 1] + [fields[|fields| - 1]];
  }

  lemma ReplacedInColumn(column: seq<Field>, i: nat, was: Field, now: Field)
    requires i < |column| && column[i] == was && ValidField(was)
    ensures Replace(CountsOf(column), was, now).1 <==> ValidField(now)
    ensures ValidField(now) ==> Replace(CountsOf(column), was, now).0 == CountsOf(column[i := now])
  {
    if ValidField(now) { ReplaceCounts(column, i, now); }
  }

  /** The table once the fields of one symbol were recomputed. */
  function Recomputed(cur: seq<seq<Field>>, i: nat, now: seq<Field>): (next: seq<seq<Field>>)
    requires Table(cur) && i < |cur| && |now| == MEASURED_FIELDS
    ensures Table(next) && |next| == |cur|
  {
    cur[i := [cur[i][0]] + now]
  }

  lemma RecomputedColumn(cur: seq<seq<Field>>, i: nat, now: seq<Field>, d: nat)
    requires Table(cur) && i < |cur| && |now| == MEASURED_FIELDS && d <= MEASURED_FIELDS
    ensures ColumnOf(Recomputed(cur, i, now), d)
         == if d == 0 then ColumnOf(cur, 0) else ColumnOf(cur, d)[i := now[d - 1]]
  {}

  function MeasuredColumns(cur: seq<seq<Field>>): (columns: seq<seq<Field>>)
    requires Table(cur)
    ensures |columns| == MEASURED_FIELDS && forall d :: 0 <= d < MEASURED_FIELDS ==> columns[d] == ColumnOf(cur, d + 1)
  {
    [ColumnOf(cur, 1), ColumnOf(cur, 2), ColumnOf(cur, 3), ColumnOf(cur, 4), ColumnOf(cur, 5)]
  }

  lemma MeasuredMatch(fields: seq<FieldCounts>, cur: seq<seq<Field>>, i: nat, was: seq<Field>)
    requires CountsTable(fields, cur) && i < |cur| && |was| == MEASURED_FIELDS && cur[i][1..] == was
    ensures var columns := MeasuredColumns(cur);
            Hold(fields[1..], columns, i, was)
  {
    forall d | 0 <= d < MEASURED_FIELDS
      ensures MeasuredColumns(cur)[d][i] == was[d] && fields[1..][d] == CountsOf(MeasuredColumns(cur)[d])
    {
      assert cur[i][1..][d] == cur[i][d + 1];
      assert fields[1..][d] == fields[d + 1];
    }
  }

  lemma TableReplaced(fields: seq<FieldCounts>, cur: seq<seq<Field>>, i: nat, now: seq<Field>,
                      replaced: seq<FieldCounts>)
    requires CountsTable(fields, cur) && i < |cur| && |now| == |replaced| == MEASURED_FIELDS
    requires Replaced(replaced, MeasuredColumns(cur), i, now)
    ensures CountsTable([fields[0]] + replaced, Recomputed(cur, i, now))
  {
    var next := [fields[0]] + replaced;
    forall d | 0 <= d <= MEASURED_FIELDS ensures next[d] == CountsOf(ColumnOf(Recomputed(cur, i, now), d)) {
      RecomputedColumn(cur, i, now, d);
      if d > 0 { assert MeasuredColumns(cur)[d - 1] == ColumnOf(cur, d); }
    }
  }

  /** A row whose counted fields are still in the table is replaced exactly when its recomputed fields are valid. */
  lemma RowReplaced(fields: seq<FieldCounts>, cur: seq<seq<Field>>, i: nat, was: seq<Field>, now: seq<Field>)
    requires CountsTable(fields, cur) && i < |cur| && |was| == |now| == MEASURED_FIELDS
    requires AllValid(was) && cur[i][1..] == was
    ensures ReplaceFields(fields[1..], was, now).1 <==> AllValid(now)
    ensures AllValid(now) ==>
              CountsTable([fields[0]] + ReplaceFields(fields[1..], was, now).0, Recomputed(cur, i, now))
  {
    MeasuredMatch(fields, cur, i, was);
    ReplaceFieldsMeans(fields[1..], MeasuredColumns(cur), i, was, now);
    if AllValid(now) { TableReplaced(fields, cur, i, now, ReplaceFields(fields[1..], was, now).0); }
  }

  /** The table after the first selected rows were recomputed. */
  function TableAfter(subjects: seq<Subject>, t: Target, rows: seq<Row>, k: nat): (cur: seq<seq<Field>>)
    requires AllWellFormed(subjects) && k <= |rows| && Selects(rows, subjects)
    ensures Table(cur) && |cur| == |subjects|
  {
    if k == 0 then Counted(subjects, |subjects|, t)
    else Recomputed(TableAfter(subjects, t, rows, k - 1), rows[k - 1].index, EnrichedOf(subjects[rows[k - 1].index]))
  }

  /** Rows of different symbols of the population. */
  predicate Selects(rows: seq<Row>, subjects: seq<Subject>) {
    && (forall i :: 0 <= i < |rows| ==> rows[i].index < |subjects|)
    && (forall i, j :: 0 <= i < j < |rows| ==> rows[i].index != rows[j].index)
  }

  ghost predicate RowsDescribed(rows: seq<Row>, subjects: seq<Subject>, t: Target)
    requires AllWellFormed(subjects)
  {
    forall i :: 0 <= i < |rows| ==> Describes(rows[i], subjects, |subjects|, t)
  }

  /** The recomputed fields of the first selected rows are all valid ones. */
  ghost predicate EnrichedValid(subjects: seq<Subject>, rows: seq<Row>, k: nat)
    requires AllWellFormed(subjects) && k <= |rows| && Selects(rows, subjects)
  {
    k == 0 || (EnrichedValid(subjects, rows, k - 1) && AllValid(EnrichedOf(subjects[rows[k - 1].index])))
  }

  /** A row not yet recomputed still has the fields it was counted with. */
  lemma {:induction false} NotYetRecomputed(subjects: seq<Subject>, t: Target, rows: seq<Row>, k: nat, j: nat)
    requires AllWellFormed(subjects) && k <= j < |rows| && Selects(rows, subjects)
    ensures TableAfter(subjects, t, rows, k)[rows[j].index] == FieldsOf(subjects[rows[j].index], t)
  {
    if k > 0 {
      NotYetRecomputed(subjects, t, rows, k - 1, j);
      assert rows[k - 1].index != rows[j].index;
    }
  }

  ghost predicate EnrichmentHolds(subjects: seq<Subject>, t: Target, rows: seq<Row>, k: nat, e: Enrichment)
    requires AllWellFormed(subjects) && k <= |rows| && Selects(rows, subjects)
  {
    && e.ok && e.done == k && |e.rows| == |rows| && CountsTable(e.fields, TableAfter(subjects, t, rows, k))
    && (forall j :: 0 <= j < |rows| ==>
          e.rows[j] == if j < k then rows[j].(fields := EnrichedOf(subjects[rows[j].index])) else rows[j])
  }

  lemma EnrichStep(subjects: seq<Subject>, t: Target, rows: seq<Row>, k: nat, e: Enrichment)
    requires AllWellFormed(subjects) && k < |rows| && Selects(rows, subjects) && RowsDescribed(rows, subjects, t)
    requires AgreeTo(subjects, |subjects|, t) && EnrichmentHolds(subjects, t, rows, k, e)
    ensures EnrichRow(subjects, t, e, k).ok <==> AllValid(EnrichedOf(subjects[rows[k].index]))
    ensures EnrichRow(subjects, t, e, k).ok ==> EnrichmentHolds(subjects, t, rows, k + 1, EnrichRow(subjects, t, e, k))
  {
    var row, s := rows[k], subjects[rows[k].index];
    assert e.rows[k] == row && Describes(row, subjects, |subjects|, t);
    NotYetRecomputed(subjects, t, rows, k, k);
    AgreeToMeans(subjects, |subjects|, t);
    assert AllValid(FieldsOf(s, t));
    assert row.fields == FieldsOf(s, t)[1..];
    RowReplaced(e.fields, TableAfter(subjects, t, rows, k), row.index, row.fields, EnrichedOf(s));
  }

  lemma NothingRecomputed(subjects: seq<Subject>, t: Target, fields: seq<FieldCounts>, rows: seq<Row>)
    requires AllWellFormed(subjects) && Selects(rows, subjects)
    requires CountsTable(fields, Counted(subjects, |subjects|, t))
    ensures EnrichmentHolds(subjects, t, rows, 0, Enrichment(fields, rows, 0, true))
  {}

  lemma EnrichStopped(subjects: seq<Subject>, t: Target, e: Enrichment, k: nat)
    requires AllWellFormed(subjects) && |e.fields| == MEASURED_FIELDS + 1 && k < |e.rows| && !e.ok
    ensures !EnrichRow(subjects, t, e, k).ok
  {}

  /** Enrichment goes through exactly when every recomputed field is a valid one, and keeps the counters in step. */
  lemma {:induction false} EnrichedMeans(subjects: seq<Subject>, t: Target, fields: seq<FieldCounts>, rows: seq<Row>,
                                         k: nat)
    requires AllWellFormed(subjects) && k <= |rows| && Selects(rows, subjects) && RowsDescribed(rows, subjects, t)
    requires AgreeTo(subjects, |subjects|, t) && CountsTable(fields, Counted(subjects, |subjects|, t))
    ensures var e := Enriched(subjects, t, Enrichment(fields, rows, 0, true), k);
            && (e.ok <==> EnrichedValid(subjects, rows, k))
            && (e.ok ==> EnrichmentHolds(subjects, t, rows, k, e))
  {
    hide EnrichRow, EnrichmentHolds, RowsDescribed, AgreeTo;
    if k == 0 {
      NothingRecomputed(subjects, t, fields, rows);
    } else {
      EnrichedMeans(subjects, t, fields, rows, k - 1);
      var e := Enriched(subjects, t, Enrichment(fields, rows, 0, true), k - 1);
      if e.ok {
        EnrichStep(subjects, t, rows, k - 1, e);
      } else {
        EnrichStopped(subjects, t, e, k - 1);
      }
    }
  }

  /** Every column of the table after enrichment is a column of valid fields. */
  lemma {:induction false} ColumnsValid(subjects: seq<Subject>, t: Target, rows: seq<Row>, k: nat, i: nat)
    requires AllWellFormed(subjects) && k <= |rows| && Selects(rows, subjects) && i < |subjects|
    requires AgreeTo(subjects, |subjects|, t) && EnrichedValid(subjects, rows, k)
    ensures AllValid(TableAfter(subjects, t, rows, k)[i])
  {
    if k == 0 {
      AgreeToMeans(subjects, |subjects|, t);
    } else {
      ColumnsValid(subjects, t, rows, k - 1, i);
    }
  }

  /** The field counters reconcile over the population after enrichment, as before. */
  lemma EnrichedReconciles(subjects: seq<Subject>, t: Target, rows: seq<Row>, e: Enrichment, d: nat)
    requires AllWellFormed(subjects) && Selects(rows, subjects) && AgreeTo(subjects, |subjects|, t)
    requires d <= MEASURED_FIELDS
    requires EnrichedValid(subjects, rows, |rows|) && EnrichmentHolds(subjects, t, rows, |rows|, e)
    ensures Reconciles(e.fields[d], |subjects|)
  {
    var cur := TableAfter(subjects, t, rows, |rows|);
    var column := ColumnOf(cur, d);
    forall i | 0 <= i < |column| ensures ValidField(column[i]) {
      ColumnsValid(subjects, t, rows, |rows|, i);
      assert ValidField(cur[i][d]);
    }
    ColumnReconciles(column);
  }
}
