/** The status and reason matrix of one feature over the population: how a field is counted, how a recomputed field
    replaces a counted one, and when the matrix reconciles. */
module FieldAccounting {
  import opened RankingRows

  /** Counts by status, by reason and by both; the fixed tables of the evaluator, with absent cells zero. */
  datatype FieldCounts = FieldCounts(statuses: multiset<Status>, reasons: multiset<Reason>,
                                     pairs: multiset<(Status, Reason)>)

  const NoFields := FieldCounts(multiset{}, multiset{}, multiset{})

  predicate ValidPair(status: Status, reason: Reason) {
    match status
    case Current => reason == NoReason
    case Warming => reason in {BeforeFirstPrint, HistoryIncomplete, RollingWarmup, ReferenceWarmup}
    case Unavailable => reason in {BeforeFirstPrint, HistoryIncomplete, ZeroWidth, PriorCloseUnavailable}
    case Invalid => reason in {HistoricalConflict, InvalidInput, StateBoundExceeded}
  }

  predicate ValidField(f: Field) {
    ValidPair(f.status, f.reason)
  }

  function Up<T(==)>(m: multiset<T>, x: T): multiset<T> {
    m[x := m[x] + 1]
  }

  function Down<T(==)>(m: multiset<T>, x: T): multiset<T>
    requires x in m
  {
    m[x := m[x] - 1]
  }

  function CountField(c: FieldCounts, f: Field): FieldCounts {
    FieldCounts(Up(c.statuses, f.status), Up(c.reasons, f.reason), Up(c.pairs, (f.status, f.reason)))
  }

  /** The counts of a whole column of fields. */
  function CountsOf(column: seq<Field>): FieldCounts {
    if column == [] then NoFields
    else CountField(CountsOf(column[..|column| - 1]), column[|column| - 1])
  }

  // --------------------------------------------------------------------------------------------------- reconciliation

  function StatusTotal(m: multiset<Status>): nat {
    m[Warming] + m[Current] + m[Unavailable] + m[Invalid]
  }

  function ReasonTotal(m: multiset<Reason>): nat {
    m[NoReason] + m[BeforeFirstPrint] + m[HistoryIncomplete] + m[RollingWarmup] + m[ReferenceWarmup] + m[ZeroWidth]
    + m[HistoricalConflict] + m[InvalidInput] + m[StateBoundExceeded] + m[PriorCloseUnavailable]
  }

  /** A row of the matrix: one status, every reason. */
  function RowSum(p: multiset<(Status, Reason)>, s: Status): nat {
    p[(s, NoReason)] + p[(s, BeforeFirstPrint)] + p[(s, HistoryIncomplete)] + p[(s, RollingWarmup)]
    + p[(s, ReferenceWarmup)] + p[(s, ZeroWidth)] + p[(s, HistoricalConflict)] + p[(s, InvalidInput)]
    + p[(s, StateBoundExceeded)] + p[(s, PriorCloseUnavailable)]
  }

  /** A column of the matrix: one reason, every status. */
  function ColumnSum(p: multiset<(Status, Reason)>, r: Reason): nat {
    p[(Warming, r)] + p[(Current, r)] + p[(Unavailable, r)] + p[(Invalid, r)]
  }

  function PairTotal(p: multiset<(Status, Reason)>): nat {
    RowSum(p, Warming) + RowSum(p, Current) + RowSum(p, Unavailable) + RowSum(p, Invalid)
  }

  const Statuses := [Warming, Current, Unavailable, Invalid]

  const Reasons := [NoReason, BeforeFirstPrint, HistoryIncomplete, RollingWarmup, ReferenceWarmup, ZeroWidth,
                    HistoricalConflict, InvalidInput, StateBoundExceeded, PriorCloseUnavailable]

  /** The sum of the counts of the first keys. */
  function SumTo<T(==)>(m: multiset<T>, keys: seq<T>, n: nat): nat
    requires n <= |keys|
  {
    if n == 0 then 0 else SumTo(m, keys, n - 1) + m[keys[n - 1]]
  }

  function Sum<T(==)>(m: multiset<T>, keys: seq<T>): nat {
    SumTo(m, keys, |keys|)
  }

  function StatusCells(s: Status): (cells: seq<(Status, Reason)>)
    ensures |cells| == |Reasons| && forall i :: 0 <= i < |cells| ==> cells[i] == (s, Reasons[i])
  {
    seq(|Reasons|, i requires 0 <= i < |Reasons| => (s, Reasons[i]))
  }

  function ReasonCells(r: Reason): (cells: seq<(Status, Reason)>)
    ensures |cells| == |Statuses| && forall i :: 0 <= i < |cells| ==> cells[i] == (Statuses[i], r)
  {
    seq(|Statuses|, i requires 0 <= i < |Statuses| => (Statuses[i], r))
  }

  ghost predicate Distinct<T>(keys: seq<T>) {
    forall i, j :: 0 <= i < j < |keys| ==> keys[i] != keys[j]
  }

  /** One more count adds one to every sum over it. */
  lemma {:induction false} SumUpTo<T>(m: multiset<T>, keys: seq<T>, x: T, n: nat)
    requires Distinct(keys) && n <= |keys|
    ensures SumTo(Up(m, x), keys, n) == SumTo(m, keys, n) + if x in keys[..n] then 1 else 0
  {
    if n > 0 {
      SumUpTo(m, keys, x, n - 1);
      assert keys[..n] == keys[..n - 1] + [keys[n - 1]];
    }
  }

  lemma SumUp<T>(m: multiset<T>, keys: seq<T>, x: T)
    requires Distinct(keys)
    ensures Sum(Up(m, x), keys) == Sum(m, keys) + if x in keys then 1 else 0
  {
    SumUpTo(m, keys, x, |keys|);
    assert keys[..|keys|] == keys;
  }

  lemma EveryStatus(s: Status)
    ensures s in Statuses && Distinct(Statuses)
  {
    assert Statuses[0] == Warming && Statuses[1] == Current && Statuses[2] == Unavailable && Statuses[3] == Invalid;
  }

  lemma EveryReason(r: Reason)
    ensures r in Reasons && Distinct(Reasons)
  {
    match r {
      case NoReason => { assert Reasons[0] == r; }
      case BeforeFirstPrint => { assert Reasons[1] == r; }
      case HistoryIncomplete => { assert Reasons[2] == r; }
      case RollingWarmup => { assert Reasons[3] == r; }
      case ReferenceWarmup => { assert Reasons[4] == r; }
      case ZeroWidth => { assert Reasons[5] == r; }
      case HistoricalConflict => { assert Reasons[6] == r; }
      case InvalidInput => { assert Reasons[7] == r; }
      case StateBoundExceeded => { assert Reasons[8] == r; }
      case PriorCloseUnavailable => { assert Reasons[9] == r; }
    }
  }

  // The four explicit sums are sums over all statuses or all reasons.

  lemma StatusTotalIs(m: multiset<Status>)
    ensures StatusTotal(m) == Sum(m, Statuses)
  {
    var keys := Statuses;
    assert SumTo(m, keys, 1) == SumTo(m, keys, 0) + m[keys[0]];
    assert SumTo(m, keys, 2) == SumTo(m, keys, 1) + m[keys[1]];
    assert SumTo(m, keys, 3) == SumTo(m, keys, 2) + m[keys[2]];
    assert SumTo(m, keys, 4) == SumTo(m, keys, 3) + m[keys[3]];
  }

  lemma ReasonTotalIs(m: multiset<Reason>)
    ensures ReasonTotal(m) == Sum(m, Reasons)
  {
    var keys := Reasons;
    assert SumTo(m, keys, 1) == SumTo(m, keys, 0) + m[keys[0]];
    assert SumTo(m, keys, 2) == SumTo(m, keys, 1) + m[keys[1]];
    assert SumTo(m, keys, 3) == SumTo(m, keys, 2) + m[keys[2]];
    assert SumTo(m, keys, 4) == SumTo(m, keys, 3) + m[keys[3]];
    assert SumTo(m, keys, 5) == SumTo(m, keys, 4) + m[keys[4]];
    assert SumTo(m, keys, 6) == SumTo(m, keys, 5) + m[keys[5]];
    assert SumTo(m, keys, 7) == SumTo(m, keys, 6) + m[keys[6]];
    assert SumTo(m, keys, 8) == SumTo(m, keys, 7) + m[keys[7]];
    assert SumTo(m, keys, 9) == SumTo(m, keys, 8) + m[keys[8]];
    assert SumTo(m, keys, 10) == SumTo(m, keys, 9) + m[keys[9]];
  }

  lemma RowSumIs(p: multiset<(Status, Reason)>, s: Status)
    ensures RowSum(p, s) == Sum(p, StatusCells(s))
  {
    var keys := StatusCells(s);
    assert SumTo(p, keys, 1) == SumTo(p, keys, 0) + p[keys[0]];
    assert SumTo(p, keys, 2) == SumTo(p, keys, 1) + p[keys[1]];
    assert SumTo(p, keys, 3) == SumTo(p, keys, 2) + p[keys[2]];
    assert SumTo(p, keys, 4) == SumTo(p, keys, 3) + p[keys[3]];
    assert SumTo(p, keys, 5) == SumTo(p, keys, 4) + p[keys[4]];
    assert SumTo(p, keys, 6) == SumTo(p, keys, 5) + p[keys[5]];
    assert SumTo(p, keys, 7) == SumTo(p, keys, 6) + p[keys[6]];
    assert SumTo(p, keys, 8) == SumTo(p, keys, 7) + p[keys[7]];
    assert SumTo(p, keys, 9) == SumTo(p, keys, 8) + p[keys[8]];
    assert SumTo(p, keys, 10) == SumTo(p, keys, 9) + p[keys[9]];
  }

  lemma ColumnSumIs(p: multiset<(Status, Reason)>, r: Reason)
    ensures ColumnSum(p, r) == Sum(p, ReasonCells(r))
  {
    var keys := ReasonCells(r);
    assert SumTo(p, keys, 1) == SumTo(p, keys, 0) + p[keys[0]];
    assert SumTo(p, keys, 2) == SumTo(p, keys, 1) + p[keys[1]];
    assert SumTo(p, keys, 3) == SumTo(p, keys, 2) + p[keys[2]];
    assert SumTo(p, keys, 4) == SumTo(p, keys, 3) + p[keys[3]];
  }

  ghost predicate ValidCells(c: FieldCounts) {
    forall s, r :: (s, r) in c.pairs ==> ValidPair(s, r)
  }

  ghost predicate RowsAgree(c: FieldCounts) {
    forall s :: RowSum(c.pairs, s) == c.statuses[s]
  }

  ghost predicate ColumnsAgree(c: FieldCounts) {
    forall r :: ColumnSum(c.pairs, r) == c.reasons[r]
  }

  /** The totals, the valid cells, the row and column sums, and the current fields having no reason. */
  ghost predicate Reconciles(c: FieldCounts, universe: nat) {
    && StatusTotal(c.statuses) == universe && ReasonTotal(c.reasons) == universe && PairTotal(c.pairs) == universe
    && ValidCells(c) && RowsAgree(c) && ColumnsAgree(c)
    && c.reasons[NoReason] == c.statuses[Current]
    && universe - c.statuses[Current] == ReasonTotal(c.reasons) - c.reasons[NoReason]
  }

  lemma RowSumUp(p: multiset<(Status, Reason)>, f: Field, s: Status)
    ensures RowSum(Up(p, (f.status, f.reason)), s) == RowSum(p, s) + if s == f.status then 1 else 0
  {
    EveryReason(f.reason);
    var i :| 0 <= i < |Reasons| && Reasons[i] == f.reason;
    assert StatusCells(s)[i] == (s, f.reason);
    SumUp(p, StatusCells(s), (f.status, f.reason));
    RowSumIs(p, s);
    RowSumIs(Up(p, (f.status, f.reason)), s);
  }

  lemma ColumnSumUp(p: multiset<(Status, Reason)>, f: Field, r: Reason)
    ensures ColumnSum(Up(p, (f.status, f.reason)), r) == ColumnSum(p, r) + if r == f.reason then 1 else 0
  {
    EveryStatus(f.status);
    var i :| 0 <= i < |Statuses| && Statuses[i] == f.status;
    assert ReasonCells(r)[i] == (f.status, r);
    SumUp(p, ReasonCells(r), (f.status, f.reason));
    ColumnSumIs(p, r);
    ColumnSumIs(Up(p, (f.status, f.reason)), r);
  }

  lemma RowsStillAgree(c: FieldCounts, f: Field)
    requires RowsAgree(c)
    ensures RowsAgree(CountField(c, f))
  {
    forall s ensures RowSum(CountField(c, f).pairs, s) == CountField(c, f).statuses[s] {
      RowSumUp(c.pairs, f, s);
      assert RowSum(c.pairs, s) == c.statuses[s];
    }
  }

  lemma ColumnsStillAgree(c: FieldCounts, f: Field)
    requires ColumnsAgree(c)
    ensures ColumnsAgree(CountField(c, f))
  {
    forall r ensures ColumnSum(CountField(c, f).pairs, r) == CountField(c, f).reasons[r] {
      ColumnSumUp(c.pairs, f, r);
      assert ColumnSum(c.pairs, r) == c.reasons[r];
    }
  }

  /** The cells sum row by row to the status total. */
  lemma PairTotalIs(c: FieldCounts)
    requires RowsAgree(c)
    ensures PairTotal(c.pairs) == StatusTotal(c.statuses)
  {
    assert RowSum(c.pairs, Warming) == c.statuses[Warming];
    assert RowSum(c.pairs, Current) == c.statuses[Current];
    assert RowSum(c.pairs, Unavailable) == c.statuses[Unavailable];
    assert RowSum(c.pairs, Invalid) == c.statuses[Invalid];
  }

  lemma TotalsUp(c: FieldCounts, f: Field)
    ensures StatusTotal(CountField(c, f).statuses) == StatusTotal(c.statuses) + 1
    ensures ReasonTotal(CountField(c, f).reasons) == ReasonTotal(c.reasons) + 1
  {
    EveryStatus(f.status);
    EveryReason(f.reason);
    SumUp(c.statuses, Statuses, f.status);
    SumUp(c.reasons, Reasons, f.reason);
    StatusTotalIs(c.statuses);
    StatusTotalIs(Up(c.statuses, f.status));
    ReasonTotalIs(c.reasons);
    ReasonTotalIs(Up(c.reasons, f.reason));
  }

  lemma CellsStillValid(c: FieldCounts, f: Field)
    requires ValidCells(c) && ValidField(f)
    ensures ValidCells(CountField(c, f))
  {
    var d := CountField(c, f);
    forall s, r | (s, r) in d.pairs ensures ValidPair(s, r) {
      assert (s, r) in c.pairs || (s, r) == (f.status, f.reason);
    }
  }

  ghost predicate AllValid(column: seq<Field>) {
    forall i :: 0 <= i < |column| ==> ValidField(column[i])
  }

  lemma {:induction false} ColumnTotals(column: seq<Field>)
    requires AllValid(column)
    ensures var c := CountsOf(column);
            && StatusTotal(c.statuses) == |column| && ReasonTotal(c.reasons) == |column|
            && c.reasons[NoReason] == c.statuses[Current]
  {
    if column != [] {
      var c, f := CountsOf(column[..|column| - 1]), column[|column| - 1];
      ColumnTotals(column[..|column| - 1]);
      TotalsUp(c, f);
      assert ValidPair(f.status, f.reason);
    }
  }

  lemma {:induction false} ColumnCells(column: seq<Field>)
    requires AllValid(column)
    ensures var c := CountsOf(column); ValidCells(c) && RowsAgree(c) && ColumnsAgree(c)
  {
    if column != [] {
      var c, f := CountsOf(column[..|column| - 1]), column[|column| - 1];
      ColumnCells(column[..|column| - 1]);
      RowsStillAgree(c, f);
      ColumnsStillAgree(c, f);
      CellsStillValid(c, f);
    }
  }

  /** A column of valid fields always reconciles over its length. */
  lemma ColumnReconciles(column: seq<Field>)
    requires AllValid(column)
    ensures Reconciles(CountsOf(column), |column|)
  {
    ColumnTotals(column);
    ColumnCells(column);
    PairTotalIs(CountsOf(column));
  }

  // ------------------------------------------------------------------------------------------------------ replacement

  /** Takes a counted field out for another, unless the field is not counted or either is no valid one. */
  function Replace(c: FieldCounts, was: Field, now: Field): (FieldCounts, bool) {
    if !ValidField(was) || !ValidField(now) || c.statuses[was.status] == 0 || c.reasons[was.reason] == 0
       || c.pairs[(was.status, was.reason)] == 0 then (c, false)
    else
      (CountField(FieldCounts(Down(c.statuses, was.status), Down(c.reasons, was.reason),
                              Down(c.pairs, (was.status, was.reason))), now), true)
  }

  lemma {:induction false} Counted(column: seq<Field>, i: nat)
    requires i < |column|
    ensures var c := CountsOf(column);
            column[i].status in c.statuses && column[i].reason in c.reasons
            && (column[i].status, column[i].reason) in c.pairs
    decreases |column|
  {
    if i < |column| - 1 { Counted(column[..|column| - 1], i); }
  }

  /** Replacing a counted field gives the counts of the replaced column. */
  lemma {:induction false} ReplaceCounts(column: seq<Field>, i: nat, now: Field)
    requires i < |column| && ValidField(column[i]) && ValidField(now)
    ensures Replace(CountsOf(column), column[i], now) == (CountsOf(column[i := now]), true)
    decreases |column|
  {
    Counted(column, i);
    var n := |column| - 1;
    if i < n {
      ReplaceCounts(column[..n], i, now);
      Counted(column[..n], i);
      assert column[i := now][..n] == column[..n][i := now];
      var c := CountsOf(column[..n]);
      ReplaceThenCount(c, column[i], now, column[n]);
    } else {
      assert column[i := now][..n] == column[..n];
      var c := CountsOf(column[..n]);
      CountThenReplace(c, column[i], now);
    }
  }

  lemma UpDown<T>(m: multiset<T>, x: T)
    ensures Down(Up(m, x), x) == m
  {}

  lemma MoveCommutes<T>(m: multiset<T>, was: T, now: T, other: T)
    requires was in m
    ensures Up(Down(Up(m, other), was), now) == Up(Up(Down(m, was), now), other)
  {}

  lemma CountThenReplace(c: FieldCounts, was: Field, now: Field)
    requires ValidField(was) && ValidField(now)
    ensures Replace(CountField(c, was), was, now) == (CountField(c, now), true)
  {
    UpDown(c.statuses, was.status);
    UpDown(c.reasons, was.reason);
    UpDown(c.pairs, (was.status, was.reason));
  }

  lemma ReplaceThenCount(c: FieldCounts, was: Field, now: Field, other: Field)
    requires Replace(c, was, now).1
    ensures Replace(CountField(c, other), was, now) == (CountField(Replace(c, was, now).0, other), true)
  {
    MoveCommutes(c.statuses, was.status, now.status, other.status);
    MoveCommutes(c.reasons, was.reason, now.reason, other.reason);
    MoveCommutes(c.pairs, (was.status, was.reason), (now.status, now.reason), (other.status, other.reason));
  }
}
