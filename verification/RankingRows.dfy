/** The ranking: the order of rows, the streaming retention of the best twenty, and the insertion sort that ranks what
    was retained.  Symbols are numbers in the order of their names. */
module RankingRows {

  datatype Status = Warming | Current | Unavailable | Invalid

  datatype Reason = NoReason | BeforeFirstPrint | HistoryIncomplete | RollingWarmup | ReferenceWarmup | ZeroWidth
                  | HistoricalConflict | InvalidInput | StateBoundExceeded | PriorCloseUnavailable

  datatype Field = Field(status: Status, reason: Reason, value: real)

  datatype Row = Row(symbol: nat, index: nat, last: real, percent: real, age: int, fields: seq<Field>, rank: nat,
                     tqEligible: bool)

  const MAXIMUM_ROWS: nat := 20

  /** Greater return first, then the smaller symbol. */
  predicate Precedes(a: Row, b: Row) {
    a.percent > b.percent || (a.percent == b.percent && a.symbol < b.symbol)
  }

  ghost predicate DistinctSymbols(rows: seq<Row>) {
    forall i, j :: 0 <= i < j < |rows| ==> rows[i].symbol != rows[j].symbol
  }

  ghost predicate Ordered(rows: seq<Row>) {
    forall i, j :: 0 <= i < j < |rows| ==> Precedes(rows[i], rows[j])
  }

  function Least(n: nat): nat {
    if n < MAXIMUM_ROWS then n else MAXIMUM_ROWS
  }

  // ------------------------------------------------------------------------------------------------ the full ordering

  /** Places a row in an ordering. */
  function Insert(rows: seq<Row>, row: Row): (placed: seq<Row>)
    ensures |placed| == |rows| + 1
  {
    if rows == [] || !Precedes(row, rows[|rows| - 1]) then rows + [row]
    else Insert(rows[..|rows| - 1], row) + [rows[|rows| - 1]]
  }

  /** The full ordering of rows by return descending, then symbol. */
  function Ordering(rows: seq<Row>): (ordered: seq<Row>)
    ensures |ordered| == |rows|
  {
    if rows == [] then [] else Insert(Ordering(rows[..|rows| - 1]), rows[|rows| - 1])
  }

  lemma {:induction false} InsertKeepsRows(rows: seq<Row>, row: Row)
    ensures multiset(Insert(rows, row)) == multiset(rows) + multiset{row}
    decreases |rows|
  {
    if rows != [] && Precedes(row, rows[|rows| - 1]) {
      InsertKeepsRows(rows[..|rows| - 1], row);
      assert rows == rows[..|rows| - 1] + [rows[|rows| - 1]];
    }
  }

  lemma {:induction false} InsertHolds(rows: seq<Row>, row: Row)
    requires Ordered(rows) && forall i :: 0 <= i < |rows| ==> rows[i].symbol != row.symbol
    ensures Ordered(Insert(rows, row)) && multiset(Insert(rows, row)) == multiset(rows) + multiset{row}
    decreases |rows|
  {
    InsertKeepsRows(rows, row);
    if rows != [] && Precedes(row, rows[|rows| - 1]) {
      var front, last := rows[..|rows| - 1], rows[|rows| - 1];
      InsertHolds(front, row);
      var placed := Insert(front, row);
      forall i | 0 <= i < |placed| ensures Precedes(placed[i], last) {
        assert placed[i] in multiset(placed);
        assert placed[i] == row || placed[i] in multiset(front);
      }
    }
  }

  lemma {:induction false} OrderingHolds(rows: seq<Row>)
    requires DistinctSymbols(rows)
    ensures Ordered(Ordering(rows)) && multiset(Ordering(rows)) == multiset(rows)
    decreases |rows|
  {
    if rows != [] {
      var front, last := rows[..|rows| - 1], rows[|rows| - 1];
      OrderingHolds(front);
      assert rows == front + [last];
      var o := Ordering(front);
      forall i | 0 <= i < |o| ensures o[i].symbol != last.symbol {
        assert o[i] in multiset(front);
      }
      InsertHolds(o, last);
    }
  }

  /** Rows in order are determined by which rows they are. */
  lemma {:induction false} OrderedUnique(a: seq<Row>, b: seq<Row>)
    requires Ordered(a) && Ordered(b) && multiset(a) == multiset(b)
    ensures a == b
    decreases |a|
  {
    assert |multiset(a)| == |a| && |multiset(b)| == |b|;
    if a != [] {
      var i := |a| - 1;
      LastIsLast(a, b);
      WithoutLast(a);
      WithoutLast(b);
      OrderedUnique(a[..i], b[..i]);
      assert a == a[..i] + [a[i]] && b == b[..i] + [b[i]];
    }
  }

  lemma WithoutLast(a: seq<Row>)
    requires a != [] && Ordered(a)
    ensures var i := |a| - 1; multiset(a[..i]) == multiset(a) - multiset{a[i]} && Ordered(a[..i])
  {
    assert a == a[..|a| - 1] + [a[|a| - 1]];
  }

  lemma LastIsLast(a: seq<Row>, b: seq<Row>)
    requires a != [] && b != [] && Ordered(a) && Ordered(b) && multiset(a) == multiset(b)
    ensures a[|a| - 1] == b[|b| - 1]
  {
    var x, y := a[|a| - 1], b[|b| - 1];
    assert x in multiset(b) && y in multiset(a);
    assert x in b && y in a;
    if x != y { assert false; }
  }

  /** The full ordering does not depend on the order of arrival. */
  lemma OrderingIgnoresArrival(a: seq<Row>, b: seq<Row>)
    requires DistinctSymbols(a) && DistinctSymbols(b) && multiset(a) == multiset(b)
    ensures Ordering(a) == Ordering(b)
  {
    OrderingHolds(a);
    OrderingHolds(b);
    OrderedUnique(Ordering(a), Ordering(b));
  }

  /** The best rows of a stream: the first of its full ordering. */
  function Best(seen: seq<Row>): (best: seq<Row>)
    ensures |best| == Least(|seen|)
  {
    Ordering(seen)[..Least(|seen|)]
  }

  // --------------------------------------------------------------------------------------------- retaining the best

  /** The row every other one is before. */
  method Worst(kept: seq<Row>) returns (worst: nat)
    requires kept != [] && DistinctSymbols(kept)
    ensures worst < |kept| && forall i :: 0 <= i < |kept| && i != worst ==> Precedes(kept[i], kept[worst])
  {
    worst := 0;
    var index := 1;
    while index < |kept|
      invariant worst < index <= |kept|
      invariant forall i :: 0 <= i < index && i != worst ==> Precedes(kept[i], kept[worst])
    {
      if Precedes(kept[worst], kept[index]) { worst := index; }
      index := index + 1;
    }
  }

  /** Beyond the first rows of an ordering an insertion changes none of them; before, it lets the last of them go. */
  lemma {:induction false} InsertCut(o: seq<Row>, row: Row, n: nat)
    requires Ordered(o) && 0 < n <= |o|
    ensures Insert(o, row)[..n] == if Precedes(row, o[n - 1]) then Insert(o[..n - 1], row) else o[..n]
    decreases |o|
  {
    var front, last := o[..|o| - 1], o[|o| - 1];
    if n == |o| {
    } else if Precedes(row, last) {
      InsertCut(front, row, n);
      assert front[..n - 1] == o[..n - 1] && front[..n] == o[..n];
    } else {
      assert Precedes(o[n - 1], last);
    }
  }

  /** The best of one more row, once the bound is reached. */
  lemma BestAfter(seen: seq<Row>, row: Row)
    requires DistinctSymbols(seen) && |seen| >= MAXIMUM_ROWS
    ensures var best := Best(seen);
            Best(seen + [row])
              == if Precedes(row, best[MAXIMUM_ROWS - 1]) then Insert(best[..MAXIMUM_ROWS - 1], row) else best
  {
    assert (seen + [row])[..|seen|] == seen;
    OrderingHolds(seen);
    InsertCut(Ordering(seen), row, MAXIMUM_ROWS);
    assert Best(seen)[..MAXIMUM_ROWS - 1] == Ordering(seen)[..MAXIMUM_ROWS - 1];
  }

  lemma WithoutItsLast(rows: seq<Row>, row: Row)
    requires rows != []
    ensures multiset(Insert(rows[..|rows| - 1], row)) == multiset(rows) - multiset{rows[|rows| - 1]} + multiset{row}
  {
    var front, last := rows[..|rows| - 1], rows[|rows| - 1];
    InsertKeepsRows(front, row);
    assert rows == front + [last];
    assert multiset(rows) == multiset(front) + multiset{last};
    AddedAndTaken(multiset(front), last);
  }

  lemma AddedAndTaken<T>(m: multiset<T>, x: T)
    ensures m + multiset{x} - multiset{x} == m
  {}

  lemma PrefixDistinct(seen: seq<Row>, row: Row)
    requires DistinctSymbols(seen + [row])
    ensures DistinctSymbols(seen)
    ensures forall i :: 0 <= i < |seen| ==> seen[i].symbol != row.symbol
  {
    var all := seen + [row];
    forall i, j | 0 <= i < j < |seen| ensures seen[i].symbol != seen[j].symbol {
      assert all[i].symbol != all[j].symbol;
    }
    forall i | 0 <= i < |seen| ensures seen[i].symbol != row.symbol {
      assert all[i].symbol != all[|seen|].symbol;
    }
  }

  lemma OrderedPrefix(o: seq<Row>, n: nat)
    requires Ordered(o) && n <= |o|
    ensures Ordered(o[..n])
  {}

  /** Keeps one more row, or lets the worst go for it. */
  method Retain(kept: seq<Row>, row: Row, ghost seen: seq<Row>) returns (next: seq<Row>)
    requires multiset(kept) == multiset(Best(seen)) && DistinctSymbols(seen + [row])
    ensures multiset(next) == multiset(Best(seen + [row]))
  {
    BestHolds(kept, seen, row);
    if |kept| < MAXIMUM_ROWS {
      next := kept + [row];
      return;
    }
    var worst := Worst(kept);
    LastIsWorst(kept, seen, worst);
    BestAfter(seen, row);
    WithoutItsLast(Best(seen), row);
    next := if Precedes(row, kept[worst]) then kept[worst := row] else kept;
  }

  /** While every row fits, every row is kept. */
  lemma BestHolds(kept: seq<Row>, seen: seq<Row>, row: Row)
    requires multiset(kept) == multiset(Best(seen)) && DistinctSymbols(seen + [row])
    ensures |kept| == Least(|seen|) && DistinctSymbols(kept) && DistinctSymbols(seen)
    ensures |seen| < MAXIMUM_ROWS ==> multiset(Best(seen + [row])) == multiset(kept + [row])
  {
    assert |multiset(kept)| == |kept| && |multiset(Best(seen))| == |Best(seen)|;
    PrefixDistinct(seen, row);
    OrderingHolds(seen);
    OrderingHolds(seen + [row]);
    OrderedPrefix(Ordering(seen), Least(|seen|));
    SymbolsOfOrdering(seen);
    SameDistinct(kept, Best(seen));
    if |seen| < MAXIMUM_ROWS {
      assert Best(seen) == Ordering(seen) && Best(seen + [row]) == Ordering(seen + [row]);
    }
  }

  lemma SymbolsOfOrdering(seen: seq<Row>)
    requires DistinctSymbols(seen)
    ensures DistinctSymbols(Ordering(seen)) && DistinctSymbols(Best(seen))
  {
    OrderingHolds(seen);
    SameDistinct(Ordering(seen), seen);
  }

  /** Distinct symbols are a matter of which rows there are. */
  lemma {:induction false} SameDistinct(a: seq<Row>, b: seq<Row>)
    requires multiset(a) == multiset(b) && DistinctSymbols(b)
    ensures DistinctSymbols(a)
  {
    forall i, j | 0 <= i < j < |a| ensures a[i].symbol != a[j].symbol {
      if a[i] == a[j] {
        TwiceIn(a, i, j);
        OnceIn(b, a[i]);
      } else {
        assert a[i] in multiset(b) && a[j] in multiset(b);
        var m :| 0 <= m < |b| && b[m] == a[i];
        var n :| 0 <= n < |b| && b[n] == a[j];
      }
    }
  }

  lemma TwiceIn(a: seq<Row>, i: nat, j: nat)
    requires i < j < |a| && a[i] == a[j]
    ensures multiset(a)[a[i]] >= 2
  {
    assert a == a[..j] + [a[j]] + a[j + 1..];
    assert a[i] in a[..j];
    assert a[i] in multiset(a[..j]);
  }

  lemma {:induction false} OnceIn(b: seq<Row>, x: Row)
    requires DistinctSymbols(b)
    ensures multiset(b)[x] <= 1
    decreases |b|
  {
    if b != [] {
      var front, last := b[..|b| - 1], b[|b| - 1];
      assert b == front + [last];
      OnceIn(front, x);
      assert x in multiset(front) <==> x in front;
    }
  }

  lemma LastIsWorst(kept: seq<Row>, seen: seq<Row>, worst: nat)
    requires multiset(kept) == multiset(Best(seen)) && DistinctSymbols(seen) && |kept| == Least(|seen|) == MAXIMUM_ROWS
    requires worst < |kept| && forall i :: 0 <= i < |kept| && i != worst ==> Precedes(kept[i], kept[worst])
    ensures kept[worst] == Best(seen)[MAXIMUM_ROWS - 1]
  {
    OrderingHolds(seen);
    var best := Best(seen);
    var last := best[MAXIMUM_ROWS - 1];
    assert last in multiset(kept) && kept[worst] in multiset(best);
    var i :| 0 <= i < |kept| && kept[i] == last;
    var j :| 0 <= j < |best| && best[j] == kept[worst];
    if i != worst && j != MAXIMUM_ROWS - 1 { assert false; }
  }

  // ----------------------------------------------------------------------------------------------------- sort and rank

  /** Rows as they are ranked. */
  function Ranked(rows: seq<Row>, tq: bool): (ranked: seq<Row>)
    ensures |ranked| == |rows|
    ensures forall i :: 0 <= i < |rows| ==> ranked[i] == rows[i].(rank := i + 1, tqEligible := tq)
  {
    if rows == [] then []
    else Ranked(rows[..|rows| - 1], tq) + [rows[|rows| - 1].(rank := |rows|, tqEligible := tq)]
  }

  /** Where an insertion places its row: after the last one it does not precede, as far as it looked. */
  lemma {:induction false} InsertAt(o: seq<Row>, x: Row, j: nat)
    requires j <= |o| && (forall k :: j <= k < |o| ==> Precedes(x, o[k])) && (j > 0 ==> !Precedes(x, o[j - 1]))
    ensures Insert(o, x) == o[..j] + [x] + o[j..]
    decreases |o|
  {
    if j < |o| {
      InsertAt(o[..|o| - 1], x, j);
      assert o[..|o| - 1][..j] == o[..j];
      assert o[j..] == o[..|o| - 1][j..] + [o[|o| - 1]];
    }
  }

  /** Moves the row at an index down past the rows before it that it precedes. */
  method SiftDown(rows: array<Row>, i: nat)
    requires i < rows.Length
    modifies rows
    ensures rows[..i + 1] == Insert(old(rows[..i]), old(rows[i])) && rows[i + 1..] == old(rows[i + 1..])
  {
    ghost var was, x := rows[..], rows[i];
    var j := i;
    while j > 0 && Precedes(rows[j], rows[j - 1])
      invariant 0 <= j <= i && rows[j] == x
      invariant forall k :: 0 <= k < j || i < k < rows.Length ==> rows[k] == was[k]
      invariant forall k :: j < k <= i ==> rows[k] == was[k - 1]
      invariant forall k :: j <= k < i ==> Precedes(x, was[k])
    {
      rows[j], rows[j - 1] := rows[j - 1], rows[j];
      j := j - 1;
    }
    InsertAt(was[..i], x, j);
    assert rows[..i + 1] == was[..i][..j] + [x] + was[..i][j..];
  }

  /** An insertion sort in place. */
  method SortInPlace(rows: array<Row>)
    modifies rows
    ensures rows[..] == Ordering(old(rows[..]))
  {
    ghost var kept := rows[..];
    if rows.Length == 0 { return; }
    var i := 1;
    assert kept[..1][..0] == [];
    while i < rows.Length
      invariant 1 <= i <= rows.Length
      invariant rows[..i] == Ordering(kept[..i])
      invariant rows[i..] == kept[i..]
    {
      assert kept[..i + 1][..i] == kept[..i];
      assert rows[i] == rows[i..][0] == kept[i];
      assert rows[i + 1..] == rows[i..][1..] == kept[i..][1..];
      SiftDown(rows, i);
      i := i + 1;
    }
    assert rows[..i] == rows[..] && kept[..i] == kept;
  }

  /** Numbers rows 1, 2, 3 and so on. */
  method NumberRows(rows: seq<Row>, tq: bool) returns (ranked: seq<Row>)
    ensures ranked == Ranked(rows, tq)
  {
    ranked := [];
    for i := 0 to |rows|
      invariant ranked == Ranked(rows[..i], tq)
    {
      assert rows[..i + 1][..i] == rows[..i];
      ranked := ranked + [rows[i].(rank := i + 1, tqEligible := tq)];
    }
    assert rows[..|rows|] == rows;
  }

  /** What was retained, sorted in a copy and numbered. */
  method SortRows(kept: seq<Row>, tq: bool) returns (ranked: seq<Row>)
    ensures ranked == Ranked(Ordering(kept), tq)
  {
    var rows := new Row[|kept|](i requires 0 <= i < |kept| => kept[i]);
    assert rows[..] == kept;
    SortInPlace(rows);
    ranked := NumberRows(rows[..], tq);
  }

  /** Sorting what was retained of a stream gives the first of its full ordering. */
  lemma RetainedIsBest(kept: seq<Row>, seen: seq<Row>)
    requires DistinctSymbols(seen) && multiset(kept) == multiset(Best(seen))
    ensures DistinctSymbols(kept) && Ordering(kept) == Best(seen)
  {
    OrderingHolds(seen);
    SymbolsOfOrdering(seen);
    OrderedPrefix(Ordering(seen), Least(|seen|));
    SameDistinct(kept, Best(seen));
    OrderingHolds(kept);
    OrderedUnique(Ordering(kept), Best(seen));
  }

  /** Retaining row by row and then sorting gives exactly the first twenty (or all) of the full ordering, ranked. */
  method RankStream(stream: seq<Row>, tq: bool) returns (ranked: seq<Row>)
    requires DistinctSymbols(stream)
    ensures ranked == Ranked(Ordering(stream)[..Least(|stream|)], tq)
  {
    var kept: seq<Row> := [];
    for i := 0 to |stream|
      invariant multiset(kept) == multiset(Best(stream[..i]))
    {
      assert stream[..i + 1] == stream[..i] + [stream[i]];
      kept := Retain(kept, stream[i], stream[..i]);
    }
    assert stream[..|stream|] == stream;
    RetainedIsBest(kept, stream);
    ranked := SortRows(kept, tq);
  }
}
