/** What a rank says: how many rows are better.  And which reasons a field may give for its status. */
module RankingMeaning {
  import opened RankingRows
  import opened FieldAccounting

  /** A row is better by its return, or at the same return by its name. */
  predicate Beats(a: Row, b: Row) {
    b.percent < a.percent || (b.percent == a.percent && b.symbol > a.symbol)
  }

  /** How many rows are better than one. */
  function Better(rows: seq<Row>, x: Row): nat {
    if rows == [] then 0
    else Better(rows[..|rows| - 1], x) + if Beats(rows[|rows| - 1], x) then 1 else 0
  }

  lemma {:induction false} BetterJoined(a: seq<Row>, b: seq<Row>, x: Row)
    ensures Better(a + b, x) == Better(a, x) + Better(b, x)
    decreases |b|
  {
    if b == [] {
      assert a + b == a;
    } else {
      assert (a + b)[..|a + b| - 1] == a + b[..|b| - 1];
      BetterJoined(a, b[..|b| - 1], x);
    }
  }

  lemma OneTaken(b: seq<Row>, j: nat, x: Row)
    requires j < |b|
    ensures var rest := b[..j] + b[j + 1..];
            && multiset(b) == multiset(rest) + multiset{b[j]}
            && Better(b, x) == Better(rest, x) + if Beats(b[j], x) then 1 else 0
  {
    var one := [b[j]];
    assert b == b[..j] + one + b[j + 1..];
    BetterJoined(b[..j] + one, b[j + 1..], x);
    BetterJoined(b[..j], one, x);
    BetterJoined(b[..j], b[j + 1..], x);
    assert one[..0] == [];
    assert Better(one, x) == if Beats(b[j], x) then 1 else 0;
  }

  /** It does not depend on the order of the rows. */
  lemma {:induction false} BetterOfAny(a: seq<Row>, b: seq<Row>, x: Row)
    requires multiset(a) == multiset(b)
    ensures Better(a, x) == Better(b, x)
    decreases |a|
  {
    hide Beats;
    assert |multiset(a)| == |a| && |multiset(b)| == |b|;
    if a != [] {
      var n := |a| - 1;
      assert a[..n] + a[n + 1..] == a[..n];
      OneTaken(a, n, x);
      assert a[n] in multiset(b);
      var j :| 0 <= j < |b| && b[j] == a[n];
      OneTaken(b, j, x);
      AddedAndTaken(multiset(a[..n]), a[n]);
      AddedAndTaken(multiset(b[..j] + b[j + 1..]), a[n]);
      BetterOfAny(a[..n], b[..j] + b[j + 1..], x);
    }
  }

  /** In ranking order, those before a row are the ones that are better. */
  lemma {:induction false} BetterInOrder(o: seq<Row>, i: nat, k: nat)
    requires Ordered(o) && i < |o| && k <= |o|
    ensures Better(o[..k], o[i]) == if k < i then k else i
  {
    if k > 0 {
      BetterInOrder(o, i, k - 1);
      assert o[..k][..k - 1] == o[..k - 1];
      if k - 1 < i { assert Precedes(o[k - 1], o[i]); }
      if k - 1 > i { assert Precedes(o[i], o[k - 1]); }
    }
  }

  /** A row is among the best exactly when fewer than twenty are better, and its rank is how many are, and one. */
  lemma RankMeans(rows: seq<Row>, x: Row, tq: bool)
    requires DistinctSymbols(rows) && x in rows
    ensures var better, best := Better(rows, x), Best(rows);
            && (x in best <==> better < 20) && |best| == (if |rows| < 20 then |rows| else 20)
            && (better < 20 ==>
                  better < |best| && best[better] == x
                  && Ranked(best, tq)[better] == x.(rank := better + 1, tqEligible := tq))
  {
    hide Better, Precedes, DistinctSymbols;
    var o := Ordering(rows);
    OrderingHolds(rows);
    assert x in multiset(o);
    var i :| 0 <= i < |o| && o[i] == x;
    BetterOfAny(rows, o, x);
    BetterInOrder(o, i, |o|);
    assert o[..|o|] == o;
    if x in Best(rows) {
      var j :| 0 <= j < |Best(rows)| && Best(rows)[j] == x;
      assert o[j] == x;
      BetterInOrder(o, j, |o|);
    }
  }

  /** Which statuses a reason may be given for. */
  lemma ReasonsMean(f: Field)
    ensures ValidField(f)
       <==> match f.reason
            case NoReason => f.status == Current
            case BeforeFirstPrint => f.status == Warming || f.status == Unavailable
            case HistoryIncomplete => f.status == Warming || f.status == Unavailable
            case RollingWarmup => f.status == Warming
            case ReferenceWarmup => f.status == Warming
            case ZeroWidth => f.status == Unavailable
            case PriorCloseUnavailable => f.status == Unavailable
            case HistoricalConflict => f.status == Invalid
            case InvalidInput => f.status == Invalid
            case StateBoundExceeded => f.status == Invalid
  {}
}
