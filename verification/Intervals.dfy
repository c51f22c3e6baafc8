/** Counting whole numbers in an interval, and picking from a set of them. */
module Intervals {

  lemma {:induction false} IntervalCount(starts: set<int>, low: int, n: nat)
    requires forall k :: k in starts ==> low <= k < low + n
    ensures |starts| <= n
  {
    if n > 0 {
      var rest := starts - {low + n - 1};
      IntervalCount(rest, low, n - 1);
      assert |starts| <= |rest| + 1 by {
        if low + n - 1 in starts { assert starts == rest + {low + n - 1}; } else { assert starts == rest; }
      }
    } else {
      assert forall k :: k !in starts;
      assert starts == {};
    }
  }

  method Pick(left: set<int>) returns (key: int)
    requires left != {}
    ensures key in left
  {
    if !exists k :: k in left { assert false; }
    key :| key in left;
  }
}
