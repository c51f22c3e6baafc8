/** Two runs of the qualification state that do not end as one might expect: a recomputation that invalidates an exact
    state, and a final proof end that is not the earliest passing one. */
module QualificationCases {
  import opened Intervals
  import opened Options
  import opened SessionUnits
  import opened ProofWindows
  import opened QualificationGate
  import opened HydrationScans
  import opened Qualifications

  /** The seconds of some minutes that hold a bar: three of every four. */
  predicate Busy(sessionStart: int, at: int) {
    (at - sessionStart) % 4 != 3
  }

  function BusyTail(sessionStart: int, seconds: nat): map<int, GateBar> {
    map at | sessionStart <= at < sessionStart + seconds && Busy(sessionStart, at) :: BusyBar
  }

  function BusyAbsent(sessionStart: int, seconds: nat): set<int> {
    set at | sessionStart <= at < sessionStart + seconds && !Busy(sessionStart, at)
  }

  /** So many seconds, every one with its bar or proven absent. */
  function Filled(sessionStart: int, seconds: nat): Market {
    Market(sessionStart, BusyTail(sessionStart, seconds), {}, BusyAbsent(sessionStart, seconds), {})
  }

  /** The first minute before its first bar arrived. */
  function Unfilled(sessionStart: int): Market {
    Filled(sessionStart, WINDOW).(tail := BusyTail(sessionStart, WINDOW) - {sessionStart})
  }

  /** A whole filled minute passes, the second one like the first. */
  lemma MinutePasses(sessionStart: int, seconds: nat, minutes: nat)
    requires 1 <= minutes <= 2 && minutes * WINDOW <= seconds <= 2 * WINDOW
    ensures Passing(Filled(sessionStart, seconds), map[], sessionStart + minutes * WINDOW)
  {
    var m, end := Filled(sessionStart, seconds), sessionStart + minutes * WINDOW;
    var view := ViewAt(m, map[], end);
    forall i | 0 <= i < WINDOW ensures view[i].bar == BusyView()[i].bar && view[i].active == BusyView()[i].active {
      var at := end - WINDOW + i;
      assert (at - sessionStart) % 4 == i % 4;
      assert view[i] == EntryAt(m, map[], at);
    }
    SameBarsSameFacts(view, BusyView());
    BusyPasses();
  }

  /** A window without any bar passes nothing. */
  lemma EmptyFails(m: Market, proofEnd: int)
    requires forall at :: proofEnd - WINDOW <= at < proofEnd && m.InSession(at) ==> at !in m.tail
    ensures !Passing(m, map[], proofEnd)
  {
    var view := ViewAt(m, map[], proofEnd);
    var at := LongestGapMeans(view);
    assert GapAt(view, 0, WINDOW);
  }

  /** Before its first bar nothing of the first minute passes; with it, the window that ends at the minute does. */
  lemma FirstBarCompletes(sessionStart: int)
    ensures SameBut(Unfilled(sessionStart), map[], Filled(sessionStart, WINDOW), map[], sessionStart)
    ensures Exact(Unfilled(sessionStart), map[], {}, sessionStart, sessionStart + 59)
    ensures Qualification.PassesBeyond(Filled(sessionStart, WINDOW), map[], sessionStart, sessionStart + 59,
                                       sessionStart + 60)
  {
    var before := Unfilled(sessionStart);
    forall p | sessionStart <= p <= sessionStart + 59 ensures !Passing(before, map[], p) {
      if p == sessionStart {
        EmptyFails(before, p);
      } else {
        assert before.InSession(sessionStart) && p - WINDOW <= sessionStart < p;
        assert !Trustworthy(before, p - WINDOW, p);
      }
    }
    MinutePasses(sessionStart, WINDOW, 1);
  }

  /** The first 59 proof ends are accounted for, exactly and with no proof; then the session's first bar arrives.  The
      recomputation finds the window that ends at the minute, beyond the boundary, and the state ends invalid. */
  method RecomputeInvalidates(sessionStart: int) returns (q: Qualification)
    ensures fresh(q) && q.invalid && !q.boundExceeded && !q.finalized
  {
    hide Passing, Filled, Unfilled, SameBut;
    q := new Qualification(sessionStart);
    q.accountedThrough := Some(sessionStart + 59);
    FilledStarts(sessionStart, WINDOW);
    ghost var before := Unfilled(sessionStart);
    var m, at := Filled(sessionStart, WINDOW), sessionStart + 60;
    FirstBarCompletes(sessionStart);
    assert q.ExactBefore(before, m, sessionStart, at, at * SECOND) && q.ValidState(m);
    q.RecomputeForAggregate(m, sessionStart, at, at * SECOND, 0, before);
  }

  /** The target follows the clock through the proof ends of the first 119 seconds of two filled minutes. */
  method AccountForMost(sessionStart: int) returns (q: Qualification)
    ensures fresh(q) && q.Ready(Filled(sessionStart, 120), sessionStart + 120)
    ensures q.accountedThrough == Some(sessionStart + 119) && q.gateBars == map[] && |q.proofs| <= 120
  {
    hide Passing, Filled;
    q := new Qualification(sessionStart);
    var m, first := Filled(sessionStart, 120), sessionStart + 119;
    FilledStarts(sessionStart, 120);
    assert q.Ready(m, first) && q.FirstOpen(m) <= first;
    q.EvaluateThrough(m, first, first * SECOND, 0);
    ExactAreFew(q.proofs, sessionStart, 120);
  }

  lemma FilledStarts(sessionStart: int, seconds: nat)
    ensures Filled(sessionStart, seconds).sessionStart == sessionStart
    ensures GateBarsFolded(Filled(sessionStart, seconds), map[]) && Unfilled(sessionStart).sessionStart == sessionStart
  {}

  /** With room for the proofs ahead, and one of them settled, evaluation ends for good at the first passing end past
      the boundary, whatever was held before; and that is the earliest passing end exactly if nothing was. */
  method EvaluateSettled(q: Qualification, m: Market, at: int, engineTime: int)
    requires q.Ready(m, at) && Target(m, at, engineTime) && GateBarsFolded(m, q.gateBars)
    requires Fits(q.proofs, q.FirstOpen(m), at)
    requires Qualification.SettledPass(m, q.gateBars, q.FirstOpen(m), at, engineTime)
    modifies q
    ensures q.finalized && q.finalProofEnd.Some? && q.floor == old(q.floor)
    ensures LeastPassing(m, old(q.gateBars), old(q.FirstOpen(m)), q.finalProofEnd.value)
    ensures LeastPassing(m, old(q.gateBars), q.floor, q.finalProofEnd.value)
       <==> old(q.accountedThrough.None? || q.proofs == {})
  {
    hide Passing, GateBarsFolded;
    q.EvaluateThrough(m, at, engineTime, 0);
  }

  lemma SettledAhead(m: Market, at: int, engineTime: int)
    requires Passing(m, map[], at) && Settled(engineTime, at)
    ensures Qualification.SettledPass(m, map[], at, at, engineTime)
  {}

  /** Then the target stands still while the clock runs on by more than the correction horizon.  The next evaluation
      stops at the end of the second minute, for good, although the end of the first one passes and was held. */
  method FinalIsNotEarliest(sessionStart: int) returns (q: Qualification)
    ensures fresh(q) && q.finalized && q.finalProofEnd == Some(sessionStart + 120)
    ensures Passing(Filled(sessionStart, 120), map[], sessionStart + 60)
  {
    hide Passing, Filled, Qualification.Ready, Qualification.SettledPass, GateBarsFolded;
    q := AccountForMost(sessionStart);
    var m, at := Filled(sessionStart, 120), sessionStart + 120;
    MinutePasses(sessionStart, 120, 1);
    MinutePasses(sessionStart, 120, 2);
    FilledStarts(sessionStart, 120);
    SettledAhead(m, at, (at + 961) * SECOND);
    EvaluateSettled(q, m, at, (at + 961) * SECOND);
  }

  lemma ExactAreFew(proofs: set<int>, from: int, n: nat)
    requires forall p :: p in proofs ==> from <= p < from + n
    ensures |proofs| <= n
  {
    IntervalCount(proofs, from, n);
  }

}
