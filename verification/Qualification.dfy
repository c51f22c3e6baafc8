/** The qualification state of one symbol: the proof ends that pass, the ones to re-test, and the irrevocable end.
    Every method is proved against the set of passing proof ends computed from scratch. */
module Qualifications {
  import opened Options
  import opened SessionUnits
  import opened Intervals
  import opened ProofWindows
  import opened QualificationGate

  const MAXIMUM_GATE_BARS: int := 57601

  /** A proof end can no longer be corrected. */
  predicate Settled(engineTime: int, proofEnd: int) {
    engineTime > (proofEnd + 960) * SECOND
  }

  /** The proofs are exactly the passing proof ends between two boundaries. */
  ghost predicate Exact(m: Market, gate: map<int, GateBar>, proofs: set<int>, from: int, through: int) {
    forall p :: p in proofs <==> from <= p <= through && Passing(m, gate, p)
  }

  ghost predicate NoneSettled(proofs: set<int>, engineTime: int) {
    forall p :: p in proofs ==> !Settled(engineTime, p)
  }

  /** No proof is settled or later than a boundary the engine's time has reached. */
  ghost predicate Roomy(proofs: set<int>, through: int, engineTime: int) {
    NoneSettled(proofs, engineTime) && (forall p :: p in proofs ==> p <= through) && through * SECOND <= engineTime
  }

  /** With these proofs, even a pass at every newly scanned end would fit. */
  ghost predicate Fits(proofs: set<int>, first: int, at: int) {
    |proofs| + (at - first + 1) <= MAXIMUM_PROOFS
  }

  /** A target inside the session that the engine's time has reached. */
  predicate Target(m: Market, at: int, engineTime: int) {
    m.sessionStart <= at <= m.SessionEnd() && at * SECOND <= engineTime
  }

  /** The least passing proof end of a range. */
  ghost predicate LeastPassing(m: Market, gate: map<int, GateBar>, first: int, proofEnd: int) {
    && first <= proofEnd && Passing(m, gate, proofEnd)
    && forall p :: first <= p < proofEnd ==> !Passing(m, gate, p)
  }

  class Qualification {
    var gateBars: map<int, GateBar>
    var proofs: set<int>
    var dirty: set<int>
    var accountedThrough: Option<int>
    var finalized: bool
    var finalProofEnd: Option<int>
    var boundExceeded: bool
    var invalid: bool
    var installed: nat
    var revalidated: nat
    var revoked: nat
    var finalizedCount: nat

    /** The first proof end the state answers for: the session's first one, and after a fresh hydration the first one a
        correction can still reach. */
    ghost var floor: int

    constructor (sessionStart: int)
      ensures Open() && proofs == {} && dirty == {} && gateBars == map[] && floor == sessionStart
      ensures accountedThrough == None && finalProofEnd == None
    {
      gateBars, proofs, dirty, accountedThrough := map[], {}, {}, None;
      finalized, finalProofEnd, boundExceeded, invalid := false, None, false, false;
      installed, revalidated, revoked, finalizedCount := 0, 0, 0, 0;
      floor := sessionStart;
    }

    /** The structural test every entry point makes. */
    predicate ValidState(m: Market)
      reads this
    {
      && !invalid && |proofs| <= MAXIMUM_PROOFS && |dirty| <= MAXIMUM_PROOFS && |gateBars| <= MAXIMUM_GATE_BARS
      && (accountedThrough.Some? ==> m.sessionStart <= accountedThrough.value <= m.SessionEnd())
      && (if finalized then
            && finalProofEnd.Some? && m.sessionStart <= finalProofEnd.value <= m.SessionEnd()
            && proofs == {} && dirty == {}
          else finalProofEnd.None?)
      && (forall p :: p in proofs ==>
            m.sessionStart <= p <= m.SessionEnd() && (accountedThrough.Some? ==> p <= accountedThrough.value))
      && dirty <= proofs
      && forall at :: at in gateBars ==> m.InSession(at)
    }

    /** Nothing is decided for good yet. */
    predicate Open()
      reads this
    {
      !finalized && !boundExceeded && !invalid
    }

    method Fail(bound: bool)
      modifies this`proofs, this`dirty, this`gateBars, this`boundExceeded, this`invalid
      ensures proofs == {} && dirty == {} && gateBars == map[]
      ensures boundExceeded == (old(boundExceeded) || bound) && invalid == (old(invalid) || !bound)
    {
      proofs, dirty, gateBars := {}, {}, map[];
      if bound {
        boundExceeded := true;
      } else {
        invalid := true;
      }
    }

    method FinalizeAt(proofEnd: int)
      modifies this`proofs, this`dirty, this`gateBars, this`finalized, this`finalProofEnd, this`finalizedCount
      ensures finalized && finalProofEnd == Some(proofEnd) && proofs == {} && dirty == {} && gateBars == map[]
      ensures finalizedCount == old(finalizedCount) + 1
    {
      finalized, finalProofEnd, finalizedCount := true, Some(proofEnd), finalizedCount + 1;
      proofs, dirty, gateBars := {}, {}, map[];
    }

    /** Adds a proof unless it is there; the 962nd fails the state. */
    method InstallProof(proof: int)
      modifies this`proofs, this`dirty, this`gateBars, this`boundExceeded, this`invalid, this`installed
      ensures invalid == old(invalid) && (gateBars == old(gateBars) || gateBars == map[])
      ensures if finalized || proof in old(proofs) then proofs == old(proofs) && boundExceeded == old(boundExceeded)
              else if |old(proofs)| >= MAXIMUM_PROOFS then boundExceeded && proofs == {}
              else proofs == old(proofs) + {proof} && boundExceeded == old(boundExceeded)
      ensures !boundExceeded ==> dirty == old(dirty) && gateBars == old(gateBars)
      ensures installed == old(installed)
                           + if finalized || proof in old(proofs) || |old(proofs)| >= MAXIMUM_PROOFS then 0 else 1
    {
      if finalized || proof in proofs {
        return;
      }
      if |proofs| >= MAXIMUM_PROOFS {
        Fail(true);
        return;
      }
      proofs := proofs + {proof};
      installed := installed + 1;
    }

    /** What a scan over [first, cur) has made of the proofs it started with: it stopped for good at the first passing
        end if that end is settled, and otherwise holds every passing end it met. */
    ghost predicate Scanned(m: Market, gate: map<int, GateBar>, was: set<int>, first: int, cur: int, engineTime: int)
      reads this
    {
      !boundExceeded ==>
        if finalized then
          && finalProofEnd.Some? && finalProofEnd.value < cur && proofs == {} && dirty == {} && gateBars == map[]
          && LeastPassing(m, gate, first, finalProofEnd.value) && Settled(engineTime, finalProofEnd.value)
        else
          && gateBars == gate
          && (forall p :: p in proofs <==> p in was || (first <= p < cur && Passing(m, gate, p)))
          && (forall p :: first <= p < cur && Passing(m, gate, p) ==> !Settled(engineTime, p))
    }

    /** One proof end of a scan. */
    method EvaluateNext(ghost m: Market, ghost gate: map<int, GateBar>, ghost was: set<int>, ghost first: int, cur: int,
                        ghost limit: int, engineTime: int, passing: bool)
      requires !finalized && first <= cur && Scanned(m, gate, was, first, cur, engineTime)
      requires !boundExceeded ==> (passing <==> Passing(m, gate, cur))
      modifies this`proofs, this`dirty, this`gateBars, this`finalized, this`finalProofEnd, this`finalizedCount,
               this`boundExceeded, this`invalid, this`installed
      ensures Scanned(m, gate, was, first, cur + 1, engineTime)
      ensures invalid == old(invalid) && (old(boundExceeded) ==> boundExceeded)
      ensures !finalized && !boundExceeded ==> dirty == old(dirty)
      ensures !finalized ==> finalProofEnd == old(finalProofEnd)
      ensures |old(proofs)| <= MAXIMUM_PROOFS ==> |proofs| <= MAXIMUM_PROOFS
      ensures |proofs| <= |old(proofs)| + 1
      ensures gateBars == old(gateBars) || gateBars == map[]
      ensures Roomy(was, limit, engineTime) && cur <= limit && !old(boundExceeded) ==> !boundExceeded
      ensures |old(proofs)| < MAXIMUM_PROOFS && !old(boundExceeded) ==> !boundExceeded
    {
      if !passing {
        return;
      }
      if Settled(engineTime, cur) {
        FinalizeAt(cur);
        return;
      }
      ghost var before := proofs;
      if Roomy(was, limit, engineTime) && cur <= limit && !boundExceeded {
        RoomForOneMore(before, cur, limit, engineTime);
      }
      InstallProof(cur);
    }

    /** Re-tests one proof, which is revoked unless it still passes. */
    method RetestProof(m: Market, proof: int)
      modifies this`proofs, this`revalidated, this`revoked
      ensures proofs == if proof in old(proofs) && !Passing(m, gateBars, proof) then old(proofs) - {proof}
                        else old(proofs)
      ensures revalidated == old(revalidated) + if proof in old(proofs) then 1 else 0
      ensures revoked + |proofs| == old(revoked) + |old(proofs)|
    {
      if proof in proofs {
        revalidated := revalidated + 1;
        var facts := CalculateGateFacts(m, gateBars, proof);
        if !Trustworthy(m, proof - WINDOW, proof) || !Passes(facts) {
          proofs := proofs - {proof};
          revoked := revoked + 1;
        }
      }
    }

    /** Re-tests the dirty proofs; the ones that no longer pass are revoked. */
    method RevalidateDirty(m: Market)
      modifies this`proofs, this`dirty, this`revalidated, this`revoked
      ensures if finalized || boundExceeded || old(dirty) == {} then proofs == old(proofs) && dirty == old(dirty)
              else dirty == {} && forall p :: p in proofs <==>
                     p in old(proofs) && (p in old(dirty) ==> Passing(m, gateBars, p))
      ensures revalidated == old(revalidated)
                             + if finalized || boundExceeded then 0 else |old(dirty) * old(proofs)|
      ensures revoked + |proofs| == old(revoked) + |old(proofs)|
    {
      hide Passing;
      if finalized || boundExceeded || dirty == {} {
        return;
      }
      var left := dirty;
      ghost var was, gate, tested: set<int> := proofs, gateBars, {};
      while left != {}
        invariant left <= dirty && dirty == old(dirty) && gateBars == gate
        invariant tested <= was && forall p :: p in tested <==> p in was && p in dirty && p !in left
        invariant forall p :: p in proofs <==> p in was && (p in dirty && p !in left ==> Passing(m, gate, p))
        invariant revalidated == old(revalidated) + |tested| && revoked + |proofs| == old(revoked) + |was|
        decreases left
      {
        var proof := Pick(left);
        assert proof !in tested;
        RetestProof(m, proof);
        left := left - {proof};
        tested := if proof in was then tested + {proof} else tested;
      }
      assert forall p :: p in tested <==> p in dirty * was;
      assert tested == dirty * was;
      dirty := {};
    }

    /** The least settled proof, if any, becomes final. */
    method FinalizeDue(engineTime: int)
      modifies this`proofs, this`dirty, this`gateBars, this`finalized, this`finalProofEnd, this`finalizedCount
      ensures if old(finalized) || boundExceeded || NoneSettled(old(proofs), engineTime)
              then proofs == old(proofs) && dirty == old(dirty) && gateBars == old(gateBars)
                   && finalized == old(finalized) && finalProofEnd == old(finalProofEnd)
              else finalized && finalProofEnd.Some? && finalProofEnd.value in old(proofs)
                   && Settled(engineTime, finalProofEnd.value)
                   && forall p :: p in old(proofs) ==> finalProofEnd.value <= p
      ensures finalizedCount == old(finalizedCount) + if finalized && !old(finalized) then 1 else 0
    {
      if finalized || boundExceeded {
        return;
      }
      var earliest: Option<int> := None;
      var left := proofs;
      while left != {}
        modifies {}
        invariant left <= proofs
        invariant earliest.None? ==> forall p :: p in proofs - left ==> !Settled(engineTime, p)
        invariant earliest.Some? ==> earliest.value in proofs && Settled(engineTime, earliest.value)
        invariant earliest.Some? ==> forall p :: p in proofs - left ==> earliest.value <= p || !Settled(engineTime, p)
        decreases left
      {
        var proof := Pick(left);
        assert forall p :: p in proofs - (left - {proof}) ==> p == proof || p in proofs - left;
        if Settled(engineTime, proof) && (earliest.None? || proof < earliest.value) {
          earliest := Some(proof);
        }
        left := left - {proof};
      }
      assert proofs - left == proofs;
      if earliest.Some? {
        FinalizeAt(earliest.value);
      }
    }

    /** What the scan keeps from one proof end to the next. */
    ghost predicate Scanning(window: ProofWindow, m: Market, gate: map<int, GateBar>, was: set<int>, first: int,
                             cur: int, engineTime: int)
      reads this, window, window.entries
    {
      && window.Valid() && WellFormed(window.view)
      && (!boundExceeded && !finalized ==> window.view == ViewAt(m, gate, cur))
      && Scanned(m, gate, was, first, cur, engineTime)
    }

    /** One proof end: decide, account for it, and roll the window on. */
    method ScanOne(window: ProofWindow, m: Market, ghost gate: map<int, GateBar>, ghost was: set<int>,
                   ghost first: int, cur: int, ghost limit: int, engineTime: int)
      requires !finalized && first <= cur && GateBarsFolded(m, gate)
      requires Scanning(window, m, gate, was, first, cur, engineTime)
      modifies this, window, window.entries
      ensures floor == old(floor)
      ensures Scanning(window, m, gate, was, first, cur + 1, engineTime)
      ensures accountedThrough == Some(cur) && invalid == old(invalid)
      ensures !finalized && !boundExceeded ==> dirty == old(dirty)
      ensures old(boundExceeded) ==> boundExceeded
      ensures !finalized ==> finalProofEnd == old(finalProofEnd)
      ensures |old(proofs)| <= MAXIMUM_PROOFS ==> |proofs| <= MAXIMUM_PROOFS
      ensures |proofs| <= |old(proofs)| + 1
      ensures Roomy(was, limit, engineTime) && cur <= limit && !old(boundExceeded) ==> !boundExceeded
      ensures |old(proofs)| < MAXIMUM_PROOFS && !old(boundExceeded) ==> !boundExceeded
    {
      VerdictIsPassing(m, gate, cur);
      var passing := window.Verdict();
      EvaluateNext(m, gate, was, first, cur, limit, engineTime, passing);
      accountedThrough := Some(cur);
      AdvanceMovesOn(m, gate, cur);
      EntryWellFormed(m, gateBars, cur);
      window.Advance(m, gateBars, cur);
    }

    /** Scans the proof ends after the boundary with one rolling window. */
    method ScanThrough(m: Market, ghost gate: map<int, GateBar>, first: int, at: int, engineTime: int)
      requires !finalized && !boundExceeded && gateBars == gate && GateBarsFolded(m, gate) && first <= at + 1
      modifies this
      ensures floor == old(floor)
      ensures Scanned(m, gate, old(proofs), first, at + 1, engineTime)
      ensures invalid == old(invalid)
      ensures !finalized && !boundExceeded ==> dirty == old(dirty)
      ensures first <= at && !finalized ==> accountedThrough == Some(at)
      ensures first > at ==> accountedThrough == old(accountedThrough)
      ensures Roomy(old(proofs), at, engineTime) || Fits(old(proofs), first, at) ==> !boundExceeded
      ensures |old(proofs)| <= MAXIMUM_PROOFS ==> |proofs| <= MAXIMUM_PROOFS
      ensures !finalized ==> finalProofEnd == old(finalProofEnd)
    {
      var window := new ProofWindow(m, gateBars, first);
      VerdictIsPassing(m, gate, first);
      var proofEnd := first;
      ghost var was := proofs;
      while proofEnd <= at && !finalized
        invariant first <= proofEnd <= at + 1 && fresh(window) && fresh(window.entries)
        invariant Scanning(window, m, gate, was, first, proofEnd, engineTime)
        invariant invalid == old(invalid) && floor == old(floor)
        invariant !finalized && !boundExceeded ==> dirty == old(dirty)
        invariant accountedThrough == if proofEnd == first then old(accountedThrough) else Some(proofEnd - 1)
        invariant Roomy(was, at, engineTime) || Fits(was, first, at) ==> !boundExceeded
        invariant |was| <= MAXIMUM_PROOFS ==> |proofs| <= MAXIMUM_PROOFS
        invariant |proofs| <= |was| + (proofEnd - first) && (!finalized ==> finalProofEnd == old(finalProofEnd))
        decreases at - proofEnd
      {
        ScanOne(window, m, gate, was, first, proofEnd, at, engineTime);
        proofEnd := proofEnd + 1;
      }
      ScanEnds(m, gate, was, first, proofEnd, at, engineTime);
    }

    lemma ScanEnds(m: Market, gate: map<int, GateBar>, was: set<int>, first: int, cur: int, at: int, engineTime: int)
      requires Scanned(m, gate, was, first, cur, engineTime) && first <= cur <= at + 1 && (finalized || cur == at + 1)
      ensures Scanned(m, gate, was, first, at + 1, engineTime)
    {}

    /** The proofs say exactly what holds through the accounted boundary; before any boundary they at least only say
        what holds through a target. */
    ghost predicate Ready(m: Market, at: int)
      reads this
    {
      && Open() && ValidState(m) && dirty == {} && m.sessionStart <= floor
      && (if accountedThrough.Some? then
            floor <= accountedThrough.value + 1 && Exact(m, gateBars, proofs, floor, accountedThrough.value)
          else
            floor == m.sessionStart && forall p :: p in proofs ==> floor <= p <= at && Passing(m, gateBars, p))
    }

    /** The proofs are exact through the target or beyond it. */
    ghost predicate ExactThrough(m: Market, at: int)
      reads this
    {
      && Open() && dirty == {} && accountedThrough.Some? && at <= accountedThrough.value && m.sessionStart <= floor
      && Exact(m, gateBars, proofs, floor, accountedThrough.value)
    }

    /** The final end is a settled passing end of the evidence it was decided on. */
    ghost predicate FinalSound(m: Market, gate: map<int, GateBar>, engineTime: int)
      reads this
    {
      finalProofEnd.Some? && Passing(m, gate, finalProofEnd.value) && Settled(engineTime, finalProofEnd.value)
      && m.sessionStart <= finalProofEnd.value
    }

    /** It is the earliest passing end unless an earlier proof was already held. */
    ghost predicate FinalEarliest(m: Market, gate: map<int, GateBar>, was: set<int>)
      reads this
    {
      finalProofEnd.Some?
      && (LeastPassing(m, gate, floor, finalProofEnd.value)
          <==> forall p :: p in was ==> finalProofEnd.value <= p)
    }

    /** The first proof end not accounted for. */
    function FirstOpen(m: Market): int
      reads this
    {
      if accountedThrough.Some? then accountedThrough.value + 1 else m.sessionStart
    }

    /** What a scan from the boundary and the final pass over the proofs leave. */
    ghost predicate Evaluated(m: Market, gate: map<int, GateBar>, was: set<int>, at: int, engineTime: int)
      reads this
    {
      !boundExceeded ==>
        if finalized then FinalSound(m, gate, engineTime) && FinalEarliest(m, gate, was)
        else ExactThrough(m, at) && gateBars == gate
    }

    /** Proofs held before a scan are passing, and none before the scan's start is missing. */
    ghost predicate HeldBefore(m: Market, gate: map<int, GateBar>, was: set<int>, first: int, at: int)
      reads this
    {
      && m.sessionStart <= floor <= first
      && (forall p :: p in was ==> floor <= p <= at && Passing(m, gate, p))
      && (forall p :: floor <= p < first && Passing(m, gate, p) ==> p in was)
    }

    /** A scan extends exactness from its start to its end. */
    lemma ScanExact(m: Market, gate: map<int, GateBar>, was: set<int>, first: int, at: int, engineTime: int)
      requires HeldBefore(m, gate, was, first, at) && Scanned(m, gate, was, first, at + 1, engineTime) && !boundExceeded
      ensures if finalized then FinalSound(m, gate, engineTime) && FinalEarliest(m, gate, was)
              else Exact(m, gate, proofs, floor, at)
    {
      if finalized {
        var q := finalProofEnd.value;
        if forall p :: p in was ==> q <= p {
          assert LeastPassing(m, gate, floor, q);
        } else {
          var p :| p in was && p < q;
          assert Passing(m, gate, p);
        }
      }
    }

    /** The least of exact proofs is the earliest passing end. */
    lemma FinalLeast(m: Market, gate: map<int, GateBar>, was: set<int>, held: set<int>, through: int, engineTime: int)
      requires m.sessionStart <= floor && Exact(m, gate, held, floor, through) && forall p :: p in was ==> p in held
      requires finalProofEnd.Some? && finalProofEnd.value in held && Settled(engineTime, finalProofEnd.value)
      requires forall p :: p in held ==> finalProofEnd.value <= p
      ensures FinalSound(m, gate, engineTime) && FinalEarliest(m, gate, was)
    {
      var q := finalProofEnd.value;
      assert forall p :: floor <= p < q ==> !Passing(m, gate, p);
    }

    /** Evaluated, and no proof held before is lost while nothing is final. */
    ghost predicate EvaluatedFrom(m: Market, gate: map<int, GateBar>, was: set<int>, at: int, engineTime: int)
      reads this
    {
      && !invalid && Evaluated(m, gate, was, at, engineTime)
      && (!boundExceeded && !finalized ==> forall p :: p in was ==> p in proofs)
    }

    /** Every proof not waiting to be re-tested passes: what the ordinary path keeps. */
    ghost predicate Sound(m: Market)
      reads this
    {
      forall p :: p in proofs ==> m.sessionStart <= p && (p !in dirty ==> Passing(m, gateBars, p))
    }

    /** What a sound state leaves when no failed window is searched again: only passing proofs, or a passing end. */
    ghost predicate SoundEnd(m: Market, gate: map<int, GateBar>, engineTime: int)
      reads this
    {
      !boundExceeded ==>
        if finalized then FinalSound(m, gate, engineTime)
        else gateBars == gate && forall p :: p in proofs ==> m.sessionStart <= p && Passing(m, gate, p)
    }

    lemma ScanKeeps(m: Market, gate: map<int, GateBar>, was: set<int>, first: int, at: int, engineTime: int)
      requires Scanned(m, gate, was, first, at + 1, engineTime)
      ensures !boundExceeded && !finalized ==> forall p :: p in was ==> p in proofs
    {}

    lemma ScanSound(m: Market, gate: map<int, GateBar>, was: set<int>, first: int, at: int, engineTime: int)
      requires Scanned(m, gate, was, first, at + 1, engineTime) && m.sessionStart <= first
      requires forall p :: p in was ==> m.sessionStart <= p && Passing(m, gate, p)
      ensures SoundEnd(m, gate, engineTime)
    {}

    /** A newly scanned proof end passes and is settled. */
    static ghost predicate SettledPass(m: Market, gate: map<int, GateBar>, first: int, at: int, engineTime: int) {
      exists p :: first <= p <= at && Passing(m, gate, p) && Settled(engineTime, p)
    }

    /** Final for good at the first newly scanned passing end. */
    ghost predicate StoppedAtFirst(m: Market, gate: map<int, GateBar>, first: int)
      reads this
    {
      finalized && finalProofEnd.Some? && LeastPassing(m, gate, first, finalProofEnd.value)
    }

    /** If the next evaluation ends final, it ends at the earliest passing end: no proof is held behind the scan, or no
        newly scanned end that passes is settled. */
    ghost predicate EndsEarliest(m: Market, at: int, engineTime: int)
      reads this
    {
      accountedThrough.None? || proofs == {} || !SettledPass(m, gateBars, FirstOpen(m), at, engineTime)
    }

    /** An end no later than any proof held, or the first one scanned past proofs that are held. */
    ghost predicate FinalPlace(m: Market, gate: map<int, GateBar>, was: set<int>, first: int, at: int, engineTime: int)
      reads this
    {
      finalized && !boundExceeded ==>
        finalProofEnd.Some?
        && if SettledPass(m, gate, first, at, engineTime) then LeastPassing(m, gate, first, finalProofEnd.value)
           else forall p :: p in was ==> finalProofEnd.value <= p
    }

    /** So the final end is the earliest passing one exactly as the state before said. */
    lemma EarliestDecided(m: Market, gate: map<int, GateBar>, was: set<int>, accounted: Option<int>, at: int,
                          engineTime: int)
      requires finalProofEnd.Some? && FinalEarliest(m, gate, was) && finalized && !boundExceeded
      requires FinalPlace(m, gate, was, if accounted.Some? then accounted.value + 1 else floor, at, engineTime)
      requires accounted.Some? ==> forall p :: p in was ==> p <= accounted.value
      ensures LeastPassing(m, gate, floor, finalProofEnd.value)
         <==> || accounted.None? || was == {}
              || !SettledPass(m, gate, accounted.value + 1, at, engineTime)
    {
      hide Passing;
      if accounted.Some? && was != {} && SettledPass(m, gate, accounted.value + 1, at, engineTime) {
        if !exists p :: p in was { assert false; }
        var p :| p in was;
        assert p < finalProofEnd.value;
      }
    }

    /** Extends the proofs from the boundary to the target. */
    method ScanToTarget(m: Market, ghost gate: map<int, GateBar>, at: int, engineTime: int)
      requires Open() && GateBarsFolded(m, gateBars) && gate == gateBars && dirty == {}
      requires accountedThrough.Some? ==> m.sessionStart <= accountedThrough.value
      modifies this
      ensures floor == old(floor)
      ensures !invalid
      ensures SettledPass(m, gate, old(FirstOpen(m)), at, engineTime) ==>
                boundExceeded || StoppedAtFirst(m, gate, old(FirstOpen(m)))
      ensures !SettledPass(m, gate, old(FirstOpen(m)), at, engineTime) ==> boundExceeded || !finalized
      ensures old(Ready(m, at)) && m.sessionStart <= at ==> EvaluatedFrom(m, gate, old(proofs), at, engineTime)
      ensures old(Sound(m)) ==> SoundEnd(m, gate, engineTime)
      ensures Roomy(old(proofs), at, engineTime) || Fits(old(proofs), old(FirstOpen(m)), at) ==> !boundExceeded
      ensures m.sessionStart <= at && old(Ready(m, at)) && floor <= at + 1 && at <= m.SessionEnd() ==>
                boundExceeded || finalized || Ready(m, at)
      ensures old(FirstOpen(m)) <= at && !finalized ==> accountedThrough == Some(at)
    {
      var first := FirstOpen(m);
      ghost var was, ready, sound := proofs, Ready(m, at), Sound(m);
      if first <= at {
        ScanThrough(m, gate, first, at, engineTime);
        if ready && !boundExceeded { ScanExact(m, gate, was, first, at, engineTime); }
        if sound { ScanSound(m, gate, was, first, at, engineTime); }
        ScanKeeps(m, gate, was, first, at, engineTime);
      }
    }

    /** Finalising the least settled one of exact proofs. */
    method FinalizeExact(ghost m: Market, ghost gate: map<int, GateBar>, ghost was: set<int>, ghost at: int,
                         engineTime: int)
      modifies this`proofs, this`dirty, this`gateBars, this`finalized, this`finalProofEnd, this`finalizedCount
      ensures old(EvaluatedFrom(m, gate, was, at, engineTime)) ==> Evaluated(m, gate, was, at, engineTime)
      ensures old(SoundEnd(m, gate, engineTime)) ==> SoundEnd(m, gate, engineTime)
      ensures old(finalized) ==> finalized && finalProofEnd == old(finalProofEnd)
      ensures !old(finalized) && finalized ==>
                finalProofEnd.Some? && forall p :: p in old(proofs) ==> finalProofEnd.value <= p
      ensures !finalized && !boundExceeded ==> NoneSettled(proofs, engineTime)
      ensures !finalized ==> proofs == old(proofs) && dirty == old(dirty) && gateBars == old(gateBars)
                             && finalProofEnd == old(finalProofEnd)
    {
      ghost var held, done := proofs, finalized;
      ghost var exact := EvaluatedFrom(m, gate, was, at, engineTime);
      FinalizeDue(engineTime);
      if exact && !boundExceeded && finalized && !done {
        FinalLeast(m, gate, was, held, accountedThrough.value, engineTime);
      }
    }

    /** An upper bound on the bars any window can hold: the tail, the compact bars, and the marks counted again. */
    function BarUpperBound(m: Market, marks: nat): nat
      reads this
    {
      |m.tail| + |gateBars| + marks
    }

    /** Re-testing changes nothing when nothing is marked, and makes a sound state sound throughout. */
    method RetestMarked(m: Market, ghost at: int)
      requires Open()
      modifies this`proofs, this`dirty, this`revalidated, this`revoked
      ensures dirty == {} && (forall p :: p in proofs ==> p in old(proofs)) && |proofs| <= |old(proofs)|
      ensures old(Ready(m, at)) ==> Ready(m, at) && proofs == old(proofs)
      ensures old(Sound(m)) ==> Sound(m)
    {
      ghost var was := proofs;
      RevalidateDirty(m);
      FewerKept(was, proofs);
    }

    /** Scans to the target; with fewer bars than a window needs the interval is accounted for without a scan. */
    method AccountOrScan(m: Market, ghost gate: map<int, GateBar>, at: int, engineTime: int, marks: nat)
      requires GateBarsFolded(m, gateBars) && Open() && gate == gateBars && m.sessionStart <= at && dirty == {}
      requires accountedThrough.Some? ==> m.sessionStart <= accountedThrough.value
      modifies this
      ensures floor == old(floor)
      ensures !invalid
      ensures SettledPass(m, gate, old(FirstOpen(m)), at, engineTime) ==>
                boundExceeded || StoppedAtFirst(m, gate, old(FirstOpen(m)))
      ensures !SettledPass(m, gate, old(FirstOpen(m)), at, engineTime) ==> boundExceeded || !finalized
      ensures old(Ready(m, at)) ==> EvaluatedFrom(m, gate, old(proofs), at, engineTime)
      ensures Roomy(old(proofs), at, engineTime) || Fits(old(proofs), old(FirstOpen(m)), at) ==> !boundExceeded
      ensures old(Ready(m, at)) && floor <= at + 1 && at <= m.SessionEnd() ==>
                boundExceeded || finalized || Ready(m, at)
      ensures old(FirstOpen(m)) <= at && !finalized ==> accountedThrough == Some(at)
      ensures old(Sound(m)) ==> SoundEnd(m, gate, engineTime)
    {
      if proofs == {} && dirty == {} && BarUpperBound(m, marks) < MINIMUM_SECONDS {
        NoPassingWhenFew(m, gateBars);
        accountedThrough := Some(at);
      } else {
        ScanToTarget(m, gate, at, engineTime);
      }
    }

    /** Re-test, scan, and finalise what is due. */
    method EvaluateOpen(m: Market, ghost gate: map<int, GateBar>, at: int, engineTime: int, marks: nat)
      requires GateBarsFolded(m, gateBars) && Open() && gate == gateBars && m.sessionStart <= at
      requires accountedThrough.Some? ==> m.sessionStart <= accountedThrough.value
      modifies this
      ensures floor == old(floor)
      ensures !invalid && (!finalized && !boundExceeded ==> NoneSettled(proofs, engineTime))
      ensures SettledPass(m, gate, old(FirstOpen(m)), at, engineTime) ==>
                boundExceeded || StoppedAtFirst(m, gate, old(FirstOpen(m)))
      ensures old(Ready(m, at)) ==> Evaluated(m, gate, old(proofs), at, engineTime)
                                    && FinalPlace(m, gate, old(proofs), old(FirstOpen(m)), at, engineTime)
      ensures Roomy(old(proofs), at, engineTime) || Fits(old(proofs), old(FirstOpen(m)), at) ==> !boundExceeded
      ensures old(Ready(m, at)) && floor <= at + 1 && at <= m.SessionEnd() ==>
                boundExceeded || finalized || Ready(m, at)
      ensures old(FirstOpen(m)) <= at && !finalized ==> accountedThrough == Some(at)
      ensures old(Sound(m)) ==> SoundEnd(m, gate, engineTime)
    {
      RetestMarked(m, at);
      ghost var was := proofs;
      AccountOrScan(m, gate, at, engineTime, marks);
      FinalizeExact(m, gate, was, at, engineTime);
    }

    /** Brings the proofs from the accounted boundary to a target. */
    method EvaluateThrough(m: Market, at: int, engineTime: int, marks: nat)
      requires GateBarsFolded(m, gateBars)
      modifies this
      ensures floor == old(floor)
      ensures !old(ValidState(m)) ==> invalid && finalized == old(finalized) && boundExceeded == old(boundExceeded)
      ensures old(Ready(m, at)) && Target(m, at, engineTime) ==>
                Evaluated(m, old(gateBars), old(proofs), at, engineTime) && !invalid
      ensures old(Ready(m, at)) && Target(m, at, engineTime) && !boundExceeded && finalized ==>
                (LeastPassing(m, old(gateBars), floor, finalProofEnd.value)
                 <==> old(EndsEarliest(m, at, engineTime)))
      ensures old(Open() && ValidState(m)) ==>
                Roomy(old(proofs), at, engineTime) || Fits(old(proofs), old(FirstOpen(m)), at) ==> !boundExceeded
      ensures old(Ready(m, at)) && floor <= at + 1 && Target(m, at, engineTime) && !boundExceeded && !finalized ==>
                Ready(m, at) && (old(FirstOpen(m)) <= at ==> accountedThrough == Some(at))
      ensures old(Open() && ValidState(m)) && Target(m, at, engineTime) ==>
                && (!finalized && !boundExceeded ==> NoneSettled(proofs, engineTime))
                && (SettledPass(m, old(gateBars), old(FirstOpen(m)), at, engineTime) ==>
                      boundExceeded || StoppedAtFirst(m, old(gateBars), old(FirstOpen(m))))
      ensures old(Open() && ValidState(m) && Sound(m)) && Target(m, at, engineTime) ==>
                SoundEnd(m, old(gateBars), engineTime)
      ensures old(finalized && ValidState(m)) ==>
                finalized && finalProofEnd == old(finalProofEnd) && !invalid && boundExceeded == old(boundExceeded)
      ensures old(boundExceeded) ==> boundExceeded
    {
      if !ValidState(m) {
        Fail(false);
      }
      if finalized || boundExceeded || invalid || !Target(m, at, engineTime) {
        return;
      }
      ghost var was, gate, accounted, ready := proofs, gateBars, accountedThrough, Ready(m, at);
      EvaluateOpen(m, gateBars, at, engineTime, marks);
      if ready && !boundExceeded && finalized { EarliestDecided(m, gate, was, accounted, at, engineTime); }
    }

    /** Marks the proofs of a range for re-testing.  With none marked before, marking never trips the bound. */
    method MarkDirty(first: int, last: int)
      modifies this`dirty, this`proofs, this`gateBars, this`boundExceeded, this`invalid
      ensures invalid == old(invalid) && |proofs| <= |old(proofs)|
      ensures gateBars == old(gateBars) || gateBars == map[]
      ensures old(boundExceeded) ==> boundExceeded
      ensures old(dirty) == {} && |old(proofs)| <= MAXIMUM_PROOFS && !old(boundExceeded) ==> !boundExceeded
      ensures !boundExceeded ==> proofs == old(proofs) && gateBars == old(gateBars)
      ensures !boundExceeded ==> forall p :: p in dirty <==>
                p in old(dirty) || (!finalized && p in proofs && first <= p <= last)
      ensures |old(dirty)| <= MAXIMUM_PROOFS ==> |dirty| <= MAXIMUM_PROOFS
      ensures !finalized && |old(dirty)| >= MAXIMUM_PROOFS && (exists p :: p in old(proofs) && first <= p <= last) ==>
                boundExceeded
    {
      if finalized || first > last {
        return;
      }
      var left, marked := proofs, dirty;
      ghost var seen: set<int> := {};
      while left != {}
        modifies {}
        invariant left <= proofs && |seen| + |left| == |proofs|
        invariant forall p :: p in seen <==> p in proofs && p !in left
        invariant forall p :: p in marked <==> p in dirty || (p in seen && first <= p <= last)
        invariant |marked| <= |dirty| + |seen|
        invariant |dirty| <= MAXIMUM_PROOFS ==> |marked| <= MAXIMUM_PROOFS
        invariant |dirty| >= MAXIMUM_PROOFS ==> marked == dirty && forall p :: p in seen ==> !(first <= p <= last)
        decreases left
      {
        var proof := Pick(left);
        if first <= proof <= last && |marked| >= MAXIMUM_PROOFS {
          break;
        }
        left := left - {proof};
        seen := seen + {proof};
        marked := if first <= proof <= last then marked + {proof} else marked;
      }
      if left != {} {
        Fail(true);
      } else {
        dirty := marked;
      }
    }

    /** From-scratch verdicts for a range of proof ends, until one is final. */
    method EvaluateRange(m: Market, ghost gate: map<int, GateBar>, first: int, last: int, ghost limit: int,
                         engineTime: int)
      requires !finalized && !invalid && (!boundExceeded ==> gate == gateBars) && first <= last + 1
      modifies this
      ensures floor == old(floor)
      ensures Scanned(m, gate, old(proofs), first, last + 1, engineTime)
      ensures !invalid && accountedThrough == old(accountedThrough) && (old(boundExceeded) ==> boundExceeded)
      ensures !finalized && !boundExceeded ==> dirty == old(dirty) && finalProofEnd == old(finalProofEnd)
      ensures |old(proofs)| <= MAXIMUM_PROOFS ==> |proofs| <= MAXIMUM_PROOFS
      ensures gateBars == old(gateBars) || gateBars == map[]
      ensures last <= limit && Roomy(old(proofs), limit, engineTime) && !old(boundExceeded) ==> !boundExceeded
    {
      var proofEnd := first;
      ghost var was := proofs;
      while proofEnd <= last && !finalized
        invariant first <= proofEnd <= last + 1
        invariant Scanned(m, gate, was, first, proofEnd, engineTime)
        invariant !invalid && accountedThrough == old(accountedThrough) && floor == old(floor)
        invariant old(boundExceeded) ==> boundExceeded
        invariant !finalized && !boundExceeded ==> dirty == old(dirty) && finalProofEnd == old(finalProofEnd)
        invariant |was| <= MAXIMUM_PROOFS ==> |proofs| <= MAXIMUM_PROOFS
        invariant gateBars == old(gateBars) || gateBars == map[]
        invariant last <= limit && Roomy(was, limit, engineTime) && !old(boundExceeded) ==> !boundExceeded
        decreases last - proofEnd
      {
        var facts := CalculateGateFacts(m, gateBars, proofEnd);
        var passing := Trustworthy(m, proofEnd - WINDOW, proofEnd) && Passes(facts);
        EvaluateNext(m, gate, was, first, proofEnd, limit, engineTime, passing);
        proofEnd := proofEnd + 1;
      }
      ScanEnds(m, gate, was, first, proofEnd, last, engineTime);
    }

    /** Re-tests the proofs of the windows a changed second is in, and searches those windows again. */
    method RetestWindows(m: Market, ghost gate: map<int, GateBar>, first: int, last: int, ghost limit: int,
                         engineTime: int)
      requires Open() && gate == gateBars && |proofs| <= MAXIMUM_PROOFS
      modifies this
      ensures floor == old(floor)
      ensures !invalid && accountedThrough == old(accountedThrough)
      ensures gateBars == old(gateBars) || gateBars == map[]
      ensures old(dirty) == {} ==> Retested(m, gate, old(proofs), first, last, engineTime)
      ensures !finalized && !boundExceeded ==> dirty == {} && finalProofEnd == old(finalProofEnd)
      ensures |proofs| <= MAXIMUM_PROOFS
      ensures old(dirty) == {} && last <= limit && Roomy(old(proofs), limit, engineTime) ==> !boundExceeded
    {
      MarkDirty(first, last);
      ghost var was := proofs;
      RevalidateDirty(m);
      FewerKept(was, proofs);
      if first <= last {
        EvaluateRange(m, gate, first, last, limit, engineTime);
      }
    }

    /** Inside a range the proofs are the passing ends; outside it they are what they were. */
    ghost predicate Retested(m: Market, gate: map<int, GateBar>, was: set<int>, first: int, last: int, engineTime: int)
      reads this
    {
      !boundExceeded ==>
        if finalized then
          && finalProofEnd.Some? && first <= finalProofEnd.value <= last && Passing(m, gate, finalProofEnd.value)
          && Settled(engineTime, finalProofEnd.value) && proofs == {} && dirty == {} && gateBars == map[]
        else
          && gateBars == gate
          && (forall p :: p in proofs <==> if first <= p <= last then Passing(m, gate, p) else p in was)
          && (forall p :: first <= p <= last && Passing(m, gate, p) ==> !Settled(engineTime, p))
    }

    /** A passing end of the changed windows lies beyond the accounted boundary. */
    static ghost predicate PassesBeyond(m: Market, gate: map<int, GateBar>, w: int, accounted: int, at: int) {
      exists p :: accounted < p <= at && w < p <= w + WINDOW && Passing(m, gate, p)
    }

    /** Retesting the sixty windows of the changed second makes exact proofs exact again. */
    static lemma RetestExact(before: Market, m: Market, gate: map<int, GateBar>, was: set<int>, held: set<int>, w: int,
                             from: int, accounted: int, at: int)
      requires SameBut(before, gate, m, gate, w) && from <= w + 1 && accounted <= at
      requires Exact(before, gate, was, from, accounted)
      requires forall p :: p in held <==> if w + 1 <= p <= w + WINDOW && p <= at then Passing(m, gate, p) else p in was
      ensures forall p :: p in held && p <= accounted <==> from <= p <= accounted && Passing(m, gate, p)
      ensures (exists p :: p in held && p > accounted) <==> PassesBeyond(m, gate, w, accounted, at)
    {
      forall p ensures p in held && p <= accounted <==> from <= p <= accounted && Passing(m, gate, p) {
        if !(w + 1 <= p <= w + WINDOW) { ChangeIsLocal(before, gate, m, gate, w, p); }
      }
      if p :| p in held && p > accounted {
        assert p !in was;
      }
      if PassesBeyond(m, gate, w, accounted, at) {
        var p :| accounted < p <= at && w < p <= w + WINDOW && Passing(m, gate, p);
        assert p in held;
      }
    }

    /** What a recomputation leaves of exact proofs: a sound final end, a tripped bound, exactness through the target,
        or an invalid state, and the last exactly when a changed window beyond the accounted boundary passes. */
    ghost predicate Recomputed(m: Market, gate: map<int, GateBar>, w: int, accounted: int, at: int, engineTime: int)
      reads this
    {
      !boundExceeded ==>
        if finalized then FinalSound(m, gate, engineTime)
        else if accounted < at && PassesBeyond(m, gate, w, accounted, at) then invalid
        else ExactThrough(m, at) && gateBars == gate
    }

    /** The proofs are exact for the evidence before a change at one second inside the accounted interval's reach. */
    ghost predicate ExactBefore(before: Market, m: Market, w: int, at: int, engineTime: int)
      reads this
    {
      && Ready(before, at) && accountedThrough.Some? && accountedThrough.value <= at
      && SameBut(before, gateBars, m, gateBars, w) && m.InSession(w) && floor <= w + 1 && Target(m, at, engineTime)
    }

    /** The last step of a recomputation: up to the target, or finalise what is due there. */
    method FinishRecompute(m: Market, ghost gate: map<int, GateBar>, ghost w: int, at: int, engineTime: int, marks: nat)
      requires GateBarsFolded(m, gateBars)
      modifies this
      ensures floor == old(floor)
      ensures old(Searched(m, gate, w, at)) && Target(m, at, engineTime) ==>
                Recomputed(m, gate, w, old(accountedThrough).value, at, engineTime)
      ensures old(!boundExceeded && !invalid) && (old(finalized) || Roomy(old(proofs), at, engineTime))
              ==> !boundExceeded
      ensures old(finalized && ValidState(m)) ==>
                finalized && finalProofEnd == old(finalProofEnd) && !invalid && boundExceeded == old(boundExceeded)
      ensures old(boundExceeded) ==> boundExceeded
    {
      ghost var held := proofs;
      if accountedThrough.None? || accountedThrough.value < at {
        if Searched(m, gate, w, at) && at <= m.SessionEnd() { SearchedReady(m, gate, w, at); }
        EvaluateThrough(m, at, engineTime, marks);
      } else {
        if Searched(m, gate, w, at) { SearchedEvaluated(m, gate, w, at, engineTime); }
        FinalizeExact(m, gate, held, at, engineTime);
      }
    }

    /** A searched state is ready for the rest of the way unless a changed window beyond the boundary passes; then the
        structural test turns it away. */
    lemma SearchedReady(m: Market, gate: map<int, GateBar>, w: int, at: int)
      requires Searched(m, gate, w, at) && at <= m.SessionEnd()
      ensures if PassesBeyond(m, gate, w, accountedThrough.value, at) then !ValidState(m) else Ready(m, at)
    {}

    lemma SearchedEvaluated(m: Market, gate: map<int, GateBar>, w: int, at: int, engineTime: int)
      requires Searched(m, gate, w, at) && accountedThrough.value == at
      ensures EvaluatedFrom(m, gate, proofs, at, engineTime)
    {
      assert !PassesBeyond(m, gate, w, at, at);
    }

    /** The proofs are exact through the accounted boundary, and past it hold what the changed windows pass. */
    ghost predicate Searched(m: Market, gate: map<int, GateBar>, w: int, at: int)
      reads this
    {
      && Open() && dirty == {} && finalProofEnd.None? && gateBars == gate && |proofs| <= MAXIMUM_PROOFS
      && |gateBars| <= MAXIMUM_GATE_BARS && (forall k :: k in gateBars ==> m.InSession(k))
      && accountedThrough.Some? && m.sessionStart <= accountedThrough.value <= at
      && m.sessionStart <= floor <= accountedThrough.value + 1
      && (forall p :: p in proofs && p <= accountedThrough.value <==>
            floor <= p <= accountedThrough.value && Passing(m, gate, p))
      && (forall p :: p in proofs ==> floor <= p)
      && ((exists p :: p in proofs && p > accountedThrough.value)
          <==> PassesBeyond(m, gate, w, accountedThrough.value, at))
    }

    /** Re-tests and searches the windows of one changed second. */
    method RetestSecond(m: Market, w: int, at: int, engineTime: int, ghost before: Market)
      requires Open() && ValidState(m)
      modifies this
      ensures floor == old(floor)
      ensures gateBars == old(gateBars) || gateBars == map[]
      ensures old(ExactBefore(before, m, w, at, engineTime)) && !boundExceeded ==>
                && accountedThrough == old(accountedThrough)
                && if finalized then FinalSound(m, old(gateBars), engineTime) && ValidState(m)
                   else Searched(m, old(gateBars), w, at)
      ensures old(dirty == {}) && Roomy(old(proofs), at, engineTime) && at * SECOND <= engineTime ==>
                !boundExceeded && (finalized || Roomy(proofs, at, engineTime))
    {
      ghost var was, gate := proofs, gateBars;
      ghost var ready := ExactBefore(before, m, w, at, engineTime);
      var first := if w + 1 < m.sessionStart then m.sessionStart else w + 1;
      var last := if w + WINDOW > at then at else w + WINDOW;
      RetestWindows(m, gate, first, last, at, engineTime);
      if ready && !boundExceeded && !finalized {
        RetestExact(before, m, gate, was, proofs, w, floor, accountedThrough.value, at);
      }
    }

    method RecomputeOpen(m: Market, ghost gate: map<int, GateBar>, w: int, at: int, engineTime: int, marks: nat,
                         ghost before: Market)
      requires GateBarsFolded(m, gateBars) && Open() && ValidState(m) && gate == gateBars
      modifies this
      ensures floor == old(floor)
      ensures old(ExactBefore(before, m, w, at, engineTime)) ==>
                Recomputed(m, gate, w, old(accountedThrough).value, at, engineTime)
      ensures old(ExactBefore(before, m, w, at, engineTime)) && Roomy(old(proofs), at, engineTime) ==> !boundExceeded
    {
      RetestSecond(m, w, at, engineTime, before);
      assert GateBarsFolded(m, gateBars);
      FinishRecompute(m, gate, w, at, engineTime, marks);
    }

    /** Re-tests and searches the windows of one changed second, then brings the state to the target. */
    method RecomputeForAggregate(m: Market, w: int, at: int, engineTime: int, marks: nat, ghost before: Market)
      requires GateBarsFolded(m, gateBars)
      modifies this
      ensures floor == old(floor)
      ensures old(ExactBefore(before, m, w, at, engineTime) && ValidState(m)) ==>
                Recomputed(m, old(gateBars), w, old(accountedThrough).value, at, engineTime)
      ensures old(ExactBefore(before, m, w, at, engineTime) && ValidState(m)) && Roomy(old(proofs), at, engineTime) ==>
                !boundExceeded
      ensures old(finalized && ValidState(m)) ==> finalized && finalProofEnd == old(finalProofEnd)
    {
      if !ValidState(m) {
        Fail(false);
      }
      if finalized || boundExceeded || invalid {
        return;
      }
      RecomputeOpen(m, gateBars, w, at, engineTime, marks, before);
    }

    /** What a completed scan of the session reports: the earliest passing end no correction can reach, and every later
        passing end. */
    static ghost predicate ScanFound(m: Market, gate: map<int, GateBar>, at: int, found: ScanResult)
    {
      && (match found.earliest
          case None => forall p :: m.sessionStart <= p < at - 960 ==> !Passing(m, gate, p)
          case Some(e) => e < at - 960 && LeastPassing(m, gate, m.sessionStart, e))
      && forall p :: p in found.recent <==> m.sessionStart <= p && at - 960 <= p <= at && Passing(m, gate, p)
    }

    /** With the findings there is still room for every proof. */
    ghost predicate Holdable(recent: set<int>)
      reads this
    {
      |proofs + recent| <= MAXIMUM_PROOFS
    }

    /** What findings become: the earliest end if it is settled, else the least settled recent one, for good; and with
        none settled, proofs. */
    ghost predicate Concluded(found: ScanResult, was: set<int>, engineTime: int)
      reads `finalized, `finalProofEnd, `proofs
    {
      if found.earliest.Some? && Settled(engineTime, found.earliest.value) then
        finalized && finalProofEnd == found.earliest && proofs == was
      else if NoneSettled(found.recent, engineTime) then
        !finalized && finalProofEnd.None? && proofs == was + found.recent
      else
        && finalized && proofs == {} && finalProofEnd.Some? && finalProofEnd.value in found.recent
        && Settled(engineTime, finalProofEnd.value) && forall p :: p in found.recent ==> finalProofEnd.value <= p
    }

    /** Installs the recent passing ends, or settles on the earliest one already beyond correction. */
    method InstallRecent(recent: set<int>, engineTime: int)
      requires finalized ==> finalProofEnd.Some?
      modifies this`proofs, this`dirty, this`gateBars, this`finalized, this`finalProofEnd, this`installed,
               this`boundExceeded, this`invalid
      ensures invalid == old(invalid) && (old(finalized) ==> finalized) && (finalized ==> finalProofEnd.Some?)
      ensures old(Open() && Holdable(recent)) ==>
                && !boundExceeded && gateBars == old(gateBars) && dirty == old(dirty)
                && (if NoneSettled(recent, engineTime)
                    then !finalized && finalProofEnd == old(finalProofEnd) && proofs == old(proofs) + recent
                    else finalized && finalProofEnd.value in recent && Settled(engineTime, finalProofEnd.value)
                         && forall p :: p in recent ==> finalProofEnd.value <= p)
      ensures old(finalized) && !old(boundExceeded) ==>
                !boundExceeded && gateBars == old(gateBars) && dirty == old(dirty)
    {
      var left := recent;
      ghost var done: set<int>, was, open := {}, proofs, Open() && Holdable(recent);
      while left != {}
        invariant left <= recent && done == recent - left && invalid == old(invalid)
        invariant (old(finalized) ==> finalized) && (finalized ==> finalProofEnd.Some?)
        invariant open || (old(finalized) && !old(boundExceeded)) ==>
                    !boundExceeded && gateBars == old(gateBars) && dirty == old(dirty)
        invariant open && !finalized ==> finalProofEnd == old(finalProofEnd) && proofs == was + done
        invariant open && !finalized ==> NoneSettled(done, engineTime)
        invariant open && finalized ==> finalProofEnd.value in done && Settled(engineTime, finalProofEnd.value)
        invariant open && finalized ==> forall p :: p in done ==> finalProofEnd.value <= p
        decreases left
      {
        var proof := Pick(left);
        left := left - {proof};
        if open && !finalized { OneMoreFits(proofs, proof, was + recent); }
        done := done + {proof};
        if Settled(engineTime, proof) {
          if !finalized || proof < finalProofEnd.value {
            finalized, finalProofEnd := true, Some(proof);
          }
        } else {
          InstallProof(proof);
        }
      }
      assert done == recent;
    }

    static predicate FewBars(m: Market, gate: map<int, GateBar>) {
      |m.tail| + |gate| < MINIMUM_SECONDS
    }

    /** The earliest proof end a correction can still reach. */
    static function Reachable(m: Market, at: int): int {
      if at - 960 < m.sessionStart then m.sessionStart else at - 960
    }

    /** Exact proofs for the whole evidence are exact, from the first reachable end on, for the bars that were kept. */
    lemma KeptExact(m: Market, gate: map<int, GateBar>, at: int)
      requires Exact(m, gate, proofs, m.sessionStart, at) && SameBarsFrom(m, gate, gateBars, at - 1020)
      requires forall p :: p in proofs ==> at - 960 <= p
      ensures Exact(m, gateBars, proofs, Reachable(m, at), at)
    {
      forall p | Reachable(m, at) <= p <= at ensures Passing(m, gate, p) <==> Passing(m, gateBars, p) {
        PassingAgrees(m, gate, gateBars, at - 1020, p);
      }
    }

    /** Settles on the earliest passing end, or installs the ones a correction can still reach. */
    method InstallFindings(engineTime: int, found: ScanResult)
      requires finalized ==> finalProofEnd.Some?
      modifies this`proofs, this`dirty, this`gateBars, this`finalized, this`finalProofEnd, this`finalizedCount,
               this`installed, this`boundExceeded, this`invalid
      ensures invalid == old(invalid) && (old(finalized) ==> finalized)
      ensures old(Open() && Holdable(found.recent) && finalProofEnd.None?) ==>
                Concluded(found, old(proofs), engineTime) && !boundExceeded
      ensures old(Open() && Holdable(found.recent)) || old(finalized && !boundExceeded) ==>
                !boundExceeded && gateBars == old(gateBars) && dirty == old(dirty)
      ensures finalizedCount == old(finalizedCount) + if finalized then 1 else 0
    {
      if found.earliest.Some? && Settled(engineTime, found.earliest.value) {
        finalized, finalProofEnd, finalizedCount := true, found.earliest, finalizedCount + 1;
        return;
      }
      InstallRecent(found.recent, engineTime);
      if finalized {
        finalizedCount := finalizedCount + 1;
        proofs := {};
      }
    }

    static lemma FoundFits(m: Market, gate: map<int, GateBar>, at: int, found: ScanResult)
      requires ScanFound(m, gate, at, found)
      ensures |found.recent| <= MAXIMUM_PROOFS
    {
      IntervalCount(found.recent, at - 960, 961);
    }

    /** Concluded from findings that are exactly what passes, the state is exact, for the whole evidence `gate` and, for
        the bars that pruning kept, ready to be evaluated further. */
    lemma ConcludedExact(m: Market, gate: map<int, GateBar>, at: int, engineTime: int, found: ScanResult)
      requires Concluded(found, {}, engineTime) && ScanFound(m, gate, at, found) && at * SECOND <= engineTime
      ensures finalized ==> finalProofEnd.Some? && LeastPassing(m, gate, m.sessionStart, finalProofEnd.value)
                            && Settled(engineTime, finalProofEnd.value) && proofs == {}
      ensures !finalized ==> Exact(m, gate, proofs, m.sessionStart, at) && NoneSettled(proofs, engineTime)
                             && |proofs| <= MAXIMUM_PROOFS
      ensures !finalized && SameBarsFrom(m, gate, gateBars, at - 1020) ==>
                Exact(m, gateBars, proofs, Reachable(m, at), at)
    {
      hide Passing, SameBarsFrom;
      if !finalized {
        assert forall p :: p in proofs ==> at - 960 <= p <= at;
        IntervalCount(proofs, at - 960, 961);
        if SameBarsFrom(m, gate, gateBars, at - 1020) { KeptExact(m, gate, at); }
      }
    }

    /** The end of a fresh hydration.  A request that is not complete leaves everything as it was; a complete one
        without a scan accounts for the interval; and with a scan its findings become the state, whatever the coverage
        is.  Findings that are exactly what passes make it exact. */
    method CompleteFreshHydration(ghost m: Market, ghost gate: map<int, GateBar>, at: int, engineTime: int,
                                  complete: bool, scan: Option<ScanResult>)
      requires finalized ==> finalProofEnd.Some?
      modifies this
      ensures invalid == old(invalid) && (old(boundExceeded) ==> boundExceeded)
      ensures old(boundExceeded || invalid) || !complete ==>
                && proofs == old(proofs) && accountedThrough == old(accountedThrough) && finalized == old(finalized)
                && dirty == old(dirty) && finalProofEnd == old(finalProofEnd) && floor == old(floor)
                && gateBars == old(gateBars) && boundExceeded == old(boundExceeded)
      ensures complete && !old(boundExceeded || invalid) ==> accountedThrough == Some(at)
      ensures complete && !old(boundExceeded || invalid) && scan.None? ==>
                && proofs == old(proofs) && finalized == old(finalized) && dirty == old(dirty)
                && gateBars == old(gateBars) && !boundExceeded && floor == old(floor)
                && (old(Ready(m, at)) && floor <= at <= m.SessionEnd() && proofs == {} && FewBars(m, gateBars) ==>
                      Ready(m, at))
      ensures complete && scan.Some? && old(Open() && finalProofEnd.None? && Holdable(scan.value.recent)) ==>
                && Concluded(scan.value, old(proofs), engineTime)
                && gateBars == old(gateBars) && dirty == old(dirty) && !boundExceeded
      ensures complete && scan.Some? && old(Open() && finalProofEnd.None? && proofs == {} && dirty == {})
              && ScanFound(m, gate, at, scan.value) && at * SECOND <= engineTime ==>
                CompletedExact(m, gate, at, engineTime, old(ValidState(m)))
    {
      hide Passing;
      if !complete || boundExceeded || invalid {
        return;
      }
      if scan.None? {
        if FewBars(m, gateBars) { NoPassingWhenFew(m, gateBars); }
      } else {
        hide Qualification.ScanFound, Qualification.Concluded;
        ghost var found, exact := scan.value, ScanFound(m, gate, at, scan.value) && at * SECOND <= engineTime;
        ghost var blank := Open() && finalProofEnd.None? && proofs == {} && dirty == {};
        if exact && blank {
          FoundFits(m, gate, at, found);
          assert proofs + found.recent == found.recent;
        }
        InstallFindings(engineTime, scan.value);
        floor := Reachable(m, at);
        if exact && blank { ConcludedExact(m, gate, at, engineTime, found); }
      }
      accountedThrough := Some(at);
    }

    /** A hydration completed over coverage that can be trusted: the earliest settled end for good, or exact proofs,
        from which evaluation goes on. */
    ghost predicate CompletedExact(m: Market, gate: map<int, GateBar>, at: int, engineTime: int, sound: bool)
      reads this
    {
      if finalized then
        && finalProofEnd.Some? && LeastPassing(m, gate, m.sessionStart, finalProofEnd.value)
        && Settled(engineTime, finalProofEnd.value) && proofs == {}
      else
        && Exact(m, gate, proofs, m.sessionStart, at) && NoneSettled(proofs, engineTime)
        && (SameBarsFrom(m, gate, gateBars, at - 1020) && m.sessionStart <= at <= m.SessionEnd() && sound ==>
              floor == Reachable(m, at) && Ready(m, at) && ExactThrough(m, at))
    }
  }

  /** What a hydration scan found. */
  datatype ScanResult = ScanResult(earliest: Option<int>, recent: set<int>)

  lemma OneMoreFits(proofs: set<int>, proof: int, all: set<int>)
    requires proofs <= all && proof in all && |all| <= MAXIMUM_PROOFS
    ensures proof in proofs || |proofs| < MAXIMUM_PROOFS
  {
    FewerKept(all, proofs + {proof});
  }

  datatype Status = Unresolved | NotYetPassed | Provisional | Finalized

  /** The published status. */
  ghost function StatusAt(q: Qualification, m: Market, at: int): Status
    reads q
  {
    if q.boundExceeded || q.invalid then Unresolved
    else if q.finalized then Finalized
    else if q.proofs != {} then Provisional
    else if q.accountedThrough.Some? && at <= q.accountedThrough.value && Trustworthy(m, m.sessionStart, at)
    then NotYetPassed
    else Unresolved
  }

  /** With exact proofs the status answers from the evidence alone: provisional exactly when some proof end has passed,
      not yet passed exactly when none has and the whole session so far is covered. */
  lemma StatusMeans(q: Qualification, m: Market, at: int)
    requires q.ExactThrough(m, at)
    ensures StatusAt(q, m, at) == Provisional
       <==> exists p :: q.floor <= p <= q.accountedThrough.value && Passing(m, q.gateBars, p)
    ensures StatusAt(q, m, at) == NotYetPassed
       <==> && (forall p :: q.floor <= p <= q.accountedThrough.value ==> !Passing(m, q.gateBars, p))
            && Trustworthy(m, m.sessionStart, at)
  {
    if q.proofs != {} {
      if !exists p :: p in q.proofs { assert false; }
    }
  }

  lemma FewerKept(was: set<int>, kept: set<int>)
    requires forall p :: p in kept ==> p in was
    ensures |kept| <= |was|
    decreases was
  {
    if !exists p :: p in kept {
      assert kept == {};
    } else {
      var p :| p in kept;
      FewerKept(was - {p}, kept - {p});
      assert kept == (kept - {p}) + {p} && was == (was - {p}) + {p};
    }
  }

  /** With fewer than 45 bars in all no proof end passes. */
  lemma NoPassingWhenFew(m: Market, gate: map<int, GateBar>)
    requires |m.tail| + |gate| < MINIMUM_SECONDS
    ensures forall p :: !Passing(m, gate, p)
  {
    FewBarsFail(m, gate);
  }

  /** Unsettled proof ends up to the engine's time are at most 961, so one more fits. */
  lemma RoomForOneMore(proofs: set<int>, cur: int, limit: int, engineTime: int)
    requires Roomy(proofs + {cur}, limit, engineTime)
    ensures cur in proofs || |proofs| < MAXIMUM_PROOFS
  {
    if cur !in proofs {
      IntervalCount(proofs + {cur}, limit - 960, 961);
    }
  }

  lemma EntryWellFormed(m: Market, gate: map<int, GateBar>, at: int)
    ensures var e := EntryAt(m, gate, at); (e.bar.Some? ==> e.active) && (e.covered ==> e.active)
  {}
}
