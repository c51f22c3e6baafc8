/** When a qualification state may be used, and what it is published as, by what it holds. */
module QualificationMeaning {
  import opened Options
  import opened SessionUnits
  import opened HydrationScans
  import opened QualificationGate
  import opened Qualifications

  /** A state is usable while it has not failed, holds no more than it may, has accounted for a part of the session
      only, keeps every proof inside the session and that part, marks none it does not hold, and, once final, holds
      nothing but an end inside the session. */
  lemma ValidMeans(q: Qualification, m: Market)
    ensures q.ValidState(m)
       <==> && !q.invalid && |q.proofs| <= 961 && |q.dirty| <= 961 && |q.gateBars| <= MAXIMUM_GATE_BARS
            && (q.accountedThrough.Some? ==>
                  var through := q.accountedThrough.value;
                  && m.sessionStart <= through && through <= m.SessionEnd()
                  && forall p :: p in q.proofs ==> p <= through)
            && (forall p :: p in q.proofs ==> m.sessionStart <= p && p <= m.SessionEnd())
            && q.dirty <= q.proofs
            && (q.finalized <==> q.finalProofEnd.Some?)
            && (q.finalized ==> q.proofs == {} && m.sessionStart <= q.finalProofEnd.value <= m.SessionEnd())
            && (forall at :: at in q.gateBars ==> m.sessionStart <= at && at < m.SessionEnd())
  {
    if q.finalized && q.proofs == {} && q.dirty <= q.proofs { assert q.dirty == {}; }
  }

  /** The published status of any state, by what it holds and how far it has accounted. */
  lemma StatusCases(q: Qualification, m: Market, at: int)
    ensures var s, failed := StatusAt(q, m, at), q.boundExceeded || q.invalid;
            && (s == Finalized <==> !failed && q.finalized)
            && (s == Provisional <==> !failed && !q.finalized && exists p :: p in q.proofs)
            && (s == NotYetPassed <==>
                  && !failed && !q.finalized && q.proofs == {}
                  && q.accountedThrough.Some? && q.accountedThrough.value >= at
                  && forall k :: m.sessionStart <= k && k < at && k < m.SessionEnd() ==>
                       k !in m.conflict && (k in m.tail || k in m.presence || k in m.provenAbsent))
  {
    if q.proofs != {} {
      if !exists p :: p in q.proofs { assert false; }
    }
  }

  // ---------------------------------------------------------------------------------------------- rows of a hydration

  /** A row is refused where its second is folded already, whatever is known of its bar, or where rows contradicted each
      other. */
  lemma RefusedMeans(m: Market, start: int)
    ensures Refused(m, start) <==> !(start !in m.presence && start !in m.conflict)
  {}

  /** A row that is installed ends in the tail, or, more than 960 seconds after its end, among the folded seconds;
      and so does everything in the tail by then. */
  lemma InstallMeans(m: Market, gate: map<int, GateBar>, row: Row, now: int, at: int)
    requires m.tail.Keys !! m.presence && row.start !in m.presence
    ensures var (n, g) := InstallRow(m, gate, row, now);
            var late, held := now > (at + 961) * SECOND, at in m.tail || at == row.start;
            && (at in n.tail <==> held && !late) && (at in n.presence <==> at in m.presence || (held && late))
            && (at in g <==> at in gate || (held && late))
            && (at in n.provenAbsent <==> at in m.provenAbsent && at != row.start)
            && n.conflict == m.conflict && n.sessionStart == m.sessionStart
            && (at in n.tail ==> n.tail[at] == if at == row.start then row.bar else m.tail[at])
  {}
}
