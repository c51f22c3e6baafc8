/** The staged evaluation at one target: the single pass over the population, its counters, and the ranking mode. */
module Evaluation {
  import opened Options
  import opened RankingRows
  import opened FieldAccounting

  datatype Lifecycle = Hydrating | Live | Elsewhere

  datatype Origin = Bootstrap | PostGap | Local

  datatype Consequence = NoConsequence | NoPrintThrough | Unknown(origin: Origin)

  datatype Qualification = NotYetPassed | Provisional | Finalized | Unresolved

  datatype FloatStatus = FloatCurrent | FloatStale | FloatUnavailable | FloatInvalid

  datatype Mark = Mark(start: int, end: int, close: real, live: bool)

  /** What the pass reads about one symbol at the target: its prior close, its latest mark strictly before the target,
      the coverage consequence and invalid evidence recorded for it, and the measured fields. */
  datatype Subject = Subject(symbol: nat, priorStatusValid: bool, priorClose: real, mark: Option<Mark>,
                             coverage: Consequence, invalid: Option<int>, conflictFromMark: bool,
                             coveredFromMark: bool, dayPercent: Field, measured: seq<Field>, enriched: seq<Field>,
                             qualification: Option<(Qualification, Origin)>, float: FloatStatus)

  datatype Target = Target(at: int, sessionStart: int)

  /** The five measured fields, in order: session volume, from-open percent, day range, activity and move. */
  const MEASURED_FIELDS: nat := 5

  predicate WellFormed(s: Subject) {
    |s.measured| == MEASURED_FIELDS && |s.enriched| == MEASURED_FIELDS
  }

  const MINIMUM_PRICE := 0.25

  // ---------------------------------------------------------------------------------------- how a symbol is classified

  predicate ValidPrior(s: Subject) {
    s.priorStatusValid && s.priorClose > 0.0
  }

  datatype Transition = NotApplicable | TrustedByLaterLiveMark | NoLaterEligibleMark | LatestMarkNotLive
                      | NoStrictlyOlderConflict | ConflictAtOrAfterMark | InvalidAtOrAfterMark | IncompleteAfterMark

  /** Whether a bootstrap gap may stay local to the fields because a later live mark is trusted, or why not. */
  function TransitionOf(s: Subject, t: Target): Transition {
    if s.coverage != Unknown(Bootstrap) then NotApplicable
    else if s.mark.None? || s.mark.value.start < t.sessionStart || s.mark.value.start >= t.at || s.mark.value.end > t.at
      then NoLaterEligibleMark
    else if !s.mark.value.live then LatestMarkNotLive
    else if s.conflictFromMark then ConflictAtOrAfterMark
    else if s.invalid.Some? && s.mark.value.start <= s.invalid.value < t.at then InvalidAtOrAfterMark
    else if !s.coveredFromMark then IncompleteAfterMark
    else TrustedByLaterLiveMark
  }

  /** The symbol's history is unknown and no later mark makes up for it. */
  predicate HiddenByGap(s: Subject, t: Target) {
    s.coverage.Unknown? && TransitionOf(s, t) != TrustedByLaterLiveMark
  }

  datatype Class = InvalidPrior | UnknownHistory | NoPrint | InvalidMarkOnly | UnknownMark | BelowPrice | Rankable

  /** The one bucket of the population a symbol belongs to. */
  function ClassOf(s: Subject, t: Target): Class {
    if !ValidPrior(s) then InvalidPrior
    else if HiddenByGap(s, t) then UnknownHistory
    else if s.mark.None? then
      if s.coverage == NoPrintThrough then NoPrint else if s.invalid.Some? then InvalidMarkOnly else UnknownMark
    else if t.at < s.mark.value.end then UnknownMark
    else if s.mark.value.close < MINIMUM_PRICE then BelowPrice
    else Rankable
  }

  predicate IsRankable(s: Subject, t: Target) {
    ClassOf(s, t) == Rankable
  }

  function QualificationOf(s: Subject): Qualification {
    if s.qualification.Some? then s.qualification.value.0 else Unresolved
  }

  function UnresolvedOrigin(s: Subject): Origin {
    if s.qualification.Some? then s.qualification.value.1 else Local
  }

  /** Why a symbol is uncertain, if it is. */
  function UncertaintyOf(s: Subject, t: Target): Option<Origin> {
    match ClassOf(s, t)
    case UnknownHistory => Some(s.coverage.origin)
    case UnknownMark => Some(Local)
    case Rankable =>
      if QualificationOf(s) != Unresolved then None else Some(UnresolvedOrigin(s))
    case _ => None
  }

  predicate Passes(s: Subject) {
    QualificationOf(s) == Provisional || QualificationOf(s) == Finalized
  }

  // ----------------------------------------------------------------------------------------------------------- fields

  const HistoryUnknown := Field(Unavailable, HistoryIncomplete, 0.0)

  function PercentChange(value: real, base: real): Field {
    if value <= 0.0 || base <= 0.0 then Field(Invalid, InvalidInput, 0.0)
    else Field(Current, NoReason, 100.0 * (value / base - 1.0))
  }

  function DayPercentOf(s: Subject): Field {
    if !ValidPrior(s) then Field(Unavailable, PriorCloseUnavailable, 0.0)
    else if s.mark.Some? then PercentChange(s.mark.value.close, s.priorClose)
    else s.dayPercent
  }

  /** A field whose history is unknown, unless it is known to be invalid. */
  function UnknownUnlessInvalid(f: Field): Field {
    if f.status == Invalid then f else HistoryUnknown
  }

  /** The from-open percent and the day range lose their history outright; the others stay invalid if they are. */
  function WithoutHistory(fields: seq<Field>): (unknown: seq<Field>)
    requires |fields| == MEASURED_FIELDS
    ensures |unknown| == MEASURED_FIELDS
  {
    [UnknownUnlessInvalid(fields[0]), HistoryUnknown, HistoryUnknown, UnknownUnlessInvalid(fields[3]),
     UnknownUnlessInvalid(fields[4])]
  }

  /** The six counted fields: the day percent and the measured ones. */
  function FieldsOf(s: Subject, t: Target): (fields: seq<Field>)
    requires WellFormed(s)
    ensures |fields| == MEASURED_FIELDS + 1
  {
    [DayPercentOf(s)] + if HiddenByGap(s, t) then WithoutHistory(s.measured) else s.measured
  }

  /** The measured fields recomputed for a selected row. */
  function EnrichedOf(s: Subject): (fields: seq<Field>)
    requires WellFormed(s)
    ensures |fields| == MEASURED_FIELDS
  {
    if s.coverage.Unknown? then WithoutHistory(s.enriched) else s.enriched
  }

  predicate HasDayPercent(s: Subject) {
    DayPercentOf(s).status == Current
  }

  /** A symbol that leaves a row: rankable, with a current return. */
  predicate HasRow(s: Subject, t: Target) {
    IsRankable(s, t) && HasDayPercent(s)
  }

  function RowOf(s: Subject, i: nat, t: Target): Row
    requires WellFormed(s) && s.mark.Some?
  {
    Row(s.symbol, i, s.mark.value.close, DayPercentOf(s).value, t.at - s.mark.value.end, FieldsOf(s, t)[1..], 0, false)
  }

  /** What the evaluator's support must not say: that nothing printed, beside a mark or applicable invalid evidence. */
  predicate Contradicts(s: Subject, t: Target) {
    s.coverage == NoPrintThrough && (s.mark.Some? || (s.invalid.Some? && s.invalid.value < t.at))
  }

  // --------------------------------------------------------------------------------------------------------- counters

  datatype MarkCounts = MarkCounts(rankable: nat, belowPrice: nat, noPrint: nat, invalidMark: nat)

  datatype PopulationCounts = PopulationCounts(universe: nat, validPrior: nat, invalidPrior: nat, unknown: nat,
                                               marks: MarkCounts)

  datatype QualificationCounts = QualificationCounts(notYetPassed: nat, provisional: nat, finalized: nat,
                                                     unresolved: nat)

  datatype UncertaintyCounts = UncertaintyCounts(bootstrap: nat, postGap: nat, local: nat)

  datatype DoubtCounts = DoubtCounts(noOlder: nat, conflict: nat, invalid: nat, incomplete: nat)

  datatype TransitionCounts = TransitionCounts(bootstrapUnknown: nat, trusted: nat, noLater: nat, notLive: nat,
                                               doubts: DoubtCounts)

  datatype FloatCounts = FloatCounts(current: nat, stale: nat, unavailable: nat, invalid: nat)

  datatype Tally = Tally(population: PopulationCounts, qualification: QualificationCounts,
                         uncertainty: UncertaintyCounts, transitions: TransitionCounts, floats: FloatCounts,
                         fields: seq<FieldCounts>, totalPassers: nat, knownRankable: nat, dayInvalid: nat,
                         qualifiedDayInvalid: nat, complete: bool, allBootstrap: bool, contradicted: bool)

  function Bit(b: bool): nat {
    if b then 1 else 0
  }

  function CountMark(m: MarkCounts, c: Class): MarkCounts {
    MarkCounts(m.rankable + Bit(c == Rankable), m.belowPrice + Bit(c == BelowPrice), m.noPrint + Bit(c == NoPrint),
               m.invalidMark + Bit(c == InvalidMarkOnly))
  }

  function CountClass(p: PopulationCounts, c: Class): PopulationCounts {
    PopulationCounts(p.universe + 1, p.validPrior + Bit(c != InvalidPrior), p.invalidPrior + Bit(c == InvalidPrior),
                     p.unknown + Bit(c == UnknownHistory || c == UnknownMark), CountMark(p.marks, c))
  }

  function CountQualification(q: QualificationCounts, s: Qualification): QualificationCounts {
    QualificationCounts(q.notYetPassed + Bit(s == NotYetPassed), q.provisional + Bit(s == Provisional),
                        q.finalized + Bit(s == Finalized), q.unresolved + Bit(s == Unresolved))
  }

  function CountOrigin(u: UncertaintyCounts, o: Origin): UncertaintyCounts {
    UncertaintyCounts(u.bootstrap + Bit(o == Bootstrap), u.postGap + Bit(o == PostGap), u.local + Bit(o == Local))
  }

  function CountDoubt(d: DoubtCounts, x: Transition): DoubtCounts {
    DoubtCounts(d.noOlder + Bit(x == NoStrictlyOlderConflict), d.conflict + Bit(x == ConflictAtOrAfterMark),
                d.invalid + Bit(x == InvalidAtOrAfterMark), d.incomplete + Bit(x == IncompleteAfterMark))
  }

  function CountTransition(d: TransitionCounts, x: Transition): TransitionCounts {
    if x == NotApplicable then d
    else TransitionCounts(d.bootstrapUnknown + 1, d.trusted + Bit(x == TrustedByLaterLiveMark),
                          d.noLater + Bit(x == NoLaterEligibleMark), d.notLive + Bit(x == LatestMarkNotLive),
                          CountDoubt(d.doubts, x))
  }

  function CountFloat(f: FloatCounts, s: FloatStatus): FloatCounts {
    FloatCounts(f.current + Bit(s == FloatCurrent), f.stale + Bit(s == FloatStale),
                f.unavailable + Bit(s == FloatUnavailable), f.invalid + Bit(s == FloatInvalid))
  }

  /** Counts the six fields in order, up to the first that is no valid one. */
  function CountFields(counts: seq<FieldCounts>, fields: seq<Field>): (counted: (seq<FieldCounts>, bool))
    requires |counts| == |fields|
    ensures |counted.0| == |counts|
    decreases |fields|
  {
    if fields == [] then (counts, true)
    else
      var n := |fields| - 1;
      var (front, ok) := CountFields(counts[..n], fields[..n]);
      if ok && ValidField(fields[n]) then (front + [CountField(counts[n], fields[n])], true)
      else (front + [counts[n]], false)
  }

  function NoneCounted(n: nat): (counts: seq<FieldCounts>)
    ensures |counts| == n && forall d :: 0 <= d < n ==> counts[d] == NoFields
  {
    seq(n, _ => NoFields)
  }

  /** Nobody counted yet, over so many fields. */
  function NobodyOver(dimensions: nat): Tally {
    Tally(PopulationCounts(0, 0, 0, 0, MarkCounts(0, 0, 0, 0)), QualificationCounts(0, 0, 0, 0),
          UncertaintyCounts(0, 0, 0), TransitionCounts(0, 0, 0, 0, DoubtCounts(0, 0, 0, 0)), FloatCounts(0, 0, 0, 0),
          NoneCounted(dimensions), 0, 0, 0, 0, true, true, false)
  }

  /** What every symbol adds, whatever its bucket: its fields, its float, its transition and any contradiction. */
  function AddReadings(y: Tally, s: Subject, t: Target): (next: Tally)
    requires WellFormed(s) && |y.fields| == MEASURED_FIELDS + 1
    ensures |next.fields| == MEASURED_FIELDS + 1
  {
    var (fields, ok) := CountFields(y.fields, FieldsOf(s, t));
    y.(transitions := if ValidPrior(s) then CountTransition(y.transitions, TransitionOf(s, t)) else y.transitions,
       floats := CountFloat(y.floats, s.float), fields := fields,
       contradicted := y.contradicted || Contradicts(s, t) || !ok)
  }

  /** What a symbol adds by its bucket: to the population, to the qualification and the uncertainty, and to the rows. */
  function AddBucket(y: Tally, s: Subject, t: Target): (next: Tally) {
    var rankable, day, passes := IsRankable(s, t), HasDayPercent(s), Passes(s);
    var doubt := UncertaintyOf(s, t);
    y.(population := CountClass(y.population, ClassOf(s, t)),
       qualification := if rankable then CountQualification(y.qualification, QualificationOf(s)) else y.qualification,
       uncertainty := if doubt.Some? then CountOrigin(y.uncertainty, doubt.value) else y.uncertainty,
       totalPassers := y.totalPassers + Bit(rankable && day && passes),
       knownRankable := y.knownRankable + Bit(rankable && day), dayInvalid := y.dayInvalid + Bit(rankable && !day),
       qualifiedDayInvalid := y.qualifiedDayInvalid + Bit(rankable && !day && passes),
       complete := y.complete && !(rankable && QualificationOf(s) == Unresolved),
       allBootstrap := y.allBootstrap && (doubt == None || doubt == Some(Bootstrap)))
  }

  function Add(y: Tally, s: Subject, t: Target): (next: Tally)
    requires WellFormed(s) && |y.fields| == MEASURED_FIELDS + 1
    ensures |next.fields| == MEASURED_FIELDS + 1
  {
    AddBucket(AddReadings(y, s, t), s, t)
  }

  predicate AllWellFormed(subjects: seq<Subject>) {
    forall i :: 0 <= i < |subjects| ==> WellFormed(subjects[i])
  }

  function TallyOf(subjects: seq<Subject>, n: nat, t: Target): (y: Tally)
    requires AllWellFormed(subjects) && n <= |subjects|
    ensures |y.fields| == MEASURED_FIELDS + 1
  {
    if n == 0 then NobodyOver(MEASURED_FIELDS + 1) else Add(TallyOf(subjects, n - 1, t), subjects[n - 1], t)
  }

  /** The rows that may be ranked, or only those of the symbols that passed. */
  function RowsOf(subjects: seq<Subject>, n: nat, t: Target, passersOnly: bool): seq<Row>
    requires AllWellFormed(subjects) && n <= |subjects|
  {
    if n == 0 then []
    else
      var s, rows := subjects[n - 1], RowsOf(subjects, n - 1, t, passersOnly);
      if HasRow(s, t) && (passersOnly ==> Passes(s)) then rows + [RowOf(s, n - 1, t)] else rows
  }

  // -------------------------------------------------------------------------------------------------- the pass itself

  method CountValidFields(counts: seq<FieldCounts>, fields: seq<Field>) returns (counted: seq<FieldCounts>, ok: bool)
    requires |counts| == |fields|
    ensures (counted, ok) == CountFields(counts, fields)
  {
    counted, ok := counts, true;
    for i := 0 to |fields|
      invariant |counted| == |counts| && counted[i..] == counts[i..]
      invariant (counted[..i], ok) == CountFields(counts[..i], fields[..i])
    {
      assert counts[..i + 1][..i] == counts[..i] && fields[..i + 1][..i] == fields[..i];
      assert counted[i] == counted[i..][0] == counts[i];
      assert counted[i + 1..] == counted[i..][1..];
      if ok && ValidField(fields[i]) {
        var one := CountField(counted[i], fields[i]);
        assert counted[i := one][..i + 1] == counted[..i] + [one];
        assert counted[i := one][i + 1..] == counted[i + 1..];
        counted := counted[i := one];
      } else {
        assert counted[..i + 1] == counted[..i] + [counts[i]];
        ok := false;
      }
    }
    assert counts[..|counts|] == counts && fields[..|fields|] == fields && counted[..|counts|] == counted;
  }

  method CountReadings(y: Tally, s: Subject, t: Target) returns (next: Tally)
    requires WellFormed(s) && |y.fields| == MEASURED_FIELDS + 1
    ensures next == AddReadings(y, s, t)
  {
    var counted, ok := CountValidFields(y.fields, FieldsOf(s, t));
    next := y.(fields := counted, floats := CountFloat(y.floats, s.float));
    if Contradicts(s, t) || !ok { next := next.(contradicted := true); }
    if ValidPrior(s) { next := next.(transitions := CountTransition(y.transitions, TransitionOf(s, t))); }
  }

  /** One symbol in the pass. */
  method CountSubject(y: Tally, s: Subject, t: Target) returns (next: Tally, ranked: bool)
    requires WellFormed(s) && |y.fields| == MEASURED_FIELDS + 1
    ensures next == Add(y, s, t) && ranked == HasRow(s, t)
  {
    next := CountReadings(y, s, t);
    next, ranked := CountBucket(next, s, t);
  }

  /** The buckets a symbol falls through, and whether it leaves a row. */
  method CountBucket(y: Tally, s: Subject, t: Target) returns (next: Tally, ranked: bool)
    ensures next == AddBucket(y, s, t) && ranked == HasRow(s, t)
  {
    next, ranked := y, false;
    var p := y.population.(universe := y.population.universe + 1);
    if !ValidPrior(s) {
      next := next.(population := p.(invalidPrior := p.invalidPrior + 1));
      return;
    }
    p := p.(validPrior := p.validPrior + 1);
    if s.coverage.Unknown? && TransitionOf(s, t) != TrustedByLaterLiveMark {
      next := Doubted(next.(population := p.(unknown := p.unknown + 1)), s.coverage.origin);
      return;
    }
    if s.mark.None? && s.coverage == NoPrintThrough {
      next := next.(population := p.(marks := p.marks.(noPrint := p.marks.noPrint + 1)));
    } else if s.mark.None? && s.invalid.Some? {
      next := next.(population := p.(marks := p.marks.(invalidMark := p.marks.invalidMark + 1)));
    } else if s.mark.None? || t.at - s.mark.value.end < 0 {
      next := Doubted(next.(population := p.(unknown := p.unknown + 1)), Local);
    } else {
      next, ranked := CountMarked(y, p, s, t);
    }
  }

  /** A symbol with a trusted mark: priced too low, or one more to rank. */
  method CountMarked(y: Tally, p: PopulationCounts, s: Subject, t: Target) returns (next: Tally, ranked: bool)
    requires ClassOf(s, t) == BelowPrice || ClassOf(s, t) == Rankable
    requires p == y.population.(universe := y.population.universe + 1, validPrior := y.population.validPrior + 1)
    ensures next == AddBucket(y, s, t) && ranked == HasRow(s, t)
  {
    ranked := false;
    if s.mark.value.close < MINIMUM_PRICE {
      next := y.(population := p.(marks := p.marks.(belowPrice := p.marks.belowPrice + 1)));
    } else {
      next := y.(population := p.(marks := p.marks.(rankable := p.marks.rankable + 1)));
      next := CountQualified(next, s);
      next, ranked := CountRanked(next, s);
    }
  }

  /** One more uncertain symbol, of an origin. */
  function Doubted(y: Tally, o: Origin): Tally {
    y.(uncertainty := CountOrigin(y.uncertainty, o), allBootstrap := y.allBootstrap && o == Bootstrap)
  }

  method CountRanked(y: Tally, s: Subject) returns (next: Tally, ranked: bool)
    ensures ranked == HasDayPercent(s)
    ensures next == if ranked then y.(knownRankable := y.knownRankable + 1,
                                      totalPassers := y.totalPassers + Bit(Passes(s)))
                    else y.(dayInvalid := y.dayInvalid + 1,
                            qualifiedDayInvalid := y.qualifiedDayInvalid + Bit(Passes(s)))
  {
    next, ranked := y, DayPercentOf(s).status == Current;
    if !ranked {
      next := next.(dayInvalid := next.dayInvalid + 1);
      if Passes(s) { next := next.(qualifiedDayInvalid := next.qualifiedDayInvalid + 1); }
    } else {
      next := next.(knownRankable := next.knownRankable + 1);
      if Passes(s) { next := next.(totalPassers := next.totalPassers + 1); }
    }
  }

  /** The qualification bucket of a rankable symbol, and the origin of its uncertainty while it has none. */
  method CountQualified(y: Tally, s: Subject) returns (next: Tally)
    ensures next == y.(qualification := CountQualification(y.qualification, QualificationOf(s)),
                       uncertainty := if QualificationOf(s) != Unresolved then y.uncertainty
                                      else CountOrigin(y.uncertainty, UnresolvedOrigin(s)),
                       complete := y.complete && QualificationOf(s) != Unresolved,
                       allBootstrap := y.allBootstrap
                                       && (QualificationOf(s) != Unresolved || UnresolvedOrigin(s) == Bootstrap))
  {
    var status, origin := Unresolved, Local;
    if s.qualification.Some? { status, origin := s.qualification.value.0, s.qualification.value.1; }
    var q := y.qualification;
    match status {
      case NotYetPassed => { next := y.(qualification := q.(notYetPassed := q.notYetPassed + 1)); }
      case Provisional => { next := y.(qualification := q.(provisional := q.provisional + 1)); }
      case Finalized => { next := y.(qualification := q.(finalized := q.finalized + 1)); }
      case Unresolved => {
        next := y.(qualification := q.(unresolved := q.unresolved + 1), complete := false,
                   uncertainty := CountOrigin(y.uncertainty, origin),
                   allBootstrap := y.allBootstrap && origin == Bootstrap);
      }
    }
  }
}
