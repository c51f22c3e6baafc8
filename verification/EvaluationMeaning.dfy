/** What the staged evaluation says of a population, told over the symbols' readings: when a gap in a symbol's
    history is made up for by a later mark, which bucket each symbol is in, that every counter counts its own
    symbols, and which mode the whole population is in. */
module EvaluationMeaning {
  import opened Options
  import opened RankingRows
  import opened FieldAccounting
  import opened Evaluation
  import S = StagedEvaluation
  import K = RankingMeaning

  // ------------------------------------------------------------------------------------------------- one symbol's gap

  /** The latest mark is of a session second before the target, and over by then. */
  predicate MarkInTime(s: Subject, t: Target) {
    s.mark.Some? && t.sessionStart <= s.mark.value.start < t.at && s.mark.value.end <= t.at
  }

  /** Invalid evidence between the mark and the target. */
  predicate InvalidSinceMark(s: Subject, t: Target)
    requires s.mark.Some?
  {
    s.invalid.Some? && s.mark.value.start <= s.invalid.value < t.at
  }

  /** A live mark in time, exactly covered from its start to the target, with no conflict and no invalid evidence
      since. */
  predicate MadeUpFor(s: Subject, t: Target) {
    && MarkInTime(s, t) && s.mark.value.live && s.coveredFromMark && !s.conflictFromMark
    && !InvalidSinceMark(s, t)
  }

  /** Only a bootstrap gap can be made up for, and exactly by such a mark; any other unknown history stays unknown. */
  lemma GapEscapes(s: Subject, t: Target)
    requires s.coverage.Unknown?
    ensures !HiddenByGap(s, t) <==> s.coverage.origin == Bootstrap && MadeUpFor(s, t)
  {}

  /** Why a bootstrap gap is not made up for: the first of these that holds. */
  lemma TransitionMeans(s: Subject, t: Target)
    ensures var x := TransitionOf(s, t);
            && (x == NotApplicable <==> s.coverage != Unknown(Bootstrap))
            && (x == TrustedByLaterLiveMark <==> s.coverage == Unknown(Bootstrap) && MadeUpFor(s, t))
            && (x == NoLaterEligibleMark <==> s.coverage == Unknown(Bootstrap) && !MarkInTime(s, t))
            && (x == LatestMarkNotLive <==>
                  s.coverage == Unknown(Bootstrap) && MarkInTime(s, t) && !s.mark.value.live)
            && (x == ConflictAtOrAfterMark <==>
                  s.coverage == Unknown(Bootstrap) && MarkInTime(s, t) && s.mark.value.live && s.conflictFromMark)
            && (x == InvalidAtOrAfterMark <==>
                  s.coverage == Unknown(Bootstrap) && MarkInTime(s, t) && s.mark.value.live && !s.conflictFromMark
                  && InvalidSinceMark(s, t))
            && (x == IncompleteAfterMark <==>
                  s.coverage == Unknown(Bootstrap) && MarkInTime(s, t) && s.mark.value.live && !s.conflictFromMark
                  && !InvalidSinceMark(s, t) && !s.coveredFromMark)
            && x != NoStrictlyOlderConflict
  {}

  // ---------------------------------------------------------------------------------------------- one symbol's bucket

  /** A symbol with a valid prior close whose history is known, or made up for. */
  predicate Readable(s: Subject, t: Target) {
    s.priorStatusValid && s.priorClose > 0.0
    && (s.coverage.Unknown? ==> s.coverage.origin == Bootstrap && MadeUpFor(s, t))
  }

  predicate Marked(s: Subject, t: Target) {
    Readable(s, t) && s.mark.Some? && s.mark.value.end <= t.at
  }

  /** Each bucket, by the readings. */
  predicate In(c: Class, s: Subject, t: Target) {
    match c
    case InvalidPrior => !s.priorStatusValid || s.priorClose <= 0.0
    case UnknownHistory => s.priorStatusValid && s.priorClose > 0.0 && !Readable(s, t)
    case NoPrint => Readable(s, t) && s.mark.None? && s.coverage == NoPrintThrough
    case InvalidMarkOnly => Readable(s, t) && s.mark.None? && s.coverage != NoPrintThrough && s.invalid.Some?
    case UnknownMark =>
      && Readable(s, t)
      && ((s.mark.None? && s.coverage != NoPrintThrough && s.invalid.None?)
          || (s.mark.Some? && s.mark.value.end > t.at))
    case BelowPrice => Marked(s, t) && s.mark.value.close < 0.25
    case Rankable => Marked(s, t) && s.mark.value.close >= 0.25
  }

  /** Every symbol is in the one bucket its readings say. */
  lemma ClassMeans(s: Subject, t: Target)
    ensures forall c :: ClassOf(s, t) == c <==> In(c, s, t)
  {}

  /** A symbol is uncertain, and of which origin: its unknown history, its unknown mark, or, when it could be
      ranked, the qualification it has not got. */
  lemma DoubtMeans(s: Subject, t: Target, o: Origin)
    ensures UncertaintyOf(s, t) == Some(o)
       <==> || (In(UnknownHistory, s, t) && s.coverage.origin == o)
            || (In(UnknownMark, s, t) && o == Local)
            || (In(Rankable, s, t) && s.qualification.None? && o == Local)
            || (In(Rankable, s, t) && s.qualification.Some? && s.qualification.value == (Unresolved, o))
  {
    ClassMeans(s, t);
  }

  // ---------------------------------------------------------------------------------------------- one symbol's fields

  /** The return is the mark's close against the prior close, in percent, whenever there is a mark and a valid prior. */
  lemma ReturnMeans(s: Subject)
    ensures var day, prior := DayPercentOf(s), s.priorStatusValid && s.priorClose > 0.0;
            && (!prior ==> day.status == Unavailable && day.reason == PriorCloseUnavailable)
            && (prior && s.mark.Some? && s.mark.value.close > 0.0 ==>
                  day.status == Current && day.reason == NoReason
                  && s.priorClose * (100.0 + day.value) == 100.0 * s.mark.value.close)
            && (prior && s.mark.Some? && s.mark.value.close <= 0.0 ==>
                  day.status == Invalid && day.reason == InvalidInput)
            && (prior && s.mark.None? ==> day == s.dayPercent)
  {
    if s.priorStatusValid && s.priorClose > 0.0 && s.mark.Some? && s.mark.value.close > 0.0 {
      Percent(s.mark.value.close, s.priorClose);
    }
  }

  lemma Percent(value: real, base: real)
    requires base > 0.0
    ensures base * (100.0 + 100.0 * (value / base - 1.0)) == 100.0 * value
  {
    assert base * (value / base) == value;
  }

  /** What a field may still say where the history is unknown: that it is invalid, for three of the five. */
  predicate KeepsInvalid(d: nat) {
    d == 0 || d == 3 || d == 4
  }

  lemma FieldsMean(s: Subject, t: Target, d: nat)
    requires WellFormed(s) && d < 5
    ensures FieldsOf(s, t)[0] == DayPercentOf(s)
    ensures var hidden, field := s.coverage.Unknown? && !(s.coverage.origin == Bootstrap && MadeUpFor(s, t)),
                                 FieldsOf(s, t)[d + 1];
            if hidden && !(KeepsInvalid(d) && s.measured[d].status == Invalid)
            then field.status == Unavailable && field.reason == HistoryIncomplete
            else field == s.measured[d]
    ensures var field := EnrichedOf(s)[d];
            if s.coverage.Unknown? && !(KeepsInvalid(d) && s.enriched[d].status == Invalid)
            then field.status == Unavailable && field.reason == HistoryIncomplete
            else field == s.enriched[d]
  {}

  /** A row says of its symbol: who it is, its mark's close, its return, how old the mark is, and its fields. */
  lemma RowMeans(s: Subject, i: nat, t: Target)
    requires WellFormed(s) && s.mark.Some?
    ensures var row := RowOf(s, i, t);
            && row.symbol == s.symbol && row.index == i && row.last == s.mark.value.close
            && row.percent == DayPercentOf(s).value && row.age == t.at - s.mark.value.end
            && row.fields == FieldsOf(s, t)[1..] && |row.fields| == 5
    ensures HasRow(s, t) <==> In(Rankable, s, t) && DayPercentOf(s).status == Current
  {
    ClassMeans(s, t);
  }

  /** Support contradicts itself where nothing was to have printed beside a mark or invalid evidence before the
      target. */
  lemma ContradictionMeans(s: Subject, t: Target)
    ensures Contradicts(s, t)
       <==> s.coverage == NoPrintThrough && (s.mark.Some? || (s.invalid.Some? && s.invalid.value < t.at))
  {}

  // ----------------------------------------------------------------------------------------------------- the counters

  /** The kinds of symbols the counters count. */
  datatype Kind =
    | AnySymbol | OfClass(c: Class) | OfPrior | OfUnknown | OfStatus(q: Qualification) | OfOrigin(o: Origin)
    | OfTransition(x: Transition) | OfBootstrap | OfFloat(f: FloatStatus) | OfRow | OfPasserRow | OfNoReturn
    | OfPasserNoReturn

  predicate Ready(s: Subject, t: Target) {
    In(Rankable, s, t)
  }

  predicate Passer(s: Subject) {
    s.qualification.Some? && (s.qualification.value.0 == Provisional || s.qualification.value.0 == Finalized)
  }

  predicate StatusIs(s: Subject, q: Qualification) {
    if s.qualification.Some? then s.qualification.value.0 == q else q == Unresolved
  }

  predicate Counted(k: Kind, s: Subject, t: Target) {
    match k
    case AnySymbol => true
    case OfClass(c) => In(c, s, t)
    case OfPrior => !In(InvalidPrior, s, t)
    case OfUnknown => In(UnknownHistory, s, t) || In(UnknownMark, s, t)
    case OfStatus(q) => Ready(s, t) && StatusIs(s, q)
    case OfOrigin(o) => UncertaintyOf(s, t) == Some(o)
    case OfTransition(x) => !In(InvalidPrior, s, t) && TransitionOf(s, t) == x
    case OfBootstrap => !In(InvalidPrior, s, t) && s.coverage == Unknown(Bootstrap)
    case OfFloat(f) => s.float == f
    case OfRow => Ready(s, t) && DayPercentOf(s).status == Current
    case OfPasserRow => Ready(s, t) && DayPercentOf(s).status == Current && Passer(s)
    case OfNoReturn => Ready(s, t) && DayPercentOf(s).status != Current
    case OfPasserNoReturn => Ready(s, t) && DayPercentOf(s).status != Current && Passer(s)
  }

  function CountOf(k: Kind, subjects: seq<Subject>, t: Target): nat {
    if subjects == [] then 0
    else CountOf(k, subjects[..|subjects| - 1], t) + if Counted(k, subjects[|subjects| - 1], t) then 1 else 0
  }

  /** The counter of a kind. */
  function Counter(k: Kind, y: Tally): nat {
    var p, m, q, u, x := y.population, y.population.marks, y.qualification, y.uncertainty, y.transitions;
    match k
    case AnySymbol => p.universe
    case OfClass(InvalidPrior) => p.invalidPrior
    case OfClass(Rankable) => m.rankable
    case OfClass(BelowPrice) => m.belowPrice
    case OfClass(NoPrint) => m.noPrint
    case OfClass(InvalidMarkOnly) => m.invalidMark
    case OfClass(_) => 0
    case OfPrior => p.validPrior
    case OfUnknown => p.unknown
    case OfStatus(NotYetPassed) => q.notYetPassed
    case OfStatus(Provisional) => q.provisional
    case OfStatus(Finalized) => q.finalized
    case OfStatus(Unresolved) => q.unresolved
    case OfOrigin(Bootstrap) => u.bootstrap
    case OfOrigin(PostGap) => u.postGap
    case OfOrigin(Local) => u.local
    case OfTransition(TrustedByLaterLiveMark) => x.trusted
    case OfTransition(NoLaterEligibleMark) => x.noLater
    case OfTransition(LatestMarkNotLive) => x.notLive
    case OfTransition(NoStrictlyOlderConflict) => x.doubts.noOlder
    case OfTransition(ConflictAtOrAfterMark) => x.doubts.conflict
    case OfTransition(InvalidAtOrAfterMark) => x.doubts.invalid
    case OfTransition(IncompleteAfterMark) => x.doubts.incomplete
    case OfTransition(NotApplicable) => 0
    case OfBootstrap => x.bootstrapUnknown
    case OfFloat(FloatCurrent) => y.floats.current
    case OfFloat(FloatStale) => y.floats.stale
    case OfFloat(FloatUnavailable) => y.floats.unavailable
    case OfFloat(FloatInvalid) => y.floats.invalid
    case OfRow => y.knownRankable
    case OfPasserRow => y.totalPassers
    case OfNoReturn => y.dayInvalid
    case OfPasserNoReturn => y.qualifiedDayInvalid
  }

  /** The kinds that have a counter of their own. */
  predicate HasCounter(k: Kind) {
    (k.OfClass? ==> k.c != UnknownHistory && k.c != UnknownMark) && (k.OfTransition? ==> k.x != NotApplicable)
  }

  lemma OneTransition(y: Tally, s: Subject, t: Target, k: Kind)
    requires WellFormed(s) && |y.fields| == MEASURED_FIELDS + 1 && HasCounter(k) && (k.OfTransition? || k.OfBootstrap?)
    ensures Counter(k, Add(y, s, t)) == Counter(k, y) + if Counted(k, s, t) then 1 else 0
  {
    hide FieldsOf, CountFields, In, DayPercentOf, UncertaintyOf, TransitionOf, CountClass, CountQualification, Passes;
    ClassMeans(s, t);
    TransitionMeans(s, t);
  }

  predicate OfPopulation(k: Kind) {
    k.AnySymbol? || k.OfClass? || k.OfPrior? || k.OfUnknown?
  }

  lemma OneOfPopulation(y: Tally, s: Subject, t: Target, k: Kind)
    requires WellFormed(s) && |y.fields| == MEASURED_FIELDS + 1 && HasCounter(k) && OfPopulation(k)
    ensures Counter(k, Add(y, s, t)) == Counter(k, y) + if Counted(k, s, t) then 1 else 0
  {
    hide FieldsOf, CountFields, In, DayPercentOf, TransitionOf, CountTransition, UncertaintyOf, CountQualification;
    hide CountOrigin, CountFloat, Passes;
    ClassMeans(s, t);
  }

  lemma OneCounted(y: Tally, s: Subject, t: Target, k: Kind)
    requires WellFormed(s) && |y.fields| == MEASURED_FIELDS + 1 && HasCounter(k)
    ensures Counter(k, Add(y, s, t)) == Counter(k, y) + if Counted(k, s, t) then 1 else 0
  {
    if k.OfTransition? || k.OfBootstrap? {
      OneTransition(y, s, t, k);
    } else if OfPopulation(k) {
      OneOfPopulation(y, s, t, k);
    } else {
      hide FieldsOf, CountFields, In, DayPercentOf, TransitionOf, CountTransition, UncertaintyOf, CountClass, CountMark;
      ClassMeans(s, t);
    }
  }

  /** Over any population every counter counts exactly the symbols of its kind. */
  lemma {:induction false} EveryCounterCounts(subjects: seq<Subject>, t: Target, k: Kind)
    requires AllWellFormed(subjects) && HasCounter(k)
    ensures Counter(k, TallyOf(subjects, |subjects|, t)) == CountOf(k, subjects, t)
    decreases |subjects|
  {
    hide Counter, Counted, Add;
    if subjects != [] {
      var rest, last := subjects[..|subjects| - 1], subjects[|subjects| - 1];
      EveryCounterCounts(rest, t, k);
      TallyPrefix(subjects, |rest|, t);
      OneCounted(TallyOf(rest, |rest|, t), last, t, k);
    } else {
      NobodyCounted(k, t);
    }
  }

  lemma NobodyCounted(k: Kind, t: Target)
    ensures Counter(k, NobodyOver(MEASURED_FIELDS + 1)) == 0
  {}

  lemma {:induction false} TallyPrefix(subjects: seq<Subject>, n: nat, t: Target)
    requires AllWellFormed(subjects) && n < |subjects|
    ensures TallyOf(subjects, n, t) == TallyOf(subjects[..|subjects| - 1], n, t)
  {
    hide Add;
    if n > 0 { TallyPrefix(subjects, n - 1, t); }
  }
  // --------------------------------------------------------------------------------------------------------- the mode

  /** Some symbol of the population is of a kind. */
  ghost predicate Present(k: Kind, subjects: seq<Subject>, t: Target) {
    exists i :: 0 <= i < |subjects| && Counted(k, subjects[i], t)
  }

  lemma {:induction false} CountedSome(k: Kind, subjects: seq<Subject>, t: Target)
    ensures CountOf(k, subjects, t) > 0 <==> Present(k, subjects, t)
    decreases |subjects|
  {
    hide Counted;
    if subjects != [] {
      var rest, last := subjects[..|subjects| - 1], subjects[|subjects| - 1];
      CountedSome(k, rest, t);
      if Present(k, rest, t) {
        var i :| 0 <= i < |rest| && Counted(k, rest[i], t);
        assert subjects[i] == rest[i];
      }
      if i :| 0 <= i < |subjects| && Counted(k, subjects[i], t) {
        if i < |rest| { assert rest[i] == subjects[i]; }
      }
    }
  }

  /** The two flags beside the counters: every rankable symbol has a qualification, and every uncertain symbol is so
      since the bootstrap. */
  lemma {:induction false} FlagsMean(subjects: seq<Subject>, t: Target)
    requires AllWellFormed(subjects)
    ensures var y := TallyOf(subjects, |subjects|, t);
            && (y.complete <==> !Present(OfStatus(Unresolved), subjects, t))
            && (y.allBootstrap <==> !Present(OfOrigin(PostGap), subjects, t) && !Present(OfOrigin(Local), subjects, t))
    decreases |subjects|
  {
    hide TallyOf, Counted, AddReadings, CountClass, CountQualification, CountOrigin;
    if subjects == [] {
      NobodyFlagged(subjects, t);
    } else {
      var rest, last := subjects[..|subjects| - 1], subjects[|subjects| - 1];
      FlagsMean(rest, t);
      TallyPrefix(subjects, |rest|, t);
      OneFlagged(subjects, t);
      SomeMore(OfStatus(Unresolved), subjects, t);
      SomeMore(OfOrigin(PostGap), subjects, t);
      SomeMore(OfOrigin(Local), subjects, t);
    }
  }

  lemma NobodyFlagged(subjects: seq<Subject>, t: Target)
    requires subjects == []
    ensures TallyOf(subjects, 0, t).complete && TallyOf(subjects, 0, t).allBootstrap
  {}

  lemma SomeMore(k: Kind, subjects: seq<Subject>, t: Target)
    requires subjects != []
    ensures var rest, last := subjects[..|subjects| - 1], subjects[|subjects| - 1];
            Present(k, subjects, t) <==> Present(k, rest, t) || Counted(k, last, t)
  {
    hide Counted;
    var rest, last := subjects[..|subjects| - 1], subjects[|subjects| - 1];
    if i :| 0 <= i < |rest| && Counted(k, rest[i], t) { assert subjects[i] == rest[i]; }
    if i :| 0 <= i < |subjects| && Counted(k, subjects[i], t) {
      if i < |rest| { assert rest[i] == subjects[i]; }
    }
  }

  lemma AddFlags(y: Tally, s: Subject, t: Target)
    requires WellFormed(s) && |y.fields| == MEASURED_FIELDS + 1
    ensures Add(y, s, t).complete <==> y.complete && !Counted(OfStatus(Unresolved), s, t)
    ensures Add(y, s, t).allBootstrap
       <==> y.allBootstrap && !Counted(OfOrigin(PostGap), s, t) && !Counted(OfOrigin(Local), s, t)
  {
    hide FieldsOf, CountFields, CountClass, CountQualification, CountOrigin, CountTransition, In, DayPercentOf;
    hide UncertaintyOf, Passes, HasDayPercent;
    ClassMeans(s, t);
    if UncertaintyOf(s, t).Some? {
      match UncertaintyOf(s, t).value {
        case Bootstrap => {}
        case PostGap => {}
        case Local => {}
      }
    }
  }

  lemma OneFlagged(subjects: seq<Subject>, t: Target)
    requires AllWellFormed(subjects) && subjects != []
    ensures var n := |subjects| - 1;
            var y, next := TallyOf(subjects, n, t), TallyOf(subjects, n + 1, t);
            && (next.complete <==> y.complete && !Counted(OfStatus(Unresolved), subjects[n], t))
            && (next.allBootstrap <==> y.allBootstrap && !Counted(OfOrigin(PostGap), subjects[n], t)
                                       && !Counted(OfOrigin(Local), subjects[n], t))
  {
    hide Add, Counted;
    AddFlags(TallyOf(subjects, |subjects| - 1, t), subjects[|subjects| - 1], t);
  }

  /** Some symbol is uncertain. */
  ghost predicate Doubtful(subjects: seq<Subject>, t: Target) {
    Present(OfUnknown, subjects, t) || Present(OfStatus(Unresolved), subjects, t)
  }

  /** Every uncertain symbol is so since the bootstrap. */
  ghost predicate OnlyBootstrap(subjects: seq<Subject>, t: Target) {
    !Present(OfOrigin(PostGap), subjects, t) && !Present(OfOrigin(Local), subjects, t)
  }

  /** The mode, its reason and what it shows, told over the population: qualified rows only when no symbol is
      uncertain; while some are, whatever rows there are, as a bootstrap only when hydrating and every doubt is of
      the bootstrap. */
  lemma ModeMeans(subjects: seq<Subject>, t: Target, lifecycle: Lifecycle)
    requires AllWellFormed(subjects)
    ensures var (mode, reason, shown) := S.ModeOf(TallyOf(subjects, |subjects|, t), lifecycle);
            var doubt, rows := Doubtful(subjects, t), Present(OfRow, subjects, t);
            && (mode == S.QualifiedCurrent <==> lifecycle != Elsewhere && !doubt)
            && (mode == S.DegradedBootstrap <==>
                  lifecycle == Hydrating && doubt && rows && OnlyBootstrap(subjects, t))
            && (mode == S.DegradedCurrent <==>
                  lifecycle != Elsewhere && doubt && rows && (lifecycle == Live || !OnlyBootstrap(subjects, t)))
            && (mode == S.UnavailableMode <==> lifecycle == Elsewhere || (doubt && !rows))
            && (shown == S.Passers <==> mode == S.QualifiedCurrent)
            && (shown == S.Known <==> mode == S.DegradedBootstrap || mode == S.DegradedCurrent)
            && (reason == S.NoModeReason <==> mode == S.QualifiedCurrent)
            && (reason == S.NoCommittedWatermark <==> lifecycle == Elsewhere)
            && (reason == S.NoTrustedMarks <==> mode == S.UnavailableMode && lifecycle != Elsewhere)
            && (reason == S.IncompletePopulation <==> shown == S.Known && Present(OfUnknown, subjects, t))
            && (reason == S.QualificationIncomplete <==> shown == S.Known && !Present(OfUnknown, subjects, t))
  {
    hide TallyOf, Present, Counted;
    FlagsMean(subjects, t);
    EveryCounterCounts(subjects, t, OfUnknown);
    EveryCounterCounts(subjects, t, OfRow);
    CountedSome(OfUnknown, subjects, t);
    CountedSome(OfRow, subjects, t);
  }
  // -------------------------------------------------------------------------------------------------- which rows show

  /** A symbol that may be ranked: its bucket says so, its return is current, and it passed where that is asked for. */
  predicate Candidate(s: Subject, t: Target, passersOnly: bool) {
    Ready(s, t) && DayPercentOf(s).status == Current && (passersOnly ==> Passer(s))
  }

  lemma {:induction false} CandidatesMean(subjects: seq<Subject>, n: nat, t: Target, passersOnly: bool, x: Row)
    requires AllWellFormed(subjects) && n <= |subjects|
    ensures x in RowsOf(subjects, n, t, passersOnly)
       <==> exists i :: 0 <= i < n && Candidate(subjects[i], t, passersOnly) && x == RowOf(subjects[i], i, t)
  {
    hide RowOf, DayPercentOf;
    if n > 0 {
      CandidatesMean(subjects, n - 1, t, passersOnly, x);
      ClassMeans(subjects[n - 1], t);
    }
  }

  /** The rows a staged evaluation selects: a candidate shows exactly when fewer than twenty candidates are better,
      at the rank that says how many are; and only the rows of qualified symbols may be followed live. */
  lemma SelectedMeans(subjects: seq<Subject>, t: Target, shown: S.Shown, i: nat)
    requires AllWellFormed(subjects) && S.DistinctSubjects(subjects) && i < |subjects|
    requires shown != S.NoRows && Candidate(subjects[i], t, shown == S.Passers)
    ensures var all, x := RowsOf(subjects, |subjects|, t, shown == S.Passers), RowOf(subjects[i], i, t);
            var better, rows := K.Better(all, x), S.Selected(subjects, t, shown);
            && |rows| == (if |all| < 20 then |all| else 20)
            && (better < 20 <==> exists k :: 0 <= k < |rows| && rows[k].symbol == subjects[i].symbol)
            && (better < 20 ==>
                  better < |rows| && rows[better] == x.(rank := better + 1, tqEligible := shown == S.Passers))
  {
    hide RowOf, DayPercentOf, RowsOf, K.Better, Ranked;
    var passers := shown == S.Passers;
    var all, x := RowsOf(subjects, |subjects|, t, passers), RowOf(subjects[i], i, t);
    CandidatesMean(subjects, |subjects|, t, passers, x);
    S.RowsDistinct(subjects, |subjects|, t, passers);
    K.RankMeans(all, x, passers);
    var rows := S.Selected(subjects, t, shown);
    assert rows == Ranked(Best(all), passers);
    if k :| 0 <= k < |rows| && rows[k].symbol == subjects[i].symbol {
      SameSymbol(all, x, k, passers, subjects, t, i);
    }
    SymbolOf(subjects, i, t);
  }

  lemma SymbolOf(subjects: seq<Subject>, i: nat, t: Target)
    requires AllWellFormed(subjects) && i < |subjects| && subjects[i].mark.Some?
    ensures RowOf(subjects[i], i, t).symbol == subjects[i].symbol
  {}

  /** A row shown under a symbol is that symbol's row. */
  lemma SameSymbol(all: seq<Row>, x: Row, k: nat, tq: bool, subjects: seq<Subject>, t: Target, i: nat)
    requires DistinctSymbols(all) && x in all && k < |Best(all)| && i < |subjects| && AllWellFormed(subjects)
    requires subjects[i].mark.Some? && x == RowOf(subjects[i], i, t)
    requires Ranked(Best(all), tq)[k].symbol == subjects[i].symbol
    ensures x in Best(all)
  {
    OrderingHolds(all);
    var y := Best(all)[k];
    assert y in multiset(Ordering(all));
    assert y in all;
    var a :| 0 <= a < |all| && all[a] == y;
    var b :| 0 <= b < |all| && all[b] == x;
    assert y.symbol == x.symbol;
    assert a == b;
  }
  // ------------------------------------------------------------------------------------------------ the staged result

  /** A selected row may be enriched while it still says of its symbol what a row made now would say. */
  lemma StillThereMeans(row: Row, subjects: seq<Subject>, t: Target)
    requires AllWellFormed(subjects)
    ensures S.StillThere(row, subjects, t)
       <==> && row.index < |subjects| && subjects[row.index].mark.Some?
            && var now := RowOf(subjects[row.index], row.index, t);
               row.symbol == now.symbol && row.last == now.last && row.age == now.age
  {}

  /** Enriching one row: its fields become the recomputed ones and the counters follow them; a row that is no longer
      there, or whose fields cannot be replaced, ends the enrichment with the row as it was. */
  lemma EnrichRowMeans(subjects: seq<Subject>, t: Target, e: S.Enrichment, k: nat)
    requires AllWellFormed(subjects) && |e.fields| == 6 && k < |e.rows|
    ensures var next, row := S.EnrichRow(subjects, t, e, k), e.rows[k];
            if !e.ok then next == e
            else if !S.StillThere(row, subjects, t) || |row.fields| != 5 then
              next == S.Enrichment(e.fields, e.rows, e.done, false)
            else
              var now := EnrichedOf(subjects[row.index]);
              var (fields, ok) := S.ReplaceFields(e.fields[1..], row.fields, now);
              && next.fields == [e.fields[0]] + fields && next.ok == ok && next.done == e.done + (if ok then 1 else 0)
              && (!ok ==> next.rows == e.rows)
              && (ok ==>
                    && (forall j :: 0 <= j < |e.rows| && j != k ==> next.rows[j] == e.rows[j])
                    && next.rows[k] == Row(row.symbol, row.index, row.last, row.percent, row.age, now, row.rank,
                                           row.tqEligible))
  {
    hide EnrichedOf, S.ReplaceFields;
  }

  /** The first fields can all be replaced. */
  ghost predicate AllReplace(counts: seq<FieldCounts>, was: seq<Field>, now: seq<Field>, k: nat)
    requires |counts| == |was| == |now| && k <= |counts|
  {
    forall i :: 0 <= i < k ==> Replace(counts[i], was[i], now[i]).1
  }

  lemma AllButLast(counts: seq<FieldCounts>, was: seq<Field>, now: seq<Field>, k: nat)
    requires |counts| == |was| == |now| && k < |counts|
    ensures var n := |counts| - 1;
            && (AllReplace(counts[..n], was[..n], now[..n], k) <==> AllReplace(counts, was, now, k))
            && (AllReplace(counts, was, now, k + 1) <==>
                  AllReplace(counts, was, now, k) && Replace(counts[k], was[k], now[k]).1)
  {
    hide Replace;
  }

  /** Fields are replaced one after the other, and those after the first that cannot be are left as they were. */
  lemma {:induction false} FieldsReplaced(counts: seq<FieldCounts>, was: seq<Field>, now: seq<Field>, d: nat)
    requires |counts| == |was| == |now| && d < |counts|
    ensures var (fields, ok) := S.ReplaceFields(counts, was, now);
            && (ok <==> AllReplace(counts, was, now, |counts|))
            && fields[d] == if AllReplace(counts, was, now, d) then Replace(counts[d], was[d], now[d]).0 else counts[d]
    decreases |counts|
  {
    hide Replace, AllReplace;
    var n := |counts| - 1;
    AllButLast(counts, was, now, n);
    if n > 0 {
      FieldsReplaced(counts[..n], was[..n], now[..n], if d < n then d else 0);
      if d < n { AllButLast(counts, was, now, d); }
    } else {
      NoneToReplace(counts, was, now);
    }
  }

  lemma NoneToReplace(counts: seq<FieldCounts>, was: seq<Field>, now: seq<Field>)
    requires |counts| == |was| == |now|
    ensures AllReplace(counts, was, now, 0) && S.ReplaceFields(counts[..0], was[..0], now[..0]) == ([], true)
  {}

  /** Nothing is staged before the engine is ready, nor while it is suppressed; and then nobody was counted. */
  lemma NotStagedMeans(subjects: seq<Subject>, t: Target, i: S.Inputs)
    requires AllWellFormed(subjects) && (!i.ready || i.suppressed)
    ensures var r := S.Staged(subjects, t, i);
            && r.mode == (if i.ready then S.Suppressed else S.UnavailableMode)
            && r.reason == (if i.ready then S.GlobalSuppression else S.NoCommittedWatermark)
            && r.rows == [] && r.covered == 0 && r.unresolved == 0 && r.enrichedRows == 0
            && !r.invalidSupport && !r.enrichmentBound && r.tally == TallyOf([], 0, t)
  {}

  /** A staged result: the mode and the rows the population says, enriched, with the covered and the unresolved
      adding up to it; invalid when the support was not valid, contradicted itself, or a row could not be enriched. */
  lemma StagedMeans(subjects: seq<Subject>, t: Target, i: S.Inputs)
    requires AllWellFormed(subjects) && i.ready && !i.suppressed
    ensures var r, y := S.Staged(subjects, t, i), TallyOf(subjects, |subjects|, t);
            var (mode, reason, shown) := S.ModeOf(y, i.lifecycle);
            var rows := S.Selected(subjects, t, shown);
            var e := S.Enriched(subjects, t, S.Enrichment(y.fields, rows, 0, true), |rows|);
            && r.mode == mode && r.reason == reason && r.rows == e.rows && |r.rows| == |rows|
            && r.tally == y.(fields := e.fields)
            && r.covered + r.unresolved == y.population.universe && r.unresolved == y.population.unknown
            && (r.invalidSupport <==> !i.supportValid || y.contradicted || !e.ok)
            && r.enrichedRows == e.done && r.enrichmentBound
  {
    hide TallyOf, S.ModeOf, S.Selected, S.Enriched;
  }
}
