/** One symbol's canonical aggregate state on values: the correction tail, the folded prefix behind it and the session
    bitmaps beside them (read as the sets of seconds they mark), with the decision every consumed bar goes through. */
module AggregateStore {
  import opened LivePositions
  import opened Options
  import opened SessionUnits
  import opened CanonicalMerge
  import Intervals
  import P = AggregatePrefixes

  /** A bar's second ended longer ago than the correction horizon. */
  predicate Expired(now: int, start: int) {
    now - (start + 1) * SECOND > CORRECTION_HORIZON
  }

  datatype Bits = Bits(presence: set<int>, sealedLive: set<int>, provenAbsent: set<int>, conflict: set<int>)

  /** The two marks kept for delivery order, and the prefix's own latest scalar. */
  datatype Marks = Marks(latest: Option<Record>, older: Option<Record>, prefixLatest: P.Latest)

  /** `folded` lists the bars the prefix holds. */
  datatype Store = Store(tail: map<int, Record>, bits: Bits, marks: Marks, folded: seq<Record>)

  const EmptyStore := Store(map[], Bits({}, {}, {}, {}), Marks(None, None, P.Latest(None, 0, false, false, false)), [])

  datatype Place = InTail | InLatest | InOlder

  datatype Found = Missing | Found(record: Record, place: Place)

  /** The canonical record a fact meets: the tail's, else one of the two marks kept for a folded bar. */
  function Find(s: Store, start: int): Found {
    if start in s.tail then Found(s.tail[start], InTail)
    else if s.marks.latest.Some? && s.marks.latest.value.start == start then Found(s.marks.latest.value, InLatest)
    else if s.marks.older.Some? && s.marks.older.value.start == start then Found(s.marks.older.value, InOlder)
    else Missing
  }

  /** The later of two bars; on one start the newcomer. */
  function Consider(latest: Option<Record>, r: Record): Option<Record> {
    if latest.None? || r.start >= latest.value.start then Some(r) else latest
  }

  function ConsiderOlder(older: Option<Record>, r: Record): Option<Record> {
    if older.None? || r.start > older.value.start then Some(r) else older
  }

  /** Folds one tail record: its presence bit, its live seal, the prefix, and the older mark. */
  function FoldOut(s: Store, start: int): Store
    requires start in s.tail
  {
    var r := s.tail[start];
    Store(s.tail - {start},
          s.bits.(presence := s.bits.presence + {start},
                  sealedLive := if r.authority.Live? then s.bits.sealedLive + {start} else s.bits.sealedLive),
          s.marks.(older := ConsiderOlder(s.marks.older, r),
                   prefixLatest := s.marks.prefixLatest.Fold(s.folded == [], r)),
          s.folded + [r])
  }

  ghost predicate IsLeast(starts: set<int>, least: int) {
    least in starts && forall k :: k in starts ==> least <= k
  }

  ghost predicate IsGreatest(starts: set<int>, greatest: int) {
    greatest in starts && forall k :: k in starts ==> k <= greatest
  }

  /** Compaction: fold the least record while it is expired. */
  ghost function Compact(s: Store, now: int): Store
    decreases |s.tail.Keys|
  {
    if least :| IsLeast(s.tail.Keys, least) && Expired(now, least)
    then
      assert (s.tail - {least}).Keys == s.tail.Keys - {least};
      Compact(FoldOut(s, least), now)
    else s
  }

  /** The mark after a base and a set of tail records: the greatest record unless the base is later. */
  ghost function ConsiderAll(base: Option<Record>, tail: map<int, Record>, seen: set<int>): Option<Record>
    requires seen <= tail.Keys
  {
    if greatest :| IsGreatest(seen, greatest) then Consider(base, tail[greatest]) else base
  }

  /** The delivery-order mark recomputed from the older mark and the tail. */
  ghost function RecomputeLatest(s: Store): Option<Record> {
    ConsiderAll(if s.marks.prefixLatest.uncertain then None else s.marks.older, s.tail, s.tail.Keys)
  }

  function ClearAbsence(b: Bits, f: Fact): Bits {
    b.(provenAbsent := b.provenAbsent - {f.start},
       conflict := if f.source.Live? then b.conflict - {f.start} else b.conflict)
  }

  /** A late historical row goes straight into the prefix. */
  function FoldDirect(s: Store, r: Record): Store {
    var prefixLatest := s.marks.prefixLatest.Fold(s.folded == [], r);
    var older := if prefixLatest.uncertain then s.marks.older else ConsiderOlder(s.marks.older, r);
    var latest := if prefixLatest.uncertain then s.marks.latest else Consider(s.marks.latest, r);
    Store(s.tail, s.bits.(presence := s.bits.presence + {r.start}), Marks(latest, older, prefixLatest), s.folded + [r])
  }

  function PutTail(s: Store, r: Record): Store {
    s.(tail := s.tail[r.start := r], marks := s.marks.(latest := Consider(s.marks.latest, r)))
  }

  /** The record an accepted fact becomes in this state. */
  function Canonical(s: Store, f: Fact): Record {
    Accepted(f, if f.start in s.tail then Some(s.tail[f.start])
                else if s.marks.latest.Some? && s.marks.latest.value.start == f.start then s.marks.latest
                else None)
  }

  ghost function Install(s: Store, f: Fact, now: int): Store {
    var c := Compact(s, now);
    var r := Canonical(c, f);
    var cleared := c.(bits := ClearAbsence(c.bits, f));
    if f.source.Historical? && Expired(now, f.start) then FoldDirect(cleared, r) else PutTail(cleared, r)
  }

  ghost predicate FoldedIndex(folded: seq<Record>, i: int, start: int) {
    0 <= i < |folded| && folded[i].start == start
  }

  /** Drops the marks of a withdrawn second and finds the next latest. */
  ghost function ForgetMark(s: Store, start: int): Store {
    if s.marks.latest.Some? && s.marks.latest.value.start == start then
      var t := if s.marks.older.Some? && s.marks.older.value.start == start
               then s.(marks := s.marks.(older := None)) else s;
      t.(marks := t.marks.(latest := RecomputeLatest(t)))
    else s
  }

  /** Takes a folded bar back out of the prefix. */
  ghost function Unfold(s: Store, existing: Record): Store {
    if i :| FoldedIndex(s.folded, i, existing.start)
    then s.(folded := P.Without(s.folded, i),
            marks := s.marks.(prefixLatest := s.marks.prefixLatest.Withdraw(existing)))
    else s
  }

  ghost function Contradict(s: Store, existing: Record): Store {
    var start, b := existing.start, s.bits;
    var unfolded := if start in b.presence && existing.authority.Historical? then Unfold(s, existing) else s;
    unfolded.(tail := s.tail - {start},
              bits := b.(presence := b.presence - {start}, conflict := b.conflict + {start},
                         provenAbsent := b.provenAbsent - {start}))
  }

  /** A contradicted historical bar leaves, from the tail or from the prefix, and its conflict bit is set. */
  ghost function WithdrawHistorical(s: Store, existing: Record): Store {
    ForgetMark(Contradict(s, existing), existing.start)
  }

  ghost function WithdrawIntegrity(s: Store, start: int): Store {
    ForgetMark(s.(tail := s.tail - {start}, bits := s.bits.(presence := s.bits.presence - {start})), start)
  }

  /** A live fact that repeats the record's values lends it its position, in the tail and in the latest mark. */
  function Touch(s: Store, found: Found, position: Position): Store
    requires found.Found?
  {
    var r := AdvanceLiveAuthority(found.record, position);
    var latest := if s.marks.latest.Some? && s.marks.latest.value.start == r.start then Some(r) else s.marks.latest;
    match found.place
    case InTail => s.(tail := s.tail[r.start := r], marks := s.marks.(latest := latest))
    case InLatest => s.(marks := s.marks.(latest := latest))
    case InOlder => s.(marks := s.marks.(latest := latest, older := Some(r)))
  }

  /** The fact contradicts the record it met and is not too late. */
  ghost function Unequal(s: Store, f: Fact, now: int, existing: Record): (Store, Disposition) {
    if f.source.Live? then
      if existing.authority.Historical? then (Install(s, f, now), Revised)
      else
        var order := CompareLive(f.source.position, existing.authority.position);
        if order < 0 then (s, Nonprecedent)
        else if order == 0 then (WithdrawIntegrity(s, f.start), Integrity)
        else (Install(s, f, now), Revised)
    else if existing.authority.Live? then (s, HistoricalLiveConflict)
    else (WithdrawHistorical(s, existing), Withdrawn)
  }

  /** The decision for one validated bar.  `reconciled` is the value kept for a sealed live second while its
      hydration request is open. */
  ghost function Decide(s: Store, f: Fact, now: int, reconciled: Option<Values>): (Store, Disposition) {
    var found := Find(s, f.start);
    var late := Expired(now, f.start);
    if f.source.Historical? && f.start in s.bits.sealedLive then
      (s, if reconciled == Some(f.values) then ExactDuplicate else HistoricalLiveConflict)
    else if f.source.Live? && late
            && (found.Missing? || (found.record.authority.Historical? && found.record.greatest.None?)) then (s, TooLate)
    else if found.Missing? then
      if f.start in s.bits.presence then (s, FencedContext)
      else if f.source.Historical? && f.start in s.bits.conflict then (s, HistoricalHistoricalConflict)
      else (Install(s, f, now), Inserted)
    else if found.record.values == f.values then
      (if f.source.Live? then Touch(s, found, f.source.position) else s, ExactDuplicate)
    else if f.source.Live? && late then (s, TooLate)
    else Unequal(s, f, now, found.record)
  }

  // ------------------------------------------------------------------------------------------------ what holds

  /** The tail's records stand under their own starts, began before the clock, and no bit contradicts them. */
  ghost predicate TailHolds(s: Store, clock: int) {
    && (forall k :: k in s.tail ==> s.tail[k].start == k && (k + 1) * SECOND <= clock)
    && s.tail.Keys !! s.bits.presence && s.tail.Keys !! s.bits.conflict && s.tail.Keys !! s.bits.provenAbsent
  }

  /** Proven absence, presence and conflict are apart, and only expired seconds are present. */
  ghost predicate BitsHold(s: Store, clock: int) {
    && s.bits.provenAbsent !! s.bits.presence && s.bits.provenAbsent !! s.bits.conflict
    && s.bits.presence !! s.bits.conflict
    && (forall k :: k in s.bits.presence ==> Expired(clock, k))
    && (forall k :: k in s.bits.sealedLive ==> Expired(clock, k))
  }

  /** The delivery-order mark is the tail's record, or of an expired second. */
  ghost predicate LatestPlaced(s: Store, clock: int) {
    s.marks.latest.Some? ==>
      var m := s.marks.latest.value;
      if m.start in s.tail then m.values == s.tail[m.start].values else Expired(clock, m.start)
  }

  /** The older mark is of an expired second that left the tail. */
  ghost predicate OlderPlaced(s: Store, clock: int) {
    s.marks.older.Some? ==> s.marks.older.value.start !in s.tail && Expired(clock, s.marks.older.value.start)
  }

  ghost predicate MarksPlaced(s: Store, clock: int) {
    LatestPlaced(s, clock) && OlderPlaced(s, clock)
  }

  /** The prefix holds exactly the present seconds, its latest scalar is right about them, and the marks agree. */
  ghost predicate FoldedHolds(s: Store) {
    && P.DistinctStarts(s.folded)
    && (forall k :: k in s.bits.presence ==> exists i :: FoldedIndex(s.folded, i, k))
    && (forall i :: 0 <= i < |s.folded| ==> s.folded[i].start in s.bits.presence)
    && s.marks.prefixLatest.Right(s.folded)
  }

  ghost predicate MarkAgrees(m: Option<Record>, folded: seq<Record>) {
    m.Some? ==> forall i :: FoldedIndex(folded, i, m.value.start) ==> folded[i].values == m.value.values
  }

  /** While the prefix is sure of its latest bar, the older mark is that bar's second. */
  ghost predicate OlderRight(s: Store) {
    var older := s.marks.older;
    && (older.Some? ==> older.value.start <= s.marks.prefixLatest.at)
    && (!s.marks.prefixLatest.uncertain ==>
          && (forall i :: 0 <= i < |s.folded| ==> older.Some? && s.folded[i].start <= older.value.start)
          && (older.Some? ==> exists i :: FoldedIndex(s.folded, i, older.value.start)))
  }

  /** The delivery-order mark is a bar still held, no tail bar is later, and unless a withdrawal left the prefix
      unsure no folded bar is later. */
  ghost predicate LatestRight(s: Store) {
    var latest := s.marks.latest;
    && (forall k :: k in s.tail ==> latest.Some? && k <= latest.value.start)
    && (latest.Some? ==> latest.value.start in s.tail || exists i :: FoldedIndex(s.folded, i, latest.value.start))
    && (!s.marks.prefixLatest.uncertain ==>
          forall i :: 0 <= i < |s.folded| ==> latest.Some? && s.folded[i].start <= latest.value.start)
  }

  ghost predicate MarkIsLatest(s: Store) {
    OlderRight(s) && LatestRight(s)
  }

  ghost predicate MarksAgree(s: Store) {
    MarkAgrees(s.marks.latest, s.folded) && MarkAgrees(s.marks.older, s.folded)
  }

  ghost predicate Holds(s: Store, clock: int) {
    TailHolds(s, clock) && BitsHold(s, clock) && MarksPlaced(s, clock) && FoldedHolds(s) && MarkIsLatest(s)
    && MarksAgree(s)
  }

  lemma ClockAdvances(s: Store, clock: int, now: int)
    requires Holds(s, clock) && clock <= now
    ensures Holds(s, now)
  {}

  /** The folded list with one more bar, whose second it lacked. */
  lemma FoldMore(folded: seq<Record>, r: Record)
    requires forall i :: 0 <= i < |folded| ==> folded[i].start != r.start
    ensures var more := folded + [r];
            && (forall k, i :: FoldedIndex(folded, i, k) ==> FoldedIndex(more, i, k) && more[i] == folded[i])
            && (forall k, i :: FoldedIndex(more, i, k) ==>
                  if i == |folded| then k == r.start && more[i] == r
                  else FoldedIndex(folded, i, k) && more[i] == folded[i])
            && FoldedIndex(more, |folded|, r.start)
            && (P.DistinctStarts(folded) ==> P.DistinctStarts(more))
  {}

  lemma FoldKeepsFolded(s: Store, r: Record, t: Store)
    requires FoldedHolds(s) && r.start !in s.bits.presence
    requires t.folded == s.folded + [r] && t.bits.presence == s.bits.presence + {r.start}
    requires t.marks.prefixLatest == s.marks.prefixLatest.Fold(s.folded == [], r)
    ensures FoldedHolds(t)
  {
    FoldMore(s.folded, r);
    s.marks.prefixLatest.FoldRight(s.folded, r);
    assert FoldedIndex(t.folded, |s.folded|, r.start);
    forall k | k in s.bits.presence ensures exists i :: FoldedIndex(t.folded, i, k) {
      var i :| FoldedIndex(s.folded, i, k);
      assert FoldedIndex(t.folded, i, k);
    }
  }

  lemma FoldOutKeepsLatest(s: Store, start: int, clock: int)
    requires MarkIsLatest(s) && MarksPlaced(s, clock) && FoldedHolds(s)
    requires start in s.tail && s.tail[start].start == start && start !in s.bits.presence
    ensures MarkIsLatest(FoldOut(s, start))
  {
    var t := FoldOut(s, start);
    FoldMore(s.folded, s.tail[start]);
    assert FoldedIndex(t.folded, |s.folded|, start);
    var latest := t.marks.latest;
    if latest.Some? && latest.value.start !in t.tail && latest.value.start != start {
      var i :| FoldedIndex(s.folded, i, latest.value.start);
      assert FoldedIndex(t.folded, i, latest.value.start);
    }
    if s.marks.older.Some? && !s.marks.prefixLatest.uncertain {
      var i :| FoldedIndex(s.folded, i, s.marks.older.value.start);
      assert FoldedIndex(t.folded, i, s.marks.older.value.start);
    }
  }

  lemma FoldOutAgrees(s: Store, start: int, clock: int)
    requires MarksAgree(s) && MarksPlaced(s, clock)
    requires start in s.tail && s.tail[start].start == start
    requires forall i :: 0 <= i < |s.folded| ==> s.folded[i].start != start
    ensures MarksAgree(FoldOut(s, start))
  {
    FoldMore(s.folded, s.tail[start]);
  }

  lemma FoldOutPlaced(s: Store, start: int, clock: int)
    requires TailHolds(s, clock) && BitsHold(s, clock) && MarksPlaced(s, clock)
    requires start in s.tail && Expired(clock, start)
    ensures var t := FoldOut(s, start); TailHolds(t, clock) && BitsHold(t, clock) && MarksPlaced(t, clock)
  {}

  lemma FoldOutHolds(s: Store, start: int, clock: int)
    requires Holds(s, clock) && start in s.tail && Expired(clock, start)
    ensures Holds(FoldOut(s, start), clock)
  {
    FoldKeepsFolded(s, s.tail[start], FoldOut(s, start));
    FoldOutKeepsLatest(s, start, clock);
    FoldOutAgrees(s, start, clock);
    FoldOutPlaced(s, start, clock);
  }

  /** What compaction does: it leaves exactly the unexpired records, and an expired one became a presence bit, with a
      seal if it was live.  Nothing else about an unexpired second changes. */
  ghost predicate Compacted(s: Store, t: Store, now: int) {
    && (forall k :: k in t.tail <==> k in s.tail && !Expired(now, k))
    && (forall k :: k in t.tail ==> t.tail[k] == s.tail[k])
    && (forall k :: k in t.bits.presence <==> k in s.bits.presence || (k in s.tail && Expired(now, k)))
    && (forall k :: k in t.bits.sealedLive <==>
          k in s.bits.sealedLive || (k in s.tail && Expired(now, k) && s.tail[k].authority.Live?))
    && t.bits.provenAbsent == s.bits.provenAbsent && t.bits.conflict == s.bits.conflict
    && t.marks.latest == s.marks.latest
  }

  lemma {:induction false} LeastExists(starts: set<int>) returns (least: int)
    requires starts != {}
    ensures IsLeast(starts, least)
    decreases starts
  {
    if !exists k :: k in starts { assert false; }
    var k :| k in starts;
    if starts == {k} {
      least := k;
    } else {
      var rest := LeastExists(starts - {k});
      least := if k < rest then k else rest;
      assert forall j :: j in starts ==> j == k || j in starts - {k};
    }
  }

  lemma {:induction false} CompactHolds(s: Store, now: int)
    requires Holds(s, now)
    ensures Holds(Compact(s, now), now)
    decreases |s.tail.Keys|
  {
    if least :| IsLeast(s.tail.Keys, least) && Expired(now, least) {
      assert (s.tail - {least}).Keys == s.tail.Keys - {least};
      FoldOutHolds(s, least, now);
      CompactHolds(FoldOut(s, least), now);
      LeastUnique(s, now, least);
    }
  }

  lemma {:induction false} CompactCompacts(s: Store, now: int)
    ensures Compacted(s, Compact(s, now), now)
    decreases |s.tail.Keys|
  {
    if least :| IsLeast(s.tail.Keys, least) && Expired(now, least) {
      assert (s.tail - {least}).Keys == s.tail.Keys - {least};
      CompactCompacts(FoldOut(s, least), now);
      LeastUnique(s, now, least);
    } else if s.tail.Keys != {} {
      var least := LeastExists(s.tail.Keys);
      assert !Expired(now, least);
    }
  }

  lemma LeastUnique(s: Store, now: int, least: int)
    requires IsLeast(s.tail.Keys, least) && Expired(now, least)
    ensures Compact(s, now) == Compact(FoldOut(s, least), now)
  {}

  // ------------------------------------------------------------------------------------------ the other changes

  lemma ClearAbsenceHolds(s: Store, f: Fact, clock: int)
    requires Holds(s, clock)
    ensures Holds(s.(bits := ClearAbsence(s.bits, f)), clock)
  {}

  lemma PutTailPlaced(s: Store, r: Record, clock: int)
    requires TailHolds(s, clock) && BitsHold(s, clock) && MarksPlaced(s, clock)
    requires (r.start + 1) * SECOND <= clock && !Expired(clock, r.start)
    requires r.start !in s.bits.conflict && r.start !in s.bits.provenAbsent
    ensures var t := PutTail(s, r); TailHolds(t, clock) && BitsHold(t, clock) && MarksPlaced(t, clock)
  {
    assert PutTail(s, r).tail.Keys == s.tail.Keys + {r.start};
  }

  lemma PutTailMarks(s: Store, r: Record)
    requires MarkIsLatest(s) && MarksAgree(s) && forall i :: 0 <= i < |s.folded| ==> s.folded[i].start != r.start
    ensures MarkIsLatest(PutTail(s, r)) && MarksAgree(PutTail(s, r))
  {
    assert PutTail(s, r).tail.Keys == s.tail.Keys + {r.start};
  }

  lemma PutTailHolds(s: Store, r: Record, clock: int)
    requires Holds(s, clock) && (r.start + 1) * SECOND <= clock && !Expired(clock, r.start)
    requires r.start !in s.bits.conflict && r.start !in s.bits.provenAbsent
    ensures Holds(PutTail(s, r), clock)
  {
    PutTailPlaced(s, r, clock);
    PutTailMarks(s, r);
  }

  lemma FoldDirectKeepsOlder(s: Store, r: Record)
    requires OlderRight(s) && FoldedHolds(s) && r.start !in s.bits.presence
    ensures OlderRight(FoldDirect(s, r))
  {
    var t := FoldDirect(s, r);
    FoldMore(s.folded, r);
    assert FoldedIndex(t.folded, |s.folded|, r.start);
    if s.marks.older.Some? && !s.marks.prefixLatest.uncertain {
      var i :| FoldedIndex(s.folded, i, s.marks.older.value.start);
      assert FoldedIndex(t.folded, i, s.marks.older.value.start);
    }
  }

  lemma FoldDirectKeepsLatest(s: Store, r: Record)
    requires LatestRight(s) && FoldedHolds(s) && r.start !in s.bits.presence && r.start !in s.tail
    ensures LatestRight(FoldDirect(s, r))
  {
    var t := FoldDirect(s, r);
    FoldMore(s.folded, r);
    assert FoldedIndex(t.folded, |s.folded|, r.start);
    if s.marks.latest.Some? && s.marks.latest.value.start !in s.tail {
      var i :| FoldedIndex(s.folded, i, s.marks.latest.value.start);
      assert FoldedIndex(t.folded, i, s.marks.latest.value.start);
    }
  }

  lemma FoldDirectAgrees(s: Store, r: Record)
    requires MarksAgree(s) && Find(s, r.start).Missing?
    requires forall i :: 0 <= i < |s.folded| ==> s.folded[i].start != r.start
    ensures MarksAgree(FoldDirect(s, r))
  {
    FoldMore(s.folded, r);
  }

  lemma FoldDirectPlaced(s: Store, r: Record, clock: int)
    requires TailHolds(s, clock) && BitsHold(s, clock) && MarksPlaced(s, clock)
    requires Expired(clock, r.start) && r.start !in s.tail
    requires r.start !in s.bits.presence && r.start !in s.bits.conflict && r.start !in s.bits.provenAbsent
    ensures var t := FoldDirect(s, r); TailHolds(t, clock) && BitsHold(t, clock) && MarksPlaced(t, clock)
  {}

  lemma FoldDirectHolds(s: Store, r: Record, clock: int)
    requires Holds(s, clock) && Expired(clock, r.start) && Find(s, r.start).Missing?
    requires r.start !in s.bits.presence && r.start !in s.bits.conflict && r.start !in s.bits.provenAbsent
    ensures Holds(FoldDirect(s, r), clock)
  {
    FoldKeepsFolded(s, r, FoldDirect(s, r));
    FoldDirectKeepsOlder(s, r);
    FoldDirectKeepsLatest(s, r);
    FoldDirectAgrees(s, r);
    FoldDirectPlaced(s, r, clock);
  }

  /** Compaction at a later time never brings a second back. */
  lemma {:induction false} CompactFinds(s: Store, now: int, start: int)
    requires Find(s, start).Missing? && forall k :: k in s.tail ==> s.tail[k].start == k
    ensures Find(Compact(s, now), start).Missing?
    decreases |s.tail.Keys|
  {
    if least :| IsLeast(s.tail.Keys, least) && Expired(now, least) {
      assert (s.tail - {least}).Keys == s.tail.Keys - {least};
      CompactFinds(FoldOut(s, least), now, start);
      LeastUnique(s, now, least);
    }
  }

  /** A validated bar has ended by the time it is decided. */
  ghost predicate Admissible(f: Fact, now: int) {
    (f.start + 1) * SECOND <= now
  }

  lemma InstallHolds(s: Store, f: Fact, now: int)
    requires Holds(s, now) && Admissible(f, now)
    requires f.start !in s.bits.presence && (f.source.Historical? ==> f.start !in s.bits.conflict)
    requires if Expired(now, f.start) then f.source.Historical? && Find(s, f.start).Missing? else true
    ensures Holds(Install(s, f, now), now)
  {
    var c := Compact(s, now);
    CompactHolds(s, now);
    CompactCompacts(s, now);
    ClearAbsenceHolds(c, f, now);
    var cleared, r := c.(bits := ClearAbsence(c.bits, f)), Canonical(c, f);
    if Expired(now, f.start) {
      CompactFinds(s, now, f.start);
      FoldDirectHolds(cleared, r, now);
    } else {
      PutTailHolds(cleared, r, now);
    }
  }

  /** All that is known once the latest mark is set aside. */
  ghost predicate HoldsButLatest(s: Store, clock: int) {
    && TailHolds(s, clock) && BitsHold(s, clock) && FoldedHolds(s)
    && OlderPlaced(s, clock) && OlderRight(s) && MarkAgrees(s.marks.older, s.folded)
  }

  lemma {:induction false} GreatestExists(starts: set<int>) returns (greatest: int)
    requires starts != {}
    ensures IsGreatest(starts, greatest)
    decreases starts
  {
    if !exists k :: k in starts { assert false; }
    var k :| k in starts;
    if starts == {k} {
      greatest := k;
    } else {
      var rest := GreatestExists(starts - {k});
      greatest := if k > rest then k else rest;
      assert forall j :: j in starts ==> j == k || j in starts - {k};
    }
  }

  /** The recomputed mark is the latest bar held, from the rest of the state alone. */
  lemma RecomputeRight(s: Store, clock: int)
    requires HoldsButLatest(s, clock)
    ensures Holds(s.(marks := s.marks.(latest := RecomputeLatest(s))), clock)
  {
    var t := s.(marks := s.marks.(latest := RecomputeLatest(s)));
    if s.tail.Keys != {} {
      var g := GreatestExists(s.tail.Keys);
    }
    assert MarkIsLatest(t);
    assert MarksPlaced(t, clock);
  }

  lemma UnfoldFrame(s: Store, existing: Record)
    ensures var t := Unfold(s, existing);
            && t.tail == s.tail && t.marks.latest == s.marks.latest
            && (!t.marks.prefixLatest.uncertain ==> !s.marks.prefixLatest.uncertain)
  {}

  lemma UnfoldIs(s: Store, existing: Record) returns (i: int)
    requires FoldedHolds(s) && existing.start in s.bits.presence
    ensures FoldedIndex(s.folded, i, existing.start)
    ensures var t := Unfold(s, existing);
            && t.bits == s.bits && t.folded == P.Without(s.folded, i)
            && t.marks.prefixLatest == s.marks.prefixLatest.Withdraw(existing)
  {
    i :| FoldedIndex(s.folded, i, existing.start) && Unfold(s, existing).folded == P.Without(s.folded, i);
  }

  lemma UnfoldKeepsFolded(s: Store, existing: Record)
    requires FoldedHolds(s) && existing.start in s.bits.presence
    requires MarkAgrees(Some(existing), s.folded)
    ensures var t := Unfold(s, existing);
            FoldedHolds(t.(bits := s.bits.(presence := s.bits.presence - {existing.start})))
  {
    var i := UnfoldIs(s, existing);
    var start, t := existing.start, Unfold(s, existing);
    hide Unfold, P.Without;
    P.WithoutKeeps(s.folded, i);
    P.WithoutDistinct(s.folded, i);
    s.marks.prefixLatest.WithdrawRight(s.folded, i, existing);
    forall k | k in s.bits.presence && k != start ensures exists j :: FoldedIndex(t.folded, j, k) {
      var j :| FoldedIndex(s.folded, j, k);
      assert FoldedIndex(t.folded, if j < i then j else j - 1, k);
    }
  }

  /** If the prefix is still sure after a bar left it, the older mark was not that bar. */
  lemma UnfoldKeepsOlder(s: Store, existing: Record)
    requires FoldedHolds(s) && MarkIsLatest(s) && existing.start in s.bits.presence
    ensures var t := Unfold(s, existing);
            && (forall j :: 0 <= j < |t.folded| ==> exists k :: 0 <= k < |s.folded| && t.folded[j] == s.folded[k])
            && (forall k :: 0 <= k < |s.folded| && s.folded[k].start != existing.start ==>
                  exists j :: FoldedIndex(t.folded, j, s.folded[k].start))
            && (!t.marks.prefixLatest.uncertain ==>
                  s.marks.older.Some? ==> s.marks.older.value.start != existing.start)
  {
    var start, t := existing.start, Unfold(s, existing);
    var i :| FoldedIndex(s.folded, i, start) && t.folded == P.Without(s.folded, i);
    P.WithoutKeeps(s.folded, i);
    forall k | 0 <= k < |s.folded| && s.folded[k].start != start
      ensures exists j :: FoldedIndex(t.folded, j, s.folded[k].start)
    {
      assert FoldedIndex(t.folded, if k < i then k else k - 1, s.folded[k].start);
    }
  }

  /** The withdrawn second's latest mark is of something else, or there is none. */
  ghost predicate Elsewhere(latest: Option<Record>, start: int) {
    latest.Some? ==> latest.value.start != start
  }

  lemma UnfoldAgrees(s: Store, existing: Record, m: Option<Record>)
    requires FoldedHolds(s) && MarkIsLatest(s) && existing.start in s.bits.presence && MarkAgrees(m, s.folded)
    ensures MarkAgrees(m, Unfold(s, existing).folded)
  {
    UnfoldKeepsOlder(s, existing);
  }

  lemma ContradictTail(s: Store, existing: Record, clock: int)
    requires TailHolds(s, clock) && BitsHold(s, clock)
    ensures TailHolds(Contradict(s, existing), clock) && BitsHold(Contradict(s, existing), clock)
  {}

  lemma ContradictOlder(s: Store, existing: Record)
    requires FoldedHolds(s) && MarkIsLatest(s) && existing.authority.Historical?
    ensures OlderRight(Contradict(s, existing))
  {
    if existing.start in s.bits.presence {
      UnfoldKeepsOlder(s, existing);
      UnfoldOlder(s, existing);
    }
  }

  lemma UnfoldOlder(s: Store, existing: Record)
    requires FoldedHolds(s) && MarkIsLatest(s) && existing.start in s.bits.presence
    ensures OlderRight(Unfold(s, existing))
  {
    UnfoldKeepsOlder(s, existing);
    var t, older := Unfold(s, existing), s.marks.older;
    assert t.marks.older == older && t.marks.prefixLatest.at == s.marks.prefixLatest.at;
    if !t.marks.prefixLatest.uncertain && older.Some? {
      var i :| FoldedIndex(s.folded, i, older.value.start);
      assert s.folded[i].start != existing.start;
    }
  }

  lemma ContradictHoldsButLatest(s: Store, existing: Record, clock: int)
    requires Holds(s, clock) && existing.authority.Historical? && MarkAgrees(Some(existing), s.folded)
    ensures HoldsButLatest(Contradict(s, existing), clock)
  {
    var t := Contradict(s, existing);
    ContradictTail(s, existing, clock);
    ContradictOlder(s, existing);
    assert OlderPlaced(t, clock);
    if existing.start in s.bits.presence {
      UnfoldKeepsFolded(s, existing);
      UnfoldAgrees(s, existing, s.marks.older);
      assert FoldedHolds(t);
    } else {
      assert s.bits.presence - {existing.start} == s.bits.presence;
    }
  }

  lemma ContradictKeepsLatest(s: Store, existing: Record)
    requires FoldedHolds(s) && MarkIsLatest(s) && existing.authority.Historical?
    requires Elsewhere(s.marks.latest, existing.start)
    ensures LatestRight(Contradict(s, existing))
  {
    hide Unfold, OlderRight;
    UnfoldFrame(s, existing);
    if existing.start in s.bits.presence { UnfoldKeepsOlder(s, existing); }
    if s.marks.latest.Some? && s.marks.latest.value.start !in s.tail {
      var i :| FoldedIndex(s.folded, i, s.marks.latest.value.start);
      assert s.folded[i].start != existing.start;
    }
  }

  lemma ContradictHolds(s: Store, existing: Record, clock: int)
    requires Holds(s, clock) && existing.authority.Historical? && MarkAgrees(Some(existing), s.folded)
    requires Elsewhere(s.marks.latest, existing.start)
    ensures Holds(Contradict(s, existing), clock)
  {
    ContradictHoldsButLatest(s, existing, clock);
    ContradictKeepsLatest(s, existing);
    if existing.start in s.bits.presence { UnfoldAgrees(s, existing, s.marks.latest); }
    assert LatestPlaced(Contradict(s, existing), clock);
  }

  /** Once the withdrawn second is out of tail and prefix, forgetting its mark restores everything. */
  lemma ForgetHolds(s: Store, start: int, clock: int)
    requires HoldsButLatest(s, clock) && start !in s.tail && start !in s.bits.presence
    requires Elsewhere(s.marks.latest, start) ==> Holds(s, clock)
    ensures Holds(ForgetMark(s, start), clock)
  {
    if !Elsewhere(s.marks.latest, start) {
      if s.marks.older.Some? && s.marks.older.value.start == start {
        var t := s.(marks := s.marks.(older := None));
        assert HoldsButLatest(t, clock);
        RecomputeRight(t, clock);
      } else {
        RecomputeRight(s, clock);
      }
    }
  }

  lemma WithdrawHistoricalHolds(s: Store, f: Fact, clock: int)
    requires Holds(s, clock)
    requires var found := Find(s, f.start); found.Found? && found.record.authority.Historical?
    ensures Holds(WithdrawHistorical(s, Find(s, f.start).record), clock)
  {
    var existing := Find(s, f.start).record;
    ContradictHoldsButLatest(s, existing, clock);
    if Elsewhere(s.marks.latest, existing.start) { ContradictHolds(s, existing, clock); }
    ForgetHolds(Contradict(s, existing), existing.start, clock);
  }

  lemma WithdrawIntegrityHolds(s: Store, start: int, clock: int)
    requires Holds(s, clock) && start in s.tail
    ensures Holds(WithdrawIntegrity(s, start), clock)
  {
    var t := s.(tail := s.tail - {start}, bits := s.bits.(presence := s.bits.presence - {start}));
    assert s.bits.presence - {start} == s.bits.presence;
    ForgetHolds(t, start, clock);
  }

  ghost predicate SameBar(a: Option<Record>, b: Option<Record>) {
    if a.None? then b.None? else b.Some? && a.value.start == b.value.start && a.value.values == b.value.values
  }

  /** Only authorities and live support differ. */
  ghost predicate SameBars(s: Store, t: Store) {
    && t.bits == s.bits && t.folded == s.folded && t.marks.prefixLatest == s.marks.prefixLatest
    && t.tail.Keys == s.tail.Keys
    && (forall k :: k in s.tail ==> SameBar(Some(s.tail[k]), Some(t.tail[k])))
    && SameBar(s.marks.latest, t.marks.latest) && SameBar(s.marks.older, t.marks.older)
  }

  lemma SameBarsTail(s: Store, t: Store, clock: int)
    requires SameBars(s, t) && TailHolds(s, clock) && BitsHold(s, clock) && MarksPlaced(s, clock)
    ensures TailHolds(t, clock) && BitsHold(t, clock) && MarksPlaced(t, clock)
  {
    assert forall k :: k in t.tail ==> k in s.tail.Keys && SameBar(Some(s.tail[k]), Some(t.tail[k]));
  }

  lemma SameBarsMarks(s: Store, t: Store)
    requires SameBars(s, t) && FoldedHolds(s) && MarkIsLatest(s) && MarksAgree(s)
    ensures FoldedHolds(t) && MarkIsLatest(t) && MarksAgree(t)
  {}

  lemma TouchHolds(s: Store, start: int, position: Position, clock: int)
    requires Holds(s, clock) && Find(s, start).Found?
    ensures Holds(Touch(s, Find(s, start), position), clock)
  {
    var t := Touch(s, Find(s, start), position);
    assert t.tail.Keys == s.tail.Keys;
    SameBarsTail(s, t, clock);
    SameBarsMarks(s, t);
  }

  /** Every decision keeps the state sound. */
  lemma DecideHolds(s: Store, f: Fact, now: int, reconciled: Option<Values>)
    requires Holds(s, now) && Admissible(f, now)
    ensures Holds(Decide(s, f, now, reconciled).0, now)
  {
    var found := Find(s, f.start);
    var r := Decide(s, f, now, reconciled);
    if r.1 == Inserted || r.1 == Revised {
      InstallHolds(s, f, now);
    } else if r.1 == Withdrawn {
      WithdrawHistoricalHolds(s, f, now);
    } else if r.1 == Integrity {
      WithdrawIntegrityHolds(s, f.start, now);
    } else if r.1 == ExactDuplicate && found.Found? && f.source.Live? {
      TouchHolds(s, f.start, f.source.position, now);
    }
  }

  // --------------------------------------------------------------------------------------------- the tail's bound

  lemma SecondsWithinHorizon(starts: set<int>, now: int)
    requires forall k :: k in starts ==> !Expired(now, k) && (k + 1) * SECOND <= now
    ensures |starts| <= MAXIMUM_TAIL_RECORDS
  {
    var seconds := now / SECOND;
    assert seconds * SECOND <= now < (seconds + 1) * SECOND;
    Intervals.IntervalCount(starts, seconds - 961, 961);
  }

  lemma InstallLeavesUnexpired(s: Store, f: Fact, now: int)
    requires Expired(now, f.start) ==> f.source.Historical?
    ensures forall k :: k in Install(s, f, now).tail ==> !Expired(now, k)
  {
    CompactCompacts(s, now);
  }

  /** A decision that accepts a bar leaves at most 961 records in the tail, each within the inclusive horizon. */
  lemma AcceptedTailBounded(s: Store, f: Fact, now: int, reconciled: Option<Values>)
    requires Holds(s, now) && Admissible(f, now)
    requires var d := Decide(s, f, now, reconciled).1; d == Inserted || d == Revised
    ensures var t := Decide(s, f, now, reconciled).0;
            && |t.tail.Keys| <= MAXIMUM_TAIL_RECORDS
            && forall k :: k in t.tail ==> !Expired(now, k)
  {
    var t := Decide(s, f, now, reconciled).0;
    AcceptedInstalls(s, f, now, reconciled);
    InstallLeavesUnexpired(s, f, now);
    SecondsWithinHorizon(t.tail.Keys, now);
  }

  lemma AcceptedInstalls(s: Store, f: Fact, now: int, reconciled: Option<Values>)
    requires Holds(s, now) && Admissible(f, now)
    requires var d := Decide(s, f, now, reconciled).1; d == Inserted || d == Revised
    ensures var t := Decide(s, f, now, reconciled).0;
            t == Install(s, f, now) && TailHolds(t, now) && (Expired(now, f.start) ==> f.source.Historical?)
  {
    DecideHolds(s, f, now, reconciled);
  }

  // ---------------------------------------------------------------------------------- runs, and what they converge to

  function CellAt(s: Store, start: int): Cell {
    Cell(if start in s.tail then Some(s.tail[start]) else None, start in s.bits.conflict)
  }

  /** For a second inside the horizon the whole state behaves as the merge rule for that second alone, whatever
      compaction folds and whatever marks are kept for folded bars. */
  lemma DecideMerges(s: Store, f: Fact, now: int, reconciled: Option<Values>)
    requires Holds(s, now) && Admissible(f, now) && !Expired(now, f.start)
    ensures var r := Decide(s, f, now, reconciled);
            (CellAt(r.0, f.start), r.1) == Merge(CellAt(s, f.start), f)
  {
    CompactCompacts(s, now);
    assert Find(s, f.start) == if f.start in s.tail then Found(s.tail[f.start], InTail) else Missing;
  }

  lemma WithdrawLeaves(s: Store, existing: Record, w: int)
    requires w != existing.start
    ensures CellAt(WithdrawHistorical(s, existing), w) == CellAt(s, w)
    ensures CellAt(WithdrawIntegrity(s, existing.start), w) == CellAt(s, w)
  {}

  lemma InstallLeaves(s: Store, f: Fact, now: int, w: int)
    requires Holds(s, now) && w != f.start && !Expired(now, w)
    ensures CellAt(Install(s, f, now), w) == CellAt(s, w)
  {
    CompactCompacts(s, now);
  }

  /** The changes a decision can make. */
  lemma DecideShape(s: Store, f: Fact, now: int, reconciled: Option<Values>)
    ensures var t, found := Decide(s, f, now, reconciled).0, Find(s, f.start);
            || t == s
            || t == Install(s, f, now)
            || (found.Found? && t == WithdrawHistorical(s, found.record))
            || t == WithdrawIntegrity(s, f.start)
            || (found.Found? && f.source.Live? && t == Touch(s, found, f.source.position))
  {}

  /** Another second's fact leaves it alone. */
  lemma DecideLeaves(s: Store, f: Fact, now: int, reconciled: Option<Values>, w: int)
    requires Holds(s, now) && w != f.start && !Expired(now, w)
    ensures CellAt(Decide(s, f, now, reconciled).0, w) == CellAt(s, w)
  {
    DecideShape(s, f, now, reconciled);
    var t, found := Decide(s, f, now, reconciled).0, Find(s, f.start);
    if t == Install(s, f, now) {
      InstallLeaves(s, f, now, w);
    } else if found.Found? {
      WithdrawLeaves(s, found.record, w);
    }
  }

  /** Exact coverage of an interval makes every second of it proven absent that no bar and no conflict claims, except
      the excluded invalid one. */
  ghost function InstallCoverage(s: Store, start: int, end: int, invalid: Option<int>): Store {
    var covered := set k | start <= k < end && k !in s.bits.presence && k !in s.bits.conflict
                           && invalid != Some(k) && k !in s.tail;
    s.(bits := s.bits.(provenAbsent := s.bits.provenAbsent + covered))
  }

  datatype Event =
    | Consume(fact: Fact, reconciled: Option<Values>)
    | Cover(start: int, end: int, invalid: Option<int>)

  /** One timed event; the engine's integrity latch ends all merging. */
  datatype Timed = Timed(event: Event, now: int)
  datatype System = System(store: Store, integrity: bool, clock: int)

  ghost predicate Enabled(s: System, e: Timed) {
    s.clock <= e.now && (e.event.Consume? ==> Admissible(e.event.fact, e.now))
  }

  ghost function Step(s: System, e: Timed): System {
    match e.event
    case Consume(f, reconciled) =>
      if s.integrity then s.(clock := e.now)
      else
        var r := Decide(s.store, f, e.now, reconciled);
        System(r.0, r.1 == Integrity, e.now)
    case Cover(start, end, invalid) => System(InstallCoverage(s.store, start, end, invalid), s.integrity, e.now)
  }

  ghost predicate IsRun(es: seq<Timed>)
    decreases |es|, 1
  {
    es == [] || (IsRun(es[..|es| - 1]) && Enabled(Run(es[..|es| - 1]), es[|es| - 1]))
  }

  ghost function Run(es: seq<Timed>): System
    decreases |es|, 0
  {
    if es == [] then System(EmptyStore, false, 0) else Step(Run(es[..|es| - 1]), es[|es| - 1])
  }

  lemma CoverHolds(s: Store, start: int, end: int, invalid: Option<int>, clock: int)
    requires Holds(s, clock)
    ensures Holds(InstallCoverage(s, start, end, invalid), clock)
  {
    var t := InstallCoverage(s, start, end, invalid);
    assert TailHolds(t, clock) && BitsHold(t, clock);
  }

  /** Over every run of bars and coverage installations the state stays sound: in particular proven absence never
      overlaps presence, tail or conflict. */
  lemma {:induction false} RunHolds(es: seq<Timed>)
    requires IsRun(es)
    ensures Holds(Run(es).store, Run(es).clock)
    decreases |es|
  {
    if es == [] {
      assert FoldedHolds(EmptyStore);
    } else {
      var rest, e := es[..|es| - 1], es[|es| - 1];
      RunHolds(rest);
      var s := Run(rest);
      ClockAdvances(s.store, s.clock, e.now);
      match e.event
      case Consume(f, reconciled) => DecideHolds(s.store, f, e.now, reconciled);
      case Cover(start, end, invalid) => CoverHolds(s.store, start, end, invalid, e.now);
    }
  }

  /** The facts a run delivered for one second, in order. */
  function FactsFor(es: seq<Timed>, w: int): seq<Fact> {
    if es == [] then []
    else
      var before, e := FactsFor(es[..|es| - 1], w), es[|es| - 1].event;
      if e.Consume? && e.fact.start == w then before + [e.fact] else before
  }

  /** Projection: while nothing clashed, a second still inside the horizon holds exactly what the merge rule makes of
      that second's own facts, in their order, whatever else the run delivered, folded or covered. */
  lemma {:induction false} RunProjects(es: seq<Timed>, w: int)
    requires IsRun(es) && !Run(es).integrity && !Expired(Run(es).clock, w)
    ensures DeliverAll(FactsFor(es, w)) == Outcome(CellAt(Run(es).store, w), false)
    decreases |es|
  {
    if es != [] {
      var rest, e := es[..|es| - 1], es[|es| - 1];
      RunProjects(rest, w);
      RunHolds(rest);
      var s := Run(rest);
      ClockAdvances(s.store, s.clock, e.now);
      if e.event.Consume? {
        var f := e.event.fact;
        if f.start == w {
          DecideMerges(s.store, f, e.now, e.event.reconciled);
          assert FactsFor(es, w)[..|FactsFor(es, w)| - 1] == FactsFor(rest, w);
        } else {
          DecideLeaves(s.store, f, e.now, e.event.reconciled, w);
        }
      }
    }
  }

  lemma {:induction false} FactsForOneSecond(es: seq<Timed>, w: int)
    ensures OneSecond(FactsOf(FactsFor(es, w)), w)
    decreases |es|
  {
    if es != [] { FactsForOneSecond(es[..|es| - 1], w); }
  }

  /** Merge convergence over whole runs: two runs that deliver the same facts for a second, in any orders and among any
      other traffic, agree on that second's value, authority, greatest live position and conflict bit; and what they
      agree on is what the facts determine. */
  lemma RunsConverge(first: seq<Timed>, second: seq<Timed>, w: int)
    requires IsRun(first) && !Run(first).integrity && !Expired(Run(first).clock, w)
    requires IsRun(second) && !Run(second).integrity && !Expired(Run(second).clock, w)
    requires FactsOf(FactsFor(first, w)) == FactsOf(FactsFor(second, w))
    requires Consistent(FactsOf(FactsFor(first, w)))
    ensures CellAt(Run(first).store, w) == CellAt(Run(second).store, w)
    ensures Determines(FactsOf(FactsFor(first, w)), CellAt(Run(first).store, w))
  {
    RunProjects(first, w);
    RunProjects(second, w);
    FactsForOneSecond(first, w);
    MergeConverges(FactsFor(first, w), FactsFor(second, w), w);
  }

  /** Over every run, exact evidence never contradicts itself: no second is both proven absent and present, held in
      the tail or in conflict. */
  lemma AbsenceStaysApart(es: seq<Timed>, w: int)
    requires IsRun(es) && w in Run(es).store.bits.provenAbsent
    ensures w !in Run(es).store.tail && w !in Run(es).store.bits.presence && w !in Run(es).store.bits.conflict
  {
    RunHolds(es);
  }

  /** What is known of a session second, tested in the engine's order. */
  datatype CoverageClass = UnknownSecond | PresentSecond | AbsentSecond | ConflictSecond

  /** A second is taken as present when the tail has it or either mark is of it. */
  predicate PresentAt(s: Store, at: int) {
    || at in s.tail
    || (s.marks.latest.Some? && s.marks.latest.value.start == at)
    || (s.marks.older.Some? && s.marks.older.value.start == at)
  }

  function ClassAt(s: Store, sessionStart: int, at: int): CoverageClass {
    if !(sessionStart <= at < sessionStart + SESSION_SECONDS) then UnknownSecond
    else if at in s.bits.conflict then ConflictSecond
    else if PresentAt(s, at) || at in s.bits.presence then PresentSecond
    else if at in s.bits.provenAbsent then AbsentSecond
    else UnknownSecond
  }

  /** The older mark is of a second that is present, or that a contradiction has since put in conflict. */
  ghost predicate OlderHeld(s: Store) {
    s.marks.older.Some? ==> s.marks.older.value.start in s.bits.presence + s.bits.conflict
  }

  lemma {:induction false} CompactKeepsOlder(s: Store, now: int)
    requires (forall k :: k in s.tail ==> s.tail[k].start == k) && OlderHeld(s)
    ensures OlderHeld(Compact(s, now))
    decreases |s.tail.Keys|
  {
    if exists k :: IsLeast(s.tail.Keys, k) && Expired(now, k) {
      var least :| IsLeast(s.tail.Keys, least) && Expired(now, least)
                   && Compact(s, now) == Compact(FoldOut(s, least), now);
      assert (s.tail - {least}).Keys == s.tail.Keys - {least};
      CompactKeepsOlder(FoldOut(s, least), now);
    }
  }

  lemma InstallKeepsOlder(s: Store, f: Fact, now: int)
    requires (forall k :: k in s.tail ==> s.tail[k].start == k) && OlderHeld(s)
    requires OlderPlaced(Install(s, f, now), now)
    ensures OlderHeld(Install(s, f, now))
  {
    hide Compact;
    CompactKeepsOlder(s, now);
  }

  lemma WithdrawKeepsOlder(s: Store, existing: Record)
    requires OlderHeld(s)
    ensures OlderHeld(WithdrawHistorical(s, existing))
  {}

  /** What is withdrawn for integrity was in the tail, so it is not the second of the older mark. */
  lemma IntegrityKeepsOlder(s: Store, start: int, clock: int)
    requires OlderHeld(s) && OlderPlaced(s, clock) && start in s.tail
    ensures OlderHeld(WithdrawIntegrity(s, start))
  {}

  lemma DecideKeepsOlder(s: Store, f: Fact, now: int, reconciled: Option<Values>)
    requires Holds(s, now) && Admissible(f, now) && OlderHeld(s)
    ensures OlderHeld(Decide(s, f, now, reconciled).0)
  {
    var r := Decide(s, f, now, reconciled);
    DecideHolds(s, f, now, reconciled);
    if r.1 == Inserted || r.1 == Revised {
      AcceptedInstalls(s, f, now, reconciled);
      hide Decide;
      InstallKeepsOlder(s, f, now);
    } else if r.1 == Withdrawn {
      hide WithdrawHistorical;
      WithdrawKeepsOlder(s, Find(s, f.start).record);
    } else if r.1 == Integrity {
      hide WithdrawIntegrity;
      IntegrityKeepsOlder(s, f.start, now);
    }
  }

  lemma {:induction false} RunKeepsOlder(es: seq<Timed>)
    requires IsRun(es)
    ensures OlderHeld(Run(es).store)
    decreases |es|
  {
    if es != [] {
      var rest, e := es[..|es| - 1], es[|es| - 1];
      RunKeepsOlder(rest);
      RunHolds(rest);
      var s := Run(rest);
      ClockAdvances(s.store, s.clock, e.now);
      if e.event.Consume? { DecideKeepsOlder(s.store, e.event.fact, e.now, e.event.reconciled); }
    }
  }

  /** Compaction never changes what is known of a second. */
  lemma CompactKeepsClass(s: Store, now: int, sessionStart: int, at: int)
    requires forall k :: k in s.tail ==> s.tail[k].start == k
    requires OlderHeld(s)
    ensures ClassAt(Compact(s, now), sessionStart, at) == ClassAt(s, sessionStart, at)
  {
    CompactCompacts(s, now);
    CompactKeepsOlder(s, now);
  }

  /** Over every run the class of a session second is present exactly when a bar of that second is held, in the tail or
      folded, and the order of the tests does not matter. */
  lemma ClassOverRuns(es: seq<Timed>, sessionStart: int, at: int)
    requires IsRun(es) && sessionStart <= at < sessionStart + SESSION_SECONDS
    ensures var s, known := Run(es).store, ClassAt(Run(es).store, sessionStart, at);
            && (known == PresentSecond <==> (at in s.tail || exists i :: FoldedIndex(s.folded, i, at)))
            && (known == AbsentSecond <==> at in s.bits.provenAbsent)
            && (known == ConflictSecond <==> at in s.bits.conflict)
  {
    RunHolds(es);
    RunKeepsOlder(es);
  }

  /** Over every run, the delivery-order mark is a bar still held, and while no withdrawal has left the prefix unsure
      no bar held, folded or not, starts later. */
  lemma LatestOverRuns(es: seq<Timed>)
    requires IsRun(es)
    ensures var s := Run(es).store;
            && (s.marks.latest.Some? ==> var m := s.marks.latest.value.start; m in s.tail || m in s.bits.presence)
            && (forall k :: k in s.tail ==> s.marks.latest.Some? && k <= s.marks.latest.value.start)
            && (!s.marks.prefixLatest.uncertain ==>
                  forall k :: k in s.bits.presence ==> s.marks.latest.Some? && k <= s.marks.latest.value.start)
  {
    RunHolds(es);
  }
}
