/** The canonical aggregate state as it runs: fields updated in place over the indexed tail.  Every method does to the
    state exactly what its counterpart in `AggregateStore` says. */
module SymbolAggregateStates {
  import opened LivePositions
  import opened Options
  import opened SessionUnits
  import opened CanonicalMerge
  import opened Model = AggregateStore
  import opened Intervals
  import opened TailIndexes
  import P = AggregatePrefixes

  class SymbolAggregates {
    const index: TailIndex
    var presence: set<int>
    var sealedLive: set<int>
    var provenAbsent: set<int>
    var conflict: set<int>
    var latest: Option<Record>
    var older: Option<Record>
    var prefixLatest: P.Latest
    var printCount: nat
    ghost var folded: seq<Record>

    ghost function Abs(): Store
      reads this, index
    {
      Store(index.tail, Bits(presence, sealedLive, provenAbsent, conflict), Marks(latest, older, prefixLatest), folded)
    }

    ghost predicate Valid()
      reads this, index
    {
      index.Agrees() && printCount == |folded|
    }

    predicate InsideSession(start: int) {
      index.sessionStart <= start < index.sessionStart + SESSION_SECONDS
    }

    constructor (sessionStart: int)
      ensures Valid() && fresh(index) && Abs() == EmptyStore && index.sessionStart == sessionStart
    {
      index := new TailIndex(sessionStart);
      presence, sealedLive, provenAbsent, conflict := {}, {}, {}, {};
      latest, older, prefixLatest := None, None, P.Latest(None, 0, false, false, false);
      printCount, folded := 0, [];
    }

    method FindRecord(start: int) returns (found: Found)
      requires Valid()
      ensures found == Find(Abs(), start)
    {
      if start in index.tail {
        return Found(index.tail[start], InTail);
      }
      if latest.Some? && latest.value.start == start {
        return Found(latest.value, InLatest);
      }
      if older.Some? && older.value.start == start {
        return Found(older.value, InOlder);
      }
      return Missing;
    }

    method SealRecord(record: Record)
      modifies this`presence, this`sealedLive
      ensures presence == old(presence) + {record.start}
      ensures sealedLive == if record.authority.Live? then old(sealedLive) + {record.start} else old(sealedLive)
    {
      presence := presence + {record.start};
      if record.authority.Live? {
        sealedLive := sealedLive + {record.start};
      }
    }

    method FoldPrefix(record: Record)
      requires printCount == |folded|
      modifies this`prefixLatest, this`printCount, this`folded
      ensures printCount == |folded|
      ensures prefixLatest == old(prefixLatest).Fold(old(folded) == [], record) && folded == old(folded) + [record]
    {
      prefixLatest := prefixLatest.Fold(printCount == 0, record);
      printCount := printCount + 1;
      folded := folded + [record];
    }

    method ConsiderOlderMark(record: Record)
      modifies this`older
      ensures older == ConsiderOlder(old(older), record)
    {
      if older.None? || record.start > older.value.start {
        older := Some(record);
      }
    }

    method FoldRecord(start: int)
      requires Valid() && start in index.tail && index.tail[start].start == start
      modifies this, index
      ensures Valid() && Abs() == FoldOut(old(Abs()), start)
    {
      var record := index.tail[start];
      index.Delete(start);
      SealRecord(record);
      FoldPrefix(record);
      ConsiderOlderMark(record);
    }

    /** Folds the oldest record, if it is expired. */
    method FoldOldest(now: int) returns (more: bool)
      requires Valid() && |index.order| != 0
      modifies this, index
      ensures Valid() && Compact(Abs(), now) == Compact(old(Abs()), now)
      ensures if more then |index.tail.Keys| < old(|index.tail.Keys|)
              else Abs() == old(Abs()) && Compact(Abs(), now) == Abs()
    {
      var start := index.order[0];
      OldestFolds(index.order, Abs(), now);
      more := Expired(now, start);
      if more { FoldRecord(start); }
    }

    /** Folds the oldest record while it is expired. */
    method CompactTail(now: int)
      requires Valid()
      modifies this, index
      ensures Valid() && Abs() == Compact(old(Abs()), now)
    {
      var more := true;
      while |index.order| != 0 && more
        invariant Valid() && Compact(Abs(), now) == Compact(old(Abs()), now)
        invariant more || Compact(Abs(), now) == Abs()
        decreases |index.tail.Keys|, more
      {
        more := FoldOldest(now);
      }
      if more { NothingExpired(index.order, Abs(), now); }
    }

    method ConsiderMark(record: Record)
      modifies this`latest
      ensures latest == Consider(old(latest), record)
    {
      if latest.None? || record.start >= latest.value.start {
        latest := Some(record);
      }
    }

    method RecomputeMark()
      requires Valid()
      modifies this`latest
      ensures latest == RecomputeLatest(old(Abs()))
    {
      latest := None;
      if older.Some? && !prefixLatest.uncertain {
        ConsiderMark(older.value);
      }
      index.KeyedTail();
      latest := ConsiderTail(latest, index.tail);
    }

    /** A late historical row goes straight into the prefix. */
    method FoldHistorical(record: Record)
      requires Valid()
      modifies this
      ensures Valid() && Abs() == FoldDirect(old(Abs()), record)
    {
      presence := presence + {record.start};
      FoldPrefix(record);
      if !prefixLatest.uncertain {
        ConsiderOlderMark(record);
        ConsiderMark(record);
      }
    }

    method PutRecord(record: Record)
      requires Valid() && InsideSession(record.start)
      modifies this, index
      ensures Valid() && Abs() == PutTail(old(Abs()), record)
    {
      index.Put(record);
      ConsiderMark(record);
    }

    method CanonicalRecord(fact: Fact) returns (record: Record)
      requires Valid()
      ensures record == Canonical(Abs(), fact)
    {
      var support: Option<Position> := None;
      if fact.start in index.tail {
        support := index.tail[fact.start].greatest;
      } else if latest.Some? && latest.value.start == fact.start {
        support := latest.value.greatest;
      }
      if fact.source.Live? {
        support := Some(fact.source.position);
      }
      record := Record(fact.start, fact.values, fact.source, support);
    }

    method ClearBits(fact: Fact)
      modifies this`provenAbsent, this`conflict
      ensures Bits(presence, sealedLive, provenAbsent, conflict)
              == ClearAbsence(old(Bits(presence, sealedLive, provenAbsent, conflict)), fact)
    {
      provenAbsent := provenAbsent - {fact.start};
      if fact.source.Live? {
        conflict := conflict - {fact.start};
      }
    }

    /** Compacts, then installs the fact's record in the tail, or in the prefix when it is a late historical row. */
    method InstallFact(fact: Fact, now: int)
      requires Valid() && InsideSession(fact.start)
      modifies this, index
      ensures Valid() && Abs() == Install(old(Abs()), fact, now)
    {
      CompactTail(now);
      var record := CanonicalRecord(fact);
      ClearBits(fact);
      if fact.source.Historical? && Expired(now, fact.start) {
        FoldHistorical(record);
      } else {
        PutRecord(record);
      }
    }

    method ForgetLatest(start: int)
      requires Valid()
      modifies this
      ensures Valid() && Abs() == ForgetMark(old(Abs()), start)
    {
      if latest.Some? && latest.value.start == start {
        if older.Some? && older.value.start == start {
          older := None;
        }
        RecomputeMark();
      }
    }

    /** Takes a bar back out of the prefix it was folded into. */
    method UnfoldRecord(existing: Record)
      requires Valid() && exists i :: FoldedIndex(folded, i, existing.start)
      modifies this`prefixLatest, this`folded, this`printCount
      ensures Valid() && Abs() == Unfold(old(Abs()), existing)
    {
      ghost var unfolded := Unfold(Abs(), existing);
      prefixLatest := prefixLatest.Withdraw(existing);
      printCount := printCount - 1;
      folded := unfolded.folded;
    }

    method ContradictRecord(existing: Record)
      requires Valid()
      requires existing.start in presence ==> exists i :: FoldedIndex(folded, i, existing.start)
      modifies this, index
      ensures Valid() && Abs() == Contradict(old(Abs()), existing)
    {
      var start := existing.start;
      if start in presence && existing.authority.Historical? {
        UnfoldRecord(existing);
      }
      index.Delete(start);
      presence := presence - {start};
      conflict := conflict + {start};
      provenAbsent := provenAbsent - {start};
    }

    method WithdrawHistoricalRecord(existing: Record)
      requires Valid()
      requires existing.start in presence ==> exists i :: FoldedIndex(folded, i, existing.start)
      modifies this, index
      ensures Valid() && Abs() == WithdrawHistorical(old(Abs()), existing)
    {
      ContradictRecord(existing);
      ForgetLatest(existing.start);
    }

    method WithdrawForIntegrity(start: int)
      requires Valid()
      modifies this, index
      ensures Valid() && Abs() == WithdrawIntegrity(old(Abs()), start)
    {
      index.Delete(start);
      presence := presence - {start};
      ForgetLatest(start);
    }

    /** Lends a record the position of a live fact that repeats its values. */
    method TouchRecord(found: Found, position: Position)
      requires Valid() && found.Found? && found == Find(Abs(), found.record.start)
      requires found.place.InTail? ==> InsideSession(found.record.start)
      modifies this, index
      ensures Valid() && Abs() == Touch(old(Abs()), found, position)
    {
      var record := AdvanceLiveAuthority(found.record, position);
      if latest.Some? && latest.value.start == record.start {
        latest := Some(record);
      }
      match found.place {
        case InTail => index.Put(record);
        case InLatest =>
        case InOlder => older := Some(record);
      }
    }

    /** The decision every consumed bar goes through. */
    method DecideFact(fact: Fact, now: int, reconciled: Option<Values>) returns (disposition: Disposition)
      requires Valid() && InsideSession(fact.start) && Holds(Abs(), now)
      modifies this, index
      ensures Valid() && (Abs(), disposition) == Decide(old(Abs()), fact, now, reconciled)
    {
      var found := FindRecord(fact.start);
      var late := Expired(now, fact.start);
      if fact.source.Historical? && fact.start in sealedLive {
        return if reconciled == Some(fact.values) then ExactDuplicate else HistoricalLiveConflict;
      }
      if fact.source.Live? && late
         && (found.Missing? || (found.record.authority.Historical? && found.record.greatest.None?)) {
        return TooLate;
      }
      if found.Missing? {
        if fact.start in presence {
          return FencedContext;
        }
        if fact.source.Historical? && fact.start in conflict {
          return HistoricalHistoricalConflict;
        }
        InstallFact(fact, now);
        return Inserted;
      }
      if found.record.values == fact.values {
        if fact.source.Live? {
          TouchRecord(found, fact.source.position);
        }
        return ExactDuplicate;
      }
      if fact.source.Live? && late {
        return TooLate;
      }
      disposition := DecideUnequal(fact, now, found.record);
    }

    /** The fact contradicts the record it met and is not too late. */
    method DecideUnequal(fact: Fact, now: int, existing: Record) returns (disposition: Disposition)
      requires Valid() && InsideSession(fact.start) && Holds(Abs(), now) && existing.start == fact.start
      modifies this, index
      ensures Valid()
      ensures (Abs(), disposition) == Unequal(old(Abs()), fact, now, existing)
    {
      if fact.source.Live? {
        if existing.authority.Live? {
          var order := CompareLive(fact.source.position, existing.authority.position);
          if order < 0 {
            return Nonprecedent;
          }
          if order == 0 {
            WithdrawForIntegrity(fact.start);
            return Integrity;
          }
        }
        InstallFact(fact, now);
        return Revised;
      }
      if existing.authority.Live? {
        return HistoricalLiveConflict;
      }
      WithdrawHistoricalRecord(existing);
      return Withdrawn;
    }
  }

  /** Considers every tail record, whatever order the tail is read in. */
  method ConsiderTail(base: Option<Record>, tail: map<int, Record>) returns (mark: Option<Record>)
    requires forall k :: k in tail ==> tail[k].start == k
    ensures mark == ConsiderAll(base, tail, tail.Keys)
  {
    mark := base;
    var left := tail.Keys;
    ghost var seen: set<int> := {};
    while left != {}
      invariant left <= tail.Keys && seen == tail.Keys - left
      invariant mark == ConsiderAll(base, tail, seen)
      decreases left
    {
      var key := Pick(left);
      ConsiderOneMore(base, tail, seen, key);
      if mark.None? || tail[key].start >= mark.value.start {
        mark := Some(tail[key]);
      }
      left := left - {key};
      seen := seen + {key};
    }
    assert seen == tail.Keys;
  }

  lemma FirstIsLeast(order: seq<int>, keys: set<int>)
    requires Lists(order, keys) && order != []
    ensures IsLeast(keys, order[0])
  {
    assert order[0] in order;
  }

  /** The first of the order is the one to fold, if any is. */
  lemma OldestFolds(order: seq<int>, s: Store, now: int)
    requires Lists(order, s.tail.Keys) && order != []
    ensures order[0] in s.tail
    ensures Expired(now, order[0]) ==> Compact(s, now) == Compact(FoldOut(s, order[0]), now)
    ensures Expired(now, order[0]) ==> |FoldOut(s, order[0]).tail.Keys| < |s.tail.Keys|
    ensures !Expired(now, order[0]) ==> Compact(s, now) == s
  {
    var start := order[0];
    assert start in order;
    FirstIsLeast(order, s.tail.Keys);
    if Expired(now, start) {
      LeastUnique(s, now, start);
      assert (s.tail - {start}).Keys == s.tail.Keys - {start};
    } else {
      NothingExpired(order, s, now);
    }
  }

  lemma NothingExpired(order: seq<int>, s: Store, now: int)
    requires Lists(order, s.tail.Keys) && (order == [] || !Expired(now, order[0]))
    ensures Compact(s, now) == s
  {
    if least :| IsLeast(s.tail.Keys, least) && Expired(now, least) {
      assert least in order;
      FirstIsLeast(order, s.tail.Keys);
      assert false;
    }
  }

  lemma ConsiderOneMore(base: Option<Record>, tail: map<int, Record>, seen: set<int>, key: int)
    requires seen <= tail.Keys && key in tail && key !in seen && forall k :: k in tail ==> tail[k].start == k
    ensures ConsiderAll(base, tail, seen + {key}) == Consider(ConsiderAll(base, tail, seen), tail[key])
  {
    if seen == {} {
      assert IsGreatest(seen + {key}, key);
    } else {
      var g := GreatestExists(seen);
      assert IsGreatest(seen + {key}, if key > g then key else g);
    }
  }
}
