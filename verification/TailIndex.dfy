/** The mutable correction tail and the derived index over it: the sorted start list, and a presence bitmap kept
    beside its complement.  Put, delete and rebuild keep all of them in agreement with the tail map. */
module TailIndexes {
  import opened Intervals
  import opened SlotBitmaps
  import opened CanonicalMerge

  ghost predicate Sorted(order: seq<int>) {
    forall i, j :: 0 <= i < j < |order| ==> order[i] < order[j]
  }

  /** The sorted list names exactly the keys. */
  ghost predicate Lists(order: seq<int>, keys: set<int>) {
    Sorted(order) && (forall k :: k in keys <==> k in order)
  }

  lemma {:induction false} ListsCount(order: seq<int>, keys: set<int>)
    requires Lists(order, keys)
    ensures |order| == |keys|
    decreases |order|
  {
    if order == [] {
      forall k ensures k !in keys { assert k !in order; }
    } else {
      var last := order[|order| - 1];
      assert order == order[..|order| - 1] + [last];
      forall k ensures k in keys - {last} <==> k in order[..|order| - 1] {}
      ListsCount(order[..|order| - 1], keys - {last});
    }
  }

  /** Binary search for the first entry at or above a start. */
  method Search(order: seq<int>, start: int) returns (index: nat)
    requires Sorted(order)
    ensures Separates(order, index, start)
  {
    var low, high := 0, |order|;
    while low < high
      invariant 0 <= low <= high <= |order|
      invariant forall i :: 0 <= i < low ==> order[i] < start
      invariant forall i :: high <= i < |order| ==> order[i] >= start
    {
      var mid := (low + high) / 2;
      if order[mid] < start {
        low := mid + 1;
      } else {
        high := mid;
      }
    }
    index := low;
  }

  ghost predicate Separates(order: seq<int>, index: int, start: int) {
    && 0 <= index <= |order|
    && (forall i :: 0 <= i < index ==> order[i] < start)
    && (forall i :: index <= i < |order| ==> order[i] >= start)
  }

  lemma InsertSorts(order: seq<int>, index: int, start: int)
    requires Sorted(order) && start !in order && Separates(order, index, start)
    ensures Sorted(order[..index] + [start] + order[index..])
  {
    var result := order[..index] + [start] + order[index..];
    assert forall i :: index <= i < |order| ==> order[i] in order;
    forall i, j | 0 <= i < j < |result| ensures result[i] < result[j] {
      assert result[i] == if i < index then order[i] else if i == index then start else order[i - 1];
      assert result[j] == if j < index then order[j] else if j == index then start else order[j - 1];
    }
  }

  lemma InsertLists(order: seq<int>, keys: set<int>, index: int, start: int)
    requires Lists(order, keys) && start !in keys && Separates(order, index, start)
    ensures Lists(order[..index] + [start] + order[index..], keys + {start})
  {
    InsertSorts(order, index, start);
    InsertMembers(order, index, start);
  }

  lemma InsertMembers(order: seq<int>, index: int, start: int)
    requires 0 <= index <= |order|
    ensures forall k :: k in order[..index] + [start] + order[index..] <==> k == start || k in order
  {
    assert order == order[..index] + order[index..];
  }

  lemma RemoveLists(order: seq<int>, keys: set<int>, index: int, start: int)
    requires Lists(order, keys) && 0 <= index < |order| && order[index] == start
    ensures Lists(order[..index] + order[index + 1..], keys - {start})
  {
    var result := order[..index] + order[index + 1..];
    assert forall i :: 0 <= i < |result| ==> result[i] == order[if i < index then i else i + 1];
    forall k ensures k in keys - {start} <==> k in result {
      if k in keys && k != start {
        var i :| 0 <= i < |order| && order[i] == k;
        assert result[if i < index then i else i - 1] == k;
      }
    }
  }

  class TailIndex {
    const sessionStart: int
    var tail: map<int, Record>
    var order: seq<int>
    var presence: Bitmap
    var guard: Bitmap
    var count: int
    var revision: nat
    var indexRevision: nat
    var built: bool
    var valid: bool

    function Slot(start: int): int
    {
      start - sessionStart
    }

    /** A record that stands under its own start, inside the session. */
    predicate Placed(key: int)
      requires key in tail
      reads `tail
    {
      tail[key].start == key && InSession(Slot(key))
    }

    /** Every record is well placed. */
    ghost predicate Keyed()
      reads this
    {
      forall k :: k in tail ==> Placed(k)
    }

    ghost function PlacedKeys(): set<int>
      reads `tail
    {
      set k | k in tail && Placed(k)
    }

    /** List, count, bitmap and complement all stand for one set of starts. */
    ghost predicate Indexes(starts: set<int>)
      reads this
    {
      Lists(order, starts) && count == |starts| && Marks(presence, sessionStart, starts) && Guards(guard, presence)
    }

    /** The index says what the tail says. */
    ghost predicate Agrees()
      reads this
    {
      built && valid && indexRevision == revision && Keyed() && Indexes(tail.Keys)
    }

    lemma KeyedTail()
      requires Agrees()
      ensures forall k :: k in tail ==> tail[k].start == k
    {}

    constructor (sessionStart: int)
      ensures Agrees() && tail == map[] && this.sessionStart == sessionStart
    {
      this.sessionStart := sessionStart;
      tail, order, count := map[], [], 0;
      presence, guard := EmptyBitmap, FullBitmap;
      revision, indexRevision, built, valid := 0, 0, true, true;
    }

    /** Files a start in the sorted list unless it is there already. */
    method FileStart(start: int, ghost starts: set<int>) returns (added: bool)
      requires Lists(order, starts)
      modifies this`order
      ensures Lists(order, starts + {start}) && added == (start !in starts)
    {
      var index := Search(order, start);
      added := index == |order| || order[index] != start;
      if added {
        assert start !in order;
        InsertLists(order, starts, index, start);
        order := order[..index] + [start] + order[index..];
      } else {
        assert starts + {start} == starts by { assert order[index] in order; }
      }
    }

    method AddStart(start: int, ghost starts: set<int>)
      requires Lists(order, starts) && count == |starts|
      modifies this`order, this`count
      ensures Lists(order, starts + {start}) && count == |starts + {start}|
    {
      var added := FileStart(start, starts);
      if added {
        count := count + 1;
      } else {
        assert starts + {start} == starts;
      }
    }

    method RemoveStart(start: int, ghost starts: set<int>)
      requires Lists(order, starts) && start in starts && count == |starts|
      modifies this`order, this`count
      ensures Lists(order, starts - {start}) && count == |starts - {start}|
    {
      var index := Search(order, start);
      assert start in order;
      RemoveLists(order, starts, index, start);
      if index == 0 {
        assert order[..index] + order[index + 1..] == order[1..];
        order := order[1..];
      } else {
        order := order[..index] + order[index + 1..];
      }
      count := count - 1;
    }

    /** Brings one more start into the index. */
    method AddToIndex(start: int, ghost starts: set<int>)
      requires Indexes(starts) && InSession(Slot(start))
      modifies this`order, this`count, this`presence, this`guard
      ensures Indexes(starts + {start})
    {
      AddStart(start, starts);
      SetGuards(guard, presence, Slot(start));
      SetMarks(presence, sessionStart, starts, start);
      presence := Set(presence, Slot(start));
      guard := GuardWord(guard, presence, Slot(start));
    }

    method RemoveFromIndex(start: int, ghost starts: set<int>)
      requires Indexes(starts) && start in starts && InSession(Slot(start))
      modifies this`order, this`count, this`presence, this`guard
      ensures Indexes(starts - {start})
    {
      RemoveStart(start, starts);
      SetGuards(guard, presence, Slot(start));
      ClearMarks(presence, sessionStart, starts, start);
      presence := Clear(presence, Slot(start));
      guard := GuardWord(guard, presence, Slot(start));
    }

    method Revise()
      modifies this`revision, this`indexRevision
      ensures revision == indexRevision == old(revision) + 1
    {
      revision := revision + 1;
      indexRevision := revision;
    }

    /** Files a record that belongs to the session. */
    method PutInside(record: Record)
      requires Agrees() && InSession(Slot(record.start))
      modifies this
      ensures tail == old(tail)[record.start := record] && Agrees() && revision == old(revision) + 1
    {
      var start := record.start;
      assert tail[start := record].Keys == tail.Keys + {start};
      Revise();
      AddToIndex(start, tail.Keys);
      tail := tail[start := record];
    }

    /** Adds or replaces one record; a start outside the session spoils the index instead of misplacing a bit. */
    method Put(record: Record)
      requires Agrees()
      modifies this
      ensures tail == old(tail)[record.start := record] && revision == old(revision) + 1
      ensures if InSession(Slot(record.start)) then Agrees() else !valid
    {
      if InSession(Slot(record.start)) {
        PutInside(record);
      } else {
        Revise();
        AddStart(record.start, tail.Keys);
        valid := false;
        tail := tail[record.start := record];
      }
    }

    /** Removes one record; a start the tail lacks changes nothing. */
    method Delete(start: int)
      requires Agrees()
      modifies this
      ensures Agrees() && tail == old(tail) - {start}
      ensures revision == old(revision) + if start in old(tail) then 1 else 0
    {
      if start !in tail {
        assert tail - {start} == tail;
        return;
      }
      ghost var starts := tail.Keys;
      assert (tail - {start}).Keys == starts - {start};
      revision := revision + 1;
      RemoveFromIndex(start, starts);
      indexRevision := revision;
      tail := tail - {start};
    }

    method ClearIndex()
      modifies this`order, this`count, this`presence, this`guard
      ensures Indexes({})
    {
      order, presence, guard, count := [], EmptyBitmap, FullBitmap, 0;
    }

    /** The bits, the guard and the count of a start that is well placed. */
    method MarkStart(start: int, ghost starts: set<int>)
      requires Marks(presence, sessionStart, starts) && Guards(guard, presence) && count == |starts|
      requires start !in starts && InSession(Slot(start))
      modifies this`count, this`presence, this`guard
      ensures Marks(presence, sessionStart, starts + {start}) && Guards(guard, presence)
      ensures count == |starts + {start}|
    {
      SetGuards(guard, presence, Slot(start));
      SetMarks(presence, sessionStart, starts, start);
      presence := Set(presence, Slot(start));
      guard := GuardWord(guard, presence, Slot(start));
      count := count + 1;
    }

    /** What a rebuild has indexed: the list of the keys seen, the bits and the count of those placed. */
    ghost predicate Indexed(done: set<int>, placed: set<int>)
      reads this
    {
      && Lists(order, done) && Marks(presence, sessionStart, placed) && count == |placed| && Guards(guard, presence)
    }

    method IndexKey(key: int, ghost done: set<int>, ghost placed: set<int>)
      requires Indexed(done, placed) && placed <= done && key in tail && key !in done
      modifies this`order, this`count, this`presence, this`guard, this`valid
      ensures Indexed(done + {key}, if Placed(key) then placed + {key} else placed)
      ensures valid == (old(valid) && Placed(key))
    {
      hide Lists, Marks, Guards;
      var _ := FileStart(key, done);
      if Placed(key) {
        MarkStart(key, placed);
      } else {
        valid := false;
      }
    }

    /** The pass over the tail map, in any order. */
    method IndexAll()
      requires Indexed({}, {}) && valid
      modifies this`order, this`count, this`presence, this`guard, this`valid
      ensures Indexed(tail.Keys, PlacedKeys()) && (valid <==> PlacedKeys() == tail.Keys)
    {
      hide TailIndex.Indexed;
      var left := tail.Keys;
      ghost var done, placed: set<int> := {}, {};
      while left != {}
        invariant left <= tail.Keys && done == tail.Keys - left && Indexed(done, placed)
        invariant placed == done * PlacedKeys() && (valid <==> placed == done)
        decreases left
      {
        var key := Pick(left);
        IndexKey(key, done, placed);
        if Placed(key) { placed := placed + {key}; }
        left := left - {key};
        done := done + {key};
      }
      assert done == tail.Keys && placed == PlacedKeys();
    }

    lemma IndexedMeans()
      requires Indexed(tail.Keys, PlacedKeys()) && (valid <==> PlacedKeys() == tail.Keys)
      ensures (valid <==> Keyed()) && (valid ==> Indexes(tail.Keys))
    {
      hide Lists, Marks, Guards;
      assert Keyed() ==> PlacedKeys() == tail.Keys;
    }

    /** Rebuilds the index.  The list names every key; bits and count stand for the well-placed records, and a single
        misplaced one leaves the index unusable. */
    method Rebuild()
      modifies this
      ensures tail == old(tail) && built && indexRevision == revision && Indexed(tail.Keys, PlacedKeys())
      ensures valid <==> Keyed()
      ensures valid ==> Agrees()
    {
      hide Lists, Marks, Guards;
      ClearIndex();
      valid, built := true, true;
      IndexAll();
      indexRevision := revision;
      IndexedMeans();
    }
  }
}
