/** Exact coverage of an interval: the word-by-word query in its three forms, and the installation of proven absence.
    Each is proved against the pointwise reading, second by second. */
module ExactCoverage {
  import opened Options
  import opened SessionUnits
  import opened SlotBitmaps
  import opened CanonicalMerge
  import opened Intervals
  import opened TailIndexes

  const WINDOW_WORDS: int := 16

  /** The folded evidence: seconds in the prefix, seconds proven absent, seconds in historical conflict. */
  datatype Evidence = Evidence(presence: Bitmap, provenAbsent: Bitmap, conflict: Bitmap)

  /** The transition-local copy of the tail's bits: sixteen words from a base word on. */
  datatype TailWindow = TailWindow(baseWord: int, tailCount: nat, words: seq<Word>, valid: bool)

  /** A record stands for a second only under that second's own key. */
  predicate InTail(tail: map<int, Record>, sessionStart: int, slot: int) {
    sessionStart + slot in tail && tail[sessionStart + slot].start == sessionStart + slot
  }

  /** One second is exactly covered: not in conflict, and folded, in the tail or proven absent. */
  predicate Covered(e: Evidence, tail: map<int, Record>, sessionStart: int, slot: int)
    requires InSession(slot)
  {
    && !Has(e.conflict, slot)
    && (InTail(tail, sessionStart, slot) || Has(e.presence, slot) || Has(e.provenAbsent, slot))
  }

  ghost predicate AllCovered(e: Evidence, tail: map<int, Record>, sessionStart: int, startSlot: int, endSlot: int)
    requires 0 <= startSlot <= endSlot <= SESSION_SECONDS
  {
    forall slot :: startSlot <= slot < endSlot ==> Covered(e, tail, sessionStart, slot)
  }

  predicate WindowHas(w: TailWindow, slot: int)
    requires |w.words| == WINDOW_WORDS && InSession(slot)
  {
    var index := slot / 64 - w.baseWord;
    0 <= index < WINDOW_WORDS && slot % 64 in w.words[index]
  }

  /** The window says what the tail says. */
  ghost predicate WindowRight(w: TailWindow, tail: map<int, Record>, sessionStart: int)
    requires |w.words| == WINDOW_WORDS
  {
    && w.valid && w.tailCount == |tail|
    && forall slot :: InSession(slot) ==> (WindowHas(w, slot) <==> InTail(tail, sessionStart, slot))
  }

  /** The slots of one word that some word of bits stands for are exactly the tail's. */
  ghost predicate WordRight(bits: Word, word: int, tail: map<int, Record>, sessionStart: int)
    requires 0 <= word < WORDS
  {
    forall i :: 0 <= i < 64 ==> (i in bits <==> InTail(tail, sessionStart, word * 64 + i))
  }

  /** The coverage of the slots a mask requires of one word. */
  ghost predicate WordCovered(e: Evidence, tail: map<int, Record>, sessionStart: int, word: int, required: Word)
    requires 0 <= word < WORDS
  {
    forall i :: i in required ==> Covered(e, tail, sessionStart, word * 64 + i)
  }

  lemma CoveredBit(e: Evidence, tail: map<int, Record>, sessionStart: int, word: int, i: int)
    requires 0 <= word < WORDS && 0 <= i < 64
    ensures Covered(e, tail, sessionStart, word * 64 + i)
       <==> && i !in e.conflict[word]
            && (InTail(tail, sessionStart, word * 64 + i) || i in e.presence[word] || i in e.provenAbsent[word])
  {
    assert (word * 64 + i) / 64 == word && (word * 64 + i) % 64 == i;
  }

  /** With the tail's bits at hand a word is covered exactly when nothing required is in conflict or missing. */
  lemma WordByBits(e: Evidence, tail: map<int, Record>, sessionStart: int, word: int, required: Word, bits: Word)
    requires 0 <= word < WORDS && WordRight(bits, word, tail, sessionStart)
    ensures WordCovered(e, tail, sessionStart, word, required)
       <==> e.conflict[word] * required == {}
            && required - (bits + e.presence[word] + e.provenAbsent[word]) == {}
  {
    forall i | i in required
      ensures Covered(e, tail, sessionStart, word * 64 + i)
         <==> i !in e.conflict[word] * required && i !in required - (bits + e.presence[word] + e.provenAbsent[word])
    {
      CoveredBit(e, tail, sessionStart, word, i);
    }
    if WordCovered(e, tail, sessionStart, word, required) {
      assert forall i :: i !in e.conflict[word] * required;
      assert forall i :: i !in required - (bits + e.presence[word] + e.provenAbsent[word]);
    }
  }

  /** The lowest bit of a word. */
  method TrailingZeros(word: Word) returns (i: int)
    requires word != {}
    ensures i in word && forall j :: j in word ==> i <= j
  {
    i := 0;
    if !exists k :: k in word { assert false; }
    while i !in word
      invariant 0 <= i <= 64 && forall j :: j in word ==> i <= j
      decreases 64 - i
    {
      i := i + 1;
      assert i < 64 by {
        var k :| k in word;
        assert i <= k;
      }
    }
  }

  /** The sparse form: looks up each missing second in the tail map, lowest bit first. */
  method SparseWord(e: Evidence, tail: map<int, Record>, sessionStart: int, word: int, required: Word)
    returns (covered: bool)
    requires 0 <= word < WORDS && e.conflict[word] * required == {}
    ensures covered <==> WordCovered(e, tail, sessionStart, word, required)
  {
    var missing := required - (e.presence[word] + e.provenAbsent[word]);
    forall i | i in required - missing ensures Covered(e, tail, sessionStart, word * 64 + i) {
      CoveredBit(e, tail, sessionStart, word, i);
      assert i !in e.conflict[word] * required;
    }
    while missing != {}
      invariant missing <= required
      invariant forall i :: i in required - missing ==> Covered(e, tail, sessionStart, word * 64 + i)
      invariant forall i :: i in missing ==> i !in e.presence[word] && i !in e.provenAbsent[word]
      decreases missing
    {
      var i := TrailingZeros(missing);
      CoveredBit(e, tail, sessionStart, word, i);
      if !InTail(tail, sessionStart, word * 64 + i) {
        return false;
      }
      assert i !in e.conflict[word] * required;
      assert Covered(e, tail, sessionStart, word * 64 + i);
      ghost var before := missing;
      missing := missing - {i};
      assert forall j :: j in required - missing ==> j == i || j in required - before;
    }
    assert forall i :: i in required ==> i in required - missing;
    return true;
  }

  /** The ranges of the words from a slot on, put together. */
  ghost predicate CoveredThrough(e: Evidence, tail: map<int, Record>, sessionStart: int, startSlot: int, endSlot: int,
                                 word: int)
    requires 0 <= startSlot <= endSlot <= SESSION_SECONDS
  {
    forall slot :: startSlot <= slot < endSlot && slot < word * 64 ==> Covered(e, tail, sessionStart, slot)
  }

  lemma WordCoversMore(e: Evidence, tail: map<int, Record>, sessionStart: int, startSlot: int, endSlot: int, word: int,
                       slot: int)
    requires 0 <= startSlot <= slot < endSlot <= SESSION_SECONDS && 0 <= word < WORDS
    requires word * 64 <= slot < word * 64 + 64
    requires WordCovered(e, tail, sessionStart, word, SlotRangeWordMask(word, startSlot, endSlot))
    ensures Covered(e, tail, sessionStart, slot)
  {
    var i := slot - word * 64;
    MaskIsRange(word, startSlot, endSlot, i);
    assert Covered(e, tail, sessionStart, word * 64 + i);
  }

  lemma WordFromCover(e: Evidence, tail: map<int, Record>, sessionStart: int, startSlot: int, endSlot: int, word: int)
    requires 0 <= startSlot < endSlot <= SESSION_SECONDS && 0 <= word < WORDS
    requires CoveredThrough(e, tail, sessionStart, startSlot, endSlot, word + 1)
    ensures WordCovered(e, tail, sessionStart, word, SlotRangeWordMask(word, startSlot, endSlot))
  {
    var required := SlotRangeWordMask(word, startSlot, endSlot);
    forall i | i in required ensures Covered(e, tail, sessionStart, word * 64 + i) {
      MaskIsRange(word, startSlot, endSlot, i);
    }
  }

  lemma OneWordMore(e: Evidence, tail: map<int, Record>, sessionStart: int, startSlot: int, endSlot: int, word: int)
    requires 0 <= startSlot < endSlot <= SESSION_SECONDS && 0 <= word < WORDS
    requires CoveredThrough(e, tail, sessionStart, startSlot, endSlot, word)
    ensures CoveredThrough(e, tail, sessionStart, startSlot, endSlot, word + 1)
       <==> WordCovered(e, tail, sessionStart, word, SlotRangeWordMask(word, startSlot, endSlot))
  {
    if WordCovered(e, tail, sessionStart, word, SlotRangeWordMask(word, startSlot, endSlot)) {
      forall slot | startSlot <= slot < endSlot && slot < (word + 1) * 64
        ensures Covered(e, tail, sessionStart, slot)
      {
        if slot >= word * 64 { WordCoversMore(e, tail, sessionStart, startSlot, endSlot, word, slot); }
      }
    }
    if CoveredThrough(e, tail, sessionStart, startSlot, endSlot, word + 1) {
      WordFromCover(e, tail, sessionStart, startSlot, endSlot, word);
    }
  }

  /** The index's own consistency flags, as the query checks them before it trusts the bitmap. */
  predicate IndexUsable(index: TailIndex)
    reads index
  {
    && index.valid && index.indexRevision == index.revision && |index.tail| == |index.order|
    && index.count == |index.tail|
  }

  /** A word of the bitmap against its guard: the two differ in every bit. */
  predicate Guarded(index: TailIndex, word: int)
    requires 0 <= word < WORDS
    reads index
  {
    (index.presence[word] - index.guard[word]) + (index.guard[word] - index.presence[word]) == FullWord
  }

  /** What the checks stand for: with clean flags, a word that its guard confirms is what the tail says. */
  ghost predicate GuardedRight(index: TailIndex)
    reads index
  {
    IndexUsable(index) ==>
      forall w :: 0 <= w < WORDS && Guarded(index, w) ==>
        WordRight(index.presence[w], w, index.tail, index.sessionStart)
  }

  lemma ComplementDiffers(bits: Word, guard: Word)
    requires guard == FullWord - bits
    ensures (bits - guard) + (guard - bits) == FullWord
  {
    forall i ensures i in (bits - guard) + (guard - bits) <==> i in FullWord {
      if i in bits { assert i in FullWord; }
    }
  }

  lemma AgreesIsUsable(index: TailIndex)
    requires index.Agrees()
    ensures IndexUsable(index) && GuardedRight(index) && forall w :: 0 <= w < WORDS ==> Guarded(index, w)
  {
    ListsCount(index.order, index.tail.Keys);
    forall w | 0 <= w < WORDS
      ensures Guarded(index, w) && WordRight(index.presence[w], w, index.tail, index.sessionStart)
    {
      IndexWordRight(index, w);
      ComplementDiffers(index.presence[w], index.guard[w]);
    }
  }

  lemma IndexWordRight(index: TailIndex, word: int)
    requires index.Agrees() && 0 <= word < WORDS
    ensures WordRight(index.presence[word], word, index.tail, index.sessionStart)
  {
    forall i | 0 <= i < 64
      ensures i in index.presence[word] <==> InTail(index.tail, index.sessionStart, word * 64 + i)
    {
      assert (word * 64 + i) / 64 == word && (word * 64 + i) % 64 == i;
      assert Has(index.presence, word * 64 + i) <==> index.sessionStart + (word * 64 + i) in index.tail.Keys;
    }
  }

  function WindowWord(w: TailWindow, word: int): Word
    requires |w.words| == WINDOW_WORDS
  {
    var at := word - w.baseWord;
    if 0 <= at < WINDOW_WORDS then w.words[at] else {}
  }

  lemma WindowWordRight(w: TailWindow, tail: map<int, Record>, sessionStart: int, word: int)
    requires |w.words| == WINDOW_WORDS && WindowRight(w, tail, sessionStart) && 0 <= word < WORDS
    ensures WordRight(WindowWord(w, word), word, tail, sessionStart)
  {
    forall i | 0 <= i < 64
      ensures i in WindowWord(w, word) <==> InTail(tail, sessionStart, word * 64 + i)
    {
      assert (word * 64 + i) / 64 == word && (word * 64 + i) % 64 == i;
      assert WindowHas(w, word * 64 + i) <==> InTail(tail, sessionStart, word * 64 + i);
    }
  }

  /** Which of the three forms answers. */
  datatype Form = Indexed | Windowed(window: TailWindow) | Sparse {
    ghost predicate Right(index: TailIndex)
      reads index
    {
      match this
      case Indexed => index.Agrees()
      case Windowed(w) => |w.words| == WINDOW_WORDS && WindowRight(w, index.tail, index.sessionStart)
      case Sparse => true
    }

    /** The tests of one word's source, made before it is trusted. */
    predicate Usable(index: TailIndex, word: int)
      requires 0 <= word < WORDS
      reads index
    {
      match this
      case Indexed => IndexUsable(index) && Guarded(index, word)
      case Windowed(w) => w.valid && |index.tail| == w.tailCount
      case Sparse => true
    }

    /** What those tests stand for. */
    ghost predicate Trusted(index: TailIndex)
      reads index
    {
      match this
      case Indexed => GuardedRight(index)
      case Windowed(w) =>
        && |w.words| == WINDOW_WORDS
        && (w.valid && |index.tail| == w.tailCount ==> WindowRight(w, index.tail, index.sessionStart))
      case Sparse => true
    }
  }

  lemma RightIsUsable(form: Form, index: TailIndex)
    requires form.Right(index)
    ensures form.Trusted(index) && forall w :: 0 <= w < WORDS ==> form.Usable(index, w)
  {
    if form.Indexed? { AgreesIsUsable(index); }
  }

  /** One word of the query. */
  method WordQuery(e: Evidence, index: TailIndex, form: Form, word: int, required: Word) returns (covered: bool)
    requires 0 <= word < WORDS && form.Trusted(index)
    ensures covered <==> form.Usable(index, word) && WordCovered(e, index.tail, index.sessionStart, word, required)
  {
    if e.conflict[word] * required != {} {
      ConflictUncovers(e, index.tail, index.sessionStart, word, required);
      return false;
    }
    match form
    case Indexed =>
      if !IndexUsable(index) {
        return false;
      }
      if (index.presence[word] - index.guard[word]) + (index.guard[word] - index.presence[word]) != FullWord {
        return false;
      }
      assert Guarded(index, word);
      WordByBits(e, index.tail, index.sessionStart, word, required, index.presence[word]);
      return required - (index.presence[word] + e.presence[word] + e.provenAbsent[word]) == {};
    case Windowed(w) =>
      if !w.valid || |index.tail| != w.tailCount {
        return false;
      }
      WindowWordRight(w, index.tail, index.sessionStart, word);
      WordByBits(e, index.tail, index.sessionStart, word, required, WindowWord(w, word));
      return required - (WindowWord(w, word) + e.presence[word] + e.provenAbsent[word]) == {};
    case Sparse =>
      covered := SparseWord(e, index.tail, index.sessionStart, word, required);
  }

  lemma ConflictUncovers(e: Evidence, tail: map<int, Record>, sessionStart: int, word: int, required: Word)
    requires 0 <= word < WORDS && e.conflict[word] * required != {}
    ensures !WordCovered(e, tail, sessionStart, word, required)
  {
    if !exists k :: k in e.conflict[word] * required { assert false; }
    var i :| i in e.conflict[word] * required;
    CoveredBit(e, tail, sessionStart, word, i);
  }

  /** Every word an interval touches comes from a source that passed its tests. */
  predicate AllUsable(form: Form, index: TailIndex, startSlot: int, endSlot: int)
    requires 0 <= startSlot && endSlot <= SESSION_SECONDS
    reads index
  {
    forall w :: startSlot / 64 <= w <= (endSlot - 1) / 64 ==> form.Usable(index, w)
  }

  /** The query: in each of its three forms it answers exactly whether every second of [start, end) is covered, and
      false where a stale index, a broken guard or a stale window is met.  An index or window that is right is never
      refused (`RightIsUsable`). */
  method ExactAggregateCoverage(e: Evidence, index: TailIndex, form: Form, start: int, end: int) returns (ok: bool)
    requires form.Trusted(index)
    ensures ok <==> && index.sessionStart <= start <= end <= index.sessionStart + SESSION_SECONDS
                    && (start < end ==>
                          AllUsable(form, index, start - index.sessionStart, end - index.sessionStart))
                    && AllCovered(e, index.tail, index.sessionStart, start - index.sessionStart,
                                  end - index.sessionStart)
  {
    if start < index.sessionStart || end > index.sessionStart + SESSION_SECONDS || start > end {
      return false;
    }
    var startSlot, endSlot := start - index.sessionStart, end - index.sessionStart;
    if startSlot == endSlot {
      return true;
    }
    var word := startSlot / 64;
    while word <= (endSlot - 1) / 64
      invariant startSlot / 64 <= word <= (endSlot - 1) / 64 + 1
      invariant forall w :: startSlot / 64 <= w < word ==> form.Usable(index, w)
      invariant CoveredThrough(e, index.tail, index.sessionStart, startSlot, endSlot, word)
    {
      OneWordMore(e, index.tail, index.sessionStart, startSlot, endSlot, word);
      var covered := WordQuery(e, index, form, word, SlotRangeWordMask(word, startSlot, endSlot));
      if !covered {
        return false;
      }
      word := word + 1;
    }
    return true;
  }

  // --------------------------------------------------------------------------------------- the window of the tail

  /** A 961-second span touches at most sixteen words. */
  lemma SpanFitsWindow(first: int, latest: int, slot: int)
    requires 0 <= first <= slot <= latest && latest - first <= MAXIMUM_TAIL_RECORDS - 1
    ensures 0 <= slot / 64 - first / 64 < WINDOW_WORDS
  {}

  ghost predicate Placed(tail: map<int, Record>, sessionStart: int, key: int)
    requires key in tail
  {
    tail[key].start == key && InSession(key - sessionStart)
  }

  /** The window's bits stand for the tail records seen so far. */
  ghost predicate WindowSeen(w: TailWindow, sessionStart: int, seen: set<int>)
    requires |w.words| == WINDOW_WORDS
  {
    forall slot :: InSession(slot) ==> (WindowHas(w, slot) <==> sessionStart + slot in seen)
  }

  predicate WindowReaches(w: TailWindow, slot: int) {
    0 <= slot / 64 - w.baseWord < WINDOW_WORDS
  }

  function WindowWith(w: TailWindow, slot: int): TailWindow
    requires |w.words| == WINDOW_WORDS && WindowReaches(w, slot)
  {
    var at := slot / 64 - w.baseWord;
    w.(words := w.words[at := w.words[at] + {slot % 64}])
  }

  lemma WindowSet(w: TailWindow, sessionStart: int, seen: set<int>, slot: int)
    requires |w.words| == WINDOW_WORDS && WindowSeen(w, sessionStart, seen) && InSession(slot) && WindowReaches(w, slot)
    ensures WindowSeen(WindowWith(w, slot), sessionStart, seen + {sessionStart + slot})
  {}

  /** Well-placed records within 961 seconds of the delivery-order mark. */
  ghost predicate Fits(tail: map<int, Record>, sessionStart: int, latest: Option<Record>) {
    tail != map[] ==>
      && latest.Some? && InSession(latest.value.start - sessionStart)
      && forall k :: k in tail ==>
           && Placed(tail, sessionStart, k)
           && latest.value.start - (MAXIMUM_TAIL_RECORDS - 1) <= k <= latest.value.start
  }

  datatype Fill = Fitted | Misplaced | TooWide

  /** Inside the span every slot is inside the window. */
  lemma SpanReaches(w: TailWindow, firstSlot: int, latestSlot: int, slot: int)
    requires 0 <= firstSlot <= slot <= latestSlot && latestSlot - firstSlot <= MAXIMUM_TAIL_RECORDS - 1
    requires w.baseWord == firstSlot / 64
    ensures WindowReaches(w, slot)
  {
    SpanFitsWindow(firstSlot, latestSlot, slot);
  }

  /** Places one record in the window, if it is well placed and inside the span. */
  method PlaceRecord(w0: TailWindow, record: Record, key: int, sessionStart: int, firstSlot: int, latestSlot: int,
                     ghost seen: set<int>)
    returns (fill: Fill, w: TailWindow)
    requires 0 <= firstSlot <= latestSlot && latestSlot - firstSlot <= MAXIMUM_TAIL_RECORDS - 1
    requires |w0.words| == WINDOW_WORDS && w0.baseWord == firstSlot / 64 && WindowSeen(w0, sessionStart, seen)
    ensures |w.words| == WINDOW_WORDS && w == w0.(words := w.words)
    ensures fill.Fitted? ==> record.start == key && InSession(key - sessionStart)
    ensures fill.Fitted? ==> WindowSeen(w, sessionStart, seen + {key})
    ensures fill.Misplaced? ==> !(record.start == key && InSession(key - sessionStart))
    ensures fill.TooWide? ==> !(firstSlot <= key - sessionStart <= latestSlot)
  {
    w := w0;
    if record.start != key || !InSession(key - sessionStart) { return Misplaced, w; }
    var slot := key - sessionStart;
    if slot < firstSlot || slot > latestSlot { return TooWide, w; }
    SpanReaches(w, firstSlot, latestSlot, slot);
    WindowSet(w, sessionStart, seen, slot);
    w := WindowWith(w, slot);
    fill := Fitted;
  }

  lemma EmptyWindowSeen(w: TailWindow, sessionStart: int)
    requires |w.words| == WINDOW_WORDS && forall i :: 0 <= i < WINDOW_WORDS ==> w.words[i] == EmptyWord
    ensures WindowSeen(w, sessionStart, {})
  {}

  /** The pass over the tail. */
  method FillWindow(tail: map<int, Record>, sessionStart: int, firstSlot: int, latestSlot: int)
    returns (fill: Fill, w: TailWindow, ghost bad: int)
    requires 0 <= firstSlot <= latestSlot && latestSlot - firstSlot <= MAXIMUM_TAIL_RECORDS - 1
    ensures |w.words| == WINDOW_WORDS && w.valid && w.tailCount == |tail|
    ensures fill.Fitted? ==> WindowSeen(w, sessionStart, tail.Keys)
    ensures fill.Fitted? ==> forall k :: k in tail ==> Placed(tail, sessionStart, k)
    ensures fill.Misplaced? ==> bad in tail && !Placed(tail, sessionStart, bad)
    ensures fill.TooWide? ==> bad in tail && !(firstSlot <= bad - sessionStart <= latestSlot)
  {
    w := TailWindow(firstSlot / 64, |tail|, seq(WINDOW_WORDS, _ => EmptyWord), true);
    EmptyWindowSeen(w, sessionStart);
    fill, bad := Fitted, 0;
    var left := tail.Keys;
    ghost var seen: set<int> := {};
    while left != {}
      invariant forall k :: k in tail <==> k in left || k in seen
      invariant forall k :: k in seen ==> Placed(tail, sessionStart, k)
      invariant |w.words| == WINDOW_WORDS && w.valid && w.baseWord == firstSlot / 64 && w.tailCount == |tail|
      invariant fill.Fitted? && WindowSeen(w, sessionStart, seen)
      decreases left
    {
      var key := Pick(left);
      fill, w := PlaceRecord(w, tail[key], key, sessionStart, firstSlot, latestSlot, seen);
      if !fill.Fitted? { return fill, w, key; }
      left := left - {key};
      seen := seen + {key};
    }
    assert forall k :: k in tail <==> k in seen;
    assert seen == tail.Keys;
  }

  /** Builds the window from the tail.  A misplaced record or mark makes it invalid; a tail wider than the window makes
      it unusable; otherwise it is right. */
  method BuildTailWindow(tail: map<int, Record>, sessionStart: int, latest: Option<Record>)
    returns (usable: bool, w: TailWindow)
    ensures |w.words| == WINDOW_WORDS
    ensures usable && w.valid ==> WindowRight(w, tail, sessionStart)
    ensures Fits(tail, sessionStart, latest) ==> usable && w.valid
  {
    w := TailWindow(0, |tail|, seq(WINDOW_WORDS, _ => EmptyWord), true);
    if |tail| == 0 {
      assert tail == map[];
      return true, w;
    }
    if latest.None? || !InSession(latest.value.start - sessionStart) {
      return true, w.(valid := false);
    }
    var latestSlot := latest.value.start - sessionStart;
    var firstSlot := if latestSlot - (MAXIMUM_TAIL_RECORDS - 1) > 0 then latestSlot - (MAXIMUM_TAIL_RECORDS - 1) else 0;
    var fill: Fill;
    ghost var bad: int;
    fill, w, bad := FillWindow(tail, sessionStart, firstSlot, latestSlot);
    match fill
    case Fitted => return true, w;
    case Misplaced => return true, w.(valid := false);
    case TooWide => return false, w;
  }

  // ------------------------------------------------------------------------------------------------- installation

  /** The excluded invalid second, when the interval has it. */
  predicate Excluded(invalid: Option<int>, sessionStart: int, slot: int) {
    invalid == Some(sessionStart + slot)
  }

  /** What the word pass makes of one second: everything in range that is neither folded, in conflict nor excluded. */
  ghost predicate Filled(e: Evidence, sessionStart: int, startSlot: int, endSlot: int, invalid: Option<int>, slot: int)
    requires InSession(slot)
  {
    || Has(e.provenAbsent, slot)
    || (startSlot <= slot < endSlot && !Has(e.presence, slot) && !Has(e.conflict, slot)
        && !Excluded(invalid, sessionStart, slot))
  }

  /** What an installation leaves proven absent, second by second. */
  ghost predicate Installed(e: Evidence, absent: Bitmap, tail: map<int, Record>, sessionStart: int,
                            startSlot: int, endSlot: int, invalid: Option<int>)
  {
    forall slot :: InSession(slot) ==>
      (Has(absent, slot) <==>
         && Filled(e, sessionStart, startSlot, endSlot, invalid, slot)
         && !(startSlot <= slot < endSlot && sessionStart + slot in tail))
  }

  /** The bits an installation adds to one word. */
  function InstallMask(e: Evidence, sessionStart: int, startSlot: int, endSlot: int, invalid: Option<int>,
                       word: int): Word
    requires 0 <= word < WORDS
  {
    var mask := SlotRangeWordMask(word, startSlot, endSlot) - e.presence[word] - e.conflict[word];
    if invalid.Some? && startSlot <= invalid.value - sessionStart < endSlot
       && (invalid.value - sessionStart) / 64 == word
    then mask - {(invalid.value - sessionStart) % 64} else mask
  }

  lemma MaskFills(e: Evidence, sessionStart: int, startSlot: int, endSlot: int, invalid: Option<int>, slot: int)
    requires InSession(slot) && 0 <= startSlot <= endSlot <= SESSION_SECONDS
    ensures slot % 64 in e.provenAbsent[slot / 64]
                         + InstallMask(e, sessionStart, startSlot, endSlot, invalid, slot / 64)
       <==> Filled(e, sessionStart, startSlot, endSlot, invalid, slot)
  {
    MaskIsRange(slot / 64, startSlot, endSlot, slot % 64);
    assert slot / 64 * 64 + slot % 64 == slot;
  }

  ghost predicate FilledBelow(e: Evidence, absent: Bitmap, sessionStart: int, startSlot: int, endSlot: int,
                              invalid: Option<int>, word: int)
  {
    forall slot :: InSession(slot) ==>
      (Has(absent, slot) <==> if slot / 64 < word then Filled(e, sessionStart, startSlot, endSlot, invalid, slot)
                              else Has(e.provenAbsent, slot))
  }

  lemma FillOneWord(e: Evidence, absent: Bitmap, sessionStart: int, startSlot: int, endSlot: int, invalid: Option<int>,
                    word: int)
    requires 0 <= startSlot <= endSlot <= SESSION_SECONDS && 0 <= word < WORDS
    requires FilledBelow(e, absent, sessionStart, startSlot, endSlot, invalid, word)
    requires absent[word] == e.provenAbsent[word]
    ensures var mask := InstallMask(e, sessionStart, startSlot, endSlot, invalid, word);
            FilledBelow(e, absent[word := absent[word] + mask], sessionStart, startSlot, endSlot, invalid, word + 1)
  {
    var mask := InstallMask(e, sessionStart, startSlot, endSlot, invalid, word);
    var after := absent[word := absent[word] + mask];
    forall slot | InSession(slot)
      ensures Has(after, slot) <==> if slot / 64 < word + 1
                                    then Filled(e, sessionStart, startSlot, endSlot, invalid, slot)
                                    else Has(e.provenAbsent, slot)
    {
      if slot / 64 == word {
        MaskFills(e, sessionStart, startSlot, endSlot, invalid, slot);
      } else {
        assert Has(after, slot) <==> Has(absent, slot);
      }
    }
  }

  /** The word pass. */
  method FillWords(e: Evidence, sessionStart: int, startSlot: int, endSlot: int, invalid: Option<int>)
    returns (absent: Bitmap)
    requires 0 <= startSlot < endSlot <= SESSION_SECONDS
    ensures forall slot :: InSession(slot) ==>
      (Has(absent, slot) <==> Filled(e, sessionStart, startSlot, endSlot, invalid, slot))
  {
    absent := e.provenAbsent;
    var word := startSlot / 64;
    while word <= (endSlot - 1) / 64
      invariant startSlot / 64 <= word <= (endSlot - 1) / 64 + 1
      invariant FilledBelow(e, absent, sessionStart, startSlot, endSlot, invalid, word)
      invariant forall w :: word <= w < WORDS ==> absent[w] == e.provenAbsent[w]
    {
      FillOneWord(e, absent, sessionStart, startSlot, endSlot, invalid, word);
      absent := absent[word := absent[word] + InstallMask(e, sessionStart, startSlot, endSlot, invalid, word)];
      word := word + 1;
    }
  }

  /** Takes the tail's seconds back out of an installed interval. */
  method ClearTail(filled: Bitmap, tail: map<int, Record>, sessionStart: int, startSlot: int, endSlot: int)
    returns (absent: Bitmap)
    requires forall k :: k in tail ==> Placed(tail, sessionStart, k)
    ensures forall slot :: InSession(slot) ==>
      (Has(absent, slot) <==> Has(filled, slot) && !(startSlot <= slot < endSlot && sessionStart + slot in tail))
  {
    absent := filled;
    var left := tail.Keys;
    while left != {}
      invariant left <= tail.Keys
      invariant forall slot :: InSession(slot) ==>
        (Has(absent, slot) <==>
           Has(filled, slot) && !(startSlot <= slot < endSlot && sessionStart + slot in tail.Keys - left))
      decreases left
    {
      var key := Pick(left);
      var slot := tail[key].start - sessionStart;
      assert Placed(tail, sessionStart, key);
      ghost var before := absent;
      if startSlot <= slot < endSlot {
        absent := Clear(absent, slot);
      }
      forall other | InSession(other)
        ensures Has(absent, other) <==> Has(before, other) && !(startSlot <= other < endSlot && other == slot)
      {
        SetHas(before, slot, other);
      }
      left := left - {key};
    }
  }

  /** Installs the consequence of one exact interval. */
  method InstallExactCoverage(e: Evidence, tail: map<int, Record>, sessionStart: int, start: int, end: int,
                              invalid: Option<int>) returns (ok: bool, absent: Bitmap)
    requires forall k :: k in tail ==> Placed(tail, sessionStart, k)
    ensures ok <==> sessionStart <= start <= end <= sessionStart + SESSION_SECONDS
    ensures if ok && start < end
            then Installed(e, absent, tail, sessionStart, start - sessionStart, end - sessionStart, invalid)
            else absent == e.provenAbsent
  {
    absent := e.provenAbsent;
    if start < sessionStart || end > sessionStart + SESSION_SECONDS || start > end {
      return false, absent;
    }
    if start == end {
      return true, absent;
    }
    absent := FillWords(e, sessionStart, start - sessionStart, end - sessionStart, invalid);
    absent := ClearTail(absent, tail, sessionStart, start - sessionStart, end - sessionStart);
    return true, absent;
  }

  /** After an installation an interval is exactly covered if and only if no second of it is in conflict and the
      excluded invalid second, if the interval has it, was covered already. */
  lemma InstallThenCovered(e: Evidence, absent: Bitmap, tail: map<int, Record>, sessionStart: int,
                           startSlot: int, endSlot: int, invalid: Option<int>)
    requires 0 <= startSlot < endSlot <= SESSION_SECONDS
    requires forall k :: k in tail ==> Placed(tail, sessionStart, k)
    requires Installed(e, absent, tail, sessionStart, startSlot, endSlot, invalid)
    ensures AllCovered(e.(provenAbsent := absent), tail, sessionStart, startSlot, endSlot)
       <==> forall slot :: startSlot <= slot < endSlot ==>
              !Has(e.conflict, slot) && (Excluded(invalid, sessionStart, slot) ==> Covered(e, tail, sessionStart, slot))
  {
    var after := e.(provenAbsent := absent);
    forall slot | startSlot <= slot < endSlot
      ensures Covered(after, tail, sessionStart, slot) <==>
        !Has(e.conflict, slot) && (Excluded(invalid, sessionStart, slot) ==> Covered(e, tail, sessionStart, slot))
    {
      assert sessionStart + slot in tail ==> Placed(tail, sessionStart, sessionStart + slot);
      assert Has(absent, slot) <==> Filled(e, sessionStart, startSlot, endSlot, invalid, slot)
                                    && sessionStart + slot !in tail;
    }
  }

  /** Evidence that does not contradict itself. */
  ghost predicate Apart(e: Evidence, tail: map<int, Record>, sessionStart: int) {
    forall slot :: InSession(slot) && Has(e.provenAbsent, slot) ==>
      !Has(e.presence, slot) && !Has(e.conflict, slot) && sessionStart + slot !in tail
  }

  /** An installation keeps proven absence apart from presence, conflict and the tail. */
  lemma InstallStaysApart(e: Evidence, absent: Bitmap, tail: map<int, Record>, sessionStart: int,
                          startSlot: int, endSlot: int, invalid: Option<int>)
    requires Apart(e, tail, sessionStart) && Installed(e, absent, tail, sessionStart, startSlot, endSlot, invalid)
    ensures Apart(e.(provenAbsent := absent), tail, sessionStart)
  {}
}
