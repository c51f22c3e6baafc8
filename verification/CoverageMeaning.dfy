/** What the tests of an exact coverage query are, told by single bits and single seconds. */
module CoverageMeaning {
  import opened SessionUnits
  import opened SlotBitmaps
  import opened CanonicalMerge
  import opened TailIndexes
  import opened ExactCoverage

  /** A second is covered when it is in no conflict and some source has it: the prefix, proven absence, or a tail record
      that stands for it under its own key. */
  lemma SecondMeans(e: Evidence, tail: map<int, Record>, sessionStart: int, slot: int)
    requires InSession(slot)
    ensures Covered(e, tail, sessionStart, slot)
       <==> var at, word, bit := sessionStart + slot, slot / 64, slot % 64;
            && bit !in e.conflict[word]
            && (bit in e.presence[word] || bit in e.provenAbsent[word] || (at in tail && tail[at].start == at))
  {}

  /** A word of the index counts only while the index is valid, of the current revision and as large as the tail and
      its list, and while every bit of the word is the opposite of its guard; a window only while it is valid and as
      large as the tail; the tail itself always. */
  lemma UsableMeans(form: Form, index: TailIndex, word: int)
    requires 0 <= word < WORDS
    ensures form.Usable(index, word)
       <==> match form
            case Indexed =>
              && index.valid && index.revision == index.indexRevision
              && |index.order| == |index.tail| && |index.tail| == index.count
              && forall bit :: 0 <= bit < 64 ==> (bit in index.guard[word] <==> bit !in index.presence[word])
            case Windowed(w) => w.valid && w.tailCount == |index.tail|
            case Sparse => true
  {
    var p, g := index.presence[word], index.guard[word];
    if Guarded(index, word) {
      forall bit | 0 <= bit < 64 ensures bit in g <==> bit !in p {
        assert bit in FullWord;
        assert bit in (p - g) + (g - p);
      }
    }
    if forall bit :: 0 <= bit < 64 ==> (bit in g <==> bit !in p) {
      forall bit ensures bit in (p - g) + (g - p) <==> bit in FullWord {
        if bit in p { assert bit in FullWord; }
        if bit in g { assert bit in FullWord; }
      }
      assert (p - g) + (g - p) == FullWord;
    }
  }

  /** The words an interval touches are those of its seconds. */
  lemma AllUsableMeans(form: Form, index: TailIndex, startSlot: int, endSlot: int)
    requires 0 <= startSlot < endSlot <= SESSION_SECONDS
    ensures AllUsable(form, index, startSlot, endSlot)
       <==> forall slot :: startSlot <= slot < endSlot ==> form.Usable(index, slot / 64)
  {
    if forall slot :: startSlot <= slot < endSlot ==> form.Usable(index, slot / 64) {
      forall w | startSlot / 64 <= w <= (endSlot - 1) / 64 ensures form.Usable(index, w) {
        var slot := if w * 64 < startSlot then startSlot else w * 64;
        assert slot / 64 == w && startSlot <= slot < endSlot;
        assert form.Usable(index, slot / 64);
      }
    }
  }
}
