/** Session bitmaps: one bit for each second of the session, 64 to a word.  A word is the set of its bit positions, so
    `|`, `&` and `&^` are union, intersection and difference. */
module SlotBitmaps {
  import opened SessionUnits

  const WORDS: int := 900

  type Word = w: set<int> | forall i :: i in w ==> 0 <= i < 64
  type Bitmap = b: seq<Word> | |b| == WORDS witness EmptyBitmap

  const FullWord: Word := set i: int | 0 <= i < 64 :: i

  const EmptyWord: Word := {}
  const EmptyBitmap: seq<Word> := seq(WORDS, _ => EmptyWord)
  const FullBitmap: seq<Word> := seq(WORDS, _ => FullWord)

  predicate InSession(slot: int) {
    0 <= slot < SESSION_SECONDS
  }

  predicate Has(b: Bitmap, slot: int)
    requires InSession(slot)
  {
    slot % 64 in b[slot / 64]
  }

  function Set(b: Bitmap, slot: int): Bitmap
    requires InSession(slot)
  {
    b[slot / 64 := b[slot / 64] + {slot % 64}]
  }

  function Clear(b: Bitmap, slot: int): Bitmap
    requires InSession(slot)
  {
    b[slot / 64 := b[slot / 64] - {slot % 64}]
  }

  lemma SetHas(b: Bitmap, slot: int, other: int)
    requires InSession(slot) && InSession(other)
    ensures Has(Set(b, slot), other) <==> other == slot || Has(b, other)
    ensures Has(Clear(b, slot), other) <==> other != slot && Has(b, other)
  {}

  /** The run of the n lowest bits: one shifted left n places, less one. */
  function Below(n: int): Word
    requires n <= 64
  {
    set i | i in FullWord && i < n
  }

  /** The bits of one word that a slot range covers, by the code's two masks. */
  function SlotRangeWordMask(word: int, startSlot: int, endSlot: int): Word {
    var wordStart := word * 64;
    var from := if startSlot - wordStart > 0 then startSlot - wordStart else 0;
    var through := if endSlot - wordStart < 64 then endSlot - wordStart else 64;
    if from >= through then {}
    else (if through < 64 then Below(through) else FullWord) - (if from > 0 then Below(from) else {})
  }

  /** The mask holds exactly the range's slots of that word. */
  lemma MaskIsRange(word: int, startSlot: int, endSlot: int, i: int)
    ensures i in SlotRangeWordMask(word, startSlot, endSlot) <==> 0 <= i < 64 && startSlot <= word * 64 + i < endSlot
  {}

  /** A presence bitmap says which seconds a set of starts occupies. */
  ghost predicate Marks(b: Bitmap, sessionStart: int, starts: set<int>) {
    forall slot :: InSession(slot) ==> (Has(b, slot) <==> sessionStart + slot in starts)
  }

  lemma SetMarks(b: Bitmap, sessionStart: int, starts: set<int>, start: int)
    requires Marks(b, sessionStart, starts) && InSession(start - sessionStart)
    ensures Marks(Set(b, start - sessionStart), sessionStart, starts + {start})
  {
    forall slot | InSession(slot)
      ensures Has(Set(b, start - sessionStart), slot) <==> sessionStart + slot in starts + {start}
    {
      SetHas(b, start - sessionStart, slot);
    }
  }

  lemma ClearMarks(b: Bitmap, sessionStart: int, starts: set<int>, start: int)
    requires Marks(b, sessionStart, starts) && InSession(start - sessionStart)
    ensures Marks(Clear(b, start - sessionStart), sessionStart, starts - {start})
  {
    forall slot | InSession(slot)
      ensures Has(Clear(b, start - sessionStart), slot) <==> sessionStart + slot in starts - {start}
    {
      SetHas(b, start - sessionStart, slot);
    }
  }

  /** The guard is the presence bitmap's complement, word by word. */
  ghost predicate Guards(guard: Bitmap, b: Bitmap) {
    forall w :: 0 <= w < WORDS ==> guard[w] == FullWord - b[w]
  }

  function GuardWord(guard: Bitmap, b: Bitmap, slot: int): Bitmap
    requires InSession(slot)
  {
    guard[slot / 64 := FullWord - b[slot / 64]]
  }

  lemma SetGuards(guard: Bitmap, b: Bitmap, slot: int)
    requires Guards(guard, b) && InSession(slot)
    ensures Guards(GuardWord(guard, Set(b, slot), slot), Set(b, slot))
    ensures Guards(GuardWord(guard, Clear(b, slot), slot), Clear(b, slot))
  {}
}
