/** Every run of the live queue under its protocol: one decoder, one consumer that completes each popped entry
    before it pops the next, and one terminal, requested after the gate is closed. */
module LiveQueueRuns {
  import opened Options
  import opened LiveQueueModel

  datatype Event =
    | BeginDecodeEvent(epoch: nat, known: bool, receipt: Option<int>, encoded: int)
    | EnqueueDecodedEvent(epoch: nat, sequence: nat, receipt: Option<int>, encoded: int, batch: Batch)
    | EnqueueFenceEvent(kind: FenceKind, epoch: nat, now: int)
    | CanceledFenceEvent(epoch: nat, now: int)
    | CloseGateEvent
    | TerminalEvent(epoch: nat, through: Option<nat>)
    | PopEvent
    | CompleteEvent(fenced: bool)

  /** The queue together with what its two callers have seen: the sequences admitted, the entries popped, the
      entry the consumer holds, and whether and with which cutoff the terminal was requested. */
  datatype System = System(q: Queue, admitted: seq<nat>, popped: seq<Item>, held: Option<Item>,
                           terminal: bool, cutoff: Option<nat>)

  function Start(config: Config): System {
    System(NewQueue(config), [], [], None, false, None)
  }

  /** What the protocol lets happen next. */
  predicate Enabled(s: System, e: Event) {
    match e
    case TerminalEvent(_, _) => !s.q.gateOpen && !s.terminal
    case PopEvent => s.held.None?
    case CompleteEvent(_) => s.held.Some?
    case _ => true
  }

  function Step(s: System, e: Event): System
    requires s.q.config.Valid() && Enabled(s, e)
  {
    match e
    case BeginDecodeEvent(epoch, known, receipt, encoded) =>
      s.(q := BeginDecode(s.q, epoch, known, receipt, encoded).0)
    case EnqueueDecodedEvent(epoch, sequence, receipt, encoded, batch) =>
      var r := EnqueueDecoded(s.q, epoch, sequence, receipt, encoded, batch);
      s.(q := r.0, admitted := if r.1 == Admitted then s.admitted + [sequence] else s.admitted)
    case EnqueueFenceEvent(kind, epoch, now) => s.(q := EnqueueFence(s.q, kind, epoch, now).0)
    case CanceledFenceEvent(epoch, now) => s.(q := CanceledFence(s.q, epoch, now).0)
    case CloseGateEvent => s.(q := s.q.(gateOpen := false))
    case TerminalEvent(epoch, through) =>
      if |s.q.items| < s.q.config.RingEntries() && s.q.next != 0 then
        s.(q := EnqueueTerminal(s.q, epoch, through), terminal := true, cutoff := through)
      else s
    case PopEvent =>
      if s.q.items == [] then s
      else s.(q := Pop(s.q), popped := s.popped + [s.q.items[0]], held := Some(s.q.items[0]))
    case CompleteEvent(fenced) => s.(q := CompleteItem(s.q, s.held.value, fenced), held := None)
  }

  lemma StepKeepsConfig(s: System, e: Event)
    requires s.q.config.Valid() && Enabled(s, e)
    ensures Step(s, e).q.config == s.q.config
  {}

  /** A run, read from its last event back: each event is enabled where it happens. */
  ghost predicate IsRun(s: System, es: seq<Event>)
    requires s.q.config.Valid()
    decreases |es|, 0
  {
    if es == [] then true
    else
      var rest := es[..|es| - 1];
      IsRun(s, rest) && Enabled(Run(s, rest), es[|es| - 1])
  }

  /** The state a run ends in. */
  ghost function Run(s: System, es: seq<Event>): (t: System)
    requires s.q.config.Valid() && IsRun(s, es)
    ensures t.q.config == s.q.config
    decreases |es|, 1
  {
    if es == [] then s
    else
      var last := Run(s, es[..|es| - 1]);
      StepKeepsConfig(last, es[|es| - 1]);
      Step(last, es[|es| - 1])
  }

  // ---------------------------------------------------------------------------------------------- the ledger

  function Held(s: System, kind: ItemKind): int {
    if s.held.Some? && KindOf(s.held.value) == kind then 1 else 0
  }

  /** Each family's counter counts what is queued. */
  ghost predicate CountsQueued(q: Queue) {
    && q.ledger.frames.queued == Count(q.items, DecodedKind)
    && q.ledger.fences.queued == Count(q.items, FenceKindTag)
    && q.ledger.tq.queued == Count(q.items, TQKind)
    && q.ledger.terminal.queued == Count(q.items, TerminalKind)
    && q.bytes == q.ledger.queuedBytes == TotalCharge(q.items)
  }

  /** Each family's counter counts what the consumer holds. */
  ghost predicate CountsHeld(s: System) {
    && s.q.ledger.frames.classifying == Held(s, DecodedKind)
    && s.q.ledger.fences.classifying == Held(s, FenceKindTag)
    && s.q.ledger.tq.classifying == Held(s, TQKind)
    && s.q.ledger.terminal.classifying == Held(s, TerminalKind)
  }

  /** The flags beside the counters say the same. */
  ghost predicate FlagsAgree(s: System) {
    var l := s.q.ledger;
    && l.frames.decoding == (if s.q.decoding then 1 else 0)
    && l.tq.queued + l.tq.classifying == (if s.q.tqOutstanding then 1 else 0)
    && l.terminal.queued + l.terminal.classifying + l.terminal.dispositioned == (if s.terminal then 1 else 0)
    && 0 <= l.terminal.dispositioned
    && (s.terminal ==> !s.q.gateOpen)
  }

  /** The ledger agrees with what is actually queued and held, within the configured bounds. */
  ghost predicate LedgerHolds(s: System) {
    && s.q.config.Valid()
    && s.q.ledger.Reconciles()
    && CountsQueued(s.q)
    && CountsHeld(s)
    && FlagsAgree(s)
    && s.q.ledger.frames.queued <= s.q.config.DecodedSlots()
    && s.q.bytes <= s.q.config.DecodedBytes()
  }

  lemma {:induction false} CountAppend(items: seq<Item>, x: Item, kind: ItemKind)
    ensures Count(items + [x], kind) == Count(items, kind) + (if KindOf(x) == kind then 1 else 0)
  {
    if items == [] {
      assert [] + [x] == [x];
    } else {
      assert (items + [x])[1..] == items[1..] + [x];
      CountAppend(items[1..], x, kind);
    }
  }

  lemma {:induction false} ChargeAppend(items: seq<Item>, x: Item)
    ensures TotalCharge(items + [x]) == TotalCharge(items) + ChargeOf(x)
  {
    if items == [] {
      assert [] + [x] == [x];
    } else {
      assert (items + [x])[1..] == items[1..] + [x];
      ChargeAppend(items[1..], x);
    }
  }

  /** The four kinds partition the queue, so its length is the sum of the four counts. */
  lemma {:induction false} CountsMakeLength(items: seq<Item>)
    ensures |items| == Count(items, DecodedKind) + Count(items, FenceKindTag) + Count(items, TQKind)
                       + Count(items, TerminalKind)
  {
    if items != [] { CountsMakeLength(items[1..]); }
  }

  /** What one queued entry leaves behind when the terminal is enqueued. */
  ghost function Retained(item: Item, cutoff: Option<nat>): seq<Item> {
    SiftOne(Sifted([], 0, 0), item, cutoff).kept
  }

  /** The terminal's pass, read from the front. */
  ghost function Retain(items: seq<Item>, cutoff: Option<nat>): seq<Item> {
    if items == [] then [] else Retained(items[0], cutoff) + Retain(items[1..], cutoff)
  }

  lemma {:induction false} RetainAppend(items: seq<Item>, x: Item, cutoff: Option<nat>)
    ensures Retain(items + [x], cutoff) == Retain(items, cutoff) + Retained(x, cutoff)
  {
    if items == [] {
      assert [] + [x] == [x];
    } else {
      assert (items + [x])[1..] == items[1..] + [x];
      RetainAppend(items[1..], x, cutoff);
    }
  }

  /** The pass loses no entry: what it kept and what it dropped make up the queue. */
  lemma {:induction false} SiftAccounts(items: seq<Item>, cutoff: Option<nat>)
    ensures var s := Sift(items, cutoff);
            && s.kept == Retain(items, cutoff)
            && Count(items, DecodedKind) == Count(s.kept, DecodedKind) + s.frames
            && TotalCharge(items) == TotalCharge(s.kept) + s.charge
    decreases |items|
  {
    if items != [] {
      var rest, x := items[..|items| - 1], items[|items| - 1];
      assert items == rest + [x];
      SiftAccounts(rest, cutoff);
      RetainAppend(rest, x, cutoff);
      ChargeAppend(rest, x);
      CountAppend(rest, x, DecodedKind);
      var kept := Sift(rest, cutoff).kept;
      if Retained(x, cutoff) == [] {
        assert kept + [] == kept;
      } else {
        ChargeAppend(kept, Retained(x, cutoff)[0]);
        CountAppend(kept, Retained(x, cutoff)[0], DecodedKind);
      }
    }
  }

  /** It keeps every marker. */
  lemma {:induction false} SiftKeepsMarkers(items: seq<Item>, cutoff: Option<nat>, kind: ItemKind)
    requires kind != DecodedKind
    ensures Count(Sift(items, cutoff).kept, kind) == Count(items, kind)
    decreases |items|
  {
    if items != [] {
      var rest, x := items[..|items| - 1], items[|items| - 1];
      assert items == rest + [x];
      SiftKeepsMarkers(rest, cutoff, kind);
      CountAppend(rest, x, kind);
      if Retained(x, cutoff) != [] {
        CountAppend(Sift(rest, cutoff).kept, Retained(x, cutoff)[0], kind);
      }
    }
  }

  /** Without a cutoff it keeps nothing else. */
  lemma {:induction false} SiftDropsFrames(items: seq<Item>)
    ensures Count(Sift(items, None).kept, DecodedKind) == 0 && TotalCharge(Sift(items, None).kept) == 0
    decreases |items|
  {
    if items != [] {
      var rest, x := items[..|items| - 1], items[|items| - 1];
      SiftDropsFrames(rest);
      if Retained(x, None) != [] {
        CountAppend(Sift(rest, None).kept, Retained(x, None)[0], DecodedKind);
        ChargeAppend(Sift(rest, None).kept, Retained(x, None)[0]);
      }
    }
  }

  /** The ring is never full: its eight reserved entries hold the one fence, the one shed marker and the terminal. */
  lemma RingHasRoom(s: System)
    requires LedgerHolds(s)
    ensures |s.q.items| + 5 <= s.q.config.RingEntries()
  {
    CountsMakeLength(s.q.items);
  }

  lemma BeginKeepsLedger(s: System, epoch: nat, known: bool, receipt: Option<int>, encoded: int)
    requires LedgerHolds(s)
    ensures LedgerHolds(s.(q := BeginDecode(s.q, epoch, known, receipt, encoded).0))
  {
    var q := BeginDecode(s.q, epoch, known, receipt, encoded).0;
    assert q.ledger.Reconciles();
    assert CountsQueued(q) && CountsHeld(s.(q := q));
  }

  /** The ledger after a decode reservation is released and before its frame is accounted. */
  ghost predicate LedgerHoldsButOne(s: System) {
    LedgerHolds(s.(q := WithFrames(s.q, s.q.ledger.frames.(shed := s.q.ledger.frames.shed + 1))))
  }

  lemma ShedKeepsLedger(s: System, epoch: nat, sequence: nat, batch: Batch)
    requires LedgerHoldsButOne(s)
    ensures var shed := Shed(s.q, epoch, sequence, batch);
            shed.Some? ==> LedgerHolds(s.(q := shed.value))
  {
    var x := TQCapacity(epoch, sequence);
    ChargeAppend(s.q.items, x);
    forall k: ItemKind { CountAppend(s.q.items, x, k); }
  }

  lemma EnqueuedKeepsLedger(s: System, frame: Item)
    requires LedgerHoldsButOne(s) && frame.Decoded?
    requires s.q.ledger.frames.queued < s.q.config.DecodedSlots()
    requires s.q.bytes + frame.charge <= s.q.config.DecodedBytes()
    ensures LedgerHolds(s.(q := Enqueued(s.q, frame)))
  {
    ChargeAppend(s.q.items, frame);
    forall k: ItemKind { CountAppend(s.q.items, frame, k); }
  }

  lemma ReleasedHolds(s: System)
    requires LedgerHolds(s) && s.q.decoding
    ensures LedgerHoldsButOne(s.(q := Released(s.q)))
  {}

  /** A frame turned away is counted once, under one reason. */
  ghost predicate CountsOneMore(was: Rejections, r: Rejections) {
    || r == was.(gate := was.gate + 1)
    || r == was.(oversize := was.oversize + 1)
    || r == was.(capacity := was.capacity + 1, slot := was.slot + 1)
    || r == was.(capacity := was.capacity + 1, byte := was.byte + 1)
  }

  lemma RejectionKeepsLedger(s: System, r: Rejections)
    requires LedgerHoldsButOne(s)
    requires CountsOneMore(s.q.ledger.frames.rejected, r)
    ensures LedgerHolds(s.(q := WithFrames(s.q, s.q.ledger.frames.(rejected := r))))
  {}

  /** The three ways a released reservation is accounted. */
  lemma DecodedOutcome(q: Queue, epoch: nat, sequence: nat, receipt: Option<int>, encoded: int, batch: Batch)
    returns (r: Rejections)
    requires q.config.Valid() && q.decoding
    ensures var d := Released(q);
            var after := EnqueueDecoded(q, epoch, sequence, receipt, encoded, batch).0;
            || (CountsOneMore(d.ledger.frames.rejected, r)
                && after == WithFrames(d, d.ledger.frames.(rejected := r)))
            || Shed(d, epoch, sequence, batch) == Some(after)
            || (&& 0 <= batch.charge <= q.config.DecodedBytes() - q.bytes
                && d.ledger.frames.queued < q.config.DecodedSlots()
                && after == Enqueued(d, Decoded(epoch, sequence, receipt, batch.charge)))
  {
    r := EnqueueDecoded(q, epoch, sequence, receipt, encoded, batch).0.ledger.frames.rejected;
  }

  lemma DecodedKeepsLedger(s: System, epoch: nat, sequence: nat, receipt: Option<int>, encoded: int, batch: Batch)
    requires LedgerHolds(s)
    ensures LedgerHolds(s.(q := EnqueueDecoded(s.q, epoch, sequence, receipt, encoded, batch).0))
  {
    if s.q.decoding {
      ReleasedHolds(s);
      var d := s.(q := Released(s.q));
      var after := EnqueueDecoded(s.q, epoch, sequence, receipt, encoded, batch).0;
      var r := DecodedOutcome(s.q, epoch, sequence, receipt, encoded, batch);
      if Shed(d.q, epoch, sequence, batch) == Some(after) {
        ShedKeepsLedger(d, epoch, sequence, batch);
        assert s.(q := after) == d.(q := after);
      } else if CountsOneMore(d.q.ledger.frames.rejected, r)
                && after == WithFrames(d.q, d.q.ledger.frames.(rejected := r)) {
        RejectionKeepsLedger(d, r);
        assert s.(q := after) == d.(q := after);
      } else {
        EnqueuedKeepsLedger(d, Decoded(epoch, sequence, receipt, batch.charge));
        assert s.(q := after) == d.(q := after);
      }
    }
  }

  lemma FenceKeepsLedger(s: System, kind: FenceKind, epoch: nat, now: int)
    requires LedgerHolds(s)
    ensures LedgerHolds(s.(q := EnqueueFence(s.q, kind, epoch, now).0))
  {
    var fence := Fence(kind, epoch, s.q.greatestRaw, s.q.nextFence, now, Complete);
    ChargeAppend(s.q.items, fence);
    forall k: ItemKind { CountAppend(s.q.items, fence, k); }
  }

  lemma CutKeepsLedger(s: System, cutoff: Option<nat>)
    requires LedgerHolds(s)
    ensures LedgerHolds(s.(q := Cut(s.q, Sift(s.q.items, cutoff), cutoff)))
  {
    SiftAccounts(s.q.items, cutoff);
    SiftKeepsMarkers(s.q.items, cutoff, FenceKindTag);
    SiftKeepsMarkers(s.q.items, cutoff, TQKind);
    SiftKeepsMarkers(s.q.items, cutoff, TerminalKind);
    SiftDropsFrames(s.q.items);
    var q := Cut(s.q, Sift(s.q.items, cutoff), cutoff);
    assert CountsQueued(q) && q.ledger.Reconciles();
  }

  lemma PlaceKeepsLedger(s: System, epoch: nat, cutoff: Option<nat>)
    requires LedgerHolds(s) && !s.q.gateOpen && !s.terminal
    ensures LedgerHolds(s.(q := PlaceTerminal(s.q, epoch), terminal := true, cutoff := cutoff))
  {
    var x := Terminal(epoch, s.q.next);
    ChargeAppend(s.q.items, x);
    forall k: ItemKind { CountAppend(s.q.items, x, k); }
  }

  lemma TerminalKeepsLedger(s: System, epoch: nat, cutoff: Option<nat>)
    requires LedgerHolds(s) && !s.q.gateOpen && !s.terminal
    ensures LedgerHolds(s.(q := EnqueueTerminal(s.q, epoch, cutoff), terminal := true, cutoff := cutoff))
  {
    CutKeepsLedger(s, cutoff);
    PlaceKeepsLedger(s.(q := Cut(s.q, Sift(s.q.items, cutoff), cutoff)), epoch, cutoff);
  }

  lemma PopKeepsCounts(s: System, popped: seq<Item>)
    requires LedgerHolds(s) && s.held.None? && s.q.items != []
    ensures CountsQueued(Pop(s.q))
    ensures CountsHeld(s.(q := Pop(s.q), popped := popped, held := Some(s.q.items[0])))
  {}

  lemma PopKeepsFlags(s: System, popped: seq<Item>)
    requires LedgerHolds(s) && s.held.None? && s.q.items != []
    ensures FlagsAgree(s.(q := Pop(s.q), popped := popped, held := Some(s.q.items[0])))
  {}

  lemma PopReconciles(s: System)
    requires LedgerHolds(s) && s.held.None? && s.q.items != []
    ensures Pop(s.q).ledger.Reconciles()
  {}

  lemma PopKeepsLedger(s: System, popped: seq<Item>)
    requires LedgerHolds(s) && s.held.None? && s.q.items != []
    ensures LedgerHolds(s.(q := Pop(s.q), popped := popped, held := Some(s.q.items[0])))
  {
    PopKeepsCounts(s, popped);
    PopKeepsFlags(s, popped);
    PopReconciles(s);
  }

  lemma CompleteKeepsCounts(s: System, fenced: bool)
    requires LedgerHolds(s) && s.held.Some?
    ensures CountsQueued(CompleteItem(s.q, s.held.value, fenced))
    ensures CountsHeld(s.(q := CompleteItem(s.q, s.held.value, fenced), held := None))
  {}

  lemma CompleteKeepsFlags(s: System, fenced: bool)
    requires LedgerHolds(s) && s.held.Some?
    ensures FlagsAgree(s.(q := CompleteItem(s.q, s.held.value, fenced), held := None))
  {}

  lemma CompleteReconciles(s: System, fenced: bool)
    requires s.q.ledger.Reconciles() && CountsHeld(s) && s.held.Some?
    requires s.q.ledger.terminal.queued == 0 || !s.held.value.Terminal?
    requires s.q.ledger.terminal.dispositioned == 0 || !s.held.value.Terminal?
    ensures CompleteItem(s.q, s.held.value, fenced).ledger.Reconciles()
  {}

  lemma CompleteKeepsLedger(s: System, fenced: bool)
    requires LedgerHolds(s) && s.held.Some?
    ensures LedgerHolds(s.(q := CompleteItem(s.q, s.held.value, fenced), held := None))
  {
    CompleteKeepsCounts(s, fenced);
    CompleteKeepsFlags(s, fenced);
    assert s.held.value.Terminal? ==> s.q.ledger.terminal.queued == 0 && s.q.ledger.terminal.dispositioned == 0;
    CompleteReconciles(s, fenced);
  }

  lemma StepKeepsLedger(s: System, e: Event)
    requires LedgerHolds(s) && Enabled(s, e)
    ensures LedgerHolds(Step(s, e))
  {
    match e
    case BeginDecodeEvent(epoch, known, receipt, encoded) => BeginKeepsLedger(s, epoch, known, receipt, encoded);
    case EnqueueDecodedEvent(epoch, sequence, receipt, encoded, batch) =>
      DecodedKeepsLedger(s, epoch, sequence, receipt, encoded, batch);
    case EnqueueFenceEvent(kind, epoch, now) => FenceKeepsLedger(s, kind, epoch, now);
    case TerminalEvent(epoch, through) => TerminalKeepsLedger(s, epoch, through);
    case PopEvent => if s.q.items != [] { PopKeepsLedger(s, Step(s, e).popped); }
    case CompleteEvent(fenced) => CompleteKeepsLedger(s, fenced);
    case _ =>
  }

  // ------------------------------------------------------------------------------------------- fence safety

  /** The sequences of the decoded frames in a stretch of the stream. */
  ghost function Sequences(items: seq<Item>): set<nat> {
    if items == [] then {}
    else (if items[0].Decoded? then {items[0].sequence} else {}) + Sequences(items[1..])
  }

  ghost predicate Ascending(items: seq<Item>) {
    forall i, j :: 0 <= i < j < |items| && items[i].Decoded? && items[j].Decoded?
                   ==> items[i].sequence < items[j].sequence
  }

  /** A complete fence at place k splits the stream: frames before it are at most its boundary, frames after it are
      greater, and every admitted frame up to its boundary stands before it. */
  ghost predicate FenceSplits(items: seq<Item>, k: nat, admitted: seq<nat>)
    requires k < |items| && items[k].Fence?
  {
    && (forall i :: 0 <= i < k && items[i].Decoded? ==> items[i].sequence <= items[k].through)
    && (forall i :: k < i < |items| && items[i].Decoded? ==> items[i].sequence > items[k].through)
    && (forall n :: n in admitted && n <= items[k].through ==> n in Sequences(items[..k]))
  }

  ghost predicate IsComplete(item: Item) {
    item.Fence? && item.state == Complete
  }

  /** Every complete fence of the stream splits it, at a boundary the raw stream has reached and left behind. */
  ghost predicate FencesSplit(stream: seq<Item>, s: System) {
    forall k :: 0 <= k < |stream| && IsComplete(stream[k]) ==>
      && FenceSplits(stream, k, s.admitted)
      && stream[k].through <= s.q.greatestRaw
      && (s.q.decoding ==> stream[k].through < s.q.greatestRaw)
  }

  /** The frames of the stream are admitted ones, and all of them until the terminal cuts the queue. */
  ghost predicate FramesAccounted(stream: seq<Item>, s: System) {
    && (forall n :: n in Sequences(stream) ==> n in s.admitted)
    && (forall n :: n in s.admitted ==> n <= s.q.greatestRaw && (s.q.decoding ==> n < s.q.greatestRaw))
    && (forall n :: n in s.admitted && (!s.terminal || (s.cutoff.Some? && n <= s.cutoff.value))
                    ==> n in Sequences(stream))
  }

  /** What is known about the whole stream, popped entries first and queued entries after them. */
  ghost predicate StreamHolds(s: System) {
    && s.q.greatestRaw < s.q.next
    && Ascending(s.popped + s.q.items)
    && FramesAccounted(s.popped + s.q.items, s)
    && FencesSplit(s.popped + s.q.items, s)
    && (s.terminal ==> !s.q.gateOpen)
  }

  lemma {:induction false} SequencesSplit(a: seq<Item>, b: seq<Item>)
    ensures Sequences(a + b) == Sequences(a) + Sequences(b)
  {
    if a == [] {
      assert a + b == b;
    } else {
      assert (a + b)[1..] == a[1..] + b;
      SequencesSplit(a[1..], b);
    }
  }

  lemma SequencesAppend(items: seq<Item>, x: Item)
    ensures Sequences(items + [x]) == Sequences(items) + (if x.Decoded? then {x.sequence} else {})
  {
    SequencesSplit(items, [x]);
  }

  lemma {:induction false} SequenceAt(items: seq<Item>, n: nat) returns (i: nat)
    requires n in Sequences(items)
    ensures i < |items| && items[i].Decoded? && items[i].sequence == n
  {
    if items[0].Decoded? && items[0].sequence == n {
      i := 0;
    } else {
      var j := SequenceAt(items[1..], n);
      i := j + 1;
    }
  }

  lemma {:induction false} SequenceOf(items: seq<Item>, i: nat)
    requires i < |items| && items[i].Decoded?
    ensures items[i].sequence in Sequences(items)
  {
    if i > 0 { SequenceOf(items[1..], i - 1); }
  }

  lemma AppendAscending(stream: seq<Item>, x: Item)
    requires Ascending(stream)
    requires x.Decoded? ==> forall n :: n in Sequences(stream) ==> n < x.sequence
    ensures Ascending(stream + [x])
  {
    if x.Decoded? {
      forall i | 0 <= i < |stream| && stream[i].Decoded? ensures stream[i].sequence < x.sequence {
        SequenceOf(stream, i);
      }
    }
  }

  lemma AppendSplits(stream: seq<Item>, x: Item, k: nat, admitted: seq<nat>, more: seq<nat>)
    requires k < |stream| && stream[k].Fence? && FenceSplits(stream, k, admitted)
    requires x.Decoded? ==> x.sequence > stream[k].through
    requires forall n :: n in more ==> n > stream[k].through
    ensures FenceSplits(stream + [x], k, admitted + more)
  {
    assert (stream + [x])[..k] == stream[..k];
  }

  /** An admitted frame leaves every complete fence of the stream splitting it. */
  lemma AppendFrameSplits(s: System, before: seq<Item>, x: Item)
    requires FencesSplit(before, s) && x.Decoded? && s.q.decoding && x.sequence == s.q.greatestRaw
    ensures FencesSplit(before + [x], s.(q := s.q.(decoding := false), admitted := s.admitted + [x.sequence]))
  {
    var after := before + [x];
    forall k | 0 <= k < |after| && IsComplete(after[k])
      ensures FenceSplits(after, k, s.admitted + [x.sequence]) && after[k].through <= s.q.greatestRaw
    {
      assert k < |before| && after[k] == before[k];
      AppendSplits(before, x, k, s.admitted, [x.sequence]);
    }
  }

  lemma AppendFrame(s: System, x: Item)
    requires StreamHolds(s) && x.Decoded? && s.q.gateOpen && s.q.decoding && x.sequence == s.q.greatestRaw
    ensures var t := s.(q := s.q.(items := s.q.items + [x], decoding := false), admitted := s.admitted + [x.sequence]);
            StreamHolds(t)
  {
    var t := s.(q := s.q.(items := s.q.items + [x], decoding := false), admitted := s.admitted + [x.sequence]);
    var before, after := s.popped + s.q.items, t.popped + t.q.items;
    assert after == before + [x];
    SequencesAppend(before, x);
    AppendAscending(before, x);
    AppendFrameSplits(s, before, x);
  }

  lemma AppendMarkerSplits(s: System, before: seq<Item>, x: Item)
    requires FencesSplit(before, s) && FramesAccounted(before, s) && !x.Decoded?
    requires IsComplete(x) ==> x.through == s.q.greatestRaw && !s.q.decoding && !s.terminal
    ensures FencesSplit(before + [x], s)
  {
    var after := before + [x];
    forall k | 0 <= k < |after| && IsComplete(after[k])
      ensures FenceSplits(after, k, s.admitted) && after[k].through <= s.q.greatestRaw
        && (s.q.decoding ==> after[k].through < s.q.greatestRaw)
    {
      if k < |before| {
        AppendSplits(before, x, k, s.admitted, []);
        assert s.admitted + [] == s.admitted;
      } else {
        assert after[..k] == before;
        forall i | 0 <= i < k && after[i].Decoded? ensures after[i].sequence <= x.through {
          SequenceOf(before, i);
        }
      }
    }
  }

  lemma AppendMarker(s: System, x: Item)
    requires StreamHolds(s) && !x.Decoded?
    requires IsComplete(x) ==> x.through == s.q.greatestRaw && !s.q.decoding && s.q.gateOpen
    ensures StreamHolds(s.(q := s.q.(items := s.q.items + [x])))
  {
    var t := s.(q := s.q.(items := s.q.items + [x]));
    var before, after := s.popped + s.q.items, t.popped + t.q.items;
    assert after == before + [x];
    SequencesAppend(before, x);
    AppendAscending(before, x);
    AppendMarkerSplits(s, before, x);
  }

  /** The terminal keeps the frames up to the cutoff, nothing else, and no complete fence. */
  lemma {:induction false} RetainSequences(items: seq<Item>, cutoff: Option<nat>)
    ensures var kept := Retain(items, cutoff);
            && (forall n :: n in Sequences(kept) <==> n in Sequences(items) && cutoff.Some? && n <= cutoff.value)
            && forall i :: 0 <= i < |kept| ==> !IsComplete(kept[i])
  {
    if items != [] {
      var first, head, rest := items[0], Retained(items[0], cutoff), Retain(items[1..], cutoff);
      RetainSequences(items[1..], cutoff);
      SequencesSplit(head, rest);
      var stays := first.Decoded? && cutoff.Some? && first.sequence <= cutoff.value;
      assert head != [] ==> head == [head[0]] && head[1..] == [];
      assert Sequences(head) == if stays then {first.sequence} else {};
      assert Sequences(items) == (if first.Decoded? then {first.sequence} else {}) + Sequences(items[1..]);
    }
  }

  /** What it keeps stays in order. */
  lemma {:induction false} RetainAscending(items: seq<Item>, cutoff: Option<nat>)
    requires Ascending(items)
    ensures Ascending(Retain(items, cutoff))
  {
    if items != [] {
      var first, tail := items[0], items[1..];
      assert Ascending(tail) by {
        assert forall i :: 0 <= i < |tail| ==> tail[i] == items[i + 1];
      }
      RetainAscending(tail, cutoff);
      var rest := Retain(tail, cutoff);
      if Retained(first, cutoff) != [] && first.Decoded? {
        forall j | 0 <= j < |rest| && rest[j].Decoded? ensures first.sequence < rest[j].sequence {
          var m := KeptFrom(tail, cutoff, j);
          assert items[m + 1] == tail[m];
        }
      }
    }
  }

  /** A frame the terminal keeps was in the queue before. */
  lemma KeptFrom(items: seq<Item>, cutoff: Option<nat>, i: nat) returns (m: nat)
    requires i < |Retain(items, cutoff)| && Retain(items, cutoff)[i].Decoded?
    ensures m < |items| && items[m].Decoded? && items[m].sequence == Retain(items, cutoff)[i].sequence
  {
    RetainSequences(items, cutoff);
    SequenceOf(Retain(items, cutoff), i);
    m := SequenceAt(items, Retain(items, cutoff)[i].sequence);
  }

  lemma CutAscending(popped: seq<Item>, items: seq<Item>, cutoff: Option<nat>)
    requires Ascending(popped + items) && Ascending(items)
    ensures Ascending(popped + Retain(items, cutoff))
  {
    RetainAscending(items, cutoff);
    var before, after := popped + items, popped + Retain(items, cutoff);
    forall i, j | 0 <= i < j < |after| && after[i].Decoded? && after[j].Decoded?
      ensures after[i].sequence < after[j].sequence
    {
      if i < |popped| <= j {
        var m := KeptFrom(items, cutoff, j - |popped|);
        assert before[|popped| + m] == items[m] && before[i] == after[i];
      } else if j < |popped| {
        assert before[i] == after[i] && before[j] == after[j];
      } else {
        assert Retain(items, cutoff)[i - |popped|] == after[i] && Retain(items, cutoff)[j - |popped|] == after[j];
      }
    }
  }

  lemma CutSplits(popped: seq<Item>, items: seq<Item>, cutoff: Option<nat>, k: nat, admitted: seq<nat>)
    requires Ascending(items) && k < |popped| && popped[k].Fence?
    requires FenceSplits(popped + items, k, admitted)
    ensures FenceSplits(popped + Retain(items, cutoff), k, admitted)
  {
    var before, after := popped + items, popped + Retain(items, cutoff);
    assert before[..k] == popped[..k] == after[..k];
    forall i | k < i < |after| && after[i].Decoded? ensures after[i].sequence > popped[k].through {
      if i < |popped| {
        assert before[i] == after[i];
      } else {
        var m := KeptFrom(items, cutoff, i - |popped|);
        assert before[|popped| + m] == items[m];
      }
    }
  }

  lemma CutKeepsStream(s: System, cutoff: Option<nat>)
    requires StreamHolds(s) && !s.q.gateOpen && !s.terminal
    ensures StreamHolds(s.(q := s.q.(items := Retain(s.q.items, cutoff)), terminal := true, cutoff := cutoff))
  {
    var items := s.q.items;
    var t := s.(q := s.q.(items := Retain(items, cutoff)), terminal := true, cutoff := cutoff);
    var before, after := s.popped + items, t.popped + t.q.items;
    assert Ascending(items) by {
      assert forall i :: 0 <= i < |items| ==> items[i] == before[|s.popped| + i];
    }
    CutAscending(s.popped, items, cutoff);
    RetainSequences(items, cutoff);
    SequencesSplit(s.popped, items);
    SequencesSplit(s.popped, t.q.items);
    forall i | |s.popped| <= i < |after| ensures !IsComplete(after[i]) {
      assert after[i] == t.q.items[i - |s.popped|];
    }
    forall k | 0 <= k < |after| && IsComplete(after[k])
      ensures FenceSplits(after, k, t.admitted) && after[k].through <= t.q.greatestRaw
        && (t.q.decoding ==> after[k].through < t.q.greatestRaw)
    {
      assert before[k] == after[k];
      CutSplits(s.popped, items, cutoff, k, s.admitted);
    }
  }

  /** The queue fields the stream depends on. */
  ghost predicate SameStream(q: Queue, r: Queue) {
    q.items == r.items && q.next == r.next && q.greatestRaw == r.greatestRaw && q.decoding == r.decoding
    && q.gateOpen == r.gateOpen
  }

  lemma SameStreamHolds(s: System, q: Queue)
    requires StreamHolds(s) && SameStream(s.q, q)
    ensures StreamHolds(s.(q := q))
  {
    var t := s.(q := q);
    assert t.popped + t.q.items == s.popped + s.q.items;
    assert FencesSplit(t.popped + t.q.items, t);
  }

  lemma TerminalKeepsStream(s: System, epoch: nat, cutoff: Option<nat>)
    requires StreamHolds(s) && !s.q.gateOpen && !s.terminal
    ensures StreamHolds(s.(q := EnqueueTerminal(s.q, epoch, cutoff), terminal := true, cutoff := cutoff))
  {
    CutKeepsStream(s, cutoff);
    SiftAccounts(s.q.items, cutoff);
    var cut := s.(q := s.q.(items := Retain(s.q.items, cutoff)), terminal := true, cutoff := cutoff);
    AppendMarker(cut, Terminal(epoch, s.q.next));
    var placed := cut.(q := cut.q.(items := cut.q.items + [Terminal(epoch, s.q.next)]));
    RaiseNext(placed);
    SameStreamHolds(placed.(q := placed.q.(next := s.q.next + 1)), EnqueueTerminal(s.q, epoch, cutoff));
  }

  lemma RaiseNext(s: System)
    requires StreamHolds(s)
    ensures StreamHolds(s.(q := s.q.(next := s.q.next + 1)))
  {
    var t := s.(q := s.q.(next := s.q.next + 1));
    assert t.popped + t.q.items == s.popped + s.q.items;
    assert FencesSplit(t.popped + t.q.items, t);
  }

  lemma DecodedShape(q: Queue, epoch: nat, sequence: nat, receipt: Option<int>, encoded: int, batch: Batch)
    requires q.config.Valid() && q.decoding
    ensures var r := EnqueueDecoded(q, epoch, sequence, receipt, encoded, batch);
            var idle := q.(decoding := false);
            if r.1 == Admitted then
              && 0 <= batch.charge && q.gateOpen && sequence == q.greatestRaw
              && SameStream(r.0, idle.(items := q.items + [Decoded(epoch, sequence, receipt, batch.charge)]))
            else SameStream(r.0, idle) || SameStream(r.0, idle.(items := q.items + [TQCapacity(epoch, sequence)]))
  {}

  lemma DecodedKeepsStream(s: System, epoch: nat, sequence: nat, receipt: Option<int>, encoded: int, batch: Batch)
    requires s.q.config.Valid() && StreamHolds(s)
    ensures StreamHolds(Step(s, EnqueueDecodedEvent(epoch, sequence, receipt, encoded, batch)))
  {
    var r := EnqueueDecoded(s.q, epoch, sequence, receipt, encoded, batch);
    if s.q.decoding {
      DecodedShape(s.q, epoch, sequence, receipt, encoded, batch);
      var idle := s.(q := s.q.(decoding := false));
      if r.1 == Admitted {
        var x := Decoded(epoch, sequence, receipt, batch.charge);
        AppendFrame(s, x);
        SameStreamHolds(s.(q := s.q.(items := s.q.items + [x], decoding := false), admitted := s.admitted + [sequence]),
                        r.0);
      } else if SameStream(r.0, idle.q) {
        SameStreamHolds(idle, r.0);
      } else {
        var x := TQCapacity(epoch, sequence);
        AppendMarker(idle, x);
        SameStreamHolds(idle.(q := idle.q.(items := s.q.items + [x])), r.0);
      }
    }
  }

  lemma FenceKeepsStream(s: System, kind: FenceKind, epoch: nat, now: int)
    requires StreamHolds(s)
    ensures StreamHolds(s.(q := EnqueueFence(s.q, kind, epoch, now).0))
  {
    var r := EnqueueFence(s.q, kind, epoch, now);
    if r.1.Appended? {
      AppendMarker(s, r.1.item);
      SameStreamHolds(s.(q := s.q.(items := s.q.items + [r.1.item])), r.0);
    }
  }

  lemma BeginKeepsStream(s: System, epoch: nat, known: bool, receipt: Option<int>, encoded: int)
    requires StreamHolds(s)
    ensures StreamHolds(s.(q := BeginDecode(s.q, epoch, known, receipt, encoded).0))
  {
    var r := BeginDecode(s.q, epoch, known, receipt, encoded);
    if r.1 == Admitted {
      var t := s.(q := s.q.(next := s.q.next + 1, greatestRaw := s.q.next, decoding := true));
      assert FencesSplit(t.popped + t.q.items, t) by {
        assert t.popped + t.q.items == s.popped + s.q.items;
      }
      SameStreamHolds(t, r.0);
    } else {
      SameStreamHolds(s, r.0);
    }
  }

  lemma PopKeepsStream(s: System)
    requires StreamHolds(s) && s.q.items != []
    ensures StreamHolds(s.(q := Pop(s.q), popped := s.popped + [s.q.items[0]], held := Some(s.q.items[0])))
  {
    var t := s.(q := s.q.(items := s.q.items[1..]), popped := s.popped + [s.q.items[0]], held := Some(s.q.items[0]));
    assert t.popped + t.q.items == s.popped + s.q.items;
    assert FencesSplit(t.popped + t.q.items, t);
    SameStreamHolds(t, Pop(s.q));
  }

  lemma StepKeepsStream(s: System, e: Event)
    requires s.q.config.Valid() && StreamHolds(s) && Enabled(s, e)
    ensures StreamHolds(Step(s, e))
  {
    match e
    case BeginDecodeEvent(epoch, known, receipt, encoded) => BeginKeepsStream(s, epoch, known, receipt, encoded);
    case EnqueueDecodedEvent(epoch, sequence, receipt, encoded, batch) =>
      DecodedKeepsStream(s, epoch, sequence, receipt, encoded, batch);
    case EnqueueFenceEvent(kind, epoch, now) => FenceKeepsStream(s, kind, epoch, now);
    case CanceledFenceEvent(epoch, now) => SameStreamHolds(s, Step(s, e).q);
    case CloseGateEvent => CloseKeepsStream(s);
    case TerminalEvent(epoch, through) => TerminalKeepsStream(s, epoch, through);
    case PopEvent => if s.q.items != [] { PopKeepsStream(s); }
    case CompleteEvent(fenced) =>
      var t := s.(held := None);
      assert StreamHolds(t);
      SameStreamHolds(t, Step(s, e).q);
  }

  lemma CloseKeepsStream(s: System)
    requires StreamHolds(s)
    ensures StreamHolds(s.(q := s.q.(gateOpen := false)))
  {
    var t := s.(q := s.q.(gateOpen := false));
    assert FencesSplit(t.popped + t.q.items, t);
  }

  ghost predicate Holds(config: Config, s: System) {
    s.q.config == config && LedgerHolds(s) && StreamHolds(s)
  }

  lemma StepKeepsAll(config: Config, s: System, e: Event)
    requires Holds(config, s) && s.q.config.Valid() && Enabled(s, e)
    ensures Holds(config, Step(s, e))
  {
    StepKeepsConfig(s, e);
    StepKeepsLedger(s, e);
    StepKeepsStream(s, e);
  }

  lemma {:induction false} HoldOverRuns(config: Config, s: System, es: seq<Event>)
    requires Holds(config, s) && s.q.config.Valid() && IsRun(s, es)
    ensures Holds(config, Run(s, es))
    decreases |es|
  {
    if es != [] {
      var rest := es[..|es| - 1];
      HoldOverRuns(config, s, rest);
      StepKeepsAll(config, Run(s, rest), es[|es| - 1]);
    }
  }

  lemma NothingCounted(config: Config)
    ensures CountsQueued(Start(config).q) && CountsHeld(Start(config))
  {}

  lemma NothingFlagged(config: Config)
    ensures FlagsAgree(Start(config))
  {}

  lemma ZerosReconcile(l: Ledger)
    requires l == EmptyLedger
    ensures l.Reconciles()
  {}

  lemma Together(s: System)
    requires s.q.config.Valid() && s.q.ledger.Reconciles() && CountsQueued(s.q) && CountsHeld(s) && FlagsAgree(s)
    requires s.q.items == []
    ensures LedgerHolds(s)
  {}

  lemma StartHolds(config: Config)
    requires config.Valid()
    ensures LedgerHolds(Start(config))
  {
    NothingCounted(config);
    NothingFlagged(config);
    ZerosReconcile(Start(config).q.ledger);
    Together(Start(config));
  }

  lemma StartStream(config: Config)
    requires config.Valid()
    ensures StreamHolds(Start(config))
  {}

  /** The states some run from an empty queue ends in. */
  ghost predicate Reachable(config: Config, s: System)
    requires config.Valid()
  {
    exists es :: IsRun(Start(config), es) && s == Run(Start(config), es)
  }

  lemma ReachableHolds(config: Config, s: System)
    requires config.Valid() && Reachable(config, s)
    ensures Holds(config, s)
  {
    var es :| IsRun(Start(config), es) && s == Run(Start(config), es);
    assert Holds(config, Start(config)) by {
      StartHolds(config);
      StartStream(config);
    }
    HoldOverRuns(config, Start(config), es);
  }

  /** In every reachable state the ledger reconciles, the byte and slot bounds hold, the counters count what is
      queued, and the ring keeps spare entries, so an append can never find it full. */
  lemma QueueLedger(config: Config, s: System)
    requires config.Valid() && Reachable(config, s)
    ensures s.q.ledger.Reconciles()
    ensures s.q.ledger.frames.queued == Count(s.q.items, DecodedKind) <= config.DecodedSlots()
    ensures s.q.ledger.queuedBytes == TotalCharge(s.q.items) <= config.DecodedBytes()
    ensures Count(s.q.items, FenceKindTag) <= 1 && Count(s.q.items, TQKind) <= 1 && Count(s.q.items, TerminalKind) <= 1
    ensures |s.q.items| + 5 <= config.RingEntries()
  {
    ReachableHolds(config, s);
    RingHasRoom(s);
  }

  /** Fence safety over every run: when a fence left the queue in state Complete, every frame admitted with a
      sequence up to its boundary had already been delivered, nothing greater had, and every frame delivered later
      is greater. */
  lemma FenceSafety(config: Config, s: System, k: nat)
    requires config.Valid() && Reachable(config, s)
    requires k < |s.popped| && IsComplete(s.popped[k])
    ensures forall n :: n in s.admitted && n <= s.popped[k].through ==> n in Sequences(s.popped[..k])
    ensures forall i :: 0 <= i < k && s.popped[i].Decoded? ==> s.popped[i].sequence <= s.popped[k].through
    ensures forall i :: k < i < |s.popped| && s.popped[i].Decoded? ==> s.popped[i].sequence > s.popped[k].through
    ensures forall i :: 0 <= i < |s.q.items| && s.q.items[i].Decoded? ==> s.q.items[i].sequence > s.popped[k].through
  {
    ReachableHolds(config, s);
    var stream := s.popped + s.q.items;
    assert stream[k] == s.popped[k] && FenceSplits(stream, k, s.admitted);
    assert stream[..k] == s.popped[..k];
    assert forall i :: 0 <= i < |s.popped| ==> stream[i] == s.popped[i];
    forall i | 0 <= i < |s.q.items| && s.q.items[i].Decoded? ensures s.q.items[i].sequence > s.popped[k].through {
      assert stream[|s.popped| + i] == s.q.items[i];
    }
  }

  /** Delivery over every run: frames leave in strictly ascending order, only admitted ones do, and once the queue
      is drained every admitted frame has left it, except those past the terminal's cutoff. */
  lemma DeliveryOrder(config: Config, s: System)
    requires config.Valid() && Reachable(config, s)
    ensures Ascending(s.popped)
    ensures forall n :: n in Sequences(s.popped) ==> n in s.admitted
    ensures s.q.items == [] ==>
              forall n :: n in s.admitted && (!s.terminal || (s.cutoff.Some? && n <= s.cutoff.value))
                          ==> n in Sequences(s.popped)
  {
    ReachableHolds(config, s);
    var stream := s.popped + s.q.items;
    assert forall i :: 0 <= i < |s.popped| ==> stream[i] == s.popped[i];
    SequencesSplit(s.popped, s.q.items);
    if s.q.items == [] { assert stream == s.popped; }
  }
}
