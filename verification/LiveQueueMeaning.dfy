/** What each admission outcome of the live queue means, told over the batch and the state before the call, and over
    runs: only optional work is ever shed, and the two shed counters count it. */
module LiveQueueMeaning {
  import opened Options
  import opened LiveQueueModel
  import opened LiveQueueRuns

  /** The work a full queue may drop: trades and quotes, taken or rejected. */
  predicate Optional(r: ResultKind) {
    r == Trade || r == Quote || r == RejectedTrade || r == RejectedQuote
  }

  predicate AllOptional(results: seq<ResultKind>) {
    forall i :: 0 <= i < |results| ==> Optional(results[i])
  }

  /** How many results of a batch are trades, and how many are quotes. */
  function TradesIn(results: seq<ResultKind>): nat {
    multiset(results)[Trade] + multiset(results)[RejectedTrade]
  }

  function QuotesIn(results: seq<ResultKind>): nat {
    multiset(results)[Quote] + multiset(results)[RejectedQuote]
  }

  /** Only a batch of nothing but trades and quotes is optional, and it is counted by family. */
  lemma {:induction false} OptionalMeans(results: seq<ResultKind>)
    ensures OptionalOnly(results).Some? <==> AllOptional(results)
    ensures AllOptional(results) ==> OptionalOnly(results) == Some((TradesIn(results), QuotesIn(results)))
    ensures AllOptional(results) ==> TradesIn(results) + QuotesIn(results) == |results|
    decreases |results|
  {
    if results != [] {
      OptionalMeans(results[1..]);
      assert results == [results[0]] + results[1..];
      assert AllOptional(results) <==> Optional(results[0]) && AllOptional(results[1..]);
    }
  }

  // ------------------------------------------------------------------------------------------------------ admission

  /** The decoded batch is refused at the gate: nothing was being decoded, it is not the frame last numbered, or the
      gate was closed meanwhile. */
  predicate GateRefuses(q: Queue, sequence: nat) {
    !q.decoding || sequence == 0 || sequence != q.greatestRaw || !q.gateOpen
  }

  predicate SlotsFull(q: Queue)
    requires q.config.Valid()
  {
    q.ledger.frames.queued >= q.config.DecodedSlots()
  }

  predicate BytesFull(q: Queue, batch: Batch)
    requires q.config.Valid()
  {
    q.bytes + batch.charge > q.config.DecodedBytes()
  }

  /** What a full queue may drop at once: some work, all of it optional, while a marker would still fit. */
  predicate Sheddable(q: Queue, batch: Batch) {
    batch.results != [] && AllOptional(batch.results) && |q.items| < q.config.RingEntries()
  }

  /** Each outcome of an admission, by the state and the batch before it. */
  lemma AdmissionMeans(q: Queue, epoch: nat, sequence: nat, receivedAt: Option<int>, encoded: int, batch: Batch)
    requires q.config.Valid()
    ensures var gate, fits := GateRefuses(q, sequence), BatchMatches(batch, epoch, sequence, receivedAt, encoded);
            match EnqueueDecoded(q, epoch, sequence, receivedAt, encoded, batch).1
            case RejectedGate => gate
            case RejectedOversize => !gate && !fits
            case Admitted => !gate && fits && !SlotsFull(q) && !BytesFull(q, batch)
            case ShedTQ => !gate && fits && (SlotsFull(q) || BytesFull(q, batch)) && Sheddable(q, batch)
            case RejectedSlot => !gate && fits && SlotsFull(q) && !Sheddable(q, batch)
            case RejectedByte => !gate && fits && !SlotsFull(q) && BytesFull(q, batch) && !Sheddable(q, batch)
            case _ => false
  {
    OptionalMeans(batch.results);
  }

  function One(b: bool): int {
    if b then 1 else 0
  }

  /** Each outcome raises its own counter by one; a refusal of what was never being decoded raises none. */
  predicate CountsOutcome(f: FrameLedger, g: FrameLedger, d: Admission, counted: bool) {
    && g.rejected.gate == f.rejected.gate + One(d == RejectedGate && counted)
    && g.rejected.oversize == f.rejected.oversize + One(d == RejectedOversize)
    && g.rejected.slot == f.rejected.slot + One(d == RejectedSlot)
    && g.rejected.byte == f.rejected.byte + One(d == RejectedByte)
    && g.rejected.capacity == f.rejected.capacity + One(d == RejectedSlot || d == RejectedByte)
    && g.rejected.receipt == f.rejected.receipt && g.read == f.read
    && g.admitted == f.admitted + One(d == Admitted) && g.queued == f.queued + One(d == Admitted)
    && g.decoding == f.decoding - One(counted)
    && g.classifying == f.classifying && g.dispositioned == f.dispositioned && g.fenced == f.fenced
  }

  /** What an admission leaves in the queue: the frame at its end, a marker at its end, or what was there. */
  lemma AdmissionLeaves(q: Queue, epoch: nat, sequence: nat, receivedAt: Option<int>, encoded: int, batch: Batch)
    requires q.config.Valid()
    ensures var (t, d) := EnqueueDecoded(q, epoch, sequence, receivedAt, encoded, batch);
            && t.items == q.items + (match d
                                     case Admitted => [Decoded(epoch, sequence, receivedAt, batch.charge)]
                                     case ShedTQ => if q.tqOutstanding then [] else [TQCapacity(epoch, sequence)]
                                     case _ => [])
            && t.greatestAdmitted == (if d == Admitted then sequence else q.greatestAdmitted)
            && t.bytes == q.bytes + (if d == Admitted then batch.charge else 0)
            && t.tqOutstanding == (q.tqOutstanding || d == ShedTQ) && !t.decoding
            && t.ledger.shedTrades == q.ledger.shedTrades + (if d == ShedTQ then TradesIn(batch.results) else 0)
            && t.ledger.shedQuotes == q.ledger.shedQuotes + (if d == ShedTQ then QuotesIn(batch.results) else 0)
            && t.ledger.frames.shed == q.ledger.frames.shed + (if d == ShedTQ then 1 else 0)
  {
    OptionalMeans(batch.results);
  }

  lemma AdmissionCounts(q: Queue, epoch: nat, sequence: nat, receivedAt: Option<int>, encoded: int, batch: Batch)
    requires q.config.Valid()
    ensures var (t, d) := EnqueueDecoded(q, epoch, sequence, receivedAt, encoded, batch);
            CountsOutcome(q.ledger.frames, t.ledger.frames, d, q.decoding)
  {
    hide OptionalOnly;
  }

  /** When a frame is refused before it is decoded, and when it is given the next number. */
  lemma BeginMeans(q: Queue, epoch: nat, known: bool, receipt: Option<int>, encoded: int)
    ensures var shut := !q.gateOpen || q.decoding || epoch == 0 || q.next == 0 || !known;
            var sized := 0 <= encoded <= q.config.maxFrameBytes;
            var late := receipt.None? || (q.lastReceipt.Some? && receipt.value < q.lastReceipt.value);
            match BeginDecode(q, epoch, known, receipt, encoded).1
            case RejectedGate => shut
            case RejectedOversize => !shut && !sized
            case RejectedReceipt => !shut && sized && late
            case Admitted => !shut && sized && !late
            case _ => false
    ensures var (t, d) := BeginDecode(q, epoch, known, receipt, encoded);
            && t.items == q.items && t.bytes == q.bytes && t.ledger.frames.read == q.ledger.frames.read + 1
            && t.decoding == (q.decoding || d == Admitted)
            && t.next == (if d == Admitted then q.next + 1 else q.next)
            && t.greatestRaw == (if d == Admitted then q.next else q.greatestRaw)
            && t.lastReceipt == (if d == Admitted then receipt else q.lastReceipt)
            && t.ledger.frames.rejected.gate == q.ledger.frames.rejected.gate + One(d == RejectedGate)
            && t.ledger.frames.rejected.oversize == q.ledger.frames.rejected.oversize + One(d == RejectedOversize)
            && t.ledger.frames.rejected.receipt == q.ledger.frames.rejected.receipt + One(d == RejectedReceipt)
  {}

  /** When a fence is refused, when it must wait, and what it says when it is appended: it comes after everything that
      was read, under a number of its own. */
  lemma FenceMeans(q: Queue, kind: FenceKind, epoch: nat, now: int)
    ensures var refused := || q.ledger.fences.queued + q.ledger.fences.classifying > 0
                           || !q.gateOpen || q.nextFence == 0;
            var (t, a) := EnqueueFence(q, kind, epoch, now);
            match a
            case Refused => refused && t == q
            case Wait => !refused && (q.decoding || |q.items| >= q.config.RingEntries()) && t == q
            case Appended(fence) =>
              && !refused && !q.decoding && |q.items| < q.config.RingEntries() && t.items == q.items + [fence]
              && fence == Fence(kind, epoch, q.greatestRaw, q.nextFence, now, Complete)
              && t.nextFence == q.nextFence + 1 && t.bytes == q.bytes && t.greatestRaw == q.greatestRaw
  {}

  /** The terminal keeps, in order, every marker and every decoded frame up to its cutoff, with fences canceled. */
  lemma {:induction false} SiftMeans(items: seq<Item>, cutoff: Option<nat>)
    ensures var kept := Sift(items, cutoff).kept;
            forall i :: 0 <= i < |kept| ==>
              (kept[i].Fence? ==> kept[i].state == Canceled)
              && (kept[i].Decoded? ==> cutoff.Some? && kept[i].sequence <= cutoff.value)
    ensures forall x :: x in items && x.Decoded? && cutoff.Some? && x.sequence <= cutoff.value ==>
              x in Sift(items, cutoff).kept
    ensures forall x :: x in items && (x.TQCapacity? || x.Terminal?) ==> x in Sift(items, cutoff).kept
    ensures forall x :: x in items && x.Fence? ==> x.(state := Canceled) in Sift(items, cutoff).kept
    ensures Sift(items, cutoff).frames + |Sift(items, cutoff).kept| == |items|
    decreases |items|
  {
    if items != [] {
      var init, last := items[..|items| - 1], items[|items| - 1];
      SiftMeans(init, cutoff);
      assert forall x :: x in items <==> x in init || x == last;
    }
  }

  /** A batch is the frame that was read only with its size, its epoch, its number and its receipt, and within the
      bounds of one batch. */
  lemma BatchMeans(batch: Batch, epoch: nat, sequence: nat, receivedAt: Option<int>, encoded: int)
    ensures BatchMatches(batch, epoch, sequence, receivedAt, encoded)
       <==> && batch == Batch(encoded, epoch, sequence, receivedAt, batch.charge, batch.results)
            && 0 <= batch.charge && batch.charge <= 32 * 1024 * 1024 && |batch.results| <= 65536
  {}

  /** A queue as large as allowed keeps eight slots and 64 KiB for markers; a smaller one has them beside its own. */
  lemma CapacityMeans(c: Config)
    requires c.Valid()
    ensures 1 <= c.frameSlots <= 4096 && 1 <= c.maxFrameBytes <= 8 * 1024 * 1024
    ensures c.maxFrameBytes <= c.totalFrameBytes <= 64 * 1024 * 1024
    ensures c.DecodedSlots() == (if c.frameSlots < 4096 then c.frameSlots else 4088)
    ensures c.DecodedBytes() == (if c.totalFrameBytes < 64 * 1024 * 1024 then c.totalFrameBytes
                                 else 64 * 1024 * 1024 - 64 * 1024)
    ensures c.RingEntries() == (if c.frameSlots < 4096 then c.frameSlots + 8 else 4096)
  {}

  function Greater(a: int, b: int): int {
    if a >= b then a else b
  }

  /** An admission moves the high-water marks to what the queue then holds, and never down. */
  lemma AdmissionMarks(q: Queue, epoch: nat, sequence: nat, receivedAt: Option<int>, encoded: int, batch: Batch)
    requires q.config.Valid()
    ensures var (t, d) := EnqueueDecoded(q, epoch, sequence, receivedAt, encoded, batch);
            var l, m := q.ledger, t.ledger;
            && m.queuedBytes == (if d == Admitted then t.bytes else l.queuedBytes)
            && m.highFramesQueued == (if d == Admitted then Greater(l.highFramesQueued, m.frames.queued)
                                      else l.highFramesQueued)
            && m.highQueuedBytes == (if d == Admitted then Greater(l.highQueuedBytes, t.bytes) else l.highQueuedBytes)
            && m.terminal == l.terminal && m.fences == l.fences && m.fencesStarted == l.fencesStarted
            && m.tqStarted == l.tqStarted + (if d == ShedTQ && !q.tqOutstanding then 1 else 0)
            && m.tq == (if d == ShedTQ && !q.tqOutstanding
                        then MarkerLedger(1, l.tq.classifying, l.tq.dispositioned) else l.tq)
            && t.next == q.next && t.greatestRaw == q.greatestRaw && t.lastReceipt == q.lastReceipt
            && t.nextFence == q.nextFence && t.gateOpen == q.gateOpen && t.config == q.config
  {
    hide OptionalOnly;
  }

  /** A canceled ingress fence says the same of the reading as a queued one would, under a number of its own, and leaves
      the queue alone; a fence that is queued is one more started and one more queued. */
  lemma FencesCounted(q: Queue, kind: FenceKind, epoch: nat, now: int)
    ensures CanceledFence(q, epoch, now)
         == if q.nextFence > 0
            then (q.(nextFence := 1 + q.nextFence),
                  Some(Fence(IngressFence, epoch, q.greatestRaw, q.nextFence, now, Canceled)))
            else (q, None)
    ensures var (t, a) := EnqueueFence(q, kind, epoch, now);
            a.Appended? ==>
              t == q.(items := t.items, nextFence := t.nextFence,
                      ledger := q.ledger.(fencesStarted := 1 + q.ledger.fencesStarted,
                                          fences := MarkerLedger(1 + q.ledger.fences.queued,
                                                                 q.ledger.fences.classifying,
                                                                 q.ledger.fences.dispositioned)))
  {}

  // ---------------------------------------------------------------------------------------- the terminal, and popping

  /** What stays of one entry when the terminal comes. */
  function Stays(item: Item, cutoff: Option<nat>): Option<Item> {
    match item
    case Decoded(_, sequence, _, _) => if cutoff.None? || cutoff.value < sequence then None else Some(item)
    case Fence(kind, epoch, through, ordinal, capturedAt, _) =>
      Some(Fence(kind, epoch, through, ordinal, capturedAt, Canceled))
    case TQCapacity(_, _) => Some(item)
    case Terminal(_, _) => Some(item)
  }

  /** What stays of the queue, in its order. */
  function Survivors(items: seq<Item>, cutoff: Option<nat>): seq<Item> {
    if items == [] then []
    else (if Stays(items[0], cutoff).Some? then [Stays(items[0], cutoff).value] else [])
         + Survivors(items[1..], cutoff)
  }

  lemma {:induction false} SurvivorsMore(items: seq<Item>, last: Item, cutoff: Option<nat>)
    ensures Survivors(items + [last], cutoff)
         == Survivors(items, cutoff) + if Stays(last, cutoff).Some? then [Stays(last, cutoff).value] else []
    decreases |items|
  {
    hide Stays;
    if items == [] {
      assert [last][1..] == [];
    } else {
      assert (items + [last])[1..] == items[1..] + [last];
      SurvivorsMore(items[1..], last, cutoff);
    }
  }

  lemma {:induction false} SiftSurvivors(items: seq<Item>, cutoff: Option<nat>)
    ensures var s := Sift(items, cutoff);
            && s.kept == Survivors(items, cutoff) && s.frames == |items| - |s.kept|
            && s.charge + TotalCharge(s.kept) == TotalCharge(items)
    decreases |items|
  {
    if items != [] {
      var init, last := items[..|items| - 1], items[|items| - 1];
      assert items == init + [last];
      SiftSurvivors(init, cutoff);
      SurvivorsMore(init, last, cutoff);
      ChargeMore(init, last);
      ChargeMore(Sift(init, cutoff).kept, if Stays(last, cutoff).Some? then Stays(last, cutoff).value else last);
    }
  }

  lemma {:induction false} ChargeMore(items: seq<Item>, last: Item)
    ensures TotalCharge(items + [last]) == TotalCharge(items) + if last.Decoded? then last.charge else 0
    decreases |items|
  {
    if items == [] {
      assert [last][1..] == [];
    } else {
      assert (items + [last])[1..] == items[1..] + [last];
      ChargeMore(items[1..], last);
    }
  }

  /** The terminal: the survivors and then the marker, under the next number; what it dropped is fenced, and its
      bytes are no longer held. */
  lemma TerminalMeans(q: Queue, epoch: nat, cutoff: Option<nat>)
    requires q.bytes == TotalCharge(q.items)
    ensures var t, kept := EnqueueTerminal(q, epoch, cutoff), Survivors(q.items, cutoff);
            var n, f := |q.items| - |kept|, q.ledger.frames;
            && t.items == kept + [Terminal(epoch, q.next)] && t.next == 1 + q.next && t.bytes == TotalCharge(kept)
            && t.ledger == q.ledger.(queuedBytes := TotalCharge(kept), terminal := t.ledger.terminal,
                                     frames := f.(queued := f.queued - n, fenced := f.fenced + n))
            && t.ledger.terminal == MarkerLedger(1, q.ledger.terminal.classifying, q.ledger.terminal.dispositioned)
            && t == q.(items := t.items, bytes := t.bytes, next := t.next, ledger := t.ledger)
  {
    SiftSurvivors(q.items, cutoff);
    if cutoff.None? { NoFrames(q.items); }
  }

  lemma {:induction false} NoFrames(items: seq<Item>)
    ensures TotalCharge(Survivors(items, None)) == 0
    decreases |items|
  {
    if items != [] {
      NoFrames(items[1..]);
      var rest := Survivors(items[1..], None);
      if Stays(items[0], None).Some? {
        assert Survivors(items, None) == [Stays(items[0], None).value] + rest;
        assert Survivors(items, None)[1..] == rest;
      } else {
        assert Survivors(items, None) == rest;
      }
    }
  }

  /** The first entry leaves the queue, with its bytes, for the classifier. */
  lemma PopMeans(q: Queue)
    requires q.items != []
    ensures var t, item, l := Pop(q), q.items[0], q.ledger;
            && q.items == [item] + t.items && t.bytes == q.bytes - (if item.Decoded? then item.charge else 0)
            && t == q.(items := t.items, bytes := t.bytes, ledger := t.ledger)
            && t.ledger == match item
                           case Terminal(_, _) => l.(terminal := MarkerLedger(0, 1, l.terminal.dispositioned))
                           case Fence(_, _, _, _, _, _) =>
                             l.(fences := MarkerLedger(l.fences.queued - 1, l.fences.classifying + 1,
                                                       l.fences.dispositioned))
                           case TQCapacity(_, _) => l.(tq := MarkerLedger(0, 1, l.tq.dispositioned))
                           case Decoded(_, _, _, _) =>
                             l.(queuedBytes := t.bytes,
                                frames := l.frames.(queued := l.frames.queued - 1,
                                                    classifying := l.frames.classifying + 1))
  {}

  /** The classifier is done with an entry: a frame is disposed of or fenced, and a capacity marker may be queued
      again. */
  lemma CompleteMeans(q: Queue, item: Item, fenced: bool)
    ensures var t, l := CompleteItem(q, item, fenced), q.ledger;
            && t == q.(tqOutstanding := t.tqOutstanding, ledger := t.ledger)
            && (t.tqOutstanding <==> q.tqOutstanding && !item.TQCapacity?)
            && t.ledger == match item
                           case Terminal(_, _) => l.(terminal := MarkerLedger(l.terminal.queued, 0, 1))
                           case Fence(_, _, _, _, _, _) =>
                             l.(fences := MarkerLedger(l.fences.queued, l.fences.classifying - 1,
                                                       l.fences.dispositioned + 1))
                           case TQCapacity(_, _) => l.(tq := MarkerLedger(l.tq.queued, 0, l.tq.dispositioned + 1))
                           case Decoded(_, _, _, _) =>
                             var f := l.frames;
                             l.(frames := f.(classifying := f.classifying - 1,
                                             fenced := f.fenced + (if fenced then 1 else 0),
                                             dispositioned := f.dispositioned + (if fenced then 0 else 1)))
  {}

  // ----------------------------------------------------------------------------------------------------- over runs

  /** The batch an event sheds, if it sheds one. */
  ghost function ShedBy(s: System, e: Event): Option<Batch>
    requires s.q.config.Valid()
  {
    match e
    case EnqueueDecodedEvent(epoch, sequence, receipt, encoded, batch) =>
      if EnqueueDecoded(s.q, epoch, sequence, receipt, encoded, batch).1 == ShedTQ then Some(batch) else None
    case _ => None
  }

  /** Everything a run sheds, in order. */
  ghost function ShedOf(s: System, es: seq<Event>): seq<Batch>
    requires s.q.config.Valid() && IsRun(s, es)
    decreases |es|
  {
    if es == [] then []
    else
      var rest := es[..|es| - 1];
      var shed := ShedBy(Run(s, rest), es[|es| - 1]);
      ShedOf(s, rest) + if shed.Some? then [shed.value] else []
  }

  function AllTrades(batches: seq<Batch>): nat {
    if batches == [] then 0 else AllTrades(batches[..|batches| - 1]) + TradesIn(batches[|batches| - 1].results)
  }

  function AllQuotes(batches: seq<Batch>): nat {
    if batches == [] then 0 else AllQuotes(batches[..|batches| - 1]) + QuotesIn(batches[|batches| - 1].results)
  }

  /** One step moves the shed counters by what it sheds, which is optional throughout. */
  lemma ShedStep(s: System, e: Event)
    requires s.q.config.Valid() && Enabled(s, e)
    ensures var shed, l, m := ShedBy(s, e), s.q.ledger, Step(s, e).q.ledger;
            && (shed.Some? ==> AllOptional(shed.value.results))
            && m.frames.shed == l.frames.shed + (if shed.Some? then 1 else 0)
            && m.shedTrades == l.shedTrades + (if shed.Some? then TradesIn(shed.value.results) else 0)
            && m.shedQuotes == l.shedQuotes + (if shed.Some? then QuotesIn(shed.value.results) else 0)
  {
    match e {
      case EnqueueDecodedEvent(epoch, sequence, receipt, encoded, batch) => {
        hide EnqueueDecoded, AllOptional, TradesIn, QuotesIn;
        AdmissionMeans(s.q, epoch, sequence, receipt, encoded, batch);
        AdmissionLeaves(s.q, epoch, sequence, receipt, encoded, batch);
      }
      case _ => {}
    }
  }

  lemma NothingShed()
    ensures AllTrades([]) == 0 && AllQuotes([]) == 0
  {}

  lemma OneMoreShed(before: seq<Batch>, batch: Batch)
    ensures AllTrades(before + [batch]) == AllTrades(before) + TradesIn(batch.results)
    ensures AllQuotes(before + [batch]) == AllQuotes(before) + QuotesIn(batch.results)
  {
    assert (before + [batch])[..|before|] == before;
  }

  /** Over every run: no frame that carries anything but trades and quotes is ever shed, and the counters count what
      was. */
  lemma {:induction false} OnlyOptionalIsShed(s: System, es: seq<Event>)
    requires s.q.config.Valid() && IsRun(s, es)
    ensures forall i :: 0 <= i < |ShedOf(s, es)| ==> AllOptional(ShedOf(s, es)[i].results)
    ensures var shed, l, m := ShedOf(s, es), s.q.ledger, Run(s, es).q.ledger;
            && m.frames.shed == l.frames.shed + |shed| && m.shedTrades == l.shedTrades + AllTrades(shed)
            && m.shedQuotes == l.shedQuotes + AllQuotes(shed)
    decreases |es|
  {
    hide Step, ShedBy, AllOptional, TradesIn, QuotesIn, AllTrades, AllQuotes, Enabled;
    NothingShed();
    if es != [] {
      var rest, e := es[..|es| - 1], es[|es| - 1];
      OnlyOptionalIsShed(s, rest);
      ShedStep(Run(s, rest), e);
      var before, shed := ShedOf(s, rest), ShedBy(Run(s, rest), e);
      assert before + [] == before;
      if shed.Some? { OneMoreShed(before, shed.value); }
    }
  }
}
