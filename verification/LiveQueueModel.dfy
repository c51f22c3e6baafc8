/** The live ingress queue on values: its contents, its accounting ledger and one function for each locked
    operation of the queue.  `LiveFrameQueue` implements these functions over a ring array and mutable fields;
    `LiveQueueRuns` proves what every run of them keeps. */
module LiveQueueModel {
  import opened Options

  const MAXIMUM_LIVE_FRAME_SLOTS: nat := 4096
  const MAXIMUM_LIVE_QUEUE_BYTES: nat := 0x400_0000
  const MAXIMUM_LIVE_FRAME_BYTES: nat := 0x80_0000
  const LIVE_MARKER_RESERVE_SLOTS: nat := 8
  const LIVE_MARKER_RESERVE_BYTES: nat := 0x1_0000
  const MAXIMUM_DECODED_BATCH_ELEMENTS: nat := 65536
  const MAXIMUM_DECODED_BATCH_CHARGE: nat := 0x200_0000

  datatype Config = Config(frameSlots: nat, maxFrameBytes: nat, totalFrameBytes: nat) {
    predicate Valid() {
      && 1 <= frameSlots <= MAXIMUM_LIVE_FRAME_SLOTS
      && 1 <= maxFrameBytes <= MAXIMUM_LIVE_FRAME_BYTES
      && maxFrameBytes <= totalFrameBytes <= MAXIMUM_LIVE_QUEUE_BYTES
    }

    function DecodedSlots(): nat
      requires Valid()
    {
      if frameSlots == MAXIMUM_LIVE_FRAME_SLOTS then frameSlots - LIVE_MARKER_RESERVE_SLOTS else frameSlots
    }

    function DecodedBytes(): nat
      requires Valid()
    {
      if totalFrameBytes == MAXIMUM_LIVE_QUEUE_BYTES then totalFrameBytes - LIVE_MARKER_RESERVE_BYTES
      else totalFrameBytes
    }

    function RingEntries(): nat {
      if frameSlots == MAXIMUM_LIVE_FRAME_SLOTS then MAXIMUM_LIVE_FRAME_SLOTS
      else frameSlots + LIVE_MARKER_RESERVE_SLOTS
    }
  }

  datatype FenceState = Complete | Canceled
  datatype FenceKind = IngressFence | CoverageFence

  /** One queued entry.  `receivedAt` is None for a zero or non-UTC clock value. */
  datatype Item =
    | Decoded(epoch: nat, sequence: nat, receivedAt: Option<int>, charge: nat)
    | Fence(kind: FenceKind, fenceEpoch: nat, through: nat, ordinal: nat, capturedAt: int, state: FenceState)
    | TQCapacity(shedEpoch: nat, shedSequence: nat)
    | Terminal(terminalEpoch: nat, terminalSequence: nat)

  datatype ItemKind = DecodedKind | FenceKindTag | TQKind | TerminalKind

  function KindOf(item: Item): ItemKind {
    match item
    case Decoded(_, _, _, _) => DecodedKind
    case Fence(_, _, _, _, _, _) => FenceKindTag
    case TQCapacity(_, _) => TQKind
    case Terminal(_, _) => TerminalKind
  }

  function ChargeOf(item: Item): nat {
    if item.Decoded? then item.charge else 0
  }

  /** How many entries of one kind a stretch of the queue holds. */
  function Count(items: seq<Item>, kind: ItemKind): nat {
    if items == [] then 0
    else (if KindOf(items[0]) == kind then 1 else 0) + Count(items[1..], kind)
  }

  /** The retained charge of a stretch of the queue. */
  function TotalCharge(items: seq<Item>): nat {
    if items == [] then 0 else ChargeOf(items[0]) + TotalCharge(items[1..])
  }

  /** Counters of one marker family: every one started is queued, held by the consumer, or disposed of. */
  datatype MarkerLedger = MarkerLedger(queued: int, classifying: int, dispositioned: int) {
    predicate Reconciles(started: int) {
      started == queued + classifying + dispositioned && queued + classifying <= 1
    }
  }

  /** Why frames were read and not admitted. */
  datatype Rejections = Rejections(oversize: int, capacity: int, slot: int, byte: int, receipt: int, gate: int)

  datatype FrameLedger = FrameLedger(
    read: int, decoding: int, admitted: int, shed: int, rejected: Rejections,
    queued: int, classifying: int, dispositioned: int, fenced: int
  ) {
    predicate Reconciles() {
      && read == decoding + admitted + shed + rejected.oversize + rejected.capacity + rejected.receipt + rejected.gate
      && rejected.capacity == rejected.slot + rejected.byte
      && admitted == queued + classifying + dispositioned + fenced
    }
  }

  datatype Ledger = Ledger(
    frames: FrameLedger, queuedBytes: int, terminal: MarkerLedger,
    fencesStarted: int, fences: MarkerLedger, tqStarted: int, tq: MarkerLedger,
    shedTrades: int, shedQuotes: int, highFramesQueued: int, highQueuedBytes: int
  ) {
    predicate Reconciles() {
      && frames.Reconciles()
      && terminal.queued + terminal.classifying + terminal.dispositioned <= 1
      && fences.Reconciles(fencesStarted)
      && tq.Reconciles(tqStarted)
    }
  }

  const EmptyLedger := Ledger(FrameLedger(0, 0, 0, 0, Rejections(0, 0, 0, 0, 0, 0), 0, 0, 0, 0), 0,
                              MarkerLedger(0, 0, 0), 0, MarkerLedger(0, 0, 0), 0, MarkerLedger(0, 0, 0), 0, 0, 0, 0)

  /** The queue's fields, with the ring read out as the sequence it holds. */
  datatype Queue = Queue(
    config: Config, items: seq<Item>, bytes: int, next: nat, lastReceipt: Option<int>,
    greatestRaw: nat, greatestAdmitted: nat, decoding: bool, tqOutstanding: bool,
    nextFence: nat, gateOpen: bool, ledger: Ledger)

  function NewQueue(config: Config): Queue {
    Queue(config, [], 0, 1, None, 0, 0, false, false, 1, true, EmptyLedger)
  }

  datatype Admission =
    | Admitted | RejectedOversize | RejectedSlot | RejectedByte | RejectedReceipt | RejectedGate | ShedTQ

  /** The queue with other frame counters. */
  function WithFrames(q: Queue, frames: FrameLedger): Queue {
    q.(ledger := q.ledger.(frames := frames))
  }

  function BeginDecode(q: Queue, epoch: nat, known: bool, receipt: Option<int>, encoded: int): (Queue, Admission)
  {
    var f := q.ledger.frames.(read := q.ledger.frames.read + 1);
    var r := f.rejected;
    if !q.gateOpen || q.decoding || epoch == 0 || q.next == 0 || !known then
      (WithFrames(q, f.(rejected := r.(gate := r.gate + 1))), RejectedGate)
    else if encoded > q.config.maxFrameBytes || encoded < 0 then
      (WithFrames(q, f.(rejected := r.(oversize := r.oversize + 1))), RejectedOversize)
    else if receipt.None? || (q.lastReceipt.Some? && receipt.value < q.lastReceipt.value) then
      (WithFrames(q, f.(rejected := r.(receipt := r.receipt + 1))), RejectedReceipt)
    else
      (WithFrames(q, f.(decoding := f.decoding + 1)).(next := q.next + 1, greatestRaw := q.next,
                                                      lastReceipt := receipt, decoding := true),
       Admitted)
  }

  datatype ResultKind = Trade | Quote | RejectedTrade | RejectedQuote | RejectedOther | OtherResult

  datatype Batch = Batch(encodedBytes: int, epoch: nat, sequence: nat, receivedAt: Option<int>, charge: int,
                         results: seq<ResultKind>)

  /** The trades and quotes of a batch that holds nothing else; None when some result must not be shed. */
  function OptionalOnly(results: seq<ResultKind>): Option<(nat, nat)> {
    if results == [] then Some((0, 0))
    else
      var rest := OptionalOnly(results[1..]);
      if rest.None? then None
      else match results[0]
        case Trade => Some((rest.value.0 + 1, rest.value.1))
        case RejectedTrade => Some((rest.value.0 + 1, rest.value.1))
        case Quote => Some((rest.value.0, rest.value.1 + 1))
        case RejectedQuote => Some((rest.value.0, rest.value.1 + 1))
        case _ => None
  }

  /** The shed path: what the queue becomes when a full queue may drop this batch, None when it may not. */
  function Shed(q: Queue, epoch: nat, sequence: nat, batch: Batch): Option<Queue> {
    var families := OptionalOnly(batch.results);
    if families.None? || families.value.0 + families.value.1 == 0 || |q.items| >= q.config.RingEntries() then None
    else
      var l := q.ledger.(frames := q.ledger.frames.(shed := q.ledger.frames.shed + 1),
                         shedTrades := q.ledger.shedTrades + families.value.0,
                         shedQuotes := q.ledger.shedQuotes + families.value.1);
      if q.tqOutstanding then Some(q.(ledger := l))
      else Some(q.(items := q.items + [TQCapacity(epoch, sequence)], tqOutstanding := true,
                   ledger := l.(tqStarted := l.tqStarted + 1, tq := l.tq.(queued := 1))))
  }

  predicate BatchMatches(batch: Batch, epoch: nat, sequence: nat, receivedAt: Option<int>, encoded: int) {
    && batch.encodedBytes == encoded && batch.epoch == epoch && batch.sequence == sequence
    && batch.receivedAt == receivedAt
    && 0 <= batch.charge <= MAXIMUM_DECODED_BATCH_CHARGE
    && |batch.results| <= MAXIMUM_DECODED_BATCH_ELEMENTS
  }

  /** The queue after the decode reservation is released. */
  function Released(q: Queue): Queue {
    WithFrames(q, q.ledger.frames.(decoding := q.ledger.frames.decoding - 1)).(decoding := false)
  }

  function CapacityRejected(d: Queue, slot: bool): Queue {
    var r := d.ledger.frames.rejected;
    var counted := if slot then r.(capacity := r.capacity + 1, slot := r.slot + 1)
                   else r.(capacity := r.capacity + 1, byte := r.byte + 1);
    WithFrames(d, d.ledger.frames.(rejected := counted))
  }

  /** The ledger after a frame is admitted and the queue holds `bytes`. */
  function AdmittedLedger(l: Ledger, bytes: int): Ledger {
    var f := l.frames.(admitted := l.frames.admitted + 1, queued := l.frames.queued + 1);
    l.(frames := f, queuedBytes := bytes, highFramesQueued := Max(l.highFramesQueued, f.queued),
       highQueuedBytes := Max(l.highQueuedBytes, bytes))
  }

  function Enqueued(d: Queue, frame: Item): Queue
    requires frame.Decoded?
  {
    var bytes := d.bytes + frame.charge;
    d.(items := d.items + [frame], bytes := bytes, greatestAdmitted := frame.sequence,
       ledger := AdmittedLedger(d.ledger, bytes))
  }

  function EnqueueDecoded(q: Queue, epoch: nat, sequence: nat, receivedAt: Option<int>, encoded: int, batch: Batch)
    : (Queue, Admission)
    requires q.config.Valid()
  {
    if !q.decoding then (q, RejectedGate)
    else
      var d := Released(q);
      var r := d.ledger.frames.rejected;
      if sequence == 0 || sequence != q.greatestRaw || !q.gateOpen then
        (WithFrames(d, d.ledger.frames.(rejected := r.(gate := r.gate + 1))), RejectedGate)
      else if !BatchMatches(batch, epoch, sequence, receivedAt, encoded) then
        (WithFrames(d, d.ledger.frames.(rejected := r.(oversize := r.oversize + 1))), RejectedOversize)
      else if d.ledger.frames.queued >= q.config.DecodedSlots() then
        var shed := Shed(d, epoch, sequence, batch);
        if shed.Some? then (shed.value, ShedTQ) else (CapacityRejected(d, true), RejectedSlot)
      else if batch.charge > q.config.DecodedBytes() - q.bytes then
        var shed := Shed(d, epoch, sequence, batch);
        if shed.Some? then (shed.value, ShedTQ) else (CapacityRejected(d, false), RejectedByte)
      else (Enqueued(d, Decoded(epoch, sequence, receivedAt, batch.charge)), Admitted)
  }

  function Max(a: int, b: int): int {
    if a < b then b else a
  }

  /** Outcome of one locked attempt: a refusal, a wait for a change, or the entry that was appended. */
  datatype Attempt = Refused | Wait | Appended(item: Item)

  function EnqueueFence(q: Queue, kind: FenceKind, epoch: nat, now: int): (Queue, Attempt) {
    var fences := q.ledger.fences;
    if fences.queued + fences.classifying > 0 then (q, Refused)
    else if !q.gateOpen || q.nextFence == 0 then (q, Refused)
    else if q.decoding then (q, Wait)
    else if |q.items| < q.config.RingEntries() then
      var fence := Fence(kind, epoch, q.greatestRaw, q.nextFence, now, Complete);
      (q.(items := q.items + [fence], nextFence := q.nextFence + 1,
          ledger := q.ledger.(fencesStarted := q.ledger.fencesStarted + 1,
                              fences := fences.(queued := fences.queued + 1))),
       Appended(fence))
    else (q, Wait)
  }

  /** A canceled ingress fence gets an ordinal of its own and is never queued. */
  function CanceledFence(q: Queue, epoch: nat, now: int): (Queue, Option<Item>) {
    if q.nextFence == 0 then (q, None)
    else (q.(nextFence := q.nextFence + 1),
          Some(Fence(IngressFence, epoch, q.greatestRaw, q.nextFence, now, Canceled)))
  }

  /** What the terminal's pass over the queue has kept so far, and how many frames and how much charge it dropped. */
  datatype Sifted = Sifted(kept: seq<Item>, frames: nat, charge: nat)

  /** One more entry: fences are canceled, shed markers stay, and a decoded frame stays only up to the cutoff (none
      stays without one). */
  function SiftOne(s: Sifted, item: Item, cutoff: Option<nat>): Sifted {
    match item
    case Fence(_, _, _, _, _, _) => s.(kept := s.kept + [item.(state := Canceled)])
    case Decoded(_, _, _, charge) =>
      if cutoff.Some? && item.sequence <= cutoff.value then s.(kept := s.kept + [item])
      else s.(frames := s.frames + 1, charge := s.charge + charge)
    case _ => s.(kept := s.kept + [item])
  }

  /** The pass in queue order. */
  function Sift(items: seq<Item>, cutoff: Option<nat>): Sifted {
    if items == [] then Sifted([], 0, 0)
    else SiftOne(Sift(items[..|items| - 1], cutoff), items[|items| - 1], cutoff)
  }

  /** The ledger after `n` queued frames are dropped. */
  function Dropped(l: Ledger, n: int): Ledger {
    l.(frames := l.frames.(queued := l.frames.queued - n, fenced := l.frames.fenced + n))
  }

  /** The queue after the pass. */
  function Cut(q: Queue, s: Sifted, cutoff: Option<nat>): Queue {
    var bytes := if cutoff.None? then 0 else q.bytes - s.charge;
    q.(items := s.kept, bytes := bytes, ledger := Dropped(q.ledger, s.frames).(queuedBytes := bytes))
  }

  function PlaceTerminal(q: Queue, epoch: nat): Queue {
    q.(items := q.items + [Terminal(epoch, q.next)], next := q.next + 1,
       ledger := q.ledger.(terminal := q.ledger.terminal.(queued := 1)))
  }

  /** The terminal marker: drop what the cutoff excludes, then append the marker with the next sequence. */
  function EnqueueTerminal(q: Queue, epoch: nat, cutoff: Option<nat>): Queue {
    PlaceTerminal(Cut(q, Sift(q.items, cutoff), cutoff), epoch)
  }

  /** The ledger after an entry is popped and the queue holds `bytes`. */
  function PoppedLedger(l: Ledger, item: Item, bytes: int): Ledger {
    match item
    case Terminal(_, _) => l.(terminal := l.terminal.(queued := 0, classifying := 1))
    case Fence(_, _, _, _, _, _) =>
      l.(fences := l.fences.(queued := l.fences.queued - 1, classifying := l.fences.classifying + 1))
    case TQCapacity(_, _) => l.(tq := l.tq.(queued := 0, classifying := 1))
    case Decoded(_, _, _, _) =>
      l.(frames := l.frames.(queued := l.frames.queued - 1, classifying := l.frames.classifying + 1),
         queuedBytes := bytes)
  }

  function Pop(q: Queue): Queue
    requires q.items != []
  {
    var bytes := q.bytes - ChargeOf(q.items[0]);
    q.(items := q.items[1..], bytes := bytes, ledger := PoppedLedger(q.ledger, q.items[0], bytes))
  }

  function CompletedLedger(l: Ledger, item: Item, fenced: bool): Ledger {
    match item
    case Terminal(_, _) => l.(terminal := l.terminal.(classifying := 0, dispositioned := 1))
    case Fence(_, _, _, _, _, _) =>
      l.(fences := l.fences.(classifying := l.fences.classifying - 1, dispositioned := l.fences.dispositioned + 1))
    case TQCapacity(_, _) =>
      l.(tq := l.tq.(classifying := 0, dispositioned := l.tq.dispositioned + 1))
    case Decoded(_, _, _, _) =>
      var f := l.frames.(classifying := l.frames.classifying - 1);
      l.(frames := if fenced then f.(fenced := f.fenced + 1) else f.(dispositioned := f.dispositioned + 1))
  }

  function CompleteItem(q: Queue, item: Item, fenced: bool): Queue {
    q.(tqOutstanding := q.tqOutstanding && !item.TQCapacity?, ledger := CompletedLedger(q.ledger, item, fenced))
  }
}
