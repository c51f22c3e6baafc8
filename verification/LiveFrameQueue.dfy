/** The live frame queue as it runs: a ring array with a head and a count, and counters updated in place.  Every
    method is proved to do to the queue's contents and ledger exactly what its counterpart in `LiveQueueModel` says. */
module LiveFrameQueues {
  import opened Options
  import opened M = LiveQueueModel
  import Runs = LiveQueueRuns

  /** What a cleared ring entry holds. */
  const Cleared := Decoded(0, 0, None, 0)

  class LiveFrameQueue {
    const config: Config
    const frames: array<Item>
    var head: nat
    var count: nat
    var bytes: int
    var next: nat
    var lastReceipt: Option<int>
    var greatestRaw: nat
    var greatestAdmitted: nat
    var decoding: bool
    var tqOutstanding: bool
    var nextFence: nat
    var gateOpen: bool
    var ledger: Ledger

    /** What the ring holds, read from its head. */
    ghost var items: seq<Item>

    predicate InBounds()
      reads this
    {
      config.Valid() && frames.Length == config.RingEntries() && head < frames.Length && count <= frames.Length
    }

    /** The ring position an offset from the head stands for: (head + offset) modulo the ring size, as the head is
        inside the ring and the offset is at most its size. */
    function Slot(offset: nat): (slot: nat)
      reads this
      requires InBounds() && offset <= frames.Length
      ensures slot < frames.Length
    {
      if head + offset < frames.Length then head + offset else head + offset - frames.Length
    }

    ghost predicate Valid()
      reads this, frames
    {
      && InBounds()
      && |items| == count
      && forall i :: 0 <= i < count ==> frames[Slot(i)] == items[i]
    }

    ghost function Abs(): Queue
      reads this
    {
      Queue(config, items, bytes, next, lastReceipt, greatestRaw, greatestAdmitted, decoding, tqOutstanding,
            nextFence, gateOpen, ledger)
    }

    constructor (config: Config)
      requires config.Valid()
      ensures Valid() && fresh(frames) && Abs() == NewQueue(config)
    {
      this.config := config;
      frames := new Item[config.RingEntries()](_ => Cleared);
      head, count, bytes, next := 0, 0, 0, 1;
      lastReceipt, greatestRaw, greatestAdmitted := None, 0, 0;
      decoding, tqOutstanding, nextFence, gateOpen := false, false, 1, true;
      ledger := EmptyLedger;
      items := [];
    }

    /** Needs a free ring entry; `LiveQueueRuns.QueueLedger` shows that every append of the protocol finds one. */
    method Append(item: Item)
      requires Valid() && count < frames.Length
      modifies this`count, this`items, frames
      ensures Valid() && items == old(items) + [item]
    {
      frames[Slot(count)] := item;
      count := count + 1;
      items := items + [item];
    }

    method BeginDecode(epoch: nat, known: bool, receipt: Option<int>, encoded: int)
      returns (sequence: nat, reason: Admission)
      requires Valid()
      modifies this
      ensures Valid() && (Abs(), reason) == M.BeginDecode(old(Abs()), epoch, known, receipt, encoded)
      ensures sequence == if reason == Admitted then old(next) else 0
    {
      var f := ledger.frames.(read := ledger.frames.read + 1);
      var r := f.rejected;
      if !gateOpen || decoding || epoch == 0 || next == 0 {
        ledger := ledger.(frames := f.(rejected := r.(gate := r.gate + 1)));
        return 0, RejectedGate;
      }
      if !known {
        ledger := ledger.(frames := f.(rejected := r.(gate := r.gate + 1)));
        return 0, RejectedGate;
      }
      if encoded > config.maxFrameBytes || encoded < 0 {
        ledger := ledger.(frames := f.(rejected := r.(oversize := r.oversize + 1)));
        return 0, RejectedOversize;
      }
      if receipt.None? || (lastReceipt.Some? && receipt.value < lastReceipt.value) {
        ledger := ledger.(frames := f.(rejected := r.(receipt := r.receipt + 1)));
        return 0, RejectedReceipt;
      }
      sequence := next;
      next := next + 1;
      greatestRaw := sequence;
      lastReceipt := receipt;
      decoding := true;
      ledger := ledger.(frames := f.(decoding := f.decoding + 1));
      reason := Admitted;
    }

    /** How many trades and quotes a batch carries, unless it carries anything else. */
    static method CountFamilies(results: seq<ResultKind>) returns (families: Option<(nat, nat)>)
      ensures families == OptionalOnly(results)
    {
      var trades, quotes, i := 0, 0, 0;
      while i < |results|
        invariant i <= |results|
        invariant var rest := OptionalOnly(results[i..]);
                  OptionalOnly(results) == if rest.None? then None
                                           else Some((trades + rest.value.0, quotes + rest.value.1))
      {
        assert results[i..][1..] == results[i + 1..];
        match results[i] {
          case Trade => trades := trades + 1;
          case Quote => quotes := quotes + 1;
          case RejectedTrade => trades := trades + 1;
          case RejectedQuote => quotes := quotes + 1;
          case _ => return None;
        }
        i := i + 1;
      }
      return Some((trades, quotes));
    }

    /** Drops a batch of only trades and quotes, leaving one marker; refuses any other batch. */
    method ShedTQOnly(epoch: nat, sequence: nat, batch: Batch) returns (shed: bool)
      requires Valid()
      modifies this`ledger, this`count, this`items, this`tqOutstanding, frames
      ensures Valid()
      ensures shed <==> Shed(old(Abs()), epoch, sequence, batch).Some?
      ensures Abs() == if shed then Shed(old(Abs()), epoch, sequence, batch).value else old(Abs())
    {
      var families := CountFamilies(batch.results);
      if families.None? {
        return false;
      }
      var (trades, quotes) := families.value;
      if trades + quotes == 0 || count >= frames.Length {
        return false;
      }
      ledger := ledger.(frames := ledger.frames.(shed := ledger.frames.shed + 1),
                        shedTrades := ledger.shedTrades + trades, shedQuotes := ledger.shedQuotes + quotes);
      if !tqOutstanding {
        Append(TQCapacity(epoch, sequence));
        tqOutstanding := true;
        ledger := ledger.(tqStarted := ledger.tqStarted + 1, tq := ledger.tq.(queued := 1));
      }
      return true;
    }

    method ReleaseDecode()
      requires Valid()
      modifies this`decoding, this`ledger
      ensures Valid() && Abs() == Released(old(Abs()))
    {
      decoding := false;
      ledger := ledger.(frames := ledger.frames.(decoding := ledger.frames.decoding - 1));
    }

    method CountRejection(r: Rejections)
      requires Valid()
      modifies this`ledger
      ensures Valid() && Abs() == WithFrames(old(Abs()), old(Abs()).ledger.frames.(rejected := r))
    {
      ledger := ledger.(frames := ledger.frames.(rejected := r));
    }

    method CountAdmission()
      requires Valid()
      modifies this`ledger
      ensures ledger == AdmittedLedger(old(ledger), bytes)
    {
      var f := ledger.frames.(admitted := ledger.frames.admitted + 1, queued := ledger.frames.queued + 1);
      ledger := ledger.(frames := f, queuedBytes := bytes);
      if f.queued > ledger.highFramesQueued {
        ledger := ledger.(highFramesQueued := f.queued);
      }
      if bytes > ledger.highQueuedBytes {
        ledger := ledger.(highQueuedBytes := bytes);
      }
    }

    method AdmitFrame(frame: Item)
      requires Valid() && frame.Decoded? && count < frames.Length
      modifies this, frames
      ensures Valid() && Abs() == Enqueued(old(Abs()), frame)
    {
      Append(frame);
      bytes := bytes + frame.charge;
      greatestAdmitted := frame.sequence;
      CountAdmission();
    }

    /** The ring entries left over for markers are what makes the final append safe. */
    method TryEnqueueDecoded(epoch: nat, sequence: nat, receivedAt: Option<int>, encoded: int, batch: Batch)
      returns (reason: Admission)
      requires Valid() && count < frames.Length
      modifies this, frames
      ensures Valid()
      ensures (Abs(), reason) == EnqueueDecoded(old(Abs()), epoch, sequence, receivedAt, encoded, batch)
    {
      if !decoding {
        return RejectedGate;
      }
      ReleaseDecode();
      var r := ledger.frames.rejected;
      if sequence == 0 || sequence != greatestRaw || !gateOpen {
        CountRejection(r.(gate := r.gate + 1));
        return RejectedGate;
      }
      if !BatchMatches(batch, epoch, sequence, receivedAt, encoded) {
        CountRejection(r.(oversize := r.oversize + 1));
        return RejectedOversize;
      }
      if ledger.frames.queued >= config.DecodedSlots() {
        var shed := ShedTQOnly(epoch, sequence, batch);
        if shed {
          return ShedTQ;
        }
        CountRejection(r.(capacity := r.capacity + 1, slot := r.slot + 1));
        return RejectedSlot;
      }
      if batch.charge > config.DecodedBytes() - bytes {
        var shed := ShedTQOnly(epoch, sequence, batch);
        if shed {
          return ShedTQ;
        }
        CountRejection(r.(capacity := r.capacity + 1, byte := r.byte + 1));
        return RejectedByte;
      }
      AdmitFrame(Decoded(epoch, sequence, receivedAt, batch.charge));
      return Admitted;
    }

    /** One locked attempt of either fence loop. */
    method TryEnqueueFence(kind: FenceKind, epoch: nat, now: int) returns (outcome: Attempt)
      requires Valid()
      modifies this, frames
      ensures Valid() && (Abs(), outcome) == EnqueueFence(old(Abs()), kind, epoch, now)
    {
      if ledger.fences.queued + ledger.fences.classifying > 0 {
        return Refused;
      }
      if !gateOpen || nextFence == 0 {
        return Refused;
      }
      if decoding {
        return Wait;
      }
      if count < frames.Length {
        var fence := Fence(kind, epoch, greatestRaw, nextFence, now, Complete);
        nextFence := nextFence + 1;
        Append(fence);
        ledger := ledger.(fencesStarted := ledger.fencesStarted + 1,
                          fences := ledger.fences.(queued := ledger.fences.queued + 1));
        return Appended(fence);
      }
      return Wait;
    }

    method CanceledIngressFence(epoch: nat, now: int) returns (fact: Option<Item>)
      requires Valid()
      modifies this`nextFence
      ensures Valid() && (Abs(), fact) == CanceledFence(old(Abs()), epoch, now)
    {
      if nextFence == 0 {
        return None;
      }
      fact := Some(Fence(IngressFence, epoch, greatestRaw, nextFence, now, Canceled));
      nextFence := nextFence + 1;
    }

    method CloseGate()
      requires Valid()
      modifies this`gateOpen
      ensures Valid() && Abs() == old(Abs()).(gateOpen := false)
    {
      if gateOpen {
        gateOpen := false;
      }
    }

    /** Empties the ring and reads the retained entries back in from its start. */
    method Refill(retained: seq<Item>)
      requires Valid() && |retained| <= frames.Length
      modifies this`head, this`count, this`items, frames
      ensures Valid() && items == retained
    {
      forall i | 0 <= i < frames.Length { frames[i] := Cleared; }
      head, count, items := 0, 0, [];
      var i := 0;
      while i < |retained|
        invariant i <= |retained| && Valid() && count == i
        invariant items == retained[..i]
      {
        Append(retained[i]);
        i := i + 1;
      }
    }

    method AppendTerminal(epoch: nat) returns (frame: Item)
      requires Valid() && count < frames.Length
      modifies this`next, this`count, this`items, this`ledger, frames
      ensures Valid() && frame == Terminal(epoch, old(next)) && Abs() == PlaceTerminal(old(Abs()), epoch)
    {
      frame := Terminal(epoch, next);
      next := next + 1;
      Append(frame);
      ledger := ledger.(terminal := ledger.terminal.(queued := 1));
    }

    method CountDrop()
      requires Valid()
      modifies this`ledger
      ensures ledger == Dropped(old(ledger), 1)
    {
      var f := ledger.frames;
      ledger := ledger.(frames := f.(queued := f.queued - 1, fenced := f.fenced + 1));
    }

    /** Passes over the queue up to the cutoff `through`, taking dropped frames out of the bytes and the counters. */
    method CollectThrough(through: nat) returns (retained: seq<Item>)
      requires Valid() && forall i :: 0 <= i < count ==> !items[i].Terminal?
      modifies this`bytes, this`ledger
      ensures retained == Sift(items, Some(through)).kept && |retained| <= count
      ensures bytes == old(bytes) - Sift(items, Some(through)).charge
      ensures ledger == Dropped(old(ledger), Sift(items, Some(through)).frames)
    {
      hide Sift;
      NothingSifted(Some(through));
      assert items[..0] == [];
      var offset := 0;
      ghost var sifted := Sifted([], 0, 0);
      retained := [];
      while offset < count
        invariant offset <= count && |retained| <= offset
        invariant sifted == Sift(items[..offset], Some(through)) && retained == sifted.kept
        invariant bytes == old(bytes) - sifted.charge && ledger == Dropped(old(ledger), sifted.frames)
      {
        var item := frames[Slot(offset)];
        SiftStep(items, offset, Some(through));
        match item {
          case Fence(_, _, _, _, _, _) => retained := retained + [item.(state := Canceled)];
          case TQCapacity(_, _) => retained := retained + [item];
          case Decoded(_, _, _, _) =>
            if item.sequence <= through {
              retained := retained + [item];
            } else {
              CountDrop();
              bytes := bytes - item.charge;
            }
        }
        sifted := SiftOne(sifted, item, Some(through));
        offset := offset + 1;
      }
      assert items[..count] == items;
    }

    method CutThrough(through: nat)
      requires Valid() && forall i :: 0 <= i < count ==> !items[i].Terminal?
      modifies this`head, this`count, this`items, this`bytes, this`ledger, frames
      ensures Valid() && Abs() == Cut(old(Abs()), Sift(old(items), Some(through)), Some(through))
      ensures count <= old(count)
    {
      hide Sift;
      ghost var sifted := Sift(items, Some(through));
      var retained := CollectThrough(through);
      assert bytes == old(bytes) - sifted.charge && ledger == Dropped(old(ledger), sifted.frames);
      Refill(retained);
      ledger := ledger.(queuedBytes := bytes);
    }

    /** One locked attempt of the terminal that still delivers the frames up to `through`. */
    method TryEnqueueTerminal(epoch: nat, through: nat) returns (frame: Option<Item>)
      requires Valid() && forall i :: 0 <= i < count ==> !items[i].Terminal?
      modifies this, frames
      ensures Valid()
      ensures if old(count < frames.Length && next != 0)
              then frame == Some(Terminal(epoch, old(next)))
                   && Abs() == EnqueueTerminal(old(Abs()), epoch, Some(through))
              else frame == None && Abs() == old(Abs())
    {
      if count >= frames.Length || next == 0 {
        return None;
      }
      CutThrough(through);
      var placed := AppendTerminal(epoch);
      frame := Some(placed);
    }

    /** Passes over the queue keeping only markers; two entries hold them all. */
    method CollectMarkers() returns (retained: array<Item>, kept: nat)
      requires Valid() && forall i :: 0 <= i < count ==> !items[i].Terminal?
      requires Count(items, FenceKindTag) + Count(items, TQKind) <= 2
      modifies this`ledger
      ensures fresh(retained) && retained.Length == 2 && kept <= 2 && kept <= count
      ensures retained[..kept] == Sift(items, None).kept
      ensures ledger == Dropped(old(ledger), Sift(items, None).frames)
    {
      hide Count, Sift;
      NothingSifted(None);
      assert items[..0] == [];
      retained := new Item[2](_ => Cleared);
      kept := 0;
      var offset := 0;
      ghost var sifted := Sifted([], 0, 0);
      while offset < count
        invariant offset <= count && kept <= 2 && kept <= offset
        invariant sifted == Sift(items[..offset], None) && retained[..kept] == sifted.kept
        invariant ledger == Dropped(old(ledger), sifted.frames)
      {
        var item := frames[Slot(offset)];
        SiftStep(items, offset, None);
        TwoSlots(items, offset);
        match item {
          case Fence(_, _, _, _, _, _) =>
            retained[kept] := item.(state := Canceled);
            kept := kept + 1;
          case TQCapacity(_, _) =>
            retained[kept] := item;
            kept := kept + 1;
          case Decoded(_, _, _, _) => CountDrop();
        }
        sifted := SiftOne(sifted, item, None);
        offset := offset + 1;
      }
      assert items[..count] == items;
    }

    method CutToMarkers()
      requires Valid() && forall i :: 0 <= i < count ==> !items[i].Terminal?
      requires Count(items, FenceKindTag) + Count(items, TQKind) <= 2
      modifies this`head, this`count, this`items, this`bytes, this`ledger, frames
      ensures Valid() && Abs() == Cut(old(Abs()), Sift(old(items), None), None)
      ensures count <= 2
    {
      hide Sift, Count;
      var retained, kept := CollectMarkers();
      Refill(retained[..kept]);
      bytes := 0;
      ledger := ledger.(queuedBytes := 0);
    }

    /** The terminal that drops every queued frame. */
    method FenceQueuedAndEnqueueTerminal(epoch: nat) returns (frame: Item)
      requires Valid() && forall i :: 0 <= i < count ==> !items[i].Terminal?
      requires Count(items, FenceKindTag) + Count(items, TQKind) <= 2
      modifies this, frames
      ensures Valid() && frame == Terminal(epoch, old(next))
      ensures Abs() == EnqueueTerminal(old(Abs()), epoch, None)
    {
      CutToMarkers();
      frame := AppendTerminal(epoch);
    }

    method RemoveFirst() returns (item: Item)
      requires Valid() && count > 0
      modifies this`head, this`count, this`items, frames
      ensures Valid()
      ensures item == old(items[0]) && items == old(items[1..])
    {
      item := frames[head];
      frames[head] := Cleared;
      head := if head + 1 == frames.Length then 0 else head + 1;
      count := count - 1;
      items := items[1..];
      if count == 0 {
        head := 0;
      }
    }

    /** Moves a popped entry from its queued counter to its classifying counter. */
    method CountPop(item: Item)
      requires Valid()
      modifies this`ledger, this`bytes
      ensures bytes == old(bytes) - ChargeOf(item) && ledger == PoppedLedger(old(ledger), item, bytes)
    {
      match item {
        case Terminal(_, _) => ledger := ledger.(terminal := ledger.terminal.(queued := 0, classifying := 1));
        case Fence(_, _, _, _, _, _) =>
          ledger := ledger.(fences := ledger.fences.(queued := ledger.fences.queued - 1,
                                                     classifying := ledger.fences.classifying + 1));
        case TQCapacity(_, _) => ledger := ledger.(tq := ledger.tq.(queued := 0, classifying := 1));
        case Decoded(_, _, _, _) =>
          bytes := bytes - item.charge;
          var f := ledger.frames;
          ledger := ledger.(frames := f.(queued := f.queued - 1, classifying := f.classifying + 1),
                            queuedBytes := bytes);
      }
    }

    /** The locked part of a pop: the first queued entry, or None when the queue is empty. */
    method TryPop() returns (frame: Option<Item>)
      requires Valid()
      modifies this, frames
      ensures Valid()
      ensures frame == (if old(items) == [] then None else Some(old(items[0])))
      ensures Abs() == if old(items) == [] then old(Abs()) else M.Pop(old(Abs()))
    {
      if count == 0 {
        return None;
      }
      var item := RemoveFirst();
      CountPop(item);
      frame := Some(item);
    }

    method CompleteFrame(frame: Item, fenced: bool)
      requires Valid()
      modifies this`ledger, this`tqOutstanding
      ensures Valid() && Abs() == CompleteItem(old(Abs()), frame, fenced)
    {
      match frame {
        case Terminal(_, _) =>
          ledger := ledger.(terminal := ledger.terminal.(classifying := 0, dispositioned := 1));
        case Fence(_, _, _, _, _, _) =>
          ledger := ledger.(fences := ledger.fences.(classifying := ledger.fences.classifying - 1,
                                                     dispositioned := ledger.fences.dispositioned + 1));
        case TQCapacity(_, _) =>
          ledger := ledger.(tq := ledger.tq.(classifying := 0, dispositioned := ledger.tq.dispositioned + 1));
          tqOutstanding := false;
        case Decoded(_, _, _, _) =>
          var f := ledger.frames.(classifying := ledger.frames.classifying - 1);
          ledger := ledger.(frames := if fenced then f.(fenced := f.fenced + 1)
                                      else f.(dispositioned := f.dispositioned + 1));
      }
    }
  }

  lemma NothingSifted(cutoff: Option<nat>)
    ensures Sift([], cutoff) == Sifted([], 0, 0)
  {}

  /** The terminal's pass one entry further. */
  lemma SiftStep(items: seq<Item>, offset: nat, cutoff: Option<nat>)
    requires offset < |items|
    ensures Sift(items[..offset + 1], cutoff) == SiftOne(Sift(items[..offset], cutoff), items[offset], cutoff)
  {
    assert items[..offset + 1][..offset] == items[..offset];
  }

  lemma {:induction false} CountPrefix(items: seq<Item>, n: nat, k: ItemKind)
    requires n <= |items|
    ensures Count(items[..n], k) <= Count(items, k)
  {
    if n > 0 {
      assert items[..n][1..] == items[1..][..n - 1];
      CountPrefix(items[1..], n - 1, k);
    }
  }

  lemma {:induction false} NoneOfKind(items: seq<Item>, k: ItemKind)
    requires forall i :: 0 <= i < |items| ==> KindOf(items[i]) != k
    ensures Count(items, k) == 0
  {
    if items != [] { NoneOfKind(items[1..], k); }
  }

  /** While a marker is still to be retained, one of the two entries is free. */
  lemma TwoSlots(items: seq<Item>, offset: nat)
    requires offset < |items| && forall i :: 0 <= i < |items| ==> !items[i].Terminal?
    requires Count(items, FenceKindTag) + Count(items, TQKind) <= 2
    ensures !items[offset].Decoded? ==> |Sift(items[..offset], None).kept| < 2
  {
    var before, x := items[..offset], items[offset];
    var kept := Sift(before, None).kept;
    assert items[..offset + 1] == before + [x];
    CountPrefix(items, offset + 1, FenceKindTag);
    CountPrefix(items, offset + 1, TQKind);
    Runs.CountAppend(before, x, FenceKindTag);
    Runs.CountAppend(before, x, TQKind);
    Runs.SiftKeepsMarkers(before, None, FenceKindTag);
    Runs.SiftKeepsMarkers(before, None, TQKind);
    Runs.SiftKeepsMarkers(before, None, TerminalKind);
    Runs.SiftDropsFrames(before);
    NoneOfKind(before, TerminalKind);
    Runs.CountsMakeLength(kept);
  }
}
