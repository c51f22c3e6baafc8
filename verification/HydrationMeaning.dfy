/** What the hydration ledger takes and what it refuses: a stream of chunks exactly when it is a chunking of ascending
    rows of the interval, a terminal exactly when its counts agree with what was consumed, and each other fact by the
    generation, the request and the token it names. */
module HydrationMeaning {
  import opened Options
  import opened HydrationLedgers

  // ----------------------------------------------------------------------------------------------- a stream of chunks

  function RowsOf(chunks: seq<Chunk>): seq<int> {
    if chunks == [] then [] else RowsOf(chunks[..|chunks| - 1]) + chunks[|chunks| - 1].rows
  }

  /** Each chunk is in its place, with rows, no more than a chunk may have, and under the totals of the first. */
  ghost predicate InPlace(b: Budgets, chunks: seq<Chunk>) {
    forall i :: 0 <= i < |chunks| ==>
      var c := chunks[i];
      && c.ordinal == i && c.rowOffset == |RowsOf(chunks[..i])| && 1 <= |c.rows| <= b.rowsPerChunk
      && c.totalChunks == chunks[0].totalChunks && c.totalRows == chunks[0].totalRows
  }

  /** No more chunks and rows than announced, all of both at once, and no more rows than the interval has seconds. */
  ghost predicate WithinTotals(t: Token, chunks: seq<Chunk>) {
    chunks != [] ==>
      && 1 <= |chunks| <= chunks[0].totalChunks && 1 <= |RowsOf(chunks)| <= chunks[0].totalRows
      && (|chunks| == chunks[0].totalChunks <==> |RowsOf(chunks)| == chunks[0].totalRows)
      && chunks[0].totalRows <= t.end - t.start
  }

  /** Seconds of the interval, strictly ascending over the whole stream. */
  ghost predicate AscendingInside(t: Token, rows: seq<int>) {
    && (forall i :: 0 <= i < |rows| ==> t.start <= rows[i] && rows[i] < t.end)
    && (forall i, j :: 0 <= i < j < |rows| ==> rows[i] < rows[j])
  }

  ghost predicate WellChunked(t: Token, b: Budgets, chunks: seq<Chunk>) {
    InPlace(b, chunks) && WithinTotals(t, chunks) && AscendingInside(t, RowsOf(chunks))
  }

  /** The entry of a request once a stream was applied, if every chunk of it was. */
  function Applied(t: Token, b: Budgets, chunks: seq<Chunk>): Option<Entry>
    requires forall i :: 0 <= i < |chunks| ==> chunks[i].rows != []
  {
    if chunks == [] then Some(NewEntry(t))
    else
      var before, c := Applied(t, b, chunks[..|chunks| - 1]), chunks[|chunks| - 1];
      if before.None? then None
      else
        var (e, code) := AcceptChunk(before.value, c, b);
        if code == ChunkApplied then Some(e) else None
  }

  /** What an entry holds after a whole stream: how many chunks and rows of how many, and the last row. */
  function Consumed(t: Token, chunks: seq<Chunk>): Entry {
    var rows := RowsOf(chunks);
    Entry(t, |chunks|, if chunks == [] || chunks[0].totalChunks < 0 then 0 else chunks[0].totalChunks, |rows|,
          if chunks == [] || chunks[0].totalRows < 0 then 0 else chunks[0].totalRows,
          if rows == [] then None else Some(rows[|rows| - 1]), None, NoReason, false, false)
  }

  /** One more chunk makes a good stream out of a good one exactly when it fits the entry. */
  lemma OneMoreChunk(t: Token, b: Budgets, chunks: seq<Chunk>)
    requires chunks != [] && chunks[|chunks| - 1].rows != [] && WellChunked(t, b, chunks[..|chunks| - 1])
    ensures ChunkFits(Consumed(t, chunks[..|chunks| - 1]), chunks[|chunks| - 1], b) <==> WellChunked(t, b, chunks)
  {
    hide InPlace, AscendingInside;
    var front, c := chunks[..|chunks| - 1], chunks[|chunks| - 1];
    JoinedRows(t, RowsOf(front), c.rows);
    InPlaceMore(b, chunks);
    FirstInPlace(b, chunks);
  }

  lemma FirstInPlace(b: Budgets, chunks: seq<Chunk>)
    requires chunks != []
    ensures InPlace(b, chunks) ==> chunks[0].ordinal == 0 && chunks[0].rowOffset == 0
    ensures |chunks| > 1 ==> chunks[0] == chunks[..|chunks| - 1][0]
  {
    assert chunks[..0] == [];
  }

  lemma InPlaceMore(b: Budgets, chunks: seq<Chunk>)
    requires chunks != [] && InPlace(b, chunks[..|chunks| - 1])
    ensures InPlace(b, chunks)
       <==> var front, c := chunks[..|chunks| - 1], chunks[|chunks| - 1];
            && c.ordinal == |front| && c.rowOffset == |RowsOf(front)| && 1 <= |c.rows| <= b.rowsPerChunk
            && c.totalChunks == chunks[0].totalChunks && c.totalRows == chunks[0].totalRows
  {
    var front := chunks[..|chunks| - 1];
    forall i | 0 <= i < |front| ensures front[i] == chunks[i] && front[..i] == chunks[..i] {}
    if InPlace(b, chunks) { assert chunks[|chunks| - 1].ordinal == |chunks| - 1; }
  }

  /** Rows joined ascend inside the interval exactly when both parts do and the second follows the first. */
  lemma JoinedRows(t: Token, first: seq<int>, second: seq<int>)
    requires AscendingInside(t, first)
    ensures AscendingInside(t, first + second)
       <==> RowsFollow(t, if first == [] then None else Some(first[|first| - 1]), second)
  {
    var all := first + second;
    if AscendingInside(t, all) {
      assert forall i :: 0 <= i < |second| ==> second[i] == all[|first| + i];
      if first != [] && second != [] { assert all[|first| - 1] < all[|first|]; }
    }
  }

  /** The ledger applies every chunk of a stream exactly when the stream is a chunking of ascending rows of the
      interval; and then it has consumed exactly those. */
  lemma {:induction false} StreamMeans(t: Token, b: Budgets, chunks: seq<Chunk>)
    requires forall i :: 0 <= i < |chunks| ==> chunks[i].rows != []
    ensures Applied(t, b, chunks).Some? <==> WellChunked(t, b, chunks)
    ensures Applied(t, b, chunks).Some? ==> Applied(t, b, chunks).value == Consumed(t, chunks)
    decreases |chunks|
  {
    if chunks != [] {
      var front, c := chunks[..|chunks| - 1], chunks[|chunks| - 1];
      StreamMeans(t, b, front);
      if WellChunked(t, b, front) {
        OneMoreChunk(t, b, chunks);
      } else if WellChunked(t, b, chunks) {
        PrefixChunked(t, b, chunks);
      }
    }
  }

  lemma PrefixChunked(t: Token, b: Budgets, chunks: seq<Chunk>)
    requires chunks != [] && WellChunked(t, b, chunks)
    ensures WellChunked(t, b, chunks[..|chunks| - 1])
  {
    var front, c := chunks[..|chunks| - 1], chunks[|chunks| - 1];
    forall i | 0 <= i < |front| ensures front[i] == chunks[i] && front[..i] == chunks[..i] {}
    assert c == chunks[|chunks| - 1] && |c.rows| >= 1;
    assert RowsOf(chunks) == RowsOf(front) + c.rows;
    forall i | 0 <= i < |RowsOf(front)| ensures RowsOf(front)[i] == RowsOf(chunks)[i] {}
    if front != [] {
      assert front[0].rowOffset == 0 && |front[0].rows| >= 1;
      RowsAtLeast(front);
    }
  }

  lemma {:induction false} RowsAtLeast(chunks: seq<Chunk>)
    requires forall i :: 0 <= i < |chunks| ==> chunks[i].rows != []
    ensures |RowsOf(chunks)| >= |chunks|
    decreases |chunks|
  {
    if chunks != [] { RowsAtLeast(chunks[..|chunks| - 1]); }
  }

  /** A chunk for a request the engine closed is fenced, one for a request its worker ended is a fault, and so is
      one that does not fit; none of them changes the entry. */
  lemma ChunkMeans(e: Entry, c: Chunk, b: Budgets)
    requires c.rows != []
    ensures var (t, code) := AcceptChunk(e, c, b);
            && (code == Fenced <==> e.engineClosed || e.fenced)
            && (code == Integrity <==> !e.engineClosed && !e.fenced && (e.terminal.Some? || !ChunkFits(e, c, b)))
            && (code == ChunkApplied <==> !e.engineClosed && !e.fenced && e.terminal.None? && ChunkFits(e, c, b))
            && (code != ChunkApplied ==> t == e)
            && (code == ChunkApplied ==>
                  t == Entry(e.token, e.nextChunk + 1, c.totalChunks, e.consumedRows + |c.rows|, c.totalRows,
                             Some(c.rows[|c.rows| - 1]), None, e.reason, false, false))
  {}

  // ---------------------------------------------------------------------------------------------------- one terminal

  /** The work a terminal reports is possible: at most two pages of three attempts each, nothing received without an
      attempt, and no rows without a page. */
  predicate WorkPossible(t: Terminal) {
    && t.pages <= t.attempts && t.pages <= 2 && t.attempts <= (if t.pages == 0 then 3 else 6)
    && (t.responseBytes > 0 || t.normalizedRows > 0 ==> t.attempts > 0) && (t.normalizedRows > 0 ==> t.pages > 0)
  }

  /** It stays within the interval and the budgets of the whole generation. */
  predicate WithinBudgets(e: Entry, t: Terminal, b: Budgets, bytes: nat, rows: nat) {
    && t.normalizedRows <= e.token.end - e.token.start
    && bytes + t.responseBytes <= b.maximumResponseBytes && rows + t.normalizedRows <= b.maximumNormalizedRecords
  }

  /** It reports exactly the chunks and rows the ledger has consumed, of exactly the rows it announced. */
  predicate ReportsConsumed(e: Entry, t: Terminal) {
    && t.emittedChunks == e.nextChunk && t.emittedRows == e.consumedRows && t.emittedRows <= t.normalizedRows
    && (e.nextChunk == 0 <==> e.consumedRows == 0)
    && (if e.nextChunk > 0 then t.normalizedRows == e.totalRows && t.normalizedRows > 0 else true)
  }

  /** Each state with what it may say: everything delivered, nothing to deliver, a failure before anything was
      delivered, or a cancellation at any point. */
  predicate StateAgrees(e: Entry, t: Terminal) {
    match t.state
    case CompletedValue =>
      && t.reason == NoReason && t.pages >= 1 && 1 <= t.attempts <= 3 * t.pages && t.responseBytes >= 1
      && e.totalRows >= 1 && e.totalRows == t.normalizedRows && e.consumedRows == e.totalRows
      && e.totalChunks == e.nextChunk
    case CompletedEmpty =>
      && t.reason == NoReason && t.pages >= 1 && 1 <= t.attempts <= 3 * t.pages && t.responseBytes >= 1
      && t.normalizedRows == 0 && e.nextChunk == 0
    case Failed => t.reason == ProviderFailure && t.normalizedRows == 0 && e.nextChunk == 0
    case Canceled => t.reason == CanceledReason
  }

  /** A terminal ends an open request exactly when all of that agrees; a repetition of the one that ended it is refused,
      another one is a fault, and one for a request the engine closed is fenced. */
  lemma TerminalMeans(e: Entry, t: Terminal, b: Budgets, bytes: nat, rows: nat)
    ensures var (u, code) := AcceptTerminal(e, t, b, bytes, rows);
            var agrees := WorkPossible(t) && WithinBudgets(e, t, b, bytes, rows) && ReportsConsumed(e, t)
                          && StateAgrees(e, t);
            && (code == Fenced <==> e.engineClosed || e.fenced)
            && (code == TerminalApplied <==> !e.engineClosed && !e.fenced && e.terminal.None? && agrees)
            && (code == Rejected <==>
                  !e.engineClosed && !e.fenced && e.terminal == Some(t.state) && e.reason == t.reason)
            && code in {Fenced, TerminalApplied, Rejected, Integrity}
            && u == if code == TerminalApplied
                    then Entry(e.token, e.nextChunk, e.totalChunks, e.consumedRows, e.totalRows, e.last,
                               Some(t.state), t.reason, false, false)
                    else e
  {}

  /** A request ended by the engine itself: fenced without a terminal, or canceled with one; an ended one stays. */
  lemma EngineCloseMeans(e: Entry, fenced: bool)
    ensures EngineClose(e, fenced)
         == if e.terminal.Some? || e.engineClosed || e.fenced then e
            else Entry(e.token, e.nextChunk, e.totalChunks, e.consumedRows, e.totalRows, e.last,
                       if fenced then None else Some(Canceled), if fenced then e.reason else CanceledReason, true,
                       fenced)
  {}

  /** A request is counted by the terminal it has, as fenced while it has none and the engine fenced it, and as open
      otherwise. */
  lemma BucketMeans(e: Entry)
    ensures BucketOf(e) == CompletedValueBucket <==> e.terminal == Some(CompletedValue)
    ensures BucketOf(e) == CompletedEmptyBucket <==> e.terminal == Some(CompletedEmpty)
    ensures BucketOf(e) == FailedBucket <==> e.terminal == Some(Failed)
    ensures BucketOf(e) == CanceledBucket <==> e.terminal == Some(Canceled)
    ensures BucketOf(e) == FencedBucket <==> e.terminal.None? && e.fenced
    ensures BucketOf(e) == OpenBucket <==> e.terminal.None? && !e.fenced
  {}

  function One(b: bool): int {
    if b then 1 else 0
  }

  /** A request that leaves the open ones for a bucket moves the two counters and no other. */
  lemma MovedMeans(a: Accounting, b: Bucket)
    requires b != OpenBucket
    ensures Moved(a, b)
         == Accounting(a.planned, a.open - 1, a.completedValue + One(b == CompletedValueBucket),
                       a.completedEmpty + One(b == CompletedEmptyBucket), a.failed + One(b == FailedBucket),
                       a.canceled + One(b == CanceledBucket), a.fenced + One(b == FencedBucket))
  {}

  // ------------------------------------------------------------------------------------------------------- the ledger

  /** The request a fact names: by its number in the current generation, with its whole token. */
  predicate Names(l: Ledger, token: Token, resultId: nat, i: nat) {
    && i < |l.entries| && l.entries[0].token.requestId + i == token.requestId && resultId == token.requestId
    && l.entries[i].token == token
  }

  predicate OfGeneration(l: Ledger, token: Token) {
    l.active && token.generation == l.generation && token.epoch == l.epoch
  }

  /** A fact of another generation is fenced; one of this generation that names no request of it is a fault. */
  lemma FindMeans(l: Ledger, token: Token, resultId: nat, i: nat)
    ensures var (at, code) := Find(l, token, resultId);
            && (at == Some(i) <==> OfGeneration(l, token) && Names(l, token, resultId, i))
            && (at.Some? ==> OfGeneration(l, token) && Names(l, token, resultId, at.value))
            && (at.None? ==> code == if OfGeneration(l, token) then Integrity else Fenced)
  {}

  /** A fact of a request changes that request, and a chunk nothing else of the ledger. */
  lemma ChunkOfLedger(l: Ledger, token: Token, resultId: nat, c: Chunk, i: nat)
    requires c.rows != []
    ensures var (t, code) := ApplyChunk(l, token, resultId, c);
            && (OfGeneration(l, token) && Names(l, token, resultId, i) ==>
                  && t == l.(entries := l.entries[i := AcceptChunk(l.entries[i], c, l.budgets).0])
                  && code == AcceptChunk(l.entries[i], c, l.budgets).1)
            && (!OfGeneration(l, token) ==> t == l && code == Fenced)
            && (OfGeneration(l, token) && Find(l, token, resultId).0.None? ==> t == l && code == Integrity)
  {
    hide AcceptChunk, Find;
    FindMeans(l, token, resultId, i);
  }

  /** With nothing open and no token yet, the generation gets the next one. */
  function Tokened(l: Ledger): Ledger {
    if l.accounting.open == 0 && l.fenceToken == 0 then
      Ledger(l.active, l.generation, l.epoch, l.start, l.end, l.budgets, l.entries, l.accounting, l.responseBytes,
             l.normalizedRows, 1 + l.lastToken, l.lastGeneration, l.lastRequestId, 1 + l.lastToken)
    else l
  }

  lemma TokenMeans(l: Ledger)
    ensures WithFence(l) == Tokened(l)
  {}

  /** A terminal that is applied also moves the request to its bucket, adds its bytes and rows to the generation's, and,
      if it was the last open one, brings the fence token. */
  lemma TerminalOfLedger(l: Ledger, token: Token, resultId: nat, t: Terminal, i: nat)
    ensures var (m, code) := ApplyTerminal(l, token, resultId, t);
            && (OfGeneration(l, token) && Names(l, token, resultId, i) ==>
                  var (e, result) := AcceptTerminal(l.entries[i], t, l.budgets, l.responseBytes, l.normalizedRows);
                  && code == result
                  && m == if code == TerminalApplied
                          then Tokened(l.(entries := l.entries[i := e], accounting := Moved(l.accounting, BucketOf(e)),
                                          responseBytes := t.responseBytes + l.responseBytes,
                                          normalizedRows := t.normalizedRows + l.normalizedRows))
                          else l)
            && (!OfGeneration(l, token) ==> m == l && code == Fenced)
            && (OfGeneration(l, token) && Find(l, token, resultId).0.None? ==> m == l && code == Integrity)
  {
    hide AcceptTerminal, Find, WithFence, Tokened, Moved;
    FindMeans(l, token, resultId, i);
    if OfGeneration(l, token) && Names(l, token, resultId, i) {
      var (e, result) := AcceptTerminal(l.entries[i], t, l.budgets, l.responseBytes, l.normalizedRows);
      TokenMeans(l.(entries := l.entries[i := e], responseBytes := l.responseBytes + t.responseBytes,
                    normalizedRows := l.normalizedRows + t.normalizedRows,
                    accounting := Moved(l.accounting, BucketOf(e))));
    }
  }

  /** A plan is taken with no generation in progress and an interval whose rows fit the budgets, for the whole
      population and for as many workers at a time as there are requests. */
  lemma PlanMeans(l: Ledger, p: PlanInput)
    ensures var (t, code) := ApplyPlan(l, p);
            var seconds, n := p.end - p.start, if p.start < p.end then p.population else 0;
            var together := if p.population <= p.workers then p.population else p.workers;
            var fits := !l.active && p.admitted && seconds >= 0
                        && p.population * seconds <= p.budgets.maximumNormalizedRecords
                        && together * seconds <= p.maximumResidentRecords;
            if !fits then t == l && code == Rejected
            else
              && code == PlanApplied && t.active && t.generation == l.lastGeneration + 1
              && t.lastGeneration == t.generation && t.epoch == p.epoch && t.start == p.start && t.end == p.end
              && t.budgets == p.budgets && t.responseBytes == 0 && t.normalizedRows == 0
              && t.accounting == Accounting(n, n, 0, 0, 0, 0, 0) && t.lastRequestId == l.lastRequestId + n
              && t.fenceToken == (if n == 0 then l.lastToken + 1 else 0)
              && t.lastToken == (if n == 0 then l.lastToken + 1 else l.lastToken)
              && |t.entries| == n
              && forall i :: 0 <= i < n ==>
                   t.entries[i] == Entry(Token(t.generation, l.lastRequestId + 1 + i, p.epoch, p.start, p.end), 0, 0, 0,
                                         0, None, None, NoReason, false, false)
  {
    if p.population == 0 { assert p.population * (p.end - p.start) == 0; }
  }

  /** A cancellation closes every open request of the generation it names into one bucket; a fence of the issued token
      ends the generation once nothing is open. */
  lemma CancelMeans(l: Ledger, generation: nat, fenced: bool)
    ensures var (t, code) := ApplyCancel(l, generation, fenced);
            var a := l.accounting;
            if !l.active || generation != l.generation then t == l && code == Fenced
            else
              && code == (if a.open == 0 then Rejected else TerminalApplied)
              && t == l.(entries := t.entries,
                         accounting := Accounting(a.planned, 0, a.completedValue, a.completedEmpty, a.failed,
                                                  if fenced then a.canceled else a.canceled + a.open,
                                                  if fenced then a.fenced + a.open else a.fenced))
              && |t.entries| == |l.entries|
              && forall i :: 0 <= i < |l.entries| ==> t.entries[i] == EngineClose(l.entries[i], fenced)
  {
    hide EngineClose;
  }

  lemma FenceMeans(l: Ledger, generation: nat, fence: nat)
    ensures var (t, code) := ApplyFence(l, generation, fence);
            var mine := l.active && generation == l.generation && fence == l.fenceToken && fence > 0;
            && (code == Fenced <==> !mine) && (code == Rejected <==> mine && l.accounting.open != 0)
            && (code == TerminalApplied <==> mine && l.accounting.open == 0)
            && t == if code == TerminalApplied then l.(active := false) else l
  {}

  /** Every event is the operation of its name; a generation retired is canceled and over. */
  lemma StepMeans(l: Ledger, e: Event)
    requires Admissible(e)
    ensures Step(l, e)
         == match e
            case PlanEvent(p) => ApplyPlan(l, p)
            case ChunkEvent(token, resultId, chunk) => ApplyChunk(l, token, resultId, chunk)
            case TerminalEvent(token, resultId, terminal) => ApplyTerminal(l, token, resultId, terminal)
            case CancelEvent(generation, fenced) => ApplyCancel(l, generation, fenced)
            case FenceEvent(generation, fence) => ApplyFence(l, generation, fence)
            case RetireEvent(fenced) =>
              (if l.active then ApplyCancel(l, l.generation, fenced).0.(active := false) else l, Rejected)
  {
    hide ApplyPlan, ApplyChunk, ApplyTerminal, ApplyFence;
  }
}
