/** One worker request: the chunks it cuts the downloaded rows into and the terminal it finishes with, and the proof
    that the engine's ledger accepts that stream, whatever the other requests do in between. */
module HydrationWorkers {
  import opened Options
  import opened HydrationLedgers
  import opened HydrationRuns

  datatype SymbolState = SymbolComplete | SymbolFailed | SymbolCanceled

  /** What the acquisition of one symbol reports. */
  datatype Outcome = Outcome(state: SymbolState, pages: nat, attempts: nat, bytes: nat, records: nat)

  /** At most two pages of at most three attempts each; a complete acquisition read every page it counted, in order and
      inside the interval, and only it reports rows. */
  predicate OutcomeHolds(o: Outcome, values: seq<int>, t: Token) {
    && o.pages <= 2 && o.pages <= o.attempts <= 6 && (o.pages == 0 ==> o.attempts <= 3)
    && (o.attempts == 0 ==> o.bytes == 0)
    && (if o.state == SymbolComplete
        then 0 < o.pages && o.attempts <= 3 * o.pages && 0 < o.bytes && o.records == |values|
             && RowsFollow(t, None, values)
        else o.records == 0)
  }

  function Min(a: int, b: int): int {
    if a < b then a else b
  }

  function TotalChunks(n: nat, r: nat): nat
    requires 0 < r
  {
    (n + r - 1) / r
  }

  /** How many rows the first chunks hold. */
  function RowsOf(n: nat, r: nat, k: nat): nat {
    Min(k * r, n)
  }

  lemma RowsGrow(n: nat, r: nat, k: nat)
    ensures RowsOf(n, r, k) <= RowsOf(n, r, k + 1) <= n
  {}

  lemma Scaled(a: int, b: int, r: int)
    requires a <= b && 0 <= r
    ensures a * r <= b * r
  {}

  lemma NextOffset(k: nat, r: nat)
    ensures (k + 1) * r == k * r + r
  {}

  lemma Quotient(m: nat, r: nat)
    requires 0 < r
    ensures m / r * r <= m < m / r * r + r
  {}

  /** The chunk count is the number of offsets inside the rows. */
  lemma ChunksCover(n: nat, r: nat, k: nat)
    requires 0 < r
    ensures k < TotalChunks(n, r) <==> k * r < n
  {
    var q := TotalChunks(n, r);
    Quotient(n + r - 1, r);
    if k < q {
      Scaled(k + 1, q, r);
      NextOffset(k, r);
    } else {
      Scaled(q, k, r);
    }
  }

  /** The chunk at an ordinal. */
  function ChunkAt(values: seq<int>, r: nat, k: nat): Chunk
    requires 0 < r
  {
    RowsGrow(|values|, r, k);
    Chunk(k, TotalChunks(|values|, r), k * r, |values|,
          values[RowsOf(|values|, r, k)..RowsOf(|values|, r, k + 1)])
  }

  function ChunksAt(values: seq<int>, r: nat, k: nat): seq<Chunk>
    requires 0 < r
  {
    if k == 0 then [] else ChunksAt(values, r, k - 1) + [ChunkAt(values, r, k - 1)]
  }

  function Rows(chunks: seq<Chunk>): seq<int> {
    if chunks == [] then [] else Rows(chunks[..|chunks| - 1]) + chunks[|chunks| - 1].rows
  }

  /** The first chunks concatenate to the first rows, and all of them to all. */
  lemma {:induction false} ChunksConcatenate(values: seq<int>, r: nat, k: nat)
    requires 0 < r
    ensures |ChunksAt(values, r, k)| == k
    ensures Rows(ChunksAt(values, r, k)) == values[..RowsOf(|values|, r, k)]
  {
    if k != 0 {
      ChunksConcatenate(values, r, k - 1);
      RowsGrow(|values|, r, k - 1);
      assert ChunksAt(values, r, k)[..k - 1] == ChunksAt(values, r, k - 1);
    }
  }

  lemma AllChunksAllRows(values: seq<int>, r: nat)
    requires 0 < r
    ensures Rows(ChunksAt(values, r, TotalChunks(|values|, r))) == values
  {
    var q := TotalChunks(|values|, r);
    ChunksConcatenate(values, r, q);
    assert q * r >= |values|;
    assert values[..|values|] == values;
  }

  /** The terminal after so many chunks were admitted. */
  function TerminalAfter(o: Outcome, n: nat, r: nat, k: nat, finished: bool): Terminal {
    Terminal(if o.state == SymbolFailed then Failed
             else if o.state == SymbolCanceled || !finished then Canceled
             else if n == 0 then CompletedEmpty else CompletedValue,
             if o.state == SymbolFailed then ProviderFailure
             else if o.state == SymbolCanceled || !finished then CanceledReason else NoReason,
             o.pages, o.attempts, o.bytes, o.records, k, RowsOf(n, r, k))
  }

  /** A terminal whose admission was canceled is retried as canceled. */
  function AsCanceled(t: Terminal): Terminal {
    t.(state := Canceled, reason := CanceledReason)
  }

  /** Cuts downloaded rows into chunks and admits them in order, until the context is canceled (after so many polls) or
      the sink refuses one (after so many admissions). */
  method EmitChunks(values: seq<int>, r: nat, polls: nat, admits: nat)
    returns (chunks: seq<Chunk>, emittedRows: nat, stopped: bool)
    requires 0 < r
    ensures |chunks| <= admits && |chunks| <= TotalChunks(|values|, r)
    ensures chunks == ChunksAt(values, r, |chunks|) && emittedRows == RowsOf(|values|, r, |chunks|)
    ensures |chunks| == Min(Min(polls, admits), TotalChunks(|values|, r))
    ensures stopped <==> polls <= TotalChunks(|values|, r) || admits < TotalChunks(|values|, r)
  {
    chunks, emittedRows, stopped := [], 0, false;
    var totalChunks := (|values| + r - 1) / r;
    var ordinal, offset := 0, 0;
    ChunksCover(|values|, r, 0);
    while offset < |values|
      invariant offset == ordinal * r && emittedRows == RowsOf(|values|, r, ordinal)
      invariant |chunks| == ordinal <= admits && ordinal <= TotalChunks(|values|, r) && ordinal <= polls
      invariant chunks == ChunksAt(values, r, ordinal)
      decreases |values| - offset
    {
      ChunksCover(|values|, r, ordinal);
      NextOffset(ordinal, r);
      if ordinal == polls || ordinal == admits { return chunks, emittedRows, true; }
      var end := Min(offset + r, |values|);
      chunks := chunks + [Chunk(ordinal, totalChunks, offset, |values|, values[offset..end])];
      emittedRows := emittedRows + (end - offset);
      ordinal, offset := ordinal + 1, offset + r;
    }
    ChunksCover(|values|, r, ordinal);
    stopped := ordinal == polls;
  }

  /** What a worker makes of one acquisition. */
  method Process(values: seq<int>, o: Outcome, r: nat, polls: nat, admits: nat)
    returns (chunks: seq<Chunk>, terminal: Terminal)
    requires 0 < r && (o.state == SymbolComplete ==> o.records == |values|)
    ensures |chunks| <= admits && chunks == ChunksAt(values, r, |chunks|)
    ensures |chunks| <= if o.state == SymbolComplete then TotalChunks(|values|, r) else 0
    ensures terminal == TerminalAfter(o, |values|, r, |chunks|, terminal.state != Canceled)
    ensures o.state == SymbolComplete && terminal.state != Canceled ==> |chunks| == TotalChunks(|values|, r)
    ensures o.state == SymbolComplete && values != [] ==>
              && |chunks| == Min(Min(polls, admits), TotalChunks(|values|, r))
              && (terminal.state == Canceled <==>
                    polls <= TotalChunks(|values|, r) || admits < TotalChunks(|values|, r))
    ensures o.state != SymbolComplete || values == [] ==> chunks == []
    ensures values == [] && o.state == SymbolComplete ==> terminal.state == CompletedEmpty
  {
    chunks := [];
    terminal := Terminal(Failed, ProviderFailure, o.pages, o.attempts, o.bytes, o.records, 0, 0);
    if o.state == SymbolCanceled {
      terminal := terminal.(state := Canceled, reason := CanceledReason);
      return;
    }
    if o.state != SymbolComplete { return; }
    if |values| == 0 {
      terminal := terminal.(state := CompletedEmpty, reason := NoReason);
      return;
    }
    var emittedRows, stopped;
    chunks, emittedRows, stopped := EmitChunks(values, r, polls, admits);
    terminal := terminal.(emittedChunks := |chunks|, emittedRows := emittedRows);
    if stopped {
      terminal := terminal.(state := Canceled, reason := CanceledReason);
    } else {
      terminal := terminal.(state := CompletedValue, reason := NoReason);
    }
  }

  // ------------------------------------------------------------------------------------- the ledger accepts the stream

  /** The ledger entry once the first chunks of a stream were applied. */
  function EntryAfter(t: Token, values: seq<int>, r: nat, k: nat): Entry
    requires 0 < r && k <= TotalChunks(|values|, r)
  {
    if k == 0 then NewEntry(t)
    else
      ChunksCover(|values|, r, 0);
      ChunksCover(|values|, r, k - 1);
      Entry(t, k, TotalChunks(|values|, r), RowsOf(|values|, r, k), |values|,
            Some(values[RowsOf(|values|, r, k) - 1]), None, NoReason, false, false)
  }

  /** Rows inside an interval, one a second at most, are no more than its seconds. */
  lemma {:induction false} RowsFitInterval(t: Token, values: seq<int>)
    requires RowsFollow(t, None, values)
    ensures values != [] ==> |values| <= values[|values| - 1] - t.start + 1
    decreases |values|
  {
    if |values| > 1 { RowsFitInterval(t, values[..|values| - 1]); }
  }

  lemma SliceFollows(t: Token, values: seq<int>, from: nat, to: nat)
    requires RowsFollow(t, None, values) && from < to <= |values|
    ensures RowsFollow(t, if from == 0 then None else Some(values[from - 1]), values[from..to])
  {}

  lemma Offsets(n: nat, r: nat, k: nat)
    requires 0 < r && k < TotalChunks(n, r)
    ensures RowsOf(n, r, k) == k * r < RowsOf(n, r, k + 1) <= n
    ensures RowsOf(n, r, k + 1) - RowsOf(n, r, k) <= r
    ensures k + 1 == TotalChunks(n, r) <==> RowsOf(n, r, k + 1) == n
    ensures k == 0 <==> RowsOf(n, r, k) == 0
  {
    ChunksCover(n, r, k);
    ChunksCover(n, r, k + 1);
    NextOffset(k, r);
    if k > 0 { Scaled(1, k, r); }
  }

  lemma ChunkFollows(t: Token, values: seq<int>, r: nat, k: nat)
    requires 0 < r && k < TotalChunks(|values|, r) && RowsFollow(t, None, values)
    ensures RowsFollow(t, EntryAfter(t, values, r, k).last, ChunkAt(values, r, k).rows)
    ensures var rows := ChunkAt(values, r, k).rows;
            rows != [] && rows[|rows| - 1] == values[RowsOf(|values|, r, k + 1) - 1]
  {
    Offsets(|values|, r, k);
    SliceFollows(t, values, RowsOf(|values|, r, k), RowsOf(|values|, r, k + 1));
  }

  /** Every chunk of the stream fits the entry its predecessors left. */
  lemma ChunkTaken(t: Token, values: seq<int>, r: nat, k: nat, b: Budgets)
    requires 0 < r == b.rowsPerChunk && k < TotalChunks(|values|, r) && RowsFollow(t, None, values)
    ensures ChunkAt(values, r, k).rows != []
    ensures AcceptChunk(EntryAfter(t, values, r, k), ChunkAt(values, r, k), b)
         == (EntryAfter(t, values, r, k + 1), ChunkApplied)
  {
    Offsets(|values|, r, k);
    RowsFitInterval(t, values);
    ChunkFollows(t, values, r, k);
  }

  /** How far the stream can have got when the terminal is built. */
  predicate StopsAt(o: Outcome, n: nat, r: nat, k: nat, finished: bool)
    requires 0 < r
  {
    if o.state == SymbolComplete then k <= TotalChunks(n, r) && (finished ==> k == TotalChunks(n, r)) else k == 0
  }

  lemma CountsTaken(t: Token, values: seq<int>, o: Outcome, r: nat, k: nat, finished: bool, b: Budgets,
                    responseBytes: nat, normalizedRows: nat)
    requires 0 < r && OutcomeHolds(o, values, t)
    requires StopsAt(o, |values|, r, k, finished) && k <= TotalChunks(|values|, r)
    requires responseBytes + o.bytes <= b.maximumResponseBytes
    requires normalizedRows + Max(Seconds(t), 0) <= b.maximumNormalizedRecords && 0 <= Seconds(t)
    ensures CountsFit(EntryAfter(t, values, r, k), TerminalAfter(o, |values|, r, k, finished), b, responseBytes,
                      normalizedRows)
    ensures o.state == SymbolComplete && finished ==> RowsOf(|values|, r, k) == |values|
  {
    if o.state == SymbolComplete {
      RowsFitInterval(t, values);
      ChunksCover(|values|, r, k);
      if k > 0 { Offsets(|values|, r, k - 1); }
    }
  }

  /** The terminal of the stream closes its request, and so does the canceled one it is retried as. */
  lemma TerminalTaken(t: Token, values: seq<int>, o: Outcome, r: nat, k: nat, finished: bool, b: Budgets,
                      responseBytes: nat, normalizedRows: nat)
    requires 0 < r && OutcomeHolds(o, values, t)
    requires StopsAt(o, |values|, r, k, finished) && k <= TotalChunks(|values|, r)
    requires responseBytes + o.bytes <= b.maximumResponseBytes
    requires normalizedRows + Max(Seconds(t), 0) <= b.maximumNormalizedRecords && 0 <= Seconds(t)
    ensures var e, terminal := EntryAfter(t, values, r, k), TerminalAfter(o, |values|, r, k, finished);
            && AcceptTerminal(e, terminal, b, responseBytes, normalizedRows).1 == TerminalApplied
            && AcceptTerminal(e, AsCanceled(terminal), b, responseBytes, normalizedRows).1 == TerminalApplied
  {
    CountsTaken(t, values, o, r, k, finished, b, responseBytes, normalizedRows);
    ChunksCover(|values|, r, 0);
  }

  // ------------------------------------------------------------------------------------ among all the other requests

  /** The request is the open entry at an index of the current generation. */
  ghost predicate Holds(l: Ledger, i: nat, e: Entry) {
    && Sound(l) && l.active && i < |l.entries| && l.entries[i] == e && !Closed(e)
  }

  lemma Found(l: Ledger, i: nat, e: Entry)
    requires Holds(l, i, e)
    ensures Find(l, e.token, e.token.requestId).0 == Some(i) && l.accounting.open > 0
    ensures Seconds(e.token) == l.end - l.start
  {
    OpenMeansOpen(e);
    OpenCounted(l.entries, i);
  }

  /** The budget for rows still has room for an open request's whole interval. */
  lemma RoomForOne(l: Ledger, i: nat, e: Entry)
    requires Holds(l, i, e)
    ensures 0 <= Seconds(e.token)
    ensures l.normalizedRows + Max(Seconds(e.token), 0) <= l.budgets.maximumNormalizedRecords
  {
    Found(l, i, e);
    OneFewer(l.accounting.open, l.end - l.start);
    Scaled(0, l.accounting.open - 1, l.end - l.start);
  }

  /** An event of some other request, or one that the ledger answers without closing this generation. */
  predicate Foreign(e: Event, t: Token) {
    match e
    case PlanEvent(_) => true
    case ChunkEvent(token, _, _) => token != t
    case TerminalEvent(token, _, _) => token != t
    case CancelEvent(generation, _) => generation != t.generation
    case RetireEvent(_) => false
    case FenceEvent(_, _) => true
  }

  lemma ForeignKeeps(l: Ledger, i: nat, entry: Entry, e: Event)
    requires Holds(l, i, entry) && Admissible(e) && Foreign(e, entry.token)
    ensures Holds(Step(l, e).0, i, entry) && Step(l, e).0.budgets == l.budgets
  {
    Found(l, i, entry);
    StepSound(l, e);
  }

  /** A run in which this request's chunks arrive in the worker's order, the other requests' facts in any order among
      them. */
  ghost predicate Delivers(es: seq<Event>, n: nat, t: Token, values: seq<int>, r: nat, k: nat)
    requires n <= |es| && 0 < r
  {
    if n == 0 then k == 0
    else
      || (Foreign(es[n - 1], t) && Delivers(es, n - 1, t, values, r, k))
      || (k > 0 && es[n - 1] == ChunkEvent(t, t.requestId, ChunkAt(values, r, k - 1))
          && Delivers(es, n - 1, t, values, r, k - 1))
  }

  function RunFrom(l: Ledger, es: seq<Event>, n: nat): Ledger
    requires AllAdmissible(es) && n <= |es|
  {
    if n == 0 then l else Step(RunFrom(l, es, n - 1), es[n - 1]).0
  }

  lemma OwnChunkTaken(l: Ledger, i: nat, t: Token, values: seq<int>, r: nat, k: nat)
    requires 0 < r == l.budgets.rowsPerChunk && RowsFollow(t, None, values) && k < TotalChunks(|values|, r)
    requires Holds(l, i, EntryAfter(t, values, r, k))
    ensures ChunkAt(values, r, k).rows != []
    ensures var s := ApplyChunk(l, t, t.requestId, ChunkAt(values, r, k));
            s.1 == ChunkApplied && Holds(s.0, i, EntryAfter(t, values, r, k + 1)) && s.0.budgets == l.budgets
  {
    Found(l, i, EntryAfter(t, values, r, k));
    ChunkTaken(t, values, r, k, l.budgets);
    ChunkKeepsSound(l, t, t.requestId, ChunkAt(values, r, k));
  }

  /** Every chunk of the worker's stream is applied, whatever other requests do in between. */
  lemma {:induction false} StreamTaken(l: Ledger, es: seq<Event>, n: nat, i: nat, t: Token, values: seq<int>, r: nat,
                                       k: nat)
    requires AllAdmissible(es) && n <= |es| && 0 < r == l.budgets.rowsPerChunk
    requires RowsFollow(t, None, values) && k <= TotalChunks(|values|, r)
    requires Holds(l, i, NewEntry(t)) && Delivers(es, n, t, values, r, k)
    ensures Holds(RunFrom(l, es, n), i, EntryAfter(t, values, r, k))
    ensures RunFrom(l, es, n).budgets == l.budgets
  {
    hide ApplyChunk, ApplyTerminal, CancelAll, RowsFollow;
    if n != 0 {
      if Foreign(es[n - 1], t) && Delivers(es, n - 1, t, values, r, k) {
        StreamTaken(l, es, n - 1, i, t, values, r, k);
        ForeignKeeps(RunFrom(l, es, n - 1), i, EntryAfter(t, values, r, k), es[n - 1]);
      } else {
        StreamTaken(l, es, n - 1, i, t, values, r, k - 1);
        OwnChunkTaken(RunFrom(l, es, n - 1), i, t, values, r, k - 1);
      }
    }
  }

  /** Worker and ledger agree: after any run that delivers a worker's chunks, in order and among any other facts, its
      terminal is applied, however far the stream got; and when it finished, every chunk and row was consumed. */
  lemma WorkerAgrees(l: Ledger, es: seq<Event>, i: nat, t: Token, values: seq<int>, o: Outcome, r: nat, k: nat,
                     finished: bool)
    requires AllAdmissible(es) && 0 < r == l.budgets.rowsPerChunk && Holds(l, i, NewEntry(t))
    requires OutcomeHolds(o, values, t) && StopsAt(o, |values|, r, k, finished) && Delivers(es, |es|, t, values, r, k)
    requires o.state != SymbolComplete ==> values == []
    requires RunFrom(l, es, |es|).responseBytes + o.bytes <= l.budgets.maximumResponseBytes
    ensures var m, terminal := RunFrom(l, es, |es|), TerminalAfter(o, |values|, r, k, finished);
            && i < |m.entries| && m.entries[i].nextChunk == k
            && ApplyTerminal(m, t, t.requestId, terminal).1 == TerminalApplied
            && ApplyTerminal(m, t, t.requestId, AsCanceled(terminal)).1 == TerminalApplied
            && (terminal.state == CompletedValue ==>
                  && m.entries[i].nextChunk == m.entries[i].totalChunks
                  && m.entries[i].consumedRows == m.entries[i].totalRows == |values|)
  {
    hide AcceptTerminal, Delivers, AllAdmissible, RunFrom, Sound, CountsFit;
    StreamTaken(l, es, |es|, i, t, values, r, k);
    var m := RunFrom(l, es, |es|);
    var e := EntryAfter(t, values, r, k);
    Found(m, i, e);
    RoomForOne(m, i, e);
    TerminalTaken(t, values, o, r, k, finished, m.budgets, m.responseBytes, m.normalizedRows);
    CountsTaken(t, values, o, r, k, finished, m.budgets, m.responseBytes, m.normalizedRows);
  }
}
