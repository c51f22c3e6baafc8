/** The engine's ledger of one hydration generation: the sequencing check on every chunk, the check on every terminal,
    exactly one closing bucket for every request, and one fence token once nothing is open. */
module HydrationLedgers {
  import opened Options

  datatype TerminalState = CompletedValue | CompletedEmpty | Failed | Canceled

  datatype ProviderReason = NoReason | CanceledReason | ProviderFailure

  /** The exact identity of one request. */
  datatype Token = Token(generation: nat, requestId: nat, epoch: nat, start: int, end: int)

  datatype Entry = Entry(token: Token, nextChunk: nat, totalChunks: nat, consumedRows: nat, totalRows: nat,
                         last: Option<int>, terminal: Option<TerminalState>, reason: ProviderReason,
                         engineClosed: bool, fenced: bool)

  datatype Chunk = Chunk(ordinal: int, totalChunks: int, rowOffset: int, totalRows: int, rows: seq<int>)

  datatype Terminal = Terminal(state: TerminalState, reason: ProviderReason, pages: nat, attempts: nat,
                               responseBytes: nat, normalizedRows: nat, emittedChunks: nat, emittedRows: nat)

  datatype Budgets = Budgets(rowsPerChunk: nat, maximumResponseBytes: nat, maximumNormalizedRecords: nat)

  datatype Code = ChunkApplied | TerminalApplied | PlanApplied | Rejected | Fenced | Integrity

  function NewEntry(token: Token): Entry {
    Entry(token, 0, 0, 0, 0, None, None, NoReason, false, false)
  }

  predicate Closed(e: Entry) {
    e.terminal.Some? || e.engineClosed || e.fenced
  }

  function Seconds(t: Token): int {
    t.end - t.start
  }

  /** Rows inside the interval, strictly ascending after the last one consumed. */
  predicate RowsFollow(t: Token, last: Option<int>, rows: seq<int>) {
    && (forall i :: 0 <= i < |rows| ==> t.start <= rows[i] < t.end)
    && (forall i, j :: 0 <= i < j < |rows| ==> rows[i] < rows[j])
    && (last.Some? && rows != [] ==> last.value < rows[0])
  }

  /** The sequencing check of one chunk against the ledger entry. */
  predicate ChunkFits(e: Entry, c: Chunk, b: Budgets) {
    && c.ordinal == e.nextChunk && c.rowOffset == e.consumedRows && c.totalChunks > 0 && c.totalRows > 0
    && c.ordinal < c.totalChunks && |c.rows| <= c.totalRows - c.rowOffset
    && (e.totalChunks != 0 ==> e.totalChunks == c.totalChunks) && (e.totalRows != 0 ==> e.totalRows == c.totalRows)
    && |c.rows| <= b.rowsPerChunk && c.totalRows <= Seconds(e.token)
    && RowsFollow(e.token, e.last, c.rows)
    && (c.ordinal + 1 == c.totalChunks ==> c.rowOffset + |c.rows| == c.totalRows)
    && (c.ordinal + 1 < c.totalChunks ==> c.rowOffset + |c.rows| < c.totalRows)
  }

  /** The entry after a chunk; a chunk admitted to the engine has rows. */
  function AcceptChunk(e: Entry, c: Chunk, b: Budgets): (Entry, Code)
    requires c.rows != []
  {
    if e.engineClosed || e.fenced then (e, Fenced)
    else if e.terminal.Some? then (e, Integrity)
    else if !ChunkFits(e, c, b) then (e, Integrity)
    else (e.(totalChunks := c.totalChunks, totalRows := c.totalRows, nextChunk := e.nextChunk + 1,
             consumedRows := e.consumedRows + |c.rows|, last := Some(c.rows[|c.rows| - 1])), ChunkApplied)
  }

  /** The counts every terminal must meet, whatever its state. */
  predicate CountsFit(e: Entry, t: Terminal, b: Budgets, responseBytes: nat, normalizedRows: nat) {
    && t.pages <= 2 && t.attempts <= 6 && t.attempts >= t.pages && (t.pages == 0 ==> t.attempts <= 3)
    && (t.attempts == 0 ==> t.responseBytes == 0) && t.normalizedRows <= Seconds(e.token)
    && responseBytes + t.responseBytes <= b.maximumResponseBytes
    && t.normalizedRows <= b.maximumNormalizedRecords
    && normalizedRows + t.normalizedRows <= b.maximumNormalizedRecords
    && t.emittedChunks == e.nextChunk && t.emittedRows == e.consumedRows
    && (t.normalizedRows > 0 ==> t.pages > 0 && t.attempts > 0)
    && (t.emittedChunks == 0 <==> t.emittedRows == 0) && t.emittedRows <= t.normalizedRows
    && (e.nextChunk > 0 ==> t.normalizedRows == e.totalRows)
    && (t.normalizedRows == 0 ==> e.nextChunk == 0)
  }

  predicate StateFits(e: Entry, t: Terminal) {
    match t.state
    case CompletedValue =>
      && t.reason == NoReason && t.pages > 0 && 0 < t.attempts <= t.pages * 3 && t.responseBytes > 0
      && e.totalRows > 0 && e.nextChunk == e.totalChunks && e.consumedRows == e.totalRows
      && t.normalizedRows == e.totalRows
    case CompletedEmpty =>
      && t.reason == NoReason && t.pages > 0 && 0 < t.attempts <= t.pages * 3 && t.responseBytes > 0
      && e.nextChunk == 0 && t.normalizedRows == 0 && t.emittedChunks == 0 && t.emittedRows == 0
    case Failed =>
      && t.reason == ProviderFailure && e.nextChunk == 0 && t.normalizedRows == 0
      && t.emittedChunks == 0 && t.emittedRows == 0
    case Canceled => t.reason == CanceledReason && t.normalizedRows >= e.consumedRows
  }

  function AcceptTerminal(e: Entry, t: Terminal, b: Budgets, responseBytes: nat, normalizedRows: nat): (Entry, Code) {
    if e.engineClosed || e.fenced then (e, Fenced)
    else if e.terminal.Some? then
      (e, if e.terminal.value == t.state && e.reason == t.reason then Rejected else Integrity)
    else if !CountsFit(e, t, b, responseBytes, normalizedRows) || !StateFits(e, t) then (e, Integrity)
    else (e.(terminal := Some(t.state), reason := t.reason), TerminalApplied)
  }

  /** The engine closes an open request itself. */
  function EngineClose(e: Entry, fenced: bool): Entry {
    if Closed(e) then e
    else if fenced then e.(fenced := true, engineClosed := true)
    else e.(terminal := Some(Canceled), reason := CanceledReason, engineClosed := true)
  }

  datatype Bucket = OpenBucket | CompletedValueBucket | CompletedEmptyBucket | FailedBucket | CanceledBucket
                  | FencedBucket

  /** Where a request is counted. */
  function BucketOf(e: Entry): Bucket {
    match e.terminal
    case Some(CompletedValue) => CompletedValueBucket
    case Some(CompletedEmpty) => CompletedEmptyBucket
    case Some(Failed) => FailedBucket
    case Some(Canceled) => CanceledBucket
    case None => if e.fenced then FencedBucket else OpenBucket
  }

  /** What every entry satisfies: chunk and row counts in step, and closing flags that agree. */
  ghost predicate EntrySound(e: Entry) {
    && (e.totalChunks == 0 <==> e.totalRows == 0) && (e.totalChunks == 0 <==> e.nextChunk == 0)
    && e.nextChunk <= e.totalChunks && e.consumedRows <= e.totalRows && e.totalRows <= Max(Seconds(e.token), 0)
    && (e.nextChunk == 0 <==> e.consumedRows == 0) && (e.last.Some? <==> e.consumedRows > 0)
    && (e.nextChunk == e.totalChunks <==> e.consumedRows == e.totalRows)
    && (e.engineClosed <==> e.fenced || (e.terminal == Some(Canceled) && e.engineClosed))
    && (e.fenced ==> e.terminal.None?)
    && (e.terminal == Some(CompletedValue) ==> e.totalRows > 0 && e.consumedRows == e.totalRows)
    && (e.terminal == Some(CompletedEmpty) ==> e.totalRows == 0)
  }

  function Max(a: int, b: int): int {
    if a < b then b else a
  }

  /** A request is counted open exactly when nothing has closed it. */
  lemma OpenMeansOpen(e: Entry)
    requires EntrySound(e)
    ensures BucketOf(e) == OpenBucket <==> !Closed(e)
  {}

  /** An accepted chunk keeps its request open and its counts in step; nothing else is changed by a chunk. */
  lemma ChunkSound(e: Entry, c: Chunk, b: Budgets)
    requires EntrySound(e) && c.rows != []
    ensures var r := AcceptChunk(e, c, b);
            && EntrySound(r.0) && r.0.token == e.token && BucketOf(r.0) == BucketOf(e)
            && (r.1 != ChunkApplied ==> r.0 == e)
            && (r.1 == ChunkApplied ==> !Closed(e) && r.0.consumedRows > e.consumedRows)
            && (Closed(e) ==> r.1 != ChunkApplied)
  {}

  /** A terminal closes an open request into the bucket it names, once; a late or repeated one changes nothing. */
  lemma TerminalSound(e: Entry, t: Terminal, b: Budgets, responseBytes: nat, normalizedRows: nat)
    requires EntrySound(e)
    ensures var r := AcceptTerminal(e, t, b, responseBytes, normalizedRows);
            && EntrySound(r.0) && r.0.token == e.token
            && (r.1 != TerminalApplied ==> r.0 == e)
            && (r.1 == TerminalApplied ==> !Closed(e) && Closed(r.0) && BucketOf(r.0) != OpenBucket)
            && (Closed(e) ==> r.1 != TerminalApplied)
  {}

  lemma CloseSound(e: Entry, fenced: bool)
    requires EntrySound(e)
    ensures var t := EngineClose(e, fenced);
            && EntrySound(t) && t.token == e.token && Closed(t)
            && (Closed(e) ==> t == e)
            && (!Closed(e) ==> BucketOf(t) == if fenced then FencedBucket else CanceledBucket)
  {}

  // ------------------------------------------------------------------------------------------------- the generation

  function CountIn(entries: seq<Entry>, b: Bucket): nat {
    if entries == [] then 0
    else CountIn(entries[..|entries| - 1], b) + (if BucketOf(entries[|entries| - 1]) == b then 1 else 0)
  }

  /** Moving one entry between buckets moves one count. */
  lemma {:induction false} CountUpdate(entries: seq<Entry>, i: nat, e: Entry, b: Bucket)
    requires i < |entries|
    ensures CountIn(entries[i := e], b)
         == CountIn(entries, b) - (if BucketOf(entries[i]) == b then 1 else 0) + (if BucketOf(e) == b then 1 else 0)
    decreases |entries|
  {
    var n := |entries| - 1;
    if i < n {
      assert entries[i := e][..n] == entries[..n][i := e];
      CountUpdate(entries[..n], i, e, b);
    } else {
      assert entries[i := e][..n] == entries[..n];
    }
  }

  /** The six buckets partition the requests. */
  lemma {:induction false} BucketsPartition(entries: seq<Entry>)
    ensures |entries| == CountIn(entries, OpenBucket) + CountIn(entries, CompletedValueBucket)
                         + CountIn(entries, CompletedEmptyBucket) + CountIn(entries, FailedBucket)
                         + CountIn(entries, CanceledBucket) + CountIn(entries, FencedBucket)
    decreases |entries|
  {
    if entries != [] { BucketsPartition(entries[..|entries| - 1]); }
  }

  datatype Accounting = Accounting(planned: nat, open: int, completedValue: int, completedEmpty: int, failed: int,
                                   canceled: int, fenced: int)
  {
    predicate Reconciles() {
      planned == open + completedValue + completedEmpty + failed + canceled + fenced
    }
  }

  /** Every counter counts its bucket. */
  ghost predicate Counts(a: Accounting, entries: seq<Entry>) {
    && a.planned == |entries| && a.open == CountIn(entries, OpenBucket)
    && a.completedValue == CountIn(entries, CompletedValueBucket)
    && a.completedEmpty == CountIn(entries, CompletedEmptyBucket) && a.failed == CountIn(entries, FailedBucket)
    && a.canceled == CountIn(entries, CanceledBucket) && a.fenced == CountIn(entries, FencedBucket)
  }

  lemma CountsReconcile(a: Accounting, entries: seq<Entry>)
    requires Counts(a, entries)
    ensures a.Reconciles()
  {
    BucketsPartition(entries);
  }

  /** The accounting after one request leaves the open bucket for another. */
  function Moved(a: Accounting, b: Bucket): Accounting {
    var c := a.(open := a.open - 1);
    match b
    case OpenBucket => a
    case CompletedValueBucket => c.(completedValue := c.completedValue + 1)
    case CompletedEmptyBucket => c.(completedEmpty := c.completedEmpty + 1)
    case FailedBucket => c.(failed := c.failed + 1)
    case CanceledBucket => c.(canceled := c.canceled + 1)
    case FencedBucket => c.(fenced := c.fenced + 1)
  }

  lemma MovedCounts(a: Accounting, entries: seq<Entry>, i: nat, e: Entry)
    requires Counts(a, entries) && i < |entries| && BucketOf(entries[i]) == OpenBucket
    ensures Counts(Moved(a, BucketOf(e)), entries[i := e])
  {
    CountUpdate(entries, i, e, OpenBucket);
    CountUpdate(entries, i, e, CompletedValueBucket);
    CountUpdate(entries, i, e, CompletedEmptyBucket);
    CountUpdate(entries, i, e, FailedBucket);
    CountUpdate(entries, i, e, CanceledBucket);
    CountUpdate(entries, i, e, FencedBucket);
  }

  lemma SameBucketCounts(a: Accounting, entries: seq<Entry>, i: nat, e: Entry)
    requires Counts(a, entries) && i < |entries| && BucketOf(entries[i]) == BucketOf(e)
    ensures Counts(a, entries[i := e])
  {
    CountUpdate(entries, i, e, OpenBucket);
    CountUpdate(entries, i, e, CompletedValueBucket);
    CountUpdate(entries, i, e, CompletedEmptyBucket);
    CountUpdate(entries, i, e, FailedBucket);
    CountUpdate(entries, i, e, CanceledBucket);
    CountUpdate(entries, i, e, FencedBucket);
  }

  // ----------------------------------------------------------------------------------------------------- the ledger

  /** Everything the engine keeps about generations: the current one, its requests and its fence token (0 while it has
      none), and the last generation, request and fence numbers handed out. */
  datatype Ledger = Ledger(active: bool, generation: nat, epoch: nat, start: int, end: int, budgets: Budgets,
                           entries: seq<Entry>, accounting: Accounting, responseBytes: nat, normalizedRows: nat,
                           fenceToken: nat, lastGeneration: nat, lastRequestId: nat, lastToken: nat)

  const Fresh := Ledger(false, 0, 0, 0, 0, Budgets(0, 0, 0), [], Accounting(0, 0, 0, 0, 0, 0, 0), 0, 0, 0, 0, 0, 0)

  /** A plan as it reaches the ledger: the population that needs a request each, the interval, and whether the
      lifecycle and the registered history admit it. */
  datatype PlanInput = PlanInput(epoch: nat, population: nat, start: int, end: int, workers: nat,
                                 maximumResidentRecords: nat, budgets: Budgets, admitted: bool)

  datatype Event =
    | PlanEvent(plan: PlanInput)
    | ChunkEvent(token: Token, resultId: nat, chunk: Chunk)
    | TerminalEvent(token: Token, resultId: nat, terminal: Terminal)
    | CancelEvent(generation: nat, fenced: bool)
    | RetireEvent(fenced: bool)
    | FenceEvent(generation: nat, fence: nat)

  predicate PlanFits(active: bool, p: PlanInput) {
    && !active && p.admitted && p.start <= p.end
    && p.population * (p.end - p.start) <= p.budgets.maximumNormalizedRecords
    && (if p.workers < p.population then p.workers else p.population) * (p.end - p.start) <= p.maximumResidentRecords
  }

  /** An interval of no seconds needs no request at all. */
  function RequestCount(p: PlanInput): nat {
    if p.start == p.end then 0 else p.population
  }

  function PlannedToken(generation: nat, after: nat, p: PlanInput, i: nat): Token {
    Token(generation, after + i + 1, p.epoch, p.start, p.end)
  }

  /** The requests of a generation, numbered on from the last one handed out. */
  function PlannedEntries(generation: nat, after: nat, p: PlanInput, n: nat): (entries: seq<Entry>)
    ensures |entries| == n
    ensures forall i :: 0 <= i < n ==> entries[i] == NewEntry(PlannedToken(generation, after, p, i))
  {
    if n == 0 then []
    else PlannedEntries(generation, after, p, n - 1) + [NewEntry(PlannedToken(generation, after, p, n - 1))]
  }

  /** A generation gets its fence token once, when nothing in it is open. */
  function WithFence(l: Ledger): Ledger {
    if l.accounting.open != 0 || l.fenceToken != 0 then l
    else l.(fenceToken := l.lastToken + 1, lastToken := l.lastToken + 1)
  }

  function Planned(l: Ledger, p: PlanInput): Ledger {
    var n := RequestCount(p);
    Ledger(true, l.lastGeneration + 1, p.epoch, p.start, p.end, p.budgets,
           PlannedEntries(l.lastGeneration + 1, l.lastRequestId, p, n), Accounting(n, n, 0, 0, 0, 0, 0),
           0, 0, 0, l.lastGeneration + 1, l.lastRequestId + n, l.lastToken)
  }

  function ApplyPlan(l: Ledger, p: PlanInput): (Ledger, Code) {
    if !PlanFits(l.active, p) then (l, Rejected)
    else (if RequestCount(p) == 0 then WithFence(Planned(l, p)) else Planned(l, p), PlanApplied)
  }

  /** Where the current generation keeps a request. */
  function IndexOf(l: Ledger, requestId: nat): (at: Option<nat>)
    ensures at.Some? ==> at.value < |l.entries|
  {
    if l.entries == [] then None
    else
      var first := l.entries[0].token.requestId;
      if first <= requestId < first + |l.entries| then Some(requestId - first) else None
  }

  /** The request a fact is for, or why there is none. */
  function Find(l: Ledger, token: Token, resultId: nat): (at: (Option<nat>, Code))
    ensures at.0.Some? ==> at.0.value < |l.entries| && l.entries[at.0.value].token == token
  {
    if !l.active || token.generation != l.generation || token.epoch != l.epoch then (None, Fenced)
    else
      var at := IndexOf(l, token.requestId);
      if at.None? || resultId != token.requestId || l.entries[at.value].token != token then (None, Integrity)
      else (at, ChunkApplied)
  }

  function ApplyChunk(l: Ledger, token: Token, resultId: nat, c: Chunk): (Ledger, Code)
    requires c.rows != []
  {
    var (at, code) := Find(l, token, resultId);
    if at.None? then (l, code)
    else
      var (e, code) := AcceptChunk(l.entries[at.value], c, l.budgets);
      (l.(entries := l.entries[at.value := e]), code)
  }

  function ApplyTerminal(l: Ledger, token: Token, resultId: nat, t: Terminal): (Ledger, Code) {
    var (at, code) := Find(l, token, resultId);
    if at.None? then (l, code)
    else
      var (e, code) := AcceptTerminal(l.entries[at.value], t, l.budgets, l.responseBytes, l.normalizedRows);
      if code != TerminalApplied then (l, code)
      else
        (WithFence(l.(entries := l.entries[at.value := e], responseBytes := l.responseBytes + t.responseBytes,
                      normalizedRows := l.normalizedRows + t.normalizedRows,
                      accounting := Moved(l.accounting, BucketOf(e)))), code)
  }

  function ClosedEntries(entries: seq<Entry>, fenced: bool): (closed: seq<Entry>)
    ensures |closed| == |entries|
    ensures forall i :: 0 <= i < |entries| ==> closed[i] == EngineClose(entries[i], fenced)
  {
    if entries == [] then []
    else ClosedEntries(entries[..|entries| - 1], fenced) + [EngineClose(entries[|entries| - 1], fenced)]
  }

  /** The engine closing everything still open. */
  function CancelAll(l: Ledger, fenced: bool): Ledger {
    if !l.active then l
    else
      var a := l.accounting;
      l.(entries := ClosedEntries(l.entries, fenced),
         accounting := if fenced then a.(open := 0, fenced := a.fenced + a.open)
                       else a.(open := 0, canceled := a.canceled + a.open))
  }

  function ApplyCancel(l: Ledger, generation: nat, fenced: bool): (Ledger, Code) {
    if !l.active || generation != l.generation then (l, Fenced)
    else (CancelAll(l, fenced), if l.accounting.open == 0 then Rejected else TerminalApplied)
  }

  /** The ingress fence answering the generation's fence command ends the generation. */
  function ApplyFence(l: Ledger, generation: nat, fence: nat): (Ledger, Code) {
    if !l.active || generation != l.generation || fence != l.fenceToken || fence == 0 then (l, Fenced)
    else if l.accounting.open != 0 then (l, Rejected)
    else (l.(active := false), TerminalApplied)
  }

  predicate Admissible(e: Event) {
    e.ChunkEvent? ==> e.chunk.rows != []
  }

  function Step(l: Ledger, e: Event): (Ledger, Code)
    requires Admissible(e)
  {
    match e
    case PlanEvent(p) => ApplyPlan(l, p)
    case ChunkEvent(token, resultId, chunk) => ApplyChunk(l, token, resultId, chunk)
    case TerminalEvent(token, resultId, terminal) => ApplyTerminal(l, token, resultId, terminal)
    case CancelEvent(generation, fenced) => ApplyCancel(l, generation, fenced)
    case RetireEvent(fenced) => (CancelAll(l, fenced).(active := false), Rejected)
    case FenceEvent(generation, fence) => ApplyFence(l, generation, fence)
  }
}
