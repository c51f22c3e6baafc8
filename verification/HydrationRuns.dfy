/** What the hydration ledger keeps over every run of plans, chunks, terminals, cancellations and fences. */
module HydrationRuns {
  import opened Options
  import opened HydrationLedgers

  // ---------------------------------------------------------------------------------------------------- the invariant

  ghost predicate EntriesSound(l: Ledger) {
    forall i :: 0 <= i < |l.entries| ==> EntrySound(l.entries[i])
  }

  ghost predicate TokensSound(l: Ledger) {
    && l.generation <= l.lastGeneration
    && (l.entries != [] ==> l.entries[0].token.requestId + |l.entries| - 1 <= l.lastRequestId)
    && forall i :: 0 <= i < |l.entries| ==>
         l.entries[i].token == Token(l.generation, l.entries[0].token.requestId + i, l.epoch, l.start, l.end)
  }

  /** A fence token was handed out only once nothing was open. */
  ghost predicate FenceSound(l: Ledger) {
    && l.fenceToken <= l.lastToken
    && (l.fenceToken != 0 ==> l.accounting.open == 0)
  }

  /** What was normalized, with a full interval for every open request, is within the record budget. */
  ghost predicate RowsSound(l: Ledger) {
    && l.start <= l.end && l.accounting.open >= 0
    && l.normalizedRows + l.accounting.open * (l.end - l.start) <= l.budgets.maximumNormalizedRecords
  }

  ghost predicate Sound(l: Ledger) {
    EntriesSound(l) && TokensSound(l) && Counts(l.accounting, l.entries) && FenceSound(l) && RowsSound(l)
  }

  lemma FreshSound()
    ensures Sound(Fresh)
  {}

  lemma {:induction false} NewCounts(generation: nat, after: nat, p: PlanInput, n: nat)
    ensures Counts(Accounting(n, n, 0, 0, 0, 0, 0), PlannedEntries(generation, after, p, n))
  {
    if n > 0 {
      NewCounts(generation, after, p, n - 1);
      var all := PlannedEntries(generation, after, p, n);
      assert all[..n - 1] == PlannedEntries(generation, after, p, n - 1);
      assert BucketOf(all[n - 1]) == OpenBucket;
    }
  }

  lemma PlanSound(l: Ledger, p: PlanInput)
    requires Sound(l)
    ensures Sound(ApplyPlan(l, p).0)
  {
    if PlanFits(l.active, p) {
      var n := RequestCount(p);
      NewCounts(l.lastGeneration + 1, l.lastRequestId, p, n);
      if p.start == p.end {
        assert n * (p.end - p.start) == 0;
      }
    }
  }

  /** One entry replaced by a sound one of the same token and bucket. */
  lemma ChunkKeepsSound(l: Ledger, token: Token, resultId: nat, c: Chunk)
    requires Sound(l) && c.rows != []
    ensures Sound(ApplyChunk(l, token, resultId, c).0)
  {
    var (at, code) := Find(l, token, resultId);
    if at.Some? {
      var e := AcceptChunk(l.entries[at.value], c, l.budgets).0;
      ChunkSound(l.entries[at.value], c, l.budgets);
      SameBucketCounts(l.accounting, l.entries, at.value, e);
    }
  }

  lemma OneFewer(open: nat, seconds: int)
    requires open > 0
    ensures open * seconds == (open - 1) * seconds + seconds
  {}

  /** An open entry is counted. */
  lemma {:induction false} OpenCounted(entries: seq<Entry>, i: nat)
    requires i < |entries| && BucketOf(entries[i]) == OpenBucket
    ensures CountIn(entries, OpenBucket) > 0
    decreases |entries|
  {
    if i < |entries| - 1 {
      OpenCounted(entries[..|entries| - 1], i);
    }
  }

  lemma {:induction false} NoneOpen(entries: seq<Entry>)
    requires forall i :: 0 <= i < |entries| ==> BucketOf(entries[i]) != OpenBucket
    ensures CountIn(entries, OpenBucket) == 0
    decreases |entries|
  {
    if entries != [] { NoneOpen(entries[..|entries| - 1]); }
  }

  lemma TerminalEntries(l: Ledger, token: Token, resultId: nat, t: Terminal)
    requires EntriesSound(l) && TokensSound(l)
    ensures var m := ApplyTerminal(l, token, resultId, t).0; EntriesSound(m) && TokensSound(m)
  {
    var at := Find(l, token, resultId).0;
    if at.Some? { TerminalSound(l.entries[at.value], t, l.budgets, l.responseBytes, l.normalizedRows); }
  }

  /** An applied terminal: its request was open, and what it normalized is no more than its interval. */
  lemma TerminalApplies(l: Ledger, at: nat, t: Terminal)
    requires EntriesSound(l) && at < |l.entries|
    requires AcceptTerminal(l.entries[at], t, l.budgets, l.responseBytes, l.normalizedRows).1 == TerminalApplied
    ensures BucketOf(l.entries[at]) == OpenBucket && t.normalizedRows <= Seconds(l.entries[at].token)
    ensures BucketOf(AcceptTerminal(l.entries[at], t, l.budgets, l.responseBytes, l.normalizedRows).0) != OpenBucket
  {
    TerminalSound(l.entries[at], t, l.budgets, l.responseBytes, l.normalizedRows);
    OpenMeansOpen(l.entries[at]);
  }

  lemma TerminalCounts(l: Ledger, token: Token, resultId: nat, t: Terminal)
    requires EntriesSound(l) && Counts(l.accounting, l.entries)
    ensures var m := ApplyTerminal(l, token, resultId, t).0; Counts(m.accounting, m.entries)
  {
    var at := Find(l, token, resultId).0;
    if at.Some? {
      var r := AcceptTerminal(l.entries[at.value], t, l.budgets, l.responseBytes, l.normalizedRows);
      if r.1 == TerminalApplied {
        TerminalApplies(l, at.value, t);
        MovedCounts(l.accounting, l.entries, at.value, r.0);
      }
    }
  }

  lemma TerminalRows(l: Ledger, token: Token, resultId: nat, t: Terminal)
    requires Sound(l)
    ensures var m := ApplyTerminal(l, token, resultId, t).0; RowsSound(m) && FenceSound(m)
  {
    var at := Find(l, token, resultId).0;
    if at.Some? {
      if AcceptTerminal(l.entries[at.value], t, l.budgets, l.responseBytes, l.normalizedRows).1 == TerminalApplied {
        TerminalApplies(l, at.value, t);
        OpenCounted(l.entries, at.value);
        OneFewer(l.accounting.open, l.end - l.start);
      }
    }
  }

  lemma TerminalKeepsSound(l: Ledger, token: Token, resultId: nat, t: Terminal)
    requires Sound(l)
    ensures Sound(ApplyTerminal(l, token, resultId, t).0)
  {
    TerminalEntries(l, token, resultId, t);
    TerminalCounts(l, token, resultId, t);
    TerminalRows(l, token, resultId, t);
  }

  /** Closing everything moves the whole open bucket into one other. */
  lemma {:induction false} CloseCounts(entries: seq<Entry>, fenced: bool, b: Bucket)
    requires forall i :: 0 <= i < |entries| ==> EntrySound(entries[i])
    ensures var into := if fenced then FencedBucket else CanceledBucket;
            CountIn(ClosedEntries(entries, fenced), b)
              == if b == OpenBucket then 0
                 else CountIn(entries, b) + if b == into then CountIn(entries, OpenBucket) else 0
    decreases |entries|
  {
    if entries != [] {
      var n := |entries| - 1;
      CloseCounts(entries[..n], fenced, b);
      CloseSound(entries[n], fenced);
      OpenMeansOpen(entries[n]);
      OpenMeansOpen(EngineClose(entries[n], fenced));
      assert ClosedEntries(entries, fenced)[..n] == ClosedEntries(entries[..n], fenced);
    }
  }

  lemma CancelCounts(l: Ledger, fenced: bool)
    requires l.active && EntriesSound(l) && Counts(l.accounting, l.entries)
    ensures var c := CancelAll(l, fenced); Counts(c.accounting, c.entries)
  {
    CloseCounts(l.entries, fenced, OpenBucket);
    CloseCounts(l.entries, fenced, CompletedValueBucket);
    CloseCounts(l.entries, fenced, CompletedEmptyBucket);
    CloseCounts(l.entries, fenced, FailedBucket);
    CloseCounts(l.entries, fenced, CanceledBucket);
    CloseCounts(l.entries, fenced, FencedBucket);
  }

  lemma CancelEntries(l: Ledger, fenced: bool)
    requires l.active && EntriesSound(l) && TokensSound(l)
    ensures var c := CancelAll(l, fenced); EntriesSound(c) && TokensSound(c)
  {
    forall i | 0 <= i < |l.entries|
      ensures EntrySound(EngineClose(l.entries[i], fenced))
           && EngineClose(l.entries[i], fenced).token == l.entries[i].token
    {
      CloseSound(l.entries[i], fenced);
    }
  }

  lemma ScaledUp(open: int, seconds: int)
    requires open >= 0 && seconds >= 0
    ensures 0 * seconds <= open * seconds
  {}

  lemma CancelSound(l: Ledger, fenced: bool)
    requires Sound(l)
    ensures Sound(CancelAll(l, fenced))
  {
    if l.active {
      CancelCounts(l, fenced);
      CancelEntries(l, fenced);
      ScaledUp(l.accounting.open, l.end - l.start);
    }
  }

  lemma InactiveSound(l: Ledger)
    requires Sound(l)
    ensures Sound(l.(active := false))
  {}

  lemma StepSound(l: Ledger, e: Event)
    requires Sound(l) && Admissible(e)
    ensures Sound(Step(l, e).0)
  {
    match e {
      case PlanEvent(p) => { PlanSound(l, p); }
      case ChunkEvent(token, resultId, chunk) => { ChunkKeepsSound(l, token, resultId, chunk); }
      case TerminalEvent(token, resultId, terminal) => { TerminalKeepsSound(l, token, resultId, terminal); }
      case CancelEvent(generation, fenced) => { CancelSound(l, fenced); }
      case RetireEvent(fenced) => { CancelSound(l, fenced); InactiveSound(CancelAll(l, fenced)); }
      case FenceEvent(_, _) => { InactiveSound(l); }
    }
  }

  // --------------------------------------------------------------------------------------------------------- the runs

  ghost predicate AllAdmissible(es: seq<Event>) {
    forall i :: 0 <= i < |es| ==> Admissible(es[i])
  }

  /** The ledger after the first facts of a run, in their consumed order. */
  function After(es: seq<Event>, n: nat): Ledger
    requires AllAdmissible(es) && n <= |es|
  {
    if n == 0 then Fresh else Step(After(es, n - 1), es[n - 1]).0
  }

  lemma {:induction false} RunSound(es: seq<Event>, n: nat)
    requires AllAdmissible(es) && n <= |es|
    ensures Sound(After(es, n))
  {
    if n != 0 {
      RunSound(es, n - 1);
      StepSound(After(es, n - 1), es[n - 1]);
    }
  }

  /** Planned == Open + terminals, and Open counts exactly the requests nothing has closed, in every reachable
      ledger. */
  lemma RunReconciles(es: seq<Event>, n: nat, i: nat)
    requires AllAdmissible(es) && n <= |es| && i < |After(es, n).entries|
    ensures var l := After(es, n);
            && l.accounting.Reconciles() && l.accounting.planned == |l.entries|
            && (l.accounting.open == 0 ==> Closed(l.entries[i]))
            && (BucketOf(l.entries[i]) == OpenBucket <==> !Closed(l.entries[i]))
  {
    RunSound(es, n);
    var l := After(es, n);
    CountsReconcile(l.accounting, l.entries);
    OpenMeansOpen(l.entries[i]);
    if !Closed(l.entries[i]) { OpenCounted(l.entries, i); }
  }

  /** A generation's requests keep their tokens, and a closed one is never changed again. */
  ghost predicate ClosedKept(a: Ledger, b: Ledger) {
    && |b.entries| == |a.entries|
    && forall i :: 0 <= i < |a.entries| ==>
         b.entries[i].token == a.entries[i].token && (Closed(a.entries[i]) ==> b.entries[i] == a.entries[i])
  }

  /** What a later ledger keeps of an earlier one. */
  ghost predicate Later(a: Ledger, b: Ledger) {
    && a.lastGeneration <= b.lastGeneration && a.lastToken <= b.lastToken
    && a.generation <= a.lastGeneration && b.generation <= b.lastGeneration && a.generation <= b.generation
    && a.fenceToken <= a.lastToken && b.fenceToken <= b.lastToken
    && (if b.generation == a.generation
        then ClosedKept(a, b) && (if a.fenceToken != 0 then b.fenceToken == a.fenceToken
                                  else b.fenceToken == 0 || b.fenceToken > a.lastToken)
        else b.fenceToken == 0 || b.fenceToken > a.lastToken)
  }

  lemma ChunkLater(l: Ledger, token: Token, resultId: nat, c: Chunk)
    requires Sound(l) && c.rows != []
    ensures Later(l, ApplyChunk(l, token, resultId, c).0)
  {
    var at := Find(l, token, resultId).0;
    if at.Some? { ChunkSound(l.entries[at.value], c, l.budgets); }
  }

  lemma TerminalLater(l: Ledger, token: Token, resultId: nat, t: Terminal)
    requires Sound(l)
    ensures Later(l, ApplyTerminal(l, token, resultId, t).0)
  {
    var at := Find(l, token, resultId).0;
    if at.Some? { TerminalSound(l.entries[at.value], t, l.budgets, l.responseBytes, l.normalizedRows); }
  }

  lemma CancelLater(l: Ledger, fenced: bool)
    requires Sound(l)
    ensures Later(l, CancelAll(l, fenced)) && Later(l, CancelAll(l, fenced).(active := false))
  {
    forall i | 0 <= i < |l.entries|
      ensures EngineClose(l.entries[i], fenced).token == l.entries[i].token
           && (Closed(l.entries[i]) ==> EngineClose(l.entries[i], fenced) == l.entries[i])
    {
      CloseSound(l.entries[i], fenced);
    }
  }

  lemma StepLater(l: Ledger, e: Event)
    requires Sound(l) && Admissible(e)
    ensures Later(l, Step(l, e).0)
  {
    match e {
      case PlanEvent(p) => {}
      case ChunkEvent(token, resultId, c) => { ChunkLater(l, token, resultId, c); }
      case TerminalEvent(token, resultId, t) => { TerminalLater(l, token, resultId, t); }
      case CancelEvent(_, fenced) => { CancelLater(l, fenced); }
      case RetireEvent(fenced) => { CancelLater(l, fenced); }
      case FenceEvent(_, _) => {}
    }
  }

  lemma LaterTransitive(a: Ledger, b: Ledger, c: Ledger)
    requires Later(a, b) && Later(b, c)
    ensures Later(a, c)
  {}

  lemma {:induction false} RunLater(es: seq<Event>, m: nat, n: nat)
    requires AllAdmissible(es) && m <= n <= |es|
    ensures Later(After(es, m), After(es, n))
    decreases n
  {
    RunSound(es, m);
    if m < n {
      RunLater(es, m, n - 1);
      RunSound(es, n - 1);
      StepLater(After(es, n - 1), es[n - 1]);
      LaterTransitive(After(es, m), After(es, n - 1), After(es, n));
    } else {
      SelfLater(After(es, m));
    }
  }

  lemma SelfLater(l: Ledger)
    requires Sound(l)
    ensures Later(l, l)
  {}

  /** One fence token a generation, handed out only with nothing open, and a later generation's token is greater:
      between any two ledgers of a run. */
  lemma OneFenceEach(es: seq<Event>, m: nat, n: nat)
    requires AllAdmissible(es) && m <= n <= |es|
    requires After(es, m).fenceToken != 0 && After(es, n).fenceToken != 0
    ensures var a, b := After(es, m), After(es, n);
            && a.accounting.open == 0 && b.accounting.open == 0
            && (a.generation == b.generation <==> a.fenceToken == b.fenceToken)
            && (a.generation < b.generation <==> a.fenceToken < b.fenceToken)
  {
    RunSound(es, m);
    RunSound(es, n);
    RunLater(es, m, n);
  }

  /** Each request closes into one bucket, once: for as long as its generation is the current one, nothing changes a
      closed request, whatever facts arrive. */
  lemma ClosesOnce(es: seq<Event>, m: nat, n: nat, i: nat)
    requires AllAdmissible(es) && m <= n <= |es|
    requires After(es, m).generation == After(es, n).generation
    requires i < |After(es, m).entries| && Closed(After(es, m).entries[i])
    ensures i < |After(es, n).entries| && After(es, n).entries[i] == After(es, m).entries[i]
  {
    RunLater(es, m, n);
  }

  /** A fact that is for no request of the current generation, or for one already closed, changes nothing at all. */
  lemma LateChangesNothing(l: Ledger, e: Event)
    requires Admissible(e) && (e.ChunkEvent? || e.TerminalEvent?)
    requires var at := Find(l, e.token, e.resultId).0; at.None? || Closed(l.entries[at.value])
    ensures Step(l, e).0 == l
  {
    if e.ChunkEvent? {
      var at := Find(l, e.token, e.resultId).0;
      if at.Some? { assert l.entries[at.value := l.entries[at.value]] == l.entries; }
    }
  }

  // ----------------------------------------------------------------------------------------- when the fence is issued

  ghost predicate EngineClosedSome(entries: seq<Entry>) {
    exists i :: 0 <= i < |entries| && entries[i].engineClosed
  }

  /** With nothing open, a generation lacks its fence token exactly when the engine closed a request itself. */
  ghost predicate FenceIssued(l: Ledger) {
    && (EngineClosedSome(l.entries) ==> l.accounting.open == 0 && l.fenceToken == 0)
    && (l.generation != 0 && l.accounting.open == 0 && l.fenceToken == 0 ==> EngineClosedSome(l.entries))
  }

  lemma ReplacedClosed(entries: seq<Entry>, i: nat, e: Entry)
    requires i < |entries| && e.engineClosed == entries[i].engineClosed
    ensures EngineClosedSome(entries[i := e]) <==> EngineClosedSome(entries)
  {
    var r := entries[i := e];
    if k :| 0 <= k < |entries| && entries[k].engineClosed { assert r[k].engineClosed; }
    if k :| 0 <= k < |entries| && r[k].engineClosed { assert entries[k].engineClosed; }
  }

  lemma ChunkKeepsFence(l: Ledger, token: Token, resultId: nat, c: Chunk)
    requires FenceIssued(l) && c.rows != []
    ensures FenceIssued(ApplyChunk(l, token, resultId, c).0)
  {
    var at := Find(l, token, resultId).0;
    if at.Some? { ReplacedClosed(l.entries, at.value, AcceptChunk(l.entries[at.value], c, l.budgets).0); }
  }

  lemma TerminalKeepsFence(l: Ledger, token: Token, resultId: nat, t: Terminal)
    requires Sound(l) && FenceIssued(l)
    ensures FenceIssued(ApplyTerminal(l, token, resultId, t).0)
  {
    var at := Find(l, token, resultId).0;
    if at.Some? {
      var r := AcceptTerminal(l.entries[at.value], t, l.budgets, l.responseBytes, l.normalizedRows);
      if r.1 == TerminalApplied {
        TerminalApplies(l, at.value, t);
        OpenCounted(l.entries, at.value);
        ReplacedClosed(l.entries, at.value, r.0);
      }
    }
  }

  lemma CancelKeepsFence(l: Ledger, fenced: bool)
    requires Sound(l) && FenceIssued(l)
    ensures FenceIssued(CancelAll(l, fenced))
  {
    var r := CancelAll(l, fenced);
    if l.active && EngineClosedSome(l.entries) {
      var i :| 0 <= i < |l.entries| && l.entries[i].engineClosed;
      assert r.entries[i].engineClosed;
    } else if l.active && l.accounting.open > 0 {
      if i :| 0 <= i < |l.entries| && BucketOf(l.entries[i]) == OpenBucket {
        OpenMeansOpen(l.entries[i]);
        assert r.entries[i].engineClosed;
      } else {
        NoneOpen(l.entries);
      }
    } else if l.active {
      forall i | 0 <= i < |l.entries| ensures !r.entries[i].engineClosed {
        OpenMeansOpen(l.entries[i]);
        if !Closed(l.entries[i]) { OpenCounted(l.entries, i); }
      }
    }
  }

  /** Over every run a generation with nothing open has its token if and only if the engine closed none of its requests
      itself. */
  lemma {:induction false} FenceIsIssued(es: seq<Event>, n: nat)
    requires AllAdmissible(es) && n <= |es|
    ensures FenceIssued(After(es, n))
  {
    if n != 0 {
      FenceIsIssued(es, n - 1);
      RunSound(es, n - 1);
      var l := After(es, n - 1);
      match es[n - 1] {
        case PlanEvent(p) => {}
        case ChunkEvent(token, resultId, c) => { ChunkKeepsFence(l, token, resultId, c); }
        case TerminalEvent(token, resultId, t) => { TerminalKeepsFence(l, token, resultId, t); }
        case CancelEvent(_, fenced) => { CancelKeepsFence(l, fenced); }
        case RetireEvent(fenced) => { CancelKeepsFence(l, fenced); }
        case FenceEvent(_, _) => {}
      }
    }
  }

  /** A generation of which the engine closed a request never gets a token, whatever arrives later. */
  lemma CanceledNeverFenced(es: seq<Event>, m: nat, n: nat)
    requires AllAdmissible(es) && m <= n <= |es| && After(es, m).generation == After(es, n).generation
    requires EngineClosedSome(After(es, m).entries)
    ensures After(es, n).accounting.open == 0 && After(es, n).fenceToken == 0
  {
    var i :| 0 <= i < |After(es, m).entries| && After(es, m).entries[i].engineClosed;
    ClosesOnce(es, m, n, i);
    FenceIsIssued(es, n);
  }

  /** A plan canceled at once leaves nothing open and no token. */
  lemma CanceledPlan(p: PlanInput)
    requires PlanFits(Fresh.active, p)
    ensures var l := CancelAll(Planned(Fresh, p), false);
            l.active && l.generation == 1 && |l.entries| == RequestCount(p) && l.accounting.open == 0
            && l.fenceToken == 0
  {}

  /** Such a run: one request is planned, and canceled while it is open. */
  lemma CancelingLeavesNoFence() returns (es: seq<Event>)
    ensures AllAdmissible(es)
    ensures var l := After(es, |es|);
            l.active && l.generation == 1 && |l.entries| == 1 && l.accounting.open == 0 && l.fenceToken == 0
  {
    var p := PlanInput(1, 1, 0, 1, 1, 1, Budgets(1, 1, 1), true);
    es := [PlanEvent(p), CancelEvent(1, false)];
    assert PlanFits(Fresh.active, p);
    CanceledPlan(p);
    hide Planned, CancelAll;
    assert After(es, 0) == Fresh;
    assert After(es, 1) == Planned(Fresh, p);
    assert After(es, 2) == CancelAll(Planned(Fresh, p), false);
  }
}
