/** The hydration ledger as the engine runs it: one generation's requests, counters and index, updated in place.  Each
    method leaves the ledger exactly as the step of the same name in `HydrationLedgers` says. */
module HydrationGenerations {
  import opened Options
  import opened L = HydrationLedgers
  import Runs = HydrationRuns

  class HydrationGeneration {
    var active: bool
    var generation: nat
    var epoch: nat
    var start: int
    var end: int
    var budgets: Budgets
    var entries: seq<Entry>
    var requestIndex: map<nat, nat>
    var accounting: Accounting
    var responseBytes: nat
    var normalizedRows: nat
    var fenceToken: nat
    var lastGeneration: nat
    var lastRequestId: nat
    var lastToken: nat

    ghost function View(): Ledger
      reads this
    {
      Ledger(active, generation, epoch, start, end, budgets, entries, accounting, responseBytes, normalizedRows,
             fenceToken, lastGeneration, lastRequestId, lastToken)
    }

    /** The index finds every request of the generation, and no other. */
    ghost predicate Valid()
      reads this
    {
      && Runs.Sound(View())
      && Indexed(requestIndex, View())
    }

    constructor ()
      ensures Valid() && View() == Fresh
    {
      active, generation, epoch, start, end := false, 0, 0, 0, 0;
      budgets, entries, requestIndex := Budgets(0, 0, 0), [], map[];
      accounting := Accounting(0, 0, 0, 0, 0, 0, 0);
      responseBytes, normalizedRows, fenceToken := 0, 0, 0;
      lastGeneration, lastRequestId, lastToken := 0, 0, 0;
      new;
      Runs.FreshSound();
    }

    /** Hands out the generation's fence token, once, when nothing is open. */
    method AllocateFence()
      modifies this`fenceToken, this`lastToken
      ensures View() == WithFence(old(View()))
    {
      if accounting.open == 0 && fenceToken == 0 {
        lastToken := lastToken + 1;
        fenceToken := lastToken;
      }
    }

    /** The requests of a new generation and their index. */
    static method BuildRequests(generation: nat, after: nat, p: PlanInput, n: nat)
      returns (built: seq<Entry>, index: map<nat, nat>)
      ensures built == PlannedEntries(generation, after, p, n)
      ensures Spans(index, after, n)
    {
      built, index := [], map[];
      for i := 0 to n
        invariant built == PlannedEntries(generation, after, p, i)
        invariant Spans(index, after, i)
      {
        var requestId := after + i + 1;
        built := built + [NewEntry(Token(generation, requestId, p.epoch, p.start, p.end))];
        index := index[requestId := i];
      }
    }

    /** Takes the next generation number, and as many request numbers as there are requests. */
    method Number(p: PlanInput)
      modifies this`entries, this`requestIndex, this`lastGeneration, this`lastRequestId
      ensures lastGeneration == old(lastGeneration) + 1 && lastRequestId == old(lastRequestId) + RequestCount(p)
      ensures entries == PlannedEntries(lastGeneration, old(lastRequestId), p, RequestCount(p))
      ensures Spans(requestIndex, old(lastRequestId), RequestCount(p))
    {
      var n := RequestCount(p);
      var built, index := BuildRequests(lastGeneration + 1, lastRequestId, p, n);
      entries, requestIndex := built, index;
      lastGeneration, lastRequestId := lastGeneration + 1, lastRequestId + n;
    }

    method Identify(p: PlanInput)
      modifies this`active, this`generation, this`epoch, this`start, this`end, this`budgets
      ensures active && generation == lastGeneration && epoch == p.epoch && start == p.start && end == p.end
      ensures budgets == p.budgets
    {
      active, generation, epoch, start, end := true, lastGeneration, p.epoch, p.start, p.end;
      budgets := p.budgets;
    }

    /** So many requests open, nothing accounted and no fence yet. */
    method Reset(n: nat)
      modifies this`accounting, this`responseBytes, this`normalizedRows, this`fenceToken
      ensures accounting == Accounting(n, n, 0, 0, 0, 0, 0)
      ensures responseBytes == 0 && normalizedRows == 0 && fenceToken == 0
    {
      accounting := Accounting(n, n, 0, 0, 0, 0, 0);
      responseBytes, normalizedRows, fenceToken := 0, 0, 0;
    }

    /** Replaces the generation by a new one with a request for each of the population. */
    method Restart(p: PlanInput)
      modifies this
      ensures View() == Planned(old(View()), p)
      ensures Spans(requestIndex, old(lastRequestId), RequestCount(p))
    {
      Number(p);
      Identify(p);
      Reset(RequestCount(p));
    }

    method ApplyPlan(p: PlanInput) returns (code: Code)
      requires Valid()
      modifies this
      ensures Valid() && (View(), code) == L.ApplyPlan(old(View()), p)
    {
      if !PlanFits(active, p) { return Rejected; }
      ghost var was := View();
      Runs.PlanSound(was, p);
      Restart(p);
      if RequestCount(p) == 0 { AllocateFence(); }
      PlanIndexed(was, p, requestIndex);
      code := PlanApplied;
    }

    /** The request a fact is for, looked up in the index. */
    method FindEntry(token: Token, resultId: nat) returns (found: bool, at: nat, code: Code)
      requires Valid()
      ensures found == Find(View(), token, resultId).0.Some?
      ensures if found then Find(View(), token, resultId).0 == Some(at) else code == Find(View(), token, resultId).1
      ensures found ==> at < |entries|
    {
      found, at := false, 0;
      if !active || token.generation != generation || token.epoch != epoch { return false, 0, Fenced; }
      if token.requestId !in requestIndex { return false, 0, Integrity; }
      at := requestIndex[token.requestId];
      if resultId != token.requestId || entries[at].token != token { return false, at, Integrity; }
      found, code := true, ChunkApplied;
    }

    method ApplyChunk(token: Token, resultId: nat, c: Chunk) returns (code: Code)
      requires Valid() && c.rows != []
      modifies this`entries
      ensures Valid() && (View(), code) == L.ApplyChunk(old(View()), token, resultId, c)
    {
      ghost var was := View();
      Runs.ChunkKeepsSound(was, token, resultId, c);
      var found, at;
      found, at, code := FindEntry(token, resultId);
      if !found { return; }
      var (e, verdict) := AcceptChunk(entries[at], c, budgets);
      code := verdict;
      entries := entries[at := e];
      SameIndex(was, View(), requestIndex);
    }

    method CountTerminal(e: Entry, state: TerminalState)
      requires e.terminal == Some(state)
      modifies this`accounting
      ensures accounting == Moved(old(accounting), BucketOf(e))
    {
      var a := accounting.(open := accounting.open - 1);
      match state {
        case CompletedValue => { accounting := a.(completedValue := a.completedValue + 1); }
        case CompletedEmpty => { accounting := a.(completedEmpty := a.completedEmpty + 1); }
        case Failed => { accounting := a.(failed := a.failed + 1); }
        case Canceled => { accounting := a.(canceled := a.canceled + 1); }
      }
    }

    /** Takes one closed request out of the open count and into its own. */
    method Count(at: nat, e: Entry, t: Terminal)
      requires at < |entries| && e.terminal == Some(t.state)
      modifies this
      ensures requestIndex == old(requestIndex)
      ensures View() == WithFence(old(View()).(
                          entries := old(entries)[at := e], responseBytes := old(responseBytes) + t.responseBytes,
                          normalizedRows := old(normalizedRows) + t.normalizedRows,
                          accounting := Moved(old(accounting), BucketOf(e))))
    {
      entries := entries[at := e];
      responseBytes, normalizedRows := responseBytes + t.responseBytes, normalizedRows + t.normalizedRows;
      CountTerminal(e, t.state);
      AllocateFence();
    }

    method ApplyTerminal(token: Token, resultId: nat, t: Terminal) returns (code: Code)
      requires Valid()
      modifies this
      ensures Valid() && (View(), code) == L.ApplyTerminal(old(View()), token, resultId, t)
    {
      Runs.TerminalKeepsSound(View(), token, resultId, t);
      TerminalIndexed(View(), token, resultId, t, requestIndex);
      var found, at;
      found, at, code := FindEntry(token, resultId);
      if found { code := CloseFound(at, token, resultId, t); }
    }

    method CloseFound(at: nat, token: Token, resultId: nat, t: Terminal) returns (code: Code)
      requires at < |entries| && Find(View(), token, resultId).0 == Some(at)
      modifies this
      ensures requestIndex == old(requestIndex)
      ensures (View(), code) == L.ApplyTerminal(old(View()), token, resultId, t)
    {
      var (e, verdict) := AcceptTerminal(entries[at], t, budgets, responseBytes, normalizedRows);
      code := verdict;
      if code == TerminalApplied { Count(at, e, t); }
    }

    /** Closes one request, unless it is closed. */
    method CloseEntry(i: nat, fenced: bool)
      requires i < |entries| && EntrySound(entries[i])
      modifies this`entries, this`accounting
      ensures entries == old(entries)[i := EngineClose(old(entries)[i], fenced)]
      ensures accounting
           == Closing(old(accounting), if BucketOf(old(entries)[i]) == OpenBucket then 1 else 0, fenced)
    {
      var e := entries[i];
      OpenMeansOpen(e);
      if e.terminal.Some? || e.engineClosed || e.fenced { return; }
      accounting := accounting.(open := accounting.open - 1);
      if fenced {
        e := e.(fenced := true, engineClosed := true);
        accounting := accounting.(fenced := accounting.fenced + 1);
      } else {
        e := e.(terminal := Some(Canceled), reason := CanceledReason, engineClosed := true);
        accounting := accounting.(canceled := accounting.canceled + 1);
      }
      entries := entries[i := e];
    }

    method CloseEntries(fenced: bool)
      requires forall i :: 0 <= i < |entries| ==> EntrySound(entries[i])
      modifies this`entries, this`accounting
      ensures entries == ClosedEntries(old(entries), fenced)
      ensures accounting == Closing(old(accounting), CountIn(old(entries), OpenBucket), fenced)
    {
      ghost var was := entries;
      var i := 0;
      while i < |entries|
        invariant i <= |entries| == |was|
        invariant forall k :: i <= k < |was| ==> entries[k] == was[k]
        invariant forall k :: 0 <= k < i ==> entries[k] == EngineClose(was[k], fenced)
        invariant accounting == Closing(old(accounting), CountIn(was[..i], OpenBucket), fenced)
      {
        CloseEntry(i, fenced);
        assert was[..i + 1][..i] == was[..i];
        i := i + 1;
      }
      assert was[..i] == was;
      assert entries == ClosedEntries(was, fenced);
    }

    method CloseAll(fenced: bool)
      requires active && Runs.EntriesSound(View()) && accounting.open == CountIn(entries, OpenBucket)
      modifies this`entries, this`accounting
      ensures View() == CancelAll(old(View()), fenced)
    {
      CloseEntries(fenced);
    }

    method CancelGeneration(fenced: bool)
      requires Valid()
      modifies this`entries, this`accounting
      ensures Valid() && View() == CancelAll(old(View()), fenced)
    {
      ghost var was := View();
      Runs.CancelSound(was, fenced);
      CancelIndexed(was, fenced, requestIndex);
      if active { CloseAll(fenced); }
    }

    method ApplyCancel(of: nat, fenced: bool) returns (code: Code)
      requires Valid()
      modifies this`entries, this`accounting
      ensures Valid() && (View(), code) == L.ApplyCancel(old(View()), of, fenced)
    {
      if !active || of != generation { return Fenced; }
      var open := accounting.open;
      CancelGeneration(fenced);
      code := if open == 0 then Rejected else TerminalApplied;
    }

    /** The connection or the policy ending the generation. */
    method Retire(fenced: bool)
      requires Valid()
      modifies this
      ensures Valid() && View() == Step(old(View()), RetireEvent(fenced)).0
    {
      CancelGeneration(fenced);
      ghost var was := View();
      Runs.InactiveSound(was);
      active := false;
      SameIndex(was, View(), requestIndex);
    }

    method ApplyFence(of: nat, fence: nat) returns (code: Code)
      requires Valid()
      modifies this`active
      ensures Valid() && (View(), code) == L.ApplyFence(old(View()), of, fence)
    {
      if !active || of != generation || fence != fenceToken || fence == 0 { return Fenced; }
      if accounting.open != 0 { return Rejected; }
      ghost var was := View();
      Runs.InactiveSound(was);
      active := false;
      SameIndex(was, View(), requestIndex);
      code := TerminalApplied;
    }
  }

  /** The accounting once so many requests were moved out of the open bucket. */
  ghost function Closing(a: Accounting, moved: nat, fenced: bool): Accounting {
    if fenced then a.(open := a.open - moved, fenced := a.fenced + moved)
    else a.(open := a.open - moved, canceled := a.canceled + moved)
  }

  /** The index holds exactly the request numbers after one, each at its offset. */
  ghost predicate Spans(index: map<nat, nat>, after: nat, n: nat) {
    && (forall id :: id in index <==> after < id <= after + n)
    && (forall id :: id in index ==> index[id] == id - after - 1)
  }

  lemma SameIndex(a: Ledger, b: Ledger, index: map<nat, nat>)
    requires Indexed(index, a) && |a.entries| == |b.entries|
    requires a.entries != [] ==> a.entries[0].token == b.entries[0].token
    ensures Indexed(index, b)
  {
    forall id: nat ensures IndexOf(a, id) == IndexOf(b, id) {}
  }

  lemma TerminalIndexed(was: Ledger, token: Token, resultId: nat, t: Terminal, index: map<nat, nat>)
    requires Indexed(index, was) && Runs.Sound(was)
    ensures Indexed(index, L.ApplyTerminal(was, token, resultId, t).0)
  {
    SameIndex(was, L.ApplyTerminal(was, token, resultId, t).0, index);
  }

  lemma CancelIndexed(was: Ledger, fenced: bool, index: map<nat, nat>)
    requires Indexed(index, was) && Runs.Sound(was)
    ensures Indexed(index, CancelAll(was, fenced))
  {
    if was.active && was.entries != [] { CloseSound(was.entries[0], fenced); }
    SameIndex(was, CancelAll(was, fenced), index);
  }

  lemma PlanIndexed(was: Ledger, p: PlanInput, index: map<nat, nat>)
    requires PlanFits(was.active, p)
    requires Spans(index, was.lastRequestId, RequestCount(p))
    ensures Indexed(index, L.ApplyPlan(was, p).0)
  {
    var l := L.ApplyPlan(was, p).0;
    if l.entries != [] { assert l.entries[0].token.requestId == was.lastRequestId + 1; }
  }

  ghost predicate Indexed(index: map<nat, nat>, l: Ledger) {
    forall id :: (id in index <==> IndexOf(l, id).Some?) && (id in index ==> IndexOf(l, id) == Some(index[id]))
  }
}
