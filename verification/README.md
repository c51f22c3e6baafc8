# Market scanner: a verified model of its engine and live ingress

The system ingests one-second aggregate bars, trades and quotes for a fixed set of symbols, keeps one canonical state per
symbol, qualifies symbols over a rolling minute, ranks them, and moves a committed watermark T forward only when the
evidence supports it. This project models that core in Dafny and proves what its fast incremental structures and its
protocols promise. Time is an integer (nanoseconds for clocks, whole seconds for bar starts), prices and volumes are
reals, a session is 57,600 seconds, and every locked operation is one atomic step.

Where the code updates state in place, a class or a loop does the same here and is proved equal, step by step, to a
function on values; the invariants and the results over whole runs are proved about those functions.

The functions themselves have partners that do not use them: the modules named `...Meaning`, with `FactDispositions`,
`WatermarkBounds` and `TQRepeats`, say what each operation does by the state before it, in terms of bars, seconds, symbols
and counts, or over whole runs, and prove that the functions do exactly that.

| component | modules |
|---|---|
| canonical aggregates: the merge rule, the tail and its index, the folded prefix, the bitmaps, exact coverage | `CanonicalMerge`, `AggregatePrefixes`, `SlotBitmaps`, `TailIndexes`, `AggregateStore`, `SymbolAggregateStates`, `FactDispositions`, `ExactCoverage`, `CoverageMeaning` |
| answers across compaction: points with cumulative volumes, range evidence, selection marks | `MeasurementPoints`, `RangeEvidence`, `SessionFeatures`, `FeatureRuns`, `SelectionMarks` |
| qualification gate: the rolling window, incremental proofs, the hydration scan, a fresh hydration end to end | `QualificationGate`, `GateMeaning`, `ProofWindows`, `Qualifications`, `QualificationMeaning`, `QualificationCases`, `HydrationScans`, `FreshHydrations` |
| live ingress queue | `LiveQueueModel`, `LiveQueueMeaning`, `LiveQueueRuns`, `LiveFrameQueues` |
| hydration: ledger, generation, worker | `HydrationLedgers`, `HydrationMeaning`, `HydrationRuns`, `HydrationGenerations`, `HydrationWorkers` |
| lifecycle, recovery, fences and the watermark | `EngineLifecycle`, `EngineMeaning`, `LifecycleRuns`, `WatermarkBounds`, `LiveEngines` |
| evaluation and ranking | `RankingRows`, `RankingMeaning`, `FieldAccounting`, `Evaluation`, `StagedEvaluation`, `EvaluationMeaning`, `EvaluationValidates`, `EvaluationAccepted` |
| trade and quote membership and retention | `TQModel`, `TQMeaning`, `TQCommandsMeaning`, `TQRuns`, `TQWire`, `TQRepeats`, `TradeQuoteStates` |
| shared vocabulary | `Options`, `SessionUnits`, `LivePositions`, `Intervals` |

## What the proofs found

Eight expectations hold only under a condition. The proofs state the condition, and what happens when it fails.

- **Merge order.** All deliveries of the same facts for one second end alike exactly when no two live facts clash at
  one position, or two of them clash at the greatest live position. In the second case the integrity fault is latched in
  every order, whatever else clashes below (`ClashAtGreatestLatches`, `MergeConverges`). When the only clashes are lower
  ones, they are noticed only if they arrive first: `LowerClashDiverges` builds, for every such set of facts, one order
  that latches the fault and one that does not.
- **Adjoining hydration chunks.** The scan reads second `last + 1` before the next chunk can supply it. A chunk whose
  first row follows the previous chunk's last row by one second always loses that row to the scan, and no other row is
  ever lost. `AdjoiningChunksLoseAPass` gives rows whose only passing window disappears this way.
- **Recomputing a changed second.** When a changed window beyond the accounted boundary passes,
  `recomputeQualificationForAggregate` installs a proof past its own boundary and the validity test of
  `evaluateQualificationThrough` then invalidates the state. In every other case exactness is restored
  (`Recomputed` in `Qualifications`). `RecomputeInvalidates` gives such an input: the session's first bar arrives after
  59 proof ends are accounted for. The function has no production caller.
- **The final proof end.** It is always a settled passing end. When an evaluation of an exact state ends final, the end
  is the earliest passing end of the session if and only if, before the call, no boundary was accounted for, no proof
  was held, or no newly scanned end that passes was settled (`EndsEarliest`, stated by `EvaluateThrough`).
  `FinalIsNotEarliest` gives a run in which a proof was held: the target stands still while the clock runs on past the
  correction horizon.
- **A complete request is not an exact one.** A fresh hydration completes as trusted when no row of the request was
  refused. That does not look at two kinds of second: one left in conflict earlier, and the one a structurally invalid
  live bar was recorded for, which the installed coverage leaves out. The state then holds every window of the rows read
  in time whose bars pass the gate, and it holds just what passes if and only if none of those windows has such a second
  (`HydrateFresh`, `ExactIfClear`). `UnknownSecondIsProved` gives a minute of rows none of whose proof ends passes, while
  its end is held as a proof and, once settled, becomes final.
- **Recovery without a boundary.** An engine whose first epoch fails before the first commit recovers with no supported
  boundary: every plan it makes is refused and it is never live again (`BootstrapFailureTraps`, `TrappedNeverLive`).
  A recovering engine between epochs that has a boundary can go live by inputs inside its session
  (`ResumableCanGoLive`).
- **A generation without a fence.** A generation with nothing open lacks its fence token if and only if the engine
  itself closed one of its requests by cancellation or fencing (`FenceIsIssued`), and then never gets one
  (`CanceledNeverFenced`). `CancelingLeavesNoFence` is such a run.
- **A contradicted late second.** Rows that contradict each other past the correction horizon leave their second in
  conflict with no bar. A further late row is answered with that conflict if and only if the older delivery mark is not of
  that second (`ConflictAnswered`); the withdrawal leaves that mark in place while the latest bar is another. In the run of
  `MarkOutlivesBar` a row that repeats the first of the contradicting ones is answered as a duplicate.

Two further remarks. The scalar first open is not cut at the cutoff, and is still right whenever some bar precedes the
cutoff (`FirstOpenBefore`). The compact selection mark is exact at its two cached boundaries and past the latest bar;
at any other boundary it is some accepted bar before it, not always the last.

## Model

| member | source | states |
|---|---|---|
| LivePositions.CompareOrders | internal/engine/aggregate.go:630-650 | the comparison of live positions is a total strict order on epoch, frame and element |
| CanonicalMerge.MergeLiveSettles | internal/engine/aggregate.go:478-566 | after a live fact of any position, a cell that was determined by the facts so far is determined by them with the new one, or the integrity fault is latched, and only because of a clash |
| CanonicalMerge.MergeHistoricalSettles | internal/engine/aggregate.go:478-566 | the same for a historical fact: live outranks conflict and conflict outranks historical |
| CanonicalMerge.MergeConverges | internal/engine/aggregate.go:478-566 | any two delivery orders, repetitions included, of the same facts for one second end with the same value, authority, greatest live position, conflict bit and integrity latch; without a clash these are the ones the set of facts determines |
| CanonicalMerge.ClashAtGreatestLatches | internal/engine/aggregate.go:723-749 | two unequal values at the greatest live position always end withdrawn and latched |
| CanonicalMerge.LowerClashDiverges | internal/engine/aggregate.go:478-566 | for every set of facts with a clash below the greatest live position and none at it, two orders exist that differ in the integrity latch |
| AggregatePrefixes.AggregatePrefix.Fold | internal/engine/compact_canonical.go:94-129 | folding adds the bar to what the prefix holds and keeps the first open, the extrema, the latest bar and the totals right for it, or uncertain |
| AggregatePrefixes.AggregatePrefix.WithdrawHistorical | internal/engine/compact_canonical.go:131-149 | taking a folded bar back out leaves every scalar right for the remaining bars or marked uncertain, exactly when it rested on the withdrawn bar |
| SlotBitmaps.MaskIsRange | internal/engine/aggregate.go:1186-1201 | a word's mask holds exactly the bits of the slots of the range that lie in that word |
| SlotBitmaps.SetMarks | internal/engine/aggregate.go:788-820 | setting a bit marks exactly one more second |
| SlotBitmaps.ClearMarks | internal/engine/aggregate.go:788-820 | clearing a bit unmarks exactly that second |
| SlotBitmaps.SetGuards | internal/engine/aggregate.go:959-973 | the complement word rewritten after a change guards the changed bitmap |
| TailIndexes.Search | internal/engine/aggregate.go:898-924 | binary search separates the starts below the key from those at or above it |
| TailIndexes.TailIndex.Put | internal/engine/aggregate.go:898-924 | the map gains the record, and sorted order, count, revision, bitmap and guard go on agreeing with it; a start outside the session invalidates the index instead |
| TailIndexes.TailIndex.Delete | internal/engine/aggregate.go:926-957 | the map loses exactly the start, and every index structure goes on agreeing with it |
| TailIndexes.TailIndex.Rebuild | internal/engine/aggregate.go:873-896 | from any tail map the list of all keys, with bits, guard and count of the well-placed records; the index is usable, and then in full agreement, exactly when no record is misplaced |
| AggregateStore.CompactCompacts | internal/engine/aggregate.go:822-846 | compaction terminates, leaves exactly the unexpired records unchanged, turns each expired one into a presence bit (sealed if live), and touches neither absence, conflict nor the latest mark |
| AggregateStore.CompactKeepsClass | internal/engine/compact_canonical.go:204-219 | compaction changes no answer of the coverage class, the two delivery marks that also count as presence included, for every state whose older mark is of a present or conflicting second |
| AggregateStore.ClassOverRuns | internal/engine/compact_canonical.go:204-219 | over every run a session second is classed present, by tail, bitmap or either delivery mark, exactly when its bar is held in the tail or folded, and the classes exclude one another, so the order of the tests does not matter |
| AggregateStore.DecideHolds | internal/engine/aggregate.go:432-567 | every decision keeps the whole state sound: tail, bitmaps and marks apart and in agreement with the bars |
| AggregateStore.AcceptedTailBounded | internal/engine/aggregate.go:822-871 | a decision that accepts a bar leaves at most 961 tail records, all inside the inclusive sixteen-minute horizon |
| AggregateStore.DecideMerges | internal/engine/aggregate.go:432-567 | for a second inside the horizon the whole operation, compaction and marks included, is the merge rule for that second alone |
| AggregateStore.DecideLeaves | internal/engine/aggregate.go:432-567 | no other second inside the horizon is changed by it |
| AggregateStore.RunHolds | internal/engine/aggregate.go:432-567 | soundness over every run of bars and coverage installations |
| AggregateStore.RunProjects | internal/engine/aggregate.go:432-567 | over every run without an integrity fault, a second inside the horizon holds exactly what the merge rule makes of its own facts in their order |
| AggregateStore.RunsConverge | internal/engine/aggregate.go:478-566 | two whole runs that deliver the same consistent facts for a second, in any orders and among any other traffic, agree on that second, and it is what the facts determine |
| AggregateStore.AbsenceStaysApart | internal/engine/aggregate.go:1151-1184 | over every run no proven-absent second is present, in the tail or in conflict |
| AggregateStore.LatestOverRuns | internal/engine/aggregate.go:988-1020 | over every run the delivery-order mark is a bar still held, no tail bar is later, and no folded bar is later unless a withdrawal left the prefix uncertain |
| FactDispositions.MergeMeans | internal/engine/aggregate.go:526-566 | inside the horizon each disposition is told by the record of the second alone: by its values, by who vouches for it and by the place of the fact against its position, each as an if-and-only-if |
| FactDispositions.LateMeans | internal/engine/aggregate.go:510-519 | a bar is late strictly more than 960 seconds after its end: one that ended exactly then is still corrected |
| FactDispositions.LateLiveMeans | internal/engine/aggregate.go:510-540 | for every sound state a late live bar changes no bar and no bit: it is a duplicate if and only if it repeats the values of a live record still recalled for its second, and too late otherwise |
| FactDispositions.SealedRowMeans | internal/engine/aggregate.go:500-506 | a historical row of a sealed second changes nothing; it is a duplicate if and only if it equals the value kept for reconciliation, and a conflict with the live bar otherwise |
| FactDispositions.LateRowMeans | internal/engine/aggregate.go:478-566 | every other late historical row, by the record recalled and the bar held: each of the six dispositions as an if-and-only-if, with what it leaves |
| FactDispositions.RecalledIsHeld | internal/engine/aggregate.go:478-490 | what the tail or the two marks recall of a second is the bar held there, or of a second in conflict |
| FactDispositions.ConflictAnswered | internal/engine/aggregate.go:478-525 | a late row of a second in conflict is answered with that conflict if and only if the older delivery mark is not of that second |
| FactDispositions.MarkOutlivesBar | internal/engine/aggregate.go:751-786 | a run whose last state has a second in conflict and no bar of it, where a late row that repeats the first of the contradicting rows is answered as a duplicate |
| FactDispositions.DecideSound | internal/engine/aggregate.go:432-567 | every decision keeps the soundness these answers rest on: seals, supported records and marks in agreement |
| FactDispositions.SealedMeans | internal/engine/aggregate.go:822-846 | over every run the state is sound in that sense, and a second is sealed exactly when the bar folded for it is a live one |
| FactDispositions.SealedForGood | internal/engine/aggregate.go:500-506 | over every run a sealed second keeps its bar for good: no later fact, live or historical, changes it |
| SymbolAggregateStates.SymbolAggregates.CompactTail | internal/engine/aggregate.go:822-871 | the loop over the ordered tail, in place, does what compaction does on values |
| SymbolAggregateStates.SymbolAggregates.RecomputeMark | internal/engine/aggregate.go:1012-1020 | the pass over the tail finds the same next mark in whatever order the records come |
| SymbolAggregateStates.SymbolAggregates.InstallFact | internal/engine/aggregate.go:664-721 | the in-place installation, to the tail or straight into the prefix, is the one on values |
| SymbolAggregateStates.SymbolAggregates.WithdrawHistoricalRecord | internal/engine/aggregate.go:751-786 | the in-place withdrawal on conflicting history is the one on values |
| SymbolAggregateStates.SymbolAggregates.WithdrawForIntegrity | internal/engine/aggregate.go:723-749 | the in-place withdrawal on an integrity fault is the one on values |
| SymbolAggregateStates.SymbolAggregates.DecideFact | internal/engine/aggregate.go:432-567 | the whole decision in place, with its disposition, is the one on values |
| ExactCoverage.ExactAggregateCoverage | internal/engine/aggregate.go:1032-1092 | the indexed, the sixteen-word-window and the sparse form answer true exactly when the source of every word touched passes its tests (flags, revision, counts, guard) and every second of the interval is free of conflict and present, in the tail or proven absent |
| ExactCoverage.RightIsUsable | internal/engine/aggregate.go:1032-1092 | an index in agreement with the tail, and a window that is, pass every test, so they are never refused |
| CoverageMeaning.SecondMeans | internal/engine/aggregate.go:1032-1092 | a second is covered if and only if it is in no conflict and folded, proven absent or in the tail under its own key |
| CoverageMeaning.UsableMeans | internal/engine/aggregate.go:1048-1070 | when a word of the index or the window counts: flags, revision, counts, and every bit the opposite of its guard |
| CoverageMeaning.AllUsableMeans | internal/engine/aggregate.go:1042-1043 | the words a query tests are exactly those of its seconds |
| ExactCoverage.SpanFitsWindow | internal/engine/aggregate.go:1094-1125 | a 961-second span always fits the sixteen words, wherever it starts |
| ExactCoverage.BuildTailWindow | internal/engine/aggregate.go:1094-1125 | a usable window holds exactly the tail, and every well-placed tail within the span gets a usable one |
| ExactCoverage.FillWindow | internal/engine/aggregate.go:1094-1125 | the pass over the map fills in every record, or names one that is misplaced or out of the window |
| ExactCoverage.InstallExactCoverage | internal/engine/aggregate.go:1151-1184 | the word loop installs exactly the interval's consequence, and an interval outside the session is refused |
| ExactCoverage.InstallThenCovered | internal/engine/aggregate.go:1151-1184 | after an installation the interval is exactly covered if and only if no second of it is in conflict and the excluded invalid second, if inside, was covered otherwise |
| ExactCoverage.InstallStaysApart | internal/engine/aggregate.go:1151-1184 | an installation keeps proven absence apart from presence, tail and conflict |
| MeasurementPoints.Search | internal/engine/feature_mvp.go:188-216 | binary search splits the points at the cutoff |
| MeasurementPoints.Recompute | internal/engine/feature_mvp.go:96-112 | rewriting the sums from an index on makes every cumulative sum right and changes no point |
| MeasurementPoints.PutPoint | internal/engine/feature_mvp.go:40-66 | inserting or replacing a point keeps the list a sorted, summed mirror of the bars |
| MeasurementPoints.RemovePoint | internal/engine/feature_mvp.go:68-94 | so does removing one |
| MeasurementPoints.PrefixIsVolume | internal/engine/feature_mvp.go:188-216 | the sum of the points before a cutoff is the second-by-second volume of every bar before it |
| RangeEvidence.InsertEvidence | internal/engine/feature_price_range.go:105-115 | a new point is inserted and the point of a second already listed is replaced; the list stays sorted and in agreement with the bars |
| RangeEvidence.EvidenceFits | internal/engine/feature_price_range.go:83-103 | a list of one point a second inside a session never outgrows it |
| RangeEvidence.ExtremeWithin | internal/engine/feature_price_range.go:692-715 | the extreme found between two cutoffs is attained there, bounds every bar there, and is found exactly when there is one |
| SessionFeatures.SessionFeatures.Put | internal/engine/feature_mvp.go:54-66 | a tail bar or a new version of one becomes the bar of its second, and no other second changes |
| SessionFeatures.SessionFeatures.Drop | internal/engine/feature_mvp.go:68-80 | a withdrawn tail bar is gone and no other second changes |
| SessionFeatures.SessionFeatures.FoldDirect | internal/engine/aggregate.go:688-694 | a historical bar beyond the horizon becomes the folded bar of its second |
| SessionFeatures.SessionFeatures.Compact | internal/engine/aggregate.go:848-871 | compaction moves a bar from the tail to the folded evidence and leaves the bars, hence every answer below, as they were |
| SessionFeatures.SessionFeatures.SessionVolumeBefore | internal/engine/feature_mvp.go:188-216 | the as-of volume, tail and folded evidence together, is the volume of all bars before the cutoff |
| SessionFeatures.SessionFeatures.AggregateAt | internal/engine/feature_mvp.go:301-322 | the lookup finds exactly the bar of the second, on whichever side it is |
| SessionFeatures.SessionFeatures.MarkStrictlyBefore | internal/engine/feature_mvp.go:324-355 | the last bar of all strictly before the boundary |
| SessionFeatures.SessionFeatures.FoldedRange | internal/engine/feature_price_range.go:396-401 | the scalar path and the evidence-list path both give the range of the folded bars before the cutoff |
| SessionFeatures.SessionFeatures.SessionRangeBefore | internal/engine/feature_price_range.go:396-404 | session low and high over all bars before the cutoff, whatever compaction has folded |
| SessionFeatures.SessionFeatures.FirstOpenBefore | internal/engine/feature_price_range.go:386-389 | with some bar before the cutoff, the open of the session's first bar |
| SessionFeatures.TailViewAt | internal/engine/feature_price_range.go:670-683 | the tail's range and earliest bar before the cutoff, in any order of the records |
| SessionFeatures.FirstOfBoth | internal/engine/feature_price_range.go:386-389 | the earlier of the uncut folded first and the tail's first is the first of all bars before the cutoff |
| FeatureRuns.DecisionChanges | internal/engine/aggregate.go:432-567 | every decision changes the bar of the fact's own second alone, to its values, to nothing or not at all, and compaction changes none |
| FeatureRuns.Follow | internal/engine/aggregate.go:664-786 | the calls a decision makes keep the measurement state holding exactly the bars of the store, each on its side, but for the withdrawal of a folded bar |
| SelectionMarks.MarkUnique | internal/engine/feature_price_range.go:590-616 | a boundary has at most one mark: the accepted bar with the greatest start strictly before it |
| SelectionMarks.SelectionMarks.Accept | internal/engine/aggregate.go:988-1010 | inserting or revising any tail bar keeps both cached marks the marks of their boundaries, with latest values |
| SelectionMarks.SelectionMarks.Compact | internal/engine/aggregate.go:848-871 | folding a bar below the committed boundary changes neither the bars nor the cached mark |
| SelectionMarks.SelectionMarks.FoldDirect | internal/engine/aggregate.go:688-714 | a historical bar folded directly is taken into both cached marks |
| SelectionMarks.SelectionMarks.RepairBefore | internal/engine/feature_price_range.go:590-616 | the repair finds the mark of any boundary at or after the cached one |
| SelectionMarks.BestOfTail | internal/engine/feature_price_range.go:590-616 | the scan of the tail finds the same best record in whatever order it reads it |
| SelectionMarks.SelectionMarks.Install | internal/engine/feature_price_range.go:545-554 | the new mark becomes current, and the replaced boundary and mark become the prior ones |
| SelectionMarks.SelectionMarks.Advance | internal/engine/feature_price_range.go:568-585 | one step by lookup and a jump by repair both leave the right marks for the new and the replaced boundary; an earlier target changes nothing |
| SelectionMarks.SelectionMarks.LatestMarkBefore | internal/engine/feature_price_range.go:618-658 | exactly the mark at the cached boundaries and past the latest bar; always some accepted bar before the boundary |
| QualificationGate.LongestGapMeans | internal/engine/qualification.go:734-745 | the longest gap is attained by a run of absent seconds, and no run is longer |
| QualificationGate.CanPossiblyPassNecessary | internal/engine/qualification.go:277-279 | a window that passes has at least 45 present seconds and none without activity, so the quick test is necessary |
| QualificationGate.CoveredIsTrustworthy | internal/engine/qualification.go:713-724 | as many covered as active seconds is exact coverage of the window's interval |
| QualificationGate.ChangeIsLocal | internal/engine/qualification.go:138-166 | a change at second w changes the verdict of no proof end outside w+1..w+60 |
| QualificationGate.FewBarsFail | internal/engine/qualification.go:341-358 | with fewer than 45 bars in all no window passes |
| GateMeaning.SumsMean | internal/engine/qualification.go:642-690 | for every window the volume, the dollar volume and both activities are the sums of volume, volume times average price and volume over trade size over its present seconds, the short activity over those of the last five |
| GateMeaning.SizesMean | internal/engine/qualification.go:642-690 | an activity is available if and only if every present second it counts has a trade size |
| GateMeaning.ProvenanceMeans | internal/engine/qualification.go:642-690 | each provenance flag says that some present second has that provenance |
| GateMeaning.PriceMeans | internal/engine/qualification.go:642-690 | the price is the close of the last present second |
| GateMeaning.LargestMeans | internal/engine/qualification.go:663-667 | the maximum volume bounds the volume of every present second and is the volume of one |
| GateMeaning.GatePasses | internal/engine/qualification.go:706-711 | a window passes the gate if and only if its sums, its last close, its count of bars, its longest gap and its largest bar say so; in particular no second of a passing window carries more than half of its volume |
| GateMeaning.PassingMeans | internal/engine/qualification.go:473-494 | a proof end passes if and only if every second of its window inside the session is known and the bars of the window, read from the tail before the gate bars, pass the gate |
| ProofWindows.LongestQualificationGap | internal/engine/qualification.go:734-745 | the running loop finds the longest gap |
| ProofWindows.CalculateGateFacts | internal/engine/qualification.go:642-690 | the from-scratch loop gives the facts of the window at a proof end |
| ProofWindows.ProofWindow.constructor | internal/engine/qualification.go:225-234 | a new ring holds exactly the sixty seconds before its proof end |
| ProofWindows.ProofWindow.Advance | internal/engine/qualification.go:236-273 | an advance drops the oldest second, takes in the next and keeps every counter in step |
| ProofWindows.ProofWindow.CurrentFacts | internal/engine/qualification.go:296-339 | the ring's facts are the facts of the window it holds |
| ProofWindows.ProofWindow.Verdict | internal/engine/qualification.go:479-494 | the short cut by counters never changes the verdict |
| ProofWindows.VerdictIsPassing | internal/engine/qualification.go:479-494 | the ring's verdict at a proof end is the from-scratch, trusted one |
| ProofWindows.AdvanceMovesOn | internal/engine/qualification.go:236-243 | over an unchanging store an advance is the window one second later |
| Qualifications.Qualification.InstallProof | internal/engine/qualification.go:496-510 | proofs form a set of at most 961; one more trips the bound and drops them |
| Qualifications.Qualification.RevalidateDirty | internal/engine/qualification.go:529-547 | re-testing revokes exactly the marked proofs that no longer pass |
| Qualifications.Qualification.FinalizeDue | internal/engine/qualification.go:168-206 | the least settled proof, if any, becomes final for good |
| Qualifications.Qualification.ScanExact | internal/engine/qualification.go:168-206 | a scan extends exactness from the old boundary to the new one, or ends final with a settled passing end |
| Qualifications.Qualification.FinalLeast | internal/engine/qualification.go:549-570 | the least of exact proofs is the earliest passing end, unless an earlier one was held already |
| Qualifications.Qualification.EarliestDecided | internal/engine/qualification.go:168-206 | the final end is the earliest passing one if and only if no boundary was accounted for, no proof was held, or no newly scanned end that passes was settled |
| Qualifications.Qualification.EvaluateThrough | internal/engine/qualification.go:168-206 | exact proofs stay exact through the target, its fewer-than-45-bars short cut included, or become final or trip the bound, and the state stays ready for the next call; a settled passing end in the scanned range ends the scan final; a final end is the earliest passing one exactly under a condition on the state before the call; the bound is not tripped while the proofs have room; final is irrevocable |
| Qualifications.Qualification.MarkDirty | internal/engine/qualification.go:512-527 | exactly the held proofs of the range are marked, and marking alone never trips the bound |
| Qualifications.Qualification.RetestExact | internal/engine/qualification.go:138-166 | re-testing and searching sixty windows makes exact proofs exact for the changed store, and reaches beyond the boundary exactly when a window there passes |
| Qualifications.Qualification.RecomputeForAggregate | internal/engine/qualification.go:138-166 | from exact proofs: final, bound tripped, exact through the target again, or invalid, and the last exactly when a changed window beyond the boundary passes |
| Qualifications.Qualification.CompleteFreshHydration | internal/engine/qualification.go:423-471 | an incomplete request changes nothing, a complete one without a scan only accounts for the interval, and with a scan its findings become the state whatever the coverage is: the earliest end if settled, else the least settled recent one, else proofs; findings that are exactly what passes leave an exact state, ready for the next evaluation |
| Qualifications.Qualification.ConcludedExact | internal/engine/qualification.go:446-467 | findings that are exactly what passes become exact proofs or the earliest passing end |
| Qualifications.StatusMeans | internal/engine/qualification.go:572-592 | with exact proofs the status is provisional if and only if some proof end passes, and not yet passed if and only if none does over a fully covered session |
| Qualifications.NoPassingWhenFew | internal/engine/qualification.go:341-358 | the short cut skips no passing proof end |
| HydrationScans.HydrationScan.Advance | internal/engine/qualification.go:360-399 | the scan reads exactly the seconds up to the clipped boundary, once each, and tests every proof end on the way |
| HydrationScans.RecentFits | internal/engine/qualification.go:360-399 | the 961 bound on recent passing ends is never reached |
| HydrationScans.PruneGateBars | internal/engine/qualification.go:407-421 | pruning keeps every bar the scan or a later correction can still need |
| HydrationScans.NothingPassesBeyond | internal/engine/qualification.go:423-471 | no proof end more than four seconds past the last bar passes |
| HydrationScans.ScanChunk | internal/engine/hydration.go:909-915 | each delivered chunk, late rows folded and recent ones in the tail at its own time, is read in full, except for a first row that adjoins the previous chunk; a row for a folded or conflicting second is refused, and the chunk reports it |
| HydrationScans.CompleteScan | internal/engine/qualification.go:423-471 | over tail and compact bars together, scanning three seconds past the last bar finds all there is to find in the session |
| HydrationScans.CoveredKnown | internal/engine/hydration.go:1012-1034 | after the coverage of the interval and compaction a second is known exactly if it is not in conflict and not the excluded one, unless that one was known already |
| HydrationScans.ScanRequest | internal/engine/hydration.go:909-915 | a whole request, chunk by chunk in time, then its coverage, compaction and the end of the scan: if no row was refused, it finds exactly the earliest and the recent passing ends of one scan over the rows read in time, keeps every bar a later correction can need, and leaves every second known but those in conflict and the excluded one |
| HydrationScans.SpacedChunksLoseNothing | internal/engine/hydration.go:909-915 | if no chunk adjoins the one before, the rows read in time are all rows |
| HydrationScans.AdjoiningRowIsLost | internal/engine/qualification.go:378-393 | the first row of every adjoining chunk is lost to the scan |
| HydrationScans.AdjoiningChunksLoseAPass | internal/engine/qualification.go:378-393 | rows with a passing end, cut into chunks of 44 as the worker cuts them, of which the chunked scan finds none |
| QualificationGate.PassingAgrees | internal/engine/qualification.go:407-421 | bars that agree from a second on give every later window the same verdict, so pruning below it is harmless |
| FreshHydrations.FoundIsExact | internal/engine/qualification.go:423-471 | with the session so far trusted, what the scan found over the bars is exactly what passes by the full gate |
| FreshHydrations.DeliveredIsWhole | internal/engine/qualification.go:407-421 | the delivered rows are the whole evidence, and the held bars agree with them from the last second a correction can reach |
| FreshHydrations.IntervalTrusted | internal/engine/aggregate.go:1151-1184 | after the word-level installation the whole interval is trusted if and only if no second of it is in conflict and the excluded one was known already |
| FreshHydrations.HydrateFresh | internal/engine/qualification.go:423-471 | from the chunks of a request to the state, the completion flag being that no row was refused: what becomes of it is told over the bars, a window passes with its coverage exactly if it has no unknown second, and with chunks that lose no row the state is exact, or its final end the earliest, if and only if the windows it rests on are clear |
| FreshHydrations.ExactIfClear | internal/engine/hydration.go:1012-1044 | windows that pass by their bars are what passes if and only if none of them holds an unknown second |
| FreshHydrations.UnknownSecondIsProved | internal/engine/aggregate.go:342-379 | a complete request over a minute with one invalid second: no proof end passes, and its end is held as a proof or final |
| QualificationCases.RecomputeInvalidates | internal/engine/qualification.go:138-166 | a sound, exact state and a changed second after which the recomputation ends invalid |
| QualificationCases.EvaluateSettled | internal/engine/qualification.go:168-206 | with a settled passing end anywhere ahead, evaluation ends final at the first passing end past the boundary, and that is the earliest of all exactly if no proof was held |
| QualificationCases.FinalIsNotEarliest | internal/engine/qualification.go:168-206 | a run whose final proof end is not the earliest passing end |
| QualificationMeaning.ValidMeans | internal/engine/qualification.go:594-628 | when a qualification state is usable, by its bounds, its boundary, its proofs and its final end |
| QualificationMeaning.RefusedMeans | internal/engine/aggregate.go:520-525 | which rows of a hydration are refused |
| QualificationMeaning.InstallMeans | internal/engine/aggregate.go:664-721 | where an installed row and everything in the tail by then is held, by the 960 seconds after its end |
| QualificationMeaning.StatusCases | internal/engine/qualification.go:572-592 | the published status of any state: finalized, provisional, not yet passed over a session known so far, or unresolved |
| LiveFrameQueues.LiveFrameQueue.BeginDecode | internal/massive/live_queue.go:177-205 | the reservation step on the ring: its sequence, or its reason for refusing |
| LiveFrameQueues.LiveFrameQueue.ShedTQOnly | internal/massive/live_queue.go:265-300 | a batch of only trades and quotes is shed, with one marker at a time; any other batch is refused |
| LiveFrameQueues.LiveFrameQueue.TryEnqueueDecoded | internal/massive/live_queue.go:207-263 | admission, shedding or rejection of a decoded batch on the ring, with its accounting |
| LiveFrameQueues.LiveFrameQueue.TryEnqueueFence | internal/massive/live_queue.go:327-420 | one locked attempt of either fence loop: its boundary is the last admitted frame |
| LiveFrameQueues.LiveFrameQueue.CanceledIngressFence | internal/massive/live_queue.go:422-432 | a canceled fence takes a number and enters no queue |
| LiveFrameQueues.LiveFrameQueue.TryEnqueueTerminal | internal/massive/live_queue.go:443-501 | the terminal keeps frames up to its cutoff, cancels fences and keeps the shed marker, in order |
| LiveFrameQueues.LiveFrameQueue.FenceQueuedAndEnqueueTerminal | internal/massive/live_queue.go:503-546 | the terminal that keeps only markers; its two-entry array suffices |
| LiveFrameQueues.TwoSlots | internal/massive/live_queue.go:503-546 | the retained array is never overrun |
| LiveFrameQueues.LiveFrameQueue.TryPop | internal/massive/live_queue.go:561-612 | the first entry leaves the ring into its classifying counter |
| LiveFrameQueues.LiveFrameQueue.CompleteFrame | internal/massive/live_queue.go:614-637 | a popped entry is accounted as classified or fenced, once |
| LiveQueueMeaning.OptionalMeans | internal/massive/live_queue.go:265-300 | a batch is optional work if and only if each of its results is a trade or a quote, taken or rejected, and then it is counted by family |
| LiveQueueMeaning.AdmissionMeans | internal/massive/live_queue.go:207-263 | each outcome of an admission, by the gate, the batch, the slots, the bytes and what may be shed |
| LiveQueueMeaning.BatchMeans | internal/massive/live_queue.go:219-232 | a batch is of the frame read only with its size, epoch, number and receipt, and within the bounds of one batch |
| LiveQueueMeaning.CapacityMeans | internal/massive/live_queue.go:135-147 | a queue of the largest size keeps eight slots and 64 KiB for markers, a smaller one has them beside its own |
| LiveQueueMeaning.AdmissionLeaves | internal/massive/live_queue.go:207-300 | what an admission appends, and that the two shed counters rise by exactly the trades and the quotes of a shed batch |
| LiveQueueMeaning.AdmissionCounts | internal/massive/live_queue.go:207-263 | each outcome raises its own frame counter by one |
| LiveQueueMeaning.AdmissionMarks | internal/massive/live_queue.go:207-263 | an admission moves the high-water marks to what the queue then holds and never down, and leaves every marker counter but the capacity marker alone |
| LiveQueueMeaning.OnlyOptionalIsShed | internal/massive/live_queue.go:265-300 | over every run no frame that carries anything but trades and quotes is ever shed, and the shed counters count what was |
| LiveQueueMeaning.BeginMeans | internal/massive/live_queue.go:177-205 | when a frame is refused before it is decoded, by cause, and when it gets the next number |
| LiveQueueMeaning.FenceMeans | internal/massive/live_queue.go:327-420 | when a fence is refused, when it waits, and what it says of the reading when it is appended |
| LiveQueueMeaning.FencesCounted | internal/massive/live_queue.go:422-432 | a canceled fence says what a queued one would, under a number of its own, and leaves the queue alone |
| LiveQueueMeaning.TerminalMeans | internal/massive/live_queue.go:443-546 | the terminal leaves, in order, the markers with fences canceled and the frames up to its cutoff, then itself; what it dropped is counted as fenced and its bytes are released |
| LiveQueueMeaning.PopMeans | internal/massive/live_queue.go:561-612 | the first entry leaves with its bytes, and its counters move to the classifier |
| LiveQueueMeaning.CompleteMeans | internal/massive/live_queue.go:614-637 | a classified entry is disposed of or fenced, and a capacity marker may be queued again |
| LiveQueueRuns.RingHasRoom | internal/massive/live_queue.go:149-156 | at least five ring entries are free whenever the ledger holds, so the capacity panic cannot happen |
| LiveQueueRuns.QueueLedger | internal/massive/live_queue.go:55-65 | in every reachable state Reconciles holds, queued bytes are the sum of the queued charges within capacity, the queued count is the decoded entries, and there is at most one fence, one shed marker and one terminal |
| LiveQueueRuns.FenceSafety | internal/massive/live_queue.go:327-420 | over every run a fence delivered complete follows every admitted frame up to its boundary and precedes every greater one, across sheds, rejections, decodes in flight and the terminal |
| LiveQueueRuns.DeliveryOrder | internal/massive/live_queue.go:561-612 | over every run frames are delivered in ascending order, only admitted ones, and all of them once the queue is empty, except those past the terminal's cutoff |
| HydrationLedgers.ChunkSound | internal/engine/hydration.go:811-923 | an accepted chunk advances an open request and keeps it open; any other changes nothing |
| HydrationLedgers.TerminalSound | internal/engine/hydration.go:941-1052 | an applied terminal closes an open request into one bucket; any other changes nothing |
| HydrationLedgers.BucketsPartition | internal/engine/hydration.go:315-329 | the six buckets partition the requests |
| HydrationLedgers.CountsReconcile | internal/engine/hydration.go:315-329 | counters that count the buckets reconcile |
| HydrationRuns.RunSound | internal/engine/hydration.go:640-1052 | over every run of plans, chunks, terminals, fences and cancellations the ledger is sound |
| HydrationRuns.RunReconciles | internal/engine/hydration.go:323-329 | over every run planned is open plus terminals, and open counts exactly the requests nothing has closed |
| HydrationRuns.OneFenceEach | internal/engine/hydration.go:750-764 | one fence token a generation, only with nothing open, strictly increasing across generations |
| HydrationRuns.ClosesOnce | internal/engine/hydration.go:941-1052 | a closed request never changes while its generation is current |
| HydrationRuns.LateChangesNothing | internal/engine/hydration.go:925-1052 | a fact for no current request, or for a closed one, leaves the whole ledger as it was |
| HydrationRuns.FenceIsIssued | internal/engine/hydration.go:750-764 | over every run a generation with nothing open has its token if and only if the engine closed none of its requests itself |
| HydrationRuns.CanceledNeverFenced | internal/engine/hydration.go:1226-1257 | a generation of which the engine closed a request never gets a token, whatever arrives later |
| HydrationRuns.CancelingLeavesNoFence | internal/engine/hydration.go:1226-1257 | an explicit run, a plan canceled while a request is open, that ends with nothing open and no token |
| HydrationMeaning.StreamMeans | internal/engine/hydration.go:811-923 | the ledger applies every chunk of a stream if and only if the stream is a chunking of ascending rows of the interval under one pair of totals, and then has consumed exactly those rows |
| HydrationMeaning.ChunkMeans | internal/engine/hydration.go:811-923 | when a chunk is fenced, when it is a fault and when it is applied, and what the entry then is |
| HydrationMeaning.TerminalMeans | internal/engine/hydration.go:941-1052 | a terminal ends an open request if and only if its work is possible, it is within the budgets, it reports what was consumed and its state agrees; its repetition, another one and one for a closed request each have their own outcome |
| HydrationMeaning.EngineCloseMeans | internal/engine/hydration.go:1226-1257 | the engine ends an open request as fenced without a terminal or as canceled with one |
| HydrationMeaning.BucketMeans | internal/engine/hydration.go:323-329 | a request is counted by its terminal, as fenced without one, and as open otherwise |
| HydrationMeaning.MovedMeans | internal/engine/hydration.go:1005-1040 | a request that leaves the open ones moves two counters and no other |
| HydrationMeaning.FindMeans | internal/engine/hydration.go:925-939 | a fact finds a request if and only if it is of the current generation and names the request by number and whole token; otherwise it is fenced or a fault |
| HydrationMeaning.ChunkOfLedger | internal/engine/hydration.go:811-923 | a chunk changes its own request and nothing else of the ledger |
| HydrationMeaning.TerminalOfLedger | internal/engine/hydration.go:941-1052 | an applied terminal also moves the accounting, adds bytes and rows to those of the generation, and with the last open request brings the fence token |
| HydrationMeaning.PlanMeans | internal/engine/hydration.go:640-748 | when a plan fits, and the requests, numbers and budgets it starts the generation with |
| HydrationMeaning.CancelMeans | internal/engine/hydration.go:1226-1257 | a cancellation closes every open request of its generation into one bucket |
| HydrationMeaning.FenceMeans | internal/engine/hydration.go:1054-1156 | the issued fence ends the generation once nothing is open, and no other does |
| HydrationGenerations.HydrationGeneration.BuildRequests | internal/engine/hydration.go:698-717 | the loop numbers a request for each symbol and the index finds each |
| HydrationGenerations.HydrationGeneration.ApplyPlan | internal/engine/hydration.go:640-748 | the in-place plan is the ledger's, refusals included, and the index stays right |
| HydrationGenerations.HydrationGeneration.FindEntry | internal/engine/hydration.go:925-939 | the index lookup with its fencing tests is the ledger's |
| HydrationGenerations.HydrationGeneration.ApplyChunk | internal/engine/hydration.go:811-923 | the in-place chunk is the ledger's |
| HydrationGenerations.HydrationGeneration.ApplyTerminal | internal/engine/hydration.go:941-1052 | the in-place terminal is the ledger's, fence token included |
| HydrationGenerations.HydrationGeneration.CancelGeneration | internal/engine/hydration.go:1226-1257 | the loop closes exactly the open requests into the canceled or the fenced bucket |
| HydrationGenerations.HydrationGeneration.ApplyFence | internal/engine/hydration.go:1054-1156 | a fence of the issued token ends the generation |
| HydrationWorkers.AllChunksAllRows | internal/massive/hydration_worker.go:397-416 | for every row list and chunk size the chunks concatenate to the rows |
| HydrationWorkers.EmitChunks | internal/massive/hydration_worker.go:397-416 | the loop admits the chunks in order, a prefix of them when it is stopped, and counts what it admitted |
| HydrationWorkers.Process | internal/massive/hydration_worker.go:380-422 | chunks and terminal of one acquisition: completed only with every chunk admitted |
| HydrationWorkers.ChunkTaken | internal/engine/hydration.go:811-923 | each chunk of the stream is accepted by the entry its predecessors left |
| HydrationWorkers.TerminalTaken | internal/engine/hydration.go:941-1003 | the terminal after any prefix of the stream is accepted within the budgets, and so is its canceled form |
| HydrationWorkers.StreamTaken | internal/engine/hydration.go:811-923 | every chunk is applied whatever other requests do in between |
| HydrationWorkers.WorkerAgrees | internal/massive/hydration_worker.go:390-422 | after any run that delivers a worker's chunks among any other facts its terminal is applied, and a completed one leaves every chunk and row consumed |
| LifecycleRuns.LiveMeans | internal/engine/time_lifecycle.go:116-279 | over every run live implies the epoch active and acknowledged, the fence reconciled for that same epoch and no generation active |
| LifecycleRuns.StepKeeps | internal/engine/engine.go:866-1149 | every input keeps that invariant, the accepted fence being of no epoch past the live one included, never lowers the live epoch, and moves the watermark only upwards to a supported target |
| LifecycleRuns.WatermarkMovesWithSupport | internal/engine/time_lifecycle.go:37-58 | over every run a step keeps the watermark or moves it up to a target within supportedThrough |
| LifecycleRuns.WatermarkNeverDecreases | internal/engine/evaluator.go:435-439 | the watermark never decreases between any two points of a run |
| LifecycleRuns.FrozenAfterLoss | internal/engine/connection_control.go:332-352 | over any run from the loss of an epoch on, either somewhere in it a complete ingress fence of a later epoch was accepted, or the engine is still unreconciled with the watermark it had |
| LifecycleRuns.ReconciledByFence | internal/engine/hydration.go:1054-1156 | an input that leaves an unreconciled engine reconciled is a complete ingress fence of the live epoch, applied |
| LifecycleRuns.FrozenStep | internal/engine/engine.go:866-1149 | one step of the frozen state: it accepts a fence of a later epoch or keeps the watermark |
| LifecycleRuns.CommitIsTarget | internal/engine/engine.go:1128-1149 | an accepted evaluation commits the target that was evaluated, and after an ingress fence clears attempts and pending recovery |
| LifecycleRuns.TrappedNeverLive | internal/engine/hydration.go:766-778 | an engine in recovery without a boundary never goes live again |
| LifecycleRuns.ResumableCanGoLive | internal/engine/recovery_control.go:136-159 | a recovering engine with a boundary can go live again by an explicit run of inputs inside the session, a timer before the fence included |
| LifecycleRuns.BootstrapFailureTraps | internal/engine/time_lifecycle.go:93-114 | a failure before the first commit reaches that trap, for every session |
| LifecycleRuns.RecoveryDelayMeans | internal/engine/recovery_control.go:30-42 | the delay is the initial one doubled once an attempt, capped at the maximum |
| WatermarkBounds.TargetIsDue | internal/engine/time_lifecycle.go:23-33 | a target is the last whole second the delay behind the clock, kept inside the session, and no other number is |
| WatermarkBounds.BetweenClamps | internal/engine/time_lifecycle.go:23-33 | between the clamps the target is a whole second with the clock less the delay in [target, target + 1 s) |
| WatermarkBounds.BoundaryMeans | internal/engine/hydration.go:780-792 | a hydration reaches to the first whole second at or after the acknowledgement, inside the session |
| WatermarkBounds.TimerTargets | internal/engine/time_lifecycle.go:5-21 | a timer sets the target due at its own time |
| WatermarkBounds.IngressTargets | internal/engine/hydration.go:1054-1156 | an accepted ingress fence supports what was due when it was captured |
| WatermarkBounds.CoverageTargets | internal/engine/live_coverage.go:130-170 | so does an accepted coverage fence |
| WatermarkBounds.NeverAhead | internal/engine/time_lifecycle.go:37-58 | over every run the committed watermark, the support and every target stay at or below the session start or the greatest clock seen less the delay |
| EngineMeaning.LeadsMeans | internal/engine/time_lifecycle.go:116-279 | where each event leads from each lifecycle state, read by the state it meets |
| EngineMeaning.MoveMeans | internal/engine/time_lifecycle.go:225-262 | the reason changes with the state, and inside a suppression with its cause |
| EngineMeaning.ContainMeans | internal/engine/time_lifecycle.go:70-114 | what each cause of suppression leaves: the recovery it allows, whether the engine fails, and the one recovery it schedules |
| EngineMeaning.ScheduleMeans | internal/engine/recovery_control.go:78-105 | one recovery at a time, for the epoch that failed and the next attempt, after doubling seconds up to thirty |
| EngineMeaning.FailIngressMeans | internal/engine/connection_control.go:284-352 | raw loss of ingress recovers by itself only from a committed live watermark with no integrity fault, and is contained otherwise |
| EngineMeaning.LossMeans | internal/engine/connection_control.go:252-283 | what the loss of a connection leaves, by the lifecycle state it meets |
| EngineMeaning.DecideControlMeans | internal/engine/connection_control.go:179-305 | every control fact by its kind: its outcome and what it leaves |
| EngineMeaning.RecordMeans | internal/engine/connection_control.go:160-177 | a control fact that was not refused moves the positions seen of its epoch to the later one |
| EngineMeaning.PlanMeans | internal/engine/hydration.go:640-748 | when a plan is taken, and the generation it opens |
| EngineMeaning.CloseMeans | internal/engine/hydration.go:941-1052 | a request that closes, and the token the last one brings |
| EngineMeaning.IngressFenceMeans | internal/engine/hydration.go:1054-1156 | the outcome of every ingress fence and what it leaves: broken off, waiting for the policy, or live and reconciled through its target |
| EngineMeaning.PolicyMeans | internal/engine/hydration.go:1158-1213 | when a decision is taken, once for a generation, and what each of the four leaves |
| EngineMeaning.IssueCoverageMeans | internal/engine/live_coverage.go:87-100 | when a coverage fence is asked for |
| EngineMeaning.CoverageMeans | internal/engine/live_coverage.go:130-170 | the outcome of every coverage fence, and that a taken one moves the boundary and nothing back |
| EngineMeaning.TimerMeans | internal/engine/time_lifecycle.go:5-21 | a timer moves the state, sets the target, and at the end of the session ends engine and generation |
| EngineMeaning.IssueRecoveryMeans | internal/engine/recovery_control.go:107-119 | when the pending recovery is handed over |
| EngineMeaning.RecoveryMeans | internal/engine/recovery_control.go:136-159 | when a recovery handed over is taken, early or stale, and that it leaves a suppression |
| EngineMeaning.ExhaustionMeans | internal/engine/connection_control.go:307-330 | when recovery is given up, and that this contains the engine |
| EngineMeaning.AggregateMeans | internal/engine/aggregate.go:723-749 | an aggregate moves what was seen of its epoch whatever becomes of it, and a clash contains a streaming engine |
| EngineMeaning.OthersMean | internal/engine/engine.go:866-1149 | a binding, a stop, a fault of ingress and one of the hydration accounting |
| EngineMeaning.EvaluateMeans | internal/engine/engine.go:1120-1149 | what is evaluated, which target is committed, and what an evaluation that does not validate does |
| EngineMeaning.StepMeans | internal/engine/engine.go:866-1149 | an engine that ended or failed does not move, a clock that went back fails it, and any other event is its input and then its evaluation |
| LiveEngines.LiveEngine.Backoff | internal/engine/recovery_control.go:30-42 | the doubling loop computes the recovery delay |
| LiveEngines.LiveEngine.Consume | internal/engine/engine.go:866-1149 | every event, in place, is the step of the model, keeps the invariant of all runs and moves the watermark only up to a supported target; live then means the epoch active, acknowledged and reconciled with no generation active |
| RankingRows.OrderedUnique | internal/engine/evaluator.go:252-254 | rows in ranking order are determined by which rows they are |
| RankingRows.OrderingIgnoresArrival | internal/engine/evaluator.go:252-254 | the full ordering by return descending, then symbol, does not depend on arrival |
| RankingRows.BestAfter | internal/engine/evaluator.go:256-270 | one more row past the bound displaces the last of the best exactly when it precedes it |
| RankingRows.Retain | internal/engine/evaluator.go:256-270 | what is retained is always the best of what was seen |
| RankingRows.SortInPlace | internal/engine/evaluator.go:906-919 | the sort gives the full ordering |
| RankingRows.RankStream | internal/engine/evaluator.go:256-270 | for every stream of distinct symbols, retaining and then sorting gives exactly the first min(20, n) rows of the full ordering, ranked from one |
| RankingMeaning.RankMeans | internal/engine/evaluator.go:252-270 | a row is among the best if and only if fewer than twenty rows are better, by return and then by name, and its rank is one more than how many are |
| RankingMeaning.ReasonsMean | internal/engine/evaluator.go:1115-1128 | which statuses each reason may be given for |
| FieldAccounting.ColumnReconciles | internal/engine/evaluator.go:1130-1168 | counting any column of valid fields yields totals and a status-reason matrix that reconcile over its length |
| FieldAccounting.ReplaceCounts | internal/engine/evaluator.go:868-885 | replacing one counted field gives the counts of the changed column |
| Evaluation.CountSubject | internal/engine/evaluator.go:527-713 | one symbol's turn of the pass, branch by branch, adds exactly its own counts and says whether it is ranked |
| StagedEvaluation.Pass | internal/engine/evaluator.go:511-713 | the single pass gives the tally of the population and the best rows of both streams |
| StagedEvaluation.RowsDistinct | internal/engine/evaluator.go:700-713 | each stream has each symbol at most once |
| StagedEvaluation.RowsCounted | internal/engine/evaluator.go:700-713 | each stream has as many rows as its counter says |
| EvaluationValidates.TallyAdds | internal/engine/evaluator.go:921-1029 | population partition, qualification total, uncertainty total and transition bins add up for every population |
| EvaluationValidates.TallyAgrees | internal/engine/evaluator.go:887-904 | the pass is contradicted exactly when some symbol's own support is |
| EvaluationValidates.TallyCounts | internal/engine/evaluator.go:1179-1198 | without contradiction the field counters are the counts of every symbol's fields |
| EvaluationValidates.RowReplaced | internal/engine/evaluator.go:868-885 | a selected row's recomputed fields replace its counted ones exactly when they are valid |
| EvaluationValidates.EnrichedMeans | internal/engine/evaluator.go:781-866 | enrichment of the selected rows succeeds exactly when every recomputed field is valid, and then counters and rows agree |
| EvaluationValidates.EnrichedReconciles | internal/engine/evaluator.go:1130-1168 | every field still reconciles over the population after enrichment |
| EvaluationAccepted.StagedSupport | internal/engine/evaluator.go:887-904 | a staged result is marked invalid exactly when its support contradicted itself |
| EvaluationAccepted.StagedValidates | internal/engine/evaluator.go:921-1029 | for every population of distinct named symbols a staged evaluation passes the engine's own validation if and only if its support did not contradict itself |
| EvaluationAccepted.Enrich | internal/engine/evaluator.go:781-866 | the loop over the selected rows, updating rows and counters in place |
| EvaluationAccepted.Stage | internal/engine/evaluator.go:511-749 | the staged evaluation computed as the engine does, and when it validates |
| EvaluationMeaning.GapEscapes | internal/engine/evaluator.go:462-486 | only a bootstrap gap is made up for, and if and only if the mark is live, in the session and over by the target, exactly covered from its start to the target, with no conflict and no invalid evidence since |
| EvaluationMeaning.TransitionMeans | internal/engine/evaluator.go:462-486 | each reason why a bootstrap gap is not made up for, by the readings of the symbol |
| EvaluationMeaning.ClassMeans | internal/engine/evaluator.go:527-713 | the one bucket of every symbol, by its readings |
| EvaluationMeaning.DoubtMeans | internal/engine/evaluator.go:527-713 | when a symbol is uncertain, and of which origin |
| EvaluationMeaning.ReturnMeans | internal/engine/evaluator.go:527-713 | the return is the mark close against the prior close, or says why there is none |
| EvaluationMeaning.FieldsMean | internal/engine/evaluator.go:1239-1244 | what a symbol with an unknown history may still say in each field |
| EvaluationMeaning.RowMeans | internal/engine/evaluator.go:697-714 | a row says who, at what price, with which return, how old the mark is and which fields; and who has one |
| EvaluationMeaning.EveryCounterCounts | internal/engine/evaluator.go:527-713 | over any population every counter counts exactly the symbols of its kind |
| EvaluationMeaning.FlagsMean | internal/engine/evaluator.go:527-713 | the two flags of the pass say that no rankable symbol lacks a qualification and that every doubt is of the bootstrap |
| EvaluationMeaning.ModeMeans | internal/engine/evaluator.go:716-743 | the mode, its reason and what it shows, told over the population: qualified rows only when no symbol is uncertain |
| EvaluationMeaning.SelectedMeans | internal/engine/evaluator.go:719-748 | a candidate shows if and only if fewer than twenty candidates are better, at the rank that says how many |
| EvaluationMeaning.StillThereMeans | internal/engine/evaluator.go:796-812 | a selected row is enriched only while it says of its symbol what a row made now would |
| EvaluationMeaning.EnrichRowMeans | internal/engine/evaluator.go:796-866 | one enrichment replaces the fields of one row and the counters with them, or ends with the row as it was |
| EvaluationMeaning.FieldsReplaced | internal/engine/evaluator.go:838-866 | the fields are replaced up to the first that cannot be |
| EvaluationMeaning.NotStagedMeans | internal/engine/evaluator.go:511-527 | nothing is staged before the engine is ready or while it is suppressed |
| EvaluationMeaning.StagedMeans | internal/engine/evaluator.go:716-749 | a staged result: mode, rows, covered and unresolved adding up to the population, and exactly when its support is invalid |
| TQWire.Conservation | internal/engine/tq.go:448-1231 | over every run issued is pending plus written plus failed plus fenced, consumed is the six outcomes, and member and global charges equal what is actually held |
| TQWire.WireStaysBounded | internal/engine/tq.go:448-602 | over every run at most twenty symbols are requested on the wire, additions in flight included, and present or unknown implies requested |
| TQWire.RemovalsAlwaysFit | internal/engine/tq.go:448-602 | over every run the symbols owed a removal are at most twenty |
| TQWire.RunHolds | internal/engine/tq.go:448-1231 | balance, counts, wire bound and commands within the population together over every run |
| TQWire.StepKeeps | internal/engine/tq.go:448-1231 | every step keeps the four together |
| TQWire.StepWithin | internal/engine/tq.go:737-756 | a pending command names symbols of the population only |
| TQWire.WriteReaches | internal/engine/tq.go:868-910 | writing a command puts each of its symbols on the wire or takes it off, according to its action |
| TQWire.WrittenTakesEffect | internal/engine/tq.go:828-910 | so does the successful result of the pending command of any run, whatever its symbols |
| TQWire.StepBalanced | internal/engine/tq.go:691-735 | every step keeps each member's charge and the four totals equal to what is held |
| TQWire.StepCounted | internal/engine/tq.go:828-910 | every step keeps commands and facts conserved |
| TQWire.StepBounded | internal/engine/tq.go:737-756 | every step keeps the wire bound and the soundness of the membership flags |
| TradeQuoteStates.TradeQuoteState.CollectOwed | internal/engine/tq.go:540-602 | the pass over the members, in any order, collects exactly the symbols owed a removal |
| TradeQuoteStates.TradeQuoteState.PastCoverage | internal/engine/tq.go:1037-1056 | the running greatest over the members decides whether a loss lies past every open coverage of its channel |
| TradeQuoteStates.TradeQuoteState.Handle | internal/engine/tq.go:448-1231 | every event in place is the step of the model and keeps charges, counts and the wire bound: at most twenty symbols on the wire or on their way, each member charged for what it holds |
| TQMeaning.PruneMeans | internal/engine/tq.go:702-735 | a pruning forgets the trades more than thirty seconds behind the clock or five behind the target and the identities older than thirty seconds, of every symbol, and moves nothing else |
| TQMeaning.AdmitsMeans | internal/engine/tq.go:1087-1092 | when a fact is heard: wanted, on the wire, of the epoch, past the request, and past what an open channel gave |
| TQMeaning.TradeMeans | internal/engine/tq.go:1079-1150 | the one outcome of every trade and what it leaves: an equal repeat nothing but its position, an unequal one the mark of the contradiction, another one itself, and one over a bound a closed symbol or the closing of all |
| TQMeaning.QuoteMeans | internal/engine/tq.go:1175-1231 | the one outcome of every quote and what it leaves |
| TQMeaning.DropMeans | internal/engine/tq.go:972-1077 | the one outcome of every drop: whom it closes, and when it is stale |
| TQMeaning.ContainMeans | internal/engine/tq.go:771-826 | a global bound stops the additions, withdraws an undispatched one and closes every symbol |
| TQCommandsMeaning.ResultMeans | internal/engine/tq.go:828-910 | what the result of a command makes of every symbol, one by one, and when it is stale |
| TQCommandsMeaning.WriteEachMeans | internal/engine/tq.go:868-910 | the pass over the written symbols makes of each what a written addition or removal makes of it alone |
| TQCommandsMeaning.ControlErrorMeans | internal/engine/tq.go:912-956 | when an error of the control channel is stale, and what another makes of every symbol |
| TQCommandsMeaning.ModeMeans | internal/engine/tq_pressure.go:300-344 | which changes of mode are taken, and what each leaves |
| TQCommandsMeaning.HandOverMeans | internal/engine/tq.go:760-769 | a command is handed over once, and an addition not while contained |
| TQCommandsMeaning.RenewedMeans | internal/engine/tq.go:456-510 | what a reconciliation starts from: another epoch with nothing of the old one, tokens past every write, and the wishes of its cadence |
| TQCommandsMeaning.TidiedMeans | internal/engine/tq.go:511-545 | what it makes of a symbol before any command: what a pruning keeps, closed when it is wanted no more |
| TQCommandsMeaning.MissingMeans | internal/engine/tq.go:565-589 | the additions are as many of the symbols open to one as there is room for, best ranked first |
| TQCommandsMeaning.ReconcileMeans | internal/engine/tq.go:546-602 | which command a reconciliation issues, if any: removals of exactly what is owed one, or else the additions |
| TQRepeats.RepeatLeaves | internal/engine/tq.go:1114-1124 | an equal repeat changes nothing held and no mark and counts one duplicate; an unequal one marks the symbol and counts one rejection |
| TQRepeats.StepMarks | internal/engine/tq.go:448-1231 | every step keeps a mark, sets it by a contradiction alone, and clears it only where the symbol starts again |
| TQRepeats.MarkedMeans | internal/engine/tq.go:1116-1123 | over every run a symbol is marked if and only if, since it last started again, a trade contradicted what it remembered |
| TQRepeats.RememberedMeans | internal/engine/tq.go:1140-1146 | over every run what a symbol remembers under an identity, one of its trades said since it last started again |
| TQRepeats.MarkedByTwo | internal/engine/tq.go:1116-1123 | over every run a symbol is marked only if two of its trades since then had one identity and unequal values |

## Left out

- JSON decoding, REST paging, retries, URLs, the WebSocket transport, HTTP, operator text and publication cloning: normalized facts are inputs.
- Binding construction, identities, timezones and the condition fixture: one fixed valid binding; its symbols are numbers in name order.
- Floating point: reals, with validity of values as an input; the order of additions and non-finite sums are not modelled.
- Counter exhaustion and wraparound: counters are unbounded.
- Mutexes, channels and contexts: each locked operation is one atomic step, and a wait is a repeated attempt.
- Bitmap words: each word is the set of its bit positions, and a bitmap not allocated yet is an empty one.
- A record's `first` evidence and delivery time: they depend on arrival order and are not part of the merged value.
- The sparse fallback of the feature queries when the point list and the tail map differ in length: the two are kept equal here.
- Historical withdrawal of already folded bars in the as-of and selection-mark results: the raw evidence is gone by design; it appears through the conflict bit and the uncertain flags only.
- The 30-second activity and move formulas, percent changes, range positions and field trust: given readings of a symbol in the evaluation.
- HydrationLedgers.ChunkSound: row dispositions inside a chunk are not counted, because they come from the per-bar decision modelled in `AggregateStore`; the coverage flag they set is computed in `FreshHydrations`.
- HydrationWorkers.WorkerAgrees: room in the response-byte budget is a premise; the byte counter the workers share is not modelled.
- The lifecycle engine's own hydration generation: reduced to counts of its requests, because `HydrationLedgers` has its entries.
- `SelectionMarks` is a state of its own: that the decisions of `AggregateStore` drive it in step is not stated, as it is for `SessionFeatures`.
- HydrationScans.ScanRequest: the request's own rows are the only bars that arrive while it is scanned, so live bars between its chunks, and rows for seconds whose live bar was folded before, are not modelled.
- LiveFrameQueues.LiveFrameQueue.TryEnqueueTerminal: the early return of a second terminal is outside the protocol, which asks for one.
- LiveFrameQueues.LiveFrameQueue.FenceQueuedAndEnqueueTerminal: likewise.
- SelectionMarks.SelectionMarks.LatestMarkBefore: at a boundary that is neither cached nor past the latest bar only soundness is stated, because the compact state does not hold the exact mark there.
- Qualifications.Qualification.EvaluateThrough: after ordinary bars, which mark proofs but re-test no failed window, soundness is stated and not exactness, because the code does not search those windows again.
- EvaluationAccepted.StagedValidates: which category a failing validation reports first is not modelled.
- Pressure sampling and its streaks, the tape and spread views, and the start of trade and quote coverage reporting.
- Timing diagnostics, incident latches and evidence rings: observational only.
