# spendguard: a verified model of its algorithms and protocols

The modules below model the self-contained algorithms and protocols of spendguard in Dafny and prove what
they promise. Code that works step by step is modelled as methods with loops, and as classes where it
updates objects in place; each such method is proved against a specification. Protocols with crashes or
concurrency are modelled as transition systems, or as methods whose environment (replies, failures, where a
write is cut off) is an arbitrary input, so that the results hold for every run.

`dafny verify dfyconfig.toml` checks everything.

| file | models |
|---|---|
| `ImportCycles.dfy`, `CycleReports.dfy`, `Graph.dfy` | the depth-first search for import cycles, its report, and the directed graphs it is about |
| `CycleGate.dfy` | the ratchet over imports on cycles |
| `ComplexityRatchet.dfy` | the per-file complexity check and the regeneration of its baseline |
| `ConcurrencySweep.dfy`, `WeightedQuantile.dfy`, `DemandSources.dfy` | the concurrency sweep, its quantiles, and its two sources (journal and call ledger) |
| `LedgerReclaim.dfy`, `ReclaimGuarantees.dfy` | the offline replacement of the ledger as a protocol with crashes and other clients, and what it guarantees over every run |
| `BudgetReservation.dfy`, `BudgetGuarantees.dfy` | reserve and settle under one lock, and what it guarantees under all interleavings |
| `ResumeMatrix.dfy`, `ResumeGuarantees.dfy`, `AppendFile.dfy` | the resumable paid matrix, what it guarantees over sequences of runs, and append-only files with torn writes |
| `PanelReview.dfy`, `PanelPasses.dfy`, `PanelGuarantees.dfy` | the resumable panel review (waves under a budget, findings, marks, verdicts) proved equal to a specification wherever a launch ends, and what it guarantees to findings over any launches |
| `PanelBudget.dfy`, `PanelCeiling.dfy`, `PanelVerdicts.dfy` | what the review guarantees to its budget, and to its verdicts over any launches and in any order of filing |
| `Anomaly.dfy` | the robust anomaly rule |
| `Ranking.dfy` | evidence, apportioning, floor, sort and pick of the advisor |
| `Packing.dfy`, `Reconstruction.dfy` | greedy packing, and the reconstruction's totals and publication |
| `CatalogStamp.dfy` | dating catalog rows from history |
| `GateSettings.dfy` | installing and removing the spawn gate's hook |
| `CallChain.dfy` | the breadth-first call-chain report |
| `Ordering.dfy`, `Sums.dfy`, `Reals.dfy`, `Options.dfy` | orders and stable sorting, sums over maps, real numbers, optional values |

Timestamps and dollars are real numbers. Provider calls, prices, catalog contents, file scans and clocks are
arbitrary inputs.

## Where the code and its description differ

The model follows the code. The lemmas named give the exact condition and, where it fails, a concrete case.

- `estimator_calibration_run.py:252-257` says the residual overrun is one call at the worst observed rate.
  That holds of every run exactly when the gates admit one call at a time (`ResidualIsOneCallIff`); in general
  it is the excess of all calls in flight (`OverrunIsExcess`).
- `reasoning_stress_matrix.py:142-154` says each paid result survives a later crash and a rerun never
  re-pays. An append is readable exactly when the file ended in a newline (`AppendKeepsIff`,
  `AppendSettlesIff`); after a torn write the next row is lost and paid again (`TornLineRepays`).
- `reasoning_stress_matrix.py:180` says only successful prior rows are seeded. Earlier failed rows of a unit
  that later succeeded are seeded too (`SeedsSuccessfulIff`, `FailedSeedIff`, `FailedRowSeeded`), and the verdict at
  `reasoning_stress_matrix.py:257-259` counts them as rejections.
- `panel_review.py:40-41` and `panel_review.py:185` say a resume loses nothing. Every finding of a finished
  unit is indeed written (`NothingLost`), but RAW is read only up to the first line that does not parse: what a
  launch found is read back exactly when RAW was clean before it (`ReadIffClean`, `TornLineHidesFindings`).
- `panel_review.py:37` calls the units on DONE reviewed. A call that the budget gate refuses, or that comes back
  without a readable answer of any vendor, finishes its unit without findings, and a refused clustering call
  finishes the seam pass without clusters (`FinishedUnreviewedIff`, `FilePassUnreviewedIff`,
  `UnheardPassFinishes`); none of them, once its mark ends in a newline, is ever taken up again (`FinishedForever`).
- `panel_review.py:230` says a resume finishes the remaining clusters of a seam pass that the budget stopped. It
  asks for a new clustering and starts from its first cluster, with `spent` at zero: with the same clusters and
  bills it is stopped every time (`SeamFinishesIff`, `SeamNeverFinishes`).
- `panel_review.py:332-337` unlinks RAW before DONE and swallows errors: ending in between loses the findings of
  finished units (`FreshLosesIff`).
- `panel_review.py:326` calls the budget a hard ceiling. It bounds estimates: the calls of the last batch may
  bill more (`OverrunIsOneBatch`; `CeilingIff` for every phase). It is one launch's, since `spent` starts at zero each time; the
  cost of the clustering call is never added to it (`panel_review.py:203-210`), and the judge's bills
  (`panel_review.py:299`) come after every check. Both are outside these results.
- `panel_review.py:275-277` and `panel_review.py:305` say each verdict is persisted and never asked for again.
  VERIFIED too is read only up to the first line that does not parse: a filed verdict settles its key exactly
  when the file was clean before, and otherwise every later verification asks again (`SettledIffClean`,
  `VerdictsFiledIff`, `TornVerdictAskedAgain`).
- `panel_review.py:276-278` says refuted findings are dropped. With a torn verdict file, or with two findings of
  one key whose answers differ or whose last answer is unusable, the report and the file can disagree, depending
  on which worker finishes first (`ReportAgreesIff`, `DistinctKeysAgreeIff`, `OvertakenVerdict`,
  `SharedKeyReportsRefuted`).
- `ledger_reclaim.py:266-268` restores the permissions on refusal, but not after a crash
  (`CrashLeavesReadOnlyIff`, `CrashCanLeaveReadOnly`); a step that fails after the install, a sync or the work
  on the new ledger, is reported as a refusal of an installed copy (`RefusedInstalledIff`).
- `advise.py:140-145`: a model's bill is apportioned over its effort arms only when its output tokens are
  known and not zero; otherwise each arm carries all of it (`BillConservedIff`). By dollars per output token
  the effort arms of a model with known tokens always tie (`EffortArmsTie`).
- `stamp_catalog_as_of.py:49-51` has a branch for a row of the newest revision without a semantic history; it
  is never taken (`Derive`). An empty date gets a proposal that the write leaves out
  (`EmptyDateStaysEmpty`).
- `architectural_fitness.py:162-165` records what regressed the baseline loaded beforehand, in the file as it
  is when written; the gate then passes exactly under the condition of `RegeneratedPassesIff`.

## Model

| member | source | states |
|---|---|---|
| `CycleReports.FindImportCycles` | src/spendguard/architectural_fitness.py:66-98 | for every finite import graph whose targets are modules, the recursive search ends and returns exactly the strong components with two or more members or a self-import, each once, as sorted lists in sorted order |
| `ImportCycles.CycleSearch.Visit` | src/spendguard/architectural_fitness.py:74-93 | one recursive visit keeps the search invariant: whatever it reaches is numbered, every complete component is settled and reported, and its low link is the number of an open module it reaches, or its own when its component is complete |
| `ImportCycles.CycleSearch.Import` | src/spendguard/architectural_fitness.py:78-83 | one import: the low link bounds the numbers of all imports handled so far, whether the target was new, open or already settled |
| `ImportCycles.CycleSearch.Open` | src/spendguard/architectural_fitness.py:75-77 | numbering and stacking a new module starts a visit in the invariant |
| `ImportCycles.CycleSearch.Settle` | src/spendguard/architectural_fitness.py:84-93 | when the low link is the own number, popping leaves exactly the stack from before the visit, and the invariant |
| `ImportCycles.CycleSearch.PopComponent` | src/spendguard/architectural_fitness.py:85-91 | the popped list is the stack above the base, without repetition, and what stays active is what stays on the stack |
| `ImportCycles.SegmentIsComponent` | src/spendguard/architectural_fitness.py:84-91 | when the low link is the own number, the stack above the visited module is its whole strong component and nothing else |
| `ImportCycles.NoEscape` | src/spendguard/architectural_fitness.py:82-84 | in that case no walk that returns to the stack leaves the segment |
| `CycleReports.ReportIsUnique` | src/spendguard/architectural_fitness.py:95-98 | there is only one such report, so no visiting order can change the result |
| `CycleReports.ReportIsDisjoint` | src/spendguard/architectural_fitness.py:92-98 | no module is in two reported components |
| `CycleReports.EmptyIffAcyclic` | src/spendguard/architectural_fitness.py:92-98 | the report is empty exactly when the graph has no directed cycle |
| `CycleReports.InsideIffOnCycle` | src/spendguard/architectural_fitness.py:229-232 | an import has both ends in one reported component exactly when it lies on a directed cycle |
| `CycleGate.CyclicEdgesExact` | src/spendguard/architectural_fitness.py:229-232 | the gate's cyclic edges are exactly the imports on some directed cycle |
| `CycleGate.CyclesCheck` | src/spendguard/architectural_fitness.py:227-235 | the violations are, in order, exactly the imports on cycles that are not recorded |
| `CycleGate.PassingIsAcyclic` | src/spendguard/architectural_fitness.py:233-234 | when the gate passes, the package without the recorded imports is acyclic |
| `CycleGate.AcyclicIsNotPassing` | src/spendguard/architectural_fitness.py:233-234 | the converse fails: a recorded set that breaks every cycle can still leave violations |
| `CycleGate.NewEdgeReach` | src/spendguard/architectural_fitness.py:229-234 | an import added where the target cannot reach its owner puts no import on a cycle |
| `CycleGate.AcyclicGrowthPasses` | src/spendguard/architectural_fitness.py:229-234 | adding an import that closes no cycle changes no verdict of the gate |
| `ComplexityRatchet.Violations` | src/spendguard/architectural_fitness.py:141-145 | the entries found are exactly the measured files that are absent from, or worse than, the recorded metrics; none exactly when the check passes |
| `ComplexityRatchet.PassesIff` | src/spendguard/architectural_fitness.py:126-132 | the check passes exactly when each measured file is recorded with at least its complexity and at most its maintainability index |
| `ComplexityRatchet.JustifiedIff` | src/spendguard/architectural_fitness.py:147-148 | a justification is text with more than white space in it |
| `ComplexityRatchet.ReviewKeyIff` | src/spendguard/architectural_fitness.py:149-154 | a review key is the prefix and something more |
| `ComplexityRatchet.UpdateAll` | src/spendguard/architectural_fitness.py:165 | the dictionary update: every name looks up its update if it has one and its old entry otherwise, names keep their places and new ones go last |
| `ComplexityRatchet.Merge` | src/spendguard/architectural_fitness.py:164-167 | after the edit each name has its update or its old entry, and the names are in order exactly if they were before; otherwise they keep their places |
| `ComplexityRatchet.SortKeepsDictionary` | src/spendguard/architectural_fitness.py:166-167 | sorting the items changes the order of the dictionary and none of its entries |
| `ComplexityRatchet.Extremes` | src/spendguard/architectural_fitness.py:168-171 | the recorded extremes are reached by some entry and bound all of them |
| `ComplexityRatchet.Baseline.Record` | src/spendguard/architectural_fitness.py:162-173 | the edit of the stored baseline: exactly the updates are recorded, the extremes are true for all entries, and the justification is stored under its key |
| `ComplexityRatchet.Baseline.Regenerate` | src/spendguard/architectural_fitness.py:135-188 | each refusal happens exactly in its case and changes nothing; otherwise exactly the regressed files are re-recorded and named in order |
| `ComplexityRatchet.ViolationsAreRecordings` | src/spendguard/architectural_fitness.py:141-145 | a name is among the updates exactly when its measurement regresses the loaded baseline, with that measurement |
| `ComplexityRatchet.RegeneratedPasses` | src/spendguard/architectural_fitness.py:266-275 | after regeneration the same measurements pass the gate, so a second regeneration records nothing |
| `ComplexityRatchet.RegeneratedPassesIff` | src/spendguard/architectural_fitness.py:162-165 | if the file changed between loading and writing they pass exactly when the file still accepts every measurement that was not recorded |
| `ComplexityRatchet.OnlyRegressionsMove` | src/spendguard/architectural_fitness.py:126-145 | an entry changes only where the measurement regresses it, and then to the measurement |
| `WeightedQuantile.Quantile` | scripts/probe/measure_codex_delegation_concurrency_demand.py:20-29 | the result is the least level whose cumulative weight reaches the percentage; None exactly for zero weight or a target beyond the whole weight |
| `WeightedQuantile.QuantileUnique` | scripts/probe/measure_codex_delegation_concurrency_demand.py:23-28 | a histogram has one quantile at a percentage |
| `WeightedQuantile.TargetIs` | scripts/probe/measure_codex_delegation_concurrency_demand.py:23-24 | the target is the percentage of the whole weight |
| `WeightedQuantile.QuantileMonotone` | scripts/probe/measure_codex_delegation_concurrency_demand.py:23-28 | a higher percentage is reached no earlier |
| `WeightedQuantile.ActiveQuantileNotBelow` | scripts/probe/measure_codex_delegation_concurrency_demand.py:67-74 | a quantile of the active time alone is never below the quantile of the whole window |
| `ConcurrencySweep.IntervalSummary` | scripts/probe/measure_codex_delegation_concurrency_demand.py:39-79 | the errors happen exactly in their cases; otherwise the timeline tiles the window, each segment's concurrency is the number of intervals covering every instant in it, the histogram's seconds sum to the window and its level-seconds to the total overlap, the maximum is reached and never exceeded, the saturation is a share that is positive exactly when the maximum reaches the pool, and the quantiles are those of the histogram |
| `ConcurrencySweep.CollectEvents` | scripts/probe/measure_codex_delegation_concurrency_demand.py:43-52 | the event counter holds, for each instant, the starts minus the ends of the clipped intervals; refused exactly for an interval that ends before it starts |
| `ConcurrencySweep.Sweep` | scripts/probe/measure_codex_delegation_concurrency_demand.py:53-66 | the sweep over those events yields a faithful tiling of the window and its histogram |
| `ConcurrencySweep.ClippingKeepsCover` | scripts/probe/measure_codex_delegation_concurrency_demand.py:48-49 | clipping to the window changes no count inside it |
| `ConcurrencySweep.ClippingKeepsOverlap` | scripts/probe/measure_codex_delegation_concurrency_demand.py:48-49 | clipping changes no length inside the window |
| `ConcurrencySweep.EventStep` | scripts/probe/measure_codex_delegation_concurrency_demand.py:56-62 | at an event the count moves from its left limit to its value by the event's delta |
| `ConcurrencySweep.QuietOverlap` | scripts/probe/measure_codex_delegation_concurrency_demand.py:57-58 | over a stretch without events the overlap grows by the count times the length |
| `ConcurrencySweep.FaithfulToAll` | scripts/probe/measure_codex_delegation_concurrency_demand.py:45-52 | a timeline true of the clipped intervals is true of the intervals as given |
| `ConcurrencySweep.PeakOfHistogram` | scripts/probe/measure_codex_delegation_concurrency_demand.py:75 | the largest level of the histogram is the true maximum over the window |
| `ConcurrencySweep.Saturation` | scripts/probe/measure_codex_delegation_concurrency_demand.py:77-78 | the fraction is the share of the window at or above the pool size, in [0, 1], positive exactly when the maximum reaches the pool |
| `ConcurrencySweep.QuantilesOrdered` | scripts/probe/measure_codex_delegation_concurrency_demand.py:71-74 | of each pair p50 is at most p95 and both at most the maximum, and the active ones are not below the whole ones |
| `DemandSources.ReadPairs` | scripts/probe/measure_codex_delegation_concurrency_demand.py:88-112 | lines are paired by execution, the last of each kind counting; every unusable and every repeated line is counted as a gap; the capture start is the earliest mark |
| `DemandSources.StartIs` | scripts/probe/measure_codex_delegation_concurrency_demand.py:102-106 | an execution's start is that of its last start line, if it has one |
| `DemandSources.RepeatedIs` | scripts/probe/measure_codex_delegation_concurrency_demand.py:104-105 | the repeated lines are exactly those with an earlier line of the same kind for the same execution |
| `DemandSources.CaptureStartIsEarliest` | scripts/probe/measure_codex_delegation_concurrency_demand.py:126 | the capture start is one of the marks and none is earlier |
| `DemandSources.ReadJournal` | scripts/probe/measure_codex_delegation_concurrency_demand.py:82-138 | each gap, a missing journal included, counts exactly its executions or lines; the summary is true of the counted intervals; a bad window or pool size is refused exactly when there is a summary to make; the verdict compares the true peak with the pool exactly when there is no gap |
| `DemandSources.NoGapsIff` | scripts/probe/measure_codex_delegation_concurrency_demand.py:109-132 | the window counts as complete exactly if there is a journal, each of its lines can be used and none repeats another, every execution was counted or lies outside the window, and the capture began by its start |
| `DemandSources.CountedIsRunning` | scripts/probe/measure_codex_delegation_concurrency_demand.py:114-125 | at every instant of the window the counted intervals carry exactly the executions whose journaled start and end enclose it |
| `DemandSources.FatesAddUp` | scripts/probe/measure_codex_delegation_concurrency_demand.py:114-125 | each execution has exactly one fate: counted, one of three gaps, or outside the window |
| `DemandSources.FateIs` | scripts/probe/measure_codex_delegation_concurrency_demand.py:114-125 | which fate an execution has, by its two times and the window |
| `DemandSources.HowManyIs` | scripts/probe/measure_codex_delegation_concurrency_demand.py:114-125 | each count is the number of executions with that fate |
| `DemandSources.CollectLedger` | scripts/probe/measure_codex_delegation_concurrency_demand.py:177-203 | the ledger's events are those of the usable rows' reconstructed intervals, clipped to the window |
| `DemandSources.SweepAll` | scripts/probe/measure_codex_delegation_concurrency_demand.py:204-214 | the second sweep, which books empty steps too, gives the histogram of a faithful tiling except for a level without time |
| `DemandSources.LedgerSweep` | scripts/probe/measure_codex_delegation_concurrency_demand.py:172-215 | its histogram is, up to levels without time, that of a faithful tiling of the window for the reconstructed intervals, and its peak is the true maximum |
| `DemandSources.PeakIsUnique` | scripts/probe/measure_codex_delegation_concurrency_demand.py:75 | both sweeps report the same peak on the same intervals |
| `DemandSources.SameQuantile` | scripts/probe/measure_codex_delegation_concurrency_demand.py:204-215 | a level without time moves no quantile above percentage zero |
| `LedgerReclaim.StepInv` | scripts/ops/ledger_reclaim.py:186-268 | every step of the reclaim, of its failures, of a crash and of other clients keeps the protocol's invariant |
| `ReclaimGuarantees.RunInv` | scripts/ops/ledger_reclaim.py:186-268 | so every reachable state satisfies it |
| `ReclaimGuarantees.OriginalSurvives` | scripts/ops/ledger_reclaim.py:206-268 | at every reachable state the original ledger is at exactly one of the source and the backup path; at the backup path its content is the sealed one and no client can change it |
| `ReclaimGuarantees.NothingOverwritten` | scripts/ops/ledger_reclaim.py:66-90 | no step overwrites a named file: a rename only moves its file to a free path |
| `ReclaimGuarantees.EveryFileKept` | scripts/ops/ledger_reclaim.py:66-90 | over any run every file that had a name still has one |
| `ReclaimGuarantees.OnlyVerifiedAppears` | scripts/ops/ledger_reclaim.py:219-259 | what newly appears at the source is a client's own file on a free path, or the copy after integrity, row counts and vacuum mode were checked, with the original's permissions |
| `ReclaimGuarantees.VerifiedIff` | scripts/ops/ledger_reclaim.py:225-233 | the copy passes its check exactly if it is sound, has the sealed row count of every table, and the vacuum mode if one was asked for; otherwise the run is refused with nothing moved |
| `ReclaimGuarantees.InstalledIsWhole` | scripts/ops/ledger_reclaim.py:197-259 | over every run, whatever was installed is a sound copy of a sound ledger with as many rows in every table and the vacuum mode that was asked for |
| `ReclaimGuarantees.SuccessMeans` | scripts/ops/ledger_reclaim.py:254-261 | a successful run has the verified copy at the source and the sealed original at the backup path |
| `ReclaimGuarantees.RefusalRestores` | scripts/ops/ledger_reclaim.py:262-268 | a refused run leaves the original at the source with its permissions, or kept at the backup path |
| `ReclaimGuarantees.CrashLeavesReadOnlyIff` | scripts/ops/ledger_reclaim.py:245-268 | a crash leaves the ledger read-only in place exactly when it strikes between the freeze and the move and there was a write permission to withdraw |
| `ReclaimGuarantees.CrashCanLeaveReadOnly` | scripts/ops/ledger_reclaim.py:247-268 | such a crash is reachable |
| `ReclaimGuarantees.GapClientKeepsFile` | scripts/ops/ledger_reclaim.py:254-265 | a client that creates the source between the two renames keeps its file, and the install is refused with the original at the backup path |
| `ReclaimGuarantees.DryRunChangesNothing` | scripts/ops/ledger_reclaim.py:179-180 | without execute no step of the reclaim changes any file, name or permission |
| `ReclaimGuarantees.FailureStops` | scripts/ops/ledger_reclaim.py:189-268 | a failing step ends the run at once up to the freeze and after the install, and leads to the recovery in between; a client found by the final scan, a taken name and a missing file fail their steps |
| `ReclaimGuarantees.SuccessAdvances` | scripts/ops/ledger_reclaim.py:189-276 | the stage each step starts from and the one it leads to, so the steps can only come in this order |
| `ReclaimGuarantees.FinishEnds` | scripts/ops/ledger_reclaim.py:179-180 | the end of a dry run, of the recovery and of the installation |
| `ReclaimGuarantees.ClientsMay` | scripts/ops/ledger_reclaim.py:241-253 | what other clients may do at any moment: open a ledger with some write permission, write through a handle unless the file is locked, create the source when its name is free |
| `ReclaimGuarantees.RefusedInstalledIff` | scripts/ops/ledger_reclaim.py:258-296 | a refused run has the copy installed exactly when a step failed after the install: a sync of it, or the work on the new ledger |
| `ReclaimGuarantees.RefusedAfterInstall` | scripts/ops/ledger_reclaim.py:258-296 | both kinds of such runs exist |
| `BudgetReservation.SharedBudget.Reserve` | scripts/probe/estimator_calibration_run.py:251-262 | under the lock: the call is admitted exactly when the run is not stopped and the reservation fits, it then reserves the larger of prediction and worst cost, and a refusal stops the run |
| `BudgetReservation.SharedBudget.Settle` | scripts/probe/estimator_calibration_run.py:266-268 | under the lock: the reservation is exchanged for the billed cost and the worst cost is raised |
| `BudgetReservation.StepAccounted` | scripts/probe/estimator_calibration_run.py:250-268 | every interleaved step keeps: spent is what was billed plus the open reservations plus what failed calls left reserved |
| `BudgetReservation.StepBounded` | scripts/probe/estimator_calibration_run.py:250-268 | every step keeps the overrun below the excess of the calls in flight at the last reservation |
| `BudgetReservation.StepFloored` | scripts/probe/estimator_calibration_run.py:258-268 | every step keeps each recorded excess at or below the worst billed cost, and the worst cost and open reservations non-negative |
| `BudgetReservation.StepGated` | scripts/probe/estimator_calibration_run.py:313-322 | every step keeps at most the allowed number of cells per vendor |
| `BudgetReservation.GatesBound` | scripts/probe/estimator_calibration_run.py:313-322 | so at most per-vendor times vendors cells are in flight |
| `BudgetGuarantees.RunInv` | scripts/probe/estimator_calibration_run.py:220-268 | over every interleaving all of these hold |
| `BudgetGuarantees.OverrunIsExcess` | scripts/probe/estimator_calibration_run.py:250-268 | the overrun is at most the summed excess over their reservations of the calls in flight at the last reservation, and those are at most per-vendor times vendors |
| `BudgetGuarantees.HonestRunsStayInBudget` | scripts/probe/realprompt_replay.py:189-202 | when no call bills over its reservation the budget holds under every interleaving |
| `BudgetGuarantees.HonestIff` | scripts/probe/estimator_calibration_run.py:264-268 | a run is honest as long as every settled call cost at most what it had reserved |
| `BudgetGuarantees.OverrunPerSlot` | scripts/probe/estimator_calibration_run.py:252-257 | in any case the overrun is at most one worst call per gate slot |
| `BudgetGuarantees.ResidualIsOneCallIff` | scripts/probe/estimator_calibration_run.py:252-257 | "the residual is one call at the worst observed rate" holds of every run exactly when the gates admit one call at a time |
| `BudgetGuarantees.OneCallResidual` | scripts/probe/estimator_calibration_run.py:252-257 | in a run with at most one call in flight the residual is at most one call at the worst observed cost |
| `BudgetGuarantees.ResidualBeyondOneCall` | scripts/probe/estimator_calibration_run.py:252-257 | for any budget and any gates that admit two calls there is a run whose residual is more |
| `BudgetGuarantees.NoReservationAfterStop` | scripts/probe/estimator_calibration_run.py:259-261 | once stopped, no later call is admitted |
| `BudgetGuarantees.AdmittedFits` | scripts/probe/realprompt_replay.py:190-195 | an admitted call reserves at least the prediction and the worst cost, and fits the budget with everything settled and open |
| `BudgetGuarantees.AdmittedIff` | scripts/probe/estimator_calibration_run.py:258-263 | a call is admitted exactly if the run is not stopped and the larger of its prediction and the worst cost fits; it then reserves that, and a refusal stops the run and reserves nothing |
| `BudgetGuarantees.WorstIsObserved` | scripts/probe/estimator_calibration_run.py:264-268 | over every run the worst cost is the largest actual cost of a settled call, or zero before there is one |
| `Packing.PackByChars` | scripts/reconstruct/realtime_find_batch.py:36-51 | the groups concatenate to the items, each is non-empty and within both bounds or a single item, no next item would have fitted, and no order-preserving admissible partition has fewer groups |
| `Packing.FullIsFewest` | scripts/reconstruct/realtime_find_batch.py:36-51 | any packing in which no group could take the next item is a fewest-groups packing, also against packings of more items |
| `Packing.PartAdmissible` | scripts/reconstruct/realtime_find_batch.py:44 | every non-empty stretch of an admissible group is admissible |
| `Reconstruction.CachePayload` | scripts/reconstruct/realtime_find_batch.py:249-300 | refused exactly for an unusable truth row; otherwise the total is the provider-months' reconstructed dollars plus the dollars of rows without a day or a provider, the comparisons are exact, and each kind of gap is named exactly where it applies |
| `Reconstruction.Compare` | scripts/reconstruct/realtime_find_batch.py:287-296 | one comparison for each provider-month of either side, in order, with both sides' dollars, a residual exactly when truth is known and every provider lookup succeeded, and a gap for each month without truth |
| `Reconstruction.Rows` | scripts/reconstruct/realtime_find_batch.py:256-273 | the rows and their gaps, run by run; complete exactly when every run's provider is named or known to the price list |
| `Reconstruction.RowIs` | scripts/reconstruct/realtime_find_batch.py:256-268 | a run keeps its printed dollars or half of its estimated ones, names its own provider or else the price list's, and is unattributed without a project |
| `Reconstruction.EntryOfRow` | scripts/reconstruct/realtime_find_batch.py:272-277 | a row enters the comparison exactly if it has a day and a provider |
| `Reconstruction.TruthIs` | scripts/reconstruct/realtime_find_batch.py:278-284 | truth rows are taken as they are, exactly if each has a provider and an amount |
| `Reconstruction.SumByKey` | scripts/reconstruct/realtime_find_batch.py:274-284 | split by provider and month the dollars add up again |
| `Reconstruction.PlacedAndUnplaced` | scripts/reconstruct/realtime_find_batch.py:272-277 | every row's dollars are in a provider-month or among the unplaced, never both |
| `Reconstruction.Accumulate` | scripts/reconstruct/realtime_find_batch.py:277 | the accumulating dictionary holds exactly the keys that occur, each with its sum |
| `Reconstruction.UnplacedIff` | scripts/reconstruct/realtime_find_batch.py:258-277 | a row is in no provider-month exactly when it has no day, or names no provider and its model is not on the price list |
| `Reconstruction.OutputFiles.Publish` | scripts/reconstruct/realtime_find_batch.py:303-320 | wherever it ends, the output is the old one or the whole new one, and the old one survives at the output or the checkpoint; an exception leaves no temporary file |
| `Anomaly.FlagToday` | src/spendguard/anomaly.py:40-55 | the answer is the rule's on the days before today, in whatever order they are listed |
| `Anomaly.JudgedDays` | src/spendguard/anomaly.py:43-47 | what is judged is today's total, zero if the record has none, against exactly the days before it |
| `Anomaly.JudgeOrder` | src/spendguard/anomaly.py:47-50 | two listings of the same record give the same answer |
| `Anomaly.FutureIgnored` | src/spendguard/anomaly.py:43-47 | future-dated days, whatever they hold, never change the answer |
| `Anomaly.OrderStatistic` | src/spendguard/anomaly.py:23-29 | the k-th smallest value meets a downward-closed condition exactly when more than k values do |
| `Anomaly.MedianAmongMost` | src/spendguard/anomaly.py:27 | where more than half of the values lie, there lies the median |
| `Anomaly.MedianIs` | src/spendguard/anomaly.py:23-27 | the median is the middle of the sorted values, or the mean of the middle two |
| `Anomaly.MadIs` | src/spendguard/anomaly.py:28-29 | the deviation scale is the median of the distances from the median, in whatever order the days are listed |
| `Anomaly.MedianRobust` | src/spendguard/anomaly.py:20-27 | whatever fewer than half of the days are changed to, the median stays in the range of the others |
| `Anomaly.BreakdownIff` | src/spendguard/anomaly.py:20-27 | changing k days of any history can put the median above every bound exactly when k is at least half of the days |
| `Anomaly.HalfMovesMedian` | src/spendguard/anomaly.py:27 | for every history and bound, changing half of the days, rounded up, puts the median above it |
| `Anomaly.MadAmongMost` | src/spendguard/anomaly.py:28-29 | the deviation scale is not negative and at most the width of the range most values lie in |
| `Anomaly.MadZeroIff` | src/spendguard/anomaly.py:28-33 | the scale is zero exactly when more than half of the days equal the median |
| `Anomaly.ScoreIs` | src/spendguard/anomaly.py:20-37 | with spread the score is the distance above the median in units of 1.4826 scales, without it 99 above every past value and zero otherwise |
| `Anomaly.FlaggedIff` | src/spendguard/anomaly.py:40-55 | a day is flagged exactly if it came to five dollars, has seven days before it, exceeds their median by five dollars and by half, and by 3.5 times 1.4826 scales or, without spread, every one of them; the flag carries these figures |
| `Anomaly.FlatHistoryFlagIff` | src/spendguard/anomaly.py:32-37 | then a day is flagged exactly when it exceeds every past day, and by enough dollars |
| `Anomaly.FlagMonotone` | src/spendguard/anomaly.py:48-55 | a larger total is flagged whenever a smaller one is |
| `Anomaly.DetectionSurvives` | src/spendguard/anomaly.py:20-55 | a jump clear of the undisturbed days is flagged whatever fewer than half of the history was changed to, exactly unless the history has no spread and holds a value as large |
| `Anomaly.NoFalseAlarm` | src/spendguard/anomaly.py:51-55 | a total within five dollars of the undisturbed days is never flagged, whatever fewer than half were changed to |
| `Ranking.Evidence` | src/spendguard/advise.py:73-101 | one arm for each key among the calls, holding exactly their jobs, cost, labels and output tokens, unknown as soon as one call's are |
| `Ranking.CallAdds` | src/spendguard/advise.py:89-101 | one more call adds to its arm a job, its cost, its tokens while all are known, and its label with its stated confidence, zero included, or 0.7 |
| `Ranking.SameArmIff` | src/spendguard/advise.py:83-88 | two calls share an arm exactly when vendor and model are the same, and by effort the effort too |
| `Ranking.MergingIsNotSplitting` | src/spendguard/advise.py:85-101 | the calls of a model summed effort by effort are the calls of the model summed |
| `Ranking.EffortsMerge` | src/spendguard/advise.py:73-101 | the effort arms of a model add up to its unsplit arm in every field, poisoning included |
| `Ranking.AllModelTokens` | src/spendguard/advise.py:129-134 | the running totals hold each model's tokens over all its arms, unknown as soon as one arm's are |
| `Ranking.KnownTotal` | src/spendguard/advise.py:132-141 | when a model's total is known so is every arm's count: apportioning never multiplies an unknown |
| `Ranking.BillConservedIff` | src/spendguard/advise.py:140-145 | the arms' charges add up to the model's bill exactly when its tokens are known and not zero, or it has one arm, or nothing was billed; otherwise every arm is charged the whole bill |
| `Ranking.CostFloors` | src/spendguard/advise.py:140-149 | a cost is its charge or its tokens at the plan rate, and below neither |
| `Ranking.ArmPrice` | src/spendguard/advise.py:140-149 | with known tokens every arm of a model costs its tokens at one price: the billed dollars per token or the plan rate, whichever is more |
| `Ranking.SplitCostIsWholeCost` | src/spendguard/advise.py:140-149 | then the effort arms' final costs, floor included, add up to the unsplit final cost |
| `Ranking.EffortArmsTie` | src/spendguard/advise.py:150 | and by dollars per million output tokens the effort arms of a model always tie |
| `Ranking.Rank` | src/spendguard/advise.py:135-165 | the rows are sorted stably by the rank key; the pick is the model of the first arm whose dollars per good result, or without any label per million output tokens, are the least, and None exactly when no arm's are below 1e18 |
| `Ranking.PickIsCheapest` | src/spendguard/advise.py:152-166 | where anything is labeled, no measured arm with good results is cheaper per good result than the picked one |
| `Ranking.RowTells` | src/spendguard/advise.py:135-163 | each row carries its arm's cost, share of good labels and ratios, and is complete exactly if its tokens are known |
| `Ranking.SortHead` | src/spendguard/advise.py:164-165 | the head of the stable sort is the first of the least |
| `AppendFile.AppendKeepsIff` | scripts/integration/reasoning_stress_matrix.py:142-148 | an appended row and all before it can be read back exactly when the file ended in a newline |
| `AppendFile.ReadableIffClean` | scripts/review/panel_review.py:62-70 | a reader that gives up at the first bad line sees everything appended exactly when the file was clean before |
| `AppendFile.ReadRows` | scripts/review/panel_review.py:62-70 | such a reader returns exactly the rows before the first bad line |
| `ResumeMatrix.Done` | scripts/integration/reasoning_stress_matrix.py:151-169 | a run reads back every row that parses, and the units with a successful one |
| `ResumeMatrix.Matrix.RunMatrix` | scripts/integration/reasoning_stress_matrix.py:177-245 | a run is the specified session: seed, header on an empty file, main pass, bound pass, best-value call, each row appended as its call returns; its results are the seeds and its own rows by phase |
| `ResumeMatrix.Matrix.Pass` | scripts/integration/reasoning_stress_matrix.py:193-206 | one pass calls exactly the units not done, in order, until the run ends |
| `ResumeMatrix.Matrix.Call` | scripts/integration/reasoning_stress_matrix.py:198-206 | one call, its outcome by structure, and its append, cut off at any point |
| `ResumeGuarantees.SessionKeeps` | scripts/integration/reasoning_stress_matrix.py:177-245 | every run, wherever it is cut off, keeps the books and the finality of successes |
| `ResumeGuarantees.CallsAccounted` | scripts/integration/reasoning_stress_matrix.py:142-169 | over any sequence of runs a unit's calls are its failed rows, at most one success and its cut-off calls, plus at most two for each torn write; without torn writes the count is exact and every appended row is read back |
| `ResumeGuarantees.SuccessIsFinal` | scripts/integration/reasoning_stress_matrix.py:151-169 | over any sequence of runs there is at most one successful row of a unit, and no row of it afterwards |
| `ResumeGuarantees.SessionCalls` | scripts/integration/reasoning_stress_matrix.py:194-217 | a run calls each unit at most once, and none the file has a success for |
| `ResumeGuarantees.SettledForever` | scripts/integration/reasoning_stress_matrix.py:151-169 | a success on a terminated line is never paid again, whatever later runs do or tear |
| `ResumeGuarantees.AppendSettlesIff` | scripts/integration/reasoning_stress_matrix.py:142-148 | appending a success settles its unit exactly when the file ended in a newline |
| `ResumeGuarantees.ReplyFinishesIff` | scripts/integration/reasoning_stress_matrix.py:101-164 | a reply written whole behind a newline takes its unit off the to-do list exactly if it has no error or is the call's own deadline; every other unit stays as it was |
| `ResumeGuarantees.FinishedNeverCalledAgain` | scripts/integration/reasoning_stress_matrix.py:151-169 | over any later runs such a unit is never called again |
| `ResumeGuarantees.RowOfReply` | scripts/integration/reasoning_stress_matrix.py:101-115 | the row on file tells by structure whether the call answered, hit its deadline or raised, and carries its cost |
| `ResumeGuarantees.TornLineRepays` | scripts/integration/reasoning_stress_matrix.py:142-169 | otherwise not: a concrete torn line makes the next answered row unreadable and the unit is paid again |
| `ResumeGuarantees.CallsDistinctIff` | scripts/integration/reasoning_stress_matrix.py:193-217 | whatever happens in it, a run makes no call twice exactly when its to-do list has no unit twice |
| `ResumeGuarantees.SessionCompletes` | scripts/integration/reasoning_stress_matrix.py:187-245 | an uncut run on a terminated file adds exactly its results, one for each unit not done, in order |
| `ResumeGuarantees.UnitsAre` | scripts/integration/reasoning_stress_matrix.py:193-234 | the units are a main call for each target, then a bound call for each, then best-value if there is a target |
| `ResumeGuarantees.NoTargets` | scripts/integration/reasoning_stress_matrix.py:226-236 | a run without a target ends in an exception exactly if best-value has not succeeded before, or its header could not be written |
| `ResumeGuarantees.ReportTells` | scripts/integration/reasoning_stress_matrix.py:180-245 | what a run reports: by phase the earlier rows of finished units and its own, and for best-value its own row if it made the call |
| `ResumeGuarantees.SinkCounts` | scripts/integration/reasoning_stress_matrix.py:142-148 | what the history counts: writes cut off inside a line, calls whose row never reached the file, appends that returned |
| `ResumeMatrix.SeedResults` | scripts/integration/reasoning_stress_matrix.py:180-186 | the seeds are every prior row of a done unit, by phase, the last one for best-value |
| `ResumeGuarantees.SeedsSuccessfulIff` | scripts/integration/reasoning_stress_matrix.py:180-186 | the seeds of a phase are all successful exactly when no unit of it that is done has failed before |
| `ResumeGuarantees.RowsAreResults` | scripts/integration/reasoning_stress_matrix.py:142-169 | every result on file came from a call of one of the runs |
| `ResumeGuarantees.FailedSeedIff` | scripts/integration/reasoning_stress_matrix.py:180-186 | a failure of any of the runs is among the seeds exactly when its row can still be read and its unit is done by now |
| `ResumeGuarantees.SeedsAreResults` | scripts/integration/reasoning_stress_matrix.py:180-186 | every seeded row is a result of one of the runs |
| `ResumeGuarantees.FailedRowSeeded` | scripts/integration/reasoning_stress_matrix.py:180-186 | otherwise not: a unit that failed and then answered is seeded with both rows |
| `ResumeGuarantees.BestSeedSucceeded` | scripts/integration/reasoning_stress_matrix.py:185-186 | the best-value slot is filled exactly when best-value is done, and with its success |
| `PanelReview.Review.AppendRaw` | scripts/review/panel_review.py:54-59 | the findings are appended one by one, cut off anywhere; the file only grows, and after a whole append all findings are read back behind the old ones exactly when the file was clean (or there were none) |
| `PanelReview.Review.MarkDone` | scripts/review/panel_review.py:49-51 | no other unit becomes finished, and behind a newline none is lost and the unit is finished exactly if at most the newline of its mark is missing, or it was before |
| `PanelReview.Review.Unit` | scripts/review/panel_review.py:178-186 | one file is the specified unit, wherever it ends: bill, findings, mark, in this order |
| `PanelReview.Review.Wave` | scripts/review/panel_review.py:177-186 | a wave is the specified review of its files in order, wherever it ends |
| `PanelReview.Review.FilePass` | scripts/review/panel_review.py:154-188 | the file pass is the specified one, wherever it ends: waves of the unfinished files, each started only if its estimate fits what is left |
| `PanelReview.Review.SeamPass` | scripts/review/panel_review.py:215-244 | the seam pass is the specified one, wherever it ends: each proposed cluster of two or more known files inside the budget, the sentinel last |
| `PanelReview.Review.RepoPass` | scripts/review/panel_review.py:247-271 | the repository pass is the specified one, wherever it ends: one call inside the budget, findings before the sentinel |
| `PanelReview.Review.Launch` | scripts/review/panel_review.py:322-366 | a launch of any phase is the specified one, wherever it ends, in its three files, its result and its batches: the passes, then verification only when every unit of the phase is done, on everything that can be read back |
| `PanelReview.Review.Verify` | scripts/review/panel_review.py:274-319 | verification is the specified one, wherever it ends: only findings without a verdict on file are judged, each verdict is filed when its worker is done, and the report is what survives |
| `PanelPasses.GatheredMarks` | scripts/review/panel_review.py:154-271 | wherever a launch ends, every unit it marked is work of its phase none of whose panel calls ended in an exception and whose findings it appended before |
| `PanelPasses.ClustersMarks` | scripts/review/panel_review.py:220-244 | when all clusters have been gone through, each of two or more known files was put to the panel, and RAW has exactly all their findings appended |
| `PanelPasses.ReviewableAre` | scripts/review/panel_review.py:222-225 | the clusters put to the panel are those that name known files at two places at least |
| `PanelPasses.FilePassRecords` | scripts/review/panel_review.py:154-188 | a file pass that is not cut off appends exactly the findings and marks of the files put to the panel, answered or refused, and bills exactly their calls; they are a prefix of the unfinished files, all of them unless the next wave does not fit |
| `PanelGuarantees.NothingLost` | scripts/review/panel_review.py:40-41 | after any launches of any phases, each cut off anywhere, every unit on DONE is work that one of the launches did: none of its panel calls ended in an exception, and everything they found was appended to RAW |
| `PanelGuarantees.EveryReplyWritten` | scripts/review/panel_review.py:148-151 | in terms of the replies: for every unit on DONE, what each vendor of each of its calls answered in one of the launches was appended to RAW, vendor by vendor, with nothing left out and nothing else in between |
| `PanelGuarantees.ReadIffClean` | scripts/review/panel_review.py:62-70 | what a launch found is read back after any later launches exactly when RAW was clean before it (or held it already) |
| `PanelGuarantees.UntornIsReadBack` | scripts/review/panel_review.py:185 | if no write to RAW ends inside a line, verification reads all that was found for every unit on DONE |
| `PanelGuarantees.EveryReplyRead` | scripts/review/panel_review.py:148-151 | then no finding of any vendor's readable answer is missing from what verification reads |
| `PanelGuarantees.CampaignGrows` | scripts/review/panel_review.py:40-70 | over any launches RAW and DONE only grow; a RAW that is not clean stays so, and none of its new lines are ever read |
| `PanelGuarantees.CampaignNext` | scripts/review/panel_review.py:322-366 | launches follow each other, each from what the one before left on disk |
| `PanelGuarantees.TornLineHidesFindings` | scripts/review/panel_review.py:62-70 | after a torn line a finished file's findings are not seen by verification |
| `PanelGuarantees.FinishedUnreviewedIff` | scripts/review/panel_review.py:141-271 | among the units any launch finishes, those the panel did not review are exactly those with a call that the budget gate refused or that no vendor answered readably, and the seam pass that was proposed no two known files together; an unreviewed file or repository adds nothing to RAW |
| `PanelGuarantees.FilePassUnreviewedIff` | scripts/review/panel_review.py:146-186 | a file pass that is not cut off finishes without a review exactly the files it put to the panel whose call was refused or silent |
| `PanelGuarantees.UnheardPassFinishes` | scripts/review/panel_review.py:148-186 | when no vendor answers, such a pass appends nothing and finishes every file it put to the panel |
| `PanelGuarantees.FinishedForever` | scripts/review/panel_review.py:158-159 | a unit on a terminated line of DONE, reviewed or not, is never taken up again |
| `PanelGuarantees.VerifiesOnlyComplete` | scripts/review/panel_review.py:352-364 | nothing is judged or reported before the files, clusters and repository of the phase are all on DONE; a launch that pauses misses one of them and leaves the verdicts alone |
| `PanelGuarantees.SeamFinishesIff` | scripts/review/panel_review.py:220-244 | whatever earlier launches reviewed, a launch of the seam pass finishes it exactly when all its clusters, counted from the first, fit the budget in turn and are survived |
| `PanelGuarantees.SeamNeverFinishes` | scripts/review/panel_review.py:229-230 | a seam pass stopped by the budget is stopped in every launch with the same clusters and bills |
| `PanelGuarantees.FreshLosesIff` | scripts/review/panel_review.py:332-337 | a finished unit loses its findings to `--fresh` exactly when RAW was unlinked and DONE was not |
| `PanelBudget.StartsInside` | scripts/review/panel_review.py:162-171 | every launch, wherever it ends, puts only waves of its files, proposed clusters and the repository to the panel, each only when what was billed before it and its estimate fit the budget, and `spent` is what was billed |
| `PanelBudget.FiguresOf` | scripts/review/panel_review.py:164-179 | the figures of one unit: its estimate, its call's cost if it came back, and what that is more than the estimate |
| `PanelBudget.FiguresAdd` | scripts/review/panel_review.py:164-165 | a batch's figures add up over its units |
| `PanelBudget.ReviewAllSpends` | scripts/review/panel_review.py:177-179 | however far a wave gets, `spent` grows by at most its estimate and what its calls bill over theirs |
| `PanelBudget.OverrunIsOneBatch` | scripts/review/panel_review.py:155-156 | the bills and `spent` pass the budget by at most what the calls of the last batch billed over their estimates |
| `PanelBudget.HonestLaunchFits` | scripts/review/panel_review.py:163-169 | when no panel call bills more than estimated, neither the bills nor `spent` pass the budget, wherever the launch ends |
| `PanelCeiling.CeilingIff` | scripts/review/panel_review.py:326 | in any phase, the budget is a ceiling for whatever the calls may bill exactly when no first batch of the phase fits it: no wave, no cluster that could be proposed, no repository call |
| `PanelCeiling.ClusterFitsIff` | scripts/review/panel_review.py:219-230 | a cluster that fits can be proposed exactly when some file fits twice |
| `PanelVerdicts.DropsExactlyRefuted` | scripts/review/panel_review.py:312-319 | exactly the refuted findings are dropped, and each other one carries its verdict or none |
| `PanelVerdicts.FiledLines` | scripts/review/panel_review.py:304-306 | the lines a verification files are exactly its usable answers, in whatever order its workers finish |
| `PanelVerdicts.NewLinesCount` | scripts/review/panel_review.py:304-306 | as many verdicts are filed as questions were answered usably |
| `PanelVerdicts.LaunchEnds` | scripts/review/panel_review.py:352-366 | a launch is cut off while gathering or filing, pauses if something is left to gather, and reports otherwise; only one that gets to the verification touches the verdicts |
| `PanelVerdicts.ReportAgreesIff` | scripts/review/panel_review.py:302-316 | for any verdict file: the verdict a launch reports by is the one on file afterwards, in every order its workers may finish, exactly when the file was clean, the answers about the key agree and the last question about it was answered or none was; or the file was not clean, and nothing is filed, or the last question was not answered and no unterminated verdict on the key is destroyed |
| `PanelVerdicts.DistinctKeysAgreeIff` | scripts/review/panel_review.py:76-79 | for findings with different keys a clean file is enough |
| `PanelVerdicts.OvertakenVerdict` | scripts/review/panel_review.py:302-316 | a finding refuted late is reported as confirmed by a faster answer about its key, and dropped by the next launch |
| `PanelVerdicts.SharedKeyReportsRefuted` | scripts/review/panel_review.py:309-318 | a finding refuted on file is reported because the last answer about its key was unusable, and dropped by the next launch |
| `PanelVerdicts.NeverAskedAgain` | scripts/review/panel_review.py:280-281 | over any launches, cut off anywhere, a key with a verdict before any bad line is never asked about again |
| `PanelVerdicts.VerdictsFiledIff` | scripts/review/panel_review.py:82-91 | a verdict just filed can be read back exactly when the file was clean |
| `PanelVerdicts.SettledIffClean` | scripts/review/panel_review.py:275-281 | over any later launches: a verdict filed whole settles its key exactly when the file was clean before; otherwise every later verification asks about it again |
| `PanelVerdicts.VerifiedGrows` | scripts/review/panel_review.py:304-306 | over any launches the verdict file only grows, once unclean it stays so and none of its new lines are read, and it stays clean if no write to it ends inside a line |
| `PanelVerdicts.TornVerdictAskedAgain` | scripts/review/panel_review.py:82-91 | after a torn verdict line, an answered finding is asked about again |
| `CatalogStamp.Replay` | scripts/migrate/stamp_catalog_as_of.py:32-43 | the incremental replay gives each model in a parseable revision the declarative date, and the rows of the newest parseable revision |
| `CatalogStamp.NewestIs` | scripts/migrate/stamp_catalog_as_of.py:33-37 | the newest rows are those of the last revision that parses |
| `CatalogStamp.TrackedIs` | src/spendguard/model_catalog.py:90-93 | the payload is what the row has of the five tracked fields |
| `CatalogStamp.ReplayRevision` | scripts/migrate/stamp_catalog_as_of.py:38-43 | one revision: a model's date moves exactly when it is new or its tracked payload differs from the one last seen |
| `CatalogStamp.DateIsUnique` | scripts/migrate/stamp_catalog_as_of.py:38-43 | the start of the last run of equal payloads is one date and reason |
| `CatalogStamp.Derive` | scripts/migrate/stamp_catalog_as_of.py:27-56 | every current row gets exactly one proposal, of the kind its date, the newest revision and its payload determine; the branch for a row without a semantic history is never taken |
| `CatalogStamp.Catalog.Stamp` | scripts/migrate/stamp_catalog_as_of.py:85-90 | the write changes exactly the rows the specification changes |
| `CatalogStamp.StampingFillsGaps` | scripts/migrate/stamp_catalog_as_of.py:85-90 | no existing date and no other field changes; a row is dated exactly when it had none and its proposal has one |
| `CatalogStamp.StampingIsIdempotent` | scripts/migrate/stamp_catalog_as_of.py:27-90 | deriving and stamping again, at any later day, changes nothing |
| `CatalogStamp.EmptyDateStaysEmpty` | scripts/migrate/stamp_catalog_as_of.py:46-88 | a row with an empty date gets a proposal that the write leaves out |
| `GateSettings.SettingsFile.InstallAgentGate` | src/spendguard/agent_spawn_gate.py:159-204 | each outcome happens exactly in its case; a changed file is backed up first and holds the specified settings, any other outcome changes nothing |
| `GateSettings.InstallIsIdempotent` | src/spendguard/agent_spawn_gate.py:189-198 | after installing the gate is there, everything that was there still is, in order, and installing again changes nothing |
| `GateSettings.InstalledGroup` | src/spendguard/agent_spawn_gate.py:188-198 | installing adds one last group for the two tools with the gate's command, exactly if no hook ends in it |
| `GateSettings.UninstallRemovesExactly` | src/spendguard/agent_spawn_gate.py:172-187 | for any settings uninstalling removes exactly the managed hooks: every other hook stays, in order and in its group |
| `GateSettings.UninstalledHooks` | src/spendguard/agent_spawn_gate.py:155-177 | after uninstalling, a hook is in a group exactly if it was and its command does not end in the gate's own |
| `GateSettings.ManagedIff` | src/spendguard/agent_spawn_gate.py:155-156 | the managed hooks are those whose command ends in the gate's own |
| `GateSettings.UninstallNormalIff` | src/spendguard/agent_spawn_gate.py:178-187 | the result has no empty group, list or object exactly when there was something to remove or it had none before |
| `GateSettings.RoundTrip` | src/spendguard/agent_spawn_gate.py:159-198 | uninstalling after installing gives the settings without managed hooks, in normal form |
| `GateSettings.RoundTripExact` | src/spendguard/agent_spawn_gate.py:159-198 | settings without the gate come back exactly when they were in normal form |
| `GateSettings.Strip` | src/spendguard/agent_spawn_gate.py:173-177 | the removal loop keeps each group with its foreign hooks, if it has any |
| `CallChain.Chain` | scripts/audit/callgraph.py:73-79 | every function some chain of calls leads to from the root is printed exactly once, below a caller on a shortest chain to it, and nothing else is printed |
| `CallChain.CalledIff` | scripts/audit/callgraph.py:73-79 | what is printed is exactly what lies at the end of some chain of calls from the root, each function calling the next |
| `CallChain.Expand` | scripts/audit/callgraph.py:77-79 | one function's callees: exactly the new ones are printed and queued, at their distance |
| `CallChain.DeeperCovered` | scripts/audit/callgraph.py:75-79 | once everything queued is deeper than d, everything within d + 1 calls has been seen |
| `CallChain.AllSeen` | scripts/audit/callgraph.py:75-79 | with an empty queue everything reachable has been seen |

## Left out

- Vendor calls, prompts, redaction, prices, the model catalog's contents, printing, argument parsing, receipts and clocks: arbitrary inputs or no part of the model.
- Python's recursion limit in the import-cycle search, and the collection of the import graph from source text.
- Floating point: reals stand for floats, so the roundings to 6, 4 and 3 digits in the reports, `max_cc`/`mi` rounding and accumulation error are not modelled.
- SQLite, WAL, `lsof`, `ctypes`, `fsync` and `chmod` as mechanisms: the reclaim takes them at their contracts (a rename that never overwrites, an exclusive lock, a client scan that finds every writable handle).
- The reclaim is modelled as a step protocol on values rather than as one method, because a crash or another client may come between any two steps; what `optimize` writes into the new ledger, the Spotlight marker, a failure of the restoring `chmod` itself, the disk-space figures and the ownership and directory checks before it (each one a refusal without effect) are events without content.
- The arrival histogram, the per-minute and per-intent counts and the decision counts of the ledger demand report.
- `score`, `prompt_of` and the per-cell statistics of the calibration run, and the sampling of the replay corpus.
- In the resume matrix: the content of prompts and answers, latencies and the verdict's other criteria; a line is either whole, torn, or whole without its newline, and a torn line followed by a row is taken not to parse.
- In the panel review: a torn mark is taken not to read as another unit's name; the cost of the clustering call; `spent` during verification, to which the workers add without a lock and which only narrows their own calls.
- Missing and explicit null are one value in the settings file, and for a catalog row's date; a settings file whose `hooks` has another shape than objects and lists is not modelled.
- The session state, verdict cache and messages of `evaluate_pretooluse`.
- The synthesized TOTAL series and the report lines of the anomaly report; the cheapest-per-token contrast and the list of unmeasured models of the ranking.
- The justification's emptiness is judged with space, tab, newline and carriage return as white space.
- The backup, quarantine and locking of `config.update_json`, which is not part of this model: a write is atomic.
- The other branches of the architectural gate (layers, duplication, types, dead code) and the `callers`, `calls` and statistics commands of the call-graph tool.
