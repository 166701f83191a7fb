# A verified model of the IFRS 9 expected-credit-loss engine

The ECL server takes three uploads per run. PD history becomes Markov transition matrices, LGD data becomes
discounted collateral per loan, and EAD data becomes a month-by-month balance walk. The three are joined into a
Discounted ECL per loan and month. Celery tasks drive the engines, a progress document records their stages, validators
guard the uploads, and an outbox delivers emails.

This project models those parts in Dafny, in exact real arithmetic, and proves properties of the whole computation:

- **PD engine.** `Calendar`, `NextMonthJoin`, `ExposureFlows`, `TransitionMatrix`, `MarginalPd`, `PdEngine`, `PdMeaning`.
- **EAD and LGD engines.** `Annuity`, `BalanceWalk`, `Snapshots`, `Collateral`, `LgdMeaning`, `EadEngine`, `EclLoss`,
  `EadMeaning`, `EclSummary`, `StoredTotals`.
- **Run protocol.** `RunRecord` (the row and its transactions), `RunPipeline` (one dispatch, every interleaving, lost
  workers included), `Redelivery` (crashes, redeliveries and new dispatches of one header stage), `LateHeaders` (further
  live copies of the header tasks), `CallbackRedispatch` (the EAD table over a second dispatch).
- **Outbox and validators.** `Outbox`, `Validators`, `UploadValidators`, `ValidationVerdict`, `ValidationMeaning`,
  `CrossFileValidator`.
- **Support.** `RealMath`, `Text`, `Wrappers`.

Loops and in-place updates of the source are methods and classes, each proved against a function; expressions are
functions. The `Meaning` modules spell the results out from the inputs, by index and in plain arithmetic. The protocol is
a step machine on values that uses the same update functions the `RunRow` class is proved against.

## What the proofs show about the code

Where the code differs from its documentation, the model follows the code:

- The next-month join matches exact dates after a clamped one-month shift. For month-end reporting a transition is
  recorded exactly when the next month is not shorter, so the shipped test data (test_data/README.md:109) records one
  of the three month-to-month matrices it describes (`MonthEndJoin`, `TestDataTransitions`).
- Missed-payment compounding never changes a balance (`CompoundingChangesNothing`).
- A quarterly loan with interest always keeps a residual after its last scheduled payment (`QuarterlyResidual`).
- A Stage 3 loan carries its whole hazard in the period one month after its first payment date and none in any other
  period (`Stage3RowHazard`).
- `failed` is not sticky: a parallel stage can overwrite it (`FailureOverwritten`), and so can a header task whose worker
  is lost and which is delivered again. Within its dispatch a failed run stays failed exactly when both header tasks are
  acknowledged and the callback is not past its check of the status; the same condition makes a recovery tick final
  (`FailedStaysExactly`, `RecoveryFails`).
- The EAD insert is not preceded by a delete. Within one dispatch a finished run holds one copy of its rows and of its
  Total ECL plus one for every redelivery after an insert, so it is right exactly when there was none (`ExactlyOnce`,
  `RedeliveryDoubles`). After a second dispatch the table holds one copy exactly when no earlier callback has rows still
  to insert and no earlier chord can still release one (`RedispatchInsertsOnceExactly`).
- Uploads can be replaced as soon as a run reads `failed`, also while tasks of its dispatch are alive. Dispatching it
  again keeps nothing or one copy of the new output in a header stage's table exactly when no instance is between its
  insert and its completion mark and none is computing on inputs with another output (`RedispatchSafeExactly`); otherwise
  stale rows can stand under a complete entry (`StaleRowsStand`).
- A second live copy of a header task that passed its check before the stage was complete can leave a complete run with a
  running entry, or turn a completed run back to running so that recovery fails it with all four entries complete. Both
  happen from any dispatch (`CompleteOverRunning`, `CompletedRunFails`), and neither can exactly when no copy stands
  between its check and its mark or is about to mark an error (`CompleteMeansDoneExactly`, `CompleteStaysExactly`).
- The Total Outstanding stored with a run is the largest walked balance of each loan, not the input amount. It is below
  the input for monthly loans inside their term and for loans without rows, and above it for quarterly or past-term loans
  that bear interest; which of the two totals and coverage ratios is larger can be read off the input where only one kind
  is present (`StoredAgainstOutstanding`, `TotalsAgainstInput`, `CoverageByLoans`).
- Loan IDs are checked per sheet, while the engine concatenates sheets. A Loan ID whose rows come from two input rows is
  walked as one loan and no longer discounted by month offsets (`DiscountsByOffsetExactly`).
- The cross-file check reads every PD upload; the engine may be given only the first, and drops repeated keys. A segment
  that passes the check can still raise EC-08 (`CleanFilesServeEad`, `CheckedSegmentLost`).

## Model

| member | source | states |
|---|---|---|
| Calendar.MonthLengths | app/engine/ead_engine.py:161-169 | the Gregorian month lengths, leap years included |
| Calendar.AddMonthsExact | app/engine/ead_engine.py:161-169 | for every date and every number of months, also negative: that many months on, on the same day or the target month's last |
| Calendar.AddMonthsIncreases | app/engine/ead_engine.py:161-169 | a later month offset gives a strictly later date, whatever the day clamping |
| Calendar.ShiftBackLandsOn | app/engine/pd_engine.py:101-102 | a date one month back lands on r iff it is in r's next month with r's day, or a later day when r is a month end |
| Calendar.MonthsBetweenAdds | app/engine/ead_engine.py:31-34 | whole months add up along any chain of dates and equal the month-index difference |
| NextMonthJoin.DedupeUnique | app/engine/pd_engine.py:95 | deduplication leaves unique (Loan ID, date) keys and is the identity on unique input |
| NextMonthJoin.DedupeKeepsFirst | app/engine/pd_engine.py:95 | a row is kept iff it is the first of its key |
| NextMonthJoin.JoinKeepsRows | app/engine/pd_engine.py:100-108 | where no row finds two next-month rows (one row per loan and month suffices) the join keeps every row exactly once, in order, with its one following staging or Offbooks |
| NextMonthJoin.JoinKeepsExactly | app/engine/pd_engine.py:100-108 | the join keeps the number of rows iff no row finds two next-month rows, and otherwise adds some |
| NextMonthJoin.FixedDayJoin | app/engine/pd_engine.py:100-108 | reporting on a fixed day up to the 28th, each row gets precisely the following month's staging, else Offbooks |
| NextMonthJoin.MonthEndJoin | app/engine/pd_engine.py:100-108 | reporting on month ends, the transition to the next month is recorded iff that month is not shorter |
| NextMonthJoin.TestDataTransitions | test_data/README.md:16-19 | of the four shipped reporting dates only February to March is a recorded transition |
| ExposureFlows.BuildMonthlyMatrix | app/engine/pd_engine.py:33-48 | the filled 3x4 array holds, cell by cell, the exposure that moved from stage to next stage |
| ExposureFlows.AggregateMonths | app/engine/pd_engine.py:121-131 | adding the monthly matrices one by one gives the total flow of the segment's rows |
| ExposureFlows.ExposureConserved | app/engine/pd_engine.py:33-48 | each month's 3x4 matrix totals the segment's Loan Amount of that month: nothing lost, nothing doubled |
| ExposureFlows.LatestMonthFlowsNothing | app/engine/pd_engine.py:100-131 | the overall latest date contributes a zero 3x3 matrix in every segment |
| ExposureFlows.AggregatePermutes | app/engine/pd_engine.py:93-133 | any permutation of the rows gives the same aggregate matrix |
| TransitionMatrix.RowProportions | app/engine/pd_engine.py:51-57 | the loop fills each row with its shares, and with zeros where the row is empty |
| TransitionMatrix.RowShareIsShare | app/engine/pd_engine.py:51-57 | a row's proportions are non-negative and add to 1 iff the row has exposure, else to 0 |
| TransitionMatrix.NormalizeMatrix | app/engine/pd_engine.py:60-64 | the copied array has Stage 1 defaults sent to Stage 2 and Stage 3 absorbing |
| TransitionMatrix.NormaliseProportions | app/engine/pd_engine.py:51-64 | the matrix to be powered is non-negative, row sums 1 exactly where the aggregate has exposure, Stage 1 never jumps to Stage 3, cure rate in [0,1] |
| TransitionMatrix.PowerAdd | app/engine/pd_engine.py:143-144 | P^(m+n) = P^m P^n |
| TransitionMatrix.MatrixPower | app/engine/pd_engine.py:143-144 | repeated squaring computes the iterated product |
| TransitionMatrix.PowerSubstochastic | app/engine/pd_engine.py:143-155 | every power keeps non-negative entries, row sums at most 1 (exactly 1 if they were) and the Stage 3 row (0,0,1) |
| TransitionMatrix.PowerIsDefaultWithin | app/engine/pd_engine.py:143-155 | the Stage_3_prob column is the chance of reaching Stage 3 within n single transitions |
| TransitionMatrix.CumulativeGrows | app/engine/pd_engine.py:143-155 | every Stage 3 probability is in [0,1] and never decreases with the month |
| TransitionMatrix.CumulativeOrder | app/engine/pd_engine.py:60-64 | Stage 1 <= Stage 2 <= Stage 3 = 1 in every month, and Stage 1 next month is at most Stage 2 this month |
| MarginalPd.ComputeMarginalPd | app/engine/pd_engine.py:67-79 | the array loop yields the clamped conditional hazard of every month |
| MarginalPd.SurvivalExact | app/engine/pd_engine.py:67-79 | the product of (1 - marginal) is exactly what the curve leaves at its last entry before the clamp |
| MarginalPd.SurvivalIdentity | app/engine/pd_engine.py:67-79 | marginals are probabilities; survival lies between 1 - cumulative and that plus the epsilon, with equality iff the curve is flat since the clamp |
| MarginalPd.Stage3CurveIsCurve | app/engine/pd_engine.py:143-155 | months 1..299 of any stage form a non-decreasing probability curve |
| MarginalPd.Stage3Hazard | app/engine/pd_engine.py:67-79 | from Stage 3 the hazard is 1 in month 1 and 0 in every later month |
| MarginalPd.Stage1FirstMonth | app/engine/pd_engine.py:60-79 | from Stage 1 the first month's hazard is 0 |
| PdEngine.ComputePd | app/engine/pd_engine.py:82-194 | the method returns the specified table and the cure rate of every segment |
| PdEngine.PdTableLookup | app/engine/pd_engine.py:142-185 | the table has exactly one row per (segment, month 1..299, stage), with that key's values, and no other row |
| PdMeaning.AggregateMeans | app/engine/pd_engine.py:119-133 | each entry of a segment's aggregate is the Loan Amount of that segment's rows in the one stage whose next row, by loan, month and clamped day, is in the other |
| PdMeaning.PdTableKeys | app/engine/pd_engine.py:142-185 | one row for each segment of the deduplicated history, month 1 to 299 and stage, and no other row |
| PdMeaning.PdFirstMonthMeans | app/engine/pd_engine.py:136-182 | the first month is the segment's own one-month transition, Stage 1 defaults counted as Stage 2; the cure rate is the Stage 3 exposure that moved to Stage 1 or 2 over what stayed on the books |
| PdMeaning.PdMonthFollows | app/engine/pd_engine.py:67-79 | each later month is the month before times one transition, and its marginal PD is the step over what had survived, 0 once at most 1e-15 had |
| PdEngine.PdTablePermutes | app/engine/pd_engine.py:93-185 | with unique (Loan ID, date) keys every permutation of the input gives the same table, cure rates included |
| PdEngine.SegmentPowersSound | app/engine/pd_engine.py:136-155 | for every portfolio each power is substochastic, with full rows when Stage 1 and Stage 2 saw exposure |
| PdEngine.PdCurvesSound | app/engine/pd_engine.py:119-182 | for every portfolio, segment, stage and month: stage order, growth, hazard bounds and the survival identity |
| Annuity.OwedClosedForm | app/engine/ead_engine.py:54-62 | the recurrence under the PMT payment is the closed-form balance, zero rate included |
| Annuity.OwedClears | app/engine/ead_engine.py:54-62 | the balance stays non-negative through the term and is exactly 0 at its end |
| Annuity.InstalmentsWorthOutstanding | app/engine/ead_engine.py:54-62 | the instalments' present value is the outstanding amount |
| BalanceWalk.CountMissedPeriods | app/engine/ead_engine.py:65-93 | the loop counts the short payments among the last three payment events, at most 3 |
| BalanceWalk.LookbackPays | app/engine/ead_engine.py:81-85 | the lookback holds at most three earlier rows, all of them payment rows |
| BalanceWalk.CompoundingChangesNothing | app/engine/ead_engine.py:108-132 | compounding by the missed count never changes a balance, for any frequency, rate, instalment and row |
| BalanceWalk.WalkLoanBalances | app/engine/ead_engine.py:96-134 | the three lists: balances follow the clamped recurrence, the missed-payment column equals it, the discount period is the row index |
| BalanceWalk.MonthlyAmortises | app/engine/ead_engine.py:56-62 | after k of n payments the walk is the closed form, is 0 from payment n on, and the instalments are worth the outstanding amount |
| BalanceWalk.MonthlyFalls | app/engine/ead_engine.py:108-123 | a monthly balance falls strictly with every payment of its term |
| BalanceWalk.PastTermCompounds | app/engine/ead_engine.py:57-58 | a monthly loan past its adjusted maturity pays nothing and compounds |
| BalanceWalk.QuarterlyDominates | app/engine/ead_engine.py:49-54 | with n scheduled payments, 3n <= remaining < 3n + 3 or one below a quarter, the walk owes after each at least the ideal annuity balance over n, strictly more with interest, exactly that without |
| BalanceWalk.QuarterlyResidual | app/engine/ead_engine.py:49-54 | something is still owed after the last of those n payments iff rate and amount are positive |
| BalanceWalk.QuarterlyClears | app/engine/ead_engine.py:49-53 | without interest each payment is outstanding / n, and the loan is cleared by the last payment and by no earlier one |
| Snapshots.ExpandSnapshots | app/engine/ead_engine.py:137-202 | the loops give the concatenation of the four staged parts |
| Snapshots.ExpansionConserved | app/engine/ead_engine.py:137-202 | the four parts hold every input row's own expansion exactly once and nothing else, whatever the Loan IDs |
| Snapshots.SortSpec | app/engine/ead_engine.py:97 | the date sort of a group is a stable sort: ascending, same rows, equal dates in their old order |
| Snapshots.GroupIsExpansion | app/engine/ead_engine.py:96-97 | where one input row alone generates rows for a Loan ID, its group in date order is exactly that loan's expansion |
| Snapshots.DiscountsByOffsetExactly | app/engine/ead_engine.py:133 | a group is discounted by its rows' own month offsets iff no two row-bearing input rows share its Loan ID |
| Snapshots.ExpansionExact | app/engine/ead_engine.py:153-195 | Stage 2 gets precisely the offsets whose month and clamped day are not after maturity, Stage 1 those up to 12, any other staging only offset 0, each dated that many months on |
| Snapshots.RowIsOffset | app/engine/ead_engine.py:290-298 | row i is i months after reporting: dates rise and the period since origination is the reporting period plus i |
| Snapshots.RemainingTermFromReporting | app/engine/ead_engine.py:304-306 | the remaining term is the calendar months from reporting to adjusted maturity, whatever the first payment date |
| Collateral.ComputeLgd | app/engine/lgd_engine.py:25-87 | sorting by customer and loan, accumulating over collateral names and sorting by loan gives the specified table |
| Collateral.LgdTableHolds | app/engine/lgd_engine.py:32-87 | the table is ascending by Loan ID, and the sorting changes no number |
| LgdMeaning.DiscountedSumMeans | app/engine/lgd_engine.py:34-73 | a row's sum, spelled out: over exactly the entries last of their name, share times stated value times (1 - haircut) / (1 + eir)^time |
| LgdMeaning.LgdTableMeans | app/engine/lgd_engine.py:32-87 | a line is in the table iff it is some input row's Loan ID, rate and that sum |
| LgdMeaning.FirstResultOf | app/engine/lgd_engine.py:32-87 | the first result of a Loan ID is that of its row with the least Customer ID, the earliest of these |
| Collateral.ProportionsAddUp | app/engine/lgd_engine.py:37-49 | each customer's proportions add to 1, or are 0 when nothing is outstanding |
| Collateral.AllocationIsAverage | app/engine/lgd_engine.py:37-65 | the amounts allocated to a customer sum to the outstanding-weighted average of its rows |
| Collateral.AllocationWithinPool | app/engine/lgd_engine.py:37-65 | they never exceed the largest row and are exactly the pool when every row repeats it |
| Collateral.DiscountedWithinStated | app/engine/lgd_engine.py:53-70 | discounted <= proportional <= stated value |
| Collateral.FactorAccruesBack | app/engine/lgd_engine.py:67-69 | the factor accrued over the time to realise is what the haircut leaves |
| Collateral.DiscountedSumFalls | app/engine/lgd_engine.py:37-73 | less collateral, deeper haircuts or slower realisation never raise a loan's discounted collateral |
| EadEngine.ComputeEad | app/engine/ead_engine.py:205-366 | for every input, repeated Loan IDs included, merge, expansion, grouped walk and PD join give the specified rows by Loan ID and date, or EC-08 |
| EadEngine.GroupWalkIsLoanWalk | app/engine/ead_engine.py:300-327 | where one input row alone bears a Loan ID's rows, the group's walk is that loan's own: its terms, its instalment, row i at offset i |
| EadMeaning.RowInputs | app/engine/ead_engine.py:234-257 | every emitted row is one input row's, with the collateral and rate of the first LGD result of its Loan ID, or 0 and the input rate where there is none |
| EadMeaning.RowPeriod | app/engine/ead_engine.py:290-298 | every row's period is the calendar months from first payment to snapshot |
| EadMeaning.LoanRowsMean | app/engine/ead_engine.py:290-327 | row i of a loan has its date i, discount period i and the balance after i + 1 months of its own terms |
| EadMeaning.BalanceMonth | app/engine/ead_engine.py:108-123 | one month adds a twelfth of the rate and takes the instalment, every month or every third, never below zero |
| EadMeaning.RowHazard | app/engine/ead_engine.py:329-366 | hazard and cure rate are those of a PD row for the row's segment, period and stage, or 0 iff there is none |
| EadMeaning.EclMeans | app/engine/ead_engine.py:368-392 | the uncovered balance times hazard times (1 - cure) is the Discounted ECL compounded monthly over its discount period |
| EadMeaning.ColumnsMean | app/engine/ead_engine.py:370-380 | LGW is the uncovered share of a positive balance and 0 for none, and the loss is balance, hazard, LGW and one minus cure multiplied |
| EadEngine.PdJoinFunctional | app/engine/ead_engine.py:329-366 | joining with the PD table keeps each row exactly once, with its key's hazard and cure rate or 0 |
| EadEngine.Ec08Exact | app/engine/ead_engine.py:352-363 | EC-08 is raised iff some segment in use lacks PD history or has every period outside 1..299 |
| EadEngine.Stage3RowHazard | app/engine/ead_engine.py:329-366 | a Stage 3 row has hazard 1 at period 1 and 0 at every other period |
| EclLoss.LossIsUncoveredBalance | app/engine/ead_engine.py:368-383 | credit loss is max(balance - collateral, 0) times hazard times (1 - cure) |
| EclLoss.DiscountingUndoesAccrual | app/engine/ead_engine.py:385-392 | the Discounted ECL compounded back over its period is the credit loss |
| EclLoss.EclWithinBalance | app/engine/ead_engine.py:368-392 | 0 <= Discounted ECL <= balance on every row |
| EclLoss.EclRowsSound | app/engine/ead_engine.py:205-392 | every emitted row has a non-negative balance and collateral and probabilities for hazard and cure |
| EclLoss.EclMonotoneInCollateral | app/engine/ead_engine.py:369-392 | weaker collateral inputs never lower the Discounted ECL of any row, loan, segment, stage or portfolio, nor change whether EC-08 is raised |
| EclSummary.GroupingConserves | app/engine/excel_writer.py:339-381 | a total over the loan lines is the total over their underlying rows |
| EclSummary.LinesMean | app/engine/excel_writer.py:339-351 | one line for exactly the combinations of loan, customer, segment and stage that occur, with the Discounted ECL of their rows |
| EclSummary.TotalsMean | app/engine/excel_writer.py:353-381 | a segment's, a stage's and the portfolio's total is the Discounted ECL of its rows |
| EclSummary.SegmentTotalsAddUp | app/engine/excel_writer.py:353-374 | segment totals add up to Total ECL, which is the sum of all rows |
| EclSummary.StageTotalsAddUp | app/engine/excel_writer.py:376-381 | the three stage totals of the rows compute_ead emits add up to Total ECL, whatever the PD table |
| EclSummary.ReportedTotalsMonotone | app/engine/excel_writer.py:339-381 | weaker collateral inputs never lower a reported loan line, segment, stage or portfolio total |
| StoredTotals.StoredAgainstOutstanding | app/tasks/compute_tasks.py:340-354 | the stored maximum of a loan is below its outstanding amount iff it is monthly, inside its term and owes something; above iff it is not, owes something and bears interest; else equal |
| StoredTotals.StoredPositive | app/tasks/compute_tasks.py:340-354 | something is stored for a loan with rows iff it owes something and its first row is not its last monthly payment |
| StoredTotals.TotalsAgainstInput | app/tasks/compute_tasks.py:340-354 | without a rising loan the stored total is below the input's iff some loan falls or has no rows; without a falling one above iff some loan rises; positive iff some loan keeps a balance |
| StoredTotals.CoverageByLoans | app/tasks/compute_tasks.py:355-356 | for a positive Total ECL, without a rising loan the stored coverage is above the workbook's iff some loan falls and some keeps a balance, below iff some falls and none keeps one; without a falling loan below iff some loan rises, never above |
| StoredTotals.MergeKeepsInput | app/engine/excel_writer.py:346-373 | the LGD join leaves the input total unchanged |
| StoredTotals.InputMeans | app/engine/excel_writer.py:346-373 | with unique Loan IDs the input total is the outstanding amounts of the input rows |
| StoredTotals.StoredMeans | app/tasks/compute_tasks.py:340-354 | with unique Loan IDs the stored total is the largest balance of each loan's walk |
| StoredTotals.TotalsWithoutRows | app/engine/excel_writer.py:306-334 | both outstanding totals are 0 where no rows were generated |
| RunRecord.RunRow.AtomicStageUpdate | app/tasks/compute_tasks.py:98-125 | one update merges one stage key and optionally the status; every other key keeps its value |
| RunRecord.InterleavingsAgree | app/tasks/compute_tasks.py:98-125 | the progress document depends only on what each stage wrote in its own order: no interleaving of merges loses an update |
| RunRecord.RunRow.StageMain | app/tasks/compute_tasks.py:400-531 | undisturbed, a header stage finds itself complete, stores one copy and completes, or fails the run, keeping the rows if only the completion mark raised |
| RunRecord.RunRow.EadEclMain | app/tasks/compute_tasks.py:534-769 | undisturbed, the callback skips a failed run, completes with the totals of the stored rows, fails at EAD without rows, or fails at ECL over the inserted rows at any later point, the total kept if the final update was made |
| RunRecord.RunRow.RunPipeline | app/tasks/compute_tasks.py:841-858 | undisturbed, the run completes iff all three engines succeed; a header failure leaves EAD untouched |
| RunRecord.RunRow.ExecuteRun | app/modules/runs/service.py:1150-1229 | dispatch happens iff the run is draft or failed with all kinds present and every upload executable; a failed run is cleared, a refusal changes nothing |
| RunRecord.RevertUndoesDispatch | app/modules/runs/service.py:1232-1245 | reverting a dispatch restores the run iff it was a draft with nothing recorded; a failed run comes back as a cleared draft |
| RunRecord.RunRow.RequestExecution | app/modules/runs/router.py:186-216 | tasks are sent iff the run is dispatchable and the broker answers; an accepted run that could not be sent is a draft the same uploads dispatch again |
| RunPipeline.EveryStateSound | app/tasks/compute_tasks.py:400-769 | every state of every interleaving, lost and redelivered workers included, keeps the pipeline invariant |
| RunPipeline.PipelineSafe | app/tasks/compute_tasks.py:841-858 | with header and callback redeliveries: EAD starts only over both committed result sets, no progress entry is lost, a header failure rules out complete, complete means four complete entries |
| RunPipeline.ExactlyOnce | app/tasks/compute_tasks.py:594-630 | within one dispatch a finished callback leaves 1 + n copies of its rows and of the Total ECL, n being its redeliveries after an insert: exactly one copy iff n = 0 |
| CallbackRedispatch.RedispatchInsertsOnceExactly | app/modules/runs/service.py:1197-1210 | from any state, after a second dispatch the EAD table holds nothing or one copy of the new output iff no earlier delivery has rows still to insert and no earlier chord can still release its callback |
| RunPipeline.RecoveryFails | app/tasks/cleanup_tasks.py:169-186 | a late tick fails any run that is not complete, keeps its progress and tables, leaves it dispatchable iff its uploads are, and is final within the dispatch iff the header tasks are acknowledged and the callback is not past its check |
| RunPipeline.FailedStaysExactly | app/tasks/compute_tasks.py:143-171 | within its dispatch a failed run stays failed in every continuation iff both header tasks are acknowledged and the callback is not past its check |
| RunPipeline.FailureOverwritten | app/tasks/compute_tasks.py:143-147 | the overwriting is reachable: PD failed, LGD returned, the status is lgd_running and only recovery is enabled |
| RunPipeline.RedeliveryDoubles | app/tasks/compute_tasks.py:594-595 | a run exists that completes with every EAD row and the Total ECL doubled |
| Redelivery.RedeliveryIdempotent | app/tasks/compute_tasks.py:395-456 | under any crashes, redeliveries and input changes the table holds nothing or one copy of one input version's output, and one copy once the entry is complete |
| Redelivery.SingleDispatchOneCopy | app/tasks/compute_tasks.py:471-519 | with the inputs unchanged: nothing or one copy of their output, from a fresh dispatch, in every interleaving of any number of instances |
| Redelivery.RedispatchSafeExactly | app/modules/runs/service.py:1197-1210 | from any state a second dispatch of a failed run keeps one copy of the new output iff no instance is between its insert and its mark and none is computing on inputs with another output |
| Redelivery.RedispatchSameInputs | app/modules/runs/service.py:1197-1210 | with unchanged inputs it keeps one copy iff no instance is between its insert and its mark |
| Redelivery.StaleRowsStand | app/modules/runs/service.py:768-788 | for any two outputs a run exists where files are replaced, the run is dispatched again, and the entry ends complete over the old output |
| LateHeaders.CompleteMeansDoneExactly | app/tasks/compute_tasks.py:395-411 | with further header copies alive, complete means four complete entries in every continuation that raises nothing iff both header entries are complete now and no copy is between its check and its mark or about to mark an error |
| LateHeaders.CompleteStaysExactly | app/tasks/compute_tasks.py:395-411 | a completed run stays complete with four complete entries under header redeliveries that raise nothing iff no copy is between its check and its mark or about to mark an error |
| LateHeaders.CompleteOverRunning | app/tasks/compute_tasks.py:143-147 | from any dispatch a run exists that completes while the PD, or the LGD, entry reads running |
| LateHeaders.CompletedRunFails | app/tasks/compute_tasks.py:143-147 | from any dispatch a run exists that completes, is turned back to running by a header copy and ends failed by recovery with all four entries complete |
| Outbox.EmailOutbox.SelectPending | app/tasks/cleanup_tasks.py:257-265 | exactly the first 100 pending rows are selected, in creation order |
| Outbox.EmailOutbox.ProcessOutbox | app/tasks/cleanup_tasks.py:256-332 | one poll updates exactly the selected rows; found = dispatched + dead-lettered + skipped, each counter counting its rows |
| Outbox.HistorySound | app/tasks/cleanup_tasks.py:274-318 | over every history a pending row has at most 4 attempts, terminal rows never change and dispatched means enqueued |
| Outbox.ExactlyOnceExactly | app/tasks/cleanup_tasks.py:287-320 | over every history each dispatched row was enqueued exactly once and no other row at all iff no poll was lost after it had enqueued something |
| Outbox.OutboxDrains | app/tasks/cleanup_tasks.py:256-320 | N pending rows are terminal after 5 polls per started hundred, whatever the broker answers |
| Validators.CapKeepsVerdict | app/engine/validators/base.py:30-41 | the cap keeps a verdict iff it shows a blocking issue or there is none; block-only lists always keep it |
| Validators.ValidationResult.Add | app/engine/validators/base.py:38-41 | an issue is appended unless 100 are held |
| Validators.ValidationResult.CheckRequiredColumns | app/engine/validators/base.py:88-111 | the result is the capped extension by the missing columns; true iff none is missing |
| Validators.ValidationResult.CheckEnumValues | app/engine/validators/base.py:114-134 | the result is the capped extension by the rows outside the allowed set |
| Validators.ValidationResult.CheckNumericRange | app/engine/validators/base.py:137-168 | the result is the capped extension by the rows that do not parse or leave the range |
| Validators.ValidationResult.CheckNonEmptyStrings | app/engine/validators/base.py:171-189 | the result is the capped extension by the empty cells |
| Validators.ValidationResult.CheckValidDates | app/engine/validators/base.py:192-213 | the result is the capped extension by the unparsable dates; parsed iff the column exists and room was left |
| Validators.ValidationResult.CheckUniqueness | app/engine/validators/base.py:216-237 | the result is the capped extension by every row of a repeated key |
| Validators.ValidationResult.CheckEnumValuesGrouped | app/engine/validators/base.py:262-288 | the result is the capped extension by one issue per distinct bad value, in value order |
| UploadValidators.ValidatePd | app/engine/validators/pd_validator.py:29-119 | the issues are exactly the first 100 of the uncapped list |
| UploadValidators.ValidateLgd | app/engine/validators/lgd_validator.py:32-132 | the issues are exactly the first 100 of the uncapped list, collateral break included |
| UploadValidators.ValidateEad | app/engine/validators/ead_validator.py:34-228 | the issues are exactly the first 100 of the uncapped list, EC-03, EC-04, EC-05 and EC-09 included |
| ValidationVerdict.PdVerdict | app/engine/validators/pd_validator.py:29-119 | a PD sheet is valid, capped or not, iff it meets the stated conditions on its rows |
| ValidationVerdict.LgdVerdict | app/engine/validators/lgd_validator.py:32-132 | an LGD sheet is valid, capped or not, iff it meets the stated conditions on its rows and columns |
| ValidationVerdict.EadVerdict | app/engine/validators/ead_validator.py:34-228 | an EAD sheet is valid, capped or not, iff it meets the stated conditions on its rows |
| ValidationMeaning.CapMeans | app/engine/validators/base.py:26-41 | the cap keeps the first 100 issues |
| ValidationMeaning.EnumIssuesMean | app/engine/validators/base.py:114-134 | an issue for exactly the present cells outside the set, at sheet row i + 2 |
| ValidationMeaning.RangeIssuesMean | app/engine/validators/base.py:137-168 | an issue for exactly the cells that do not parse or leave the range, empty ones unless allowed |
| ValidationMeaning.DuplicateIssuesMean | app/engine/validators/base.py:216-237 | an issue for exactly the rows that agree with another row on every key column |
| ValidationMeaning.GroupedIssuesMean | app/engine/validators/base.py:262-288 | one issue for exactly the values outside the set, with the number of rows that have each |
| ValidationMeaning.ResolveMeans | app/engine/validators/ead_validator.py:26-31 | an alias resolves to the first of its names that is a column |
| CrossFileValidator.BuildEirByLoan | app/engine/validators/cross_file_validator.py:45-58 | the dict holds exactly the loans some row gives a parsable rate, each with the rate of its last such row |
| CrossFileValidator.ValidateCrossFiles | app/engine/validators/cross_file_validator.py:81-147 | blocks iff an EAD loan is missing from LGD or an EAD segment from PD; warns iff a loan lacks PD history or its last LGD and EAD rates differ by more than the tolerance |
| CrossFileValidator.SegmentCovered | app/engine/pd_engine.py:95-110 | compute_pd covers a segment iff the first row of some key carries it |
| CrossFileValidator.CleanFilesServeEad | app/tasks/compute_tasks.py:424-431 | with clean files every EAD loan has its LGD result, and EC-08 is raised iff a segment in use lies wholly outside periods 1..299 or is carried by no kept row of the files used; never the latter when all files are used with unique keys |
| CrossFileValidator.CheckedSegmentLost | app/modules/runs/service.py:1041-1050 | a segment only in a second, uncombined PD file, or only on a repeated key, passes the check and is not covered |

## Left out

- Floating-point rounding, NaN propagation and database numeric precision: all arithmetic is exact; `npf.pmt` and `matrix_power` are given by their formulas.
- Column aliases in the engines, string trimming and pandas type coercion: tables are sequences of records with resolved columns; the validators see each cell's stripped text, number and date as given.
- Row order of the aggregates: PD, LGD and EAD rows are in their final order, which the database is taken to keep; the keys of the ECL summary appear in order of first occurrence, and every total is keyed.
- Negative effective interest rates: the validators confine rates to [0,1], and the instalment and discount formulas are stated for rates of at least 0.
- StoredTotals.TotalsAgainstInput: for portfolios whose Loan IDs are each on one input row; where both falling and rising loans are present the order of the totals depends on the amounts.
- StoredTotals.CoverageByLoans: same restriction.
- EclSummary.GroupingConserves: rows with empty group keys, which pandas drops, are not modelled.
- RunPipeline.PipelineSafe: covers one dispatch with one live instance of each task and inputs that do not change while it is active; changing inputs of a header stage are in Redelivery, further live header copies in LateHeaders.
- RunPipeline.FailedStaysExactly: same: one live instance of each task, no new dispatch.
- LateHeaders.CompleteMeansDoneExactly: continuations in which nothing raises and the callback is delivered once.
- CallbackRedispatch.RedispatchInsertsOnceExactly: about the rows of the table; what the engine gives on the stage tables is taken as fixed after the dispatch.
- RunRecord.RunRow.RunPipeline: takes the two header stages one after the other; their interleavings are in RunPipeline.
- RunPipeline.RecoveryFails: takes idle time as an input; clocks are not modelled.
- Redelivery.RedeliveryIdempotent: treats the delete-and-insert transaction as one indivisible step; two such transactions interleaving inside the database are not modelled.
- Input changes in the one-dispatch machine: the status guards of upload_file and delete_upload keep uploads unchanged only until the run reads failed, which a header failure or recovery can bring about mid-dispatch, and the collateral settings are not guarded at all; RunPipeline takes the inputs as fixed, Redelivery does not. Requests are atomic steps.
- Outbox.OutboxDrains: assumes no rows arrive between polls and creation times are distinct; row locks of concurrent pollers are not modelled.
- Issue wording beyond titles, quoted values and places, and the sample lists of the cross-file messages.
- A bound on a loan's summed ECL: marginal PDs are conditional hazards used as weights, so the sum over months has no such bound.
- Workbooks, HTTP routers, storage, notifications, audit rows, authentication and tenant administration: they take no part in the results modelled here.
