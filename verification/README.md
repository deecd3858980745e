# SmallStack: verified models

A Dafny model of the parts of SmallStack whose correctness rests on arithmetic, loops or races, with
proofs over all inputs, all runs or all interleavings. `dafny verify dfyconfig.toml` checks everything.

**Heartbeats.** Monitors record one beat a minute. A pruner deletes beats past retention and folds them,
a few at a time, into one summary row per monitor and day; maintenance windows are cut out of both sides
of every score; readers add the folded and the raw half. `HeartbeatStore` holds the tables in an object
and runs the source's loops; `Heartbeats` and `Uptime` say as functions what each operation does;
`HeartbeatRuns` compares a run of arbitrary length with the same run without pruning, and
`HeartbeatTheorems`, `HeartbeatWindows`, `CrossingWindows`, `HeartbeatMeans`, `ExpectedChecks` and
`HeartbeatScores` draw the conclusions. `MaintenanceWindows` is the interval merge underneath, `Incidents` the feed that collapses failures into outages.

**Approvals.** `Approvals` has the rows, the permissions and the sweeps, `ApprovalStore` the service
calls on a table, `LazyExpiry` the comparison with immediate expiry. `ApprovalRaces` interleaves the
single database statements of any number of workers, each with a snapshot it read earlier; `ApprovalAlone`
shows that one worker left alone does what the service call does.

**Datasets.** `Datasets` derives top-N buckets, charts them, opens them and pages through them; `DatasetBands` is
about numeric bands.

**One-shot credentials.** `OAuthCodes` and `LoginCodes` interleave the statements of concurrent
requests; `OAuthCodeStore` and `LoginCodeStore` are the same requests as methods on a table.

**Text.** `Chunking` splits help pages into passages, `Usernames` finds a free username.

Instants are whole microseconds, the resolution of the source's datetimes, in UTC. Percentages are exact
quotients rounded half to even, counted in hundredths (thousandths in summary rows) of a percent. A
conditional UPDATE is one atomic step. The state machines name their history (who claimed a row, how
often a callback ran, which keys were sent) so that the theorems can speak about it; no step reads it.

Where the code does not do what its documentation says, the model follows the code:

- The prorated expectation is meant to leave a flawless day at 100, but that needs windows on minute
  marks (apps/heartbeat/services.py:187-193). Short unaligned windows can hide more minutes than they take off
  the expectation (`ExpectedChecks.FlawlessDayBelowHundred`);
  `ExpectedChecks.FlawlessReadsHundredIff` says exactly when a flawless day reads 100.
- A window that reaches past the oldest raw beat (apps/heartbeat/status.py:185-199) reads no row of the date that
  beat falls on, though that date is half folded (`CrossingWindows.FoldingDateIsNotRead`);
  `CrossingWindows.CrossingWindowBalance` says exactly what is then missing, `CrossingWindows.OverallUptimeIff` and
  `CrossingWindows.RollingUptimeBalance` what that means for the windows the pages show.
- Chart and drilldown reconcile "by construction" (apps/datasets/core.py:421-423) only for unique keys;
  `Datasets.DrilldownReconcilesIff` gives the exact condition for the rest.
- `rows` clamps every limit to 500, so advancing by a larger limit skips rows (`Datasets.PagingCompleteIff`).
- Lazy expiry is not final: an overdue request that no sweep has reached can still be withdrawn
  (`LazyExpiry.StepAlikeIff`, `LazyExpiry.OverdueCancelDiffers`).
- An authorization code checked in time but claimed late can deliver the key of a deactivated token
  (`OAuthCodes.LateClaimDeliversDeadKey`); `OAuthCodes.DeliveredKeyLiveIff` says at which ages it can.

## Model

| member | source | states |
|---|---|---|
| MaintenanceWindows.GetExcludedRanges | apps/heartbeat/models.py:146-168 | For windows in any order the merged ranges are sorted, strictly separated, inside the query range, and cover exactly the clipped excluded windows, touching ones joined |
| MaintenanceWindows.MergeIsUnique | apps/heartbeat/models.py:160-168 | Two canonical range lists that cover the same points are equal, so the merge depends neither on row order nor on ties on start |
| MaintenanceWindows.MergeMembership | apps/heartbeat/models.py:146-168 | An instant lies in a merged range iff it lies in the query range and in some SLA-excluded window of the monitor |
| MaintenanceWindows.SumIsExcludedTime | apps/heartbeat/models.py:170-173 | The sum of the merged lengths is the exact size of the union of the windows inside the range |
| MaintenanceWindows.GetExcludedTime | apps/heartbeat/models.py:170-173 | Returns that exact size, computed range by range |
| MaintenanceWindows.ExcludedTimeSplits | apps/heartbeat/models.py:170-173 | The excluded time is additive when the query range is split at any point |
| Heartbeats.CloseEndsEverythingActive | apps/heartbeat/maintenance.py:79-93 | After closing, the monitor has no active window: those that were now end at the moment, past ones stay as they were, scheduled ones go with `delete_future` and stay without it; other monitors keep theirs, and no instant before the moment changed its classification |
| Heartbeats.OpenedFor | apps/heartbeat/maintenance.py:53-76 | A window opened for some minutes puts that monitor, and no other, in maintenance from now until exactly so many minutes later, excluded from the SLA iff it says so |
| Heartbeats.RoundingIsNearest | apps/heartbeat/services.py:254-257 | The rounded quotient is the nearest whole number, of two the even one |
| Heartbeats.NearestIsUnique | apps/heartbeat/services.py:254-257 | There is only one such number, so the scores below are pinned by what they are nearest to |
| Heartbeats.PercentIsNearest | apps/heartbeat/status.py:246-250 | A share of the denominator is shown as the nearest of the units asked for, and as all of them from the whole on |
| HeartbeatStore.Tables.RunMonitorCheck | apps/heartbeat/services.py:21-57 | One beat per monitor and whole minute, overwritten in place; a probe that raises is a failure of no duration with the start of its message for a note, a note is at most 255 characters and a success has none; the beat is marked iff the minute lies in a window; the epoch row appears with the first beat; nothing else changes |
| HeartbeatStore.Tables.EnsureEpochRow | apps/heartbeat/models.py:104-120 | A missing epoch row starts at the monitor's oldest surviving beat; an existing one, and every other monitor's, stays |
| HeartbeatStore.Tables.ExpectedIntervalsForDay | apps/heartbeat/services.py:136-162 | Whole intervals in the monitored, non-excluded part of the day, with the excluded time as the exact union of the windows |
| HeartbeatStore.Tables.CountMasked | apps/heartbeat/services.py:215-228 | Counting range by range counts each beat of the batch inside an excluded window exactly once, passing ones apart |
| HeartbeatStore.NextRange | apps/heartbeat/services.py:222-228 | Separated ranges hold different beats, so per-range counts add up |
| HeartbeatStore.SplitAtWindows | apps/heartbeat/services.py:230-231 | Taking the masked beats out of the plain ok and fail counts leaves exactly the scored ones |
| HeartbeatStore.Tables.FoldDay | apps/heartbeat/services.py:208-258 | The row written for a touched day holds the prior counts plus the batch's scored and masked beats and a freshly prorated expectation; its mean response time weighs the old mean by the checks it stands for and the batch's by its scored ones |
| HeartbeatStore.Tables.WriteDailySummaries | apps/heartbeat/services.py:174-258 | Every touched day's row and mean accumulate their share of the batch and every other row stays, in whatever order the days are visited |
| HeartbeatStore.MeanStaysBetween | apps/heartbeat/services.py:244-252 | When a batch's response times of a date and the date's mean so far lie within bounds, so does its mean after folding, however it is rounded and however much of the batch is excluded |
| HeartbeatMeans.MeansInEveryRun | apps/heartbeat/services.py:174-258 | In every run, in however many batches a date was folded, the mean of a row with a scored check lies between any bounds of the response times of that date's deleted beats; any other mean is 0 |
| HeartbeatMeans.MeansDrift | apps/heartbeat/services.py:244-252 | In every run, a row's mean times the checks it stands for is the sum of the batches' mean response times weighed by their scored checks, up to half a millisecond a check for each fold of the date |
| HeartbeatMeans.MeansOfUnexcludedDates | apps/heartbeat/services.py:244-252 | In every run, for a date none of whose deleted beats was excluded, the mean is that of their response times, up to half a millisecond for each fold of the date |
| HeartbeatStore.Tables.PruneOldHeartbeats | apps/heartbeat/services.py:102-121 | Exactly the beats before the cutoff are folded and deleted; the count returned is theirs |
| HeartbeatStore.Tables.OpenWindow | apps/heartbeat/maintenance.py:25-50 | A window is added iff it ends after it starts; nothing else changes |
| HeartbeatStore.Tables.OpenWindowFor | apps/heartbeat/maintenance.py:53-76 | A window of that many minutes from now is added iff the number is positive |
| HeartbeatStore.Tables.CloseWindows | apps/heartbeat/maintenance.py:79-93 | Active windows end now, with `delete_future` later ones go; both counts returned are exact |
| HeartbeatStore.Tables.NonMaintenanceCounts | apps/heartbeat/status.py:159-177 | Excluding the merged ranges one by one leaves exactly the beats outside every excluded window |
| HeartbeatStore.Tables.DailyUptimeMap | apps/heartbeat/status.py:466-534 | One entry per date of the span, absent iff the day has no data or nothing to be divided by, and otherwise the hundredth of a percent nearest to the share that passed: today of the checks seen, on any other day of those seen or expected, whichever are more |
| HeartbeatScores.DayScore | apps/heartbeat/status.py:503-531 | In every run the entry of a day is that share of the never-pruned run's scored checks: today's is absent iff none was seen, another day's iff it has no beat or neither check nor expectation |
| HeartbeatScores.RowScore | apps/heartbeat/services.py:254-258 | In every run a row's uptime column is the nearest thousandth of a percent to its passing checks among those it scored or expected, whichever are more, and 0 if there are none |
| HeartbeatScores.WindowScore | apps/heartbeat/status.py:246-251 | In every run a window's uptime is the nearest hundredth of a percent to the checks it counts among those it expects, 100 from all of them on, and absent iff it expects none |
| HeartbeatScores.RecentWindowScore | apps/heartbeat/status.py:234-251 | In every run a window from the oldest raw beat on counts the never-pruned passing checks outside every excluded window, expects one for each whole interval of its non-excluded time, and is covered |
| HeartbeatScores.RollingWindow | apps/heartbeat/status.py:254-260 | So many times 24 hours reach back that many calendar days to the same time of day, unless the monitor's history starts later: then to there |
| HeartbeatStore.Tables.UptimeOverWindow | apps/heartbeat/status.py:185-251 | The blended uptime and coverage, computed by loops over rows and beats, equals the closed form the window theorems are about |
| HeartbeatStore.Tables.CalcUptime | apps/heartbeat/status.py:254-260 | The uptime of the last hours is the blended one of the window that starts then, or at the epoch if that is later; without an epoch row the oldest surviving beat stands in |
| HeartbeatStore.Tables.SinceEpoch | apps/heartbeat/status.py:263-281 | Overall uptime and coverage are those of the window from the epoch, and absent iff the monitor has neither epoch row nor beat |
| HeartbeatRuns.FoldTwice | apps/heartbeat/services.py:235-258 | Folding a second batch into a row gives the row that folding both batches at once gives, uptime included |
| HeartbeatRuns.FoldInBatches | apps/heartbeat/services.py:174-193 | Folding in two batches gives the whole summary table that folding once gives |
| HeartbeatRuns.SummaryFrame | apps/heartbeat/services.py:102-121 | Folding beats more than a day old gives the same rows whenever it happens, whatever windows and epoch rows were added since |
| HeartbeatRuns.RecordedEpochsMatch | apps/heartbeat/models.py:104-120 | The epoch row is created from the very first beat, so earlier pruning cannot move it |
| HeartbeatRuns.StepKeeps | apps/heartbeat/services.py:102-121 | Every tick, check, prune and window command keeps a pruned run in agreement with its never-pruned twin |
| HeartbeatRuns.RunKeeps | apps/heartbeat/services.py:174-193 | Agreement with the never-pruned twin holds over whole runs |
| HeartbeatTheorems.Conservation | apps/heartbeat/services.py:102-258 | In every run, for every monitor and day, folded plus raw passing, failing and excluded beats equal those of the never-pruned run, and no folded count is negative |
| HeartbeatTheorems.FoldingIsInvisible | apps/heartbeat/status.py:489-533 | In every run each day's uptime equals the one of the never-pruned run: before, while and after it crosses the retention boundary |
| HeartbeatTheorems.CompletedDayIsSettled | apps/heartbeat/status.py:522-531 | Once a day is over, no later check, prune, window command or tick changes its uptime |
| HeartbeatWindows.WindowIsWellFormed | apps/heartbeat/status.py:185-251 | In every reachable state the numerator counts distinct recorded beats, none both through a daily row and raw; uptime is absent or within 0..100 and coverage within 0..1 |
| HeartbeatWindows.RowsAddUp | apps/heartbeat/status.py:225-232 | Summing daily rows over dates counts each deleted passing beat of those days once |
| HeartbeatWindows.RawCounts | apps/heartbeat/status.py:234-244 | The raw part counts every passing non-excluded beat of its span, also when the span is empty or wholly excluded |
| HeartbeatWindows.RecentWindowIgnoresPruning | apps/heartbeat/status.py:222-244 | A window that starts no earlier than the oldest raw beat reads no summary row and is scored as if nothing had ever been pruned |
| CrossingWindows.WindowNumeratorIff | apps/heartbeat/status.py:213-244 | In every run, for every window: the passing checks counted are the never-pruned ones, less the window's deleted passing beats on the date of the oldest raw beat, plus those of its first date before it starts; it counts the same beats iff there are neither |
| CrossingWindows.RowsExpect | apps/heartbeat/status.py:225-232 | On minute marks the rows of consecutive dates expect exactly their recordable minutes, bar the dates that have no row |
| CrossingWindows.CrossingWindowBalance | apps/heartbeat/status.py:185-251 | In every run, for every start before the oldest raw beat, on a minute mark or not: the exact difference of both sides of the score from the never-pruned one, as the first date's recordable minutes before the window, those of the window before that beat on its date, those of dates without a row, and a carry of at most one check where the window's ends cut a minute; both sides agree iff these make up for one another, and then so does the uptime |
| CrossingWindows.DatedWindowIff | apps/heartbeat/status.py:185-251 | In every run, for a window from a midnight, from the epoch or before it: the never-pruned score has more passing checks by the row of the oldest raw beat's date and more expected ones by the recordable minutes before that beat on its date or on dates without a row; both sides agree iff there are no such minutes |
| CrossingWindows.OverallUptimeIff | apps/heartbeat/status.py:263-268 | In every run the window since the epoch is the never-pruned one until the monitor's first beat is deleted, and from then on differs by exactly those checks, and agrees iff there are no such minutes |
| CrossingWindows.RollingUptimeBalance | apps/heartbeat/status.py:254-260 | In every run the window of the last hours starts where the never-pruned one's does; it is scored like it while it starts no earlier than the oldest raw beat, and differs by exactly the terms of the balance otherwise |
| CrossingWindows.ExpectedWithinRounding | apps/heartbeat/status.py:213-244 | In every run, for any windows and any interval, the expected checks differ from the never-pruned ones by those of the lost and unrowed time less the early time, up to one interval for each row read and one for either end |
| CrossingWindows.FlawlessWindowReadsHundred | apps/heartbeat/status.py:246-251 | In every run a monitor that passed in every recordable minute since the window's first date reads 100 whatever was pruned, once a check is expected |
| CrossingWindows.CoverageIff | apps/heartbeat/status.py:246-251 | In every run a crossing window is covered like the never-pruned one iff the whole days of the rows it reads reach from its start to the oldest raw beat |
| CrossingWindows.FoldingDateIsNotRead | apps/heartbeat/status.py:222-228 | With the default settings, a run whose window since midnight reads 0.01 and is covered but for a minute, where the never-pruned one reads 0.02 and is wholly covered |
| ExpectedChecks.ExpectedAtMostFullDay | apps/heartbeat/services.py:136-162 | Never more than a full day's worth of checks |
| ExpectedChecks.ExpectedNeverFalls | apps/heartbeat/services.py:155-162 | The expectation of a day never falls while the clock advances |
| ExpectedChecks.ExpectedNearRecordable | apps/heartbeat/services.py:136-162 | With k merged excluded ranges, aligned or not, the expected checks of a completed day and its recordable minutes differ by at most k |
| ExpectedChecks.ExpectedIsRecordable | apps/heartbeat/services.py:136-162 | With windows and epoch on minute marks the two are equal |
| ExpectedChecks.FullMarksIff | apps/heartbeat/status.py:522-531 | In every run, for any windows, a completed day, folded or not, reads 100 iff at least one scored check passed, none failed, and no fewer passed than were expected |
| ExpectedChecks.ReadsHundredIffFlawless | apps/heartbeat/status.py:489-533 | In every run, with the monitor's excluded windows on minute marks, a completed day reads 100 iff it has a recordable minute and each one has a passing beat |
| ExpectedChecks.FlawlessReadsHundredIff | apps/heartbeat/status.py:522-531 | In every run, off the marks too, a flawless completed day reads 100 iff the expectation does not exceed the recordable minutes |
| ExpectedChecks.ShortWindowsOverexpect | apps/heartbeat/services.py:160-162 | Two half-minute windows hide two minutes but one minute of expectation, whatever epoch precedes the day: 1439 expected, 1438 recordable |
| ExpectedChecks.FlawlessDayBelowHundred | apps/heartbeat/status.py:522-531 | A run with a passing check in every minute of a day with those two windows, which reads 99.93 |
| Approvals.CanDecideMeansEligible | apps/approvals/permissions.py:78-104 | Deciding is allowed iff the request is pending, the actor is active, not the requester unless self-approval is on, an assignee or staff as the policy has it, and the hook, if any, agrees without raising |
| Approvals.EffectivePartition | apps/approvals/models.py:54-75 | Each row is in exactly one effective-status set: the one its own `effective_status` names |
| Approvals.SweepIsInvisible | apps/approvals/models.py:54-75 | Expiring any subset of the overdue rows changes no effective-status answer at that instant |
| Approvals.BoundedSweepsDrain | apps/approvals/services.py:299-340 | n sweeps of limit L leave exactly max(0, backlog - n*L) rows overdue, and a drained table equals the one a single unbounded sweep leaves |
| ApprovalStore.Table.Claim | apps/approvals/services.py:168-176 | The row is written iff it was pending, and no other row ever |
| ApprovalStore.Table.Finish | apps/approvals/services.py:195-223 | Callback and signal run once, and the re-save changes nothing but the callback error |
| ApprovalStore.Table.Decide | apps/approvals/services.py:226-258 | For any stale snapshot: an overdue request is expired, an eligible decision on a row still pending leaves it approved if that was asked and rejected if not, with the actor, the instant and the note, request and deadline untouched, and anything else leaves the table alone; callback and signal run iff the row was won |
| ApprovalStore.Table.Cancel | apps/approvals/services.py:269-283 | The active requester or active staff leave a still-pending row canceled, overdue or not, with the actor, the instant and the note; otherwise nothing changes |
| ApprovalStore.Table.MarkExpired | apps/approvals/services.py:299-340 | min(limit, overdue) rows expire with the instant and no decider, none left behind that fell due before one taken; a negative limit means none; `truncated` is exact; callbacks and signals run once per row in that order |
| ApprovalStore.PrefixIsBatch | apps/approvals/services.py:312-323 | A prefix of the backlog in expiry order is a legitimate bounded batch |
| ApprovalAlone.MachineAloneIsDecide | apps/approvals/services.py:226-258 | From every reachable state, a worker of the interleaved machine that holds any snapshot and is left to finish writes and answers what `Decide` does |
| ApprovalAlone.MachineAloneIsCancel | apps/approvals/services.py:269-283 | The same for a withdrawal and `Cancel` |
| ApprovalAlone.MachineAloneIsMarkExpired | apps/approvals/services.py:299-340 | From every state, a sweep of the machine that runs alone over a batch it may pick leaves the table, callbacks and signals of `MarkExpired` |
| LazyExpiry.StepAlikeIff | apps/approvals/services.py:226-283 | A call keeps the lazy table indistinguishable from one that expires requests the instant they fall due iff it does not withdraw an overdue, unswept request |
| LazyExpiry.LazyRefinesEager | apps/approvals/models.py:25-75 | After any run, with sweeps anywhere, every effective-status query answers as under eager expiry iff the run never withdrew an overdue, unswept request |
| LazyExpiry.LazyIsService | apps/approvals/services.py:226-283 | The decisions and withdrawals of such a run are those of `Decide` and `Cancel` |
| LazyExpiry.LazySweepIsService | apps/approvals/services.py:299-340 | Its sweep of a batch that may be picked is that of `MarkExpired` |
| LazyExpiry.OverdueCancelDiffers | apps/approvals/services.py:269-283 | A requester who withdraws an overdue request before any sweep leaves it canceled, where eager expiry has it expired |
| ApprovalRaces.NextKeeps | apps/approvals/services.py:168-283 | Every database statement of every racing worker keeps the invariant and disturbs no settled row |
| ApprovalRaces.ExactlyOnce | apps/approvals/services.py:195-223 | In every interleaving callback and signal run at most once per row, never while it is pending, and exactly once for a settled row when all workers are done |
| ApprovalRaces.DecisionIsFinal | apps/approvals/services.py:168-223 | Once a row leaves pending its status, decider, time, note and winner never change, the winner's own re-save included |
| ApprovalRaces.SeparationOfDuties | apps/approvals/permissions.py:78-104 | In every interleaving an approved row was approved, and a rejected one rejected, by someone an eligibility check had passed: active, other than the requester unless self-approval is on, and assignee or staff, whatever the hook returns; the note is theirs |
| ApprovalRaces.WithdrawnByItsOwn | apps/approvals/permissions.py:107-112 | In every interleaving a canceled row was withdrawn by its active requester or by active staff, with their note |
| ApprovalRaces.ExpiredAndPendingRows | apps/approvals/models.py:143-149 | An expired row has no decider and was not expired before it fell due; a pending row has neither decider nor time nor callback error; neither has a note |
| Datasets.CollectDimensionValues | apps/datasets/buckets.py:32-41 | Collects the values claimed by the categorical buckets, in order |
| Datasets.ClaimedIff | apps/datasets/buckets.py:32-41 | A value is kept from the catch-all iff some sibling bucket claims it |
| Datasets.FirstValues | apps/datasets/buckets.py:91-94 | The distinct values by descending count, then value: the first of them, and everything left out ranks later |
| Datasets.DeriveBuckets | apps/datasets/buckets.py:71-106 | The derived buckets are the top values under the limit, no kept value rarer than a dropped one, with `other` appended iff values overflow |
| Datasets.HowManyBuckets | apps/datasets/buckets.py:85-106 | One bucket per distinct value up to the limit, 12 if none is given or it is 0, and one more, the catch-all, iff there are more values |
| Datasets.TopIsUnique | apps/datasets/buckets.py:91-95 | The kept list is determined by the counts of the unnarrowed base alone |
| Datasets.ValuesOfIsOrderFree | apps/datasets/buckets.py:91-91 | Rearranging the base rows leaves the counts of its values as they were |
| Datasets.DerivedKeysStable | apps/datasets/buckets.py:79-84 | Derived buckets are a function of the base counts, and with distinct string forms no two share a key, `other` included |
| Datasets.DerivedFromAnyOrder | apps/datasets/buckets.py:79-95 | Buckets derived from two arrangements of the same base rows are equal |
| Datasets.ExactlyOneBucket | apps/datasets/buckets.py:44-63 | With disjoint categorical claims and an `other` bucket each value falls in exactly one bucket |
| Datasets.BelongsIff | apps/datasets/buckets.py:44-63 | A single value takes in itself, a group its members, a band what is not below its lower bound and, if it has an upper one, below that, the catch-all what no sibling names |
| DatasetBands.ExactlyOneBand | apps/datasets/buckets.py:60-63 | Of consecutive bands exactly one takes in a value from the first lower bound on and below the last upper one, if there is one, and none any other |
| DatasetBands.BandChartSums | apps/datasets/core.py:623-667 | A chart over consecutive bands adds up to the rows between those bounds |
| Datasets.AutoSeriesConserves | apps/datasets/core.py:630-637 | Under every filter each row falls in exactly one derived bucket and the counts sum to the filtered rows |
| Datasets.BucketedSeries | apps/datasets/core.py:623-667 | One point per bucket in order, drawing exactly the rows that belong to the last bucket of its key, or the error for an unknown field |
| Datasets.ScopedRows | apps/datasets/core.py:413-449 | Opening a key returns exactly the rows that belong to its first bucket, each as often as it occurs, and is refused iff field or key is unknown |
| Datasets.WhereSplits | apps/datasets/core.py:413-449 | Filtering keeps the order of the rows |
| Datasets.DrilldownReconciles | apps/datasets/core.py:413-449 | With unique keys the drilldown of any bucket, of any shape, under any filter, opens only rows of that bucket and as many as the chart shows |
| Datasets.AutoChartReconciles | apps/datasets/core.py:421-423 | An automatic chart sums to the filtered rows and every segment opens exactly as many rows as it shows |
| Datasets.DrilldownReconcilesIff | apps/datasets/core.py:654-656 | With repeated keys, chart and drilldown of a key agree on all rows iff the first and the last bucket declared under it take in the same values |
| Datasets.RepeatedKeyDisagrees | apps/datasets/core.py:654-656 | Two single-value buckets under one key and two rows of the first value: the chart draws 0, the drilldown opens 2 |
| Datasets.PagesTile | apps/datasets/core.py:475-508 | Consecutive pages of a limit up to 500 tile the rows: a prefix without gap or repeat |
| Datasets.PageSizes | apps/datasets/core.py:485-492 | A page asked for without a size has 50 rows, a negative size means one, and none is above 500 |
| Datasets.PageHolds | apps/datasets/core.py:475-508 | A page holds the rows from its offset on, as many as its size allows; without a limit all of them |
| Datasets.PagingCompleteIff | apps/datasets/core.py:485-492 | A caller advancing by its own limit sees every row in the end iff the limit is at most 500 or the rows are |
| Chunking.Headings | apps/help/chunking.py:20-39 | Heading matches come in order, without overlap, inside the text, at levels 1 to 3 |
| Chunking.HeadingsFound | apps/help/chunking.py:20-39 | A match is found at a position iff the pattern matches there and the position is not inside another match, and every match found is the pattern's own |
| Chunking.HeadingIs | apps/help/chunking.py:20-20 | A heading is one to three marks at the start of a line and a blank after them; its level is how many, its title runs from the first character that is not blank to the end of that line |
| Chunking.TitleIs | apps/help/chunking.py:53-53 | A title is its line without the blanks around it |
| Chunking.EnclosingMembers | apps/help/chunking.py:51-57 | A heading is in the trail iff no later heading up to the current one is at its level or above |
| Chunking.PoppingIsEnclosing | apps/help/chunking.py:54-56 | Popping the stack leaves exactly the headings that still enclose |
| Chunking.TrailClimbs | apps/help/chunking.py:51-57 | Levels climb strictly along a trail, which ends in the current heading and has at most three entries |
| Chunking.CitationIs | apps/help/chunking.py:57-57 | A citation names the enclosing headings from the outermost in, one to three of them, with a mark between them |
| Chunking.EveryPositionPlaced | apps/help/chunking.py:59-61 | Every position of the text is in a heading line or in a section |
| Chunking.Window | apps/help/chunking.py:66-79 | The passages of a body are the whole body if it fits, otherwise the windows at every step-th position that are not blank: all of those, in order, and nothing else |
| Chunking.ChunkMarkdown | apps/help/chunking.py:23-63 | Every section, the text before the first heading included, gets exactly the windows of its stripped body, in order, cited by the headings that enclose it |
| Chunking.PassagesFaithful | apps/help/chunking.py:66-79 | Every passage is a non-empty verbatim stretch of one section, at most `max_chars` long, under that section's trail |
| Chunking.EveryCharacterHeld | apps/help/chunking.py:75-79 | With `max_chars` at least 1 and no negative overlap, every non-blank character outside heading lines is in some passage of its own section |
| Chunking.NeighboursOverlap | apps/help/chunking.py:75-79 | Windows one step apart repeat exactly the last `overlap` characters of the first |
| Chunking.ChunkingIsUnique | apps/help/chunking.py:23-63 | These properties determine the passages: two lists that have them are equal |
| Incidents.Collapse | apps/heartbeat/feeds.py:60-77 | The loop cuts the failed beats into maximal runs, one incident each, with its first and last beat, its count and its last non-empty note |
| Incidents.RecentIncidents | apps/heartbeat/feeds.py:46-80 | The `limit` newest of those incidents: a prefix of all of them arranged by start, newest first, those that started together in monitor order |
| Incidents.SortedIsUnique | apps/heartbeat/feeds.py:79-80 | Newest first with ties in their own order leaves one arrangement |
| Incidents.CollapseIsUnique | apps/heartbeat/feeds.py:60-77 | Maximality leaves no choice of where to cut: the incidents are a function of the failed beats |
| Incidents.BeatsConserved | apps/heartbeat/feeds.py:60-77 | The beat counts of the incidents add up to the failed beats |
| Incidents.NeighboursInside | apps/heartbeat/feeds.py:64-70 | Neighbouring beats of an incident are of one monitor and at most five minutes apart |
| Incidents.IncidentsApart | apps/heartbeat/feeds.py:64-77 | Two incidents of one monitor are more than five minutes apart, so monitor and start identify an incident |
| Incidents.StartsExactly | apps/heartbeat/feeds.py:62-77 | An incident starts at a failed beat iff the monitor has no failed beat in the five minutes before: a property of the set of beats alone |
| Incidents.LaterFailuresKeepStarts | apps/heartbeat/feeds.py:62-77 | With the lookback start fixed, failures recorded later never move the start of an incident |
| OAuthCodes.NextKeeps | apps/mcp/oauth_views.py:337-403 | Every statement of every token request and sweep keeps the invariant; rows and histories only move forward |
| OAuthCodes.RedeemedAtMostOnce | apps/mcp/oauth_views.py:376-403 | In every interleaving at most one answer per code carries a key, and it is the code's own; a used row stores none; with all workers done a used code was answered exactly once (section 4.1.2 of RFC 6749) |
| OAuthCodes.UseIsFinal | apps/mcp/oauth_views.py:380-382 | Once set, `used_at` and the claimant never change |
| OAuthCodes.KeysGoToTheEntitled | apps/mcp/oauth_views.py:342-372 | In every interleaving a key that went out went to a request whose verifier's digest is the code's challenge, which is not empty, and whose redirect URI, if it gave one, is the code's |
| OAuthCodes.ClaimAlwaysAnswers | apps/mcp/oauth_views.py:388-391 | A request that wins its claim holds the code's key, so the branch for an already revealed key is never taken |
| OAuthCodes.TokensOfCodes | apps/mcp/models.py:42-68 | A code claimed within its life has a live token, a code stripped unredeemed a dead one; no token dies within the code's life; with all workers done the dead tokens are those some sweep listed |
| OAuthCodes.LateClaimDeliversDeadKey | apps/mcp/oauth_views.py:380-382 | For every life and every later age, a run in which a request that passed its checks in time claims at that age and delivers the key of a token a sweep deactivated meanwhile |
| OAuthCodes.DeliveredKeyLiveIff | apps/mcp/oauth_views.py:358-382 | Every finished run that claims a code at a given age leaves its token live iff that age is within the code's life |
| OAuthCodeStore.Table.Token | apps/mcp/oauth_views.py:329-403 | For one request: a key is issued iff the code exists, is unused, within its life and still holds one, the redirect URI does not contradict it and the proof is its challenge; every refusal is the first check that fails; and the whole new table |
| OAuthCodeStore.Table.ExpireUnredeemed | apps/mcp/models.py:42-68 | The tokens of exactly the stale codes die and only their keys go; none is stale afterwards; the count is theirs |
| OAuthCodeStore.MachineAloneIsToken | apps/mcp/oauth_views.py:329-403 | From every reachable state, a request of the interleaved machine that runs alone answers and writes what `Token` does, whether the code is unknown, used, expired, wrongly presented or good |
| OAuthCodeStore.MachineAloneIsExpiry | apps/mcp/models.py:42-68 | From every state, a sweep of the machine that runs alone leaves what `ExpireUnredeemed` leaves |
| LoginCodes.NextKeeps | apps/accounts/views.py:250-269 | Every statement of every verify request keeps the invariant |
| LoginCodes.GuessBound | apps/accounts/views.py:257-264 | In every interleaving the codes checked against one `LoginCode` never exceed its attempts, which never exceed MAX_ATTEMPTS |
| LoginCodes.OneLogin | apps/accounts/views.py:263-269 | At most one request logs in with a code, as its owner and with the right code; with all requests done a code is consumed iff somebody logged in with it |
| LoginCodes.NothingAfterExpiry | apps/accounts/views.py:257-264 | In every interleaving every code checked and every login belongs to a request that spent its attempt within the life the code was issued with |
| LoginCodes.NoGuessOnceShut | apps/accounts/views.py:257-262 | After a code is consumed or out of attempts, only requests that had already spent an attempt can still have a code checked |
| LoginCodes.AloneSignsInIff | apps/accounts/views.py:250-269 | A request running alone against the newest live code is signed in iff it submits the right code, and costs one attempt either way |
| LoginCodeStore.Table.Newest | apps/accounts/views.py:255-255 | The user's latest unconsumed code, or none iff there is none |
| LoginCodeStore.Table.Verify | apps/accounts/views.py:250-272 | The user's latest unconsumed code decides: with fewer than five attempts and before it expires, it takes an attempt, and signs in and is consumed iff the guess is right; otherwise nothing happens |
| LoginCodeStore.MachineAloneIsVerify | apps/accounts/views.py:250-269 | From every reachable state the interleaved machine left to one request answers and writes what the method does: with a live code, with one out of time or attempts, and with none |
| Usernames.CandidatesDiffer | apps/accounts/emails.py:106-109 | Counters with equally many digits give different candidates however the base is truncated |
| Usernames.FreeAmong | apps/accounts/emails.py:106-109 | More counters of one digit length than names in use leave a free candidate |
| Usernames.LocalPartIs | apps/accounts/emails.py:102-102 | The local part is what precedes the first at sign |
| Usernames.BaseIs | apps/accounts/emails.py:102-103 | The base is what is usable of the stripped, lower-case local part, or `user` if that is nothing |
| Usernames.KeptCounts | apps/accounts/emails.py:103-103 | Letters, digits, dots, underscores and hyphens stay, as often as they occur, and nothing else |
| Usernames.UniqueUsername | apps/accounts/emails.py:97-110 | For every finite set of names in use the loop ends, with the first free of: the base cut to 150 characters, and for each number from 2 on its decimal numeral after as much of the base as leaves room |
| Usernames.FitsIff | apps/accounts/emails.py:104-110 | The name fits 150 characters iff some candidate numbered below 10^150 is free |
| Usernames.FitsInSmallTables | apps/accounts/emails.py:104-110 | Fewer than 9 * 10^149 names in use always leave one that fits |
| Usernames.TruncationCollides | apps/accounts/emails.py:104-109 | Different counters can give one candidate, so the counter alone does not bound the loop |

## Left out

- HeartbeatTheorems.CompletedDayIsSettled: windows may be scheduled or opened now, but not back-dated; `open_window` with a past start, edited windows and `HeartbeatEpoch.reset` rewrite history and change past scores by design.
- HeartbeatRuns.RunKeeps: retention is at least one day, so that only days already over are folded.
- Heartbeats.Percent: float error is not modelled; the quotient is exact and rounded half to even.
- HeartbeatStore.Tables.UptimeOverWindow: one time zone (UTC); the source takes UTC dates here and local dates elsewhere.
- CrossingWindows.CrossingWindowBalance: exact denominators need a one-minute interval and excluded windows on minute marks; `CrossingWindows.ExpectedWithinRounding` bounds the rest. For a monitor with no raw beat left only `CrossingWindows.WindowNumeratorIff` speaks.
- CrossingWindows.OverallUptimeIff: when both sides of the score differ, their rounded quotients may still agree; no condition is given for that.
- Incidents.Collapse: incidents are values; the source updates the last one through a second reference to the object in the list.
- Incidents.LaterFailuresKeepStarts: the 90-day lookback start moves with the clock; when it passes the first beats of an outage, the start moves with it.
- ApprovalRaces.ExactlyOnce: signals run on commit and callbacks are opaque: they may raise but do not write the decided columns.
- ApprovalRaces.ExpiredAndPendingRows: `expires_at` is fixed when a request is filed; the CRUD form that edits it is not part of this model, nor is deleting rows.
- Datasets.DeriveBuckets: no null values and no labels.
- Datasets.BucketedSeries: bucket keys are used as aggregate aliases (apps/datasets/core.py:654-657); whether Django refuses an alias such as `v:` followed by a value with blanks or quotes is not modelled.
- DatasetBands.ExactlyOneBand: bands that overlap or leave gaps are not covered beyond which values each takes in (`Datasets.BelongsIff`).
- OAuthCodes.TokensOfCodes: tokens also die by revocation, which is not part of this model; `ttl` is not negative.
- LoginCodes.OneLogin: the salted hash is a perfect comparison, and an account keeps its email while a request runs.
- Usernames.UniqueUsername: `strip`, `lower` and `isalnum` are parameters; another request can take the name before it is saved.
- Chunking.ChunkMarkdown: `max_chars` is not negative; `iter_help_markdown` reads files and is left out.
- The pending cap of `request_approval` and the hourly cap on login codes: check-then-act, so they hold only one request at a time.
- `can_view`, `viewable_requests`, expiry precedence in `request_approval`, `_split_range_filters`, SLA colours and states: single-branch facts.
- CSV export of a whole dataset: it passes a limit that `rows` clamps to 500.
- HTTP, templates, email, the ORM, MCP envelopes, navigation and dashboards.
