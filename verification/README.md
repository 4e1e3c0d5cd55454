# Starlink, modelled and verified in Dafny

Starlink is a push platform. An operator publishes a campaign; workers split its audience into sub-task rows
under a lease, claim the rows and publish one message for each user; an aggregator counts finished rows and closes
the campaign by compare-and-swap; gateways take the messages from a Redis stream and send them on one or more
channels under opt-outs, frequency limits and quotas. This project models the state machines behind that and
proves what they keep. `dafny verify dfyconfig.toml` checks everything.

The source's objects are classes whose methods change their fields and are proved against a specification
function; protocols in which several workers interleave are a `Step` datatype with a `Next` function, and theorems
about them range over all sequences of steps. What an operation is for, as against how it goes about it, is said without
its specification function, for every input or every run, by a lemma beside it (as `Verdicts.ClosedAsDecided` beside the
closing of a campaign).

| part | modules |
|---|---|
| campaign rows and counters | Status, TaskRows, Aggregation, Audience, Retry, SetSums |
| campaign protocol over all runs | Protocol, Invariant, Preservation, SplitSteps, CountingSteps, RetryStep (module RetryKeepsInvariant), CallRows, Stragglers, AnyRun, SafeRetries, CampaignRuns, CampaignTheorems, SplitVersions, RetryFaults, LostCounts, SpoiledSums, CampaignFaults, UnreadExits, Fencing, Verdicts, Targets, Claims, Actions |
| campaign objects | TaskRepository, AggregatorService, CampaignService, Splitter, StaticAudience, Worker, Decimal |
| delivery and queue | PushRecords, Gateway, GatewayService, Strategies, ChannelStrategy, StreamQueue |
| rates | RateLimit, BucketExpiry, FrequencyLimit |
| schedules | Text, Calendar, Cron, CronSchedule, CronReach, CronTexts, PosixDays, CampaignSchedule |
| histories | Strings, Consent, ConsentService, PreferenceCache, Templates, Reviews, TemplateService, Rendering, Rbac, RbacService |

## Premises

- One campaign, one template, one consent table and one queue at a time; nothing links two of a kind.
- Each database or Redis call is one step, with these groups taken as one step each: taking the split lease and
  deleting the old rows; one page's shard with the patch of the total; the end of a split while its worker still
  owns it; the error exit of a split; each of Publish, Pause, Resume, Cancel and Retry; and, in the queue, what a
  handler's return does about its entry, that is the delivery count, the dead-letter copy and the acknowledgement (the
  handlers of one entry return one after another). The code does not fence finer interleavings and nothing is claimed
  about them. `ClaimDelivery` and `UpdateRecordDelivery` read and then write; they are one step each.
- Worker names are distinct among live splits. Workers that claim rows keep no state in the protocol: any of them
  may issue any of its calls at any time, which covers every real behaviour and more.
- Clocks are whole seconds, milliseconds or minutes. Readings do not go back where a theorem asks for it, schedules
  are evaluated on a clock with a fixed offset, from year 1 on.
- Parallel channels are tried one after another. They touch different records, so only the order of their outcomes
  depends on that; the gateway's answers for each channel are free.
- Strings are compared and folded as ASCII. JSON columns hold what was written into them.
- Floating point is `real` arithmetic.
- Senders, providers, opt-out lists, the clock, the context and audience providers other than the static one are
  parameters: their answers are free inputs of the steps and methods.
- User and role changes are serial, and so are writes of preferences; reads through the preference cache overlap them
  freely.

## Main results

- Campaigns: `CampaignRuns.NoEarlyFinish`, `CampaignRuns.RetryHeals`, `RetryFaults.RetrySafeIff`, `LostCounts.CountsSafeIff`,
  `SpoiledSums.VerdictSafeIff`, `Verdicts.ClosedAsDecided`, `CampaignTheorems.FinishedOncePerRetry`,
  `CampaignTheorems.SplitPartition`, `Targets.OnlyTargets`, `Targets.NoTargetLeftOut`, `Claims.ClaimsApart`,
  `Actions.TakenOverLate`, `CampaignTheorems.NeverStuck`, `LostCounts.StuckForGood`, `Fencing.SwapSeesNothing`,
  `CampaignFaults.StaleExitFails`, `Retry.RetryRestoresCounting`, `Retry.RetryCounts`, `Splitter.Splitter.Split`,
  `Worker.Worker.ProcessSubTask`.
- Delivery: `Gateway.AtMostOnce`, `Gateway.AcceptedCounted`, `Gateway.AcceptsIff`, `Strategies.FallbackReports`,
  `PushRecords.ReopenedIff`, `PushRecords.SenderHolds`, `StreamQueue.RedisStream.Conservation`,
  `StreamQueue.FailingDiesOnMax`, `StreamQueue.DeliveriesApart`.
- Rates: `RateLimit.AdmissionsBounded`, `RateLimit.SpacedAllAdmitted`, `BucketExpiry.ExpiryShowsIff`,
  `FrequencyLimit.FrequencyCounters.Bounded`.
- Schedules: `CronTexts.WrittenFires`, `PosixDays.RulesAgreeIff`, `CronSchedule.Next`, `CronReach.GivesUpIff`,
  `Cron.ParseCronField`.
- Histories: `ConsentService.Service.LogDecides`, `PreferenceCache.HitsAreRecent`, `Templates.HistoryAgrees`,
  `Templates.StaleIff`, `Reviews.ApprovedWasInReview`, `Rendering.RenderedByPieces`, `Rendering.ErrorIffMissing`,
  `Rbac.ManagerLostIff`, `Rbac.SessionsRise`.

The repository objects of one statement each (most rows of TaskRepository and RbacService) tie the loops and map updates
to the specification functions these results are about; they come last in the table.

## Where the code falls short of the property

Each of these has a concrete counterexample and the exact condition under which the property holds.

1. A campaign may be closed early after a Retry. A finish report that was stopped before its Redis count outlives
   the Retry, counts its old row into the new counters and, in its second compare-and-swap, closes the campaign on
   a fresh version (`StragglerRun`). A Retry is safe, in that nothing that follows before the next Retry has the
   aggregator close the campaign while a row is open, if and only if it overtakes no live call (`RetrySafeIff`);
   whether a call is live is read off where it stands before the Retry (`Stragglers.Live`). What went wrong before the
   last Retry does not matter, since it aligns every counter with the rows: `NoEarlyFinish` and the counting theorems
   are stated for runs whose last Retry was so, and a Retry with no call under way always is (`RetryHeals`). Rows, totals
   and partition need no such premise (`FinishedOncePerRetry`, `TotalIsRowCount`, `SplitPartition`). Two weaker harms are
   left after a safe Retry.
   - A campaign may be stuck although no call failed. A report that read a final status before the Retry may mark its
     row after it, and the next report of that row is then ignored (`LostMarkRun`). A safe Retry leaves no room for it
     if and only if it overtakes no call about to mark a row the Retry leaves unfinished, having read a final status
     (`CountsSafeIff`); a campaign stuck so is closed by nothing but a cancellation (`StuckForGood`). `CountsCatchUp` and
     `NeverStuck` are stated for runs whose last Retry was so and which lost no call since.
   - A campaign may be closed with the wrong status. A report of the paused campaign that has yet to count in Redis
     counts its old row into the new sums (`MisjudgedRun`). A safe Retry leaves no room for it if and only if it overtakes
     no call about to count in Redis where the sums will then not both be zero (`VerdictSafeIff`); the count alone stays
     behind the database if and only if it overtakes no call about to count in Redis at all (`RedisSafeIff`). The verdict
     of `NoEarlyFinish` and the Redis half of `CountsNeverAhead` are stated for runs whose last Retry was so.
2. A worker that lost its split lease may fail the campaign its successor has finished splitting, because an empty
   owner passes its test for a lost lease and a takeover leaves the version alone (`StaleExitRun`); over every run,
   exactly when the campaign is running without split owner under the version that worker read (`StaleExitFails`).
3. `ParseCron` panics when the step past a part's upper bound overflows a 64-bit integer; exactly then (`MarkPart`,
   `ParseCronField`, `SteppedPanicsIff`). `1/9223372036854775807 * * * *` does it (`PanickingExpression`).
4. `Next` reports no firing for schedules that have one after its search window, as for `0 0 29 2 *` asked in March 2096
   (`SearchGivesUp`); exactly when the fields leave 29 February as the only date and the start lies between that day,
   four years before a century without a leap day, and 24 February of the century (`GivesUpIff`).
5. A delivered record can be reopened by a sender that was overtaken after two minutes, since the write tests no
   owner (`StaleSenderReopens`). With one write for each grant and no failed receipt, a record is reopened if and only
   if two senders held grants when one wrote sent, and the other wrote failed after that, before any click
   (`ReopenedIff`). When every sender writes within two minutes of its grant this does not happen
   (`ReopenedAfterFailedReceipt`).
6. An explicit expected version lets a template be written from a stale copy, so that one revision number gets two
   contents (`ExplicitVersionReuses`); a rejection does it as well as an update, by setting the revision back
   (`StaleRejectReuses`). If every write that takes effect was made from the current revision, all histories are sound
   and rollbacks restore what they name (`HistoryAgrees`, `RollbackRestores`); a single write leaves the history sound
   if and only if it was (`StaleIff`). With default versions every write is (`DefaultIsCurrent`).
7. The guard on role permissions compares role names exactly where the database ignores case, so the last manager
   can be lost (`SpellingLosesLastManager`): exactly by an update that takes rbac.manage from a role through which all
   managers hold it, when some manager's row spells the role otherwise (`SpellingIsTheCause`; with blank roles
   `UpsertLosesIff`); over runs, `ManagerLostIff`. With lower-case role names it never is (`ManagerStays`).
8. The first scheduled run may come before the schedule's start, against the comment in the code: exactly when the
   start is not on a whole minute and that minute fires (`FirstRunEarly`), as with `* * * * *` and a start at half past
   a minute (`HalfAMinuteEarly`).
9. A bucket in Redis is forgotten after 120 idle seconds and starts full again, so that it may admit more than the
   burst and the refills (`ReserveExceeds`). At one rate and burst, some calls are answered otherwise, and some exceed
   the bound, if and only if the bucket can run so low that two minutes do not refill it (`ExpiryShowsIff`); for whole
   numbers that is `burst > 120 * rate` (`WholeRunsLow`), for fractions it may not be (`HalfATokenSaves`).
10. A preference stored by a read that was already under way when the user was invalidated is served until it expires
    (`InvalidatedTooEarly`); a hit was read before the last invalidation if and only if an invalidation fell between
    its read and its storing, and it is never older than the time to live (`HitsAreRecent`).
11. A queue entry whose payload cannot be read is acknowledged even if its dead-letter copy could not be written, and
    then is neither pending nor among the dead letters (`UnreadableIsLost`); no other entry leaves the pending list unhandled and without a copy
    (`LeavesHandledOrDead`, over whole runs `Conserved`).
12. With month and weekday both restricted, a cron expression fires on other days than the crontab utility of POSIX (IEEE
    Std 1003.1) has it: POSIX takes a day that matches by month and day of the month, or by weekday, the code one that
    matches the month and, besides, either of the day fields. `0 0 * 2 1` is one (`FebruaryMondays`). Both fire in the same
    minutes if and only if the weekday is a wildcard, or the month is, or all months are set and, with a wildcard for the
    day of the month, all weekdays (`RulesAgreeIff`); then the search and the listing are those of POSIX (`NextIsPosix`,
    `ListingIsPosix`).

13. The error exit of a split does not test anything if its read of the campaign fails: it tries to fail the campaign and
    clears the split lease, whoever holds it. A campaign that is being split anew may so be left running without split
    owner: the rows written so far may be claimed, nobody can take the split over and the reaper never lists it
    (`UnreadExitRun`, `OrphanStays`). It is left so exactly when it is running with a split owner under another version
    than the failing split read; in all other cases the exit keeps what holds over every run (`UnreadExitIff`).

The frequency limiter is better than twice its limit in any window: `2 * limit - 1` is the bound, and it is reached for
every limit.

## Model

| member | source | states |
|---|---|---|
| `CampaignRuns.RunKeeps` | internal/scheduler/aggregator.go:46-164 | After any run of operator, split, claim, report, aggregator and reaper steps, with lost calls and lost Redis keys, the invariant of rows, leases, totals, counters, sums and calls under way holds, calls that outlived a Retry included, if the last Retry overtook no live call, whatever happened before it |
| `CampaignRuns.RetryHeals` | internal/app/campaign/service.go:1111-1152 | Whatever a run did, Retries over live calls and lost counts included: after a Retry that goes through while no aggregator call is under way the whole invariant holds, and the premises of the counting theorems with it |
| `CampaignRuns.NoEarlyFinish` | internal/scheduler/aggregator.go:132-164 | When the aggregator closes a campaign whose last Retry overtook no live call (RetrySafeIff), every row has finished and the total is the number of rows; if the count in Redis was full and its sums not both zero when they were read, and the last Retry kept the sums (VerdictSafeIff), it is closed as success if and only if no user of the rows failed, as failed if and only if some did and none succeeded, as partial if and only if both are there |
| `Verdicts.ClosedAsDecided` | internal/scheduler/aggregator.go:139-164 | In every run, Retries of any kind included: the call that closes a campaign decided on that status earlier, when its count had reached the total, by the sums it found in Redis, or by the user counts of the row it had read if both were zero: success without failures, failed without successes, else partial |
| `RetryFaults.RetrySafeIff` | internal/app/campaign/service.go:969-1073 | After a Retry that goes through, in any run: no continuation without a further Retry, whatever fails in it, has the aggregator close the campaign while a row is open, if and only if the Retry overtook no live call; if it did, a continuation in which nothing fails does so |
| `LostCounts.CountsSafeIff` | internal/scheduler/aggregator.go:60-79 | After such a Retry, if it overtook no live call: in every continuation without a further Retry or a lost call the database count equals the finished rows whenever no call is under way, if and only if the Retry overtook no call that had read a final status and was about to mark a row the Retry leaves unfinished; if it did, a continuation in which nothing fails leaves the campaign stuck |
| `LostCounts.StuckForGood` | internal/adapter/repo/task.go:533-550 | Stuck means running or paused with every row finished, nobody counting and the count short of the total: whatever happens but a cancellation, over any run, the campaign stays so |
| `LostCounts.BlockerSticks` | internal/scheduler/aggregator.go:60-70 | From each such call the continuation that leaves the campaign stuck is built: all other rows finished and counted, the calls drained, the last row reported and ignored |
| `SpoiledSums.VerdictSafeIff` | internal/scheduler/aggregator.go:139-156 | After such a Retry, if it overtook no live call: no continuation without a further Retry, whatever fails in it, closes the campaign on a full count in Redis with a status its rows do not give, if and only if the Retry overtook no call about to count in Redis where the sums will then not both be zero; if it did, a continuation in which nothing fails does so |
| `SpoiledSums.RedisSafeIff` | internal/scheduler/aggregator.go:79-86 | After such a Retry, if it overtook no live call: the count in Redis never runs ahead of the database in any continuation without a further Retry, if and only if the Retry overtook no call about to count in Redis |
| `RetryFaults.LiveCloses` | internal/scheduler/aggregator.go:52-164 | From each live call, wherever it stands, a continuation that closes the retried campaign early is built |
| `RetryFaults.SoundNeverClosesEarly` | internal/scheduler/aggregator.go:132-164 | From a sound state no continuation without a Retry, whatever fails in it, closes the campaign while a row is open |
| `SafeRetries.RetryOvertakes` | internal/app/campaign/service.go:969-1073 | From any state a run leads to, a Retry that overtakes no live call establishes the invariant, the overtaken calls now being dead ones |
| `SafeRetries.NextKeeps` | internal/scheduler/aggregator.go:46-164 | Any single step keeps the invariant; a Retry, if it overtakes no live call, establishes it from any state a run leads to |
| `AnyRun.RowsAlways` | internal/adapter/repo/task.go:180-773 | Over every run, with any Retry, the part of the invariant about rows, leases, splits and totals holds, and every aggregator call under way holds the row it reports and a snapshot taken after the split, none of the future |
| `CampaignFaults.StragglerRun` | internal/scheduler/aggregator.go:79-156 | The counterexample, a run in which nothing fails: a finish report stopped before its Redis count outlives a Retry and closes the campaign while its only row is still pending |
| `CampaignFaults.LostMarkRun` | internal/scheduler/aggregator.go:60-73 | A run in which nothing fails and no Retry overtakes a live call: a report that read a final status marks its row only after the Retry, the next report of the row is ignored, and the campaign is stuck with its only row a success and none of one counted |
| `CampaignFaults.MisjudgedRun` | internal/scheduler/aggregator.go:79-156 | A run in which nothing fails and no Retry overtakes a live call: a report of the paused campaign counts in Redis only after the Retry, and the reaper closes the campaign as failed though its only row is a success |
| `CampaignFaults.StaleExitFails` | internal/scheduler/worker.go:226-247 | In every run, the error exit of a split that is not the owner changes the campaign status if and only if the campaign runs without split owner under the version that split read; it then fails a campaign whose rows are all there |
| `CampaignFaults.StaleExitRun` | internal/scheduler/worker.go:226-247 | A run in which nothing fails where that happens: the campaign ends failed with its only row pending |
| `UnreadExits.UnreadExitIff` | internal/scheduler/worker.go:226-247 | In every run, the error exit of a split that fails to read the campaign: fails it if and only if it runs under the version that split read, whoever owns the split; leaves it running without owner before its split is done if and only if it runs with an owner under another version; and breaks what holds over every run in that case alone |
| `UnreadExits.UnreadExitRun` | internal/scheduler/worker.go:226-247 | A run in which nothing fails up to such an exit: after it the row of an unfinished split may be claimed and the worker splitting it has lost its lease |
| `CampaignTheorems.FinishedOncePerRetry` | internal/adapter/repo/task.go:755-773 | In every run, whatever claims, takeovers, renewals, releases, cancellations and Retries it has, two result writes of one row take effect only with a Retry between them |
| `CampaignTheorems.CountsNeverAhead` | internal/scheduler/aggregator.go:79-93 | If the last Retry overtook no live call, the database has at every moment counted at most the finished rows, and Redis at most what the database has, unless that Retry overtook a call about to count in Redis (RedisSafeIff) |
| `CampaignTheorems.TotalIsRowCount` | internal/scheduler/splitter.go:341-371 | In every run, a running campaign without split owner has its number of rows as total; with one the total is zero |
| `CampaignTheorems.CountsCatchUp` | internal/scheduler/aggregator.go:46-103 | With no call under way the database count equals the number of finished rows, if the last Retry overtook no live call and none that could block a count (CountsSafeIff) and since then no call failed before it counted |
| `CampaignTheorems.NeverStuck` | internal/adapter/repo/task.go:533-550 | On the same condition, such a campaign, running with all rows terminal, is listed by the reaper once it has been stale long enough, and three steps of that reaper call close it |
| `CampaignTheorems.SplitPartition` | internal/scheduler/splitter.go:341-371 | In every run, however many takeovers came before, when a split finishes its rows are shards 0..n-1 in order of writing, their users are exactly the kept users of the pages it resolved, in order, and total_count and sub_task_total say so |
| `Fencing.SwapSeesNothing` | internal/adapter/repo/task.go:448-463 | A final compare-and-swap on the version read at one moment succeeds later only if no pause, resume, cancel, reopen, counter sync or final status came in between |
| `Fencing.FencesRaise` | internal/adapter/repo/task.go:341-417 | Each of these changes raises the version |
| `Fencing.VersionGrows` | internal/adapter/repo/task.go:341-463 | The version never goes down over any run |
| `Fencing.SnapshotIsRead` | internal/scheduler/aggregator.go:52-164 | The snapshot an aggregator call swaps on is the main row as it was at the read, the second read included |
| `Fencing.OnlyTheseLeave` | internal/adapter/repo/task.go:341-463 | Success and cancelled are left by no step, paused by resume or cancel only, failed and partial by Retry only |
| `Fencing.FinalForever` | internal/adapter/repo/task.go:448-463 | Over any run, success and cancelled stay |
| `Fencing.LeftOnlyBy` | internal/adapter/repo/task.go:361-417 | A run that starts paused and does not end so holds a resume or a cancel; one that starts failed or partial and does not end so holds a Retry |
| `Actions.OperatorActs` | internal/adapter/repo/task.go:341-394 | Publish, pause, resume and cancel take effect exactly on the statuses they are for and lead where they should; all but publish raise the version, counts and lease stay, and a cancellation closes exactly the open rows |
| `Actions.StatsAct` | internal/adapter/repo/task.go:419-464 | Counts are added in any case; a final status is written exactly over the version it was decided on and over none that is final or paused, running only over pending, running or retrying, no other status at all |
| `Actions.RowActs` | internal/adapter/repo/task.go:636-657 | A release takes back a running row whoever holds it, a renewal is for its holder; anything else changes nothing |
| `Actions.ReportActs` | internal/adapter/repo/task.go:755-773 | A result is taken from the worker a row was last claimed by while it is running or to be sent again; exactly then, but for a cancellation, an aggregator call begins |
| `Actions.ReaperActs` | internal/adapter/repo/task.go:533-550 | The reaper takes up a campaign exactly if it runs without split owner, has rows, has counted them all and was not written for longer than the staleness |
| `Actions.LeaseMoves` | internal/adapter/repo/task.go:180-271 | A start of a pending campaign, a take-over of a lease that ran out, a renewal and a page of the owner write the lease; every other step leaves it or gives it up |
| `Actions.TakenOverLate` | internal/adapter/repo/task.go:235-271 | In every run a split is taken over only more than the timeout after the last start, take-over, renewal or page of its owner |
| `Actions.OnlyOwnerWrites` | internal/adapter/repo/task.go:500-530 | A page becomes a shard exactly if its split holds the lease of the running campaign; else that split ends with an error and the campaign is not touched |
| `Retry.RetryRestoresCounting` | internal/app/campaign/service.go:1111-1152 | After Retry every counter is what the rows say: total is the row count, both done counts are the terminal rows, the Redis sums are theirs, no row is marked finished, no row is failed, and the version went up by two |
| `Retry.RetryCounts` | internal/app/campaign/service.go:1111-1152 | The user counts a Retry writes are those of the push records if there are any, success and failure each in its place, else the sums over the rows left success, cancelled or partial and over the rows left failed, cancelled or partial; the sums in Redis likewise, the done counts and the total |
| `Retry.RetryRows` | internal/app/campaign/service.go:990-1056 | Rows that failed are pending again, without worker or result and with one retry more, all others stay, and the new rows are pending shards of listed users, numbered on from the largest |
| `Retry.RetriedIff` | internal/app/campaign/service.go:969-1000 | A Retry goes through exactly for a failed or partial campaign with a failed row or a user that failed at the provider |
| `Retry.RetryPlacesEveryUser` | internal/app/campaign/service.go:984-1021 | A listed failed user outside every failed row is in exactly one new shard, once; one inside is in none; new shard numbers go on from the largest |
| `Retry.RetryShardsCut` | internal/app/campaign/service.go:1075-1099 | New shards are numbered in a row, hold between one and batchSize users, all but the last exactly batchSize |
| `Retry.RetryShardsConcat` | internal/app/campaign/service.go:1075-1099 | New shards put together are the users in order |
| `Audience.KeptIdsConcat` | internal/scheduler/splitter.go:204-258 | Filtering two pages after each other is filtering them as one |
| `Audience.KeptIdsMembers` | internal/scheduler/splitter.go:204-258 | A user is kept if and only if the id is not empty, not excluded, not in the control group of an experiment, in the sample when one is drawn without an experiment, and some entry of the page with that id has a channel of the campaign, any of them if it names none |
| `Audience.KeptOne` | internal/scheduler/splitter.go:204-258 | The same for one entry, which is kept once or not at all |
| `Targets.OnlyAllowedUsers` | internal/scheduler/splitter.go:200-258 | In every run, whoever a row is for is not excluded, in no control group and in the sample, unless a Retry of the run added the user as failed at the provider |
| `Targets.OnlyTargets` | internal/scheduler/splitter.go:200-371 | When a split finishes, in whatever run, every user of its rows is allowed and was listed on a page it read, with a channel of the campaign |
| `Targets.NoTargetLeftOut` | internal/scheduler/splitter.go:200-371 | And every listed user who is allowed and has such a channel is in some row |
| `TaskRepository.TaskRepo.ClaimSubTask` | internal/adapter/repo/task.go:562-617 | Takes the smallest row no other transaction has locked that may be claimed: campaign running without split owner, row pending, retrying, or running and claimed before now less the timeout; none only if there is none; the row is then the worker's, running, with the time of the claim |
| `Claims.ClaimsApart` | internal/adapter/repo/task.go:562-657 | In every run, between two claims of one row that take effect the row was not running at some moment, or the second comes more than its timeout after the last claim or renewal before it |
| `Claims.ClaimsIff` | internal/adapter/repo/task.go:562-617 | A claim takes effect exactly for a row of a running campaign without split owner that is pending or retrying, or running and last claimed or renewed more than the timeout ago; it is then held by that worker from that time |
| `Claims.ClaimedAfterSplit` | internal/adapter/repo/task.go:562-617 | In every run nothing is claimed before the split has finished: the total is then the number of rows |
| `TaskRepository.TaskRepo.ClaimStaleSplitMainTask` | internal/adapter/repo/task.go:235-271 | Takes a running campaign over from an owner whose lease is missing or past the deadline, and zeroes both totals |
| `TaskRepository.TaskRepo.UpdateMainTaskStats` | internal/adapter/repo/task.go:419-464 | Increments without a guard; a final status only by compare-and-swap on the version, never over a final or paused one; running only over pending, running or retrying |
| `TaskRepository.TaskRepo.CreateSubTasksWithLease` | internal/adapter/repo/task.go:500-530 | Inserts only after a successful renewal of the lease, in the same transaction |
| `TaskRepository.TaskRepo.CancelUnfinishedSubTasks` | internal/adapter/repo/task.go:620-634 | Cancels pending, running and retrying rows and no other |
| `TaskRepository.TaskRepo.UpdateSubTaskResult` | internal/adapter/repo/task.go:755-773 | Writes a result only for the claiming worker and an unfinished row |
| `TaskRepository.TaskRepo.ResetFailedSubTasks` | internal/adapter/repo/task.go:659-674 | Resets exactly the failed rows and counts them |
| `TaskRepository.TaskRepo.MaxShardIndex` | internal/adapter/repo/task.go:676-689 | The largest shard number, -1 without rows |
| `TaskRepository.TaskRepo.SummarizeSubTasks` | internal/adapter/repo/task.go:775-807 | One line for each status that occurs, with its row count and user sums |
| `AggregatorService.Aggregator.OnSubFinished` | internal/scheduler/aggregator.go:46-113 | Run alone, it is the protocol call taken to its end; a failed database count takes the mark back and changes nothing |
| `AggregatorService.Aggregator.FinalizeStale` | internal/scheduler/aggregator.go:117-129 | Run alone, it is the reaper call of the protocol taken to its end |
| `AggregatorService.SecondReportIgnored` | internal/scheduler/aggregator.go:61-74 | Reporting the same row again changes nothing, whether or not Redis counted the first report |
| `CampaignService.Service.Cancel` | internal/app/campaign/service.go:870-919 | Cancels the campaign and its open rows when that is allowed, else changes nothing and answers with the status |
| `CampaignService.Service.Pause` | internal/app/campaign/service.go:922-940 | Pauses exactly the pausable campaign |
| `CampaignService.Service.Resume` | internal/app/campaign/service.go:943-966 | A paused campaign goes back to running when its split had finished, else to pending |
| `CampaignService.Service.Retry` | internal/app/campaign/service.go:969-1073 | Its answer and new state are those of the Retry step: refused, nothing to retry with nothing changed, or restarted with these many resets, shards and users |
| `CampaignService.Service.BuildRetryShards` | internal/app/campaign/service.go:1075-1099 | The loop cuts the shards that the Retry step names |
| `CampaignService.Service.RealignCounters` | internal/app/campaign/service.go:1111-1152 | Sets every counter from the rows, user counts from the push records when there are any |
| `CampaignService.Service.SumRows` | internal/app/campaign/service.go:1115-1132 | Adding up the per-status lines gives the success sum, failure sum, terminal count and row count of the rows |
| `Splitter.Splitter.Split` | internal/scheduler/splitter.go:90-371 | Run by the lease holder it ends in one of six ways, each with the exact pages read, the kept users counted against the limit, and the database the protocol steps leave; without the lease it changes nothing |
| `Splitter.Splitter.ReadPages` | internal/scheduler/splitter.go:135-339 | The page loop reads a prefix of the walk over the page tokens, at most maxPages pages, and keeps in step with the protocol |
| `Splitter.WalkIs` | internal/scheduler/splitter.go:374-387 | Pages are read with the empty token first and then each with the token of the one before; reading goes on exactly while there is more and the token is a new one, within the budget, and why it ended is said |
| `Splitter.Splitter.WritePage` | internal/scheduler/splitter.go:302-325 | One page becomes the next shard, and the total is checked after the write |
| `Splitter.Splitter.CheckLease` | internal/scheduler/splitter.go:141-160 | A cancelled or paused campaign, or a lost lease, stops the split before the page is read |
| `Splitter.PagedFollows` | internal/scheduler/splitter.go:135-339 | Whatever pages were written, a split that is not failing has put exactly their kept users into its shards |
| `StaticAudience.PagingEnds` | internal/adapter/audience/static.go:29-82 | Paging from an offset ends well if and only if the pages needed may be read, else with too many pages |
| `StaticAudience.PagingCovers` | internal/adapter/audience/static.go:29-82 | And then yields all remaining members in order |
| `StaticAudience.SegmentRefuses` | internal/adapter/audience/static.go:36-60 | A token that is no number or negative is refused, an offset past the end finds an empty last page |
| `StaticAudience.StaticSplitCovers` | internal/scheduler/splitter.go:135-371 | A split of a static segment by the lease holder ends well if and only if the segment fits into maxPages pages and keeps between one and maxUsers users; its shards are then exactly the kept members in order |
| `Decimal.AtoiItoa` | internal/adapter/audience/static.go:41-47 | A page token written from an offset reads back as that offset |
| `Worker.Worker.RunSplit` | internal/scheduler/worker.go:205-251 | The split leaves what the split proper leaves, followed by the error exit if it failed; by the lease holder it ends with no owner and either running or failed |
| `Worker.Worker.FailSplit` | internal/scheduler/worker.go:228-244 | The error exit is the one of the protocol |
| `Worker.Worker.ProcessSubTask` | internal/scheduler/worker.go:348-477 | A claimed row ends cancelled, released, lost with nothing changed, or with one result that the protocol allows, written and counted: with the claim held, success with as many users as messages if the campaign has not expired and nothing stops a message, else failure of all its users |
| `Worker.Worker.PublishRow` | internal/scheduler/worker.go:377-477 | A row without status or expiry in its way ends lost with nothing changed, succeeded with all messages out and counted as many, or failed as a whole; with the claim held it succeeds if and only if neither queue nor context stops a message |
| `Worker.Worker.PublishMsgs` | internal/scheduler/worker.go:494-566 | Messages go out as a prefix, up to the first that the queue refuses or the context ends at, and which of these it was is reported; the claim is renewed before exactly every fiftieth; a row no longer claimed stops before the fifty-first message |
| `Worker.Worker.BuildMessages` | internal/scheduler/worker.go:377-444 | One message for every user with a channel, in order |
| `Worker.MessagesAre` | internal/scheduler/worker.go:405-444 | The messages of a row are one for each of its users that has a channel, in the order of the row, on the channels chosen for the user at the split or else those of the campaign |
| `PushRecords.WritesFollowTable` | internal/domain/status.go:108-132 | Every write by claim, delivery update and receipt follows the transition table; clicked is never left; a record appears only by a claim, as sending |
| `PushRecords.ReopenedOnlyByFailure` | internal/domain/status.go:108-132 | A delivered record leaves the delivered states only for failed, on a failed receipt or a failed delivery update |
| `PushRecords.ClickedForever` | internal/domain/status.go:121-122 | Clicked stays clicked over every run |
| `PushRecords.GrantsApart` | internal/adapter/repo/task.go:1037-1110 | Two grants of one record are separated by its leaving sending, or by two minutes in which nothing wrote it |
| `PushRecords.ReceiptsSettle` | internal/app/callback/service.go:38-83 | Any receipts on a sent record leave it clicked or failed, whichever came first, else delivered, else sent |
| `PushRecords.OutcomeIsFirst` | internal/app/callback/service.go:50-60 | What that outcome means: delivered only if all receipts are, clicked or failed if that is the first other one |
| `PushRecords.StaleSenderReopens` | internal/adapter/repo/task.go:862-900 | The counterexample: a sender overtaken after two minutes writes failed over a delivered record |
| `PushRecords.ReopenedIff` | internal/adapter/repo/task.go:862-900 | With one write for each grant and no failed receipt, a delivered record is reopened if and only if two senders held grants when one wrote sent, and the other wrote failed after it with no click in between |
| `PushRecords.EitherMaySend` | internal/adapter/repo/task.go:862-900 | A run in which the overtaken sender writes sent and the later one reopens |
| `PushRecords.SenderHolds` | internal/adapter/repo/task.go:1037-1110 | A sender that writes within two minutes of its grant holds the record in sending until then, whatever claims and writes the other prompt senders try, as long as no failed receipt comes |
| `PushRecords.ReopenedAfterFailedReceipt` | internal/adapter/repo/task.go:862-949 | When each sender writes once and within two minutes of its grant, a delivered record is reopened only after a failed receipt |
| `PushRecords.PushRepo.ClaimDelivery` | internal/adapter/repo/task.go:1041-1110 | Inserts or takes over the record; duplicate exactly when delivered, in flight exactly when sending and written less than two minutes ago |
| `PushRecords.PushRepo.UpdateRecordDelivery` | internal/adapter/repo/task.go:862-900 | Moves the record if the table allows, keeps fields that are not given and the first sent time |
| `PushRecords.PushRepo.ApplyReceipt` | internal/adapter/repo/task.go:920-949 | Moves the record if the table allows and keeps each event once |
| `PushRecords.WrittenFields` | internal/adapter/repo/task.go:862-900 | Given fields are taken over and others stay, but a state of delivery or sending clears the error; the time of sending is that of the first write of sent; a write that may not be made or says nothing new changes nothing |
| `PushRecords.ReceiptedFields` | internal/adapter/repo/task.go:920-949 | A receipt that may be taken moves the status to its own and leaves provider and time of sending |
| `Gateway.AtMostOnce` | internal/push/gateway.go:756-979 | Over any sequence of sends, receipts, closings and lost marks with no receipt that reopens the record and no accepted send whose write is lost, the channel accepts a message at most once for a task, user and channel |
| `Gateway.AcceptedCounted` | internal/push/gateway.go:756-979 | In every run the accepted sends are exactly the reopening receipts and the accepted sends whose write was lost, plus one if the record has become a delivered one |
| `Gateway.SendOneHolds` | internal/push/gateway.go:756-979 | An accepted send finds the record not delivered and, once saved, leaves it delivered; a delivered record is never touched |
| `Gateway.AcceptsIff` | internal/push/gateway.go:756-979 | The channel accepts a message if and only if it renders, is not marked as done, its record can be claimed, opt-out and frequency allow it, a token was granted, the campaign is open, the channel is registered, and some attempt is accepted after none but repeatable ones |
| `Gateway.StoppedBefore` | internal/push/gateway.go:796-861 | Each refusal after the claim, in the order of the source, with the record it writes and the outcome: a denied opt-out or frequency suppressed and withheld, an unknown one queued with its error, a missing token queued, a closed gate queued or cancelled, an unregistered channel unreachable |
| `Gateway.DecidedByAttempt` | internal/push/gateway.go:863-979 | What the attempts lead to: the first that is accepted, given up, stopped by the status or left by the context decides the record and the outcome |
| `Gateway.NotClaimed` | internal/push/gateway.go:756-795 | A marked or delivered message succeeds without a send, one in flight or whose claim fails reports that, one that does not render is failed, and nothing else is written |
| `Gateway.EventsTell` | internal/push/gateway.go:363-389 | A receipt moves the record if there is one, a cancelled or expired message closes one that is free, a lost mark is gone, and nothing else touches record or mark |
| `Gateway.AcceptedOnlyAllowed` | internal/push/gateway.go:756-979 | In every run of sends, receipts and closings the accepted sends are at most those whose answers allow a send |
| `Gateway.GrantReleased` | internal/push/gateway.go:790-860 | A granted claim leaves the record out of sending unless the context ended |
| `Gateway.ContextEndsInBackoff` | internal/push/gateway.go:896-943 | The context can end a send only in the backoff after a fruitless attempt that was not the last |
| `Gateway.AttemptsEndIff` | internal/push/gateway.go:896-943 | The attempts end with an acceptance, a refusal, a closed gate or the end of the context, at the first attempt that brings it about |
| `GatewayService.Service.Handle` | internal/push/gateway.go:226-301 | Every answer the gateway is given decides exactly one course: the error, the records closed, or the channels resolved and the sends made on them in the mode, with the outcome of each |
| `GatewayService.Service.SendFallback` | internal/push/gateway.go:578-626 | Channels in order up to maxFallback + 1; each but the last tried failed so that the next may be tried; the error is the one the last outcome, the gate or the used-up chain gives |
| `GatewayService.Service.SendOne` | internal/push/gateway.go:756-861 | Record, mark and accepted sends of this key move as the send says, and those of every other key stay |
| `GatewayService.Service.DoSend` | internal/push/gateway.go:863-979 | The attempt loop and the writes after it |
| `GatewayService.Service.SendParallel` | internal/push/gateway.go:634-653 | Every channel is tried and the outcomes are classified as below |
| `GatewayService.Service.SendAllSuccess` | internal/push/gateway.go:693-712 | Every channel is tried and all of them must have taken or withheld the message |
| `GatewayService.Service.ClassifyParallel` | internal/push/gateway.go:655-690 | The loop gives the last deferred error before the last other one, none if any channel succeeded |
| `GatewayService.Service.ClassifyAllSuccess` | internal/push/gateway.go:714-742 | The loop gives the last retryable error before the last other one |
| `GatewayService.ParallelDone` | internal/push/gateway.go:655-690 | A parallel send is done if and only if some channel succeeded, or none has anything left to try or report and one was withheld |
| `GatewayService.AllSuccessDone` | internal/push/gateway.go:714-742 | An all-channels send is done if and only if every channel took or withheld the message |
| `Strategies.FallbackReports` | internal/push/gateway.go:578-632 | A fallback sends on the channels in order, at most maxFallback + 1 of them, each with its gate open and after one that failed for good but not because of the campaign or the hour; it reports what the channel that ended it says, the last failure when all are used up, none if nothing but withheld sends is left, or the status of the campaign |
| `Strategies.ParallelReports` | internal/push/gateway.go:655-690 | A parallel send reports nothing if a channel took the message, else the last undecided error, else the last failure |
| `Strategies.AllSuccessReports` | internal/push/gateway.go:714-742 | An all-channels send reports the last undecided error, else the last other miss, and nothing only if there is neither |
| `Strategies.TurnedBackReports` | internal/push/gateway.go:226-264 | A message that may not go out ends with its reason, in the order status, expiry, window, quiet hours, and closes at most its records: its own channel's when cancelled, those of all named channels when expired |
| `Strategies.SentReports` | internal/push/gateway.go:266-301 | A message that may go out is sent on every channel if it says so and names several, on one alone if it has just that, else one after another |
| `GatewayService.Service.MarkExpired` | internal/push/gateway.go:363-389 | An expired message closes the record of each of its channels |
| `GatewayService.Service.ResolveSendChannels` | internal/domain/message.go:96-106 | Routes for a conditional message, stable order by cost for a cost-driven one, else the channels as given |
| `GatewayService.Service.DeliveredAtMostOnce` | internal/push/gateway.go:756-979 | The at-most-once statement for the gateway as an object, for every key of its history |
| `GatewayService.Service.DeniedNeverSent` | internal/push/gateway.go:756-979 | Over the history of the object, the channels accepted no message for a key that opt-out, frequency, tokens or status denied |
| `ChannelStrategy.SortChannelsByCost` | internal/domain/channel_strategy.go:161-200 | The selection loop returns the stable order by cost, each channel once |
| `ChannelStrategy.SortedMeans` | internal/domain/channel_strategy.go:161-200 | Costs never fall along the stable order, equal ones keep their order, and each channel is there |
| `ChannelStrategy.MatchRouteRules` | internal/domain/channel_strategy.go:23-43 | The first conditional rule that applies decides, else the last default, else the fallback |
| `ChannelStrategy.RoutedMeans` | internal/domain/channel_strategy.go:23-43 | The channels are those of the first rule whose condition holds, else of the last rule without one, else as they were; a rule without channels does not count |
| `ChannelStrategy.ResolveRoutes` | internal/domain/channel_strategy.go:46-122 | The same with conditions evaluated on variables first, extra fields second |
| `ChannelStrategy.ComparesNumbers` | internal/domain/channel_strategy.go:46-104 | With numbers on both sides the four comparisons are those of the numbers |
| `ChannelStrategy.ComparesTexts` | internal/domain/channel_strategy.go:46-104 | Else those of the texts in order, two different ones being one below the other |
| `ChannelStrategy.ComparesOtherwise` | internal/domain/channel_strategy.go:46-104 | Equality, inequality, lists, presence and absence; a missing fact matches nothing but its absence |
| `ChannelStrategy.KnownOrder` | internal/domain/channel_strategy.go:140-158 | Given costs count; without them inbox, app push, email, then wecom and dingtalk alike, then sms, then any other |
| `StreamQueue.RedisStream.Conservation` | internal/adapter/mq/redis_stream.go:239-310 | Over the life of the object, with trimming off: an entry is unread exactly while it was never delivered, pending exactly from then until it leaves, has left exactly once or not at all, and left in exactly one way: handled, copied to the dead letters with its payload, or unreadable with the copy failing |
| `StreamQueue.Conserved` | internal/adapter/mq/redis_stream.go:239-438 | The same over every run of publishes, reads, reclaims and handler returns with failing calls: departures are the sum of the three ways, at most one in all |
| `StreamQueue.UnreadableIsLost` | internal/adapter/mq/redis_stream.go:384-391 | The counterexample to handled or copied: added, read, found unreadable while the dead-letter stream fails; the entry is acknowledged and no copy of it is anywhere |
| `StreamQueue.LeavesHandledOrDead` | internal/adapter/mq/redis_stream.go:384-438 | An entry that leaves the pending list was handled or has its copy in the dead-letter stream, but for an unreadable payload whose copy could not be written |
| `StreamQueue.DeferredDiesOfAgeOnly` | internal/adapter/mq/redis_stream.go:137-164 | A deferred error dead-letters an entry if and only if the entry is as old as the maximum age, whatever its delivery count |
| `StreamQueue.FailingDiesOnMax` | internal/adapter/mq/redis_stream.go:239-438 | In any run of reads, reclaims and handler returns in which the returned handlers of an entry fail, it is pending with its exact delivery count and no dead copy until the first counted rejection that finds MaxDelivery deliveries or more; from then on it is gone, has exactly one dead copy and is not delivered again |
| `StreamQueue.DeliveriesApart` | internal/adapter/mq/redis_stream.go:239-381 | In every run an entry is delivered again only while pending, taken over by a reclaim, and only at least the minimum idle time after its last delivery |
| `StreamQueue.PendingTells` | internal/adapter/mq/redis_stream.go:239-381 | After every run a pending entry bears the number of its deliveries and the time of the last |
| `StreamQueue.CopyBearsCount` | internal/adapter/mq/redis_stream.go:404-472 | A dead copy is of the entry it was made for and bears its number of deliveries, none if the payload could not be read |
| `StreamQueue.ReadsNext` | internal/adapter/mq/redis_stream.go:279-310 | A read delivers the next entries in order, as many as were asked for or as there are |
| `StreamQueue.IdsRise` | internal/adapter/mq/redis_stream.go:226-236 | Over every run the ids of the stream rise |
| `StreamQueue.SettingsTaken` | internal/adapter/mq/redis_stream.go:84-104 | A setting that is given is taken, one that is not has its default, and a negative age limit is none |
| `StreamQueue.LeavesOnlyBy` | internal/adapter/mq/redis_stream.go:384-438 | A pending entry leaves the list only by success, an unreadable payload, such a rejection, or a deferred error past the maximum age |
| `StreamQueue.AgeOfId` | internal/adapter/mq/redis_stream.go:154-164 | The age read off an entry id is the time since its milliseconds |
| `StreamQueue.RedisStream.HandleMessage` | internal/adapter/mq/redis_stream.go:384-402 | The new state is the handler-return step, recorded in the history: acknowledge, leave pending, or copy and acknowledge; an unreadable entry is acknowledged in any case |
| `StreamQueue.RedisStream.ReclaimOnce` | internal/adapter/mq/redis_stream.go:352-381 | The reclaim step on idle entries, up to the batch, one more delivery on each; an idle one is missed only when the batch is full |
| `StreamQueue.RedisStream.ReadGroup` | internal/adapter/mq/redis_stream.go:279-310 | The read step: the next entries after the cursor, delivered for the first time |
| `StreamQueue.RedisStream.Publish` | internal/adapter/mq/redis_stream.go:226-236 | Appends the messages in order under rising ids |
| `RateLimit.AdmissionsBounded` | internal/adapter/redis/quota.go:18-40 | In any interval of length D a bucket admits at most burst + rate * D calls, rate and burst being the largest in force; in Redis, if two minutes refill the burst at every call |
| `RateLimit.TokensInRange` | internal/adapter/redis/quota.go:18-40 | Tokens stay between zero and the burst |
| `RateLimit.TokensAccounted` | internal/adapter/redis/quota.go:18-40 | Admissions and tokens left together come from the burst and the refills since the first call, on the same condition |
| `RateLimit.RefillLaws` | internal/adapter/redis/quota.go:18-40 | A new bucket is full, one used later has gained the rate times the time and never more than the burst, and only an admitted call takes a token |
| `RateLimit.RefillInSteps` | internal/adapter/redis/quota.go:18-40 | Refilling in two steps is refilling in one |
| `RateLimit.SpacedAllAdmitted` | internal/adapter/redis/quota.go:18-40 | Calls far enough apart for a token to come in are all admitted, wherever the bucket is kept |
| `RateLimit.BurstAtOnce` | internal/adapter/redis/quota.go:18-40 | Of calls at one moment on a new bucket as many are admitted as the burst has whole tokens |
| `RateLimit.ExpiryNeutral` | internal/adapter/redis/quota.go:38 | When two minutes refill the burst, expiry of the key changes no state and no admission |
| `BucketExpiry.ExpiryShowsIff` | internal/adapter/redis/quota.go:18-40 | For calls at one rate and burst from an empty key: some sequence is answered otherwise than by a bucket kept for good, and some sequence exceeds the bound, if and only if the bucket can run so low that 120 s do not refill it |
| `BucketExpiry.LowExceeds` | internal/adapter/redis/quota.go:18-40 | Cycles of draining the bucket and leaving it for 120 s then admit more than burst + rate * D |
| `BucketExpiry.NeverLow` | internal/adapter/redis/quota.go:18-40 | Otherwise no sequence of calls is answered differently |
| `BucketExpiry.WholeRunsLow` | internal/adapter/redis/quota.go:114-138 | With whole numbers it runs low if and only if burst > 120 * rate; in general only if, and surely if the fraction of the burst is less than the difference |
| `BucketExpiry.HalfATokenSaves` | internal/adapter/redis/quota.go:18-40 | A rate and burst with burst > 120 * rate that never runs low |
| `BucketExpiry.ReserveExceeds` | internal/adapter/redis/quota.go:114-138 | The counterexample: the reserved bucket of a small quota admits four calls where burst and refills come to 3.2 |
| `RateLimit.SplitBounded` | internal/adapter/redis/quota.go:114-138 | With the reserve ratio strictly between 0 and 1, high and normal admissions together are at most burst + 1 + qps * D, whatever the adaptive factor is at each call; in Redis, if two minutes refill the bursts |
| `RateLimit.QuotaApart` | internal/adapter/redis/quota.go:114-138 | With a reserve the two priorities have buckets of their own: rates and bursts are their shares, a burst at least one token |
| `RateLimit.QuotaTogether` | internal/adapter/redis/quota.go:114-138 | Without one they share the whole rate and burst, a burst not given being a second's worth |
| `RateLimit.ChannelQuotaLimiter.TokenBucketScript` | internal/adapter/redis/quota.go:18-40 | The script admits and writes the bucket that the specification gives, after a key idle for 120 s is gone |
| `RateLimit.ChannelQuotaLimiter.TakeShared` | internal/adapter/redis/quota.go:254-277 | Every run of the script is answered as the sequence of calls of its key so far says |
| `RateLimit.ChannelQuotaLimiter.Bounded` | internal/adapter/redis/quota.go:18-40 | The bound for the calls an object made of the script, key by key |
| `RateLimit.ChannelQuotaLimiter.TakeLocal` | internal/adapter/redis/quota.go:293-314 | The in-process bucket does the same |
| `RateLimit.ChannelQuotaLimiter.WaitLocal` | internal/adapter/redis/quota.go:280-291 | Waiting takes at most one token, on the first reading that admits |
| `RateLimit.TokenGate.TakeToken` | internal/push/gateway.go:128-143 | The gateway token bucket is one with burst equal to rate |
| `FrequencyLimit.FrequencyCounters.AllowAll` | internal/adapter/redis/client.go:106-141 | All active counters rise by one or none does; allowed if and only if every one is below its limit |
| `FrequencyLimit.FrequencyCounters.Bounded` | internal/adapter/redis/client.go:106-141 | With fixed limits no counter is above its limit, and a span as long as the window holds at most 2 * limit - 1 hits of a key |
| `FrequencyLimit.TwiceTheLimit` | internal/adapter/redis/client.go:106-121 | The span bound for any legal hits |
| `FrequencyLimit.NeverAbove` | internal/adapter/redis/client.go:106-121 | A live counter holds between one and limit, and the last hit lies in its window |
| `FrequencyLimit.CountsSince` | internal/adapter/redis/client.go:106-121 | Over every run a counter tells the hits since its window was opened, and is gone when the window is over |
| `FrequencyLimit.TwiceIsReached` | internal/adapter/redis/client.go:106-121 | The span bound is reached for every limit |
| `CronSchedule.Next` | internal/domain/cron.go:159-188 | The answer is the earliest minute strictly after the given time in which the schedule fires, by the day rule of the code; none if and only if there is none in the start day and the 1464 days after it |
| `PosixDays.RulesAgreeIff` | internal/domain/cron.go:134-152 | For every accepted expression, the schedule fires in exactly the minutes the POSIX crontab rule names, read off the texts of the fields, if and only if the weekday is a wildcard, or the month is, or all months are set and, with a wildcard for the day of the month, all weekdays |
| `PosixDays.NextIsPosix` | internal/domain/cron.go:159-188 | For those expressions, what Next returns is the first minute POSIX names in the search window, and none when there is none |
| `PosixDays.ListingIsPosix` | internal/domain/cron.go:159-188 | And asking again and again lists exactly the minutes POSIX names, up to the last listed one |
| `PosixDays.FebruaryMondays` | internal/domain/cron.go:134-152 | The counterexample: 0 0 * 2 1 fires to POSIX on every day of February and every Monday, here on Mondays of February only; in every year a Tuesday and a Monday are missing |
| `CronSchedule.SearchDay` | internal/domain/cron.go:174-185 | Within a matching day the minute loop stops at the first firing, else at the next midnight, with no firing in between |
| `CronSchedule.WindowIs` | internal/domain/cron.go:155-172 | The window holds the day of the first candidate and the 1464 days after it |
| `CronSchedule.ListingComplete` | internal/domain/cron.go:159-188 | Asking again and again lists every minute the schedule fires in, up to the last listed one, once, in order |
| `CronReach.GivesUpIff` | internal/domain/cron.go:155-188 | No firing is reported although there is one if and only if 29 February is the only date the fields allow and the start lies in the gap before a century without a leap day |
| `CronReach.SearchGivesUp` | internal/domain/cron.go:155-188 | The counterexample: 0 0 29 2 *, asked on 1 March four years before such a century; midnight of the next 29 February fires |
| `CronReach.LeapDayFields` | internal/domain/cron.go:47-83 | That expression is accepted |
| `CronReach.PanickingExpression` | internal/domain/cron.go:90-131 | The expression 1/9223372036854775807 * * * * panics |
| `CronReach.ParsedHasValues` | internal/domain/cron.go:47-83 | Every parsed schedule has a value in each field |
| `Cron.SteppedPanicsIff` | internal/domain/cron.go:98-131 | A field n/step panics if and only if n is in range and n + step does not fit 64 bits |
| `CronSchedule.ParseCron` | internal/domain/cron.go:47-83 | Five fields, each read as its set, weekday 7 folded onto 0, wildcards noted; the first field that fails decides the failure |
| `CronTexts.WrittenFires` | internal/domain/cron.go:47-152 | Any expression written from lists of ranges and steps is read as it is written: the schedule fires in a minute exactly if the text names its minute and hour, its month, and its day of the month or weekday, either one if both are restricted |
| `CronTexts.WrittenAccepted` | internal/domain/cron.go:47-83 | Every such expression whose values are in range is accepted |
| `CronTexts.LineReadsBack` | internal/domain/cron.go:90-134 | A field of comma parts is read as exactly the values they name: every step-th from the lower end to the upper |
| `CronSchedule.FoldSunday` | internal/domain/cron.go:77-81 | Weekday v is set if and only if v is, or v is 0 and 7 is |
| `Cron.ParseCronField` | internal/domain/cron.go:90-134 | Value v is set if and only if the progression of some comma part has it; a part that overruns the integers panics, an invalid one is refused, whichever comes first |
| `Cron.MarkPart` | internal/domain/cron.go:129-131 | The stepping loop sets exactly lo, lo + step, ... up to hi; it panics if and only if the step past hi leaves the 64-bit integers |
| `Cron.ParsePart` | internal/domain/cron.go:92-128 | Step, range and bounds of one part as read |
| `Calendar.DayNumber` | internal/domain/cron.go:137-153 | A date computed from a day number has that day number |
| `Calendar.NumberOfDate` | internal/domain/cron.go:137-153 | The number of a date by the Gregorian count: 365 days a year, the leap years, 153 days in every five months from March on |
| `Calendar.NewYearWeekday` | internal/domain/cron.go:145-150 | 1 January moves on by one weekday after a common year and by two after a leap year |
| `CampaignSchedule.ComputeNext` | internal/domain/campaign_schedule.go:86-107 | The next run is the next firing after the time or after start less a minute, none when past the end or out of runs, an error when there is no firing |
| `CampaignSchedule.PlannedIff` | internal/domain/campaign_schedule.go:86-107 | A run is planned exactly for the first firing after the later of now and the start less a minute, if there is one, the schedule has not ended by then and runs are left |
| `CampaignSchedule.FirstRunEarly` | internal/domain/campaign_schedule.go:92-95 | The first run lies before the start if and only if the start is not a whole minute and its minute fires |
| `CampaignSchedule.HalfAMinuteEarly` | internal/domain/campaign_schedule.go:92-95 | The counterexample: a plan for * * * * * with a start at half past a minute runs thirty seconds early |
| `CampaignSchedule.ExhaustedPlansNothing` | internal/domain/campaign_schedule.go:110-122 | An exhausted schedule plans no further run |
| `ConsentService.Service.LogDecides` | internal/domain/preference.go:115-133 | After any runs of Upsert and Delete, a normal message on a valid channel is blocked if and only if the replay of the user's log says so |
| `ConsentService.Service.HighGoesOut` | internal/domain/preference.go:115-133 | No message of high priority is blocked |
| `ConsentService.Service.Upsert` | internal/app/preference/service.go:138-181 | Refused inputs change nothing; else only the given fields change and the log grows by entries whose replay is the new state |
| `ConsentService.Service.Delete` | internal/app/preference/service.go:183-216 | Back to everything allowed, logged so; nothing for an unknown user |
| `ConsentService.DiffConsent` | internal/app/preference/service.go:324-399 | Every entry is true of both states, and replaying the entries on the old state gives the new one |
| `ConsentService.ApplyInput` | internal/app/preference/service.go:233-289 | Refused if and only if zone, times, hour or a channel is bad; else exactly the given fields are taken over, normalised |
| `ConsentService.AcceptedWith` | internal/app/preference/service.go:233-322 | An update is accepted with a zone that can be loaded, times of day, an hour of the day or the sign to clear it, and channels that exist; blanks count as nothing given |
| `ConsentService.TimesAre` | internal/app/preference/service.go:291-299 | A time of day is what 00:00 to 23:59 are written as, and nothing else |
| `ConsentService.NormalizeTopicList` | internal/domain/preference.go:195-213 | Topics trimmed, sorted, no two equal without case, and the same topics as given |
| `ConsentService.NormalizeChannels` | internal/app/preference/service.go:301-322 | One bad name refuses the list; else lower case, sorted, each once, and the same channels as given |
| `Consent.BlocksByState` | internal/domain/preference.go:70-133 | Enforcement on the stored row is what the consent state says |
| `PreferenceCache.HitsAreRecent` | internal/app/preference/resolver.go:56-90 | However looks, reads, stores and invalidations overlap, a hit is what the table held less than the time to live before, and was read before the last invalidation of the user if and only if one fell between its read and its storing |
| `PreferenceCache.InvalidatedTooEarly` | internal/app/preference/resolver.go:70-79 | The counterexample: a row read, changed and invalidated before it is stored is served until it expires |
| `PreferenceCache.CacheIsBounded` | internal/app/preference/resolver.go:99-120 | The cache never holds more than its limit |
| `PreferenceCache.Resolver.Resolve` | internal/app/preference/resolver.go:56-79 | A call that nothing interrupts answers with the unexpired entry, else with the table, and stores that |
| `PreferenceCache.Resolver.Invalidate` | internal/app/preference/resolver.go:82-90 | The entry of the user is gone, the others stay |
| `PreferenceCache.Evict` | internal/app/preference/resolver.go:101-120 | Everything is kept up to the limit; beyond it the unexpired entries; if these are too many, nine tenths of the limit |
| `PreferenceCache.EvictsNoMore` | internal/app/preference/resolver.go:101-120 | No more is evicted than must be: nothing up to the limit, nothing unexpired unless there is more of it than that, and then at most a tenth of the limit is left free |
| `PreferenceCache.LooksUp` | internal/app/preference/resolver.go:56-66 | A look begins a miss exactly for a named user whose entry is missing or expired |
| `Templates.HistoryAgrees` | internal/app/template/service.go:139-385 | Over any interleaving of read, compare-and-swap and snapshot in which every write that takes effect was made from the current revision, revision numbers in the history are distinct, and a template approved or disabled with its snapshot written has exactly the content of that snapshot |
| `Templates.RollbackRestores` | internal/app/template/service.go:353-385 | A rollback that takes effect restores exactly the content held at the named revision, under a revision number never used before |
| `Templates.HeldStays` | internal/app/template/service.go:154-157 | The content of a revision never changes |
| `Templates.StaleIff` | internal/app/template/service.go:139-152 | A write that takes effect, whether it makes a revision or not, leaves a history that stays sound if and only if it was made from a copy with the current revision |
| `Templates.DefaultIsCurrent` | internal/app/template/service.go:139-152 | With default versions every write that takes effect was made from the current revision |
| `Reviews.ApprovedWasInReview` | internal/app/template/service.go:248-286 | In every run with default versions, what is approved was in review before, exactly as it is |
| `Reviews.DiagramFollowed` | internal/app/template/service.go:159-385 | In every such run a write that takes effect does to the template as it stands what its action is for: the status it leads to, the given fields and no other, the reason, the revision, the version by one |
| `Reviews.PreparedIff` | internal/app/template/service.go:159-385 | An action is taken up exactly on the statuses it leads from and with what it needs |
| `Templates.StaleRejectReuses` | internal/app/template/service.go:288-308 | A second counterexample: a stale rejection sets the revision back, and the next ordinary update repeats a number |
| `Templates.ExplicitVersionReuses` | internal/app/template/service.go:139-152 | The counterexample: an explicit expected version lets a stale copy through, and one revision number gets two contents |
| `TemplateService.RunAlone` | internal/app/template/service.go:159-216 | A service call run alone is the three protocol steps in a row |
| `TemplateService.Service.Update` | internal/app/template/service.go:159-216 | The edited fields and a new revision, the status as it was, under compare-and-swap |
| `TemplateService.Service.EditContent` | internal/app/template/service.go:167-209 | Taking the given fields over one after another gives the edited content |
| `TemplateService.Service.Save` | internal/app/template/service.go:139-157 | Writes by compare-and-swap and appends the snapshot only if the write took effect |
| `TemplateService.Service.Submit` | internal/app/template/service.go:248-265 | Only a draft or rejected template goes to review |
| `TemplateService.Service.Approve` | internal/app/template/service.go:267-286 | Only a template in review is approved |
| `TemplateService.Service.Reject` | internal/app/template/service.go:288-308 | Only a template in review is rejected, with the reason |
| `TemplateService.Service.Disable` | internal/app/template/service.go:310-326 | Only an approved template is disabled |
| `TemplateService.Service.Enable` | internal/app/template/service.go:328-344 | Only a disabled template is enabled, back to review |
| `TemplateService.Service.Rollback` | internal/app/template/service.go:353-385 | The content of the first history row with that revision comes back as a draft |
| `TemplateService.TemplateRepo.UpdateCAS` | internal/adapter/repo/template.go:45-78 | Writes if and only if the version is the expected one, and raises it in both copies |
| `Rendering.CutAndJoin` | internal/push/template.go:10-58 | The pieces a body is cut into give the body back |
| `Rendering.CutIsLeftmost` | internal/push/template.go:10-58 | Every placeholder piece is one, and text is kept only where no placeholder starts |
| `Rendering.PlaceholderIsMatched` | internal/push/template.go:10 | Every placeholder that starts a text is found |
| `Rendering.ErrorIffMissing` | internal/push/template.go:26-66 | With variables given, the error policy fails if and only if a variable of the body is missing |
| `Rendering.PoliciesAgree` | internal/push/template.go:26-66 | When none is missing, all policies give the same text |
| `Rendering.KeepIsIdentity` | internal/push/template.go:26-66 | Keeping placeholders without variables gives the body back |
| `Rendering.RenderedByPieces` | internal/push/template.go:26-66 | The text is put together piece by piece: plain text as it is, a given variable as its value, a missing one as the policy says: its default if it has one, nothing, or the placeholder itself |
| `Rendering.RenderTemplateWithPolicy` | internal/push/template.go:26-66 | The replacement loop computes the rendering |
| `Rendering.MissingVars` | internal/push/template.go:69-89 | Lists exactly the missing names, each once |
| `Rbac.ManagerStays` | internal/auth/session.go:312-541 | With role names given in lower case, every serial run of user and role changes keeps an enabled user whose role holds rbac.manage |
| `Rbac.UpdateKeeps` | internal/auth/session.go:342-418 | Any change of a user, role, password and flag together or apart, keeps one, however roles are spelled |
| `Rbac.UpsertLosesIff` | internal/auth/session.go:454-541 | A role change leaves no manager if and only if it updates an existing role without rbac.manage, every manager holds it through that role, and more of them are spelled otherwise than there are users without a role that are read as it |
| `Rbac.SpellingIsTheCause` | internal/auth/session.go:454-541 | Where every user has a role: if and only if all that holds and some manager spells the role otherwise |
| `Rbac.ManagerLostIff` | internal/auth/session.go:312-541 | A serial run is without a manager at some point if and only if one of its steps is such a role change |
| `Rbac.SessionsRise` | internal/auth/session.go:342-452 | In every run accounts stay and keep their names, sessions never fall, and while the session is the same so are role, password and flag |
| `Rbac.UpdateAcceptedIff` | internal/auth/session.go:342-418 | A change is accepted exactly if the account and the new role exist, no right to manage goes from its last holder or from oneself, the password is long enough, and nobody disables himself or the last manager |
| `Rbac.UpdateWrites` | internal/auth/session.go:342-418 | And then exactly the given fields of that account are written, ending its sessions if role, password or flag were among them |
| `Rbac.CreateAcceptedIff` | internal/auth/session.go:312-339 | An account is opened exactly for a new well-formed name, a password that is long enough and a role that exists |
| `Rbac.ResetAcceptedIff` | internal/auth/session.go:427-452 | A password is reset exactly for an account that exists and to one that is long enough, ending its sessions |
| `Rbac.GrantedAre` | internal/auth/session.go:454-513 | A role grants the known ones of the permissions asked for, admin also what it cannot be without; other roles keep theirs |
| `Rbac.NoShortPassword` | internal/auth/session.go:312-452 | Over every run no password gets shorter than ten characters |
| `Rbac.UpsertKeeps` | internal/auth/session.go:515-541 | With roles spelled in lower case the guard keeps one |
| `Rbac.SpellingLosesLastManager` | internal/auth/session.go:515-541 | The counterexample: a user row that spells the role in capitals escapes the guard |
| `RbacService.Manager.GuardLastRBACManageRole` | internal/auth/session.go:515-541 | Refuses if and only if rbac.manage goes from a role that has it and the users counted exactly under that name are all the managers |
| `RbacService.Manager.CountManagers` | internal/adapter/repo/auth.go:217-225 | Counts enabled users whose role, compared without case, has rbac.manage |
| `AggregatorService.Aggregator.FinalizeIfDone` | internal/scheduler/aggregator.go:132-194 | The decision, the swap, and after a lost swap one more on a fresh read, as the protocol takes them |
| `CampaignService.Service.FailedRowUsers` | internal/app/campaign/service.go:978-988 | Exactly the users of failed rows |
| `Splitter.Splitter.FilterPage` | internal/scheduler/splitter.go:204-258 | The loop keeps exactly the ids of the users the filter keeps, in order |
| `Splitter.Splitter.Finish` | internal/scheduler/splitter.go:341-371 | Unless cancelled, running status, both totals and the cleared lease; with no shard the audience is empty and nothing changes |
| `Splitter.Splitter.Turn` | internal/scheduler/splitter.go:135-339 | One turn reads the page at the token and yields the next token if there is more and the token is new |
| `GatewayService.Service.CheckSurroundings` | internal/push/gateway.go:226-264 | Status, expiry, window and quiet hours are asked in this order, and only cancellation and expiry close records |
| `GatewayService.Service.SendByMode` | internal/push/gateway.go:266-301 | The mode picks the strategy; a conditional message with one channel is single |
| `GatewayService.Service.TryNext` | internal/push/gateway.go:584-617 | One link of the chain: the gate, the send, and whether the next channel may be tried |
| `GatewayService.Service.Guard` | internal/push/gateway.go:804-860 | Opt-out, frequency, token and status in this order, each refusal with its record status |
| `GatewayService.Service.TrySend` | internal/push/gateway.go:887-943 | The attempt loop ends as the recursive specification says |
| `GatewayService.Service.Receipt` | internal/app/callback/service.go:76-83 | A receipt is one event of the record history |
| `StreamQueue.RedisStream.OnHandlerFailure` | internal/adapter/mq/redis_stream.go:404-438 | Deferred errors by age, others by delivery count; a failed copy or count leaves the entry pending |
| `StreamQueue.RedisStream.Ack` | internal/adapter/mq/redis_stream.go:474-480 | Takes the entry off the pending list unless the call fails |
| `FrequencyLimit.FrequencyCounters.RaiseAll` | internal/adapter/redis/client.go:114-119 | Raises every active counter by one, starting its window if it was gone |
| `Cron.ParseRange` | internal/domain/cron.go:106-123 | Wildcard, range or single value as read |
| `ConsentService.ApplyTimes` | internal/app/preference/service.go:233-289 | Zone, quiet hours and hour are taken over if all are valid; consent stays |
| `ConsentService.ApplyConsent` | internal/app/preference/service.go:233-289 | Switch, channels and topics are taken over if the channels are valid; times stay |
| `ConsentService.DiffKeys` | internal/app/preference/service.go:336-380 | Entries for opted-out and opted-in keys turn the old key set into the new one |
| `Consent.ReplayConcat` | internal/app/preference/service.go:324-399 | Replaying two logs after each other is replaying them as one |
| `Templates.RunKeeps` | internal/app/template/service.go:139-385 | Every run whose writes are made from the current revision keeps the invariant of row, revisions, snapshots and operations under way |
| `RbacService.Manager.SanitizePermissions` | internal/auth/session.go:462 | Keeps the known permissions, trimmed |
| `Rbac.CreateKeeps` | internal/auth/session.go:312-339 | A new user takes no manager away |
| `Rbac.ResetKeeps` | internal/auth/session.go:427-452 | A password reset takes no manager away |
| `Rbac.RevokedManagers` | internal/adapter/repo/auth.go:133-147 | Taking rbac.manage off a role takes exactly the managers of that role away |
| `TaskRepository.TaskRepo.MarkMainTaskRunning` | internal/adapter/repo/task.go:180-194 | Only a pending campaign starts to run, with its owner and lease |
| `TaskRepository.TaskRepo.RenewSplitLease` | internal/adapter/repo/task.go:196-205 | Only the owner of a running campaign renews the lease |
| `TaskRepository.TaskRepo.ClearSplitLease` | internal/adapter/repo/task.go:207-214 | Clears the lease of anybody |
| `TaskRepository.TaskRepo.CancelMainTask` | internal/adapter/repo/task.go:341-359 | Cancels what may be cancelled, raising the version |
| `TaskRepository.TaskRepo.PauseMainTask` | internal/adapter/repo/task.go:361-376 | Pauses what may be paused, raising the version |
| `TaskRepository.TaskRepo.ResumeMainTask` | internal/adapter/repo/task.go:378-394 | Resumes a paused campaign to running or pending, raising the version |
| `TaskRepository.TaskRepo.ReopenMainTask` | internal/adapter/repo/task.go:396-415 | Reopens a failed or partial campaign, adding the new rows to the total |
| `TaskRepository.TaskRepo.PatchMainMeta` | internal/adapter/repo/task.go:467-480 | Writes both totals unless the campaign is paused or final |
| `TaskRepository.TaskRepo.SyncMainCounters` | internal/adapter/repo/task.go:742-753 | Overwrites the counters and raises the version |
| `TaskRepository.TaskRepo.CreateSubTasks` | internal/adapter/repo/task.go:491-496 | Inserts every row of the batch under the next ids, leaving the others alone |
| `TaskRepository.TaskRepo.ReleaseSubTask` | internal/adapter/repo/task.go:636-646 | Puts a running row back to pending, whoever claimed it |
| `TaskRepository.TaskRepo.RenewSubTaskClaim` | internal/adapter/repo/task.go:649-657 | Renews the claim of the worker that still holds it |
| `AggregatorService.CounterCache.SetSubDone` | internal/adapter/redis/client.go:73-82 | Overwrites the three counters and forgets all marks |
| `AggregatorService.CounterCache.IncrSubDone` | internal/adapter/redis/client.go:49-60 | Adds to all three counters and reports the new done count |
| `AggregatorService.CounterCache.TryMarkSubFinished` | internal/adapter/redis/client.go:85-96 | True for the first mark of a row only |
| `RbacService.Manager.UpdateUser` | internal/auth/session.go:342-418 | Answer and new rows as specified: nothing is written unless every check passes |
| `RbacService.Manager.UpsertRole` | internal/auth/session.go:454-513 | Answer and new rows as specified, unknown permissions dropped |
| `RbacService.Manager.CreateUser` | internal/auth/session.go:312-339 | Answer and new rows as specified |
| `TaskRepository.TaskRepo.SyncMainUserCounts` | internal/adapter/repo/task.go:482-489 | Overwrites the user counts and nothing else |
| `TaskRepository.TaskRepo.DeleteSubTasksByMainTask` | internal/adapter/repo/task.go:552-555 | Deletes every row and says how many, whoever asks |
| `TaskRepository.TaskRepo.ListSubTasksByStatus` | internal/adapter/repo/task.go:691-697 | Lists exactly the rows in the status |
| `AggregatorService.CounterCache.UnmarkSubFinished` | internal/adapter/redis/client.go:98-100 | Takes one mark back |
| `TemplateService.TemplateRepo.GetVersion` | internal/adapter/repo/template.go:169-177 | The first snapshot with the revision, if any |
| `TemplateService.TemplateRepo.CreateVersion` | internal/adapter/repo/template.go:140-151 | Appends a snapshot |
| `RbacService.Manager.ResetPassword` | internal/auth/session.go:427-452 | Answer and new rows as specified: password and session version of that user only |

## Left out

- CampaignService.Service.Retry: does not model the branch in which `ReopenMainTask` matches no row, because within
  one step the campaign is still failed or partial when it is reopened; clearing the delivery marks of retried
  users is an event of the gateway (`Forgotten`) and not part of this method.
- Worker.Worker.ProcessSubTask: the second look at the campaign's status before publishing, and a row whose user list
  cannot be parsed, are not modelled; alone in one call the status cannot change, and JSON is taken as faithful.
- Worker.Worker.PublishMsgs: pacing delays and backpressure only stretch time and are not modelled.
- RateLimit.ChannelQuotaLimiter.WaitLocal: waiting is a list of clock readings; the degraded bucket used when Redis
  fails and the global bucket before the channel's are not modelled.
- Worker.Worker.FailSplit: its read of the campaign does not fail, and that of the protocol's error exit does not either;
  no run goes on after the exit of a failed read, which is `UnreadExits.UnreadExit`.
- GatewayService.Service.Handle: the 300 ms cache of campaign status is part of the gate answers.
- GatewayService.Service.SendParallel: one channel after another, not concurrently.
- RateLimit.AdmissionsBounded: a clock that goes back is outside it; the script then takes the earlier reading as the
  new date of the bucket.
- StreamQueue.RedisStream.HandleMessage: stream trimming and deletion after acknowledgement are not modelled.
- StreamQueue.RedisStream.ReclaimOnce: one call looks at all pending entries; Redis may stop earlier.
- CronReach.GivesUpIff: for schedules with a value in every field, as every parsed one has (`ParsedHasValues`).
- Rbac.ManagerStays: role names and descriptions, permission metadata, cookies and logins are not modelled; of a session only
  its number is.
- ChannelStrategy.ResolveRoutes: parsing of decimal numbers in conditions is a parameter.
- TemplateService.Service.Update: operators, notes and times are not modelled, nor is the draft's creation.
- ConsentService.Service.Upsert: source, operator and time of a log entry are not modelled, and writes do not fail.
- Listing, paging, overview, progress, export and trace members: they change nothing the protocols depend on.
- HTTP handlers, sessions and cookies, web hooks, notifications, experiment assignment rows and configuration files.
- Audience providers over HTTP, and the in-memory and RocketMQ queue drivers.
- Time zones with daylight saving.
