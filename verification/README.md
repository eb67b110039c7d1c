# Tidyboard: verified models

Dafny models of the parts of the Tidyboard server whose correctness spans several functions, statements or
requests. `dafny verify dfyconfig.toml` checks the whole project.

An SQL statement is one atomic step on in-memory tables. A protocol that runs concurrently is a state machine: a
run is any sequence of steps, a step that is not enabled changes nothing, and the theorems hold for every run, with
calls failing or dying between any two statements. Code that updates state in place is a class or a method with
loops, proved equal to a specification function about which the theorems are proved. Identifiers are natural
numbers; clocks, generated identifiers and query orders are parameters.

| files | subject |
|---|---|
| `Provisioning` | first login: look up, lock, look again, create, commit or roll back, fall back |
| `Hub`, `Broadcast` | in-memory publish/subscribe: a fine-grained machine, and the class that refines it |
| `Ledger`, `WalletProtocol` | concurrent wallet credits and ad-hoc task decisions |
| `WalletMath`, `Chores`, `WeekEnd`, `ChoreRuns`, `ChoreStore` | chore payouts, undo, week closing; runs of whole calls; the imperative code |
| `ChoreProtocol`, `ChoreRaces` | completions, undos and week closing interleaved statement by statement; when ledger and completions agree |
| `WeekEndProtocol`, `BatchProtocol` | week-end batches statement by statement, among other calls and each other |
| `SequentialCalls` | the interleaved machines agree with the whole calls when nothing comes between |
| `KeyedRuns`, `TokenBuckets`, `RateLimits`, `AccountLimits` | the two rate limiters |
| `Grouping`, `Dashboard`, `DashboardLaws`, `Rebalance`, `Contribution` | equity reports |
| `Timers`, `Paths`, `Backup`, `BackupLaws`, `AssignedMembers`, `Points` | chore timers, local backup, assigned members, reward cost |
| `Common`, `Seqs` | shared definitions and lemmas on sequences |

## Findings

- Undo reverses a completion when its stored payout is positive, whether or not it was ever credited. A chore that
  is not auto-approved is therefore charged on undo for money it never paid; the same happens, in part, when the
  price does not fit the stored 32 bits. `ChoreRuns.SettledIffAlwaysReversible` gives the exact condition under
  which ledger and completions agree, `ChoreRuns.UnapprovedUndoCharges` a concrete run.
- The steps of Undo are not in one transaction, and three races leave ledger and completions apart, each reachable
  from the empty state. Two undos that both read one completion charge the member twice (`ChoreRaces.DoubleUndoRun`).
  An undo that read before the week was closed charges for a completion that stays (`ChoreRaces.ClosingRun`). An undo
  whose row is gone can delete a newer completion of the same slot, and the member is left with the difference of the
  two prices (`ChoreRaces.NewerCompletionRun`). `ChoreRaces.SettledIffAlwaysGuarded` is the exact condition, a guard
  at each statement: a DELETE must find a row of the payout and member the undo has charged, an insert must be
  reversible, and no call may die with a payout in flight.
- Running the week-end batch again on a week pays the same streak bonuses again, unless no active chore earned one
  (`WeekEnd.RerunIsHarmlessIff`); `ChoreRuns.BonusIsPaidTwice` is a run where five cents become ten. A batch that dies
  after some credits and is run again pays those twice (`BatchProtocol.RetryPaysTwice`). In every interleaving bonuses
  paid and bonuses stored agree exactly when no batch that died, is under way or had its summary replaced has paid
  anything (`BatchProtocol.PaidIsStoredIff`).
- A completion inserted between the batch's listing and its closing is closed but missing from the summary it stores
  (`WeekEndProtocol.MissedRun`); one deleted between them is counted though it is gone, and may keep a streak bonus
  (`WeekEndProtocol.VanishedRun`). Earned stays what is closed, wherever the closing falls, if and only if no insert
  and no DELETE in between has a payout that counts (`WeekEndProtocol.EarnedStandsIff`); a bonus stays deserved if and
  only if none tips the count or the rounded ten percent (`WeekEndProtocol.StreakStandsIff`,
  `BatchProtocol.BonusStandsIff`).
- An approval changes the task's status and credits the wallet in separate statements. One that dies in between
  leaves the task approved and unpaid for good (`WalletProtocol.DiedApprovalNeverPays`,
  `WalletProtocol.TaskStaysUnpaid`).
- The comment on AccountRateLimiter speaks of a limit per 60-second window and of a sliding window. In the code each
  request, refused ones included, pushes the counter's expiry back to 60 seconds, so a client that never pauses for
  60 seconds is served its first `limit` requests and then nothing more (`AccountLimits.ChainAdmitsExactlyTheFirst`,
  `AccountLimits.SlowRequestsAreRefused`).
- Restore refuses any path that contains two dots in a row, also inside a name such as `v1..2.png`, which the backup
  accepts (`BackupLaws.TwoDotsCannotBeRestored`); empty folders and special files are not brought back
  (`BackupLaws.RoundTrip`).
- The dashboard's member and domain columns, when both their statements find the same logs, agree exactly when no
  minute was logged on a task of a domain outside the household's list; a log written between the two statements sets
  them apart as well (`DashboardLaws.DoubleEntry`, with an instance in `DashboardLaws.StrayMinutesShow`).

## Model

| member | source | states |
|---|---|---|
| `Provisioning.AtMostOneStarter` | internal/middleware/auth.go:165-221 | in every interleaving of any number of first logins, aborts included, at most one starter member is committed, only if there was none, as an admin and with new identifiers; the committed new households are exactly those of committed members |
| `Provisioning.NewAccountsGetTheirHousehold` | internal/middleware/auth.go:165-221 | a fault-free run of first logins that has come to its end has answered all of them with one admin membership of one new household |
| `Provisioning.SuccessesReturnTheCommittedMembership` | internal/middleware/auth.go:148-162 | every request that succeeds returns the one committed primary membership |
| `Provisioning.AnswersAreFinal` | internal/middleware/auth.go:148-221 | an answer given and the primary membership never change afterwards |
| `Provisioning.AbortsLeaveNothing` | internal/query/tx.go:16-36 | a request can fail at any statement of its transaction, and then leaves no rows and no lock and goes to its fallback |
| `Provisioning.KnownAccountsAreAnsweredAtOnce` | internal/middleware/auth.go:148-162 | an account with a membership is answered by the first lookup and nothing else changes |
| `Provisioning.FailuresFallBack` | internal/middleware/auth.go:210-221 | a failure between first lookup and commit is followed by a fallback lookup that answers with the primary membership, if there is one; a lookup that fails is an error |
| `Provisioning.EnabledStepsDecrease` | internal/query/tx.go:16-36 | every statement, failed or not, brings the system closer to its end |
| `Provisioning.SomeRequestCanMove` | internal/query/tx.go:22-35 | no deadlock on the row lock: while a request is unanswered some statement can execute without a fault |
| `Provisioning.FaultFreeRunsNeverFail` | internal/middleware/auth.go:169-220 | without faults no request gets an error |
| `Provisioning.FinishedRunsServeEveryone` | internal/middleware/auth.go:148-221 | a fault-free run that has come to its end has served every request with the same membership |
| `Provisioning.LostAcknowledgementIsRecovered` | internal/middleware/auth.go:214-219 | a commit whose acknowledgement is lost is found by the fallback lookup |
| `Hub.Delivery` | internal/broadcast/broadcast.go:99-118 | received plus buffered is an in-order subsequence of what was published on the topic while subscribed; at most 32 are buffered; each missing event met a buffer of exactly 32, and their number is exact |
| `Hub.CompleteIffNeverFull` | internal/broadcast/broadcast.go:103-108 | a subscriber misses nothing if and only if no publish found its buffer full |
| `Hub.NeverCrashes` | internal/broadcast/broadcast.go:100-132 | in any run every send reaches an open channel and every cancel that closes closes an open one; listed channels are distinct and are exactly the open ones of the topic |
| `Hub.SubscriberIsServed` | internal/broadcast/broadcast.go:99-118 | from every reachable state: subscribe, publish, receive, and the new channel is open and has got the event |
| `Hub.OpenUntilCancelled` | internal/broadcast/broadcast.go:112-131 | a channel stays open on its topic, and what it has received stays received, until its own cancel |
| `Hub.EveryEventIsOffered` | internal/broadcast/broadcast.go:99-118 | short of its own cancel, whatever else goes on, a subscriber is offered exactly the events published on its topic since it subscribed |
| `Hub.CancelRemovesExactlyItself` | internal/broadcast/broadcast.go:120-131 | cancel takes out its own entry, keeps the others in order and other topics untouched, closes only its channel, and does nothing when called again |
| `Hub.PublishTouchesOneTopic` | internal/broadcast/broadcast.go:100-110 | no step of a publish changes lists, logs or channels of another topic |
| `Hub.PublishAllIsARun` | internal/broadcast/broadcast.go:100-110 | publishing in one step is what the statement-by-statement publish does when nothing comes between |
| `Broadcast.Append` | internal/broadcast/broadcast.go:114-118 | one more channel at the end, in the same array while it has room and otherwise in a larger one |
| `Broadcast.RemoveAt` | internal/broadcast/broadcast.go:124-129 | the later channels move down inside the same array, which then holds the list without that one |
| `Broadcast.MemoryBroadcaster.Subscribe` | internal/broadcast/broadcast.go:114-118 | the class step is the machine's subscribe; the returned channel is open, empty and in the topic's list |
| `Broadcast.MemoryBroadcaster.Publish` | internal/broadcast/broadcast.go:100-110 | the loop of non-blocking sends is the machine's publish |
| `Broadcast.MemoryBroadcaster.Cancel` | internal/broadcast/broadcast.go:120-131 | the search, the removal inside the backing array and the close are the machine's cancel |
| `Broadcast.MemoryBroadcaster.Receive` | internal/broadcast/broadcast.go:114-115 | taking from the channel is the machine's receive |
| `WalletProtocol.RecomputeIsANoOpIffNothingIsOutstanding` | internal/query/wallet.sql.go:15-21 | with insert and adjust as separate interleaved steps, balance plus outstanding adjustments is the ledger sum; recomputing changes nothing exactly when none is outstanding |
| `WalletProtocol.QuiescentBalanceIsLedgerSum` | internal/service/wallet.go:57-92 | when every call has finished, each cached balance is its ledger sum |
| `WalletProtocol.TasksArePaidAtMostOnce` | internal/handler/wallet.go:400-425 | in every interleaving of complete, approve and decline, crashes included, a task has at most one ad_hoc row, only if approved, for its own payout and member |
| `WalletProtocol.QuiescentTasksArePaidExactlyOnce` | internal/handler/wallet.go:400-425 | when every call has finished, an approved task with a payout has exactly one row |
| `WalletProtocol.ApprovalDecides` | internal/query/wallet.sql.go:40-44 | an approval approves the task if it is pending in the household, and otherwise changes no task and fails |
| `WalletProtocol.DeclineDecides` | internal/query/wallet.sql.go:174-178 | a refusal declines the task under the same condition, and otherwise changes no task and fails |
| `WalletProtocol.CompletionIffAllowed` | internal/handler/wallet.go:350-370 | a task becomes pending exactly if it is open in the household and the caller is an admin or its own member |
| `WalletProtocol.ApprovedTasksArePaid` | internal/handler/wallet.go:400-425 | in every interleaving, a task pending when its approval ran stays approved and, once all calls have finished, has exactly one row if it has a payout |
| `WalletProtocol.DeclinedTasksAreNotPaid` | internal/query/wallet.sql.go:174-178 | in every interleaving, crashes included, a task pending when its refusal ran stays declined and has no row |
| `WalletProtocol.UninterruptedCredit` | internal/service/wallet.go:57-92 | a credit nobody interrupts appends its row and raises that one balance, and does neither if the index refuses it |
| `WalletProtocol.UninterruptedApproval` | internal/handler/wallet.go:400-425 | an approval nobody interrupts adds one row of the task's payout and member, and that much to the balance |
| `WalletProtocol.TaskIsPaid` | internal/handler/wallet.go:334-425 | a run from the start: created, marked done, approved and paid |
| `WalletProtocol.DiedApprovalNeverPays` | internal/handler/wallet.go:400-425 | an approval that dies after its status update and before its ledger row leaves the task approved and unpaid in every continuation |
| `WalletProtocol.TaskStaysUnpaid` | internal/handler/wallet.go:400-425 | a run from the start in which that happens |
| `WalletProtocol.TaskIsCreatedIff` | migrations/20260427000010_chore_wallet.sql:74-81 | a task starts open with its member and payout, unless the payout is negative or the identifier taken |
| `WalletProtocol.StepEvolvesTasks` | internal/query/wallet.sql.go:40-44 | a status moves only from open to pending to approved or declined |
| `WalletProtocol.DecisionsAreFinal` | internal/query/wallet.sql.go:174-178 | an approved or declined task never changes again, and a pending one never reopens |
| `WalletMath.WeeklyDivisor` | internal/service/wallet_math.go:10-22 | the sum of weight times frequency over entries where neither is negative; zero for lists of different lengths |
| `WalletMath.DivisorSkipsNegative` | internal/service/wallet_math.go:10-22 | entries with a negative weight or frequency add nothing |
| `WalletMath.WrappingIsCongruent` | internal/service/chore.go:165-172 | conversions to 32 and 64 bits keep the value modulo the integer's size |
| `WalletMath.PayoutIsFloorIff` | internal/service/wallet_math.go:24-33 | the payout is the floor of the exact share if and only if the product fits 64 bits |
| `WalletMath.FullWeekPaysTheAllowance` | internal/service/wallet_math.go:24-33 | all instances of a week together pay the allowance, never more and short of it by less than a cent each |
| `WalletMath.StreakBonus` | internal/service/wallet_math.go:35-42 | ten percent rounded half up, nothing on a total that is not positive |
| `Chores.PricesShareOutTheAllowance` | internal/service/chore.go:145-154 | at current prices a full week of a member's active chores pays out the allowance |
| `Chores.OnlyChorePrice` | internal/service/chore.go:40-53 | a member's only chore is paid the allowance over the days it is due: seven, five, one, as many as are listed, or nothing for an unknown kind |
| `Chores.FlatPrice` | internal/service/chore.go:154-161 | without a positive allowance the price is weight times the household's rate, if it has one |
| `Chores.AllowanceComesFirst` | internal/service/chore.go:142-161 | with a positive allowance there is a price and the rate has no influence on it |
| `Chores.OthersDoNotShare` | internal/service/chore.go:119-127 | archived chores and those of other members have no part in a price |
| `Chores.CompletionIsStored` | internal/service/chore.go:163-213 | a new completion is stored at its slot, approved exactly if the chore approves itself, with the price; an approved positive price goes to ledger and balance |
| `Chores.UndoIffOpen` | internal/service/chore.go:235-275 | undo fails and does nothing exactly if the slot has no open completion; otherwise it removes that one alone and charges its positive payout |
| `Chores.CompleteKeepsKeys` | internal/query/chore.sql.go:101-109 | completing keeps one completion per chore and day and distinct ids |
| `Chores.CompleteIsIdempotent` | internal/service/chore.go:163-199 | a second call for the chore and day changes nothing, pays nothing and returns the same row |
| `Chores.CompleteFailsOnlyUpFront` | internal/service/chore.go:102-161 | a call fails exactly when the chore is not in the household or has no price, and then wrote nothing; the credit of a new completion cannot fail |
| `Chores.UndoRevertsCompleteIff` | internal/service/chore.go:235-275 | undoing a fresh completion restores the completions exactly, and every balance if and only if the price was reversible |
| `Chores.UndoKeepsDrift` | internal/service/chore.go:247-272 | an undo moves net ledger and live payouts by the same amount |
| `Chores.CompleteMovesDrift` | internal/service/chore.go:163-213 | a completion moves them apart by exactly credited minus stored payout |
| `ChoreRuns.RunKeepsKeys` | internal/query/chore.sql.go:101-109 | in every run at most one completion per chore and day |
| `ChoreRuns.RecomputeIsANoOp` | internal/query/wallet.sql.go:512-521 | in every run of chore, wallet and week-end operations the cached balance is the ledger sum and recomputing changes nothing |
| `ChoreRuns.RecomputeRepairs` | internal/query/wallet.sql.go:512-521 | whatever the balance was, recomputing makes it the ledger sum, for a member with a wallet |
| `ChoreRuns.WalletOperations` | internal/service/wallet.go:124-167 | tips add and cash-outs take away positive amounts only; adjustments do either, given a reason; one row, one balance, and nothing if refused |
| `ChoreRuns.SettledIffAlwaysReversible` | internal/service/chore.go:201-264 | the net ledger amount of every member is the sum of positive payouts of live completions after every prefix of a run if and only if every inserted completion was reversible |
| `ChoreRuns.AutoApprovedSettles` | internal/service/chore.go:201-213 | it always is for auto-approved chores whose price fits 32 bits |
| `ChoreRuns.UnapprovedUndoCharges` | internal/service/chore.go:252-264 | a run in which a chore needing approval is undone and leaves the member in debt |
| `ChoreRuns.ThreeDaysShareTheAllowance` | internal/service/chore.go:40-53 | a run: 900 cents a week and one chore on three listed days, completed for 300 |
| `ChoreRuns.BonusIsPaidTwice` | internal/cron/week_end_batch.go:87-124 | a run from the empty tables: a 50-cent completion, and two closings of its week that pay five cents each |
| `ChoreRuns.RunPaysOnce` | migrations/20260501000050_chore_wallet_idempotency.sql:22-24 | in every run a completion has at most one payout row |
| `ChoreRuns.ClosedForGood` | internal/query/chore.sql.go:30-36 | a closed completion survives every later run unchanged, and undoing it fails and does nothing |
| `ChoreStore.Store.Credit` | internal/service/wallet.go:57-92 | creating the wallet, inserting and adjusting is the specified credit, refused only by the unique index |
| `ChoreStore.Store.Recompute` | internal/query/wallet.sql.go:512-521 | stores the ledger sum for a member with a wallet and changes nothing else |
| `ChoreStore.Store.PriceOf` | internal/service/chore.go:112-161 | the branches and the divisor loop compute the specified price |
| `ChoreStore.Store.Complete` | internal/service/chore.go:102-232 | tables and result are those of the specification |
| `ChoreStore.Store.Undo` | internal/service/chore.go:235-275 | tables and result are those of the specification |
| `ChoreStore.GroupByChore` | internal/cron/week_end_batch.go:68-71 | each chore's group is its completions in order |
| `ChoreStore.Store.PayBonuses` | internal/cron/week_end_batch.go:73-103 | the loop's credits and four totals are those of the specification |
| `ChoreStore.Store.ProcessMemberWeek` | internal/cron/week_end_batch.go:49-126 | tables afterwards are those of the specification |
| `ChoreStore.Store.RunForHousehold` | internal/cron/week_end_batch.go:35-47 | closes the last full week of each listed member in turn |
| `WeekEnd.LastFullWeekIff` | internal/cron/week_end_batch.go:128-136 | the one Sunday-to-Saturday stretch that ended within the last seven days before today |
| `WeekEnd.CalendarAgrees` | internal/cron/week_end_batch.go:128-136 | day numbers fit the calendar: two known dates |
| `WeekEnd.WeekPaysTheStoredBonus` | internal/cron/week_end_batch.go:87-124 | closing a week adds exactly the stored streak bonus to the member's ledger and balance and nothing to anyone else's |
| `WeekEnd.OneRowPerStreak` | internal/cron/week_end_batch.go:87-103 | each active chore that earns a bonus gets one ledger row that refers to it, and nothing else is written there |
| `WeekEnd.OthersDoNotCount` | internal/cron/week_end_batch.go:49-57 | archived chores and those of other members have no part in bonuses and summary |
| `WeekEnd.RegroupingLosesNothing` | internal/cron/week_end_batch.go:68-85 | summing by chore over the active chores counts each completion of an active chore once |
| `WeekEnd.SummaryCountsActiveChores` | internal/cron/week_end_batch.go:113-121 | earned and completed are the total and number of the week's completions whose chore is active, possible is the days active chores were due; other summaries stay |
| `WeekEnd.FullCountIsEveryDay` | internal/cron/week_end_batch.go:78-87 | a week never counts more completions of a chore than days, and as many exactly when every day has one |
| `WeekEnd.DailyStreakIsEveryDay` | internal/cron/week_end_batch.go:87-89 | a daily chore earns its bonus exactly when every day of the week has a completion and they pay five cents or more |
| `WeekEnd.StreaksCountDays` | internal/service/chore.go:40-53 | a streak takes seven days of a daily chore, any one of a weekly one, any five of a "weekdays" one, weekends included, as many as are listed of a "specific_days" one, on whatever days; other kinds earn nothing |
| `WeekEnd.RerunPaysTheBonusAgain` | internal/cron/week_end_batch.go:49-126 | a second run on the same week stores the same summary and pays the same bonus once more |
| `WeekEnd.RerunIsHarmlessIff` | internal/cron/week_end_batch.go:49-126 | a second run leaves the ledger alone if and only if no active chore earned its bonus |
| `WeekEnd.HouseholdIsPaidTheStoredBonuses` | internal/cron/week_end_batch.go:35-47 | a household run pays each listed member the bonus stored for the week and nobody else anything |
| `WeekEnd.HouseholdWeekIsClosed` | internal/cron/week_end_batch.go:35-47 | a household run closes exactly the listed members' completions of the week |
| `ChoreProtocol.RunKeepsSlots` | internal/query/chore.sql.go:101-109 | at most one completion per chore and day in every interleaving of statements |
| `ChoreProtocol.InterleavedRunPaysOnce` | migrations/20260501000050_chore_wallet_idempotency.sql:22-24 | at most one payout row per completion in every interleaving |
| `ChoreProtocol.PayoutsAreNeverRefused` | internal/service/chore.go:201-213 | the unique index never refuses a payout |
| `ChoreProtocol.EveryCentIsAccounted` | internal/service/chore.go:163-274 | in every interleaving, crashes included, net ledger minus live payouts is the sum of what each call, as far as it got, left behind |
| `ChoreProtocol.QuietDriftIsOvercharge` | internal/service/chore.go:252-272 | when all calls have returned, with reversible prices, the shortfall is exactly what undos charged beyond the rows they removed |
| `ChoreProtocol.UndoIsUndisturbedIff` | internal/query/chore.sql.go:146-149 | an undo removes the row it had read exactly when that row is still there unchanged at its DELETE |
| `ChoreProtocol.RacingUndosChargeTwice` | internal/service/chore.go:238-272 | in any state, two undos past their read charge twice and the second removes nothing |
| `ChoreProtocol.ClosingRaceChargesForLiveRow` | internal/service/chore.go:247-272 | in any state, a closing between read and delete leaves the row, closed, and the charge |
| `ChoreProtocol.ClosedSurvives` | internal/query/chore.sql.go:146-149 | a closed completion survives every interleaving |
| `ChoreRaces.DeleteGuardIff` | internal/query/chore.sql.go:146-149 | a DELETE leaves nothing behind for any member if and only if the deletable row at the slot has the positive payout and the member of the row read, or neither pays |
| `ChoreRaces.SettledIffAlwaysGuarded` | internal/service/chore.go:163-274 | in every interleaving net ledger and live payouts agree after every prefix, up to what calls under way still owe, if and only if every statement and every crash met its guard |
| `ChoreRaces.CallsLeaveNothingIffGuarded` | internal/service/chore.go:163-274 | call by call: after every prefix each returned or dead call has left nothing behind for anyone if and only if every guard was met |
| `ChoreRaces.GuardedRunsEndSettled` | internal/service/chore.go:163-274 | a run whose guards were all met, once every call has returned or died, leaves each member exactly the payouts of the completions that exist |
| `ChoreRaces.UndisturbedUndosSettle` | internal/service/chore.go:238-272 | a schedule with no other DELETE of the slot and no closing of the row between an undo's read and its DELETE settles, other guards being met |
| `ChoreRaces.DoubleUndoRun` | internal/service/chore.go:238-272 | from the empty state, for every fair chore and price: two undos that both read one completion leave the member short by its price |
| `ChoreRaces.ClosingRun` | internal/service/chore.go:247-272 | from the empty state: a closing between read and DELETE leaves the row, closed, and the member short by its price |
| `ChoreRaces.NewerCompletionRun` | internal/service/chore.go:238-272 | from the empty state: the late DELETE removes a newer completion and the member ends with the new price less the old |
| `WeekEndProtocol.EarnedAgainstClosed` | internal/cron/week_end_batch.go:59-111 | the exact difference: earned is the payouts closed, less those inserted and plus those deleted between listing and closing; every completion of the week there ends up closed |
| `WeekEndProtocol.EarnedStandsIff` | internal/cron/week_end_batch.go:59-111 | wherever the closing falls, earned is what it closes if and only if every insert and DELETE since the listing has no payout that counts |
| `WeekEndProtocol.StreakStandsIff` | internal/cron/week_end_batch.go:87-111 | wherever the closing falls, a chore's bonus is what the closed week deserves if and only if no insert or DELETE met a count and total that it tips |
| `WeekEndProtocol.MissedRun` | internal/cron/week_end_batch.go:59-111 | from the empty state, for every fair chore: a completion inserted after the listing is closed and earned stays zero |
| `WeekEndProtocol.VanishedRun` | internal/cron/week_end_batch.go:59-111 | from the empty state: a completion deleted after the listing stays earned, with its bonus, and nothing is closed |
| `WeekEndProtocol.RunMovesTotal` | internal/query/chore.sql.go:30-36 | over any interleaving a total over completions moves by what is inserted less what is deleted; closing moves none |
| `BatchProtocol.BatchesOnlyClose` | internal/cron/week_end_batch.go:49-126 | but for bonus rows, every run with any number of batches is a run of completions, undos and closings alone |
| `BatchProtocol.BonusStandsIff` | internal/cron/week_end_batch.go:59-111 | among any calls and other batches, a bonus stands until the closing if and only if no step in between tips it |
| `BatchProtocol.BonusesAreAccounted` | internal/cron/week_end_batch.go:87-103 | in every run, deaths and reruns included, a member's bonus rows are exactly what each batch, as far as it got, credited |
| `BatchProtocol.SummariesHaveOneAuthor` | internal/cron/week_end_batch.go:113-121 | each stored summary has the bonus and earnings of exactly one batch, the last to store for its week |
| `BatchProtocol.PaidIsStoredIff` | internal/cron/week_end_batch.go:73-124 | bonuses paid are at least those stored, and equal if and only if no dead, unfinished or replaced batch paid any |
| `BatchProtocol.RetryPaysTwice` | internal/cron/week_end_batch.go:87-124 | from the empty state: a batch that dies after a credit and one run after it pay the bonus twice and store it once |
| `SequentialCalls.CompleteRunsThrough` | internal/service/chore.go:163-213 | inserting and paying with nothing in between is one call of Complete on completions and ledger |
| `SequentialCalls.UndoRunsThrough` | internal/service/chore.go:238-272 | reading, charging and deleting with nothing in between is one call of Undo |
| `SequentialCalls.BatchRunsThrough` | internal/cron/week_end_batch.go:49-126 | a batch with nothing in between leaves the completions, ledger and summaries of the sequential week closing |
| `KeyedRuns.KeysAreIndependent` | internal/middleware/ratelimit.go:75-84 | each key of a limiter gets the answers its own requests alone would get |
| `TokenBuckets.TokensStayInBounds` | internal/middleware/ratelimit.go:33-47 | in any run tokens stay between zero and the maximum |
| `TokenBuckets.WindowBound` | internal/middleware/ratelimit.go:33-47 | in any run any window of length t admits at most max plus what t earns |
| `TokenBuckets.PatientRequestIsAdmitted` | internal/middleware/ratelimit.go:33-47 | with max at least one, a request after a gap that earns a token is admitted |
| `TokenBuckets.FreshBucketServesFirst` | internal/middleware/ratelimit.go:24-47 | a fresh bucket admits its first max requests however fast they come |
| `TokenBuckets.TooSmallAdmitsNothing` | internal/middleware/ratelimit.go:42-46 | a bucket that cannot hold one token admits nothing |
| `RateLimits.LimiterIsOneBucketPerKey` | internal/middleware/ratelimit.go:65-84 | whatever other keys do, a key is answered as one fresh bucket answers it |
| `RateLimits.LimiterWindowBound` | internal/middleware/ratelimit.go:65-97 | a key is admitted at most requestsPerMinute + t * requestsPerMinute / 60 times in any window of t seconds |
| `RateLimits.LimiterServesPatientKeys` | internal/middleware/ratelimit.go:65-97 | a key that pauses 60 / requestsPerMinute seconds is served |
| `RateLimits.LimiterServesFirst` | internal/middleware/ratelimit.go:65-97 | a key's first requestsPerMinute requests are served, whatever other keys do |
| `RateLimits.NoAllowanceAdmitsNothing` | internal/middleware/ratelimit.go:65-73 | a configured limit below one admits nothing |
| `RateLimits.TokenBucket.Allow` | internal/middleware/ratelimit.go:33-47 | the update of tokens and time is the specified step |
| `RateLimits.RateLimiter.BucketOf` | internal/middleware/ratelimit.go:75-84 | returns the key's bucket, creating it on first use and leaving the others |
| `RateLimits.RateLimiter.Check` | internal/middleware/ratelimit.go:86-97 | one request is one step of its key's bucket |
| `AccountLimits.WindowBound` | internal/middleware/ratelimit.go:151-168 | no half-open 60-second window admits more than the limit |
| `AccountLimits.ChainAdmitsExactlyTheFirst` | internal/middleware/ratelimit.go:151-168 | in a chain of requests before the counter runs out exactly the first min(limit, n) are admitted, and the remaining count shown goes down by one |
| `AccountLimits.SlowRequestsAreRefused` | internal/middleware/ratelimit.go:151-168 | at a limit of two, the third of three requests 50 seconds apart is refused |
| `AccountLimits.RemainingIsSensible` | internal/middleware/ratelimit.go:161-172 | the remaining count shown is never negative, below the limit when admitted, and zero when refused |
| `AccountLimits.AccountsAreIndependent` | internal/middleware/ratelimit.go:147-155 | each account gets what its own requests alone would get |
| `AccountLimits.AccountRateLimiter.Check` | internal/middleware/ratelimit.go:147-173 | one request increments and renews its account's counter alone and decides on the new count |
| `Dashboard.GetDashboard` | internal/service/equity.go:331-411 | one entry per row in order of member id, one summary per domain in list order, with the tallied counts and percentages |
| `Dashboard.TotalMinutes` | internal/service/equity.go:360-364 | the household total does not depend on the map's iteration order |
| `Dashboard.MemberEntries` | internal/service/equity.go:366-386 | every member of the map once, sorted strictly by id |
| `Dashboard.Tally` | internal/service/equity.go:346-396 | each key's count is the sum of its rows, rows without a key skipped |
| `DashboardLaws.EntriesAreOwnLogs` | internal/query/equity.sql.go:495-506 | each member who logged has one entry whose columns are sums over that member's own logs |
| `DashboardLaws.MemberTotals` | internal/service/equity.go:366-383 | entries add up to all minutes logged, and each to its cognitive plus physical minutes |
| `DashboardLaws.LoadsMakeAHundred` | internal/service/equity.go:369-372 | load percentages add up to a hundred when anything is logged |
| `DashboardLaws.ColoursAreShares` | internal/service/equity.go:619-628 | red exactly from 70 hundredths of all logged minutes, yellow from 60, green below or when nothing is logged |
| `DashboardLaws.AtMostOneIsOverloaded` | internal/service/equity.go:619-628 | at most one member is shown yellow or red, and beside a red one nobody is above 30 percent |
| `DashboardLaws.DomainTotals` | internal/service/equity.go:388-411 | domain totals add up to the minutes of logs whose task's domain is listed |
| `DashboardLaws.DoubleEntry` | internal/query/equity.sql.go:547-558 | member total and domain total, read by two statements, differ by the orphan minutes and what was logged between them; when nothing was, they agree if and only if every orphan log is empty |
| `DashboardLaws.StrayMinutesShow` | internal/service/equity.go:388-411 | a dashboard where half an hour on a task of an unlisted domain is in the member column only |
| `DashboardLaws.CountsAreTasks` | internal/query/equity.sql.go:31-39 | tasks owned and domain task counts are numbers of active tasks |
| `DashboardLaws.DomainsAreAsListed` | internal/service/equity.go:388-411 | domains owned are counted from the list, and each summary has the list's id, name and owner |
| `Rebalance.GetRebalanceSuggestions` | internal/service/equity.go:559-614 | nothing unless two members and a load above 55; otherwise the first two of a longest-first order, for any unstable sort |
| `Rebalance.RebalanceIsOptimal` | internal/service/equity.go:554-615 | suggestions are min(2, k) distinct longest active tasks of the one heavy member, described by their own and their domain's names, to a different member whom nobody undercuts; all others are below 45 percent |
| `Contribution.Contribution` | internal/service/equity.go:488-525 | the two loops produce the specified report |
| `Contribution.HiddenRatesDoNotShow` | internal/service/equity.go:534-541 | rates the viewer may not see influence no field of the report |
| `Contribution.MinutesAreForEverybody` | internal/service/equity.go:500-523 | minutes and their percentages are each row's own and the same for every viewer; cents appear exactly for visible members with both rates set |
| `Contribution.SharesAreRanges` | internal/service/equity.go:512-516 | the midpoint lies between the lower and the upper amount |
| `Contribution.CentsAreExact` | internal/service/equity.go:543-547 | while the product fits 64 bits an amount is minutes times rate over sixty, cut off by less than a cent |
| `Contribution.AnHourIsTheRate` | internal/service/equity.go:508-516 | a visible share of sixty minutes has the two rates as its amounts |
| `Contribution.SharesAreExact` | internal/service/equity.go:508-516 | each end of a visible share is exact to less than a cent |
| `Contribution.SharesWeighTheMiddle` | internal/service/equity.go:480-522 | a visible share's percentage is its amount at the middle of its rates, to less than a cent, in the visible total |
| `Contribution.MinutesMakeAHundred` | internal/service/equity.go:506-508 | minute percentages add up to a hundred when there are minutes |
| `Contribution.CentsMakeAHundred` | internal/service/equity.go:517-522 | visible cents percentages add up to a hundred when the visible total is positive and are absent otherwise |
| `Timers.TimersNeverOverlap` | internal/query/chore_time_entries.sql.go:218-225 | in every run a pair has at most one open entry, and an earlier timer has ended when a later one starts |
| `Timers.TimersClaimAtMostElapsedTime` | internal/service/chore_timer.go:38-72 | the time a pair's timers cover never exceeds the time that has passed |
| `Timers.StopFailsIff` | internal/service/chore_timer.go:60-72 | stop fails exactly when none is open and otherwise closes the one open entry now |
| `Timers.StartThenStop` | internal/service/chore_timer.go:40-72 | start is refused exactly if the pair has an open timer; otherwise start and stop leave exactly one entry from the one time to the other |
| `Timers.StartThenStopRuns` | internal/service/chore_timer.go:40-72 | the same from every reachable table, as a run |
| `Timers.ManualEntryIff` | internal/service/chore_timer.go:85-101 | a manual entry is recorded, closed, exactly if it starts before it ends |
| `Timers.StoppedTimerCounts` | internal/query/chore_time_entries.sql.go:15-24 | a closed entry counts, to the nearest second, in exactly the ranges that hold its start and for its member; an open one in none |
| `Timers.BreakdownAddsUp` | internal/query/chore_time_entries.sql.go:46-58 | totals are those of the table at the first read, the breakdown adds up to those at the second, and both agree when nothing came between |
| `Timers.BreakdownNeverFallsShort` | internal/service/chore_timer.go:121-160 | whatever timer calls come between the two reads, the breakdown is at least the totals |
| `Timers.AdjacentRangesAddUp` | internal/query/chore_time_entries.sql.go:15-24 | totals of adjacent half-open ranges of a table add up |
| `Timers.TimerService.Start` | internal/service/chore_timer.go:40-55 | the insert under the unique index is the specified start |
| `Timers.TimerService.Stop` | internal/query/chore_time_entries.sql.go:256-265 | the update of the latest open entry is the specified stop |
| `Timers.TimerService.RecordManualEntry` | internal/service/chore_timer.go:85-101 | records exactly when the start is before the end |
| `Timers.TimerService.GetSummary` | internal/service/chore_timer.go:121-160 | totals of the closed entries in range, and the breakdown the second read returned |
| `Paths.CleanJoin` | internal/service/backup_local.go:257-258 | cleaning a joined path gives its components back |
| `Backup.WriteMediaTree` | internal/service/backup_local.go:245-286 | appends one entry per regular file of the walk |
| `Backup.BackupLocal` | internal/service/backup_local.go:119-166 | database entry, media entries, manifest, in this order |
| `Backup.Host.MkdirAll` | internal/service/backup_local.go:389-391 | creates the folder and its missing parents unless something else is in the way |
| `Backup.Host.RestoreLocal` | internal/service/backup_local.go:363-404 | the entry loop is the specified restore |
| `BackupLaws.RestoreOverlays` | internal/service/backup_local.go:371-401 | restoring into any directory succeeds if and only if every regular file has no ".." in its path and fits; then files and their folders are laid over it; the dump is fed exactly once either way |
| `BackupLaws.RoundTrip` | internal/service/backup_local.go:338-346 | into an empty directory it succeeds if and only if no name on the way to a file has "..", and gives back the tree if and only if that held only regular files and folders leading to one |
| `BackupLaws.DatabaseOnly` | internal/service/backup_local.go:376-379 | without a media path the directory is untouched and the dump fed once |
| `BackupLaws.OwnBundleDatabaseOnly` | internal/service/backup_local.go:376-379 | that holds of every bundle a backup with media writes |
| `BackupLaws.BundleNames` | internal/service/backup_local.go:119-166 | dump first, manifest last, and in between the files of the walk below "media/" |
| `BackupLaws.RefusedDumpStops` | internal/service/backup_local.go:372-375 | a database that refuses the dump stops the restore before any file is written |
| `BackupLaws.DumpsAreFedInOrder` | internal/service/backup_local.go:363-375 | a restore that succeeds has fed every dump in the bundle, in order and once |
| `BackupLaws.ForeignEntriesAreIgnored` | internal/service/backup_local.go:376-404 | entries of neither kind change nothing, wherever they stand |
| `BackupLaws.ReservedComponentsDoNotMatter` | internal/service/backup_local.go:388-393 | empty components and single dots in a name make no difference to where a file goes |
| `BackupLaws.NamelessEntryFails` | internal/service/backup_local.go:388-396 | an entry that names only the media directory stops the restore |
| `BackupLaws.FailedEntryChangesNothing` | internal/service/backup_local.go:371-401 | an entry that fails leaves directory and database as they were |
| `BackupLaws.TwoDotsCannotBeRestored` | internal/service/backup_local.go:384-387 | a name with two dots in a row is backed up but refused on restore |
| `AssignedMembers.ValidateAssignedMembers` | internal/service/event.go:144-178 | accepts exactly when every id is a member of the household, and returns them without duplicates in first-seen order |
| `AssignedMembers.CountsAgreeIffAllBelong` | internal/query/member.sql.go:179-182 | the comparison of counts is set inclusion |
| `Points.EffectiveCost` | internal/service/points_math.go:14-26 | base plus active deltas, floored at zero at the end |
| `Points.OrderDoesNotMatter` | internal/service/points_math.go:16-21 | the cost does not depend on the order of adjustments |
| `Points.OneMoreAdjustment` | internal/service/points_math.go:14-26 | an adjustment is a change of the base until it expires, and nothing from the time of its expiry on |
| `Points.EarlierFilterIsHarmless` | internal/query/reward.sql.go:273-277 | a list filtered at an earlier time costs the same as the full list |
| `Points.FilterIsHarmlessIff` | internal/query/reward.sql.go:273-277 | filtering keeps the cost of every base and list if and only if it is done no later than the time of the calculation |

## Left out

- HTTP handling, JSON, routing, WebSockets, logging, metrics, audit entries and the broadcast of events: plumbing.
- WithAccountLock without a transaction-capable connection, the test-token shortcut and the creation of the account
  row itself; the account row is taken as existing.
- The Redis broadcaster, Redis failures (the account limiter fails open), and INCR and EXPIRE as two separate steps.
  Whether a key still exists at the exact instant its time to live ends is left open by a flag.
- Floating-point rounding: tokens, rates, percentages and timestamps are real numbers.
- 64-bit overflow of sums of minutes and cents and of balances; 32-bit and 64-bit conversions are modelled where a
  payout, a product or a stored count goes through one.
- The order ORDER BY name gives chores: it decides only the order of ledger rows of one week closing.
- Failures of the database in the middle of the sequential chore calls; `ChoreProtocol` has them as crashes.
- The order of SQL groups, of a map iteration, of a directory walk and of equal elements in a sort: every order is
  covered.
- Deletion of members and households, which cascades to wallets, ledger and completions.
- The weekly trend of the dashboard and the reason text of a suggestion.
- The aggregate query behind the contribution report: its rows are a parameter.
- Rate limiting keys: taking the address apart, and the per-address fallback for requests without an account.
- Which allowance setting is active on a day: the active amount is part of the tables. WeekEndBatch.Run is a stub in
  the source; RunForHousehold is modelled.
- A media path that is not a directory, symbolic links inside a restore destination, tar and gzip bytes, file modes
  and times, the temporary file and its rename.
- BackupLaws.RestoreOverlays: a named pipe or device already at the target of a file counts as a failure, while
  os.Create would open it and write into it.
- The statements inside one bonus credit: `BatchProtocol` has its ledger row only; wallets and balances under
  interleaving are those of `WalletProtocol`.
- Name clean-up of backup tags, backup listing, recurrence rules, points balances, shopping, recipes, meal plans,
  plain create, read, update and delete: easy members only.
