# OxiBelt in Dafny

Models of the parts of OxiBelt whose correctness spans many operations, and proofs of what they
promise. `dafny verify dfyconfig.toml` checks everything.

- **Route bandwidth scheduler** (`Bandwidth*.dfy`). Each direction of a route is a token bucket
  that counts credit in byte-nanoseconds, may go into bounded debt for an indivisible item, serves
  a queue by deficit round-robin, and keeps grants that nobody has claimed yet. `BandwidthState`
  holds the mutable buckets and the limiter; every locked section is proved to be one step of the
  state machine in `BandwidthRuns`, and the other modules prove what every run of it keeps:
  conservation of credit, a bound on waiting, exact deadlines, order of service, ticket accounting
  and the limits on debt.
- **Commits of several files** (`FileSystem.dfy`, `TransactionalWrites.dfy`, `ReleaseOutputs.dfy`).
  Every file operation may fail; the two commit procedures are proved all-or-nothing as far as
  they are.
- **Image vulnerability gate** (`GateModel.dfy`, `VulnerabilityGate.dfy`, `GateMeaning.dfy`). The
  accumulating loops are proved to decide a declarative admission rule.
- **QUERY cache key** (`QueryKey.dfy`), **canonical JSON** (`JsonText.dfy`, `JsonScan.dfy`,
  `CanonicalJson.dfy`, `CanonicalForm.dfy`, `JsonEquality.dfy`, `JsonMeaning.dfy`, `JsonScanner.dfy`), **chart archives**
  (`ChartArchive.dfy`, `ChartFields.dfy`, `ChartWriter.dfy`) and the **release ledgers** (`ReleaseContract.dfy`).

Instants are nanoseconds as `nat`. Each locked section of the scheduler is one atomic step and takes
the instant it saw as a parameter; dropping a queued acquisition is a cancel step. File
operations fail where a plan, universally quantified, says; failures are tallied by the step of the
commit they belong to. File loading, parsing and hashing are represented by their outcome.

Findings where the code does not meet what one might expect, each with its exact condition:

- A refill at an instant before the last one credits an interval twice, because the last refill is
  overwritten unconditionally; a series of refills credits the time passed if and only if the
  instants never decrease (`CreditedByTheClock`, `BackwardInstantEarnsTwice`).
- The deadline of a bucket in debt ignores credit beside the debt and the size of indivisible
  items; `DebtDeadlineExact` says when it is the first instant that serves, and
  `CreditBesideDebtIsLate` is, for every rate, a run that leaves such credit, with the exact condition
  under which the deadline is then late.
- `InstallOutputs` removes the directory with the backups even when its rollback fails. An original
  is lost if and only if the rollback failed at its output or a later one, its target does not hold
  it because the new content differs or the rollback stopped between removing that and putting the
  original back, and its backup was not kept by a failed removal (`LostExactly`); `OriginalLost` is
  a plan of failures that loses one.
- A JSON number too large for a double is parsed as infinite and printed as `null`, so equality
  through canonical texts takes it for `null` (`HugeLooksLikeNull`). The text
  decides values up to that (`TextDecidesValue`), and a value is known by its text if and only if
  nothing in it is printed as `null` (`KnownByText`).

## Model

| member | source | states |
|---|---|---|
| `BandwidthRuns.Conservation` | source/src/bandwidth.rs:469-691 | In every run of arrivals, polls, cancellations, refunds and rate changes, the bytes charged and not given back, in units, plus the credit never exceed the opening credit plus everything earned plus the debt. |
| `BandwidthRuns.ConservationByClock` | source/src/bandwidth.rs:526-540 | When no locked section sees an instant before the last refill, charged bytes stay within one second's burst plus the time passed at the highest rate set, plus the debt. |
| `BandwidthRuns.RunEarningByClock` | source/src/bandwidth.rs:526-540 | On such a clock everything a direction earns in a run fits the time passed at the highest rate set. |
| `BandwidthRuns.RunFunds` | source/src/bandwidth.rs:526-540 | The earnings entered in the ledger of a run are exactly the sum, over its refills, of rate times elapsed time. |
| `BandwidthRuns.ReachableStates` | source/src/bandwidth.rs:270-293 | In every reachable state credit is within capacity, queued tickets strictly increase and are disjoint from completed ones, every queued request is admissible at the current rate, and queue plus completed stay within 1024. |
| `BandwidthRuns.StepTickets` | source/src/bandwidth.rs:298-361 | Only an admitted arrival that has to wait brings a ticket in, only the caller that claims or cancels it takes it out, and refunds, rate changes and dispatches leave the set of tickets unchanged. |
| `BandwidthRuns.TicketsNeverReturn` | source/src/bandwidth.rs:278-292 | A ticket that has left its direction is never held again, whatever happens next. |
| `BandwidthRuns.DirectionsAreIndependent` | source/src/bandwidth.rs:338-376 | A run that never works on a direction leaves its bucket and ledger exactly as they were. |
| `BandwidthRuns.StepLaneKeeps` | source/src/bandwidth.rs:222-376 | Every operation keeps the invariant of one direction: valid bucket, ticket accounting, ledger of live reservations, and the balance between them. |
| `BandwidthRuns.StepKeeps` | source/src/bandwidth.rs:200-376 | Every event, including a policy update of both directions, keeps the invariant of the limiter. |
| `BandwidthRuns.RunKeeps` | source/src/bandwidth.rs:161-376 | The invariant holds after every run. |
| `BandwidthWaiting.BoundedWaiting` | source/src/bandwidth.rs:296-336 | From the moment it sleeps on a deadline, a divisible waiter with k waiters ahead is served before its (k + 1)-st deadline wake-up is over, whatever arrives, is cancelled or is refunded meanwhile and whatever policies are set, as long as this direction's limited rate stays and no deadline is capped. |
| `BandwidthWaitingTime.ServedInTime` | source/src/bandwidth.rs:298-361 | A divisible waiter with k waiters ahead, in a direction that somebody dispatches at least every g nanoseconds, is served within k + 1 times the time to earn a byte and pay the largest debt, plus k times g, whatever else happens at the same rate. |
| `BandwidthWaitingTime.StepInTime` | source/src/bandwidth.rs:298-361 | No operation puts off the latest instant at which the waiter is served. |
| `BandwidthWaitingTime.DeadlineInTime` | source/src/bandwidth.rs:652-691 | A deadline handed to a waiter is no further away than that time for a byte. |
| `BandwidthWaiting.WakeupsBounded` | source/src/bandwidth.rs:296-336 | A run in which the waiter is never served holds no more deadline wake-ups of it than its budget of waiters ahead. |
| `BandwidthWaiting.StepAdvances` | source/src/bandwidth.rs:222-376 | No operation of another caller, a policy that keeps this direction's rate included, moves a divisible waiter back or delays the instant at which a grant is due. |
| `BandwidthWaiting.WakeupServes` | source/src/bandwidth.rs:298-315 | A wake-up at or after the due instant serves the waiter or somebody ahead of it. |
| `BandwidthWaiting.DispatchProgress` | source/src/bandwidth.rs:542-589 | A dispatch serves the waiter, or removes somebody ahead of it, or only refills. |
| `BandwidthWaiting.DeadlineOnTrack` | source/src/bandwidth.rs:652-683 | The deadline handed to a sleeping task is an instant by which the bucket, left alone, can serve. |
| `BandwidthWaiting.DueGrants` | source/src/bandwidth.rs:542-589 | At or after that instant a dispatch with a divisible waiter grants somebody. |
| `BandwidthDeadline.DeadlineAfterDispatch` | source/src/bandwidth.rs:652-683 | After a dispatch that leaves waiters and no debt the deadline is strictly ahead and at most one second away, any dispatch before it does nothing but refill, and any dispatch from it on grants. |
| `BandwidthDeadline.DeadlineExact` | source/src/bandwidth.rs:652-683 | Without debt a dispatch grants exactly from the deadline on. |
| `BandwidthDeadline.EarliestService` | source/src/bandwidth.rs:526-650 | With or without debt, a dispatch grants exactly when the debt and what the cheapest waiter lacks have been earned, rounded up to a nanosecond. |
| `BandwidthDeadline.DeadlineInDebt` | source/src/bandwidth.rs:652-683 | In debt the deadline clears the debt and frees a byte, so with a divisible waiter it grants; with no credit beside the debt nothing is granted earlier. |
| `BandwidthDeadline.DebtDeadlineExact` | source/src/bandwidth.rs:652-683 | In debt the deadline is the wait for debt plus one byte, rounded up; it grants if and only if the rounded wait for the cheapest waiter is no longer, and nothing is granted before it if and only if that wait is no shorter. |
| `BandwidthDeadline.CappedDeadline` | source/src/bandwidth.rs:652-683 | A debt that takes longer than 64 bits of nanoseconds to repay puts the deadline at exactly that distance, with the exact condition under which nothing is granted before. |
| `BandwidthLateDeadline.CreditBesideDebtIsLate` | source/src/bandwidth.rs:652-691 | For every rate below the largest a run from a new limiter, through a refund, that leaves credit beside debt: the deadline is the time for two bytes, the first possible grant the time for one, and the deadline is late if and only if the rate is below two bytes a nanosecond. |
| `BandwidthDeadline.DispatchedMaximal` | source/src/bandwidth.rs:566-588 | After a dispatch that leaves no debt every remaining waiter has its full deficit and lacks the credit it needs. |
| `BandwidthDeadline.IdleUntilDeadline` | source/src/bandwidth.rs:566-683 | A bucket whose waiters all lack credit stays put, but for refilling, until the deadline. |
| `BandwidthDispatch.Pass` | source/src/bandwidth.rs:566-587 | A round never adds work and, when it reports progress, strictly reduces queue length plus missing deficit, so the rounds end. |
| `BandwidthDispatch.RoundsSound` | source/src/bandwidth.rs:542-589 | The rounds partition the queue into kept waiters, in order, and grants, one per ticket, each fitting its request. |
| `BandwidthDispatch.RoundsAccounted` | source/src/bandwidth.rs:542-650 | Credit minus debt falls by exactly the granted units, and only the last grant may run into debt. |
| `BandwidthDispatch.RoundsNoOvertaking` | source/src/bandwidth.rs:566-588 | No grant goes to a waiter behind a divisible waiter that stays queued. |
| `BandwidthDispatch.RoundsMaximal` | source/src/bandwidth.rs:566-588 | When the rounds end without debt, no kept waiter could be reserved from the final credit, even with its full deficit. |
| `BandwidthDispatch.RoundsGrantIff` | source/src/bandwidth.rs:566-650 | The rounds grant somebody if and only if the credit reaches some waiter's threshold. |
| `BandwidthRounds.RoundRobin` | source/src/bandwidth.rs:564-588 | In every round k + 1 of a dispatch a waiter not yet served is served if and only if what those before it in the queue left is enough and, for an item, its own deficit and k + 1 quanta cover its bytes; it then gets exactly as many bytes as there are, or all of the item, the part beyond the capacity as debt. |
| `BandwidthRounds.AfterGrown` | source/src/bandwidth.rs:573-577 | After k rounds an unserved waiter may have k quanta more than it came with, up to its request. |
| `BandwidthRounds.RoundsAre` | source/src/bandwidth.rs:564-588 | A dispatch is a number of such rounds, and another would do nothing. |
| `BandwidthRounds.PassExact` | source/src/bandwidth.rs:568-587 | One round, waiter by waiter: served or not, how much, and with which deficit it goes on. |
| `BandwidthRounds.RoundsWhole` | source/src/bandwidth.rs:597-612 | Every divisible request a dispatch grants gets all its bytes, unless the dispatch ends with less than a byte of credit. |
| `BandwidthRounds.AttemptExact` | source/src/bandwidth.rs:591-650 | One attempt succeeds exactly when the credit suffices and the item is covered, and then reserves what is due. |
| `BandwidthFifo.DispatchIsFifo` | source/src/bandwidth.rs:542-589 | A dispatch keeps the order of those it leaves, splits the tickets into queued and granted, and grants nobody behind a divisible waiter that stays. |
| `BandwidthFifo.RunsNeverReorder` | source/src/bandwidth.rs:344-350 | In every run no step changes the relative order of waiters it leaves queued. |
| `BandwidthBucket.SettleSound` | source/src/bandwidth.rs:542-589 | All of the above for one dispatch of any bucket: limited, unlimited or in debt. |
| `BandwidthBucket.DispatchedValid` | source/src/bandwidth.rs:542-589 | A dispatch keeps the bucket valid and leaves an unlimited bucket without a queue. |
| `BandwidthBucket.DispatchedTickets` | source/src/bandwidth.rs:542-589 | A dispatch keeps the union of queued and completed tickets and their number, and changes no completion already there. |
| `BandwidthFunds.ReservedShape` | source/src/bandwidth.rs:591-650 | A reservation costs exactly its bytes, a divisible one never owes, an indivisible one is whole, and debt is assigned only by an oversized item from a full bucket. |
| `BandwidthFunds.RefusedOnlyForCredit` | source/src/bandwidth.rs:591-650 | With a full deficit an admitted request is refused if and only if the credit is below its threshold. |
| `BandwidthFunds.GiveBackBalance` | source/src/bandwidth.rs:685-691 | A refund returns at most what the reservation took. |
| `BandwidthCancel.CancelUndoes` | source/src/bandwidth.rs:338-361 | A grant that nobody claimed, debt included, is cancelled without a trace: at any later instant and after any refills the bucket and the dispatch that follows are those of a bucket that never queued the ticket. |
| `BandwidthCancel.CancelWaiting` | source/src/bandwidth.rs:344-350 | Cancelling a waiting ticket removes that waiter and changes nothing else before the dispatch. |
| `BandwidthCancel.CancelUngranted` | source/src/bandwidth.rs:351-355 | Cancelling a refused or unknown ticket gives nothing back. |
| `BandwidthCancel.ReturnUndoes` | source/src/bandwidth.rs:363-376 | A claimed grant, debt included, that is given back at any later instant and after any refills leaves the bucket that never queued the ticket, through the dispatch that follows. |
| `BandwidthCancel.ReturnTimeless` | source/src/bandwidth.rs:363-376 | A refund sees the credit of its own instant, whether or not the bucket was refilled before. |
| `BandwidthFunds.GiveBackTwice` | source/src/bandwidth.rs:685-691 | Returning two reservations one after the other is returning them merged. |
| `BandwidthLimiter.MergeAdds` | source/src/bandwidth/flow.rs:126-153 | Merging tokens adds up the reservations they stand for. |
| `BandwidthFunds.EarnBalance` | source/src/bandwidth.rs:526-540 | Earned units repay debt first and raise the balance by at most what was earned. |
| `BandwidthRefill.RefillDriftFree` | source/src/bandwidth.rs:526-540 | Refilling at any non-decreasing sequence of instants equals refilling once at the last. |
| `BandwidthRefill.ChargedTimeIsWallClock` | source/src/bandwidth.rs:526-528 | The time credited over a sequence of refills is at least the time passed, and equals it if and only if the instants never decrease. |
| `BandwidthRefill.ChargedTimeIsCredited` | source/src/bandwidth.rs:526-540 | Whatever the instants, a series of refills leaves the funds of one earning of the charged time at the rate. |
| `BandwidthRefill.CreditedByTheClock` | source/src/bandwidth.rs:526-540 | The units a series of refills credits are at least the time passed at the rate, and equal to it if and only if no instant precedes its predecessor. |
| `BandwidthRefill.BackwardInstantEarnsTwice` | source/src/bandwidth.rs:527-528 | A refill at an earlier instant followed by one at the present credits the same interval a second time. |
| `BandwidthRefill.RefundUndoes` | source/src/bandwidth.rs:591-691 | A reservation refunded at any later instant, with any refills before and after and no other grants, leaves exactly the bucket that never reserved, for debt reservations too. |
| `BandwidthUpdate.UpdateNeverMints` | source/src/bandwidth.rs:491-524 | A rate change keeps the credit of refilling under the old rate, cut down to exactly the new capacity when above it, keeps the debt, and starts empty when a limit returns. |
| `BandwidthPolicies.PoliciesNeverMint` | source/src/bandwidth.rs:491-524 | Over any run of policy changes, through Unlimited too, credit grows by no more than the rates in force earned, debt shrinks by no more than that, and so does credit less debt plus what is charged. |
| `BandwidthPolicies.NoBurstAfterUnlimited` | source/src/bandwidth.rs:491-524 | Once a policy has lifted the limit, credit after any further policies is at most what they earned since. |
| `BandwidthUpdate.UpdateTickets` | source/src/bandwidth.rs:491-524 | A rate change with its dispatch leaves each ticket waiting, granted or refused exactly once, and refuses exactly with the error the oversized item deserves. |
| `BandwidthUpdate.UpdatedValid` | source/src/bandwidth.rs:491-524 | A rate change keeps the bucket valid: only requests the new rate may serve stay queued. |
| `BandwidthUpdate.SameRateRefills` | source/src/bandwidth.rs:491-524 | Setting the rate already in force does nothing but refill. |
| `BandwidthDebt.DispatchDebt` | source/src/bandwidth.rs:560-648 | One dispatch runs into debt at most once, with its last grant, from a bucket that owed nothing, within that waiter's allowance and leaving no credit. |
| `BandwidthDebt.DebtNeverExceedsAllowance` | source/src/bandwidth.rs:614-648 | In every run the debt stays within the largest allowance that arrived. |
| `BandwidthDebt.DebtLimitNeverRefuses` | source/src/bandwidth.rs:434-455 | In every reachable state the debt-limit refusal inside a reservation cannot happen to a queued request. |
| `BandwidthDebt.StepDebt` | source/src/bandwidth.rs:222-376 | Every operation keeps the debt, and the allowance of everything queued, within the largest allowance that arrived. |
| `BandwidthLedger.EnqueueSane` | source/src/bandwidth.rs:278-292 | An admitted arrival keeps the ledger and adds exactly its ticket. |
| `BandwidthLedger.WithdrawSane` | source/src/bandwidth.rs:338-355 | A cancellation keeps the ledger and removes exactly its ticket, giving back an unclaimed reservation. |
| `BandwidthLedger.GiveBackSane` | source/src/bandwidth.rs:363-376 | A refund of any claimed grants, merged, keeps the ledger and strikes exactly those grants. |
| `BandwidthLedger.UpdateSane` | source/src/bandwidth.rs:491-524 | A rate change keeps the ledger and every ticket. |
| `BandwidthLedger.DispatchSane` | source/src/bandwidth.rs:542-589 | A dispatch enters exactly its grants in the ledger and keeps every ticket. |
| `BandwidthLedger.AdmittedOnArrival` | source/src/bandwidth.rs:415-455 | A request that passes validation is admissible in the bucket it queues for. |
| `BandwidthReplies.PollTold` | source/src/bandwidth.rs:298-320 | A poll is answered exactly when its ticket leaves: with a reservation if and only if that is what the ledger charges to the ticket, otherwise with a refusal of the request the ticket stands for; else with the next deadline. |
| `BandwidthReplies.ArrivalTold` | source/src/bandwidth.rs:278-320 | An admitted arrival is answered at once with the reservation charged to its ticket, or keeps the ticket and is told the next deadline; it is never refused. |
| `BandwidthReplies.ImmediateAnswers` | source/src/bandwidth.rs:228-277 | Without a ticket: nothing for nothing, all bytes at no cost when unlimited, the refusal of an item beyond capacity and allowance, and QueueFull exactly at 1024 held tickets; the direction stays as it was. |
| `BandwidthReplies.RunAnswers` | source/src/bandwidth.rs:222-376 | In every run whatever waits, is completed or is charged belongs to the request its ticket was taken for, and fits it: a quantum of a divisible one, all of an item, a refusal with its own numbers; the refused are not charged. |
| `BandwidthReplies.UnlimitedGrants` | source/src/bandwidth.rs:547-559 | An unlimited direction grants every waiter all its bytes at no cost. |
| `BandwidthLimiter.StepLaneFollows` | source/src/bandwidth.rs:222-376 | A step of the ledgered model moves the bucket exactly as the locked section does. |
| `BandwidthState.SaturatedEarn` | source/src/bandwidth.rs:526-540 | Saturating 128-bit arithmetic gives the same funds as exact arithmetic in every bucket within 64-bit limits. |
| `BandwidthState.VisitsMakeAPass` | source/src/bandwidth.rs:566-587 | Popping each waiter of the queue once and pushing back the unserved is one round of the model. |
| `BandwidthState.BucketState.constructor` | source/src/bandwidth.rs:469-481 | A new bucket is full, owes nothing and is empty. |
| `BandwidthState.BucketState.Refill` | source/src/bandwidth.rs:526-540 | Refines the model's refill, ledger included. |
| `BandwidthState.BucketState.TryReserve` | source/src/bandwidth.rs:591-650 | Refines one reservation attempt, both the outcome and the funds left; which outcome that is, `AttemptExact` says. |
| `BandwidthState.BucketState.GiveBack` | source/src/bandwidth.rs:685-691 | Refines the return of a reservation. |
| `BandwidthState.BucketState.VisitFront` | source/src/bandwidth.rs:569-586 | Refines one visit to the front of the queue; what becomes of each waiter of a round, `PassExact` says. |
| `BandwidthState.BucketState.Round` | source/src/bandwidth.rs:566-587 | Refines one round: kept waiters, funds, completions and the two flags. |
| `BandwidthState.BucketState.ServeRounds` | source/src/bandwidth.rs:564-588 | Refines the rounds until no progress. |
| `BandwidthState.BucketState.ReleaseAll` | source/src/bandwidth.rs:547-559 | Grants every waiter of an unlimited bucket whole and at no cost. |
| `BandwidthState.BucketState.Dispatch` | source/src/bandwidth.rs:542-589 | Refines a dispatch, and reports exactly whether it granted. |
| `BandwidthState.BucketState.NextDeadline` | source/src/bandwidth.rs:652-683 | Computes the model's deadline with the machine's arithmetic. |
| `BandwidthState.BucketState.Screen` | source/src/bandwidth.rs:497-523 | Keeps, in order, exactly the waiters the new rate may serve and refuses the others. |
| `BandwidthState.BucketState.Update` | source/src/bandwidth.rs:491-524 | Refines a rate change. |
| `BandwidthState.BucketState.Collect` | source/src/bandwidth.rs:296-319 | Refines the dispatch and claim of one turn of a waiting caller; what it is told, `PollTold` and `ArrivalTold` say. |
| `BandwidthState.BucketState.RemoveWaiter` | source/src/bandwidth.rs:344-350 | Takes exactly the named waiter out of the queue. |
| `BandwidthState.BucketState.Withdraw` | source/src/bandwidth.rs:343-355 | Refines the part of a cancellation before its dispatch; what it undoes, `CancelUndoes` says. |
| `BandwidthState.BucketState.Cancel` | source/src/bandwidth.rs:338-361 | Refines a cancellation on one direction, which leaves no trace of an unclaimed grant (`CancelUndoes`). |
| `BandwidthState.BucketState.Return` | source/src/bandwidth.rs:363-376 | Refines a refund, of one grant or several merged, on one direction. |
| `BandwidthState.BucketState.Rerate` | source/src/bandwidth.rs:200-213 | Refines a rate change on one direction and the dispatch after it. |
| `BandwidthState.RouteBandwidthLimiter.constructor` | source/src/bandwidth.rs:161-174 | The initial state of the model. |
| `BandwidthState.RouteBandwidthLimiter.ValidateRequest` | source/src/bandwidth.rs:434-455 | Refuses exactly the indivisible requests above capacity plus allowance. |
| `BandwidthState.RouteBandwidthLimiter.Answer` | source/src/bandwidth.rs:222-277 | Answers exactly the requests that need no ticket, as the model does. |
| `BandwidthState.RouteBandwidthLimiter.Acquire` | source/src/bandwidth.rs:250-320 | One turn of acquire is one step of the model, with the same answer, and keeps the invariant; the answers are those of `ImmediateAnswers`, `ArrivalTold` and `PollTold`. |
| `BandwidthState.RouteBandwidthLimiter.Cancel` | source/src/bandwidth.rs:338-361 | Is one step of the model and keeps the invariant. |
| `BandwidthState.RouteBandwidthLimiter.RefundReservation` | source/src/bandwidth.rs:363-376 | Is one step of the model and keeps the invariant. |
| `BandwidthState.RouteBandwidthLimiter.UpdatePolicy` | source/src/bandwidth.rs:200-213 | Is one step of the model for both directions and keeps the invariant. |
| `TransactionalWrites.ApplyPlannedWrites` | devops/sources/versioning.ts:245-319 | For every plan of failures: all writes are installed and nothing else changed, or every target is as before, or every original survives at its target or in a kept backup and no more targets are lost than undo operations failed. Installed exactly when no staging or swapping operation failed, rolled back exactly when a swap failed and no undo, rollback failed exactly when an undo failed; staging, swapping and cleaning stop at their first failure; the directories are gone exactly when no cleanup failed; only planned operations fail, so a plan without faults installs everything. |
| `TransactionalWrites.SwapAll` | devops/sources/versioning.ts:286-294 | Installs every staged write exactly when no rename fails, or stops with every write untouched, displaced or swapped as its flags say. |
| `TransactionalWrites.UndoAll` | devops/sources/versioning.ts:295-308 | Undoing in reverse restores every target when no undo operation fails and goes on after a failure: every original stays recoverable, and no more targets are lost than operations failed. |
| `TransactionalWrites.SwapOne` | devops/sources/versioning.ts:287-294 | One write is swapped, or left in a state its flags describe, and nothing outside its paths changes. |
| `TransactionalWrites.UndoOne` | devops/sources/versioning.ts:297-307 | One write is restored when no operation fails; a false result means a failed unlink or rename, and its original is still recoverable. |
| `TransactionalWrites.StageAll` | devops/sources/versioning.ts:251-284 | Staging leaves every target as it was and each new content in its own stage, and comes through exactly when no operation of it fails. |
| `TransactionalWrites.Cleanup` | devops/sources/versioning.ts:239-243 | Removes the stages in order and nothing else, up to the first failure; all are gone exactly when no removal fails. |
| `TransactionalWrites.SwappedMeansWritten` | devops/sources/versioning.ts:286-318 | All writes swapped and stages removed is exactly the old files with the writes applied. |
| `TransactionalWrites.CleanMeansUnchanged` | devops/sources/versioning.ts:295-311 | All writes restored and stages removed is exactly the old files. |
| `TransactionalWrites.RecoverableMeansSurvives` | devops/sources/versioning.ts:296-316 | If every write is recoverable, every original file survives at its target or in a backup. |
| `TransactionalWrites.FaultlessInstalls` | devops/sources/versioning.ts:245-319 | An outcome that its failures explain, in a stretch of the plan without faults, is a clean installation. |
| `ReleaseOutputs.InstallOutputs` | devops/sources/helm_chart_release.ts:485-519 | Computes the installation below, with all that is proved of it. |
| `ReleaseOutputs.InstallingSound` | devops/sources/helm_chart_release.ts:485-519 | For every plan of failures: all outputs are installed exactly when no staging or swapping operation failed; the rollback fails exactly when an undo operation failed, and otherwise the files are as before; the directory is gone exactly when its removal did not fail; which originals are lost is told as in the next row, whether or not the directory was removed. |
| `ReleaseOutputs.LostExactly` | devops/sources/helm_chart_release.ts:510-518 | After a rollback that failed at the k-th output, an original is lost if and only if it is among the outputs up to k, existed, differs from its new content or is the k-th with nothing at its target, and the removal of the directory did not keep its backup. |
| `ReleaseOutputs.OriginalLost` | devops/sources/helm_chart_release.ts:510-518 | A plan of failures under which the only original is lost. |
| `ReleaseOutputs.FaultlessInstallation` | devops/sources/helm_chart_release.ts:485-519 | Without faults everything is installed and the directory removed. |
| `ReleaseOutputs.StagingAllSound` | devops/sources/helm_chart_release.ts:493-503 | Staging changes nothing outside the directory and comes through exactly when no operation of it fails. |
| `ReleaseOutputs.SwappingAllSound` | devops/sources/helm_chart_release.ts:504-509 | Swapping stops at an output with those before it installed and those after it untouched, and stops after the last exactly when no swap failed. |
| `ReleaseOutputs.UndoingAllTold` | devops/sources/helm_chart_release.ts:510-515 | Undoing comes through exactly when no undo operation fails, and touches no other path. |
| `ReleaseOutputs.UndoingAllSound` | devops/sources/helm_chart_release.ts:510-515 | Undoing restores every output, or stops at the one whose undo failed with those before it still carrying their new contents. |
| `ReleaseOutputs.InstallEntries` | devops/sources/helm_chart_release.ts:504-509 | Refines the swaps up to the first failure. |
| `ReleaseOutputs.UndoEntries` | devops/sources/helm_chart_release.ts:510-515 | Refines the rollback, which its first failure ends. |
| `ReleaseOutputs.AttemptedMeansPromised` | devops/sources/helm_chart_release.ts:485-519 | Removing the stage turns the state each branch leaves into what the caller is promised. |
| `VulnerabilityGate.EvaluateGate` | devops/sources/image_vulnerability_policy.ts:990-1226 | For any bundles, findings and exemptions the gate allows exactly when the release is admissible, and an allow decision records for every subject its newest evidence. |
| `VulnerabilityGate.CollectEvidence` | devops/sources/image_vulnerability_policy.ts:999-1018 | Reports no error exactly when every bundle resolves and no two share a subject and attempt, and then every bundle is filed under its own. |
| `VulnerabilityGate.MaxAttempt` | devops/sources/image_vulnerability_policy.ts:1028-1031 | Finds the newest attempt. |
| `VulnerabilityGate.Scan` | devops/sources/image_vulnerability_policy.ts:1127-1187 | Counts each kind of finding, none blocks exactly when all blocking ones are excused by one exemption each, and records for which subject each exemption was used. |
| `VulnerabilityGate.CheckContract` | devops/sources/image_vulnerability_policy.ts:1073-1101 | No complaint exactly when the contract binds the subject, channel, revision, run, attempt and policy. |
| `VulnerabilityGate.CheckReport` | devops/sources/image_vulnerability_policy.ts:1102-1126 | No complaint exactly when the report fits the aggregate limit, is not used before and hashes to what the contract says. |
| `VulnerabilityGate.JudgeBundle` | devops/sources/image_vulnerability_policy.ts:1050-1203 | A subject is admitted exactly when its evidence is good, its report is new and fits; the verdict records the evidence, and, admitted or not, counts the findings or tells that they were not looked at. |
| `VulnerabilityGate.JudgeAll` | devops/sources/image_vulnerability_policy.ts:1024-1204 | Over the whole plan: all subjects admitted on one choice of newest evidence with exact totals, or no choice of evidence could be. |
| `VulnerabilityGate.WeighExemptions` | devops/sources/image_vulnerability_policy.ts:1205-1216 | No complaint exactly when every exemption of the channel is used and covers all its roles and architectures. |
| `VulnerabilityGate.VerifySubject` | devops/sources/image_vulnerability_policy.ts:1281-1383 | Accepts exactly the image recorded for its subject in an allow decision of the same run and policy whose verdicts all admit distinct subjects. |
| `VulnerabilityGate.HandOff` | devops/sources/image_vulnerability_policy.ts:1281-1383 | After an allow decision an image passes the later check, for any subject, if and only if its digest is the one in that subject's newest evidence. |
| `GateModel.OrderIrrelevant` | devops/sources/image_vulnerability_policy.ts:999-1031 | Admission is invariant under permuting the bundles. |
| `GateModel.OlderIrrelevant` | devops/sources/image_vulnerability_policy.ts:999-1031 | Admission is invariant under adding evidence from an attempt older than one already present for that subject, whatever it holds. |
| `GateModel.AdmitsUnique` | devops/sources/image_vulnerability_policy.ts:1024-1031 | Which evidence can admit a release is forced by the bundles. |
| `GateModel.MatrixIsComplete` | devops/sources/image_vulnerability_policy.ts:868-888 | Roles by architectures is a plan of 30 distinct subjects that misses none. |
| `GateMeaning.AllowedExactly` | devops/sources/image_vulnerability_policy.ts:990-1226 | The gate allows a release if and only if it meets a description that names every field: one latest bundle per subject, signed for it and clear of serious findings but for exempted ones, different reports of at most 256 MiB, and no exemption idle. |
| `GateMeaning.PassesExactly` | devops/sources/image_vulnerability_policy.ts:1281-1383 | An image passes if and only if the decision vouches for it, field by field. |
| `GateModel.ExcusedExactly` | devops/sources/image_vulnerability_policy.ts:949-966 | A finding is excused if and only if exactly one exemption of the list is granted for it, word by word. |
| `GateModel.ResolveExactly` | devops/sources/image_vulnerability_policy.ts:906-941 | A bundle is evidence for a subject if and only if its name is of this run, no later attempt, and that subject alone. |
| `GateModel.BlocksExactly` | devops/sources/image_vulnerability_policy.ts:943-947 | Which severities block with and without a fix. |
| `QueryKey.KeyDeterminesIdentity` | source/src/cache.rs:513-516 | Two identities give equal key material if and only if targets, body lengths, digests and the per-name ordered values of headers and trailers agree. |
| `QueryKey.KeyPrefixFree` | source/src/cache.rs:513-516 | No key material is a proper prefix of another. |
| `QueryKey.RepresentationPrefixFree` | source/src/cache.rs:601-609 | One representation can be read off the front of any continuation. |
| `QueryKey.HeadersPrefixFree` | source/src/cache.rs:611-624 | A header block can be read off the front of any continuation, up to the order of distinct names. |
| `QueryKey.SameHeadersEncodeAlike` | source/src/cache.rs:611-624 | Reordering distinct names does not change the encoding. |
| `QueryKey.FieldPrefixFree` | source/src/cache.rs:626-629 | A length-prefixed field can be read off the front of any continuation. |
| `QueryKey.StableSortCorrect` | source/src/cache.rs:612-618 | The sort is by name and keeps the values of each name in order. |
| `QueryKey.BelowExact` | source/src/cache.rs:612-618 | Names are ordered by the first byte in which they differ, a prefix first. |
| `QueryKey.SortedDetermined` | source/src/cache.rs:612-618 | A sorted field list is determined by its values per name. |
| `QueryKey.WordBytesInjective` | source/src/cache.rs:626-629 | Eight big-endian bytes determine the word. |
| `QueryKey.AppendKeyMaterial` | source/src/cache.rs:513-516 | Extends the output by exactly the encoding and keeps what was there. |
| `QueryKey.AppendRepresentation` | source/src/cache.rs:601-609 | Extends the output by exactly the encoding and keeps what was there. |
| `QueryKey.AppendHeaders` | source/src/cache.rs:611-624 | Extends the output by exactly the encoding and keeps what was there. |
| `QueryKey.AppendField` | source/src/cache.rs:626-629 | Extends the output by exactly the encoding and keeps what was there. |
| `JsonScan.StrictDecides` | devops/sources/helm_chart_oci_release.ts:158-212 | A text is read as a value if and only if it is the text of a syntax tree for that value that repeats no key and stays within the limits. |
| `JsonScan.TreeVerdict` | devops/sources/helm_chart_oci_release.ts:158-212 | Every text of the JSON grammar, with any white space, is accepted exactly when it repeats no key and stays within the limits, and then read as what it denotes. |
| `JsonScan.RepeatedKeyRefused` | devops/sources/helm_chart_oci_release.ts:181-186 | A text with a repeated key in any object, at any depth, is refused. |
| `JsonEquality.TextDecidesValue` | devops/sources/feature_graduation.ts:234-244 | Two parsed values, objects taken as maps, print alike if and only if they agree once every infinite number is replaced by null; so the text decides the value when no number overflowed. |
| `JsonEquality.KnownByText` | devops/sources/feature_graduation.ts:234-244 | No other parsed value has the text of a value if and only if nothing in it is printed as null. |
| `JsonEquality.HugeLooksLikeNull` | devops/sources/feature_graduation.ts:225-244 | 1e400 is read as a value that is not null and is printed as null. |
| `CanonicalJson.ReadsBack` | devops/sources/helm_chart_oci_release.ts:138-142 | The canonical text of a value, with trailing white space, is read back as that value exactly when it is within the limits. |
| `CanonicalJson.CanonicalDecides` | devops/sources/helm_chart_oci_release.ts:214-219 | A document is accepted as a value if and only if it is that value's canonical text and a newline, within the limits. |
| `CanonicalForm.CanonicalExactly` | devops/sources/helm_chart_oci_release.ts:138-142 | A text is the canonical text of a value if and only if a syntax tree spells it that denotes the value, has no white space, has its keys in strictly ascending order, and spells every string and number in the one printed way. |
| `CanonicalForm.TreeBack` | devops/sources/helm_chart_oci_release.ts:138-142 | A tree without any such freedom is the only one of its value. |
| `CanonicalForm.LettersPrinted` | devops/sources/helm_chart_oci_release.ts:140-141 | Quotes, backslashes and the five control characters with a letter are printed with it; a slash is not escaped. |
| `CanonicalForm.HexPrinted` | devops/sources/helm_chart_oci_release.ts:140-141 | Other control characters and lone surrogates are printed as four small hexadecimal digits. |
| `CanonicalForm.PlainPrinted` | devops/sources/helm_chart_oci_release.ts:140-141 | Every other character is printed as it is. |
| `CanonicalForm.PairPrinted` | devops/sources/helm_chart_oci_release.ts:140-141 | A surrogate pair is printed as it is. |
| `JsonEquality.CanonicalIsFinite` | devops/sources/helm_chart_oci_release.ts:214-219 | No value with an infinite number, nor one whose numbers are not printed as they stand, is ever accepted; with the row above, the accepted values are exactly known. |
| `CanonicalJson.OneOrder` | devops/sources/helm_chart_oci_release.ts:140-140 | However the keys of an object are sorted, the result is the same list. |
| `JsonEquality.FindRepeat` | devops/sources/feature_graduation.ts:323-331 | For all lists of parsed values, remembering printed texts finds a repeat exactly when two items are equal up to infinite numbers, so [1e400, null] is refused. |
| `JsonText.EscapeRoundTrip` | devops/sources/helm_chart_oci_release.ts:166-175 | Every string, lone surrogates included, is read back from its escaped form, which closes where it should. |
| `JsonText.ScalarStops` | devops/sources/helm_chart_oci_release.ts:201-205 | A literal or number is read whole when nothing of a number follows. |
| `JsonMeaning.NumberExact` | devops/sources/helm_chart_oci_release.ts:201-205 | A text is a number if and only if it is an optional minus, an integer part without leading zeros, and an optional fraction and exponent. |
| `JsonMeaning.Literals` | devops/sources/helm_chart_oci_release.ts:201-205 | The characters true, false and null are read as those values. |
| `JsonMeaning.ShortEscapes` | devops/sources/helm_chart_oci_release.ts:166-175 | Which character each escape letter stands for. |
| `JsonMeaning.OtherEscapes` | devops/sources/helm_chart_oci_release.ts:166-175 | No other letter but u may follow a backslash. |
| `JsonMeaning.HexEscapes` | devops/sources/helm_chart_oci_release.ts:166-175 | Four hexadecimal digits in any case stand for the code unit they spell. |
| `JsonMeaning.PlainUnits` | devops/sources/helm_chart_oci_release.ts:166-175 | Other characters stand for themselves, except quotes and controls. |
| `JsonMeaning.Spaces` | devops/sources/helm_chart_oci_release.ts:164-164 | White space is tab, line feed, carriage return and space. |
| `JsonMeaning.BeforeExact` | devops/sources/helm_chart_oci_release.ts:140-140 | Keys are ordered by the first code unit in which they differ, a prefix first. |
| `JsonMeaning.Utf8SizeExact` | devops/sources/helm_chart_oci_release.ts:159-159 | The size limit counts the bytes of the UTF-8 encoding. |
| `JsonScanner.Scanner.ParseString` | devops/sources/helm_chart_oci_release.ts:166-175 | Refines the reading of a string: outcome and position. |
| `JsonScanner.Scanner.ParseValue` | devops/sources/helm_chart_oci_release.ts:176-206 | Refines the reading of a value: outcome, position and count of values. |
| `JsonScanner.Scanner.ParseObject` | devops/sources/helm_chart_oci_release.ts:179-190 | Refines the object loop with its set of keys. |
| `JsonScanner.Scanner.ParseArray` | devops/sources/helm_chart_oci_release.ts:191-199 | Refines the array loop. |
| `JsonScanner.Scanner.Read` | devops/sources/helm_chart_oci_release.ts:207-211 | Refines the reading of a whole text. |
| `JsonScanner.ParseStrictJson` | devops/sources/helm_chart_oci_release.ts:158-212 | Computes the strict reading, size limit included. |
| `JsonScanner.ParseCanonicalJson` | devops/sources/helm_chart_oci_release.ts:214-219 | Accepts a document as a value exactly when it is that value's canonical line within the limits. |
| `ChartArchive.InspectArchive` | devops/sources/helm_chart_release.ts:328-372 | Accepts exactly the byte strings of at most 32 MiB that are a chain of checksummed headers, contents and padding followed by at least 1024 zero bytes, within all bounds, and returns exactly its members. |
| `ChartArchive.ReadExact` | devops/sources/helm_chart_release.ts:328-372 | Reading from any position succeeds exactly on such a chain, and the chain is unique. |
| `ChartArchive.ReadAll` | devops/sources/helm_chart_release.ts:333-369 | The loop over offsets computes the reading of the whole archive. |
| `ChartArchive.ReadAt` | devops/sources/helm_chart_release.ts:344-367 | Reading a member in place, checksum loop included, is reading it off the rest of the archive. |
| `ChartFields.OctalExact` | devops/sources/helm_chart_release.ts:306-317 | A number field is read as n if and only if it is octal digits worth n by place value, between blanks and up to a NUL, and n is a safe integer. |
| `ChartFields.OctalRoundTrip` | devops/sources/helm_chart_release.ts:311-317 | Every safe integer is read back from its octal digits. |
| `ChartFields.SafePathExact` | devops/sources/helm_chart_release.ts:137-141 | A name is safe if and only if it is plain components joined by slashes. |
| `ChartWriter.WrittenIsArchive` | devops/sources/helm_chart_release.ts:328-372 | What an independent ustar writer lays down, with its own checksum, names, numbers and padding, is an archive of its members. |
| `ChartWriter.WrittenReads` | devops/sources/helm_chart_release.ts:328-372 | The round trip: what is written is read back if and only if it is within the limits. |
| `ChartWriter.ChangeDetected` | devops/sources/helm_chart_release.ts:319-326 | No single byte of a header outside its checksum can change without the checksum failing. |
| `ChartArchive.MemberExact` | devops/sources/helm_chart_release.ts:336-367 | One step of the reader accepts exactly a well-formed, acceptable member. |
| `ChartArchive.MemberSlice` | devops/sources/helm_chart_release.ts:353-366 | The members of an accepted archive are the consecutive content slices at 512-aligned offsets. |
| `ChartArchive.TrailerSlice` | devops/sources/helm_chart_release.ts:339-343 | What follows the last member is all zero and at least 1024 bytes. |
| `ChartArchive.HeaderChecksum` | devops/sources/helm_chart_release.ts:319-326 | The summing loop accepts exactly the headers whose checksum field is the sum with that field blank. |
| `ChartArchive.CheckInventory` | devops/sources/helm_chart_release.ts:383-397 | Accepts exactly when the names are a bijection with the expected names and every member is normalized. |
| `ReleaseContract.LoadContract` | devops/sources/release_contract.ts:676-708 | Loads exactly the parsed ledgers that satisfy every rule and whose governed entries link to anchors of the upgrade guide, when there is no build changelog. |
| `ReleaseContract.EntryExact` | devops/sources/release_contract.ts:591-674 | An entry is accepted if and only if it declares what a description in terms of the ledgers alone asks: its base, the sources it must and may name. |
| `ReleaseContract.StableUpgrade` | devops/sources/release_contract.ts:634-645 | Every governed release, later betas too, supports the upgrade from the stable release just before it and from no other. |
| `ReleaseContract.BetaUpgrade` | devops/sources/release_contract.ts:616-640 | A later beta has the beta before it as base and upgrade source. |
| `ReleaseContract.ChangesSinceEndsAtBaseline` | devops/sources/release_contract.ts:614-674 | Following Changes since from any governed entry strictly descends and ends at 0.6.5, and read backwards is a supported upgrade path from it. |
| `ReleaseContract.UpgradesAreAcyclic` | devops/sources/release_contract.ts:614-674 | Every supported upgrade path climbs in version order, so none returns to its start. |
| `ReleaseContract.BetasAreGapFree` | devops/sources/release_contract.ts:614-674 | A beta's lower numbers down to 1 are all listed. |
| `ReleaseContract.StableTakesLatestBeta` | devops/sources/release_contract.ts:605-674 | A stable release whose core had betas supports the upgrade from exactly one of them, the latest. |
| `ReleaseContract.BaselinePresent` | devops/sources/release_contract.ts:557-573 | The last stable entry of an accepted contract is the historical baseline 0.6.5. |
| `ReleaseContract.FirstBelowIsGreatest` | devops/sources/release_contract.ts:591-603 | The search finds the greatest stable release below a version. |
| `ReleaseContract.FirstBetaIsLatest` | devops/sources/release_contract.ts:605-612 | The search finds the latest beta of a core. |
| `ReleaseContract.PrecedesExact` | devops/sources/release_contract.ts:594-594 | Versions are ordered by the first difference among major, minor and patch number, beta before stable, and beta number. |
| `ReleaseContract.StrictlyDescending` | devops/sources/release_contract.ts:557-572 | Comparing neighbours decides that a ledger strictly descends. |

## Left out

- Pausing and notification in `acquire` (Tokio, `select!`, the waited duration in a grant) and mutex poisoning: the locked sections are modelled, not the scheduling of tasks.
- Flow identifiers, and the token objects of `bandwidth/flow.rs`: a merged reservation and its refund are modelled, the ownership that makes a token used once is not, nor the saturation of merged units at 128 bits.
- Wrap-around of 64-bit tickets, and overflow when a deadline is added to an instant.
- Symbolic links, permissions, parent directories and the checks before a write is staged: each is a file operation that may fail.
- The date of a decision, the sorting of its lists, the text of errors and the list of findings in a decision: only counts and whether there are errors are modelled.
- Validation of the policy document, of the image plan and of reports, and the regular expressions for artifact names: a name, contract or report is represented by its parsed form.
- SHA-256, gzip, base64 and the reading of files and bundles.
- Decoding of UTF-8 in JSON texts and tar names, and white space outside ASCII in tar number fields: texts are code units, names are bytes.
- Conversion of a JSON number to a double and back: a parameter that maps a number's text to the text in which the number is printed again; -0 and 0 are one value, and so are the two infinities.
- The schema validator of `feature_graduation.ts` beyond equality and repeated items.
- ReleaseContract.LoadContract: takes the ledgers and the anchors of the guide after parsing, because headings, sections, fenced blocks and anchors are found by regular expressions on Markdown.
- The selection and bounds of headers that enter a cache key.
- HTTP clients and servers, access logs, metrics, diagnostics and command-line parsing.
- VulnerabilityGate.EvaluateGate: takes the policy and the plan as validated, so that exemption ids are unique and the plan is the complete matrix, because both are rejected before the gate runs.
