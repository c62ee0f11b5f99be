# Verified model of the collection pipeline and its ledgers

A Dafny 4.11 model of the parts of the repository where several workers, crashes or in-place algorithms meet, with
machine-checked proofs. `dafny verify dfyconfig.toml` checks all of it.

The code's own form is kept. A repository or service object is a `class` whose methods change fields statement by
statement; each method is proved to take exactly the atomic step of a specification function (or to roll back when the
step rejects), and the properties are then proved of those steps over every run, in any interleaving, with clock
readings that are free at each step. Each operation of a repository or collector object is proved to stay among the
states those runs reach (`Reachable`), so the theorems hold of the objects.

## Components

* **Collection protocol** (`CollectionState`, `CollectionInvariants`, `CollectionHistory`, `CollectionProgress`,
  `DeliveryClaims`, `CollectionRepository`; what each operation asks for and leaves: `CollectionGates`, `AcquiredItems`,
  `DeliveryEffects`): plan, claim, renew, commit, fail, resume, hand out deliveries,
  mark sent, complete, attach a revision and replan, over maps of partitions, runs, attempts, checkpoints,
  raw items, memberships and the outbox.
  Transactions are atomic; a rejected one changes nothing. The schema's unique and check constraints are modelled as a
  rejection of their own, so a claim or commit with a clock behind the run's start is refused.
* **Workers on it** (`PageWorker`, `PageRetries`, `OutboxDispatcher`, `PartitionPlanning`): the page driver, one
  dispatch cycle and the backfill planner, each run amid arbitrary steps of other workers.
* **Spend journal** (`ReleaseBudget`, `ReleaseBudgetSafety`, `ReleasePricing`, `ReleaseAdmission`): the live budget,
  the journal it writes ahead, the replay after a crash at any write or call, and the rounding of prices.
* **Embedding work** (`EmbeddingWork`, `EmbeddingHistory`, `EmbeddingWorkRepository`, `EmbeddingDelivery`,
  `EmbeddingCalls`): work items,
  leases, bound reservations, vector readiness, and joint runs with the outbox (`RechunkedDelivery` is one of them).
* **Provider budget** (`ProviderBudget`, `ProviderBudgetRepository`): the reservations of a scope against its daily,
  lane and outstanding limits.
* **HTML and XML reader** (`ArticleTokens`, `ArticleTree`, `ArticleRoundTrip`, `ArticleClosing`, `ArticleInputs`,
  `ArticleParser`): scanning, the stack of
  open elements, the round trip, and the reader as code that mutates nodes on the heap.
* **Limiters and caches** (`ConcurrencyLimiter`, `LeaseLimiter`, `ArxivRequests`).
* **Paged scan, stripping, scores** (`ReleasesScan`, `PiiStripping`, `PayloadStripper`, `RetrievalScore`).

## Assumptions

* Natural-key hashes are injective and rows are never deleted, so a row's id and its natural key name each other; a
  run, which has no natural key, gets its random id as a parameter of the claim that creates it.
* Every claim ever issued, or invented, is available to every worker. `now` is a parameter of each step.
* A query without an order returns its rows in some order; a step or a method's result names that order.
* What the database answers to joins outside the modelled tables is a parameter: `rights` (the rights query of an
  embedding step), `evidence` (normalization), `admitted` (the sums of a provider budget, which
  `ProviderBudget` spells out).
* Sleeping really lets the clock advance, and the arXiv collector's clock never goes back.

## Findings

Properties that do not hold of the code as hoped, each with the exact condition under which they do:

* A slice length that is not positive is not caught before the backfill loop; the first slice is refused as an invalid
  window and nothing is planned (`PartitionPlanning.PlanBackfill`).
* A commit that the policy refuses is reported as deferred, but the page stays running until its lease ends. It is the
  only such ending (`PageWorker.NotLeftRunning`). The policy refuses a well-formed result exactly when the target is no
  longer collectable, or when the claim passes the fence, the cursor decodes and the first item that cannot be stored is
  one that declares it must not be (`PageWorker.CommitBlockedIff`). `PageWorker.LeftRunningReached` reaches the ending:
  plan, claim, disable the target, commit.
* The journal covers the provider's charges exactly when the call in doubt was charged within its reservation
  (`ReleaseBudgetSafety.JournalCoversSpending`). An answer above its reservation ends the coverage, from the first call
  on (`ReleaseBudgetSafety.OverspendUncovered`, `ReleaseBudgetSafety.OverspendReached`).
* A completed embedding delivery stops meaning vector readiness when its revision is chunked again
  (`EmbeddingDelivery.DeliveredMeansReady`, `EmbeddingDelivery.RechunkedStaysDelivered`); `RechunkedDelivery` gives such
  a run from empty tables.
* Request spacing needs the previous request to have started after time 0 (`ArxivRequests.RequestsSpaced`,
  `ArxivRequests.UnspacedAtEpoch`).
* The lease map bounds the tokens under any clocks, but the operations that run on a lease unexpired at `now` only while
  no acquire has read a clock ahead of `now`; the order of the scripts and the clocks of renewals do not matter
  (`LeaseLimiter.HoldersWithinCap`, `LeaseLimiter.CapHoldsIffNotAhead`).
* A listed path with an empty segment strips nothing (`PiiStripping.UnusableRemovesNothing`), and no path reaches a key
  that has a dot in it (`PiiStripping.DottedKeyKept`); every other node is stripped exactly if it is listed
  (`PiiStripping.StripKeepsUnnamed`).
* A retrieval score passes the resume check exactly when its question has a relevant revision; otherwise recall and
  nDCG are null (`RetrievalScore.ScoreAcceptedIff`).
* The early stop of the paged scan loses a release exactly when the list has one to keep on a later page than one older
  than the window (`ReleasesScan.ScanCompleteIff`, `ReleasesScan.EarlyStopLosesRelease`). A malformed
  date passes both window comparisons, so it counts as in the window.
* A provider budget's limits hold throughout a run exactly when no limit is lowered below what is there and no charge
  is settled above its reservation by more than the room left (`ProviderBudget.LimitsHoldIff`).
* The reader's table of void elements is a plain object, so elements named `constructor` or `__proto__` are void too
  (`ArticleTokens.VOID`): what is written inside comes after them as siblings. The balanced form of an element that is no
  script or style reads back exactly when its name is not in the table or it has no content
  (`ArticleRoundTrip.BalancedReadsBackIff`, `ArticleRoundTrip.ConstructorIsVoid`).

## Model

| member | source | states |
|---|---|---|
| CollectionHistory.OneOpenPage | packages/database/src/collection-state.ts:248-590 | in every reachable store a pending, running or deferred partition has exactly one uncompleted collection delivery, that of its current page, and any other partition has none: no page of work is lost or doubled |
| CollectionHistory.CheckpointChain | packages/database/src/collection-state.ts:503-546 | a partition's checkpoints are exactly one for each page before the current one, epochs strictly increase, each page starts from the cursor the one before ended with, and the last cursor is the partition's |
| CollectionHistory.AttemptsAndRuns | packages/database/src/collection-state.ts:327-361 | attempts, lease epoch and page attempts are the same number, succeeded runs are as many as checkpoints, and at most one run of a partition is running |
| CollectionHistory.OnlyNewestClaimPasses | packages/database/src/collection-state.ts:92-115 | a claim that still passes the fence later saw no successful claim, commit, fail or resume of its partition in between, whatever the clocks said |
| CollectionHistory.SpentClaimStaysSpent | packages/database/src/collection-state.ts:92-115 | once any such step succeeded on its partition, a claim never passes the fence again in any continuation |
| CollectionHistory.FenceNamesLastAttempt | packages/database/src/collection-state.ts:92-115 | a claim that passes the fence holds the newest attempt of its partition, with the highest epoch ever issued |
| CollectionHistory.PagesCommittedOnce | packages/database/src/collection-state.ts:380-546 | along any run no page of a partition is committed twice, and checkpoints are exactly the pages committed |
| CollectionHistory.GrantEpochsIncrease | packages/database/src/collection-state.ts:632-683 | no two hand-outs of a delivery in any run share an epoch: they strictly increase |
| CollectionHistory.SentOncePerEpoch | packages/database/src/collection-state.ts:688-702 | marking a delivery sent succeeds at most once under each epoch |
| CollectionHistory.PlanningAgainChangesNothing | packages/database/src/collection-state.ts:248-281 | planning an existing partition again at any later point of any run leaves the whole store as it is |
| CollectionHistory.StepKeepsInv | packages/database/src/collection-state.ts:248-883 | the protocol invariant (one open page, chained checkpoints, distinct epochs, matching attempts and runs) is kept by every step of any worker |
| CollectionProgress.ClaimGrantedIff | packages/database/src/collection-state.ts:300-364 | in every reachable store a claim is granted exactly when the page is current, live, due and not leased and the clock is not behind a lapsed run's start; a used epoch never stands in the way |
| CollectionProgress.AfterFail | packages/database/src/collection-state.ts:561-589 | a page failed with a retry time can be claimed and handed out exactly from that time on; without one it never is |
| CollectionProgress.AfterResume | packages/database/src/collection-state.ts:590-631 | a resumed page can be claimed and handed out exactly from the resume on |
| CollectionProgress.AfterCommit | packages/database/src/collection-state.ts:503-560 | a committed page never runs again; the next one runs from the retry time or at once if the result continues or defers, and never otherwise |
| CollectionGates.CollectableIff | packages/database/src/collection-state.ts:60-91 | a target revision is read as collectable exactly when it is the current one of an enabled target of an enabled source, its policy approves fetching and storing and its capability is reviewed |
| CollectionGates.NothingWithoutRights | packages/database/src/collection-state.ts:248-631 | when it is not, plan, claim, renew, commit and resume of its partitions leave the store as it is |
| CollectionGates.PlanAcceptedIff | packages/database/src/collection-state.ts:248-281 | a plan is accepted exactly for a window that is not empty and a collectable target of its time basis |
| CollectionGates.PlanRefusedFor | packages/database/src/collection-state.ts:248-262 | otherwise the first of the reasons decides the error |
| CollectionGates.AfterPlan | packages/database/src/collection-state.ts:255-281 | a new partition is pending at page 0 without cursor, run or attempts, and can be claimed and handed out exactly from the time of the plan on |
| CollectionGates.ClaimRefused | packages/database/src/collection-state.ts:300-330 | a lease outside one second to five minutes, and a cursor of another partition or version, are refused |
| CollectionGates.NoClaim | packages/database/src/collection-state.ts:300-330 | what is missing, leased, not due or over gives no claim and no error; a target not collectable is policy-blocked |
| CollectionGates.ClaimableIff | packages/database/src/collection-state.ts:313-326 | a page can be claimed when it is the current one of a live partition, due, and under no lease in force |
| CollectionGates.AfterClaim | packages/database/src/collection-state.ts:327-364 | a granted claim passes the fence exactly until `now + leaseMs`, and from the due time on another can be granted exactly from then; its run starts at `now` with the page's cursor |
| CollectionGates.AfterRenew | packages/database/src/collection-state.ts:365-379 | a renewal moves that end to `now + leaseMs` of the renewal and changes nothing else |
| CollectionGates.RenewGrantedIff | packages/database/src/collection-state.ts:365-379 | it is granted exactly to a claim that passes the fence while the target is collectable |
| CollectionGates.CommitAcceptedIff | packages/database/src/collection-state.ts:380-560 | in every reachable store a commit is accepted exactly for a well-formed result of a claim that passes the fence, with a collectable target, its own cursor, items that can all be stored and a clock not behind the run |
| CollectionGates.CommitRefusedFor | packages/database/src/collection-state.ts:380-404 | otherwise the first of the reasons decides the error |
| CollectionGates.CommitRecords | packages/database/src/collection-state.ts:503-560 | an accepted commit records the checkpoint, the row at its next page in the state of its disposition, the run and the delivery of the page, and no other row of theirs |
| CollectionGates.FailRecords | packages/database/src/collection-state.ts:561-589 | a failed page keeps at most 128 characters of the reason, ends its run as failed, and can be resumed |
| CollectionGates.ResumedIff | packages/database/src/collection-state.ts:590-610 | a partition is resumed exactly if it is neither completed nor partial nor leased and its target collectable |
| CollectionGates.ResumeRecords | packages/database/src/collection-state.ts:603-631 | a resumed partition waits at its page from the resume on without lease or reason, its delivery open again and no other touched |
| AcquiredItems.CommitStoresRights | packages/database/src/collection-state.ts:410-465 | a raw row a page adds has the rights of the first item with its key: each permission is the policy's unless the item declares it away, another license takes embedding, model input and excerpts away, verbatim-only holds if either side says so, and the license is the declared one if any |
| AcquiredItems.CommitJoinsItems | packages/database/src/collection-state.ts:466-502 | every item of a page becomes a member of the partition, with the run, the time and the oldest revision of its raw row, and its normalization is scheduled, unless they were there before |
| AcquiredItems.FirstIsOldest | packages/database/src/collection-state.ts:474-480 | the revision a membership starts with is the first stored of its raw item, or none when it has none |
| CollectionInvariants.PlanKeepsInv | packages/database/src/collection-state.ts:248-281 | planning keeps the invariant and changes nothing for a partition that exists |
| CollectionInvariants.ClaimKeepsInv | packages/database/src/collection-state.ts:300-364 | claiming a page keeps the invariant while it issues an epoch, fails a lapsed run and opens an attempt |
| CollectionInvariants.RenewKeepsInv | packages/database/src/collection-state.ts:365-379 | renewing keeps the invariant |
| CollectionInvariants.CommitKeepsInv | packages/database/src/collection-state.ts:380-560 | committing keeps the invariant: the page closes, its checkpoint appears and the next delivery opens or none does |
| CollectionInvariants.FailKeepsInv | packages/database/src/collection-state.ts:561-589 | failing keeps the invariant: with a retry the same delivery stays open, without one it closes |
| CollectionInvariants.ResumeKeepsInv | packages/database/src/collection-state.ts:590-631 | resuming keeps the invariant: the current page's delivery is open again and no other is |
| CollectionInvariants.CompleteKeepsInv | packages/database/src/collection-state.ts:703-751 | completing a collection delivery never closes an open page: in the invariant it changes nothing |
| CollectionInvariants.AcquiredRightsWithinPolicy | packages/database/src/collection-state.ts:410-447 | no item widens the target's policy: new raw rows have rights within it and enough to be stored, existing rows keep theirs, every item is stored and scheduled |
| CollectionInvariants.FenceFindsRun | packages/database/src/collection-state.ts:92-115 | a claim that passes the fence names a run that exists and is running |
| DeliveryClaims.PickFirst | packages/database/src/collection-state.ts:632-683 | ordering by due time and id and cutting at the limit yields the first rows of the hand-out order |
| DeliveryClaims.InOrderSorted | packages/database/src/collection-state.ts:632-683 | the hand-out order is strictly sorted by due time, then id |
| DeliveryClaims.BatchesHandOutInOrder | packages/database/src/collection-state.ts:632-683 | repeated claims at one instant hand out the due deliveries in that order, without gaps |
| DeliveryClaims.EnoughBatches | packages/database/src/collection-state.ts:632-683 | the ceiling of due over limit batches hand out every due delivery, each exactly once |
| DeliveryClaims.OpenDeliveryComesBack | packages/database/src/collection-state.ts:632-683 | an open delivery is handed out again exactly when its due time, its lease and the 30 s resend gap have passed |
| DeliveryEffects.AfterHandOut | packages/database/src/collection-state.ts:632-683 | a delivery handed out at `now` can be marked under its new epoch exactly before `now + leaseMs`, and is due again exactly from then on |
| DeliveryEffects.HandOutTouches | packages/database/src/collection-state.ts:632-683 | handing out changes no row but the deliveries handed out, adds none and removes none |
| DeliveryEffects.DueInMode | packages/database/src/collection-state.ts:640-662 | asking for a mode hands out exactly the due deliveries of that mode |
| DeliveryEffects.DispatchableIff | packages/database/src/collection-state.ts:640-662 | deliveries are dispatched exactly while the current revision of the target is in use and lets its items be stored |
| DeliveryEffects.MarkedIff | packages/database/src/collection-state.ts:684-702 | a mark is accepted exactly under the present epoch, before the lease ends, for a delivery not completed |
| DeliveryEffects.AfterMark | packages/database/src/collection-state.ts:684-702 | a marked delivery keeps the time of the mark, gives its lease up and is due again exactly half a minute later |
| DeliveryEffects.AfterComplete | packages/database/src/collection-state.ts:703-751 | a completed delivery keeps its first completion, is never due again, and completing it again changes nothing |
| DeliveryEffects.CompletedIff | packages/database/src/collection-state.ts:703-751 | it is completed exactly if it was before, or its page has a checkpoint, or the evidence is there |
| DeliveryEffects.AfterAttach | packages/database/src/collection-state.ts:752-783 | every membership of the raw item, and no other, has the revision; one delivery embeds it, and only if the item has a membership |
| DeliveryEffects.AfterReplan | packages/database/src/collection-state.ts:817-883 | a replay reopens at the time of the request the normalizations of exactly the items the run acquired, or of the one item, completed ones excepted |
| DeliveryEffects.ReplayedIff | packages/database/src/collection-state.ts:837-845 | a replay goes through exactly when it is of 1 to 500 rows whose targets can all be collected now; it is called invalid exactly for none or more |
| DeliveryEffects.ReplanAnswer | packages/database/src/collection-state.ts:837-883 | its answer says whether every delivery was there before, and names each delivery once |
| DeliveryEffects.ReplanInOrder | packages/database/src/collection-state.ts:837-883 | in the order in which they first come up among the rows |
| CollectionRepository.Repository.PlanPartition | packages/database/src/collection-state.ts:248-281 | does the plan step, or rolls back |
| CollectionRepository.Repository.ClaimPage | packages/database/src/collection-state.ts:300-364 | does the claim step, or rolls back on a constraint |
| CollectionRepository.Repository.RenewPage | packages/database/src/collection-state.ts:365-379 | does the renewal step |
| CollectionRepository.Repository.AcquireItem | packages/database/src/collection-state.ts:410-500 | stores one item's raw row, membership and normalization delivery, unless its rights forbid it |
| CollectionRepository.Repository.CommitPage | packages/database/src/collection-state.ts:380-560 | does the commit step over all items, or leaves the store as it was |
| CollectionRepository.Repository.CommitRows | packages/database/src/collection-state.ts:503-560 | writes checkpoint, partition, run and deliveries of a commit, or refuses a duplicate checkpoint |
| CollectionRepository.Repository.FailPage | packages/database/src/collection-state.ts:561-589 | does the fail step, or rolls back |
| CollectionRepository.Repository.ResumePartition | packages/database/src/collection-state.ts:590-631 | does the resume step |
| CollectionRepository.Repository.SelectDue | packages/database/src/collection-state.ts:632-670 | selects exactly the next batch of due deliveries |
| CollectionRepository.Repository.ClaimDeliveries | packages/database/src/collection-state.ts:632-683 | leases exactly the next batch under fresh epochs and returns it |
| CollectionRepository.Repository.MarkSent | packages/database/src/collection-state.ts:684-702 | marks sent under the current unexpired lease and gives it up, or is stale |
| CollectionRepository.Repository.CompleteDelivery | packages/database/src/collection-state.ts:703-751 | completes a delivery for which the work exists; once completed it stays so |
| CollectionRepository.Repository.AttachRevision | packages/database/src/collection-state.ts:752-783 | gives every membership of the raw item the revision and, if there is one, schedules a single embedding delivery, whatever order the memberships come in |
| CollectionRepository.Repository.Replan | packages/database/src/collection-state.ts:817-883 | replays the rows of the scope if they are 1 to 500, all or none, and returns their deliveries, each once in the order they come up, and whether all were there before |
| PartitionPlanning.PlanBackfill | apps/worker/src/partition-runtime.ts:41-99 | plans exactly the slices of the window one after the other up to the first rejection; refusals change nothing |
| PartitionPlanning.PlanSingle | apps/worker/src/partition-runtime.ts:101-141 | plans the one window given, or for incremental mode the one ending now; a target not collectable is policy-blocked, an on-demand plan without a window invalid |
| PartitionPlanning.SlicesTile | apps/worker/src/partition-runtime.ts:79-98 | slices are non-empty, at most the slice length, contiguous, and reach from one end of the window to the other |
| PartitionPlanning.EachInstantOnce | apps/worker/src/partition-runtime.ts:79-98 | an instant lies in exactly one slice if it is in the window and in none otherwise |
| PartitionPlanning.PlanAllReachable | apps/worker/src/partition-runtime.ts:79-98 | a backfill, complete or cut short, leaves a store that runs of the protocol reach |
| PartitionPlanning.ReplanningChangesNothing | apps/worker/src/partition-runtime.ts:79-98 | after a successful plan, planning the same slices again in any later state changes nothing |
| PartitionPlanning.PlannedRows | apps/worker/src/partition-runtime.ts:79-98 | a plan that succeeds has a partition with the request's target, mode, scope and version for every slice and returns them in order |
| PartitionPlanning.PlanCovers | apps/worker/src/partition-runtime.ts:79-98 | after a backfill every instant of its window lies in a partition of the request |
| PartitionPlanning.PlanStopsAt | apps/worker/src/partition-runtime.ts:79-98 | a plan that fails has planned exactly the slices before the one rejected |
| PartitionPlanning.BackfillRefusedIff | apps/worker/src/partition-runtime.ts:52-75 | a backfill is refused for a target not collectable, one without history, or a window that is missing or empty, and for nothing else |
| PageRetries.AfterThrow | apps/worker/src/ingestion.ts:214-262 | a page whose collector threw runs again five seconds later, unless the policy was violated or the renewal had failed: then, as without a collector, never by itself |
| PageRetries.AfterRefusal | apps/worker/src/ingestion.ts:214-262 | so does one whose commit was refused neither for its lease nor by the policy |
| PageWorker.ExecutePartitionPage | apps/worker/src/ingestion.ts:53-262 | what the driver reports (disposition, items kept, next due time and reason of a page that is done) and leaves for every way its claim, collection and commit can end, others taking steps before it comes back and between a refused commit and the failure that follows |
| PageWorker.DoneMeansCheckpointed | apps/worker/src/ingestion.ts:114-213 | a page reported done has this worker's checkpoint under its own epoch, and no other claim moved the partition meanwhile |
| PageWorker.FencedOutChangesNothing | apps/worker/src/ingestion.ts:176-213 | a worker that was fenced out changed nothing since its claim: the store is the one it last came back to |
| PageWorker.StaleCommitMeansFenced | packages/database/src/collection-state.ts:380-408 | a commit is refused as stale only by the fence |
| PageWorker.BlockedMeanwhile | apps/worker/src/ingestion.ts:198-211 | a page whose target stops being collectable while the collector works is reported deferred and left running |
| PageWorker.LeftRunningReached | apps/worker/src/ingestion.ts:198-211 | such an ending of a reachable claim: the target is disabled between claim and commit, and the page still runs under an unexpired lease |
| PageWorker.NotLeftRunning | apps/worker/src/ingestion.ts:176-262 | a page that still passed the fence is left running if and only if the collector returned a result that the policy refuses at the commit |
| PageWorker.CommitBlockedIff | packages/database/src/collection-state.ts:380-447 | a commit is refused as policy-blocked if and only if its result is well formed and the target is not collectable, or the fence passes, the cursor decodes and the first item that cannot be stored is well declared but declines |
| OutboxDispatcher.DispatchBatch | apps/worker/src/partition-runtime.ts:194-249 | a cycle leases the next batch and then takes every delivery's turn; its counts are those of the turns' fates |
| OutboxDispatcher.TakeTurn | apps/worker/src/partition-runtime.ts:206-242 | one turn is exactly a mark and, if that succeeded and there is a handler, its handling |
| OutboxDispatcher.HandledOncePerLease | apps/worker/src/partition-runtime.ts:206-242 | once a delivery was handled under a lease, no dispatcher handles it again under that lease, whatever happens in between |
| OutboxDispatcher.EveryDeliveryCounted | apps/worker/src/partition-runtime.ts:194-249 | claimed deliveries are the processed, the failed and the ones without a handler: a failure stops no other |
| OutboxDispatcher.LeasedRows | apps/worker/src/partition-runtime.ts:194-206 | the rows of a batch name its deliveries under their new epochs, each leased to the end of the lease |
| OutboxDispatcher.QuietCycle | apps/worker/src/partition-runtime.ts:206-249 | a cycle over them that nobody disturbs and whose turns are in time processes every delivery and marks each sent at its turn |
| OutboxDispatcher.HandledKinds | apps/worker/src/partition-runtime.ts:206-242 | pages are always handled, the other kinds if their handler is there, everything with an enqueue function |
| OutboxDispatcher.HandledTurn | apps/worker/src/partition-runtime.ts:206-242 | a marked delivery with a handler is processed unless the handler throws |
| OutboxDispatcher.UnhandledTurn | apps/worker/src/partition-runtime.ts:206-242 | one without a handler is neither processed nor failed |
| OutboxDispatcher.EnqueuedTurn | apps/worker/src/partition-runtime.ts:206-242 | with an enqueue function nothing is marked |
| OutboxDispatcher.FailedAre | apps/worker/src/partition-runtime.ts:206-249 | the failures named are exactly the deliveries whose turns failed |
| ReleaseBudget.Budget.Load | apps/api/src/release-budget.ts:217-253 | the constructor's loop accepts a journal exactly when the replay does, and rebuilds its totals and pending calls |
| ReleaseBudget.Budget.Execute | apps/api/src/release-budget.ts:271-318 | one paid call with any write failing or the process dying at any point leaves the journal and object of the specification |
| ReleaseBudgetSafety.JournalAlwaysReplays | apps/api/src/release-budget.ts:217-318 | whatever crashed or failed, the journal is accepted, has shape (reserve settle)* reserve?, and without a failure replays to the live object |
| ReleaseBudgetSafety.SpendStaysWithinCaps | apps/api/src/release-budget.ts:72-101 | total plus outstanding stays within the caps in every component, live or replayed; started above them nothing is admitted |
| ReleaseBudgetSafety.JournalCoversSpending | apps/api/src/release-budget.ts:217-318 | replayed total plus outstanding covers every dispatched call if and only if the call in doubt was charged within its reservation |
| ReleaseBudgetSafety.OverspendUncovered | apps/api/src/release-budget.ts:307-318 | an admitted call answered above its reservation leaves a pending reservation, a poisoned object and a journal that covers less than was charged |
| ReleaseBudgetSafety.OverspendReached | apps/api/src/release-budget.ts:307-318 | the first call of a new budget can do so |
| ReleaseBudgetSafety.SuspendedCallRefusesOthers | apps/api/src/release-budget.ts:271-290 | while a call is suspended in a write or at the provider, another is refused and changes nothing |
| ReleaseBudgetSafety.InDoubtBlocksForever | apps/api/src/release-budget.ts:254-290 | with a call in doubt in the journal no later act, restarts included, gets a call or an event through |
| ReleaseBudgetSafety.AcceptedJournalsAlternate | apps/api/src/release-budget.ts:217-253 | every journal the replay accepts alternates reserve and settle of the same id |
| ReleaseBudgetSafety.RunKeepsConsistent | apps/api/src/release-budget.ts:201-320 | live object, journal and dispatched calls stay consistent over every sequence of calls, failures, crashes and restarts |
| ReleaseAdmission.EmbeddingAdmittedIff | apps/api/src/release-budget.ts:271-290 | an embedding call is admitted exactly by a ready budget that can afford it, for some tokens at some price |
| ReleaseAdmission.ChatAdmittedIff | apps/api/src/release-budget.ts:271-290 | a chat call is admitted exactly by a ready budget that can afford it, for some input and output tokens at some price |
| ReleaseAdmission.UsageOfKinds | apps/api/src/release-budget.ts:330-441 | each kind reserves one call of its own, its tokens and their price, and nothing of the other |
| ReleaseAdmission.KindsApart | apps/api/src/release-budget.ts:78-101 | neither kind passes for the other, nor one without a digest or a price |
| ReleaseAdmission.RefusedFor | apps/api/src/release-budget.ts:271-290 | the first reason there is decides the error |
| ReleaseAdmission.AnsweredIff | apps/api/src/release-budget.ts:291-318 | a caller gets an answer exactly when both writes succeeded and the charge was within the reservation; the object then has the charge and nothing pending |
| ReleaseAdmission.JournalAcceptedIff | apps/api/src/release-budget.ts:217-253 | a journal is accepted exactly if it is pairs of a valid reservation under a new id and a settlement within it, the last one possibly open, that stay within the caps |
| ReleaseAdmission.ReplayedTotal | apps/api/src/release-budget.ts:217-253 | an accepted journal comes to the start and all that was settled |
| ReleaseAdmission.ReleaseNeverExceeds | apps/api/src/release-budget.ts:12-19 | under the release's own caps nothing that runs, fails or crashes spends beyond a quarter dollar, 100 embedding and 60 chat calls |
| ReleasePricing.MoneyIsLeastCover | apps/api/src/release-budget.ts:329-329 | the price in micro-USD is the least that covers the tokens |
| ReleasePricing.EmbeddingSettlesByTokens | apps/api/src/release-budget.ts:330-376 | an embedding answer settles its reservation exactly when its tokens are within; the price follows |
| ReleasePricing.ChatSettlesByTokens | apps/api/src/release-budget.ts:381-441 | a chat answer settles exactly when both token counts are within |
| ReleasePricing.LedgerNeverUndercounts | apps/api/src/release-budget.ts:329-441 | the summed prices of a lane are never below the price of the summed tokens, and above it by less than one unit a call |
| EmbeddingHistory.AtMostOnePaidCall | packages/database/src/embedding-work.ts:88-193 | over any run, whatever leases expire or are reclaimed, an item begins at most one paid call |
| EmbeddingHistory.ReservationsNotShared | packages/database/src/embedding-work.ts:145-193 | no two work items share a reservation |
| EmbeddingHistory.PaidReservationsKept | packages/database/src/embedding-work.ts:88-143 | the reservation of a call that may have been made is never released, and of one lost track of never merely reserved |
| EmbeddingHistory.StepKeepsInv | packages/database/src/embedding-work.ts:53-287 | what ties items, reservations and embeddings together is kept by every step of workers, budget and documents |
| EmbeddingHistory.EvidenceIffReady | packages/database/src/collection-state.ts:731-750 | the check that completes an embedding delivery and the one a search makes agree in every reachable state |
| EmbeddingHistory.ReadinessLasts | packages/database/src/coverage.ts:79-117 | readiness lasts in any later run exactly while the revision stays visible and chunks it gains have their embeddings |
| EmbeddingHistory.RechunkingLosesReadiness | packages/database/src/repositories.ts:532-577 | a new chunk takes the readiness of its revision away |
| EmbeddingHistory.CompletedIsRead | packages/database/src/embedding-work.ts:88-111 | once an item is completed, any later claim with rights changes nothing and reads the very vector that was paid for |
| EmbeddingCalls.LeasedIff | packages/database/src/embedding-work.ts:53-144 | a claim leases an item exactly when it is well formed, entitled and the item free, under the next epoch until `now + leaseMs` |
| EmbeddingCalls.LapsedCall | packages/database/src/embedding-work.ts:110-128 | a call that outlived its lease is given up by the next claim and its reservation held; before that there is no claim |
| EmbeddingCalls.NothingWithoutRights | packages/database/src/embedding-work.ts:53-248 | without the rights no claim, begin or completion is accepted |
| EmbeddingCalls.BegunIff | packages/database/src/embedding-work.ts:145-193 | in every reachable state a call begins exactly under an unexpired lease with a reservation drawn for that item and epoch from an approved scope that is not blocked |
| EmbeddingCalls.BlockedBeginsNothing | packages/database/src/embedding-work.ts:160-180 | while a scope stays blocked, no run begins a call on a reservation of it |
| EmbeddingCalls.FinishedIff | packages/database/src/embedding-work.ts:195-225 | a completion is accepted exactly under an unexpired lease, for a vector of the profile's size that is not zero |
| EmbeddingCalls.FinishFiles | packages/database/src/embedding-work.ts:218-248 | nothing is filed under an item before it completes, so the vector it brought is filed, and the item completed without a lease |
| EmbeddingCalls.PaidVectorIsRead | packages/database/src/embedding-work.ts:88-111 | the vector of an accepted completion is what every later claim with rights reads, after any run, at no further cost |
| EmbeddingCalls.EndedIsRead | packages/database/src/embedding-work.ts:249-287 | a call that failed or was lost is read as that, and not leased again |
| EmbeddingCalls.ReservedIs | packages/database/src/provider-budget.ts:47-117 | an attempt draws one reservation, a new one only from an approved scope with room that is not blocked |
| EmbeddingCalls.ReleasedIff | packages/database/src/provider-budget.ts:165-186 | a reservation is given back exactly while it is merely reserved and no item may have spent it |
| EmbeddingCalls.SettledIs | packages/database/src/provider-budget.ts:118-153 | a settlement ends the reservation and one above it blocks its scope and no other |
| EmbeddingCalls.LexicalIff | packages/database/src/coverage.ts:34-77 | a revision becomes searchable exactly when it is visible and chunked and its source not disabled |
| EmbeddingDelivery.DeliveredWhenReady | packages/database/src/collection-state.ts:703-751 | in every joint run an embedding delivery is completed by nothing but a step taken when its revision is ready for the profile |
| EmbeddingDelivery.DeliveredMeansReady | packages/database/src/collection-state.ts:731-750 | from that step on, readiness for its profile holds exactly while the revision stays visible and later chunks have embeddings |
| EmbeddingDelivery.RechunkedStaysDelivered | packages/database/src/repositories.ts:532-577 | from any joint run, completing the delivery of a ready revision and then saving a new chunk leaves it completed and the revision not ready |
| RechunkedDelivery.DeliveredNotReady | packages/database/src/collection-state.ts:703-751 | a joint run from empty tables to a completed delivery whose revision is not ready |
| ProviderBudget.LimitsHoldIff | packages/database/src/provider-budget.ts:47-117 | throughout a run reserved plus unknown units, and a day's units and tokens of a lane or of all, stay within their limits if and only if no limit is lowered below what is there and no charge is settled above its reservation by more than the room left |
| ProviderBudget.SettlingWithinBreaksNothing | packages/database/src/provider-budget.ts:118-153 | settling never breaks the outstanding limit, and within the reservation no other |
| ProviderBudget.LoweredLimitExceeded | packages/database/src/provider-budget.ts:20-46 | lowering the outstanding limit below what is reserved leaves it exceeded |
| ProviderBudget.OverdrawnDayExceeded | packages/database/src/provider-budget.ts:118-153 | a charge above its reservation can exceed the day's limit; the scope is then blocked |
| ProviderBudget.SettledOnce | packages/database/src/provider-budget.ts:137-141 | whatever happens in between, a settled reservation takes only the same numbers again, which change nothing |
| ProviderBudget.OneReservationAnAttempt | packages/database/src/provider-budget.ts:59-73 | at any later time an attempt finds its one reservation or is refused, and reserves nothing |
| ProviderBudget.OverdraftEndsScope | packages/database/src/provider-budget.ts:142-153 | after a charge above its reservation the scope stays blocked and never reserves again, configured again or not |
| ProviderBudget.ReservedIff | packages/database/src/provider-budget.ts:47-117 | a new attempt is accepted exactly when its scope is approved, names the lane, is not blocked, and none of the five sums would go above its limit |
| ProviderBudget.ReservingAdds | packages/database/src/provider-budget.ts:102-117 | a reservation adds what it reserves to its scope's outstanding units and to the charges of its day and lane, and to no other sum |
| ProviderBudget.SettlingMoves | packages/database/src/provider-budget.ts:118-153 | a settlement replaces the reserved by the charged in those sums and takes the reservation out of the outstanding units |
| ProviderBudget.HoldingAndReleasing | packages/database/src/provider-budget.ts:154-186 | holding moves no sum; a release takes the reservation out of all of them |
| ProviderBudget.Configured | packages/database/src/provider-budget.ts:20-46 | a configuration is accepted exactly if its numbers, names and currency are valid, and is the scope's from then on, `blocked` aside |
| ProviderBudgetRepository.Repository.ConfigureScope | packages/database/src/provider-budget.ts:20-46 | does the configuration step, which keeps `blocked`, or refuses invalid numbers and another currency |
| ProviderBudgetRepository.Repository.Reserve | packages/database/src/provider-budget.ts:47-117 | does the reservation step: find the attempt's reservation, or check five sums and insert |
| ProviderBudgetRepository.Repository.HasRoom | packages/database/src/provider-budget.ts:76-101 | the query's sums leave room exactly when all five limits admit the reservation |
| ProviderBudgetRepository.Repository.Settle | packages/database/src/provider-budget.ts:118-153 | does the settlement step, blocking the scope of a charge above its reservation |
| ProviderBudgetRepository.Repository.HoldUnknown | packages/database/src/provider-budget.ts:154-164 | does the holding step |
| ProviderBudgetRepository.Repository.ReleaseUnsent | packages/database/src/provider-budget.ts:165-186 | does the release step, or refuses what may have been sent |
| EmbeddingWorkRepository.Repository.ClaimOrReadCompleted | packages/database/src/embedding-work.ts:53-144 | does the claim step: read row and vector, lease, or turn a call that outlived its lease into an unknown outcome |
| EmbeddingWorkRepository.Repository.BeginCall | packages/database/src/embedding-work.ts:145-194 | does the step that allows the paid call, or refuses it |
| EmbeddingWorkRepository.Repository.CompleteWork | packages/database/src/embedding-work.ts:195-248 | stores the vector once and completes the item, or refuses it |
| EmbeddingWorkRepository.Repository.MarkOutcomeUnknown | packages/database/src/embedding-work.ts:249-272 | ends a call under its own epoch as unknown and holds its reservation |
| EmbeddingWorkRepository.Repository.MarkFailed | packages/database/src/embedding-work.ts:273-287 | ends a call under its own epoch as failed |
| EmbeddingWorkRepository.Repository.MarkLexicalReady | packages/database/src/coverage.ts:34-77 | makes a visible, chunked revision of an enabled source searchable, or refuses |
| EmbeddingWorkRepository.Repository.GetVectorReadiness | packages/database/src/coverage.ts:79-117 | the loop over chunks answers true exactly for a visible revision with chunks that all have their embedding |
| ArticleTokens.TokensTileInput | packages/collectors/src/article.ts:205-365 | the pieces the scanner takes, put together, are the input: no character is skipped or read twice, and the position strictly grows |
| ArticleTree.TextsInInputOrder | packages/collectors/src/article.ts:205-365 | text nodes in document order are the input's text, CDATA and raw segments in input order, whatever tags are unbalanced |
| ArticleTree.ParsedTextContent | packages/collectors/src/article.ts:419-436 | the text content of a parsed document is its decoded text and CDATA in input order, scripts and styles left out |
| ArticleTree.FindNodes | packages/collectors/src/article.ts:384-400 | the walk collects all matches in document order after what was collected before |
| ArticleTree.FindFirstIsFirst | packages/collectors/src/article.ts:405-414 | stopping at the first match finds the first of all matches, or none when there is none |
| ArticleRoundTrip.ParseWritten | packages/collectors/src/article.ts:205-365 | reading the balanced tag form of plain trees gives those trees, attributes included, with their texts decoded and the content of scripts and styles as it is |
| ArticleRoundTrip.VoidContentFollows | packages/collectors/src/article.ts:304-362 | a void element written with content and an end tag is read as an empty element followed by that content |
| ArticleRoundTrip.BalancedReadsBackIff | packages/collectors/src/article.ts:304-362 | the balanced form of a plain element that is no script or style reads back as that element if and only if its name is not void or it has no content |
| ArticleRoundTrip.ConstructorIsVoid | packages/collectors/src/article.ts:334-343 | `constructor` loses its text to its parent |
| ArticleClosing.EndTagCloses | packages/collectors/src/article.ts:278-301 | an end tag ends the last open element of its name and with it all left open inside, nested as they were opened; open names are those below |
| ArticleClosing.EndTagIgnored | packages/collectors/src/article.ts:278-301 | one whose name is not open, or that is cut off, changes nothing |
| ArticleClosing.CloseNameIs | packages/collectors/src/article.ts:285-289 | the name it closes is its trimmed, lower-cased text up to the first space |
| ArticleClosing.FinishNests | packages/collectors/src/article.ts:205-365 | elements still open at the end are nested as they were opened |
| ArticleInputs.CrossedElements | packages/collectors/src/article.ts:278-301 | reading `<t>` f `<u>` g `</t>` h gives t with f and u with g inside, followed by h |
| ArticleInputs.UnclosedAtEnd | packages/collectors/src/article.ts:205-365 | reading `<t>` f `<u>` g gives t with f and u with g inside |
| ArticleInputs.HeadOf | packages/collectors/src/article.ts:304-324 | a start tag has its name in small letters and the attributes of the rest; a closing slash or question mark makes it self-closing; spaces around do not count |
| ArticleInputs.HeadOfNone | packages/collectors/src/article.ts:304-324 | a tag that begins with no name is none |
| ArticleInputs.LowerCased | packages/collectors/src/article.ts:304-324 | capital letters become the small ones at their place in the alphabet |
| ArticleInputs.SelfClosing | packages/collectors/src/article.ts:336-343 | a self-closing start tag is an element without content, whatever its name |
| ArticleInputs.NamelessTagIgnored | packages/collectors/src/article.ts:304-324 | a start tag without a name leaves nothing |
| ArticleInputs.CDataIsText | packages/collectors/src/article.ts:239-252 | a CDATA section is text as it stands, with no references decoded |
| ArticleInputs.DeclarationIgnored | packages/collectors/src/article.ts:267-276 | a declaration or processing instruction leaves nothing |
| ArticleInputs.CutOffDropped | packages/collectors/src/article.ts:239-302 | a tag, comment or declaration that the input ends in is dropped; a CDATA section is text to the end |
| ArticleInputs.VoidNames | packages/collectors/src/article.ts:341-343 | the names without content are the void elements of HTML, `constructor` and `__proto__` |
| ArticleParser.ParseXmlOrHtml | packages/collectors/src/article.ts:205-365 | the loop that mutates nodes and cuts the stack builds, in new nodes, exactly the specified tree; each stacked node is the last child of the one below |
| ArticleParser.CloseNamed | packages/collectors/src/article.ts:278-301 | an end tag cuts the stack just below the last open element of its name, or leaves it whole when no such element is open, and changes no node |
| ArticleParser.ReadStartTag | packages/collectors/src/article.ts:304-362 | a start tag adds a leaf, a raw text element or an open element, or nothing when it has no name |
| ConcurrencyLimiter.CapOfSource | apps/worker/src/concurrency.ts:34-54 | a listed source has its own cap, any other the fallback, and one cap is every source's; caps outside 1 to 100 are refused |
| ConcurrencyLimiter.RunIsFair | apps/worker/src/concurrency.ts:42-69 | over any submissions and completions operations begin in submission order and once, as many as the cap and completions allow |
| ConcurrencyLimiter.LaneSafe | apps/worker/src/concurrency.ts:42-69 | active never exceeds the cap, submitted is waiting plus active plus finished, and nobody waits while there is room |
| ConcurrencyLimiter.InMemorySourceConcurrencyLimiter.Submit | apps/worker/src/concurrency.ts:42-54 | queues and drains the source's own lane, or refuses an invalid cap without touching anything |
| ConcurrencyLimiter.InMemorySourceConcurrencyLimiter.Settle | apps/worker/src/concurrency.ts:56-69 | frees a slot and drains the lane, other lanes untouched |
| LeaseLimiter.TokenHash.AcquireScript | apps/worker/src/concurrency.ts:72-83 | the loop drops exactly the expired tokens and grants a slot when one is left |
| LeaseLimiter.TokenHash.RenewScript | apps/worker/src/concurrency.ts:84-90 | extends a token that is there, and nothing else |
| LeaseLimiter.NeverOverCap | apps/worker/src/concurrency.ts:72-91 | the token hash never exceeds the cap, under any clocks and interleaving |
| LeaseLimiter.RefusedIffFull | apps/worker/src/concurrency.ts:72-83 | in any run, on any clocks, an acquire is refused exactly when the unexpired leases in the hash number the cap |
| LeaseLimiter.RefusedIffBusy | apps/worker/src/concurrency.ts:157-214 | in a run without crashes whose acquires read no clock ahead, it is refused exactly when the cap of operations run on unexpired leases: no slot is withheld |
| LeaseLimiter.HoldersWithinCap | apps/worker/src/concurrency.ts:157-214 | while no acquire has read a clock ahead of `now`, operations whose last lease has not expired are all in the hash and number at most the cap, in whatever order the scripts arrived |
| LeaseLimiter.CapHoldsIffNotAhead | apps/worker/src/concurrency.ts:72-91 | for a positive cap that bound holds in all runs whose acquires read at most a given clock if and only if that clock is not ahead of `now` |
| LeaseLimiter.SkewedClocksExceedCap | apps/worker/src/concurrency.ts:72-91 | with a clock ahead they can exceed it: a run with cap 1 and two live holders |
| LeaseLimiter.LeaseInForce | apps/worker/src/concurrency.ts:72-91 | a lease granted or renewed is in force exactly until the time asked after the clock read; other leases are untouched unless expired |
| LeaseLimiter.CrashedSlotFreed | apps/worker/src/concurrency.ts:72-91 | a crashed holder's lease stays untouched until the first acquire at or after its expiry, and is gone from then on |
| ArxivRequests.OneAtATime | packages/collectors/src/arxiv.ts:435-467 | at most one call is between its turn at the lock and its release, and fetches begin in lock order |
| ArxivRequests.RequestsSpaced | packages/collectors/src/arxiv.ts:480-490 | a request starts at least the spacing after the one before, if that one started after time 0 |
| ArxivRequests.UnspacedAtEpoch | packages/collectors/src/arxiv.ts:480-490 | that condition is needed: at any time up to 0 two requests can start together |
| ArxivRequests.SameUrlApart | packages/collectors/src/arxiv.ts:448-478 | a request of a URL starts at least the lifetime after a success of it that no clearing came after |
| ArxivRequests.CachedAnswerIsLastSuccess | packages/collectors/src/arxiv.ts:448-517 | every cached answer is the text of the last successful request of its URL, begun within the lifetime |
| ArxivRequests.FreshIsAnswered | packages/collectors/src/arxiv.ts:448-478 | while the last success of a URL lives, its requests are answered from it and do not queue |
| ArxivRequests.SuccessIsAnswered | packages/collectors/src/arxiv.ts:495-517 | the text a request fetched is what the next requests of its URL are answered, exactly for the lifetime from its start; a failure changes no answer |
| ArxivRequests.PauseIsLeast | packages/collectors/src/arxiv.ts:480-486 | with the lock and no answer cached, a call waits exactly until the spacing is over |
| ArxivRequests.CachedAtLock | packages/collectors/src/arxiv.ts:467-478 | with the lock and an answer in the cache, a call is over at once with that answer |
| ArxivRequests.OnlyValidQueue | packages/collectors/src/arxiv.ts:448-466 | whatever is queued was asked for with a valid URL |
| ArxivRequests.ArxivCollector.ExecuteRequest | packages/collectors/src/arxiv.ts:444-466 | up to the lock: answers from the cache, refuses the URL, or queues, and says which |
| ArxivRequests.ArxivCollector.AfterLock | packages/collectors/src/arxiv.ts:467-486 | with the lock: answers from the cache, or computes the pause |
| ArxivRequests.ArxivCollector.StartRequest | packages/collectors/src/arxiv.ts:488-494 | records the start of the request |
| ArxivRequests.ArxivCollector.FinishRequest | packages/collectors/src/arxiv.ts:495-517 | caches a success under its start time and releases the lock either way |
| ReleasesScan.CollectPage | packages/collectors/src/github-releases.ts:420-505 | the loop keeps exactly the dated, non-draft releases of the window in order, and the disposition follows from an older release, a next page and the feed-only case |
| ReleasesScan.AdjacentWindows | packages/collectors/src/github-releases.ts:420-465 | of two adjacent windows exactly one keeps a dated release that the window of both keeps |
| ReleasesScan.WithoutDate | packages/collectors/src/github-releases.ts:420-465 | drafts and undated releases are in no window, malformed dates in every one |
| ReleasesScan.FollowPages | packages/collectors/src/github-releases.ts:298-505 | following the cursors terminates and collects the scan, within the counted requests |
| ReleasesScan.ScanIsPrefix | packages/collectors/src/github-releases.ts:420-505 | the scan collects, in order, what the window keeps of the releases it has seen |
| ReleasesScan.ScanCompleteIff | packages/collectors/src/github-releases.ts:469-505 | the scan equals the full filter if and only if no release to keep is on a later page of the list than one older than the window |
| ReleasesScan.EarlyStopLosesRelease | packages/collectors/src/github-releases.ts:469-505 | with one release a page, an older release before one of the window makes the scan collect nothing |
| ReleasesScan.SortedScanIsFilter | packages/collectors/src/github-releases.ts:420-505 | on a newest-first list the early stop loses nothing |
| ReleasesScan.RequestsBounded | packages/collectors/src/github-releases.ts:312-337 | at most n / perPage + 1 requests are made |
| PiiStripping.StripIsPrune | packages/collectors/src/guard.ts:318-354 | removing the paths one by one equals one pass over all usable paths |
| PiiStripping.StripKeepsUnlisted | packages/collectors/src/guard.ts:318-354 | exactly the nodes whose key path, arrays transparent, extends no usable listed path are kept, in order and unchanged |
| PiiStripping.NothingResolves | packages/collectors/src/guard.ts:318-354 | no usable listed path resolves to anything afterwards |
| PiiStripping.OrderDoesNotMatter | packages/collectors/src/guard.ts:318-330 | the order of the list and repeated or unusable entries make no difference |
| PiiStripping.StripTwice | packages/collectors/src/guard.ts:318-330 | stripping is idempotent |
| PiiStripping.UnusableRemovesNothing | packages/collectors/src/guard.ts:332-354 | a path with an empty segment removes nothing |
| PiiStripping.SegmentsRejoin | packages/collectors/src/guard.ts:325-327 | a path's segments have no dots and joined by dots are the path |
| PiiStripping.StripKeepsUnnamed | packages/collectors/src/guard.ts:318-354 | of the payload exactly those nodes are kept, in order and unchanged, whose keys no listed string without empty segments spells, alone or as a beginning |
| PiiStripping.NoNodeListed | packages/collectors/src/guard.ts:318-354 | afterwards no node whose keys are without dots and not empty is at a listed path |
| PiiStripping.DottedKeyKept | packages/collectors/src/guard.ts:325-327 | a key with a dot in it is not removed, also by the very path that is the key |
| PiiStripping.DottedSplits | packages/collectors/src/guard.ts:325-327 | keys without dots joined by dots are taken apart as they were |
| PayloadStripper.StripPii | packages/collectors/src/guard.ts:318-330 | the payload is left alone and a new tree is returned whose nodes are those of the payload that no listed string spells or leads to |
| PayloadStripper.RemoveNestedField | packages/collectors/src/guard.ts:332-354 | deleting keys in place turns the tree into the one with the path removed, and stays within the target's own nodes |
| RetrievalScore.ScoreRetrieval | apps/api/src/release-evaluation.ts:231-271 | the loops compute recall, nDCG and the two ratios as specified over the top ten, and return them with those hits' chunks and revisions, or refuse a negative latency |
| RetrievalScore.FoundIsDistinct | apps/api/src/release-evaluation.ts:237-251 | counted gains are the distinct relevant revisions among the hits: repeated chunks never add gain |
| RetrievalScore.NdcgOneIffPerfect | apps/api/src/release-evaluation.ts:242-261 | nDCG lies in [0,1] and is 1 exactly when the first min(10, relevant) hits are that many distinct relevant revisions, for any decreasing positive discount |
| RetrievalScore.ScoreAcceptedIff | apps/api/src/release-evaluation-cli.ts:322-338 | a score passes the resume check's ranges if and only if the question has a relevant revision |
| RetrievalScore.PercentileRank | apps/api/src/release-evaluation.ts:220-224 | for a quantile up to 1 the percentile has at most its index of values below it and more than that up to it |
| RetrievalScore.PercentileReaches | apps/api/src/release-evaluation.ts:220-224 | at least the quantile's share of the values is at most the percentile and less than that is below it; a quantile up to 0 gives the least value, one above 1 none |
| RetrievalScore.PercentileIsValue | apps/api/src/release-evaluation.ts:220-224 | a percentile is one of the values |
| RetrievalScore.RecallOneIff | apps/api/src/release-evaluation.ts:237-260 | recall is 1 exactly when each relevant revision is among the first ten hits |
| RetrievalScore.RedundancyZeroIff | apps/api/src/release-evaluation.ts:255-265 | redundancy is 0 exactly when the first ten hits are of different clusters, or documents where there is no cluster |
| RetrievalScore.RepeatedZeroIff | apps/api/src/release-evaluation.ts:265-268 | the repeated ratio is 0 exactly when they are different chunks |
| RetrievalScore.SingleRelevant | apps/api/src/release-evaluation.ts:241-261 | with one relevant revision, found first at some rank, nDCG is that rank's weight over the first's |

## Left out

* SQL, Drizzle, BullMQ, HTTP, Redis transport, file handles and lock files: replaced by atomic steps over maps and an append-only journal.
* Integer widths of rows, and instants beyond a safe integer: instants, epochs and sequences are unbounded.
* The `cancelled` partition state as a target, retention purges, and the manual recovery script that resets work items.
- CollectionRepository.Repository.CommitPage: the pattern and length checks on a page's scalar fields are one flag, and a cursor's encoding is a constructor that names its partition and version.
- CollectionRepository.Repository.CompleteDelivery: the joins that find a normalized revision or embeddings are the `evidence` parameter; for embeddings it is spelled out in `EmbeddingDelivery`.
- CollectionRepository.Repository.Replan: the separate check that the scope exists and its source is enabled is left out.
- PageWorker.ExecutePartitionPage: the renewal timer, abort signals and error texts are left out; renewals are steps among the others, and whether one failed is a parameter.
- OutboxDispatcher.DispatchBatch: the runtime's two lanes, its poll loop and the error texts in the failure list are left out.
- ReleaseBudget.Budget.Load: reading the file, its lock and the checks of the recorded history are left out; the terms say whether admission is open.
- EmbeddingWorkRepository.Repository.ClaimOrReadCompleted: the rights join is the `rights` parameter.
- EmbeddingWorkRepository.Repository.CompleteWork: the rights join is the `rights` parameter, and non-finite vector components do not exist among the reals.
- EmbeddingWorkRepository.Repository.MarkLexicalReady: its two timestamps are left out, and whether the revision's source is disabled is a parameter.
- ArticleRoundTrip.ParseWritten: texts come back decoded, so references are not round-tripped; how attributes are written is a parameter they must survive; with scripts or styles, `toLowerCase` must show their end tags where they are.
- ProviderBudgetRepository.Repository.ReleaseUnsent: the query for a work item that holds the reservation is the `sent` parameter; `EmbeddingWork.ReleaseUnsent` spells it out.
- ProviderBudgetRepository.Repository.Reserve: a lane named like a property every object inherits is a lane like any other, and timestamps are left out.
- ArticleParser.ReadStartTag: the inside of a tag is read by the library's `head`, which is `ReadHead` in a `Standard` library; its attribute list is read by a parameter.
- EmbeddingWorkRepository.Repository.BeginCall: the rights join is the `rights` parameter.
- ArticleTree.FindNodes: starts from an element, text or comment; the root is searched as the forest of its children.
- ConcurrencyLimiter.InMemorySourceConcurrencyLimiter.Submit: what an operation returns, and an operation that submits while it starts, are left out.
- LeaseLimiter.HoldersWithinCap: the polling loop with its deadline, the renewal timer and the errors of a failed release are left out; acquires and renewals are steps.
- ArxivRequests.OneAtATime: the lock is its promise chain, in which a call's turn comes when all before it have released; parsing of feeds is left out.
- ReleasesScan.FollowPages: conditional and rate-limited responses and the etag in the cursor are left out: every response is a 200, and the list does not change between requests.
- PiiStripping.StripKeepsUnlisted: a path segment that names a property every object inherits is treated as a key like any other.
- RetrievalScore.ScoreRetrieval: the score version is left out; the logarithm is any positive strictly decreasing discount over the reals, so floating-point rounding is left out.
- RetrievalScore.PercentileRank: the built-in sort is an insertion sort; a product rounded by floating point before the ceiling is left out.
* Coverage sums, cohort evaluation, duplicate clustering, answer generation, URL and address rules, configuration loaders, health counters, contract schemas and the web interface: they rest on other code or would only add easy members.
