# Verification of the demand market

A Dafny model of the parts of the market service and its frontend that are hard to get right: an activity
indexer on a chain that reorganises, a durable payment protocol, two incremental indexes, discovery
observations across restarts, the history figures, scoring, admission control, the life of a wallet
transaction, and the codecs below them. `dafny verify dfyconfig.toml` checks all of it.

## How it is modelled

- **Chain.** A block hash fixes the block and all its ancestors, so a hash is the prefix of the chain that
  ends in the block. Every remote call is an instant at which the node may change branch. Two assumptions
  about the node are stated once, in `Chain`: a log query is complete for the branch it is answered from
  and invents no logs (anything else may be mixed in), and a branch abandoned since the start of a scan is
  not reinstated before the scan ends. A scan is one page of the indexer, the last one together with the
  final checks; the anchor checks at the start of a refresh; one index refresh; or one synchronisation.
  Between scans the chain may go anywhere.
- **Other work.** At every wait other requests, processes and timers may act. While a refresh of the activity
  table waits, request handlers may validate it and another process may open the database; there is one
  refresh at a time. While a validation waits, the refreshes may do to the table whatever keeps its invariant:
  commit pages, reset it, complete it. For payments and discovery anything is allowed that keeps the stated
  world invariant and undoes nothing; every step of the protocols is shown to be of that kind, so all
  interleavings of them are covered. Code that does not wait is one step, except that the clock may move
  within it.
- **Calls.** A settle call is recorded when its row goes in flight. A process may stop before the request is
  sent, so a recorded call is one that may have been made, and every call made is recorded.
- **Storage.** Numbers that are stored as decimal text are natural numbers with the source's bounds
  (`Decimals` shows that the text order of the queries is the numeric one). A table is a map, a transaction
  happens as a whole or not at all, and a process may stop between any two transactions. The payment store may
  fail at any operation unless it is called reliable.
- **Oracles.** The facilitator, the chain confirmation, the observer, decoding and checksums are inputs or
  free choices: what comes of each status query and what the observer answers for each record are given to the
  run, and the clock decides which answers are late. Fingerprints are taken as injective and appear as numbers.
- **Progress.** `calm`, `reliable`, `advancing` and `quiet` name the premises of the results that say
  something happens: a chain that has stopped changing and answers every call, storage that works, a clock
  that moves between writes, a time in which nobody else acts, time passes only by waiting, and the chain
  confirms what it is asked about.

The files build on each other: `Wrappers`, `Sets`, `Arithmetic`, `Decimals` and `Texts` are shared;
`Chain` carries `ActivityStore`, `ActivityCoverage`, `ActivityCalm`, `ActivityIndex`, `ActivityRefresh` and
`ActivityRun` as well as `MarketIndex` and `MarketSync`; `PaymentStore`, `PaymentWorld`, `DurablePayment`,
`PaymentReconcile` and `PaymentRun` are the payment protocol; `Discovery` and `DiscoveryScheduler`,
`Insights` and `MarketSnapshot`, `Scoring`, `Admission`, `TransactionLifecycle`, `Canonical`, `NumberIdentity`
and `Amounts` stand for one source file or function family each.

## What turned out not to hold as stated

- The start-time check of discovery compares with `<`. If a process restarts in the same millisecond in which
  its predecessor observed, the old observation can be shown as compatible again once the version counter,
  which starts again from zero, has come back to its generation. `Discovery.RestartShowsIff` gives the exact
  condition and `DiscoveryScheduler.SameMillisecondRun` a run; with a clock that moves on across the restart
  `Discovery.CompatibleRestsOnThisRun` holds.
- `canonical` sorts by a locale comparison. Where that comparison ties two different keys, equal objects print
  differently (`Canonical.TiedKeysPrintApart`); for a strict total order the printer is exact. It prints an
  undefined item of a list as nothing, so a list that holds only that prints as the empty list
  (`Canonical.UndefinedItemVanishes`); an undefined field keeps its place.
- The count of new pairs is that of the pairs wholly inside the window only for events whose times allow it:
  `Insights.NewPairsIff` gives the exact condition, `Insights.DisorderMiscounts` an instance; the rows of one
  branch meet it (`Insights.StoredHistory`).
- A validation may refuse a table that is trusted, when a refresh moved it on meanwhile
  (`ActivityRun.ValidateCheckpoint`).
- Printed negative amounts are not accepted by the parser (`Amounts.RoundTripIff`).
- The check of an observer's answer demands revision, request and block of an incompatible answer with offers,
  but refuses every answer with offers that is not compatible, so the first demand never matters
  (`Discovery.FitsIff`).
- A percentile, and so a score, exceeds 1 for a value larger than every value of a pool it is not part of
  (`Scoring.PlaceInBounds`).
- The frontend synchronisation needs the cursor's block to stay canonical until its target is read
  (`MarketSync.SwitchGoesUnseen`, `MarketSync.SwitchRun`); the backend, which reads its head first and again
  last, does not.
- Reconciliation may starve a payment if the clock stands still (`PaymentReconcile.StandingClockStarves`).

## Model

| member | source | states |
|---|---|---|
| `ActivityStore.Store.Create` | backend/activity-store.ts:101 | A new table has no anchors, no rows and the status "not initialized". |
| `ActivityStore.Store.Open` | backend/activity-store.ts:102-110 | Opening a table another process left makes its coverage unverified and keeps a detected or rebuilding reorganisation; rows and anchors stay. |
| `ActivityStore.OpenTable` | backend/activity-store.ts:86-138 | Whatever another process left is opened exactly if its state is valid, its deployment is the configured one and its rows are valid, in range and within the limit; only a valid table of another deployment is called a mismatch. |
| `ActivityStore.ChecksAre` | backend/activity-store.ts:33-63 | The checks on a state and on an event let through exactly what is in order: anchors where they belong, "complete" with equal cutoff and target, no reason and no reorganisation, a reason for everything else; numbers of 64 bits, a demand id of 256 bits that is not zero, a payload of at most 8192. |
| `ActivityStore.Store.UpdateState` | backend/activity-store.ts:153-163 | Either the whole new state is the caller's update of the row, with identity, next block and cutoff fixed and every state check passed, or an error and no change. |
| `ActivityStore.UpdateMeans` | backend/activity-store.ts:153-163 | An accepted update left deployment, next block, cutoff, rows and a recorded first block as they were, and made a state that passes the checks. |
| `ActivityStore.Store.CommitPage` | backend/activity-store.ts:164-205 | The state and rows after a page, for every branch: a detected reorganisation, a replayed page, a wrong shape, a bad or conflicting row, too many rows; any refusal changes nothing. |
| `ActivityStore.PageMeans` | backend/activity-store.ts:187-205 | An accepted page spans at most 100 blocks from the next one, none beyond the target, holds only events in order from those blocks, and leaves a state given column by column. |
| `ActivityStore.CommittedConsistent` | backend/activity-store.ts:43-63 | A committed page keeps cutoff + 1 = nextBlock, rows within [deployBlock, nextBlock), rows stored under their own identity, and at most maxEvents of them. |
| `ActivityStore.ReplayAcceptedIff` | backend/activity-store.ts:169-185 | A replayed page that ends at the cutoff is accepted exactly when its distinct events are the stored rows of its range, and it then changes nothing. |
| `ActivityStore.ReplayMeans` | backend/activity-store.ts:169-174 | A page that does not start at the next block is accepted only if it ends in the cutoff and spans at most 100 blocks. |
| `ActivityStore.InsertedRows` | backend/activity-store.ts:190-200 | An inserted page adds its own rows, replaces none, keeps every older row and stays within the row limit. |
| `ActivityStore.Store.ResetForReorg` | backend/activity-store.ts:210-220 | The table after a reset: no rows, no anchors, next block at the deploy block, rebuilding. |
| `ActivityStore.Store.Events` | backend/activity-store.ts:206-209 | Lists every row exactly once, in order of block, transaction and log. |
| `Decimals.TextOrderIsNumeric` | backend/activity-store.ts:206-209 | ORDER BY length(x), x on canonical decimals is the order of the numbers, for texts of any length. |
| `ActivityCoverage.CommittedFaithful` | backend/activity-index.ts:104-151 | Committing a page that is exact for the blocks after the cutoff, on a chain that continues the cutoff, keeps "the rows are exactly the logs from deployBlock to the cutoff on the cutoff's chain". |
| `ActivityCoverage.HistoryOfCutoff` | backend/activity-index.ts:62-167 | Two tables with the same deploy block and cutoff hold the same rows: the stored history is a function of the cutoff hash alone. |
| `ActivityCoverage.CheckedCreations` | backend/activity-index.ts:155-161 | If the count, distinctness and range checks pass, the created ids are exactly 1..nextDemandId-1, each created once (pigeonhole). |
| `ActivityCoverage.CountedCreations` | backend/activity-index.ts:155-161 | Conversely, creations that cover 1..nextDemandId-1 once each pass the checks. |
| `Chain.Node.Await` | backend/activity-index.ts:62-167 | Every remote call is an instant at which the node may move to any branch that does not reinstate one abandoned since the last mark. |
| `ActivityIndex.PageIsExact` | backend/activity-index.ts:109-147 | If the end block is the same before and after the log query and no abandoned branch comes back in between, the rows built from the answer and the headers are exactly the logs of that block's chain. |
| `ActivityIndex.CutoffContinues` | backend/activity-index.ts:106-147 | A cutoff that is canonical before and after the scan lies on the chain of the end block. |
| `ActivityIndex.CollectRows` | backend/activity-index.ts:114-143 | Every log of the answer becomes one row, each checked for place, block and transaction against a header that was canonical at some instant of the scan. |
| `ActivityIndex.ScanPage` | backend/activity-index.ts:104-148 | A page that passes all checks is exact for its blocks, continues the cutoff, and its last block, if it reaches the target, is the target. |
| `ActivityIndex.SetFailure` | backend/activity-index.ts:36-40 | Records the reason, drops "complete", and touches neither rows nor anchors. |
| `ActivityIndex.Meanwhile` | backend/activity-index.ts:44-54 | While a validation waits, the other tasks of the process may write any number of sound states of this chain. |
| `ActivityRefresh.PageStep` | backend/activity-index.ts:104-151 | One window: the page is scanned and committed, next block moves to its end, target and first block stay; the table keeps its invariant at every instant. |
| `ActivityRefresh.ScanPages` | backend/activity-index.ts:102-151 | As many windows as remain to the target, at most indexMaxLogWindows; on a calm, well-formed chain none of them fails. |
| `ActivityRefresh.CheckCoverage` | backend/activity-index.ts:153-163 | If the final checks pass, first block and target are on one chain and the created ids are those of the contract at the target. |
| `ActivityRefresh.MarkComplete` | backend/activity-index.ts:164-167 | Claims completeness exactly if no reorganisation was detected meanwhile and the cutoff is the target. |
| `ActivityRefresh.FixStart` | backend/activity-index.ts:79-86 | The first block is recorded once and is canonical whenever the refresh goes on. On a chain that stopped changing the table is emptied exactly when the recorded block is not on it, and nothing fails. |
| `ActivityRefresh.SetTarget` | backend/activity-index.ts:92-101 | The row after a move of the target, and after the first one: which coverage and which reason it shows, its rows and cutoff as they were. |
| `ActivityRefresh.FixTarget` | backend/activity-index.ts:87-101 | Cutoff and target must be at or below the head and canonical: on a chain that stopped changing the table is emptied exactly when one of them is not, above the head included, and nothing fails. A finished target moves to a higher head, a missing one becomes the head, any other stays frozen. |
| `ActivityRefresh.Attempt` | backend/activity-index.ts:67-167 | A refresh that does not fail is one on the table's own chain; it either emptied the table or scanned as many pages as remained, at most maxWindows, and past the target the table is complete or says that the counts disagree. The invariant holds at every instant. On a calm, well-formed chain it never fails, whatever the table relied on. |
| `ActivityRun.RefreshActivity` | backend/activity-index.ts:62-180 | A table of another deployment is reported and left alone; every other failure is recorded with the reason its error maps to and never leaves "complete"; the invariant holds at every instant. Recovery: on a calm, well-formed chain a refresh does not fail; it empties the table exactly when the first block, the cutoff or the target is not on that chain, and otherwise scans its share of the pages and completes the table at the goal. |
| `ActivityRun.ValidateCheckpoint` | backend/activity-index.ts:44-60 | While it waits, refreshes of the same process may commit, reset or complete the table. True only for a complete history of a branch that holds the cutoff at the last remote call, of the cutoff it asked about, on the table's own chain. False for a table that was trusted and still is only if next block or cutoff moved meanwhile. On a calm chain, case by case: true and nothing changed if the cutoff is on it; marked as a detected reorganisation with its date if another block has its height; marked as unavailable if the cutoff is above the head. |
| `ActivityRun.CrashAndOpen` | backend/activity-store.ts:96-110 | A process may stop between any two transactions; whatever it leaves, the process that opens it starts from a sound table, which it does not trust. |
| `ActivityRun.Run` | backend/activity-index.ts:62-180 | For any sequence of refreshes, validations, chain moves, crashes and restarts, every state the table is ever in holds exactly the logs from deployBlock to cutoff on the cutoff's chain, and keeps the table invariant. |
| `ActivityRun.CatchUp` | backend/activity-index.ts:67-167 | On a chain that stopped changing, from a table in any state: complete at the goal after exactly max(1, ceil(n / (100 * maxWindows))) refreshes, n being the blocks from the next one to the goal; if the table relied on a block that is gone, after one refresh that empties it and as many as the blocks from the deploy block to the head need. Complete means that the created ids are 1..nextDemandId-1. |
| `ActivityRun.ReinstatementLosesLogs` | backend/activity-index.ts:109-147 | Without the assumption that abandoned branches stay away during a scan, a concrete run passes every check with a log missing. |
| `PaymentStore.Store.Reserve` | backend/payment-store.ts:88-113 | With working storage a reservation succeeds exactly if no row holds its authorization, no row that was submitted or is not cancelled holds its key, and there is room. The exact table afterwards; any refusal, whatever its reason, changes no row. |
| `PaymentStore.KeyIsFreed` | backend/payment-store.ts:91-93 | The key of a payment cancelled before it had a hash can be reserved again: that payment then has no key, the new one has it, and every other row is as it was. |
| `PaymentStore.VerdictUnique` | backend/payment-store.ts:94-101 | The error of a refused reservation does not depend on which of the matching rows the query returns. |
| `PaymentStore.AlreadyReservedIff` | backend/payment-store.ts:97-101 | "Already reserved" is answered exactly when a row has the same authorization, binding and key; every other match is a conflict. |
| `PaymentStore.ReservedUnique` | backend/payment-store.ts:88-113 | After a reservation no two rows share an authorization or a non-null key, so the unique constraints are never hit. |
| `PaymentStore.Store.Transition` | backend/payment-store.ts:115-129 | Compare-and-set on state and hash over the allowed transitions; the exact row afterwards, or an error and no change. |
| `PaymentStore.Store.CheckpointHash` | backend/payment-store.ts:131-138 | A hash is stored only on the in-flight row of this authorization and only over the same hash in another letter case. |
| `PaymentStore.Store.RecoverInterrupted` | backend/payment-store.ts:140-144 | Exactly the verified and in-flight rows become unknown, with the reason; every other row is as it was. |
| `PaymentStore.Store.Pending` | backend/payment-store.ts:146-151 | The first min(100, max(1, limit)) unknown rows by time of update, then id; nothing that comes earlier is left out. |
| `PaymentStore.Store.Cleanup` | backend/payment-store.ts:153-158 | Deletes the 1000 longest untouched of the rows that are settled, failed or cancelled, were last touched more than the retention time ago and are past validBefore, and nothing else. |
| `PaymentWorld.SubmissionStep` | backend/durable-payment.ts:162-179 | Submitting a verified row whose deadline was just checked keeps: one call per authorization and deadline, and a further call for an authorization only after the earlier row was deleted. |
| `PaymentWorld.DeletionStep` | backend/payment-store.ts:153-158 | Retention keeps the record of every call and of every deleted row in order. |
| `PaymentWorld.NothingUndone` | backend/payment-store.ts:115-144 | Later in a run a payment has the same terms; a finished state is the same state; a stored hash differs at most in letter case; a key is given up only by a payment cancelled before submission. |
| `PaymentWorld.SecondCallAfterCleanup` | backend/durable-payment.ts:162-179 | A second settle call for an authorization comes only after retention deleted the first row, finished and past its validBefore. |
| `PaymentWorld.SettledAtMostOnce` | backend/durable-payment.ts:169-179 | Two settle calls that are let through with the same authorization and validBefore are the same call. |
| `PaymentWorld.NoSharing` | backend/payment-store.ts:44-45 | No two rows share an authorization or a non-null idempotency key. |
| `PaymentWorld.SettledMeans` | backend/durable-payment.ts:226-246 | A settled row was submitted and has a hash for which the chain confirmed this authorization. |
| `DurablePayment.Server.Others` | backend/durable-payment.ts:178-231 | What may happen at a wait: any change that keeps the payments in order and undoes nothing. Every step of the protocol is shown to be such a change. |
| `DurablePayment.Server.Verify` | backend/durable-payment.ts:138-157 | Reserves only what the facilitator accepts, and only before its deadline; otherwise, with working storage, a payment is refused as reserved exactly if its authorization is known and reported as invalid if not. |
| `DurablePayment.Server.Submit` | backend/durable-payment.ts:158-179 | The request is compared with its reservation and its deadline checked; then in one step the row goes in flight and the facilitator is called once; on any error neither happens. |
| `DurablePayment.ClassifySettleStatus` | backend/durable-payment.ts:41-60 | The class of a reply by its fields: success or pending exactly for success true with that status, no error, and no transaction, network or payer named, or all three named rightly; failed, not found and misnamed likewise, each exactly for its replies. |
| `DurablePayment.WaitedIs` | backend/durable-payment.ts:93 | The waits between the queries add up to 50, 150, 350 and 750 ms, and from then on grow by 800 ms for each query. |
| `DurablePayment.Server.PollSettleStatus` | backend/durable-payment.ts:68-99 | The result is what the last answer says in its fields, if it came by the deadline: Succeeded exactly for a reply on time that reports success for this payment. An answer that leaves it open, such as pending or not found, never ends the polling before the budget is spent. If nobody interferes and a success comes after any number of open answers, within the budget as the waits add up, the polling ends with Succeeded. |
| `DurablePayment.Server.Follow` | backend/durable-payment.ts:179-246 | Returns normally only if its last step settled the row under the hash the facilitator reported for this very payment, confirmed on chain; a reported hash that could be stored stays stored whatever happens. |
| `DurablePayment.Server.Settle` | backend/durable-payment.ts:158-267 | Returns normally only if it moved the record to settled itself, for the reserved request, on a reply that claims this payment and says success, or says pending or timeout and was followed by status queries of which the last reported success; with working storage an error after submission leaves no row in flight that its hash could have marked, and a hash the facilitator reported is not lost. If nobody interferes it returns normally exactly if the facilitator reports success in time, at once or when polled, and otherwise the payment is left for reconciliation with the reason that the replies give. |
| `DurablePayment.Server.Release` | backend/durable-payment.ts:289-298 | At the end of a request a reservation that was never submitted is not left verified. |
| `DurablePayment.Server.Request` | backend/durable-payment.ts:269-300 | A request counts as paid only if a step of this very request settled the payment it reserved; and if nothing stands in the way of the reservation, nobody interferes, the facilitator reports success at once or after open answers within the budget, and the chain confirms, it is paid. |
| `DurablePayment.Server.Restart` | backend/server.ts:594-595 | After a restart nothing is verified or in flight. |
| `PaymentReconcile.CheckOne` | backend/durable-payment.ts:313-331 | A payment is settled or failed only on a reply that names it and says so, settled only with the chain's confirmation; whatever happens it is stamped as tried; if nobody interferes the outcome is what the reply says, and no other row changes. |
| `PaymentReconcile.Says` | backend/durable-payment.ts:315-327 | What a reply decides, by its fields: done exactly if it names hash, network and payer of the payment and says success without an error, rejected exactly if it names them and says failed. |
| `PaymentReconcile.ReconcilePayments` | backend/durable-payment.ts:304-334 | Checks the first payments of the queue, at most limit, and fewer than min(limit, queue, 100) only if the time is up; checked = settled + failed + unresolved; with working storage each is resolved or moved behind every untouched one. If nobody interferes every checked payment ends in the state its reply asks for, every other is untouched, and the counts are those of the replies. |
| `PaymentReconcile.NobodyCutsIn` | backend/durable-payment.ts:309-331 | Nothing that others do puts a payment in front of one that is left alone. |
| `PaymentReconcile.ServeWithin` | backend/durable-payment.ts:304-334 | With a clock that advances between writes, a payment with p ahead of it is served within ceil((p + 1) / limit) passes, whoever joins the queue. |
| `PaymentReconcile.StandingClockStarves` | backend/payment-store.ts:148-150 | With a clock that stands still, and waiting payments that all carry its time, any number of passes of one leave a payment that has one before it untouched and in its place. |
| `PaymentRun.Run` | backend/durable-payment.ts:124-302 | Any sequence of requests, reconciliations, cleanups, restarts and steps of others keeps all of this at every instant. |
| `PaymentRun.SettleAtMostOnce` | backend/durable-payment.ts:158-179 | At every instant of every run, calls for one authorization have increasing deadlines, and each but the last belongs to a deleted, finished row whose deadline had passed. |
| `PaymentRun.RunKeeps` | backend/payment-store.ts:115-144 | Between any two instants of a run terms, finished states and stored hashes (up to case) are kept. |
| `PaymentRun.DeletedForGood` | backend/payment-store.ts:153-158 | A row that disappears was finished and past its deadline, and its id never comes back. |
| `PaymentRun.SettledIsConfirmed` | backend/durable-payment.ts:230-246 | At every instant of every run a settled row was submitted and its stored hash confirmed. |
| `MarketIndex.UpdatedIsFull` | backend/server.ts:274-290 | If stored demands change only in blocks with a log that carries their id, reading again the named and missing ones turns the full index of a block into that of its descendant. |
| `MarketIndex.ChangedDemandIds` | backend/server.ts:231-254 | Names every demand that the range's logs name on any branch held throughout, and nothing that no answered log names; refuses a range exactly when it needs more windows than allowed. |
| `MarketIndex.GuardSuffices` | backend/server.ts:265-266 | Behind the rebuild guard the refusal for too many windows cannot happen. |
| `MarketIndex.DemandIndex.RebuildIndex` | backend/server.ts:202-229 | The index is the full read of the recorded hash, or unchanged. |
| `MarketIndex.DemandIndex.RefreshIndex` | backend/server.ts:256-291 | After a refresh the index equals a full rebuild at its block on the recorded hash, which is canonical at the last call; a failed refresh changes nothing but the deployment key, and never for too many windows. It reads everything again only if the indexed block was found off the branch or too far behind; otherwise every entry that no answered log names, and on a settled chain every entry that no block since announces, keeps its version. On a chain that stopped changing, within the limits, one refresh brings the index to the head. |
| `MarketIndex.DemandIndex.Stamp` | backend/server.ts:288 | Every entry that is written takes a version of its own above all earlier ones; the others keep theirs. |
| `MarketIndex.Run` | backend/server.ts:293-303 | Any number of refreshes with any moves of the chain in between keep the index a full read. |
| `MarketSync.OneBoard` | frontend/contract.ts:341-343 | Funding then id is a strict order, so one set of demands has one board: two full reads at a block agree, order included. |
| `MarketSync.ReadBoardAt` | frontend/contract.ts:349-358 | The board read at a block that stays canonical holds all its demands; on it no demand stands after one with less funding, and equally funded ones stand by descending id. |
| `MarketSync.Merge` | frontend/contract.ts:430-444 | Merging the demands read at the target into the board of an ancestor and sorting gives the board of the target, by descending funding and id. |
| `MarketSync.SynchronizeMarketBoard` | frontend/contract.ts:387-445 | If the cursor's block stays canonical during the call, the result is the full board of the new cursor, by descending funding and then id, and the new cursor is min(head, cursor + 1000). A fresh full board comes only if at some instant the block was not canonical, any other result only if at some instant it was; on a chain that stopped changing, exactly if the block is not on it. A result that says unchanged is the old board; one that says changed rests on a log that named a demand, and on a chain that stopped changing it comes exactly if a block up to the new cursor announces one. The new cursor is canonical at the last call. On an orderly chain that stopped changing it does not fail. |
| `MarketSync.SwitchGoesUnseen` | frontend/contract.ts:394-409 | Without that premise a concrete honest run keeps the old board under a cursor of another chain. |
| `MarketSync.SwitchRun` | frontend/contract.ts:394-444 | That run step by step: the merge returns the old board under the cursor of the other chain. |
| `Discovery.DiscoveryStore.Put` | backend/discovery-store.ts:39-50 | Older revisions and different contents under the same revision are conflicts; a new revision starts without an observation. |
| `Discovery.DiscoveryStore.SetObservation` | backend/discovery-store.ts:51-54 | Stored exactly when revision and payload hash are still those that were observed. |
| `Discovery.DiscoveryStore.Due` | backend/discovery-store.ts:33-35 | The first records by last attempt, then identity, of those whose last attempt is not after the given time. |
| `Discovery.FitsIff` | backend/discovery-scheduler.ts:38-51 | What an answer has to be, state by state: a compatible one names revision, request and block and offers at least one target of the record, in a sum below 2^256 and with method and flow repeated; any other carries no offer. |
| `Discovery.LoggedStep` | backend/discovery-scheduler.ts:78-90 | A result stored while the entry is active and still has the generation it began with is one during which the entry was not read again. |
| `Discovery.RereadStep` | backend/server.ts:222-224 | Index refreshes, which give every entry they read a new version, never make an old generation current again. |
| `Discovery.ShownRestsOn` | backend/server.ts:839-868 | A shown state rests on a stored observation for the current revision and payload, younger than the stale limit, of this process run, and of the entry as last read, which is the active one the payload describes; or the run started in the very millisecond of an older observation. |
| `Discovery.StoredFits` | backend/server.ts:851 | No stored result ever fails to match its record, so the check in the view never reports an invalid observation. |
| `Discovery.ViewIs` | backend/server.ts:839-868 | What is shown, in every case: a state exactly if the record describes the entry and its last attempt succeeded, fits, is not older than this process, younger than the stale limit and of the entry's present version; otherwise which of pending, invalid, failing and stale. |
| `Discovery.CompatibleRestsOnThisRun` | backend/server.ts:849-862 | If the clock moved on across every restart, "compatible" rests on an observation of this run alone. |
| `Discovery.RestartShowsIff` | backend/server.ts:852 | The start-time check is exact: an observation of an earlier run is shown again, once the reset version counter has returned to its generation, if and only if the restart fell into its millisecond. |
| `DiscoveryScheduler.Service.Fail` | backend/discovery-scheduler.ts:72-75 | A failed attempt keeps the date, result and generation of the previous observation and adds the reason; it is stored exactly if the record is still the one that was observed. |
| `DiscoveryScheduler.Service.ObserveActive` | backend/discovery-scheduler.ts:78-91 | Across an external call, a second check and any interference: unless the scheduler stopped or the record was replaced, the record ends up with a new fitting result at an unchanged generation of an active entry, or with what it said before and the reason. |
| `DiscoveryScheduler.Judged` | backend/discovery-scheduler.ts:80-84 | Whatever the observer answers, what is kept fits the record, and only an answer of the observer is kept as a result. |
| `DiscoveryScheduler.Service.Tick` | backend/discovery-scheduler.ts:64-93 | A tick keeps all of this; while one runs or after a stop the next does nothing. Otherwise it attempts exactly the first maxInFlight records by last attempt, then identity, among those last attempted a refresh interval ago or before this process: unless it was replaced, each carries the time of the tick and, if the scheduler was not stopped, what its attempt stored. If nobody interferes, each holds the observer's answer if its demand is active and the answer fits, else what it said before with the reason, and every other record is as it was. |
| `DiscoveryScheduler.AnswerIsShown` | backend/server.ts:849-868 | After an undisturbed tick a fitting answer for an active demand is what the view shows. |
| `DiscoveryScheduler.Run` | backend/discovery-scheduler.ts:60-98 | Over whole runs with restarts all of this holds, and the premise of the compatible guarantee holds if every restart comes later than what was observed before it. |
| `DiscoveryScheduler.SameMillisecondRun` | backend/server.ts:852 | A run of a new service that ends, after a restart in the millisecond of its observation, with a service shown as compatible on no observation of the process that shows it. |
| `Insights.FoldEvents` | backend/insights.ts:68-106 | The loop, with its early exit, computes the one-pass fold. |
| `Insights.AcceptedIffValid` | backend/insights.ts:72-107 | The fold accepts a history exactly when every event is in order: arguments given, one creation per demand, no repeated nonce, one fulfilment after its creation, no time after the cutoff. |
| `Insights.RepeatsAre` | backend/insights.ts:79-83 | Repeats and distinct demand keys add up to the creations. |
| `Insights.SumsAre` | backend/insights.ts:84-89 | Gross and window inflow are the sums of the supports, all or those after the start of the window. |
| `Insights.CountsAre` | backend/insights.ts:93-105 | Creations, submissions, reopenings and fulfilments are counted once each. |
| `Insights.DurationIs` | backend/insights.ts:100-105 | The duration is the sum over the fulfilments of the time since their creation. |
| `Insights.NewPairsAre` | backend/insights.ts:90-92 | With times in order, the new pairs are exactly the demand and supporter pairs with every support inside the window. |
| `Insights.NewPairsCount` | backend/insights.ts:90-92 | What is counted in any case: the pairs whose first listed support lies inside the window. |
| `Insights.NewPairsIff` | backend/insights.ts:90-92 | For any list of events, in any order of times: the count of new pairs is that of the pairs wholly inside the window if and only if no pair whose first listed support lies inside the window is listed again with a time before it. |
| `Insights.RowsInTimeOrder` | backend/activity-store.ts:206-209 | Rows of one branch in chain order have times in order, because block times do not decrease. |
| `Insights.BuildHistory` | backend/insights.ts:61-120 | Figures are given exactly for a trusted, complete, clear table with both anchors and a valid history, the window exactly when it is covered; and they mean what the rows above say. |
| `Insights.StoredHistory` | backend/insights.ts:61-120 | The figures of a stored table: its rows, decoded in chain order, have their times in order when block times do not decrease, so every figure means what it says. |
| `Insights.DisorderMiscounts` | backend/insights.ts:90-92 | With times out of order the count of new pairs can differ from its meaning. |
| `MarketSnapshot.TakeSnapshot` | backend/insights.ts:16-48 | Each named figure is what it is called: the number of demands, of funded ones, the sums of escrow, calls and supporters, the number of demands with each status and of fulfilled ones with each metadata and observation state. Statuses add up to the demands, and with discovery the states of either kind to the fulfilled ones. It throws exactly when an entry has no known status, or a fulfilled one no known view. |
| `MarketSnapshot.GroupByCapability` | backend/insights.ts:122-129 | One group per capability, holding exactly the entries of that capability in their order, and none left out; every figure of the market is the sum of that figure over the groups. |
| `Scoring.Percentile` | backend/server.ts:305-315 | The binary search finds the number of strictly smaller values. |
| `Scoring.PlaceInBounds` | backend/server.ts:305-315 | A percentile is at most 1 exactly when some value of a pool of two or more is at least as large; it is never negative. |
| `Scoring.ScoreItem` | backend/server.ts:318-333 | The score by sorting and searching equals the score by counting. |
| `Scoring.ScoreInRange` | backend/server.ts:318-333 | The unrounded score of a member of the pool lies in [0, 1]. |
| `Scoring.ScoreMonotone` | backend/server.ts:318-333 | An item at least as large in escrow, calls, supporters and deadline never scores lower. |
| `Scoring.WorthOf` | backend/server.ts:318-333 | What each factor is worth: a demand that leads by it and trails by all others scores 0.5 for funding, 0.25 for calls, 0.15 for supporters and 0.1 for a deadline at least 30 days ahead. |
| `Scoring.RoundedMonotone` | backend/server.ts:442 | Rounding that keeps order keeps this: the shown score of such an item is never lower. |
| `Scoring.ListedIsTotal` | backend/server.ts:448-461 | Each of the five sort keys is a strict total order on demands with different ids. |
| `Scoring.OrderMeans` | backend/server.ts:448-461 | What a listing means for any two of its rows: supporters, calls, score or funding descend, deadlines ascend with undated rows last, and the newer of two that are alike comes first. |
| `Scoring.Rank` | backend/server.ts:471-472 | Ranks follow the order by descending score with ties by descending id, over exactly the given rows. |
| `Scoring.RanksArePermutation` | backend/server.ts:471-472 | The ranks are 1..n, each once, and a better rank means a higher score or, at equal scores, a higher id. |
| `Admission.PrefixIsExpired` | backend/admission.ts:9-13 | Dropping the expired prefix drops exactly the expired entries, because insertion order is expiry order. |
| `Admission.RateLimiter.Handle` | backend/admission.ts:7-38 | One request with a clock that does not go back: refused without an address; at capacity exactly if the map is full of live entries and the key has none; limited when its key has used up the window; else counted. The map never exceeds rateMaxKeys. |
| `Admission.LimitHolds` | backend/admission.ts:21-37 | No key passes more often than its limit in any window, and the windows of a key do not overlap. |
| `Admission.Gate.Admit` | backend/admission.ts:69-76 | Admits exactly while fewer than limit responses are held. |
| `Admission.Gate.End` | backend/admission.ts:91-94 | Any of the ending events; the slot is freed then only if no work is pending, and once. |
| `Admission.Gate.FinishWork` | backend/admission.ts:57-62 | The end of a piece of work frees the slot exactly if the response had ended and this was the last. |
| `Admission.ActiveIsUnfinished` | backend/admission.ts:67-102 | The count always equals the admitted responses that have not ended or still have work, and stays within the limit. |
| `TransactionLifecycle.WaitForTransaction` | frontend/transaction-lifecycle.ts:338-426 | Broadcast first, broadcast again for each replacement, exactly one final state and it last; a normal return exactly on confirmed. |
| `TransactionLifecycle.ConfirmedIff` | frontend/transaction-lifecycle.ts:356-425 | Confirmed, or reverted, exactly for a receipt that says so, of the original hash, seen if it was asked for, or of a replacement with the same contract, data, value and wallet, with nothing read that contradicts it; cancelled exactly for a cancellation by the same wallet under its own hash. |
| `TransactionLifecycle.SavedReadsBack` | frontend/transaction-lifecycle.ts:176-232 | A saved record is read back as it was, addresses in checksum case. |
| `TransactionLifecycle.ReadIsInOrder` | frontend/transaction-lifecycle.ts:176-201 | Whatever is stored, it is read as a record only with version 2, a positive safe chain id, a hash, a contract that is not zero, an action and a label within their lengths, and a state that is not final. |
| `TransactionLifecycle.StoredIsRead` | frontend/transaction-lifecycle.ts:234-274 | A stored record is found again under its key with its outcome unknown, which still blocks a second submission. |
| `TransactionLifecycle.Storage.ReadPending` | frontend/transaction-lifecycle.ts:234-264 | Returns exactly the records whose item parses and lies under its own key, and counts the rest. |
| `TransactionLifecycle.KeysApart` | frontend/transaction-lifecycle.ts:203-205 | Two records share a key only for the same chain, contract, wallet and escaped action. |
| `TransactionLifecycle.OthersUntouched` | frontend/transaction-lifecycle.ts:266-284 | Storing or removing one record leaves every record under another key as it was. |
| `TransactionLifecycle.RemovedIsGone` | frontend/transaction-lifecycle.ts:276-284 | After a removal nothing is read for that chain, contract, wallet and action. |
| `Canonical.CanonicalIff` | backend/payment-identity.ts:13-20 | Two JSON trees, with undefined allowed as a field value, print to the same canonical text exactly when they are equal up to key order, a bigint counting as its decimal text, for a strict total key order. |
| `Canonical.UndefinedItemVanishes` | backend/payment-identity.ts:15-16 | An undefined item of a list leaves no trace in the text, so two different lists print alike. |
| `Canonical.RenderApart` | backend/payment-identity.ts:13-19 | A printed value followed by anything that may follow it determines the value and what follows. |
| `Canonical.TiedKeysPrintApart` | backend/payment-identity.ts:17 | A key order that ties two different keys, as a locale comparison may, breaks this: the same object prints in two ways. |
| `NumberIdentity.SameIdentityIffSameValue` | backend/validation-codec.ts:41-49 | Two matched literals have the same identity exactly when they denote the same rational number, for digits and exponents of any size. |
| `NumberIdentity.MatchedIff` | backend/validation-codec.ts:42-43 | The matched texts are exactly an optional sign, digits, an optional fraction and an optional exponent, and each is read as what it spells. |
| `NumberIdentity.TextsIdentified` | backend/validation-codec.ts:41-49 | Two texts share an identity exactly when both are number literals of the same value. |
| `NumberIdentity.Uint256Iff` | backend/validation-codec.ts:94-99 | The accepted texts are exactly the printed numbers below 2^256; the length limit excludes none of them. |
| `Amounts.RoundTripIff` | shared/deployment.ts:37-52 | For every number of decimals up to 255 a printed amount reads back as itself exactly when it is not negative; the parser has no sign. |
| `Amounts.FormattedIsMinimal` | shared/deployment.ts:37-52 | Printing a parsed text gives the one form without redundant zeros that has the same amount. |

## Left out

- SQLite file checks, permissions, pragmas, backups and integrity checks, and the busy timeout: input and output.
- ABI decoding, signatures, the inside of the payment confirmation, hashing: foreign libraries, taken as oracles; a payload that decodes is taken to be canonical, within 8192 bytes as counted by the model's text length.
- HTTP routes, headers, logging, diagnostics, sockets, configuration, schemas, URL checks and user interface.
- The Solidity contract is not part of this model; only that demand storage changes with an event that carries the demand's id.
- The escrow token and its decimals in the activity state: they only take part in the comparison of deployments.
- Two processes indexing the same activity table at once: a second process may open the table and mark it, but not commit pages between the checks of a refresh.
- The bounded parallelism of reads (batches, chunks, `Promise.all`) is modelled as one read after another, each with its own instant; the order of replies is free because each read is independent. The records of one discovery tick are marked together and then observed one after another; each observation writes its own row only.
- Shutdown of the schedulers beyond the `stopped` flag, their timers, and abort signals other than as a failed budget check.
- `indexRefreshMs` and the single flight of index refreshes: one refresh at a time is assumed, as the shared promise enforces.
- Discovery identities of several deployments in one table: one deployment is modelled, so the prefix filter is left out; so is a stored observation that does not parse.
- Floating point: scores are reals and rounding is any function that keeps order.
- The order of the capability groups, their limit of 50, and the query filters: a sort and filters without a further property.
- Lone surrogates in strings and numbers that JSON prints as null: strings are sequences of characters, a JSON number is the text printed for it.
- `validString`, `isJSON` and `parseStrictJSON`: they rest on a JSON visitor that is not part of this model.
- `parseVerification` of a malformed verification drops it, which is modelled; the JSON text itself is not: a stored item is its parsed value.
- `confirmPaymentWithRetry`: its retries are one answer of the confirmation oracle; the failure that `wrap` puts in place of a response body is not modelled.
- The wallet session, replacement detection inside the receipt wait, and a replacement reported after the receipt.
- The legacy record formats of pending transactions and the matching of records by address case in `findPendingTransaction`.
- A payment id drawn twice: a random UUID is taken to be new each time.
- Insights.NewPairsAre: is stated for times in order, which the rows of one branch have; Insights.NewPairsIff covers every other list.
- PaymentReconcile.ServeWithin: a pass serves at most 100 payments, so for a larger limit the bound uses 100.
