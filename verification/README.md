# A verified model of the checkout platform

The platform sells baskets: Checkout scans items into a transaction and completes it, Inventory keeps the stock, and
Analytics ranks the most scanned SKUs over a sliding window. The three talk through events that may be duplicated,
reordered, delayed or lost, and any process may die between two of its local transactions. This project models the
parts that have to stay right under all of that and proves that they do.

**The completion saga.** `Baskets`, `Inventory`, `Checkout` model the two services as classes whose methods are the
local transactions and SQL statements, each proved against a function of the state before it. `Saga` is the step
relation over both databases, the set of messages ever sent (any of which may be delivered any number of times, in any
order, or never) and any number of drivers, over unbounded transactions, SKUs and epochs. `SagaInvariant` and
`SagaSteps` prove its invariant, `SagaTheorems` what it means, `Completion` shows that `complete` and `rollback`,
written out statement by statement, are runs of it and give the answer the stock, the replies and the finalize call
for, `Recovery` and `RecoveryPass` that a recovery pass is a run of it whatever becomes of each row, `Drain` that such
passes, both sides reachable, whenever made and whatever their limit, end with nothing left unfinished, and `Oracle`
that the store conditions of the repository's own end-to-end oracle then hold. `InventoryRuns`, `CheckoutRuns` and `StockLocks` hold
what each side guarantees alone, with no premise on the other.

**The scan pipeline.** `Relay`, `ScanSource`, `TailIngest`, `Windows`, `Ranking` and `ScanWindow` model the stages as
the classes they are. `TailRuns`, `TailGrace` and `TailProgress` prove what the tail guarantees on any source and on
an in-order one. `RelayProgress` proves that the relay reaches the end of the log. `ScanPipeline`, `Replay` and
`PipelineProgress` put the stages together: every window is a recount of the scan log table, from a cold start or a
rebuild, for every window and every slide no longer than it. `Published` carries that through the ranking, the
one-item slot and the output filter to what readers see: every window published ranks the log, and in the end the one
on display is the last. The slot may drop a window for a newer one, so not every window is published.

**Delivery.** `ConsumerLoop`, `Delivery`, `ReplyWaiters` and `Outbox` are what the other two rest on: committed
positions, dead letters, reply matching and the transactional outbox.

`Verdict` joins the three: a system whose drivers are dead and whose scans have stopped, left to drain, gets the oracle's
PASS.

`Collections` and `Skus` hold sums over finite sets, ascending sequences and the order of SKUs.

## Premises

The code relies on these and does not enforce them. They are conditions of the step relations, not facts.

- A driver writes inside its lease, and a COMPENSATING row, which is joined whatever its freshness, is joined only when
  no driver works on it (`Saga.Premised`). The lease gives the rest: exclusion is proved, not assumed. Without the first
  half the code reaches a COMPLETED basket that holds nothing (`SagaPremises.LateDriverSellsUnreserved`), without the
  second an OPEN basket with its stock gone (`SagaPremises.SecondDriverLosesStock`).
- A finalize that raised did not commit. If it had, the rollback that follows would leave a COMPLETED transaction holding
  nothing; the stores agree exactly when it had not (`SagaPremises.InDoubtFinalizeLosesStock`).
- Each local transaction, `reserve` with its second statement included, is one atomic step.
- For Inventory on its own, no quantity is negative. The published event schema asks for at least 1; Inventory does not
  look. For any basket, being able to undo its reservation is equivalent to this
  (`InventoryRuns.ReleasableIffNotNegative`), and so is surviving any redelivery
  (`InventoryRuns.RedeliveryHarmlessIffNotNegative`). In the saga it is proved: the lines are scan counts.
- Gap finality: once a row is published, no row with a lower id commits (`Relay.CommitsAhead`). Rising first occurrences
  and the end-to-end theorems rest on it. Coverage of the log by the topic does not: a row at or below the saved position
  is on the topic exactly when it did not commit at or below the position saved by then (`Relay.RelayCoverage`).
- The last records read before a pipeline starts hold no more repeats than `Replay.CoversWindow` allows: `W - S + 1` among
  the `2 W` of a replay, more when the whole buffer is drawn on.
- The buffer evicts nothing the tail has not read, emitted or held pending (`ScanPipeline.WithinLag`).
- The scan log is one log for the whole run, under one token.

## Where the code and its documentation part

- The tail's documentation says a hole open past its grace is a permanent gap. The code fixes the hole's upper end when
  it first sees it, so a row that turns up inside the hole during the grace is skipped with it, and the stale row keeps
  every later hole from being skipped. In-order publishing is what rules this out; `TailProgress` proves both sides.
- The dead letter of a malformed event reports one attempt, however many failed before it. The model does the same.

## Model

| member | source | states |
|---|---|---|
| `Skus.SortedItems` | backend/services/checkout/src/checkout_service/saga.py:53 | a dict listed in ascending SKU order: each item once, code point order |
| `Skus.ListingUnique` | backend/services/checkout/src/checkout_service/saga.py:53 | that listing is determined by the dict alone, so insertion order leaves no trace in a request |
| `Skus.LessIsCodePointOrder` | backend/services/checkout/src/checkout_service/saga.py:53 | the order is that of code points: where two SKUs first differ the smaller comes first, and a prefix before what it is a prefix of |
| `Baskets.Lines` | backend/services/checkout/src/checkout_service/saga.py:49-53 | the reservation lines are the basket merged by SKU and listed in SKU order |
| `Baskets.TotalOf` | backend/services/checkout/src/checkout_service/saga.py:137 | the charge is the sum of price times quantity over the grouped basket |
| `Baskets.BasketAccounts` | backend/services/checkout/src/checkout_service/repo.py:51-55 | grouping by SKU and price loses no money and no unit, and counts each SKU's scans exactly |
| `Baskets.BasketAscending` | backend/services/checkout/src/checkout_service/repo.py:51-55 | the grouped rows come in key order, no group twice |
| `Baskets.LinesAreScanCounts` | backend/services/checkout/src/checkout_service/saga.py:49-53 | whatever prices split a SKU into groups, its merged line is how often it was scanned |
| `Baskets.LinesCarryEveryItem` | backend/services/checkout/src/checkout_service/saga.py:133-141 | the lines of a reservation add up to the transaction's item count |
| `Inventory.Service.Normalize` | backend/services/inventory/src/inventory_service/reserve.py:150-154 | repeated SKUs are summed and the lines put in the order their rows are locked in |
| `Inventory.Service.ReserveLines` | backend/services/inventory/src/inventory_service/reserve.py:170-209 | one reservation is the one statement: replay of the recorded outcome, or all lines taken with record and alerts, or a refusal recorded with its short SKUs |
| `Inventory.ReserveDecides` | backend/services/inventory/src/inventory_service/reserve.py:52-67 | an attempt without a record is reserved if and only if its basket is not empty and every line has a row with enough stock, and then loses exactly its lines; otherwise it is refused naming exactly the lines that lack it; a replay changes nothing and says what is recorded |
| `Inventory.Service.ReleaseAttempt` | backend/services/inventory/src/inventory_service/reserve.py:234-253 | one release: tombstone, replay, or restore once; aborts, changing nothing, when the table's constraint would be violated |
| `Inventory.ReleaseDecides` | backend/services/inventory/src/inventory_service/reserve.py:234-253 | an APPLIED attempt gets every line back, unless some row would fall below zero; any other is closed without a move of stock |
| `Inventory.Service.HandleReservation` | backend/services/inventory/src/inventory_service/handlers.py:84-109 | the request's local transaction and its outcome queued with it |
| `Inventory.Service.HandleRelease` | backend/services/inventory/src/inventory_service/handlers.py:112-126 | the release's local transaction and its outcome queued with it, or neither |
| `Inventory.MergeOfListing` | backend/services/inventory/src/inventory_service/reserve.py:182-190 | merging lines that Checkout already merged gives them back, so what is recorded is what was asked |
| `InventoryRuns.StockIsConserved` | backend/services/inventory/src/inventory_service/reserve.py:41-121 | after any requests at all: per SKU, initial minus current stock is the sum over APPLIED records, and no stock is negative |
| `InventoryRuns.RecordsOnlyAdvance` | backend/services/inventory/src/inventory_service/reserve.py:157-253 | over any requests a record only goes none, then APPLIED or REJECTED at most once, then RELEASED for good |
| `InventoryRuns.RepliesAgree` | backend/services/inventory/src/inventory_service/handlers.py:84-126 | no attempt is ever answered both reserved and rejected |
| `InventoryRuns.TakenOnceRestoredOnce` | backend/services/inventory/src/inventory_service/reserve.py:191-253 | per attempt, units leave the stock at most once and come back at most once, in that order |
| `InventoryRuns.RedeliveryChangesNothing` | backend/services/inventory/src/inventory_service/reserve.py:170-253 | from any state and for any baskets, a delivery schedule with repeats anywhere, every delivery answered, ends in the state of the one that delivers each request once |
| `InventoryRuns.NegativeLineMakesRedeliveryMatter` | backend/services/inventory/src/inventory_service/reserve.py:247-252 | for any basket with a negative line there is a schedule in which a repeated release, refused at first, does change the state |
| `InventoryRuns.RedeliveryHarmlessIffNotNegative` | backend/services/inventory/src/inventory_service/reserve.py:170-253 | repeats are harmless in every schedule if and only if no quantity is negative |
| `InventoryRuns.NegativeLineTrapsItsRelease` | backend/services/inventory/src/inventory_service/reserve.py:247-252 | a single negative line, for any basket, lets another request make its release impossible |
| `InventoryRuns.ReleasableIffNotNegative` | backend/services/inventory/src/inventory_service/models.py:33-35 | a reservation can be compensated after any requests of others if and only if none of its quantities is negative |
| `InventoryRuns.OneAlertPerDescent` | backend/services/inventory/src/inventory_service/reserve.py:63-68 | a request adds exactly one alert row for each SKU it takes from at or above the threshold to below it, with the stock left and the threshold |
| `StockLocks.NoWaitCycle` | backend/services/inventory/src/inventory_service/reserve.py:48-51 | with rows locked in ascending SKU order, no reachable lock table has a cycle of waits |
| `StockLocks.SomeoneProceeds` | backend/services/inventory/src/inventory_service/reserve.py:107-118 | in every reachable lock table with a transaction in it, some transaction has all its locks or can take the next |
| `Checkout.Service.ScanItem` | backend/services/checkout/src/checkout_service/repo.py:26-40 | a scan is accepted if and only if the transaction exists and is OPEN; then the item joins the end of its items, the count grows by one and the total by the price, and these are returned; otherwise nothing changes |
| `Checkout.Service.BeginCompletion` | backend/services/checkout/src/checkout_service/saga.py:121-157 | start, take over, or refuse, as the status, the record's state and its lease say; a fresh start queues its request in the same transaction |
| `Checkout.BeginDecides` | backend/services/checkout/src/checkout_service/saga.py:121-157 | an OPEN basket with items starts under the next epoch for its scan counts and summed prices; a RESERVING or RESERVED record is taken over exactly when its lease has run out and refused while it is held; a COMPENSATING one owes its release; any other status is refused |
| `Checkout.Service.SetCompletionState` | backend/services/checkout/src/checkout_service/repo.py:95-99 | a state write renews the lease and is refused once the record is terminal |
| `Checkout.Service.MarkCompensating` | backend/services/checkout/src/checkout_service/saga.py:62-68 | COMPENSATING is never recorded without the release it owes |
| `Checkout.Service.ReopenTx` | backend/services/checkout/src/checkout_service/repo.py:119-128 | only a COMPLETING transaction is reopened, its record closed with its epoch kept |
| `Checkout.Service.FinalizeStep` | backend/services/checkout/src/checkout_service/repo.py:104-115 | only a COMPLETING transaction is completed, with the recorded total; otherwise nothing changes and the caller is told |
| `Checkout.Service.ClaimStuck` | backend/services/checkout/src/checkout_service/repo.py:132-140 | the claimed rows are the oldest of those RESERVING, RESERVED or COMPENSATING, stale and not locked by others, up to the limit; each has its lease renewed and its attempt counted, once, and no other row changes |
| `Checkout.Service.SweepAbandoned` | backend/services/checkout/src/checkout_service/repo.py:66-70 | of the given transactions exactly those still OPEN are cancelled |
| `CheckoutRuns.StatusAndRecordAgree` | backend/services/checkout/src/checkout_service/repo.py:66-128 | over any statements of any number of drivers: COMPLETING iff the record is unfinished, COMPLETED iff it is finished, OPEN or CANCELLED iff there is none or it is ABORTED |
| `CheckoutRuns.CountersAreTheItems` | backend/services/checkout/src/checkout_service/repo.py:26-40 | over any statements: item count and running total are those of the items, and no completing basket is empty |
| `CheckoutRuns.ItemsAreTheScans` | backend/services/checkout/src/checkout_service/repo.py:26-40 | over any statements: a transaction's items are those it had and then the scans of it accepted since, one by one and in order |
| `CheckoutRuns.FinalStaysFinal` | backend/services/checkout/src/checkout_service/repo.py:95-128 | over any statements: COMPLETED and CANCELLED rows never change again, baskets only grow, epochs never go back |
| `CheckoutRuns.BasketFrozen` | backend/services/checkout/src/checkout_service/repo.py:26-40 | from a COMPLETING transaction on, over any statements of any drivers and shoppers: while it is COMPLETING or COMPLETED under the same epoch, no scan has landed and items, counters and recorded total are as they were |
| `CheckoutRuns.AttemptEndsAsBegun` | backend/services/checkout/src/checkout_service/saga.py:133-141 | the lines and the total an attempt began with are those of the basket it ends on, whatever happened in between |
| `SagaSteps.StepKeeps` | backend/services/checkout/src/checkout_service/saga.py:84-224 | every step of the saga, delivery and crash included, keeps the agreement of both stores, the messages and the drivers |
| `SagaSteps.ReachableInv` | backend/services/checkout/src/checkout_service/saga.py:84-224 | that agreement holds in every reachable state |
| `SagaTheorems.CrossStoreSafety` | backend/services/checkout/src/checkout_service/saga.py:84-224 | in every reachable state: COMPLETED means the current attempt holds exactly the basket, OPEN or CANCELLED means no attempt holds anything, an earlier attempt never holds anything |
| `SagaTheorems.ChargedWhatWasScanned` | backend/services/checkout/src/checkout_service/saga.py:133-141 | in every reachable state a completed transaction's recorded total, running total, item prices and grouped basket all agree, and its stock holding has exactly its item count |
| `SagaTheorems.LeaseExclusion` | backend/services/checkout/src/checkout_service/repo.py:89-93 | no begin, takeover or recovery claim ever gives a completion two drivers inside their leases |
| `SagaTheorems.RepublishingAddsNothing` | backend/services/checkout/src/checkout_service/stock_events.py:190-199 | whatever a driver publishes or republishes was already sent |
| `SagaTheorems.LateMessagesAreInert` | backend/services/inventory/src/inventory_service/reserve.py:191-208 | requests already sent for an attempt that is over, in any order and number, move no stock, raise no alert and leave every holding as it was |
| `SagaPremises.SecondDriverLosesStock` | backend/services/checkout/src/checkout_service/saga.py:146-147 | without the premise on joining a COMPENSATING row the code itself reaches an OPEN basket whose stock is gone |
| `SagaPremises.LateDriverSellsUnreserved` | backend/services/checkout/src/checkout_service/repo.py:95-99 | without the premise that drivers write inside their leases, every other step within it, the code reaches a COMPLETED basket that holds nothing |
| `SagaPremises.DriverAboutToFinalize` | backend/services/checkout/src/checkout_service/saga.py:206-212 | a driver inside its lease and about to finalize is reachable |
| `SagaPremises.InDoubtFinalizeLosesStock` | backend/services/checkout/src/checkout_service/saga.py:211-216 | from every reachable state with such a driver: a finalize that raised and the rollback that follows it end with the attempt released and the transaction reopened if it still can be; there the stores agree if and only if the finalize had not committed |
| `Completion.Rollback` | backend/services/checkout/src/checkout_service/saga.py:84-101 | the call is a run of the saga; it reopens exactly when the release was confirmed and otherwise leaves COMPENSATING to recovery |
| `Completion.AskForStock` | backend/services/checkout/src/checkout_service/saga.py:184-193 | the ask is a run of the saga; the reply heard is the attempt's own, and no reply sends the driver to roll back |
| `Completion.Finish` | backend/services/checkout/src/checkout_service/saga.py:206-223 | RESERVED, then COMPLETED with the total: a finalize that does not raise on a transaction in progress gives the receipt, the stock still taken; one that raises is rolled back, or left to recovery when the release is not confirmed |
| `Completion.Attempt` | backend/services/checkout/src/checkout_service/saga.py:184-224 | steps 2 and 3 are a run of the saga, and the answer is decided by the reply: receipt when reserved and finalized, the short SKUs when rejected, rolled back on a tombstone, 503 when no reply is heard |
| `Completion.BeginAttempt` | backend/services/checkout/src/checkout_service/saga.py:121-157 | step 1 is a step of the saga and leaves the driver where each of its results says |
| `Completion.Complete` | backend/services/checkout/src/checkout_service/saga.py:160-224 | the whole call, whatever the replies and the database do, is a run of the saga that leaves no driver behind; its answer says what the stores now say, and is the one the status, the lease, the replies and the finalize call for |
| `Completion.SoldIffInStock` | backend/services/checkout/src/checkout_service/saga.py:184-224 | a first attempt, its reply heard and its finalize not raising, is sold if and only if every line has stock enough, which it then holds; otherwise refused naming exactly the short lines, nothing taken |
| `Completion.OpenBasketSells` | backend/services/checkout/src/checkout_service/saga.py:133-224 | so an OPEN basket is sold, for the sum of its scanned prices, if and only if Inventory has every SKU as often as it was scanned |
| `Completion.ConcludedMeans` | backend/services/checkout/src/checkout_service/saga.py:160-224 | from a reachable system a receipt means the stock is held and the charge is what was scanned; a refusal means nothing is held |
| `Recovery.Drive` | backend/services/checkout/src/checkout_service/recovery.py:36-51 | a claimed row is rolled forward from RESERVED and back from anything else; it reopens, and counts, only when the release was confirmed, and otherwise stays COMPLETING and COMPENSATING; a statement that raised changes nothing |
| `Recovery.DriveAll` | backend/services/checkout/src/checkout_service/recovery.py:33-54 | the rows are driven one after another and the finished ones counted |
| `Recovery.RunOnce` | backend/services/checkout/src/checkout_service/recovery.py:27-54 | a pass claims the oldest stuck rows and drives exactly those |
| `RecoveryPass.DriveOne` | backend/services/checkout/src/checkout_service/recovery.py:36-51 | whatever becomes of its row, a statement raising, the request lost or its answer not heard, what a recovery driver leaves is reached by steps of the saga, and its row is in the state that fate calls for |
| `RecoveryPass.PassIsARun` | backend/services/checkout/src/checkout_service/recovery.py:27-54 | a pass with any fates, beside any drivers still alive, is a run of the saga and ends exactly the completions it counts |
| `Drain.RecoverOnce` | backend/services/checkout/src/checkout_service/recovery.py:27-54 | the same over the services: each claimed row as its fate leaves it, every other untouched, and the number of unfinished completions lower by what is returned |
| `Drain.PassFinishesWhatItClaims` | backend/services/checkout/src/checkout_service/recovery.py:27-54 | with both sides reachable a pass is a run of the saga, and the number of unfinished completions falls by the number claimed |
| `Drain.DrainTheorem` | backend/services/checkout/src/checkout_service/recovery.py:27-54 | from any reachable state with no live driver, every sequence of recovery passes, whenever they are made, each claiming the oldest lapsed rows up to the limit with both sides reachable, is a run of the saga, and leaves nothing unfinished once the passes made when every lease had lapsed, times the limit, cover what was |
| `Drain.RecoverAll` | backend/services/checkout/src/checkout_service/recovery.py:57-65 | the loop itself, pass after pass over the services from right after a crash on, does so |
| `Oracle.Check` | backend/tools/verify_invariant.py:36-117 | the verdict is PASS exactly when stock, completions, reservations, scan positions and outboxes all agree |
| `Oracle.SoldIsHeld` | backend/tools/verify_invariant.py:42-44 | with nothing unfinished, per SKU, units held by APPLIED records are units in completed baskets |
| `Oracle.CheckPassesIffFinished` | backend/tools/verify_invariant.py:36-85 | in every reachable state the store conditions of the oracle hold if and only if Inventory was seeded and no completion is unfinished |
| `Oracle.DrainedSystemPasses` | backend/tools/verify_invariant.py:36-85 | after every such sequence of passes the store conditions of the oracle hold |
| `Verdict.DrainedSystemGetsAPass` | backend/tools/verify_invariant.py:36-117 | a system left to drain, its recovery passes, relay, reader, tail and both outboxes each given enough turns, meets every condition of the oracle's PASS |
| `Relay.ScanRelay.RunPass` | backend/services/checkout/src/checkout_service/relay.py:51-117 | a pass initialises a fresh position, announces a replaced log and starts it over, or publishes the ready prefix as far as the broker takes it, moving the position only after all of it |
| `Relay.GapWaitsOutGrace` | backend/services/checkout/src/checkout_service/relay.py:85-95 | a row behind a missing id is never ready before that very id has been missing for the grace |
| `Relay.ReadyExactly` | backend/services/checkout/src/checkout_service/relay.py:81-97 | a pass publishes up to the first gap whose grace is not over and not less: each row before it follows its predecessor or a gap waited out, and the gap is remembered with its first sighting |
| `RelayProgress.PassMovesOrWaits` | backend/services/checkout/src/checkout_service/relay.py:81-117 | with rows above the position a pass moves it, or leaves a sighting of the very id it waits for, younger than the grace |
| `RelayProgress.RelayCatchesUp` | backend/services/checkout/src/checkout_service/relay.py:81-117 | once commits stop, with broker and database up, as many rounds of passes longer than the grace as there are rows above the position bring it to the highest id |
| `Relay.TopicCoversLog` | backend/services/checkout/src/checkout_service/relay.py:81-117 | under gap finality, over any passes, crashes, failed saves and commits: first occurrences on the topic rise, and every row up to the position or below a published one is there |
| `Relay.RelayCoverage` | backend/services/checkout/src/checkout_service/relay.py:81-117 | with rows committing in any order at all: a row at or below the saved position is on the topic if and only if it committed above the position saved at that time |
| `Relay.RowBelowPositionIsLost` | backend/services/checkout/src/checkout_service/relay.py:83-95 | a row not on the topic by the time the position has passed it never gets there |
| `ScanSource.KafkaScanSource.ApplyScan` | backend/services/analytics/src/analytics_service/scan_source.py:82-94 | a known id is ignored; a new one enters and pushes out the oldest arrivals beyond the limit |
| `ScanSource.KafkaScanSource.SortedAbove` | backend/services/analytics/src/analytics_service/scan_source.py:104 | the held ids above the cursor, ascending |
| `ScanSource.KafkaScanSource.Read` | backend/services/analytics/src/analytics_service/scan_source.py:101-105 | the first held rows above the cursor in id order, and the highest id seen; nothing before the replay is read |
| `ScanSource.ApplyKeeps` | backend/services/analytics/src/analytics_service/scan_source.py:87-94 | the buffer stays a dict of at most `keep` rows, true to the records, and evicts only when full |
| `ScanSource.ShortReplayLosesNothing` | backend/services/analytics/src/analytics_service/scan_source.py:82-94 | up to `keep` records the buffer holds every id once, and its highest id is one of them |
| `ScanSource.BufferIsTrue` | backend/services/analytics/src/analytics_service/scan_source.py:82-94 | after any number of records and evictions the buffer is within its limit, true to the records, and knows their highest id |
| `ScanSource.RecentIsHeld` | backend/services/analytics/src/analytics_service/scan_source.py:87-94 | an id that first occurred within the last `keep` records is held, whatever has been evicted |
| `TailIngest.Ingest.AdvanceTo` | backend/services/analytics/src/analytics_service/pipeline.py:151-157 | moving the watermark marks every boundary it passes |
| `TailIngest.Ingest.DrainPending` | backend/services/analytics/src/analytics_service/pipeline.py:159-168 | pending rows contiguous with the watermark are emitted, and whether any was |
| `TailIngest.Ingest.SkipExpiredHole` | backend/services/analytics/src/analytics_service/pipeline.py:170-186 | a hole is first noted with its upper end, waits the grace, and is then skipped up to that end |
| `TailIngest.Ingest.PollOnce` | backend/services/analytics/src/analytics_service/pipeline.py:188-216 | one turn of the loop: nothing while the source is unavailable, a restart when it names another log or its highest id is below the cursor, and otherwise what its answer leads to |
| `TailRuns.WatermarkDiscipline` | backend/services/analytics/src/analytics_service/pipeline.py:151-186 | on any source at all: emitted ids rise, and each boundary on the grid is marked once, after every scan at or below it and before every scan above it |
| `TailRuns.PollKeepsInOrder` | backend/services/analytics/src/analytics_service/pipeline.py:159-216 | on an in-order source: what is emitted is exactly what was revealed up to the cursor, and a skip passes only ids never revealed |
| `TailGrace.GivingUpWaits` | backend/services/analytics/src/analytics_service/pipeline.py:170-186 | on any source, over any polls: an id passed without being held or just shown lay in a hole that an earlier poll, more than the grace before, noted from the cursor to the lowest row held, and neither hole nor cursor has moved since |
| `TailProgress.StandstillWaits` | backend/services/analytics/src/analytics_service/pipeline.py:175-181 | behind its source, a cursor that does not move over polls longer than the grace is impossible |
| `TailProgress.CatchUp` | backend/services/analytics/src/analytics_service/pipeline.py:188-216 | once an in-order source stops growing, at most `highest - cursor` stretches of polling longer than the grace bring the cursor to the highest id, everything emitted |
| `TailProgress.SkipLosesExactlyTheHole` | backend/services/analytics/src/analytics_service/pipeline.py:175-186 | a skip leaves a pending row behind if and only if its id is within the hole as first seen |
| `TailProgress.PassedIsGone` | backend/services/analytics/src/analytics_service/pipeline.py:203-205 | an id the cursor has passed without emitting it is never emitted |
| `TailProgress.PollOnlyDrains` | backend/services/analytics/src/analytics_service/pipeline.py:175-186 | with a row left behind, a poll does nothing but drain, whatever it is answered and however late |
| `TailProgress.LeftBehindNeverSkips` | backend/services/analytics/src/analytics_service/pipeline.py:175-186 | once a row is left behind, over any polls of any source: it stays, and every id the cursor passes is one the tail was shown, so no later hole is ever skipped |
| `TailProgress.LeftBehindStalls` | backend/services/analytics/src/analytics_service/pipeline.py:175-183 | so as long as the next id is not shown the cursor stands and nothing is emitted |
| `TailProgress.LateRowIsLostForGood` | backend/services/analytics/src/analytics_service/pipeline.py:175-186 | two polls of an out-of-order source after which a revealed row is lost and the tail never skips again |
| `Windows.WindowFilter.OnScan` | backend/services/analytics/src/analytics_service/pipeline.py:235-237 | a scan joins the end of the buffer |
| `Windows.WindowFilter.OnWatermark` | backend/services/analytics/src/analytics_service/pipeline.py:239-245 | the slide lists the scans entering and leaving the window, and the buffer loses what left |
| `Windows.AggregationFilter.OnSlide` | backend/services/analytics/src/analytics_service/pipeline.py:260-264 | the running counts are updated by the slide and SKUs at zero dropped |
| `Windows.Through` | backend/services/analytics/src/analytics_service/pipeline.py:219-264 | an item through both filters, the step the recount theorem is about |
| `Windows.PopOldIsExact` | backend/services/analytics/src/analytics_service/pipeline.py:242-243 | popping the front while it is old removes exactly the scans at or below the window's lower edge |
| `Windows.SlideIsRecount` | backend/services/analytics/src/analytics_service/pipeline.py:240-263 | a slide turns the recount of one window into that of the next, no count below zero on the way |
| `Windows.IncrementalEqualsRecount` | backend/services/analytics/src/analytics_service/pipeline.py:219-264 | for any output of the tail, window and slide: every window's counts are a fresh per-SKU count of the emitted scans in `(max(0, b - W), b]` |
| `Ranking.Rank` | backend/services/analytics/src/analytics_service/pipeline.py:281 | the ranking lists true counts by count descending then SKU, cut at the depth, and leaves out only what comes after all it lists |
| `Ranking.RankWindow` | backend/services/analytics/src/analytics_service/pipeline.py:275-291 | a window through the ranking filter keeps its bounds and gains its ranking |
| `Ranking.RankingUnique` | backend/services/analytics/src/analytics_service/pipeline.py:281 | the counts determine the ranking |
| `Ranking.LatestSlot.Put` | backend/services/analytics/src/analytics_service/pipeline.py:307-312 | a newer window replaces one not yet taken; the end of the stream never does |
| `Ranking.LatestSlot.Get` | backend/services/analytics/src/analytics_service/pipeline.py:314-319 | the waiting window is taken before the end of the stream; with neither, the caller waits |
| `Ranking.OutputFilter.Take` | backend/services/analytics/src/analytics_service/pipeline.py:338-352 | a window is published unless one at least as new is out |
| `Ranking.NewestIsPublished` | backend/services/analytics/src/analytics_service/pipeline.py:294-352 | over any puts and takes published windows strictly rise, and when puts rise, as the tail's do, the newest put is on display once the slot is empty |
| `ScanWindow.Window.Append` | backend/services/analytics/src/analytics_service/scan_window.py:20-23 | the bounded deque holds the last `W + S` of everything appended, and the highest id |
| `ScanWindow.Window.Clear` | backend/services/analytics/src/analytics_service/scan_window.py:25-27 | nothing appended before a clear counts after it |
| `ScanWindow.Window.Bounds` | backend/services/analytics/src/analytics_service/scan_window.py:29-32 | the bounds of the window ending at the highest id |
| `ScanWindow.Window.Counts` | backend/services/analytics/src/analytics_service/scan_window.py:34-38 | on ids in order, the bounded deque ranks as a recount of everything appended would |
| `ScanWindow.DequeRecounts` | backend/services/analytics/src/analytics_service/scan_window.py:16-17 | the deque always holds the whole window |
| `ScanWindow.ShorterDequeMiscounts` | backend/services/analytics/src/analytics_service/scan_window.py:16-17 | for every window size, a deque one short of the window would miscount |
| `ScanPipeline.RunKeepsPipe` | backend/services/analytics/src/analytics_service/scan_source.py:82-105 | any interleaving of commits, relay passes, crashes, reads and polls keeps relay, buffer and tail in agreement |
| `ScanPipeline.ExactlyOnce` | backend/services/analytics/src/analytics_service/pipeline.py:188-216 | end to end, the window filter receives exactly the committed scans in `(start, cursor]`, each once, in id order, and the cursor never overtakes the source |
| `ScanPipeline.WindowsCountTheLog` | backend/services/analytics/src/analytics_service/pipeline.py:219-264 | end to end, every boundary passed has one window, and it counts the rows of the scan log table itself |
| `PipelineProgress.TailCatchesUp` | backend/services/analytics/src/analytics_service/pipeline.py:188-216 | with the position at the end of the log and the topic read, polling brings the cursor to the highest id and has emitted exactly the rows of the scan log above the start |
| `PipelineProgress.PipelineCatchesUp` | backend/services/analytics/src/analytics_service/pipeline.py:188-216 | from any reachable state in which commits have stopped: relay rounds, then any run that reads the topic, then rounds of polls bring the cursor to the highest id, exactly the committed scans above the start emitted |
| `Replay.FirstBoundaryIsLeast` | backend/services/analytics/src/analytics_service/pipeline.py:93-95 | the smallest multiple of the slide strictly above the start |
| `Replay.BootstrapCoversFirst` | backend/services/analytics/src/analytics_service/supervisor.py:92-97 | the tail starts low enough for the first published window to be complete, and not above the highest id |
| `Replay.BootstrapIsLatest` | backend/services/analytics/src/analytics_service/supervisor.py:92-97 | the first boundary published is the last multiple of the slide the source has reached, or the first if none, and the tail starts one window below it |
| `Replay.WindowIsRecent` | backend/services/analytics/src/analytics_service/scan_source.py:48-53 | with at most `n - W - S + 1` repeats among the last `n` records, every scan of the window first occurred among them |
| `Replay.ReplayHoldsTheWindow` | backend/services/analytics/src/analytics_service/scan_source.py:48-53 | with `S <= W` and at most `W - S + 1` repeats in the last `2 W` records, the replay holds every published id in `(b0 - W, max]` |
| `Replay.OneRepublishedBatchFits` | backend/services/checkout/src/checkout_service/relay.py:39 | with W = 1000 and S = 500 one republished batch of 500 rows stays within the bound |
| `Replay.OneRepeatMoreMisses` | backend/services/analytics/src/analytics_service/scan_source.py:48-53 | the bound is tight: for every W and S beyond 1 and 1, one repeat more makes some topic's replay miss an id of the window |
| `Replay.ReplayBoots` | backend/services/analytics/src/analytics_service/supervisor.py:91-138 | a cold start after the replay, or a rebuild over a source that has been evicting: under the repeat bound for its last `n <= keep` records the pipeline starts with every consumed scan it will need |
| `Replay.StartedPipelineCountsTheLog` | backend/services/analytics/src/analytics_service/supervisor.py:91-138 | a relay history under gap finality, a late reader within the repeat bound, bootstrap, any further run: every window handed to the ranking counts the scan log |
| `Published.OutletDisplays` | backend/services/analytics/src/analytics_service/pipeline.py:267-352 | whatever the slot drops, every window published from the tail's output ranks the rows of the scan log in its bounds and ends on the grid, ends rise, and with the slot empty the newest put is on display |
| `Published.DisplayRanksTheLog` | backend/services/analytics/src/analytics_service/supervisor.py:91-138 | the same end to end: relay history, late reader, bootstrap, any run of the pipeline, any taking of windows |
| `Published.LastWindowIsDisplayed` | backend/services/analytics/src/analytics_service/pipeline.py:188-352 | once commits stop and all have caught up, the window on display ends at the last boundary the scan log reaches and ranks the log |
| `ConsumerLoop.HandleOne` | backend/packages/checkout_web/src/checkout_web/consumer_loop.py:71-110 | the fate of a record for any sequence of handler outcomes, and the attempts reported |
| `ConsumerLoop.OutagesDoNotCount` | backend/packages/checkout_web/src/checkout_web/consumer_loop.py:90-94 | removing every transient outcome changes no verdict |
| `ConsumerLoop.VerdictIff` | backend/packages/checkout_web/src/checkout_web/consumer_loop.py:83-110 | outages aside: handled if and only if fewer failures than allowed are followed by a success; dead-lettered if and only if the allowed number failed in a row or the event proved malformed before that; otherwise still trying; with the attempts reported |
| `ConsumerLoop.Group` | backend/packages/checkout_web/src/checkout_web/consumer_loop.py:54-56 | each record is in the group of its partition and key and no other, groups in batch order |
| `ConsumerLoop.OnlySplits` | backend/packages/checkout_web/src/checkout_web/consumer_loop.py:54-56 | a group's part of a batch is its part of the front and then of the rest, and of one record that record or nothing: none is dropped, repeated or moved |
| `ConsumerLoop.MemoryConsumer.Take` | backend/packages/checkout_web/src/checkout_web/bus.py:595-602 | a read takes the next records of each partition in turn while there is room, leaves a record behind only when it is full, and takes from a partition only what the ones before leave |
| `ConsumerLoop.MemoryConsumer.Commit` | backend/packages/checkout_web/src/checkout_web/bus.py:604-614 | positions are stored, or a lost commit resumes at the last stored ones |
| `Delivery.AtLeastOnceInOrder` | backend/packages/checkout_web/src/checkout_web/consumer_loop.py:49-68 | every schedule of polls, concurrent groups, lost commits, crashes and appends keeps the delivery guarantees |
| `Delivery.DeliveryFromScratch` | backend/packages/checkout_web/src/checkout_web/consumer_loop.py:49-68 | every record below a committed position was handled or dead-lettered, as the calls of its handler decide, and first times follow offset order per partition and key |
| `Delivery.TurnsSettleAll` | backend/packages/checkout_web/src/checkout_web/consumer_loop.py:49-68 | once appends stop and nothing is lost, turns enough for what is unread settle every record and commit past it |
| `ReplyWaiters.StockEvents.Enter` | backend/services/checkout/src/checkout_service/stock_events.py:180-184 | an ask registers a future of its own, and the key filter's count stays the number of waiters |
| `ReplyWaiters.StockEvents.Leave` | backend/services/checkout/src/checkout_service/stock_events.py:213-226 | an ask that ends takes only its own future away, and the counts stay right |
| `ReplyWaiters.StockEvents.Wanted` | backend/services/checkout/src/checkout_service/stock_events.py:124-131 | a reply is wanted when its key does not parse or names an active transaction; one not wanted, its key naming its transaction, answers no one registered |
| `ReplyWaiters.StockEvents.Dispatch` | backend/services/checkout/src/checkout_service/stock_events.py:133-142 | a reply resolves exactly the undone futures of its transaction, epoch and kind; a result once set never changes |
| `ReplyWaiters.WantedKeepsEveryAnswer` | backend/services/checkout/src/checkout_service/stock_events.py:124-131 | the key filter never drops a reply that an ask here waits for |
| `ReplyWaiters.DroppedAnswersNoOne` | backend/services/checkout/src/checkout_service/stock_events.py:115-116 | a reply it drops would have resolved nothing |
| `Outbox.Service.PublishNow` | backend/services/checkout/src/checkout_service/outbox.py:31-47 | the fast path publishes, then marks; either may fail on its own |
| `Outbox.Service.ClaimUnpublished` | backend/services/checkout/src/checkout_service/repo.py:284-288 | the oldest unpublished rows, skipping those locked by others, up to the limit |
| `Outbox.Service.SweepOnce` | backend/services/checkout/src/checkout_service/outbox.py:50-64 | a sweep publishes and marks the claimed rows up to the broker's first refusal; a crash undoes marks and no publication |
| `Outbox.Service.DeletePublished` | backend/services/checkout/src/checkout_service/repo.py:289-292 | exactly the rows published before the horizon are deleted, and no unpublished one |
| `Outbox.NoEventIsLost` | backend/services/inventory/src/inventory_service/outbox.py:31-63 | over any refusals, crashes, concurrent sweeps and purges, a committed event is on the topic or still waiting in the table, and only published rows are marked or purged |
| `Outbox.SweepsDrain` | backend/services/inventory/src/inventory_service/outbox.py:49-63 | with the broker back, enough sweeps put every committed event on the topic |

## Left out

- HTTP routing, health, logging and tracing: no state to keep.
- The Kafka client, the ORM and PostgreSQL's interleavings within one statement: the broker is modelled by the in-memory bus, the database by atomic transactions.
- Completion.Complete: all its statements read one clock value, and nothing but Inventory acts between them; what other drivers, deliveries and crashes do in between is the subject of the step relation in `Saga`.
- Completion.AskForStock: the request is handled at most once while the ask waits; repeated handling of it, and a reply to an earlier delivery, are steps of `Saga`, where any reply ever sent may be the one heard.
- Checkout.Service.ScanItem: the scan id is drawn from a sequence across all transactions, which belongs to the log of `Relay`.
- Checkout.Service.SweepAbandoned: which transactions are old enough is given as a set; start times are not kept.
- Inventory.Service.HandleReservation: the second try after a lost insert race is not modelled, because requests of one attempt are one key and handled one at a time.
- Inventory.Service.ReleaseAttempt: a released record keeps no lines in the model; the code leaves them in the row and never reads them again.
- Recovery.RunOnce: one clock value per pass; a pass so long that it outlasts the leases of its own claimed rows is not modelled.
- Oracle.Check: the verdict, not the report's text lines; units decremented and line counts only appear in that text.
- SagaTheorems.LeaseExclusion: the lease is an integer clock shared by the database and the drivers; clock skew between processes is not modelled.
- Relay.ScanRelay.RunPass: the advisory lock that keeps one relay at a time is not modelled; the step relation of `Relay` stays within one log, so the two branches for a fresh database and a replaced log appear in the method only.
- ScanSource.KafkaScanSource.ApplyScan: reset events and undecodable records are not modelled; the first would start a new log.
- TailIngest.Ingest.PollOnce: sleeping and the bounded queues are not modelled.
- Ranking.OutputFilter.Take: the time stamped on a window when it is published.
- Published.OutletDisplays: one pipeline's life. A rebuild starts a slot and an output filter of its own; until it publishes, readers keep the last window of the one before.
- Verdict.DrainedSystemGetsAPass: the scan log has a row above the tail's start. With none there is nothing for relay or tail to catch up with.
- ConsumerLoop.HandleOne: backoff times, cancellation, and the retry of the dead-letter publication itself while the broker is down.
- ConsumerLoop.MemoryConsumer.Take: fault hooks of the in-memory bus other than the lost commit; readers without a group, which start at the end or a given number of records back.
- Delivery.DeliveryFromScratch: one consumer of the group at a time; the bound on concurrent groups only removes schedules.
- ReplyWaiters.StockEvents.Enter: the wait times and the republishing of an ask; the saga lets any request ever sent be delivered again at any time.
- Outbox.Service.PublishNow: a row and its event share one id here, since each row has an event id of its own; Inventory's outbox is the same code and shares the model.
- Integer widths: ids, counts and cents are unbounded integers.
- The catalog and its snapshot, seeds, report rendering and the load clients: single-loop facts with no protocol in them.
