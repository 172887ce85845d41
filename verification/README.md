# The transaction schedulers, verified

A Dafny model of the two transaction schedulers and of the replay bench.

The **batch scheduler** is a state machine over five containers (unchecked, checked,
executing, deferred transactions, and bundles), a lock table, a counter of compute units in
flight and a recheck cursor. It exchanges messages with workers that answer in any order:
check messages and execute messages. The **auction scheduler** picks out of order, over a
lock manager of another shape, packs batches by first fit and scores by congestion prices.
The **replay bench** cuts a recording into leader windows, slots and ticks.

## How it is built

- `Orders`, `Locks`: the orders of ids and bundles; the two-set lock table, and what it means
  for a table to be the exact index of the transactions that hold locks.
- `Protocol`: the state as a value (`World`), the events, `Enabled`, `Apply`, and runs. The
  lock table and the counter are not part of it.
- `Invariant`, `Steps`, `Capacity`: the inductive invariant, and that every event keeps it.
- `Theorems`, `Sweep`, `Merge`, `Checks`: what follows for every run.
- `BatchScheduler`: the object that updates its containers in place. Each method is proved to
  perform the events of `Protocol` on the state it stands for, with the lock table exact and
  the counter equal to the sum over outstanding execute messages; a whole poll is a run, so
  everything proved about runs holds of it. `Ingest`, `Responses`, `Schedule`, `Tips`,
  `Polling` hold its inputs and the facts its proofs use. The asserts, unwraps and panics of
  the code appear as `assert` statements at the same places.
- `LockManager`, `QueueDepths`: the lock manager object and its refinement of the two-set
  table. `Auction` says what the auction's choices mean: `Pick` is what a worker gets.
  `AuctionScheduler` is its object: intake, answers and scheduling all keep its `Valid`, and
  its worker loop sends the picks. `AuctionRuns` is the whole auction scheduler as a state
  machine: the events it shares with the batch scheduler, its starts and its tips.
  `AuctionRecheck` is its recheck loop.
- `Batches`, `Pricing`: first-fit packing, and prices and scores over the reals.
- `Replay`: segmentation. `Sequences`, `Sets` and `Arithmetic` are helpers.

Ghost state stands for the environment: the messages not answered yet, and for every
executing key the keys it was sent with.

## What is assumed of the environment

- Keys are fresh when the bridge hands them out; a transaction locks each account once.
- A response answers one outstanding message, and responses for dropped keys are never
  delivered. A check response has at most one failure flag. Check messages are sent without
  a slot limit and so are never returned unprocessed.
- Capacities and settings stay as they are during a run.
- The validator hands over no more transactions than its queue held when room was made for
  them.
- A bundle fits one message: the code unwraps the sending of a batch, and a message has a
  largest number of transactions.
- Recordings are sorted by timestamp, as the bench sorts them.
- Sums of costs, rewards and tips do not exceed 64 bits; multiplications and additions that
  the code saturates are saturated at 64 bits here too.

## Where the code does not do what it says

The model follows the code. Where the code would panic, the methods return `ok == false`
and promise nothing else: for a check response whose eviction finds nothing
(`CheckReplySucceedsIff`, reachable for every capacity and any transaction by
`EvictionCanFindNothing`), for more incoming transactions than the unchecked queue can hold
(`RoomCanBeMadeIff`, `RoomCanBeMissing`), for an accepted packet with an unchecked capacity of
0 (`OnPacket`), for an accepted bundle with a bundle capacity of 0 or without transactions
(`BundleFails`). A failing poll still says which bundles it has dropped.

The runs into a failure take any transaction the code may receive: one that writes an
account, costs something and fits a block.

- `schedulers/auction-batch-scheduler/src/lib.rs:420` says the second tip may take overlapping
  write locks; the acquire it calls declines silently, and the second tip is never looked at
  before. So it executes without locks whenever it overlaps the first, as the ordinary tips
  always do (`SecondIsFreeIff`, `OrdinaryConflicts`), or is not free of the holders. At the
  call, something outside the pair is in conflict with it exactly in the second case, or when
  something declined before is in the way (`BecomeTipReceiver`). As long as it executes,
  whatever starts is in conflict with something that executes exactly when it conflicts with
  a declined key (`TryScheduleTransaction`, `TryScheduleBundle`). Nothing but second tips is
  ever declined, and without one nothing that executes is in conflict
  (`OnlySecondTipsAreDeclined`, `ConflictsInAuction`, `NoConflictsWithoutRefusal`).
  `GetConflicting` and `GetOrdinaryConflict` get into a conflict.
- `schedulers/auction-batch-scheduler/src/lib.rs:1349` says unlock panics on a missing lock;
  it skips it.
- `schedulers/auction-batch-scheduler/src/lib.rs:838-847` says a transaction that is not
  checked any more is skipped; the loop takes the same cursor back and turns for ever
  (`LoopEndsIff`, reached in `StuckIsReachable` and `GetStuck`).
- `schedulers/auction-batch-scheduler/src/lib.rs:1187-1190` calls the queue depths up to date
  after scheduling; the transaction is queued once more and taken out once, so they stay as
  if it still waited. A bundle that is rolled back at 1247-1262 leaves its first members
  queued twice (`TryScheduleBundle`, `GetLeftovers`).
- `schedulers/auction-batch-scheduler/src/auction_engine.rs:413-432` describes batches of
  positive surplus; the surplus is looked at only when a batch is opened (`RefusedIff`,
  `UnpaidJoinsPaid`, `UnpaidSharesABatch`).
- `schedulers/auction-batch-scheduler/src/auction_engine.rs:882` announces a check of lock
  conflicts; a reader after a writer passes it (`BatchConflictsIff`, `ReaderJoinsWriter`,
  `BatchesWithoutConflicts`).

## Model

| member | source | states |
|---|---|---|
| `Theorems.ExactlyOnePlace` | schedulers/batch-scheduler/src/lib.rs:281-326 | over every run, each live key is in exactly one of: unchecked, awaiting its first check, checked, executing, deferred, one bundle; its first check message and its execute message are unique |
| `Theorems.OnePlaceMeans` | schedulers/batch-scheduler/src/lib.rs:281-326 | a key is in one place exactly when one of these is true and the others are false: unchecked, out for its first check, checked, executing, deferred, in a waiting bundle |
| `Capacity.RunKeepsInv` | schedulers/batch-scheduler/src/lib.rs:222-279 | the invariant (one place per key, one execute message per executing key, mutual exclusion, capacities, compute units) holds over every run from any state that has it |
| `Capacity.EventKeepsInv` | schedulers/batch-scheduler/src/lib.rs:416-1029 | every event keeps the invariant: admissions, evictions, check and execute responses, starts of transactions, bundles and tips, slot rolls, sweeps |
| `Theorems.SettledForever` | schedulers/batch-scheduler/src/lib.rs:849-952 | once past its first check, a live transaction never awaits a check again |
| `Theorems.LateCheckNeverInserts` | schedulers/batch-scheduler/src/lib.rs:849-952 | however late a recheck is answered, the answer can only take the transaction out, never put it back |
| `Theorems.ConflictsShareABatch` | schedulers/batch-scheduler/src/lib.rs:364-381 | over every run, two executing transactions that conflict were sent together, as one bundle or one tip pair |
| `Theorems.BoundsHold` | schedulers/batch-scheduler/src/lib.rs:1031-1033 | over every run: compute units in flight stay within a block and are 0 when nothing executes; checked + deferred + executing loose transactions stay within the checked capacity although bundles and tips count as pending; the other queues stay within theirs |
| `Theorems.DeferredUntilRoll` | schedulers/batch-scheduler/src/lib.rs:1003-1010 | a deferred transaction is neither checked nor executing, and in no execute message, until the slot changes |
| `Theorems.RollReturnsDeferred` | schedulers/batch-scheduler/src/lib.rs:297-326 | a slot change moves every deferred transaction to the checked ones, none lost, none twice, and starts a sweep when there is something to sweep |
| `Theorems.DeferredComeBack` | schedulers/batch-scheduler/src/lib.rs:297-326 | over every run that ends with its only slot change, every transaction deferred at the start, or later, is checked at the end |
| `Responses.AnswerSucceedsIff` | schedulers/batch-scheduler/src/lib.rs:849-1029 | handling an answer to a message that is out fails only in the eviction of a first check that passed with nothing checked |
| `Responses.RetryReasons` | schedulers/batch-scheduler/src/lib.rs:1035-1051 | the seven reasons that allow a retry; an included transaction and any other reason do not |
| `Responses.DeliverableIff` | schedulers/batch-scheduler/src/lib.rs:416-456 | responses can come in an order exactly when each, unless one before it failed, answers a check or execute message that is still out, with at most one failure flag |
| `Theorems.CheckReplySucceedsIff` | schedulers/batch-scheduler/src/lib.rs:933-936 | the eviction in a check response finds something to evict, unless it answers a first check that passed with nothing checked and executing and deferred transactions filling the checked capacity: exactly then the unwrap fails |
| `Theorems.EvictionCanFindNothing` | schedulers/batch-scheduler/src/lib.rs:933-936 | for every capacity and any transaction that writes an account, costs something and fits a block: a run from the start into that failure; single transactions, one after the other, fill the deferred side within one slot |
| `Sweep.SweepIsCompleteAndOrdered` | schedulers/batch-scheduler/src/lib.rs:735-756 | a sweep rechecks in strictly descending order, and rechecks exactly once everything at or below its start that stays checked, whatever is inserted, evicted or scheduled in between |
| `Sweep.SweepIsBounded` | schedulers/batch-scheduler/src/lib.rs:735-756 | within a sweep, finished or not, the moves of the cursor and what is left are at most what was ahead at the start plus what has been inserted since |
| `Sweep.SweepEnds` | schedulers/batch-scheduler/src/lib.rs:735-756 | a finished sweep rechecks at most what was ahead of its start plus what was inserted on the way |
| `Sweep.OnlyRechecksMoveTheCursor` | schedulers/batch-scheduler/src/lib.rs:322-325 | no other event moves a cursor that is set |
| `Sweep.WholeSweep` | schedulers/batch-scheduler/src/lib.rs:297-326 | a sweep that a slot change or the end of a leader poll begins starts at the greatest checked transaction; once finished, it has rechecked everything that stays checked, exactly once, from the top down |
| `Sweep.SweepOfTwo` | schedulers/batch-scheduler/src/lib.rs:735-756 | with two transactions checked and nothing unchecked, it rechecks the higher one, then the lower one, and ends |
| `Checks.DrainIsRun` | schedulers/batch-scheduler/src/lib.rs:715-780 | a round of check scheduling is a run of check and recheck messages |
| `Checks.FirstChecksFirst` | schedulers/batch-scheduler/src/lib.rs:722-732 | first checks go out before rechecks and from the top: what stays unchecked is below everything sent |
| `Checks.DrainedSplits` | schedulers/batch-scheduler/src/lib.rs:758-765 | a round of m + n pops is m pops and then n: cutting it into messages of 64 changes nothing |
| `Merge.MergedIsSorted` | schedulers/batch-scheduler/src/lib.rs:807-828 | the merge of checked transactions and bundles holds everything that waits, once, by descending priority with ties to transactions |
| `Merge.PickedIsPrefix` | schedulers/batch-scheduler/src/lib.rs:795-846 | starts in a row pick a prefix of the merge, and leave the rest of it |
| `Merge.PickedDescends` | schedulers/batch-scheduler/src/lib.rs:795-846 | priorities of successive batches never go up, and whatever is left waiting comes after everything picked |
| `Locks.CanLockIffNoConflict` | schedulers/batch-scheduler/src/lib.rs:1172-1184 | with an exact table, all locks can be granted exactly when no holder conflicts |
| `Locks.LockKeepsExact` | schedulers/batch-scheduler/src/lib.rs:1187-1198 | locking keeps the table the exact index of the holders |
| `Locks.UnlockKeepsExact` | schedulers/batch-scheduler/src/lib.rs:1203-1217 | unlocking keeps the table the exact index of the holders, without empty entries |
| `Locks.UnlockUndoesLock` | schedulers/batch-scheduler/src/lib.rs:1187-1217 | unlocking undoes locking |
| `Locks.ExactIsUnique` | schedulers/batch-scheduler/src/lib.rs:1373-1406 | the holders determine the table |
| `Locks.ConflictIff` | schedulers/batch-scheduler/src/lib.rs:1172-1184 | two lists conflict exactly when they name a common account and one of them writes it |
| `Orders.Compare` | schedulers/common/src/shared.rs:17-24 | the comparison of ids is the strict order by priority, then cost, then key |
| `Orders.BundleOrder` | schedulers/batch-scheduler/src/lib.rs:1409-1415 | the derived order of bundles is total |
| `Orders.BundleTransitive` | schedulers/batch-scheduler/src/lib.rs:1409-1415 | the derived order of bundles is transitive |
| `Orders.BundleOrderIs` | schedulers/batch-scheduler/src/lib.rs:1409-1415 | bundles are ordered by priority, then cost, then time of arrival, then the first key that differs |
| `Ingest.CalculatePriority` | schedulers/batch-scheduler/src/lib.rs:1219-1231 | the priority of a transaction stays below the marker of bundles |
| `Ingest.PriorityIs` | schedulers/batch-scheduler/src/lib.rs:1219-1231 | the priority is the saturated reward times a million divided by the cost, rounded down, with a cost of 0 counted as 1, and one below the marker at most |
| `Ingest.BundlePriorityIs` | schedulers/batch-scheduler/src/lib.rs:660-664 | the priority of a bundle is the saturated sum of its rewards and tips times a million divided by the sum of its costs, rounded down, with a sum of 0 counted as 1 |
| `Ingest.PriorityIsMonotone` | schedulers/batch-scheduler/src/lib.rs:1219-1231 | a better reward never lowers the priority, a higher cost never raises it |
| `Ingest.EvictionsTakeTheLowest` | schedulers/batch-scheduler/src/lib.rs:458-480 | making room evicts only transactions below every one it keeps, and their keys are forgotten |
| `Ingest.RoomCanBeMadeIff` | schedulers/batch-scheduler/src/lib.rs:458-480 | the evictions that make room for what the validator may hand over all find something exactly when that is no more than the capacity |
| `Ingest.RoomCanBeMissing` | schedulers/batch-scheduler/src/lib.rs:458-480 | a fresh scheduler with less capacity than that fails |
| `Ingest.BundleFails` | schedulers/batch-scheduler/src/lib.rs:660-684 | an accepted bundle fails without transactions, and without any capacity |
| `Ingest.BundleAdmitted` | schedulers/batch-scheduler/src/lib.rs:672-693 | a full bundle container gives up its lowest bundle, then the new one is admitted with the cost on its first transaction |
| `BatchScheduler.Scheduler.constructor` | schedulers/batch-scheduler/src/lib.rs:123-201 | a new scheduler is in the initial state: nothing anywhere, slot 0, no cursor |
| `BatchScheduler.Scheduler.CanLock` | schedulers/batch-scheduler/src/lib.rs:1172-1184 | true exactly when the table grants every lock |
| `BatchScheduler.Scheduler.LockAll` | schedulers/batch-scheduler/src/lib.rs:1187-1198 | takes the locks; the insertion assert holds; the table stays exact |
| `BatchScheduler.Scheduler.UnlockAll` | schedulers/batch-scheduler/src/lib.rs:1203-1217 | releases the locks; the panic and the removal assert are unreachable; the table stays exact |
| `BatchScheduler.Scheduler.InsertFirstChecked` | schedulers/batch-scheduler/src/lib.rs:933-952 | evicts the lowest checked transaction when full, then inserts; fails exactly when it is full and nothing is checked |
| `BatchScheduler.Scheduler.OnCheck` | schedulers/batch-scheduler/src/lib.rs:849-960 | the answer to a check, by its flags: nothing changes while it executes or is deferred; any of the three failures discards it; a recheck that passed keeps it; a first check that passed discards it exactly when a key is filtered, and inserts it otherwise, after evicting the lowest when full; fails exactly when that finds nothing |
| `BatchScheduler.Scheduler.Finish` | schedulers/batch-scheduler/src/lib.rs:962-975 | the executing mark, the units and the locks of a finished transaction go; removal assert and subtraction cannot fail |
| `BatchScheduler.Scheduler.OnUnprocessed` | schedulers/batch-scheduler/src/lib.rs:421-447 | an execute request no worker ran goes back to the checked ones; bundles and tips are discarded; the mark and the units go |
| `BatchScheduler.Scheduler.OnExecute` | schedulers/batch-scheduler/src/lib.rs:962-1029 | reason by reason: bundles, tips, the included and those with another reason are discarded; the seven retryable reasons keep the transaction, deferred if this slot tried it and the reason is not an account in use, else checked again; then the lowest checked one is evicted if there are too many |
| `BatchScheduler.Scheduler.Decide` | schedulers/batch-scheduler/src/lib.rs:416-456 | each response goes to its handler: what the handler keeps, defers, inserts or discards, by flags, reason, slot and priority |
| `BatchScheduler.Scheduler.Respond` | schedulers/batch-scheduler/src/lib.rs:416-456 | one response with the drop it asks for: where the transaction is afterwards, or that the bridge has forgotten it |
| `BatchScheduler.Scheduler.DrainWorkerResponses` | schedulers/batch-scheduler/src/lib.rs:416-456 | all responses, in any order, perform the run of their events, or stop at the one that fails |
| `BatchScheduler.Scheduler.OnTpu` | schedulers/batch-scheduler/src/lib.rs:487-518 | a transaction from the validator that scores and is not filtered is stored with its locks, cost and priority; any other leaves no trace |
| `BatchScheduler.Scheduler.DrainTpu` | schedulers/batch-scheduler/src/lib.rs:458-522 | evicts exactly the shortfall, from the bottom, then stores everything that scores and is not filtered, and nothing else; fails exactly when more may come than the queue can hold |
| `BatchScheduler.Scheduler.OnPacket` | schedulers/batch-scheduler/src/lib.rs:538-593 | a packet that scores and is not filtered is stored, and pushes the lowest unchecked transaction out of a full queue; any other changes nothing; fails exactly when it is accepted and the unchecked capacity is 0 |
| `BatchScheduler.Scheduler.InsertPackets` | schedulers/batch-scheduler/src/lib.rs:600-632 | inserts all transactions of a bundle with their sums, or leaves no trace when one fails |
| `BatchScheduler.Scheduler.OnBundle` | schedulers/batch-scheduler/src/lib.rs:595-694 | a bundle is admitted whole or not at all: with the sum of its costs, its keys in order, the priority of its rewards and tips, after the lowest bundle has gone when full; fails exactly when accepted without transactions or without capacity |
| `BatchScheduler.Scheduler.DropExpiredBundles` | schedulers/batch-scheduler/src/lib.rs:696-713 | keeps exactly the bundles that are not older than the expiry |
| `BatchScheduler.Scheduler.PopNext` | schedulers/batch-scheduler/src/lib.rs:722-756 | the top unchecked transaction, else the next one at or below the cursor that is still checked |
| `BatchScheduler.Scheduler.ScheduleChecks` | schedulers/batch-scheduler/src/lib.rs:715-780 | fills the check queue with messages of 1 to 64 transactions, in the order of the round |
| `BatchScheduler.Scheduler.TryScheduleTransaction` | schedulers/batch-scheduler/src/lib.rs:1056-1098 | starts the top transaction, or changes nothing and it does not fit the budget or conflicts |
| `BatchScheduler.Scheduler.TryScheduleBundle` | schedulers/batch-scheduler/src/lib.rs:1105-1169 | starts the top bundle, or changes nothing and it does not fit the budget or a member conflicts |
| `BatchScheduler.Scheduler.ScheduleHead` | schedulers/batch-scheduler/src/lib.rs:804-838 | picks the better head, ties to the transaction, and marks all of it executing; the insertion assert holds |
| `BatchScheduler.Scheduler.ScheduleExecute` | schedulers/batch-scheduler/src/lib.rs:782-847 | sends a prefix of the merge, one transaction or whole bundle per idle worker in order, and nothing else leaves; if anything is sent, what is in flight fits what remains of the block, and with what is used stays within the share of the block that progress and cutoff allow; with an idle worker left, the next head does not fit that share or conflicts, or nothing waits |
| `Schedule.StopsInNumbers` | schedulers/batch-scheduler/src/lib.rs:782-847 | the limit and the reasons to stop in numbers, with nothing left of how the budget is computed |
| `Schedule.SentInWords` | schedulers/batch-scheduler/src/lib.rs:782-847 | what leaves the containers is what is sent, one transaction or one whole bundle a batch, to idle workers in order; it is what the new execute messages carry; and it goes before everything that waits on |
| `BatchScheduler.Scheduler.Lead` | schedulers/batch-scheduler/src/lib.rs:252-260 | a leader poll ends with the executions and a sweep: it goes on where it was, or starts at the greatest checked transaction |
| `BatchScheduler.Scheduler.BecomeTipReceiver` | schedulers/batch-scheduler/src/lib.rs:339-414 | both tips start exactly when neither conflicts with anything executing, as priority-marked transactions of cost 0; else no trace |
| `BatchScheduler.Scheduler.CheckSlotRoll` | schedulers/batch-scheduler/src/lib.rs:281-337 | a new slot makes everything deferred checked and, without a cursor, starts a sweep at the greatest checked transaction; the same slot changes neither; a new leader sends the tips exactly when nothing executing conflicts |
| `BatchScheduler.Scheduler.DrainJito` | schedulers/batch-scheduler/src/lib.rs:524-536 | takes in packets and bundles one after the other, up to one that fails |
| `BatchScheduler.Scheduler.OnUpdate` | schedulers/batch-scheduler/src/lib.rs:524-536 | a refused packet changes nothing, a packet is stored or leaves no trace, a bundle is stored whole or leaves no trace |
| `Polling.JitoAppend` | schedulers/batch-scheduler/src/lib.rs:524-536 | updates may be taken in piecemeal, the later ones in the state the earlier ones left |
| `BatchScheduler.Scheduler.Poll` | schedulers/batch-scheduler/src/lib.rs:222-279 | a whole poll fails exactly when taking something in fails: before any expiry is looked at, or with exactly the expired bundles dropped; else it is a run: roll, responses, validator transactions, expiry, packets and bundles, checks, and for a leader executions and a sweep; its outputs are those of that run; only a leader sends batches, within its share of the block; fewer checks go out than may only when nothing is left unchecked |
| `Polling.DispatchIsRun` | schedulers/batch-scheduler/src/lib.rs:250-262 | what a poll sends is what a run of checks, starts and a sweep sends |
| `Polling.IntakeInOrder` | schedulers/batch-scheduler/src/lib.rs:222-246 | the intake of a poll that succeeds, in this order, leaves nothing out: the slot change and the tips of a new leader, one event for each response, every validator transaction that scores and is not filtered, the expired bundles, and every accepted packet and bundle of the block engine |
| `LockManagers.CheckCommutes` | schedulers/auction-batch-scheduler/src/auction_engine.rs:46-54 | the dry run answers as the two-set table does, for every lock map |
| `LockManagers.AcquireCommutes` | schedulers/auction-batch-scheduler/src/auction_engine.rs:138-143 | acquiring for a key that holds none of the accounts is locking in the two-set table |
| `LockManagers.ReleaseCommutes` | schedulers/auction-batch-scheduler/src/auction_engine.rs:146-155 | releasing locks that are held is unlocking in the two-set table |
| `LockManagers.ReleaseUndoesAcquire` | schedulers/auction-batch-scheduler/src/auction_engine.rs:138-155 | releasing undoes acquiring, even when a list names an account twice |
| `LockManagers.CallsKeepExclusive` | schedulers/auction-batch-scheduler/src/auction_engine.rs:478-497 | over all sequences of acquire and release calls, for whatever keys and lists, every account has one lone writer or only readers |
| `LockManagers.AcquireKeepsExact` | schedulers/auction-batch-scheduler/src/auction_engine.rs:478-485 | a key that holds nothing is granted its locks exactly when it conflicts with no holder; the map stays the exact index |
| `LockManagers.ReleaseKeepsExact` | schedulers/auction-batch-scheduler/src/auction_engine.rs:488-497 | releasing takes exactly the key out of the index, and does nothing for a key that holds nothing |
| `LockManagers.LockManager.TryAcquire` | schedulers/auction-batch-scheduler/src/auction_engine.rs:125-135 | true exactly when every lock can be granted |
| `LockManagers.LockManager.Acquire` | schedulers/auction-batch-scheduler/src/auction_engine.rs:138-143 | puts the key on every listed account |
| `LockManagers.LockManager.Release` | schedulers/auction-batch-scheduler/src/auction_engine.rs:146-155 | takes the key off every listed account, and empty accounts out of the map |
| `LockManagers.LockManager.AcquireLocks` | schedulers/auction-batch-scheduler/src/auction_engine.rs:478-485 | all the locks or none |
| `LockManagers.LockManager.QueueTransaction` | schedulers/auction-batch-scheduler/src/auction_engine.rs:158-163 | one deeper for every mention; nowhere shallower |
| `LockManagers.LockManager.DequeueTransaction` | schedulers/auction-batch-scheduler/src/auction_engine.rs:166-175 | undoes a queueing of the same locks |
| `LockManagers.LockManager.Decay` | schedulers/auction-batch-scheduler/src/auction_engine.rs:178-185 | scales every depth and forgets those that are shallow |
| `QueueDepths.DequeueUndoesQueue` | schedulers/auction-batch-scheduler/src/auction_engine.rs:158-175 | dequeueing undoes queueing, whatever accounts the list names and however often |
| `QueueDepths.MentionsIs` | schedulers/auction-batch-scheduler/src/auction_engine.rs:158-163 | how deep a queueing goes on an account: as often as the list names it |
| `QueueDepths.DequeuedOneIs` | schedulers/auction-batch-scheduler/src/auction_engine.rs:166-175 | one dequeueing takes 1 off a depth, forgets it below 0.01, and leaves the other accounts alone |
| `QueueDepths.DecayedIs` | schedulers/auction-batch-scheduler/src/auction_engine.rs:178-185 | a decayed depth is the depth times the factor, forgotten at 0.01 or less |
| `QueueDepths.PenaltyIsMonotone` | schedulers/auction-batch-scheduler/src/auction_engine.rs:190-203 | the penalty is within 0 and 0.99 and grows with the depths |
| `QueueDepths.PenaltyIs` | schedulers/auction-batch-scheduler/src/auction_engine.rs:190-203 | the penalty is a sixteenth of the sum of the depths, between 0 and 0.99 |
| `QueueDepths.DepthSumAppend` | schedulers/auction-batch-scheduler/src/auction_engine.rs:194-199 | the depths of two lists of accounts add up |
| `QueueDepths.DepthSumOfOne` | schedulers/auction-batch-scheduler/src/auction_engine.rs:194-199 | the depth of one account is what is recorded for it, and 0 otherwise |
| `AuctionBatchScheduler.Scheduler.InsertFirstChecked` | schedulers/auction-batch-scheduler/src/lib.rs:1036-1055 | evicts the lowest checked transaction when full, then inserts and queues; fails exactly when it is full and nothing is checked |
| `AuctionBatchScheduler.Scheduler.InsertBundle` | schedulers/auction-batch-scheduler/src/lib.rs:752-786 | evicts the lowest bundle when full, then queues and inserts; fails exactly when it is full and empty |
| `AuctionBatchScheduler.Scheduler.Finish` | schedulers/auction-batch-scheduler/src/lib.rs:1065-1078 | the executing mark, the units and the locks of a finished transaction go, if it had locks; removal assert and subtraction cannot fail |
| `AuctionBatchScheduler.Scheduler.OnExecute` | schedulers/auction-batch-scheduler/src/lib.rs:1065-1134 | reason by reason, as in the batch scheduler: discarded, kept and deferred, or checked again, then evicting the lowest if there are too many; of the locks, only those of the answered transaction go |
| `AuctionBatchScheduler.Scheduler.OnUnprocessed` | schedulers/auction-batch-scheduler/src/lib.rs:468-490 | an execute request no worker ran goes back to the checked ones; bundles are dropped; of the locks, only those of the answered transaction go |
| `AuctionBatchScheduler.Scheduler.ChangeSlot` | schedulers/auction-batch-scheduler/src/lib.rs:358-374 | every deferred transaction is checked again, and without a cursor a sweep starts at the greatest checked transaction |
| `AuctionBatchScheduler.Scheduler.FindTransaction` | schedulers/auction-batch-scheduler/src/lib.rs:1167-1175 | the greatest checked transaction that fits the budget and conflicts with no holder; none exactly when there is none |
| `AuctionBatchScheduler.Scheduler.TryScheduleTransaction` | schedulers/auction-batch-scheduler/src/lib.rs:1161-1211 | starts that transaction, fails exactly when there is none; the acquire after the dry run never fails; an eligible head is picked as in the batch scheduler; the queue depths stay as they were; what starts conflicts with something that executes exactly when it conflicts with something that was declined its locks |
| `AuctionBatchScheduler.Scheduler.TryScheduleBundle` | schedulers/auction-batch-scheduler/src/lib.rs:1218-1312 | starts the top bundle exactly when it fits, conflicts with no holder and not within itself, and leaves the depths as they were; a member then conflicts with something that executes exactly when it conflicts with something that was declined its locks; otherwise the lock map is what it was, and the members before the declined one stay queued |
| `AuctionBatchScheduler.Scheduler.AcquireBundle` | schedulers/auction-batch-scheduler/src/lib.rs:1239-1265 | acquires and queues member by member, or rolls back to the very lock map it started from |
| `AuctionBatchScheduler.Scheduler.ScheduleNext` | schedulers/auction-batch-scheduler/src/lib.rs:902-938 | a worker gets the pick: the greatest eligible transaction when transactions go first and one is eligible, else the top bundle, whole, if it starts; only the pick leaves where it waited; without a pick nothing is sent and everything waits on |
| `AuctionBatchScheduler.Scheduler.ScheduleExecute` | schedulers/auction-batch-scheduler/src/lib.rs:881-950 | one batch per idle worker, in order, each the pick in the state that the batches before it left; what is not picked waits on; if anything is sent, what is in flight fits what remains of the block and the share that progress and cutoff allow; with an idle worker left, nothing that waits fits that share clear of the holders |
| `Auction.PickedIsFree` | schedulers/auction-batch-scheduler/src/lib.rs:1161-1296 | what is picked waits, fits the budget, and conflicts with no holder |
| `Auction.PickIs` | schedulers/auction-batch-scheduler/src/lib.rs:902-938 | what a worker gets, in words: the greatest checked transaction that fits and is clear of the holders when transactions lead, else the greatest bundle if it fits and is clear of the holders and within itself; nothing only when neither can be |
| `Auction.ServedInNumbers` | schedulers/auction-batch-scheduler/src/lib.rs:881-950 | with an idle worker left: one more unit exceeds the share of the block, or whatever waits exceeds it or conflicts |
| `Auction.EmittedInWords` | schedulers/auction-batch-scheduler/src/lib.rs:881-950 | what leaves the containers is what is sent, one transaction or one whole bundle a batch, and what the new execute messages carry |
| `Auction.LeftQueuedIs` | schedulers/auction-batch-scheduler/src/lib.rs:1239-1264 | what a rolled back bundle leaves queued: the members before the first that conflicts with one before it |
| `Auction.LocksOfIs` | schedulers/auction-batch-scheduler/src/lib.rs:769-777 | the locks queued for a bundle are those of its members, one list after the other |
| `Auction.PickIsHead` | schedulers/auction-batch-scheduler/src/lib.rs:902-938 | when the head of the merge can start, it is what is picked |
| `Auction.PicksFollowTheMerge` | schedulers/auction-batch-scheduler/src/lib.rs:881-950 | as long as every head can start, the picks are the prefix of the merge that the batch scheduler sends |
| `Auction.PicksHoldLocks` | schedulers/auction-batch-scheduler/src/lib.rs:881-950 | whatever is picked executes and holds its locks, and nothing else does anew |
| `AuctionBatchScheduler.Scheduler.OnlyTheDeclinedConflict` | schedulers/auction-batch-scheduler/src/lib.rs:1161-1296 | two executing transactions conflict only if one of them was declined its locks |
| `AuctionBatchScheduler.Scheduler.BecomeTipReceiver` | schedulers/auction-batch-scheduler/src/lib.rs:386-459 | sends both tips exactly when the first is free; the second gets its locks exactly when it is free of the holders and does not overlap the first, and executes without them otherwise; at the call, a conflict outside the pair arises exactly when the second is not free of the holders or something declined before is in the way |
| `Auction.SecondIsFreeIff` | schedulers/auction-batch-scheduler/src/lib.rs:411-426 | with the first tip holding its locks, the second is granted its own exactly when it is free of the holders before and does not overlap the first |
| `Auction.StartConflictsIff` | schedulers/auction-batch-scheduler/src/lib.rs:1161-1296 | what is free of the holders conflicts with something that executes exactly when it conflicts with something that was declined its locks |
| `Auction.ClashIff` | schedulers/auction-batch-scheduler/src/lib.rs:411-426 | the pair clashes with what executes exactly when the second tip is not free of the holders or something without locks is in the way |
| `Auction.OrdinaryConflicts` | schedulers/common/src/jito/tip_program.rs:55-130 | both ordinary tips write the payer and the account that receives the tips, so they overlap; a transaction that pays into a tip account conflicts with the second only |
| `AuctionBatchScheduler.GetConflicting` | schedulers/auction-batch-scheduler/src/lib.rs:411-435 | from a new scheduler, for every pair of tips that overlap and every ordinary transaction that conflicts with the second one only: the pair is sent with nothing executing, then the transaction is, through a whole round of scheduling, and both execute |
| `AuctionBatchScheduler.GetOrdinaryConflict` | schedulers/auction-batch-scheduler/src/lib.rs:411-435 | the ordinary tips and an ordinary tip payment get there |
| `AuctionRuns.RunKeepsProper` | schedulers/auction-batch-scheduler/src/lib.rs:265-325 | over every run of the auction scheduler (intake, evictions, check and execute answers, rechecks, slot changes, out-of-order starts, bundles, tips) the invariant holds: places, messages, capacities, units, and holders free of conflicts |
| `AuctionRuns.OnePlaceInAuction` | schedulers/auction-batch-scheduler/src/lib.rs:952-1134 | over every run, each live key is in exactly one of the six places; its first check message and its execute message are unique |
| `AuctionRuns.BoundsInAuction` | schedulers/auction-batch-scheduler/src/lib.rs:1136-1138 | over every run: units in flight stay within a block and are 0 when nothing executes; the checked side, the unchecked queue and the bundles stay within their capacities |
| `AuctionRuns.OnlySecondTipsAreDeclined` | schedulers/auction-batch-scheduler/src/lib.rs:411-426 | over every run, nothing but a second tip that was refused its locks when it was sent is ever declined |
| `AuctionRuns.RefusedIff` | schedulers/auction-batch-scheduler/src/lib.rs:411-426 | the refused second tips of a run are those that, when they were sent, conflicted with the first tip or with something that held locks |
| `AuctionRuns.ConflictsInAuction` | schedulers/auction-batch-scheduler/src/lib.rs:411-426 | over every run, two executing transactions conflict only if one of them is such a second tip, and holds no locks |
| `AuctionRuns.NoConflictsWithoutRefusal` | schedulers/auction-batch-scheduler/src/lib.rs:1161-1296 | a run that refuses no second tip keeps everything that executes free of conflicts |
| `AuctionRuns.ServeIsPick` | schedulers/auction-batch-scheduler/src/lib.rs:902-938 | a start of the state machine is the pick of the object, with the same outcome |
| `AuctionRuns.ServedConflictsIff` | schedulers/auction-batch-scheduler/src/lib.rs:902-938 | what a start adds conflicts with something that executes exactly when it conflicts with something that was declined its locks |
| `AuctionRuns.ServeIs` | schedulers/auction-batch-scheduler/src/lib.rs:902-938 | a turn gives something exactly when the block has room for the budget and a leading transaction, or the greatest bundle, fits clear of the holders; all it starts executes and holds its locks |
| `AuctionRuns.SendTipsIs` | schedulers/auction-batch-scheduler/src/lib.rs:386-459 | the pair can be sent exactly when the first tip conflicts with no holder; both execute, and the second holds locks exactly when it conflicts with no holder and not with the first |
| `AuctionRuns.ConflictsAreReachable` | schedulers/auction-batch-scheduler/src/lib.rs:411-435 | for every pair of tips that overlap and every ordinary transaction that conflicts with the second one only, a run ends with that tip and the transaction executing together |
| `AuctionRecheck.LoopEndsIff` | schedulers/auction-batch-scheduler/src/lib.rs:830-849 | the recheck loop ends exactly when there is no cursor, or its transaction is still checked and not executing |
| `AuctionRecheck.EndsLikeTheBatchScheduler` | schedulers/auction-batch-scheduler/src/lib.rs:830-849 | when it ends, it finds and leaves what the loop of the batch scheduler does |
| `AuctionRecheck.StuckIsReachable` | schedulers/auction-batch-scheduler/src/lib.rs:830-849 | for all capacities and any ordinary transaction, a run from the start to a state with nothing unchecked whose recheck loop never ends |
| `AuctionBatchScheduler.GetStuck` | schedulers/auction-batch-scheduler/src/lib.rs:830-849 | from a new auction scheduler, any one ordinary transaction is enough to get there, scheduled through a whole round with a block of budget |
| `AuctionBatchScheduler.GetLeftovers` | schedulers/auction-batch-scheduler/src/lib.rs:1247-1262 | from a new auction scheduler, any bundle of two that conflict with each other: a turn schedules nothing, gives all locks back, and leaves the first member queued twice |
| `QueueDepths.DepthsBackIff` | schedulers/auction-batch-scheduler/src/lib.rs:1247-1264 | queueing that is never undone shows, unless it names no account |
| `Auction.IndexedIsUnique` | schedulers/auction-batch-scheduler/src/auction_engine.rs:125-155 | the holders determine the lock map: nothing else is left in it |
| `Batches.FirstFit` | schedulers/auction-batch-scheduler/src/auction_engine.rs:964-988 | the first batch that can take the transaction |
| `Batches.GreedyIs` | schedulers/auction-batch-scheduler/src/auction_engine.rs:413-436 | each candidate goes to the first batch whose members leave room for its units and touch nothing it writes; to a new one if there is none, it fits a batch and its surplus is above the threshold; else to none |
| `Batches.CanAddTo` | schedulers/auction-batch-scheduler/src/auction_engine.rs:877-893 | the units fit and no account to be written is in the batch |
| `Batches.AddTo` | schedulers/auction-batch-scheduler/src/auction_engine.rs:896-902 | adds the units, the locks and the transaction |
| `Batches.FindBestBatch` | schedulers/auction-batch-scheduler/src/auction_engine.rs:964-988 | the batch of best surplus is plain first fit |
| `Batches.BuildBatches` | schedulers/auction-batch-scheduler/src/auction_engine.rs:413-436 | the loop packs the candidates by first fit |
| `Batches.PackedIsSound` | schedulers/auction-batch-scheduler/src/auction_engine.rs:877-902 | every batch adds up to its members, stays within the limit, and no member writes what an earlier one touches |
| `Batches.PackedKeepsOrder` | schedulers/auction-batch-scheduler/src/auction_engine.rs:413-436 | every candidate is in at most one batch, and batches keep the input order |
| `Batches.RefusedIff` | schedulers/auction-batch-scheduler/src/auction_engine.rs:420-432 | a candidate is refused exactly when no open batch takes it and it is too big or does not pay |
| `Batches.SurplusIs` | schedulers/auction-batch-scheduler/src/auction_engine.rs:950-955 | the surplus is the fee less the cost of the units and of the locks, written and read |
| `Batches.BatchConflictsIff` | schedulers/auction-batch-scheduler/src/auction_engine.rs:883-891 | two members of a batch conflict exactly when the later one reads what the earlier one writes |
| `Batches.BatchesWithoutConflicts` | schedulers/auction-batch-scheduler/src/auction_engine.rs:413-436 | if no candidate reads what an earlier one writes, no batch holds a conflict |
| `Batches.ReaderJoinsWriter` | schedulers/auction-batch-scheduler/src/auction_engine.rs:883-891 | an input whose writer and reader share a batch |
| `Batches.UnpaidJoinsPaid` | schedulers/auction-batch-scheduler/src/auction_engine.rs:413-432 | a candidate that does not pay is refused when it comes first, and shares the batch of one that pays when it comes after it, if it fits and writes nothing of it |
| `Batches.UnpaidSharesABatch` | schedulers/auction-batch-scheduler/src/auction_engine.rs:413-432 | an engine and a pair of candidates, one of which pays too little, that share a batch |
| `Batches.FirstFitBound` | schedulers/auction-batch-scheduler/src/auction_engine.rs:413-436 | without lock conflicts any two batches exceed the limit, n of them hold more than half of n limits, and no packing of the same units needs as few as half the batches |
| `Pricing.PricesStayInRange` | schedulers/auction-batch-scheduler/src/auction_engine.rs:609-622 | over every history of ticks and slot boundaries the prices stay within 0 and the maximum |
| `Pricing.ResourcePrices.Update` | schedulers/auction-batch-scheduler/src/auction_engine.rs:665-705 | one tick: each price moves towards its clamped observation by its weight |
| `Pricing.ResourcePrices.Reset` | schedulers/auction-batch-scheduler/src/auction_engine.rs:720-727 | a slot boundary resets time and space prices to the minimum, and the others stay |
| `Pricing.EwmaIsConvex` | schedulers/auction-batch-scheduler/src/auction_engine.rs:614-616 | an average stays between the bounds of its value and its observation |
| `Pricing.UtilizationIs` | schedulers/auction-batch-scheduler/src/auction_engine.rs:676-698 | an observation is demand over capacity, between 0.001 and 10, and 10 without capacity |
| `Pricing.TotalCostIs` | schedulers/auction-batch-scheduler/src/auction_engine.rs:708-717 | what one more unit, written account or read account costs, and what is paid in any case |
| `Pricing.TotalCostIsMonotone` | schedulers/auction-batch-scheduler/src/auction_engine.rs:708-717 | costs are not negative and grow with the units |
| `Pricing.DiscountBelowOne` | schedulers/auction-batch-scheduler/src/auction_engine.rs:767-769 | the discount is never negative and stays below 0.3 times the coefficient, hence below 1 up to ten thirds |
| `Pricing.DiscountIs` | schedulers/auction-batch-scheduler/src/auction_engine.rs:767-769 | the discount as a share: 0.3 times the coefficient, times s over 1 + s, where s is the scaled entropy |
| `Pricing.EntropyStaysInRange` | schedulers/auction-batch-scheduler/src/auction_engine.rs:755-764 | the entropy stays within 0 and 10 |
| `Pricing.NextEntropyIs` | schedulers/auction-batch-scheduler/src/auction_engine.rs:755-764 | nine tenths of the entropy and one tenth of what is seen, at most 10 |
| `Pricing.PayingMoreHelps` | schedulers/auction-batch-scheduler/src/lib.rs:1468-1514 | a higher fee or tip never lowers the priority |
| `Pricing.CongestionHurts` | schedulers/auction-batch-scheduler/src/lib.rs:1468-1514 | deeper queues never raise the priority |
| `Pricing.QueueingHurts` | schedulers/auction-batch-scheduler/src/lib.rs:1468-1514 | one more queued transaction never raises the priority of any |
| `Pricing.ScoresAreMonotone` | schedulers/auction-batch-scheduler/src/lib.rs:1468-1514 | after every history of ticks and slot boundaries: deeper queues and one more queued transaction never raise a priority, paying more never lowers it |
| `Pricing.ToPriority` | schedulers/auction-batch-scheduler/src/lib.rs:1504-1511 | the priority stays below the marker of bundles |
| `Pricing.ToPriorityIs` | schedulers/auction-batch-scheduler/src/lib.rs:1504-1511 | the priority is a million times the surplus plus 1000, rounded down, at least 0 and at most one below the marker |
| `Pricing.EffectiveCuIs` | schedulers/auction-batch-scheduler/src/lib.rs:1482-1487 | the units inflated by the penalty, rounded down, at least 1 |
| `Pricing.ScoreIs` | schedulers/auction-batch-scheduler/src/lib.rs:1468-1514 | the score scales fee and tip less the charge, with the discount given back |
| `Pricing.ChargeIs` | schedulers/auction-batch-scheduler/src/lib.rs:1477-1493 | the charge is the cost of the inflated units and of the locks, written and read |
| `Replay.SegmentIntoWindows` | external-scheduler/benches/replay_bench.rs:242-274 | windows are maximal runs of entries less than a gap apart, each lasting from its first entry to its last |
| `Replay.RunsAreUnique` | external-scheduler/benches/replay_bench.rs:242-274 | there is only one way to cut entries into maximal runs |
| `Replay.WindowsAreCut` | external-scheduler/benches/replay_bench.rs:242-274 | neighbours less than 5 s apart share a window, others do not |
| `Replay.SegmentWindowIntoSlots` | external-scheduler/benches/replay_bench.rs:586-625 | slots are maximal runs of entries with the same slot index, with the durations the code gives them |
| `Replay.SlotsGoUp` | external-scheduler/benches/replay_bench.rs:597-612 | the slot index strictly grows from slot to slot |
| `Replay.SlotIs` | external-scheduler/benches/replay_bench.rs:597-612 | the slot index is the offset from the first entry in steps of 400 ms, rounded down |
| `Replay.SlotsAreProper` | external-scheduler/benches/replay_bench.rs:613-623 | every slot is sorted and lasts more than nothing and at most 400 ms |
| `Replay.AssignTicksReal` | external-scheduler/benches/replay_bench.rs:278-297 | every index is in the bucket of its tick, its entry arrives within that tick of 6.25 ms or in the last one, and the buckets list every index once, in order |
| `Replay.TotalTicksIs` | external-scheduler/benches/replay_bench.rs:283-287 | the ticks of a window are its duration in steps of 6.25 ms, rounded down, at least 1 |
| `Replay.TickIs` | external-scheduler/benches/replay_bench.rs:290-293 | the tick of an entry is its offset in steps of 6.25 ms, rounded down, or the last one |
| `Replay.ReplaySlot` | external-scheduler/benches/replay_bench.rs:474-490 | the entries of a slot that parse and were not dropped are handed out in order, all in the same slot |
| `Replay.KeptAre` | external-scheduler/benches/replay_bench.rs:484-490 | where the kept entries stand in the recording: in its order, exactly those that were not dropped and parse |
| `Replay.ReplayWindow` | external-scheduler/benches/replay_bench.rs:636-655 | each slot of a window gets the next slot number, and hands out its kept entries under it |
| `Replay.ReplayAll` | external-scheduler/benches/replay_bench.rs:628-660 | windows, slots and ticks hand out the recording without what is skipped, entry for entry and in order, in slots numbered upwards from 100, one for each slot of a window and ten between windows |

## Left out

- The bridge, shared memory, worker internals, networking, keys, threads and configuration: only the environment contract above.
- Cost, fee and tip derivation and the byte parsing behind it: costs, rewards and tips are given numbers.
- Events, metrics and slot statistics, except the flag that a leader slot was seen, which gates the tip pair.
- Wall-clock time and the disconnect assertion: times of arrival are numbers, elapsed decay is a factor between 0 and 1.
- Changing capacities while running: the settings are constants of the object.
- B-tree, heap and hash containers are sets and maps; iteration order is the order the proofs use, and hash order plays no part.
- IEEE rounding: prices, depths, entropy and surplus are reals; the logarithm in the entropy is a given number of at least 0.
- The shape of check responses beyond failure flags and filtered keys, and the assertions on those flags.
- A missing tip configuration, on which the tip pair unwraps.
- The auction's object leaves out its unchecked queue, check answers other than a passed first check, recheck messages and expiry, which repeat the batch scheduler's with scores and queue depths added; as events they are part of `AuctionRuns`.
- A whole poll of the auction scheduler as one method.
- Exact queue depths over the auction's whole life: scheduling queues and dequeues unevenly, so no balance holds; what each scheduling call does to them is modelled.
- Wrap-around of 64-bit sums of costs, rewards, tips and units, which are assumed to stay below 64 bits.
- `build_bundle_batch`, demand averages and unit reservation: not used by the scheduler.
- The bench's scheduler drivers and reports; whether a transaction parses or was dropped on receipt is given.
- Fetched batches are values: the in-place update of one element of the list of batches is an update of the list.
