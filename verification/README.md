# Verified model of the matchmaking service

A multi-tenant matchmaker keeps everything in one PostgreSQL database that any number of API
requests, workers and callback dispatchers share. Nothing else coordinates them: they interleave
at every statement, crash, roll back and retry. This project models the database as state, the
SQL statements as steps, and the code around them as imperative methods that run while everybody
else keeps stepping, and proves what the service guarantees over every run.

Check it with `dafny verify dfyconfig.toml`.

## How it is organised

**Tickets and matches.** `Schema` has the tables and the effect of each guarded UPDATE on one row.
`Protocol` is the statement-level machine: workers with private writes, row locks and a savepoint,
requests with uncommitted rows, cancellations, the cleanup statement. A guarded UPDATE of a locked
row waits and is then judged on the latest committed row. Leases appear nowhere in it, so match
safety does not rest on them. `Invariant` states what holds of every reachable state, `Atomic` the
abstract system in which matching a pair is one step, `Refinement` that each statement keeps the
invariant and each commit is one atomic step, `ProtocolTheorems` the consequences over whole runs,
`Progress` that the protocol does not get stuck, `Savepoint` that a failure inside the savepoint
leaves nothing of the match, `Quota` how far the unlocked admission checks can be overrun, and
`Overshoot` that they can be overrun that far. `Service` is the code of the worker loop and the
ticket endpoints, as methods of a class over that machine: between any two of their statements
`Others` takes arbitrary steps of everybody else, and each method's contract speaks about the
recorded run. `Environment` has what the code meets with and cannot foresee (a statement that
fails, a limiter that refuses, a time that is up, a receiver's answer), on record, so that
contracts can say that the code fails, refuses or stops for no other reason.

**Pairing.** `Pairing` has the nested greedy loop with its used set and a clock that is read afresh
at every comparison; `PairingTheorems` what its result means; `Fetch` the two-ended batch it is fed;
`Sql` the meaning of ORDER BY with LIMIT, ties broken arbitrarily.

**Leases.** `Leases` has the lease table and its methods, with the whole lease transaction as one
turn. `LeaseSafety` interleaves the same statements row by row, with a transaction clock that lags
the wall clock, and `LeaseRefinement` shows that a turn is a run of it. `Rebalance` proves that turns
converge.

**Outbox.** `Claiming` is the fair claim statement, `Outbox` the machine of overlapping dispatchers
whose outcome writes are not guarded, `Delivery` what holds once outcomes are written by the holder
of the claim, `Timeliness` when they are, `OwnSteps` what one dispatcher's steps have to do with it,
`Backoff` the delays, `Dispatcher` the dispatcher's code in the style of `Service`.
`Publication` joins the outbox to the ticket protocol: in the joint system a worker's commit
publishes exactly one event, and a dispatcher's step is one delivery step of the protocol.
`RateLimit` is the per-minute limiter.

## Where the code and its description differ

- A reservation is never committed: the commit that would publish it publishes the finished match
  instead, so `reserved` is never visible and the cleanup of expired reservations finds nothing,
  in any run (`ProtocolTheorems.CleanupIsIdle`). Crashed workers strand no ticket because their
  transaction is rolled back (`ProtocolTheorems.CrashStrandsNothing`), not because of the cleanup.
- The repository's overview says leases prevent double processing. Committed ownership is indeed
  exclusive (`LeaseSafety.LiveLeaseIsNeverStolen`), but matching never looks at it and does not
  need it (`ProtocolTheorems.MatchIntegrity`).
- `delivered` is not final in the code. The outcome and release statements select by event id
  only, so a dispatcher whose commit succeeded but whose acknowledgement was lost puts a delivered
  event back to `pending` (`Outbox.DeliveredIsNotFinal`). An outcome is final exactly in the runs
  in which every write that finds the event delivered delivers it again, and every write that
  finds it failed records a last failure again (`Outbox.FinalExactly`); the row stays as it is,
  attempts included, exactly when every write finds it unsettled (`Outbox.RowFrozenExactly`). When
  outcomes come from the holder of the claim both hold (`Delivery.OutcomeIsFinal`), and they do so
  when each dispatcher writes an event back once per claim and before its lock has lapsed
  (`Timeliness.TimelyIsGuarded`). One setting is both that lock's duration and the HTTP timeout of
  each delivery, and a batch is delivered one by one, so its later events may outlive their locks;
  a dispatcher is timely if it loses no acknowledgement and is done with the last event of the
  batch before then (`Dispatcher.Queue.RunOnce`).
- A tenant quota or partition depth that can be reached is a limit exactly when creations do not
  overlap (`Overshoot.LimitHoldsExactly`). With `c` of them between check and commit the excess is
  at most `c - 1` (`Quota.OvershootBounded`), and for every such limit and every `c` some run has
  exactly that (`Overshoot.OvershootHappens`). A tenant's own depth limit need not bind even then:
  a tenant with a higher one fills their common partition beyond it
  (`Overshoot.SmallerDepthIsExceeded`). Unless their quotas are tighter, a depth limit holds for a
  partition exactly if no tenant with a queue in it has a higher one
  (`Overshoot.DepthHoldsExactly`).
- The limiter's count of a minute is right exactly as long as no two consecutive hits of that
  minute are 60 seconds apart (`RateLimit.ExactIffNoLapse`), and that long every minute keeps to
  the limit, whatever it is (`RateLimit.LimitExactly`). A request delayed between reading the
  clock and reaching the store can break it, by any delay at all (`RateLimit.LateHit`). So the
  limit of a minute, and twice the limit in any 60 seconds by either clock, hold exactly if there
  is no such delay (`RateLimit.MinuteExactly`, `RateLimit.ReadWindowExactly`,
  `RateLimit.StoreWindowExactly`). With delays of up to a minute at most twice the limit of a
  minute passes (`RateLimit.LateMinute`), and with shorter ones at most four times the limit in
  any 60 seconds by the clock the requests read, six times by the store's
  (`RateLimit.LateWindow`). As long as no counter lapses it is two times (`RateLimit.AnyWindow`)
  and three times (`RateLimit.ThreeMinutesAtMost`).
- Leftover tickets are incompatible, and pairs still compatible, each exactly if the skill
  thresholds do not shrink with waiting (`PairingTheorems.MaximalExactly`); the settings do not
  enforce that.
- Two overlapping lease transactions can both commit a claim of one partition that was not free in
  between, exactly if the first may be open for as long as the lease it writes
  (`LeaseSafety.DisjointExactly`).

## Model

| member | source | states |
|---|---|---|
| `Sql.OrderByLimit` | app/worker/matching.py:56-62 | the answer is sorted, distinct, as long as the limit and the rows allow, and no row left out belongs before one returned |
| `Schema.ComputePartitionId` | app/shared/partition.py:4-15 | a partition exists exactly when the count is positive; it is below the count, and the remainder of the hash of tenant, region and queue |
| `Schema.CleansUp` | app/worker/matching.py:29-46 | on any table the cleanup statement ends exactly the reservations that have run out and changes nothing else |
| `Pairing.TicketsCompatible` | app/worker/matching.py:146-160 | the verdict is the rule's, for some clock readings no earlier than the call's start and no later than its end; spelled out: of one queue and within the threshold of either ticket's wait (60 s and more, 30 to 60 s, less, throughout the call) they are accepted, however long the other has waited; beyond the thresholds of both, or of two queues, they are refused |
| `Pairing.FindPairs` | app/worker/matching.py:163-189 | an unsupported match size is refused; otherwise the pairs are a greedy search of the list: each pair is accepted at a reading taken during the search, each position skipped before a pair's partner, and each position left alone, was refused against everything free after it; of two tickets of one queue within the threshold of either's wait throughout at least one is paired, and no two beyond both |
| `PairingTheorems.VerdictsAge` | app/worker/matching.py:131-160 | with thresholds that do not shrink, an accepted pair is compatible at the end of the search and a refused one was incompatible at its start |
| `PairingTheorems.WideningIsExact` | app/worker/matching.py:131-136 | accepted pairs stay compatible, and refused pairs were incompatible from the start, for all tickets and times, each if and only if the thresholds do not shrink |
| `PairingTheorems.PairsAreDisjoint` | app/worker/matching.py:170-187 | no ticket occurs in two pairs or twice in one |
| `PairingTheorems.SearchIsMaximal` | app/worker/matching.py:163-189 | with thresholds that do not shrink, or a clock that stands still, pairs found are compatible at the end of the search and tickets left over pairwise incompatible at its start |
| `PairingTheorems.TurnIsServed` | app/worker/matching.py:170-187 | a ticket still free at its turn is paired with the first free ticket after it that is within the threshold of either's wait, those between being beyond both |
| `PairingTheorems.MaximalExactly` | app/worker/matching.py:131-189 | each of those two holds of every search if and only if the thresholds do not shrink: else a two-ticket search breaks it |
| `PairingTheorems.HalfOfOptimal` | app/worker/matching.py:163-189 | with thresholds that do not shrink, or a clock that stands still, any set of disjoint compatible pairs over the same tickets is at most twice as large as the result |
| `PairingTheorems.HalfIsReached` | app/worker/matching.py:163-189 | a search of four tickets that finds one pair where two were possible: the factor two is reached |
| `PairingTheorems.OutcomeIsDetermined` | app/worker/matching.py:170-189 | at a fixed clock two greedy searches agree pair by pair: the specification has one solution |
| `PairingTheorems.TouchedPairs` | app/worker/matching.py:163-189 | a matching whose pairs all touch a set of tickets has at most as many pairs as the set has tickets |
| `Fetch.FetchTicketsOrdered` | app/worker/matching.py:49-79 | one ordered, limited query: the tickets of the partitions that are not too old, newest or oldest first, all of them unless the limit is reached, and none left out that belongs before one returned |
| `Fetch.FetchWaitingTickets` | app/worker/matching.py:82-114 | no partitions give no tickets; without freshness bias the oldest; with it, the newest half and then unseen tickets of the oldest |
| `Fetch.EachEndIsServed` | app/worker/matching.py:99-114 | with any two snapshots, a ticket with fewer than half the batch beyond it towards the newest, or fewer than half the batch less one towards the oldest, is in the batch |
| `Fetch.BatchHasDistinctIds` | app/worker/matching.py:99-114 | the two-ended batch has distinct ids even when its two queries read different snapshots |
| `Fetch.BatchCoverage` | app/worker/matching.py:99-114 | over one snapshot with distinct creation times the batch is exactly min(batch, waiting) tickets, all of them when they fit, and always has the newest and, from a batch of two on, the oldest |
| `Fetch.EndsMeetOrCover` | app/worker/matching.py:99-112 | over one snapshot with distinct creation times the two queries together reach every waiting ticket, or are both full and do not overlap |
| `Refinement.NextKeeps` | app/worker/matching.py:192-382 | every step of workers, requests, cancels, cleanups and dispatchers keeps the invariant |
| `Refinement.CommitIsMatch` | app/worker/main.py:125-128 | the private writes of a finished worker are exactly one atomic match of two waiting tickets of different players |
| `Refinement.BuiltPairCanMatch` | app/db/schema.sql:69-71 | the two tickets of a finished pair belong to different players, because both are active at the commit |
| `Refinement.CommitIsCreate` | app/api/routes/tickets.py:105-157 | the private rows of a finished request are exactly one atomic creation |
| `Refinement.CancelIsAtomic` | app/api/routes/tickets.py:194-207 | a cancel that changes anything changes one waiting ticket of that tenant |
| `Atomic.AtomicEvolves` | app/db/schema.sql:33-130 | no action changes an immutable column, a matched or cancelled ticket, or a stored key row |
| `ProtocolTheorems.ReachableIsOk` | app/worker/main.py:25-132 | the invariant holds in every state of every run from the empty database |
| `ProtocolTheorems.StepRefines` | app/worker/main.py:106-132 | every commit is one atomic action; every other step leaves the committed database as it is |
| `ProtocolTheorems.RunRefines` | app/worker/main.py:106-132 | every run, seen through its committed database, is a run of the atomic system with stutters |
| `ProtocolTheorems.History` | app/worker/matching.py:192-228 | over any run matched and cancelled are absorbing and ticket identity and key rows never change |
| `ProtocolTheorems.MatchedOnce` | app/db/schema.sql:95-101 | in every reachable state a ticket is a player of a match if and only if it is matched to it |
| `ProtocolTheorems.MatchIntegrity` | app/worker/matching.py:266-357 | in every reachable state every match has exactly two players, on distinct matched tickets of different people agreeing on tenant, region, queue and partition, and exactly one outbox event, naming those two |
| `ProtocolTheorems.UncheckedUpdateHits` | app/worker/matching.py:306-320 | in every reachable state the UPDATE whose row count is not checked neither waits nor misses |
| `ProtocolTheorems.NeverReserved` | app/worker/matching.py:192-211 | in no reachable state is a committed ticket reserved |
| `ProtocolTheorems.CleanupIsIdle` | app/worker/matching.py:29-46 | the cleanup statement changes nothing in any reachable state, at any time |
| `ProtocolTheorems.CrashStrandsNothing` | app/worker/main.py:114-132 | after a rollback or crash in any reachable state every ticket the worker had locked is waiting and unlocked |
| `ProtocolTheorems.CancelOrMatch` | app/api/routes/tickets.py:194-207 | a ticket cancelled at any time of a run is in no match at any time of it |
| `ProtocolTheorems.Conservation` | app/worker/matching.py:266-357 | after n committed worker transactions there are n matches, n events, 2n players and 2n matched tickets |
| `ProtocolTheorems.OneTicketPerKey` | app/core/idempotency.py:51-91 | in every reachable state two requests that created a ticket under one key are the same request |
| `ProtocolTheorems.StoredKeyIsFinal` | app/core/idempotency.py:51-91 | in every reachable state a committed key row is not the placeholder; it stores the response for one existing ticket, which no other key stores |
| `ProtocolTheorems.LoserReadsFinalRow` | app/api/routes/tickets.py:112-131 | in every reachable state a request that lost the race for a key finds a finalized row and answers from it |
| `ProtocolTheorems.ReplayTellsTheTruth` | app/core/idempotency.py:17-48 | in every reachable state a replay is the stored response of the one ticket of its key, the same its creator got, and, if request hashes do not collide, the ticket asked for |
| `ProtocolTheorems.CreatedIsStored` | app/core/idempotency.py:17-91 | in every reachable state in which a request has created a ticket under a key, the stored row answers every other with that ticket, or a conflict if it asks for something else |
| `ProtocolTheorems.OtherHashCreatesNothing` | app/core/idempotency.py:17-34 | in every reachable state with a key stored under another hash, a request can neither commit nor have created |
| `ProtocolTheorems.RolledBackWinnerFreesKey` | app/core/idempotency.py:51-71 | in every reachable state in which a winner holds the key the loser waits; when the winner rolls back the loser reserves it |
| `Progress.NeverWaitsAgain` | app/worker/matching.py:266-357 | a worker that has reserved both tickets can run every remaining statement at once, whatever others do |
| `Progress.FreePairCanBeMatched` | app/worker/matching.py:253-382 | a free pair of one queue can be matched and committed by nine statements of one worker, everything else staying as it was |
| `Progress.LoopCanCommitAll` | app/worker/main.py:106-132 | left alone, the pair loop can commit every one of any number of disjoint pairs of waiting, unlocked tickets |
| `Savepoint.SavepointRestores` | app/worker/matching.py:266-357 | whatever others do in between, after a failure inside the savepoint the worker holds exactly what it had written before it |
| `Savepoint.FailureIsUndone` | app/worker/matching.py:266-382 | after the two releases of the handler its transaction has no row of the match, and sees both tickets waiting as they were committed |
| `Quota.OvershootBounded` | app/core/admission.py:58-82 | with at most c creations between check and commit, the waiting tickets of a tenant or partition exceed the limit by at most c - 1 |
| `Overshoot.OvershootHappens` | app/api/routes/tickets.py:88-142 | if a tenant or partition can be filled to its limit one ticket after the other, for every c a run with at most c creations in flight leaves exactly the limit plus c - 1 tickets waiting in it |
| `Overshoot.LimitHoldsExactly` | app/core/admission.py:58-82 | if a tenant or partition can be filled to its limit one ticket after the other, the limit holds in every run with at most c creations in flight if and only if c is at most one |
| `Overshoot.OneQueueAttains` | app/core/admission.py:58-82 | it can be so filled in one queue if the other quota of the tenant using it is no tighter |
| `Overshoot.SpreadAttains` | app/core/admission.py:58-82 | a tenant's quota can be so filled whatever its depth limit, if the tenant has queues in quota / depth partitions |
| `Overshoot.DepthHoldsExactly` | app/core/admission.py:71-82 | if no tenant with a queue in a partition has a quota below its depth limit, a limit holds for the partition in every run with at most one creation in flight if and only if none of those tenants has a higher depth limit |
| `Overshoot.SmallerDepthIsExceeded` | app/core/admission.py:71-82 | even with one creation in flight a tenant with a higher depth limit fills a common partition, in whatever regions and queues, beyond the lower one, with a ticket of the other tenant waiting in it |
| `Quota.StepBounded` | app/api/routes/tickets.py:88-142 | waiting tickets plus creations in flight stay within the limit plus c - 1 at every step |
| `Service.Cluster.CreateMatchFromPair` | app/worker/matching.py:253-382 | under interference it commits nothing; True leaves a finished pair; False a transaction to roll back, one of the tickets having been seen not waiting; it raises exactly if a statement failed |
| `Service.Cluster.BuildMatch` | app/worker/matching.py:266-357 | the statements inside the savepoint end in a finished match of the pair, or stop at the first that fails |
| `Service.Cluster.TryPair` | app/worker/main.py:112-132 | a pair taken is one commit of its finished match, which was not there before; one whose commit raised at most one; a pair missed had a ticket seen not waiting; any other failed by a statement that failed; the worker is idle again |
| `Service.Cluster.ProcessPairs` | app/worker/main.py:106-132 | the pair loop tries the pairs in order, each taken, missed because a ticket was seen not waiting, or failed, and stops early only for the maximum, the budget, asked before each pair, or a commit that raised, of a finished match, the last tried; what it reports is what was taken or raised; the pairs taken are commits, each a match of its own that stands at the end, with at most one more, whose acknowledgement was lost; if no statement fails every pair tried is taken or missed |
| `Service.Cluster.RunLoop` | app/worker/main.py:77-132 | under interference the batch is fetched of the tickets waiting in two states of the call, distinct, of the owned partitions and at most of the batch size; the pairs of a greedy search of it, at the times the call took, are all tried unless the maximum, the budget or a raised commit ends the loop, and those taken are each a match of its own |
| `Service.Cluster.CleanupExpiredReservations` | app/worker/matching.py:29-46 | its row count is zero |
| `Service.Cluster.CancelTicket` | app/api/routes/tickets.py:194-214 | a success is this call's own: the tenant's ticket was waiting just before and only it changed; not found means no waiting ticket of that tenant and id; no answer means a statement failed or waited |
| `Service.Cluster.CreateTicket` | app/api/routes/tickets.py:57-166 | the answer is true of the database when given, and has its cause: too many requests only if the limiter refused or the tenant's quota was seen used up; overloaded only if the quota was seen free and then the partition full, or not full and the load shed; a duplicate only if an active ticket of the player and queue was seen; an error only if a statement failed or there are no partitions; a ticket is created after all four checks, with that creation time, by exactly one commit, which an error may hide; under a key that has created a ticket, acknowledged or not, it creates nothing and answers with that ticket, a conflict or an error |
| `Service.AnswerIsTrue` | app/api/routes/tickets.py:68-166 | an answer once given to a request is true in every later state of the run |
| `Service.StaysCommitted` | app/worker/main.py:125-128 | pairs committed at some point of a run are committed at its end |
| `Service.CommittedPairIsMatch` | app/worker/matching.py:266-357 | a committed pair makes up the whole of its match |
| `Service.BatchIsSound` | app/worker/main.py:81-91 | whatever the two snapshots, the batch has distinct ids and only tickets that were read |
| `Service.PairsAreEligible` | app/worker/matching.py:146-160 | every pair the search returns meets what match creation needs |
| `Leases.CapIsLeastShare` | app/worker/leases.py:9-14 | the cap is the least share with which the workers can own all partitions, zero exactly if there are none, and all for no worker |
| `Leases.LeaseStore.RenewOwnedPartitions` | app/worker/leases.py:17-31 | the worker's live leases, counted, run for the full time from the transaction's start, lapsed ones and everybody else's stay as they are, and so does what is live and what can be claimed |
| `Leases.LeaseStore.ClaimAvailablePartitions` | app/worker/leases.py:34-100 | free or lapsed partitions that nobody has locked become the worker's for the full time and nothing else changes; it takes a batch or all there are, going up from the partition that the offset turns to zero, and round after the last, and passing over none that is open |
| `Leases.ClaimsRun` | app/worker/leases.py:44-66 | as long as the partitions met from there on are all open, they are the ones claimed, in that order |
| `Leases.StartOf` | app/worker/leases.py:51 | every offset turns some partition to zero |
| `Leases.LeaseStore.ReleaseExcessPartitions` | app/worker/leases.py:173-204 | as many live leases as exceed the cap become free, each numbered above every one that stays, and nothing else changes |
| `Leases.LeaseStore.ReleaseOwnedPartitions` | app/worker/leases.py:103-120 | afterwards the worker owns nothing, all it owned, lapsed or not, can be claimed at any time, and no other row has changed |
| `Leases.LeaseStore.ShutdownWorker` | app/worker/main.py:171-177 | after a shutdown the worker owns nothing, all it had can be claimed at once, it no longer counts as active, and nobody else is affected |
| `Leases.LeaseStore.ListOwnedPartitions` | app/worker/leases.py:123-135 | the live leases of the worker, in ascending order |
| `Leases.LeaseStore.CountActiveWorkers` | app/worker/leases.py:159-170 | the number of workers with a heartbeat within the interval, at least one, and the caller among them after its own |
| `Rebalance.CapIsSeen` | app/worker/leases.py:159-170 | while the steady workers are in time and nobody else is active, every turn sees the same cap, the fair share among them |
| `Leases.LeaseStore.LeaseTransaction` | app/worker/main.py:40-66 | heartbeat, renew, claim and release together are one lease turn |
| `Leases.TurnSparesLiveLeases` | app/worker/main.py:43-66 | a turn leaves live leases of other workers alone, and every row as it was, free, or leased to the worker for the full time |
| `LeaseSafety.NextKeeps` | app/worker/leases.py:17-100 | every row statement, commit and abort keeps the lease invariant |
| `LeaseSafety.StepRespectsLease` | app/worker/leases.py:34-120 | one step on a leased partition keeps the owner and does not shorten its lease, unless the owner releases it or the lease has lapsed by the wall clock |
| `LeaseSafety.LiveLeaseIsNeverStolen` | app/worker/leases.py:34-100 | over any run a worker keeps its partition until the wall clock reaches the end of its lease, unless it releases it |
| `LeaseSafety.TakeoverOnlyAfterLapse` | app/worker/leases.py:34-100 | a change of owner means the old lease had lapsed by the wall clock or was released |
| `LeaseSafety.LeaseEndGrows` | app/worker/leases.py:17-100 | between releases the end of a lease never moves back |
| `LeaseSafety.ClaimsTakeTurns` | app/worker/leases.py:34-100 | if two workers both commit a claim of a partition, it was free in between or the first lease had lapsed before the second transaction began |
| `LeaseSafety.ClaimsAreDisjoint` | app/worker/leases.py:34-100 | transactions that overlap never both commit a claim of one partition, unless it was free in between or the first was open for at least as long as its lease |
| `LeaseSafety.SlowClaimIsTakenOver` | app/worker/leases.py:34-100 | a run in which a transaction open for exactly as long as its lease and an overlapping one both commit a claim |
| `LeaseSafety.DisjointExactly` | app/worker/leases.py:34-100 | over all runs, overlapping transactions never both commit a claim of a partition not free in between, if and only if the first is open for less than its lease |
| `LeaseRefinement.TurnIsRun` | app/worker/main.py:40-66 | a lease turn is one transaction of the row-by-row machine: begin, renewals, claims, releases, commit, every row ending as the turn leaves it |
| `LeaseRefinement.TurnsAreRun` | app/worker/main.py:40-66 | turns of any workers, in the order of their times, are a run of that machine with the same rows, so that what holds of its runs holds between turns |
| `Rebalance.TurnCounts` | app/worker/main.py:43-66 | a turn lifts its worker by a batch of free partitions up to the cap, or brings it down to the cap, and changes nobody else's share |
| `Rebalance.UnderCapTurnsHelp` | app/worker/main.py:43-66 | a turn of a worker below its cap leaves strictly fewer free partitions while there are any |
| `Rebalance.FreeMeansRoom` | app/worker/leases.py:9-14 | a free partition means some worker is below its cap |
| `Rebalance.RebalancingConverges` | app/worker/main.py:43-66 | after one round of turns in any order nobody is above the cap; once the rounds after it carry a cap's worth of batches (ceil(cap / batch) of them), every partition is owned |
| `Rebalance.FairStateIsStable` | app/worker/main.py:43-66 | once everything is owned in fair shares, turns move nothing |
| `Claiming.SelectCandidates` | app/callback_dispatcher/main.py:51-88 | the events selected are an answer of the ranked, limited claim query |
| `Claiming.TakesPrefix` | app/callback_dispatcher/main.py:59-80 | what a claim takes of a tenant's queue is the front of it, within the tenant's room |
| `Claiming.TakenIsPrefix` | app/callback_dispatcher/main.py:59-80 | as events: the first ones by next attempt and creation time |
| `Claiming.SoonestFirst` | app/callback_dispatcher/main.py:59-80 | no event is taken before one of the same tenant that has been due for longer, or as long and is older |
| `Claiming.KeepsLimit` | app/callback_dispatcher/main.py:53-95 | a claim raises a tenant's live events by exactly what it takes, and never above the limit |
| `Claiming.Fills` | app/callback_dispatcher/main.py:74-81 | a claim takes min(batch, eligible) events; when the batch is not full every tenant gets all its queue and room allow |
| `Claiming.Fair` | app/callback_dispatcher/main.py:74-81 | while a tenant still had an eligible event left, no tenant got more than one more than it |
| `Claiming.NotTaken` | app/callback_dispatcher/main.py:59-81 | a due event passed over finds the batch full or its tenant at the limit |
| `Claiming.TakenAreDue` | app/callback_dispatcher/main.py:65-73 | events taken are distinct and due |
| `Outbox.NextKeeps` | app/callback_dispatcher/main.py:145-232 | with no assumption on dispatchers: lock columns are set exactly while in progress, and a settled event's match says so |
| `Outbox.NothingIsLost` | app/callback_dispatcher/main.py:65-95 | a published event stays for ever, and is settled with its match or due exactly from a definite time on |
| `Outbox.DueAgain` | app/callback_dispatcher/main.py:200-232 | a new event is due at once, one given back when it had been before it was claimed, a failed one, unless finally, when its delay is over |
| `Outbox.AttemptsCountOutcomes` | app/callback_dispatcher/main.py:145-216 | attempts equals the number of outcomes recorded, in every run |
| `Outbox.SettledStaysExactly` | app/callback_dispatcher/main.py:145-232 | a step leaves a settled event unchanged if and only if it does not write its row |
| `Outbox.OutcomeStaysExactly` | app/callback_dispatcher/main.py:145-232 | a step leaves the outcome of a settled event alone if and only if it does not write the event or writes that outcome again |
| `Outbox.FinalExactly` | app/callback_dispatcher/main.py:145-232 | over a run delivered and failed are final, in the event and its match, if and only if every write that finds the event delivered delivers it again and every one that finds it failed records a last failure again |
| `Outbox.RowFrozenExactly` | app/callback_dispatcher/main.py:145-232 | over a run a settled row never changes, attempts included, if and only if every claim, outcome and release found the event unsettled |
| `Outbox.DeliveredIsNotFinal` | app/callback_dispatcher/main.py:239-275 | a run of five steps in which a delivered event becomes pending again |
| `Delivery.StepTight` | app/callback_dispatcher/main.py:145-232 | under the claim-holder hypothesis every step keeps attempts within the maximum and the holder's count current |
| `Delivery.ClaimIsExclusive` | app/callback_dispatcher/main.py:65-95 | under the claim-holder hypothesis nobody else's step takes an event from its holder until its lock lapses |
| `Timeliness.HeldUntilDeadline` | app/callback_dispatcher/main.py:65-95 | over a run under the claim-holder hypothesis a dispatcher that has not written an event back still holds it, until somebody claims after its lock has lapsed |
| `Timeliness.TimelyIsGuarded` | app/callback_dispatcher/main.py:239-342 | when every dispatcher writes back once per claim and before its lock lapses, every outcome comes from the holder of the claim |
| `OwnSteps.BatchIsTimely` | app/callback_dispatcher/main.py:299-342 | whatever other dispatchers do in between, one that works a claimed batch off event by event, loses no acknowledgement and is done before the lock lapses writes each event back before its deadline |
| `Dispatcher.AllTimely` | app/callback_dispatcher/main.py:299-342 | then every step of that dispatcher is timely, its claim included |
| `Delivery.OutcomeIsFinal` | app/callback_dispatcher/main.py:145-216 | under the hypothesis delivered and failed are final, in the event and in its match |
| `Delivery.AttemptsAreBounded` | app/callback_dispatcher/main.py:172-216 | under the hypothesis at most the maximum of outcomes is recorded, an event is settled when it is reached, and failed only then |
| `Delivery.DelaysAreChosen` | app/callback_dispatcher/main.py:200-215 | under the hypothesis the n-th retry is scheduled with the n-th delay, and there are as many as failures before the last |
| `Delivery.RetryWaits` | app/callback_dispatcher/main.py:200-215 | with no assumption on dispatchers: after a failure before the last, recorded with a delay, the event is not due before the delay is over, until its next outcome |
| `Delivery.NotClaimedEarlier` | app/callback_dispatcher/main.py:65-73 | nor is it taken earlier by a claim that takes due events only |
| `Delivery.ClaimedAfterDelay` | app/callback_dispatcher/main.py:200-215 | under the hypothesis it is claimed again before its next outcome, when the delay is over |
| `Delivery.TotalDelayIsBounded` | app/callback_dispatcher/main.py:139-216 | over a run under the hypothesis the scheduled delays of an event add up to no more than the bound for the maximum number of outcomes less one |
| `Timeliness.OutcomesAreApart` | app/callback_dispatcher/main.py:200-215 | under the hypothesis, with statements in the order of their times, the next outcome comes no earlier than the delay allows: delays are really waited |
| `Backoff.NextBackoffSeconds` | app/callback_dispatcher/main.py:139-142 | the delay is the capped exponential plus at most the jitter |
| `Backoff.Monotone` | app/callback_dispatcher/main.py:139-142 | the delay before jitter never shrinks |
| `Backoff.FirstDelay` | app/callback_dispatcher/main.py:139-142 | the first delay is the base, up to the cap |
| `Backoff.DoublesOrSaturates` | app/callback_dispatcher/main.py:139-142 | it doubles until the cap and then stays there |
| `Backoff.TotalDelay` | app/callback_dispatcher/main.py:139-142 | n delays add up to at most min(base (2^n - 1), n cap) + n jitter |
| `Dispatcher.Queue.ClaimCallbackEvents` | app/callback_dispatcher/main.py:46-114 | the last step is a claim answering the query on the rows just before it, and the dispatcher holds every event it took |
| `Dispatcher.Queue.MarkDelivered` | app/callback_dispatcher/main.py:145-169 | success records one delivery, a deadlock none, an error at most one, and no other step of this dispatcher is taken |
| `Dispatcher.Queue.MarkFailedAttempt` | app/callback_dispatcher/main.py:172-216 | success records one failure, final exactly when the claimed attempts allow no more; otherwise the event is due again exactly when the delay chosen is over |
| `Dispatcher.Queue.PersistDeliveryOutcome` | app/callback_dispatcher/main.py:239-275 | however often it retries it records at most one outcome, of the kind the receiver's answer asks for, and exactly one when it returns; it raises only after an error or three deadlocks, having recorded one only if its acknowledgement was lost, then perhaps a release; having given the claim back it leaves the event pending |
| `Dispatcher.Queue.RunOnce` | app/callback_dispatcher/main.py:299-342 | it claims an answer of the query and posts each event taken once, and no other; its steps are the claim and then, event by event, at most one outcome, of the kind the receiver's answer asks for, exactly one if persisted, and at most a release otherwise; without an error and with fewer than three deadlocks all are persisted; if no acknowledgement was lost and the last event was done before the locks lapse, all its steps are timely |
| `Publication.CommitIsPublish` | app/worker/matching.py:340-357 | a worker's commit is the publication of its event and nothing else |
| `Publication.DeliveryIsDispatch` | app/callback_dispatcher/main.py:145-232 | a dispatcher's step is one delivery step of the ticket protocol |
| `Publication.StepOfBoth` | app/callback_dispatcher/main.py:145-232 | every step of the whole system is a step of the protocol and a step or stutter of the outbox, and keeps both invariants and their agreement |
| `Publication.EveryMatchIsAnnounced` | app/worker/matching.py:266-357 | in every reachable state of the whole system each match has one event, naming its two players, and says delivered or failed when the event does |
| `RateLimit.Limiter.CheckRateLimit` | app/core/admission.py:41-55 | a request passes exactly when the counter its hit returns is within the limit |
| `RateLimit.CountersAreExact` | app/core/admission.py:47-50 | while no counter lapses, each counter is the number of hits of its minute |
| `RateLimit.ExactIffNoLapse` | app/core/admission.py:47-50 | all counts returned are right if and only if no counter lapsed |
| `RateLimit.PromptHitsDoNotLapse` | app/core/admission.py:43-50 | requests that reach the store in the minute they read never find their counter lapsed |
| `RateLimit.PassesPerMinute` | app/core/admission.py:47-55 | while no counter lapses, exactly min(limit, hits) requests of each minute pass |
| `RateLimit.LimitExactly` | app/core/admission.py:47-55 | in a run every minute keeps every limit if and only if no counter lapsed |
| `RateLimit.AnyWindow` | app/core/admission.py:41-55 | while no counter lapses, of the requests that read the clock within any 60 seconds at most twice the limit pass |
| `RateLimit.WindowByMinutes` | app/core/admission.py:41-55 | whatever bounds the requests passing in each minute, any 60 seconds by either clock see at most that for each minute their requests belong to |
| `RateLimit.TwoMinutesSuffice` | app/core/admission.py:41-55 | while no counter lapses, by the store's clock at most twice the limit pass if no request of the window read an earlier minute than it begins in |
| `RateLimit.ThreeMinutesAtMost` | app/core/admission.py:41-55 | while no counter lapses, by the store's clock at most three times the limit pass if no request is a minute late |
| `RateLimit.ThreeMinutesInOneWindow` | app/core/admission.py:43-50 | with any delay at all, and no counter lapsing, three requests pass under a limit of one within 60 seconds of the store's clock |
| `RateLimit.TwiceIsReached` | app/core/admission.py:41-55 | twice the limit within 60 seconds, even within two, does happen |
| `RateLimit.LateHit` | app/core/admission.py:43-50 | for every positive delay a run in which a lapsed counter lets two requests pass in one minute, and three within 60 seconds of the clock they read, under a limit of one |
| `RateLimit.MinuteExactly` | app/core/admission.py:41-55 | every minute of every run with requests delayed by at most d keeps every limit if and only if d is zero |
| `RateLimit.ReadWindowExactly` | app/core/admission.py:41-55 | twice the limit bounds every 60 seconds of the clock the requests read, in every run with requests delayed by at most d, if and only if d is zero |
| `RateLimit.StoreWindowExactly` | app/core/admission.py:41-55 | the same by the store's clock |
| `RateLimit.LateMinute` | app/core/admission.py:41-55 | with requests at most a minute late, lapses or not, at most twice the limit of each minute passes |
| `RateLimit.LateWindow` | app/core/admission.py:41-55 | with requests less than a minute late, lapses or not, at most four times the limit pass in any 60 seconds of the clock they read, and six times by the store's |

## Left out

- HTTP serving, authentication, health and metrics endpoints, logging, the dashboard and the read-only ticket routes: presentation only.
- `deliver_event`, request headers and the HMAC signature: a delivery is an arbitrary success or failure.
- SHA-256 and CRC32: uninterpreted functions; that request hashes do not collide is a hypothesis where it is used.
- The limiter, load shedding and the loop's time budget, as met by `Service`: each an arbitrary refusal or exit, on record, at the place the code has it; the limiter itself is in `RateLimit`.
- The worker's scheduling jitter: only an arbitrary claim offset remains of it.
- Columns nothing decides on (updated_at, matched_at, cancelled_at, last_error, delivered_at, callback_url, callback_secret) and the event payload beyond its match, queue and players.
- Deadlock detection: any statement of any transaction may fail at any time and roll it back; the lock order that avoids deadlocks is not modelled.
- Dispatcher row locks: each outcome transaction is one step, and the claim statement is atomic in `Claiming` and `Dispatcher`; in `Outbox` a claim may take any rows, so that racing claims are covered.
- Identity: session, ticket, match and event ids are numbers that nobody reuses; every replica has the same partition count.
- LeaseSafety.LiveLeaseIsNeverStolen: one open lease transaction per worker id, since ids of running workers differ.
- Leases.LeaseStore.LeaseTransaction: as one turn it meets no locks of others; the interleaved statements are in `LeaseSafety`, of which a turn is a run (`LeaseRefinement.TurnIsRun`).
- Rebalance.RebalancingConverges: assumes turns in time, that is, heartbeats and leases of the workers that stay do not lapse between their turns and those of departed workers have.
- Delivery.OutcomeIsFinal: the hypothesis that outcomes come from the holder of the claim is not enforced by the code; without it the property is false (`Outbox.DeliveredIsNotFinal`), exactly when `Outbox.FinalExactly` says.
- Delivery.AttemptsAreBounded: bounds the outcomes, not the time until a dispatcher gets round to them.
- RateLimit.AnyWindow: the API servers and the store read one clock, the store later than the server; clocks that disagree are not modelled.
- Quota.OvershootBounded: the number of concurrent creations is a hypothesis; the code does not limit it.
- Overshoot.OvershootHappens: for a tenant or partition that can be filled to its limit; with the shipped quota of 5000 and depth of 1000 (app/config.py:21-22) a tenant with queues in fewer than five partitions cannot reach its quota one ticket after the other, and that case is left out.
- Overshoot.LimitHoldsExactly: the same; that `c` at most one suffices (`Quota.OvershootBounded`) holds for all settings.
- Overshoot.DepthHoldsExactly: assumes that the tenants with a queue in the partition have a quota of at least their depth limit, so that one of them alone can fill it.
- RateLimit.LateMinute: bounds delays of up to a minute; with longer ones the counter of a minute can lapse more often.
- Timeliness.TimelyIsGuarded: statements are taken to run in the order of their times, as with one clock; that dispatchers are timely is a hypothesis.
- Service.Cluster.CancelTicket: an UPDATE that would wait for a locked row is answered only if it is free when tried again.
- Times are whole seconds in the leases and the outbox, microseconds in the pairing, and real numbers in the limiter; comparing a wait with the thresholds in floating point is not modelled.
