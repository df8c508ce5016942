# Auction Watch: verified model

Auction Watch scans auction houses, keeps an inventory of their lots, matches the lots against search
profiles and mails what changed. A wrong answer from a site must never silently empty the inventory, a
crashed process must never lose or repeat work without bound, and whatever a site answers the adapter must
hand the engine a result it can trust. This project models that logic in Dafny and proves it, for every
input, every server behaviour and every history of runs.

## How the model is organised

- **Inventory across runs.** `SourceContract` (what a scan must satisfy), `Stability` (quarantine of
  implausible shrinkage), `Operational` (the tables as the fields of a class), `Lifecycle` (one row's life),
  `Persistence`, `RunEngine`, then the theorems: `RunTheorems`, `RunInventory`, `ShrinkBound`,
  `RunEvidence`, `HistoryTheorems`, `Staleness`, `SeenCounts`. A run is described by the events it plays on each row, and a history of runs by the
  transactions they commit, interrupted runs included. `Publication` adds matching and the snapshot.
- **Queue, lease, worker, outbox.** `RunQueue`, `Lease`, `Worker` and `Outbox` give the repositories and
  workers as classes and, beside them, transition systems with any number of actors, crashes and recoveries,
  one transaction per step (for the outbox in `Deliveries`). `Backoff` bounds the waits between failing
  deliveries, and `Scheduler` and `Ticks` add the slots and the ticks that fill the queue.
- **The Castells adapter.** `CastellsDecoder`, `CastellsPages` and `CastellsReading` read one answer, `CastellsPaging` walks the
  pages, `CastellsLots` and `CastellsGroups` make lots and a receipt of them, `CastellsDiscovery` collapses
  the home page's records, `CastellsScan` and `CastellsResult` assemble the scan. The clock and the server
  are arbitrary functions of the call number and the address.
- **Smaller cores.** `Utf8`, `Percent`, `Validation`, `Cleaning`, `Identity` (the `aw1:` key, after RFC 3986
  sections 2.1 and 2.3 and RFC 3629 section 3), `Normalization`, `Matching`, `MatchingTheorems`, `MatchResults`, `Profiles`,
  `Planner`, `Prices`. `Wrappers`, `Sequences`, `Ordering` and `Domain` are shared.

A definition that both the code and the theorems use is also described without itself, in fields, numbers or
positions: those lemmas are mostly named after it, with `Means`.

Instants are whole seconds on one time line, except the adapter's monotonic clock, which is real. Each
database transaction is one atomic step. What comes from libraries (Unicode tables, JSON text, URL joining,
decimal parsing, time stamps) is a function parameter; where a theorem needs a fact about one, it says so in
its `requires`.

## Where the code does not do what one might expect

- **A retried run can leave a missing lot active.** The worker requeues a crashed job under the same run id,
  and the removal guard (src/auction_watch/persistence/operational_repository.py:454-461) refuses to remove a
  row twice in one run. `RunTheorems.ActiveAfterRun` gives the exact effect of a run for any id,
  `RunTheorems.FreshRunIsExact` the simple form for a new id.
- **A retried run can therefore leave a stale lot active**, exactly when the retry does not report the lot and
  an earlier attempt under its id had removed it before it came back (`Staleness.StaleSurvivors`);
  `Staleness.StaleLotSurvives` is such a history. With a new id it cannot happen (`Staleness.NoStaleLotSurvives`).
- **A retried run can shrink a group below a quarter without emptying it**, exactly when the receipt proves the
  group empty and the guard protects some of its lots, but fewer than a quarter
  (`ShrinkBound.RunEmptiesOrKeepsAQuarter`); `ShrinkBound.OneOfEightIsLeft` is such a table and scan.
- **A run that comes back counts a lot again.** `seen_count` skips a report only when its run was the last to
  report or the last to remove the lot, so a run retried after another one counts twice.
  `SeenCounts.RowTellsHistory` is the law for every history, `SeenCounts.ReturningRunCountsAgain` an instance.
- **Quarantine can break the contract the engine has just checked**, exactly when something is quarantined and
  the source had claimed omission authority explicitly (`Stability.QuarantineKeepsContract`). Castells, the only
  source that is quarantined, never does: whatever its server answers, its scan still conforms after quarantine
  (`CastellsResult.ScanSource`).
- **Groups that became empty are not quarantined.** docs/CONTRACTS.md:62-64 says they are; the code
  (src/auction_watch/runner.py:409-415) deliberately lets them close, and the model follows the code.
- **A slot does not survive midnight.** Only times of the current local day are considered, so a slot at 23:55
  is no longer due at 00:05; `Scheduler.WindowOfASlot` states when a slot is served, and
  `Scheduler.SlotLostAtMidnight` is a plan that loses one.
- **A last-attempt failure is written in two transactions.** A crash between them leaves queue and run rows
  disagreeing unless the run row already said failed (`Worker.TornFailure`, an instance in
  `Worker.LastFailureTorn`), and nothing else makes them disagree
  (`Worker.QueueAndRunsAgree`).
- **A sent mail can become sendable again.** A delivery worker begins by making every item in flight sendable
  (src/auction_watch/worker.py:121), also those whose worker is alive. As long as no worker starts while a
  claim below the attempt limit is held, sent is final for any number of workers (`Deliveries.SentStaysSent`);
  any start that breaks this can be followed by steps that reopen the item (`Deliveries.CarelessStartReopens`).
  The bound on sends needs no such care (`Deliveries.BoundedSends`).
- **A Castells scan can raise.** A discovery record whose own link cannot be joined to the site's address, whose
  closing time overflows on its way to UTC, or whose title, address or category holds a lone surrogate, which the
  group model refuses (src/auction_watch/core/models.py:101-129), raises outside the per-auction error handling
  (src/auction_watch/sources/castells.py:836-845); the engine then counts the source as failed.
  `CastellsResult.Scan` and `CastellsResult.RaisingRecords` state exactly when; `CastellsResult.LastDayRaises` and
  `CastellsResult.LoneSurrogateRaises` are home pages that do it.
- **One lot can fail its auction.** A lot's overflowing closing time is no value error, so it escapes the
  per-row handling (src/auction_watch/sources/castells.py:905-923) and the whole auction counts as failed
  (`CastellsLots.RowRaises`, `CastellsLots.Settle`; `CastellsGroups.LastDayLotFailsItsAuction` is such a lot).
- **A user profile that is deleted and created again starts over at revision one**, so two replacements that
  expect the same revision can both succeed (`Profiles.SecondLifeSecondWinner`).

## Model

| member | source | states |
|---|---|---|
| SourceContract.ContractError | src/auction_watch/runner.py:472-546 | the engine's checks, in their order, are silent exactly on results that conform: distinct identities, receipts covering exactly the groups and counting their lots, authority only on complete evidence |
| SourceContract.IdentitiesMean | src/auction_watch/runner.py:472-500 | the first part of the contract by position: no two groups, receipts, skipped groups, diagnostics or lots are the same, and all belong to the source |
| SourceContract.CoverageMeans | src/auction_watch/runner.py:500-530 | the second part: just the groups have receipts, none is skipped, every lot and diagnostic belongs to one, and an unfailed receipt states how many lots its group has |
| SourceContract.AuthorityMeans | src/auction_watch/runner.py:530-546 | the third part, as refusals: authority without completeness, with errors or beside an unauthoritative receipt, and omission authority without any |
| SourceContract.CountLots | src/auction_watch/runner.py:520-528 | one pass over the lots counts, for every discovered group and no other, the lots reported in it |
| Stability.StabilizeInventory | src/auction_watch/runner.py:402-470 | the loop downgrades exactly the complete authoritative receipts of active groups that kept fewer than a quarter of at least eight lots, and the result with them |
| Stability.DowngradedReceipt | src/auction_watch/runner.py:434-455 | a receipt is downgraded iff it is complete and authoritative, for a listed active Castells group with at least eight known lots, of which it keeps some but fewer than a quarter; any other is unchanged |
| Stability.DowngradedResult | src/auction_watch/runner.py:456-470 | without a downgraded receipt the result is unchanged; with one, discovery is partial, authority is gone and one error more is reported |
| Stability.QuarantineKeepsContract | src/auction_watch/runner.py:434-470 | a conforming result still conforms after quarantine if and only if nothing was quarantined or omission authority was not claimed outright |
| Stability.ConformingIsWellCovered | src/auction_watch/runner.py:472-546 | conformance gives reconciliation all it relies on: every reported lot has a receipt and every unfailed receipt counts its lots |
| Lifecycle.RunsKeepCoherent | src/auction_watch/persistence/operational_repository.py:397-461 | over every sequence of runs, touches and removals a row is active exactly while it has no removal time |
| Lifecycle.RunCountsOnce | src/auction_watch/persistence/operational_repository.py:397-424 | one run raises `seen_count` by one exactly when it reports the row without having removed it first, and never by more |
| Lifecycle.SeenCountAccounting | src/auction_watch/persistence/operational_repository.py:397-461 | over distinct runs `seen_count` is one plus the number of later runs that reported the row unremoved |
| Operational.OperationalRepository.RetireStaleLots | src/auction_watch/persistence/operational_repository.py:426-452 | the whole new state: the active rows of the sources last seen before the cutoff are removed, their number is returned, nothing else changes |
| Operational.OperationalRepository.ReconcileGroup | src/auction_watch/persistence/operational_repository.py:295-357 | it is refused exactly for foreign or repeated identities or a missing receipt, then changes nothing; otherwise reported lots are touched, and the group's others removed only on a complete authoritative receipt with the right count |
| Operational.ReconciledRow | src/auction_watch/persistence/operational_repository.py:295-357 | row by row: a reported lot is touched, another stored lot of the group is removed iff the receipt is complete, authoritative and counts the reported lots, and no other row changes |
| Operational.OperationalRepository.ReconcileOmittedGroups | src/auction_watch/persistence/operational_repository.py:359-395 | lots of groups without a receipt in this run are removed only after a succeeded authoritative source run |
| Operational.OmittedRow | src/auction_watch/persistence/operational_repository.py:359-395 | row by row: a stored lot is removed iff the source run succeeded with authority and stored no receipt for its auction |
| Persistence.GroupLots | src/auction_watch/runner.py:383-385 | one pass groups the lots so that every group's list is exactly its reported lots in reported order |
| Persistence.PersistSource | src/auction_watch/runner.py:357-400 | the loop over receipts, then the omission unless opted out, leaves exactly the tables the specification gives |
| Persistence.PersistPlays | src/auction_watch/runner.py:357-400 | persisting a source plays on every stored lot exactly one verdict of its result: reported, proved absent, or nothing |
| RunEngine.AuctionRunEngine.ProcessSource | src/auction_watch/runner.py:243-258 | a scan is vetted, stabilised against the active inventory of that moment and persisted; a violation counts as a failed scan |
| RunEngine.AuctionRunEngine.ReconcileSources | src/auction_watch/runner.py:223-262 | retirement comes first and each source sees the tables its predecessors left |
| RunEngine.RunPlays | src/auction_watch/runner.py:223-262 | a whole run plays on every lot its own source's events and no other's, whichever run id it carries |
| RunTheorems.EventsOfRunShape | src/auction_watch/runner.py:223-262 | the events of a run on a lot are at most one retirement followed by at most one verdict, a report if it was reported and a removal if its absence was proved |
| RunTheorems.ActiveAfterRun | src/auction_watch/persistence/operational_repository.py:295-461 | for every run id: a lot is active afterwards iff reported, or active before and either protected by the removal guard or neither stale nor proved absent; a row no event concerns is unchanged |
| RunTheorems.FreshRunIsExact | src/auction_watch/persistence/operational_repository.py:295-461 | with an id no row or receipt has met the guard never blocks: active iff reported, or active before, recent and not proved absent |
| RunEvidence.StaleMeans | src/auction_watch/runner.py:223-231 | stale is an active lot of the selected sources last seen more than 48 hours before the reading |
| RunEvidence.ReportedMeans | src/auction_watch/runner.py:243-258 | reported is what the source's own scan lists, if it meets the contract |
| RunEvidence.AbsenceMeans | src/auction_watch/runner.py:243-258 | absence is proved iff a conforming scan has a complete authoritative receipt for the auction that is not downgraded against the lots still active, or no receipt, now or earlier in the run, and authority over omissions with nothing downgraded |
| RunInventory.LotsAfterRun | src/auction_watch/persistence/operational_repository.py:121-159 | after a run the lot table holds every reported lot as it was reported and every other lot as it was |
| RunInventory.LotByRunMeans | src/auction_watch/runner.py:243-258 | what the run stores of a lot is what the source's conforming scan says of it |
| RunInventory.PublishedByRun | src/auction_watch/runner.py:215-298 | from scans to snapshot, for every run id: a lot is listed for a profile iff its source was scanned, it was reported, or was active before and either protected by the removal guard or recent and not proved absent, and its stored form is open and accepted by the matcher |
| RunInventory.PublishedByFreshRun | src/auction_watch/runner.py:215-298 | with an id no row or receipt has met, the same without the guard |
| ShrinkBound.GroupEmptiesOrKeepsAQuarter | src/auction_watch/runner.py:434-470 | persisting a scan leaves a Castells group listed as active with at least eight active lots none of them or at least a quarter, if and only if it is not the case that the receipt proves the group empty while the removal guard protects some of its lots but fewer than a quarter |
| ShrinkBound.RunEmptiesOrKeepsAQuarter | src/auction_watch/runner.py:223-262 | the same over a whole run under any id, the lots counted after retirement: the bound holds at its end iff that exception does not apply |
| ShrinkBound.FreshRunEmptiesOrKeepsAQuarter | src/auction_watch/runner.py:223-262 | a run with a new id always empties such a group or keeps a quarter of it |
| ShrinkBound.OneOfEightIsLeft | src/auction_watch/persistence/operational_repository.py:454-461 | a retried run that finds a group of eight empty leaves one of its lots |
| HistoryTheorems.HistoryKeeps | src/auction_watch/persistence/operational_repository.py:271-461 | after any history of transactions by any runs, finished or not, rows belong to stored lots, are coherent, and were last seen when last reported |
| HistoryTheorems.UnusedIdIsFresh | src/auction_watch/persistence/operational_repository.py:397-461 | a run id no transaction carried is unknown to every row and receipt |
| HistoryTheorems.RunIsHistory | src/auction_watch/runner.py:223-262 | a complete run is itself a history of its own transactions, so the history theorems cover any mixture of complete and interrupted runs |
| HistoryTheorems.SeenCountOverRuns | src/auction_watch/persistence/operational_repository.py:397-461 | the `seen_count` law holds for every lot over any sequence of whole runs with different ids |
| SeenCounts.RowTellsHistory | src/auction_watch/persistence/operational_repository.py:397-461 | after any history, retried and interleaved runs included: `seen_count` is the number of reports whose run was neither the last before them to report the lot nor the last to remove it, and the row's times and run ids are those of its first and last report and of its last removal |
| SeenCounts.ReturningRunCountsAgain | src/auction_watch/persistence/operational_repository.py:397-424 | three reports by "r", "q" and "r" count three times |
| Staleness.StaleSurvivors | src/auction_watch/persistence/operational_repository.py:426-461 | for any tables and any run id: a lot left active is older than 48 hours iff the run did not report it, it was active and that old before, and this id had removed it earlier |
| Staleness.NoStaleLotSurvives | src/auction_watch/runner.py:223-231 | after any history, a complete run under any id leaves an active lot of its sources stale in exactly that case, and under a new id never; its age counts from its last report |
| Staleness.StaleLotSurvives | src/auction_watch/persistence/operational_repository.py:454-461 | a concrete history and retry, run through the engine, after which a lot nobody reported for 48 hours is active |
| Publication.FiledUnderOwnKey | src/auction_watch/runner.py:563-580 | for validated identities the key decoded from a match's opportunity key is the lot's own |
| Publication.MatchRepository.RecordMatch | src/auction_watch/persistence/operational_repository.py:491-511 | every other match is unchanged; the match takes the new finding; a known one keeps its first-seen time and a first-match time once set, and is active with no confirmed absence |
| Publication.MatchRepository.DeactivateMissing | src/auction_watch/persistence/operational_repository.py:513-526 | exactly the profile's active matches outside the expected set are deactivated |
| Publication.MatchRepository.MatchProfiles | src/auction_watch/runner.py:264-281 | the loop over profiles and lots leaves the match table the specification gives |
| Publication.MatchAfterwards | src/auction_watch/persistence/operational_repository.py:491-526 | match by match: an accepted lot's says what the matcher found now and keeps its first times, another active one of the profile's is inactive and names the run, every other is unchanged |
| Publication.MatchesAgreeWithMatcher | src/auction_watch/runner.py:264-284 | after the loop each profile's active matches are exactly the open lots the matcher accepts for it |
| Publication.SnapshotListsAccepted | src/auction_watch/runner.py:282-298 | the list published for a profile is exactly what the matcher accepts for it |
| Publication.FirstMatchNeverMoves | src/auction_watch/persistence/operational_repository.py:491-526 | over any number of runs a match is never forgotten and its first-match time never changes, however often the lot leaves and returns |
| Publication.Unify | src/auction_watch/runner.py:595-669 | the unified index is the inverse of the per-profile lists, in both directions |
| RunQueue.RunQueueRepository.Enqueue | src/auction_watch/async_ops.py:69-129 | a job is created iff its idempotency key is new; otherwise the stored job is returned and nothing changes |
| RunQueue.RunQueueRepository.ClaimNext | src/auction_watch/async_ops.py:141-160 | the due row first in time and id is claimed, only that row changes, and nothing is claimed only when nothing is due |
| RunQueue.NextMeans | src/auction_watch/async_ops.py:141-160 | next is the queued and available row enqueued first, and of those enqueued together the oldest |
| RunQueue.WorkersActions | src/auction_watch/async_ops.py:141-199 | a worker's claim, settlement, retry or end is a step of the queue system, with just this effect |
| RunQueue.OtherActions | src/auction_watch/async_ops.py:69-139 | so are enqueueing and recovery |
| RunQueue.RunQueueRepository.RecoverInterrupted | src/auction_watch/async_ops.py:131-139 | every running row becomes due at once on its attempt count, every other row is unchanged, none is left running, and the number of running rows is returned |
| RunQueue.ClaimsArePaidFor | src/auction_watch/async_ops.py:131-199 | under any interleaving of workers, crashes and recoveries the attempt counter equals the claims, which never outnumber the enqueueing, the retries and the resets; each retry spends its own attempt number |
| RunQueue.BoundedClaims | src/auction_watch/async_ops.py:131-199 | a job is claimed at most `max_attempts` times plus the recoveries that reset it |
| RunQueue.ClaimsAreSeparated | src/auction_watch/async_ops.py:131-199 | between two claims of one job lies a retry of it or a recovery that reset it |
| Lease.OwnerStays | src/auction_watch/persistence/operational_repository.py:222-269 | until its time is up or it releases, the run that was granted the lease stays the stored owner, whatever other runs try to acquire or release |
| Lease.OwnershipIsExclusive | src/auction_watch/persistence/operational_repository.py:222-269 | ownership intervals of different runs never overlap, in any interleaving with non-decreasing times |
| Lease.GrantedExactly | src/auction_watch/persistence/operational_repository.py:222-262 | an acquisition succeeds iff every earlier ownership by another run has ended |
| Worker.RunLedger.Run | src/auction_watch/runner.py:117-204 | a finished run is returned untouched; a lease is busy iff another run holds it unexpired, and then nothing changes; otherwise a run that ends is stored and returned as it ended, one that raises as failed, unless it is an old run that already wrote its end, which is kept while the error escapes, and the lease ends free; of the other rows only that of the expired lease's owner changes, from running to failed |
| Worker.RunWorker.RunOnce | src/auction_watch/worker.py:48-101 | one pass settles the next due job with the outcome its run had or now comes to, or fails its attempt: queued again in five seconds below the limit, failed at it; it touches no other job, idles only when nothing is due, and keeps queue and run rows in agreement |
| Worker.QueueAndRunsAgree | src/auction_watch/worker.py:48-101 | over any history with crashes at every transaction boundary: apart from moments when a final failure is half written, every finished queue row has its run row's status, if and only if no crash fell between the two writes of a failure while the run row did not already say failed |
| Worker.PassIsAWalk | src/auction_watch/worker.py:48-101 | one pass of the worker is a walk of the transition system, to the state the pass leaves |
| Worker.TornFailure | src/auction_watch/worker.py:85-96 | a crash between the two writes of a final failure leaves agreement iff the run row already said failed |
| Worker.LastFailureTorn | src/auction_watch/worker.py:85-96 | a first attempt that fails for good, with a crash before the run row is written, is such a history |
| Outbox.NotificationRepository.Enqueue | src/auction_watch/async_ops.py:254-291 | an item is stored iff its dedupe key is new |
| Outbox.NotificationRepository.ClaimDue | src/auction_watch/async_ops.py:293-316 | the oldest sendable item is claimed and its attempt counted; none only when none is sendable |
| Outbox.NextItemMeans | src/auction_watch/async_ops.py:293-316 | next is the oldest item that is pending or failed, has attempts left and need not wait |
| Outbox.UndeliveredMeans | src/auction_watch/async_ops.py:337-362 | a failed item waits the base delay after its first attempt and twice as long after each further one, and not at all at the limit |
| Outbox.NotificationDeliveryWorker.RunOnce | src/auction_watch/worker.py:123-158 | one pass is one complete delivery of the next sendable item, and idles only when there is none |
| Deliveries.BoundedSends | src/auction_watch/async_ops.py:293-362 | under any interleaving of any number of workers, crashes and recoveries one dedupe key is sent at most `max_attempts` times |
| Deliveries.ActionsMean | src/auction_watch/async_ops.py:293-362 | claiming, sending, recording either outcome, starting and dying are steps of the outbox system, with just these effects |
| Outbox.SentIsFinal | src/auction_watch/worker.py:123-158 | with one delivery worker a sent item never changes again, over any sequence of deliveries, crashes and restarts |
| Deliveries.SentStaysSent | src/auction_watch/async_ops.py:318-362 | for any number of workers: if none starts while a live worker holds a claim below the attempt limit, a sent item never changes again |
| Deliveries.CarelessStartReopens | src/auction_watch/worker.py:117-158 | conversely, after any careful history, a start while such a claim is held has a continuation in which the claimed item is sent and then opened again |
| Deliveries.SentCanReopen | src/auction_watch/async_ops.py:318-362 | in particular right after the first claim of an item, if the limit allows a second |
| Backoff.BackoffGrows | src/auction_watch/async_ops.py:337-362 | if every attempt fails, attempt k+1 starts no earlier than base times (2^k - 1) after the first failure, up to the last |
| Backoff.BackoffInHistory | src/auction_watch/worker.py:123-158 | in any history of one worker in which every delivery of a key fails there are at most `max_attempts` of them, and the last of n starts no earlier than base times (2^(n-1) - 1) after the first failed |
| Scheduler.DueProfiles | src/auction_watch/runner.py:61-93 | the listed profiles ascend, and a profile with a time reached today is listed iff it is enabled and scheduled, now is within a quarter of an hour of the last such time, and no run has finished since a quarter of an hour before it |
| Scheduler.DueMeans | src/auction_watch/runner.py:74-92 | the same of one profile; with no time reached today it is not due |
| Scheduler.StampIsJudgedSlot | src/auction_watch/scheduler.py:13-26 | the slot in a due profile's key is the latest elapsed one, the one it was judged due for, and now lies in its quarter of an hour |
| Scheduler.KeysTellSlotsApart | src/auction_watch/scheduler.py:43-49 | job keys name profile and slot unambiguously |
| Scheduler.WindowOfASlot | src/auction_watch/runner.py:74-92 | for any coverage: inside its quarter of an hour a profile is due for a slot iff local midnight has not passed, no later time of the day has been reached, and no run has finished since a quarter of an hour before it |
| Scheduler.SlotLostAtMidnight | src/auction_watch/runner.py:74-92 | a slot at 23:55 is no longer due at 00:05 |
| Ticks.LastCoveredByProfile | src/auction_watch/async_ops.py:201-217 | the map holds exactly the profiles with a completed or partial run and the latest finish of each |
| Ticks.CoverageMeans | src/auction_watch/async_ops.py:201-217 | covering is exactly a finished job of the profile that came out completed or partial |
| Ticks.CoveredSlotIsNotDue | src/auction_watch/runner.py:87-92 | a run that finished no earlier than a quarter of an hour before the slot keeps it from being due |
| Ticks.EnqueueDueProfiles | src/auction_watch/scheduler.py:29-52 | a tick appends one queued job for exactly the due profiles whose slot has none yet, and afterwards every due slot has its job |
| Ticks.ScheduledJobsKeepTheirWindow | src/auction_watch/scheduler.py:29-52 | over any ticks, claims, retries, crashes and recoveries every scheduled job was enqueued in the quarter of an hour after the slot its key names, and in the queue its entry was judged on no publishable run of the profile had finished since a quarter of an hour before that slot |
| Ticks.OneJobPerSlot | src/auction_watch/async_ops.py:69-129 | at any moment at most one job exists for a profile and slot |
| CastellsDecoder.ListCandidates | src/auction_watch/sources/castells.py:372-409 | the recursive search with its shared counter and list computes the specified candidates |
| CastellsDecoder.FirstNameWins | src/auction_watch/sources/castells.py:412-421 | a field is read under the first of its names that holds a true value |
| CastellsDecoder.FoldedNameWins | src/auction_watch/sources/castells.py:412-421 | if none fits as it is, the first 24 keys are compared after folding, and the last of those that fold alike counts |
| CastellsDecoder.NextMeans | src/auction_watch/sources/castells.py:368-370 | the link to the next page is the first true value of three names |
| CastellsDecoder.InspectedMeans | src/auction_watch/sources/castells.py:372-409 | the search looks at the first 24 entries of an object, in the order of their keys |
| CastellsDecoder.SearchIsBoundedAndExact | src/auction_watch/sources/castells.py:372-409 | on any payload at most 80 objects are visited and no candidate lies deeper than six keys; below the budget every list within reach is a candidate |
| CastellsDecoder.CandidateIsAList | src/auction_watch/sources/castells.py:372-409 | every candidate is a list the payload holds at the candidate's path, cut after 501 elements and marked when it has more than 500, with the next value beside it |
| CastellsPages.HighMeansWhole | src/auction_watch/sources/castells.py:431-455 | a high rating means a whole non-empty list of the payload whose sampled lots have distinct identities |
| CastellsPages.ProblemsAreClassified | src/auction_watch/sources/castells.py:536-682 | what cannot be decoded is one of six issues with shadow evidence of the same category for this group |
| CastellsPages.AdaptivePageIsOneWholeList | src/auction_watch/sources/castells.py:583-633 | a page decoded without a known shape is empty for a stated reason, or is all the elements of exactly one list of the payload, the only high candidate |
| CastellsPages.OneHighIsRecovered | src/auction_watch/sources/castells.py:586-604 | conversely a single high candidate is enough when no error, known shape or verified emptiness decides first |
| CastellsPages.KnownPageIsOneWholeList | src/auction_watch/sources/castells.py:563-581 | a page in a known shape is one whole list under a documented key, at most two wrappers deep |
| CastellsReading.RatingMeans | src/auction_watch/sources/castells.py:431-455 | a candidate is rated high iff it is whole, at least four fifths of its first 50 elements are objects, at least four fifths of these have identity and title and no two share an identity; and at least medium iff half are objects and one has either |
| CastellsReading.ErrorMeans | src/auction_watch/sources/castells.py:481-505 | a payload is an error iff it, or an object at most three levels below it, has an error among its first 24 entries |
| CastellsReading.ErrorEntryMeans | src/auction_watch/sources/castells.py:481-505 | what counts as an error entry: a true error, a failing status, a status code from 400 on |
| CastellsReading.KnownMeans | src/auction_watch/sources/castells.py:563-581 | a payload has a known shape iff a chain of at most three nodes, each wrapped in the one before, ends in one that holds a list under the first fitting key |
| CastellsReading.EmptinessMeans | src/auction_watch/sources/castells.py:321-336 | emptiness is believed iff a meta object announces no more and no list is there |
| CastellsReading.BodyMeans | src/auction_watch/sources/castells.py:536-604 | an error decides first, then a known shape, then believed emptiness, then the ratings |
| CastellsReading.HighMeans | src/auction_watch/sources/castells.py:586-618 | one high candidate is the page, two are ambiguous |
| CastellsReading.NoHighMeans | src/auction_watch/sources/castells.py:618-682 | without a high candidate only a sole empty list under a lot-list key is a page; every other case has its issue and confidence |
| CastellsReading.AnswerMeans | src/auction_watch/sources/castells.py:536-562 | a text that is no JSON is a page of HTML iff its first visible character is an opening bracket |
| CastellsPaging.CastellsSource.Get | src/auction_watch/sources/castells.py:742-761 | a request goes out exactly while the deadline has not passed and budget remains, and then its answer is the server's |
| CastellsPaging.CastellsSource.FetchLots | src/auction_watch/sources/castells.py:763-827 | the pages are the server's answers, each led to by the one before; rows and invalid entries account for every entry; no address is asked twice, at most `max_pages` are; no issue iff the walk ended on a short page without a link, and every other ending has its reason |
| CastellsPaging.FinishedMeans | src/auction_watch/sources/castells.py:804-812 | there is no issue iff the last page read is shorter than the page size and has no link |
| CastellsPaging.WalkMeans | src/auction_watch/sources/castells.py:763-824 | the first page is at the list's own address; a page with a link leads where the link does; one without is full and leads to the lots after its last one |
| CastellsPaging.EndingMeans | src/auction_watch/sources/castells.py:776-827 | every other ending: the page limit, a link that leads nowhere, a full page without a cursor, an address asked for before, an answer that is no page, or no request left; and what was read is kept with the issue, unless it is nothing or the link is malformed |
| CastellsPaging.PageMeans | src/auction_watch/sources/castells.py:742-800 | every page is what the server answered to that request, decoded |
| CastellsLots.CollectLots | src/auction_watch/sources/castells.py:860-923 | the loop keeps, drops and counts so that every identity ends with the fate its rows give it, a conflict counted once |
| CastellsLots.FateMeaning | src/auction_watch/sources/castells.py:913-921 | a lot id is kept iff it occurs and all its parseable rows yield that same lot, and conflicting iff they do not agree |
| CastellsLots.Settle | src/auction_watch/sources/castells.py:924-942 | unless a row's closing time overflows, which fails the auction, the listing is the kept lots in ascending order, the receipt counts lots and issues, and it is complete and authoritative iff there is no issue |
| CastellsLots.RowIsLot | src/auction_watch/sources/castells.py:862-921 | a row is a lot iff it has identity and title, its links can be read and all its text can be kept |
| CastellsLots.LotFromRow | src/auction_watch/sources/castells.py:862-908 | what a lot says, field by field, with the auction's closing time and the title standing in for missing ones |
| CastellsLots.PriceFromRow | src/auction_watch/sources/castells.py:872-882 | a price is amount and currency or nothing; a label that does not give both is a warning |
| CastellsLots.PictureMeans | src/auction_watch/sources/castells.py:886-908 | a picture is kept when its address is an address; a blank one is none, any other refuses the lot |
| CastellsLots.RowRaisesMeans | src/auction_watch/sources/castells.py:862-921 | a row raises iff it gets as far as its closing time and that overflows |
| CastellsLots.LinkMeans | src/auction_watch/sources/castells.py:339-345 | a link counts iff it leads to the site itself; otherwise the known address stands in |
| CastellsLots.GroupMeans | src/auction_watch/sources/castells.py:829-845 | when a record makes a group, and which |
| CastellsGroups.ScanGroup | src/auction_watch/sources/castells.py:829-959 | the scan of one auction comes from pages the server really gave, walked from its own list of its own kind to one of the stated endings; it raises iff the record's link or closing time does, or its title, address or category cannot be encoded |
| CastellsGroups.KindMeans | src/auction_watch/sources/castells.py:848-856 | a missing kind counts as 1, one below 1 is no number |
| CastellsGroups.RowOrderIsIrrelevant | src/auction_watch/sources/castells.py:860-934 | any permutation of the rows gives the same lots, issues and receipt |
| CastellsGroups.PublishedExactly | src/auction_watch/sources/castells.py:860-924 | a lot is published iff some row yields it and no row disagrees on its identity |
| CastellsGroups.AuthorityIsEarned | src/auction_watch/sources/castells.py:846-934 | a receipt is authoritative iff the auction's kind was readable, the walk reached the end of the list, and every entry of every page is a lot that raises no error, no two of which disagree |
| CastellsGroups.AuthoritativePublishesAll | src/auction_watch/sources/castells.py:846-934 | under an authoritative receipt every entry the server listed for the auction is published |
| CastellsGroups.LastDayLotFailsItsAuction | src/auction_watch/sources/castells.py:860-959 | an auction in which one lot closes on the last day of the calendar counts as failed |
| CastellsDiscovery.CanonicalAuctions | src/auction_watch/sources/castells.py:286-318 | one auction per valid identity in ascending order, standing for it the least record by canonical text; disputed identities are exactly those with two different records; nameless records are counted |
| CastellsDiscovery.CanonicalMeans | src/auction_watch/sources/castells.py:286-318 | the same position by position: identities ascend, every valid one is there, no record of an identity has a smaller canonical text than the auction that stands for it, disputed is what two different records name, and the nameless are counted |
| CastellsDiscovery.RecordOrderIsIrrelevant | src/auction_watch/sources/castells.py:286-318 | any permutation of the records gives the same auctions, disputes and count |
| CastellsScan.AddedIsAssembled | src/auction_watch/sources/castells.py:1006-1025 | adding a scanned auction keeps groups and receipts aligned, lots distinct and counted, and issues silent iff every receipt is authoritative |
| CastellsScan.ScanAuctions | src/auction_watch/sources/castells.py:1005-1025 | the inventory is what the scans of the relevant auctions add up to, each with its evidence; disputed auctions never keep authority; it raises iff some relevant record cannot be made a group |
| CastellsScan.SkippableMeans | src/auction_watch/sources/castells.py:981-993 | an auction is skipped iff its title names something the user ignores or, undisputed, names art and nothing else |
| CastellsScan.CollectedTells | src/auction_watch/sources/castells.py:1005-1025 | the issues and warnings reported are exactly those of the auctions |
| CastellsScan.CollectedReceipts | src/auction_watch/sources/castells.py:1006-1018 | receipts are kept as they are, those of disputed auctions without authority and with one error more |
| CastellsScan.SummaryMeans | src/auction_watch/sources/castells.py:240-259 | the summaries count, for each category, the auctions concerned and the nameless records |
| CastellsScan.UniqueDiagnostics | src/auction_watch/sources/castells.py:1028-1037 | one diagnostic of each kind that occurred, and none invented |
| CastellsResult.Partition | src/auction_watch/sources/castells.py:981-993 | every discovered auction is scanned or skipped, never both |
| CastellsResult.Scan | src/auction_watch/sources/castells.py:961-1058 | for every behaviour of server and clock: unless time is up, the home page is read iff it is readable; the result meets the engine's contract within the request budget, reports every discovered auction, and claims authority iff nothing went wrong; it raises iff the home page was read and some relevant stand-in record cannot be made a group: its link or closing time raises, or its text cannot be encoded |
| CastellsResult.RaisingRecords | src/auction_watch/sources/castells.py:829-845 | told from the page alone, when canonical text tells its records apart: a scan raises iff some record that stands for its auction, is not dismissed by its title, and if undisputed is not titled as irrelevant art, cannot be made a group |
| CastellsResult.LastDayRaises | src/auction_watch/sources/castells.py:836-845 | a home page with one untitled auction, as the page parser yields it, closing on the last day of the calendar makes the scan raise |
| CastellsResult.LoneSurrogateRaises | src/auction_watch/core/models.py:101-129 | so does one with an untitled auction whose category is a lone surrogate |
| CastellsResult.ScanSource | src/auction_watch/runner.py:332-355 | what the engine gets from Castells is the scan, or a failed result iff that raises; it always conforms, never claims omission authority, and still conforms after quarantine against any active inventory |
| CastellsResult.AuthoritativeScanIsComplete | src/auction_watch/sources/castells.py:961-1058 | if a scan claims authority, then for every relevant auction the server's whole list was read: the first page at the list's address, each where the one before leads, the last short and without a link, all as the server answered; and every entry of every page is among the reported lots |
| Utf8.DecodeEncode | src/auction_watch/core/identity.py:14-15 | decoding undoes encoding for every string of Unicode scalar values |
| Utf8.EncodeDecode | src/auction_watch/core/identity.py:29-55 | only the shortest, well-formed byte sequence of a text is accepted: encoding undoes decoding |
| Percent.UnescapeEscape | src/auction_watch/core/identity.py:14-15 | unescaping undoes escaping, and an escaped component holds no separator |
| Percent.EscapeUnescape | src/auction_watch/core/identity.py:29-55 | escaping undoes unescaping exactly on the canonical spelling |
| Percent.EscapeMeans | src/auction_watch/core/identity.py:14-15 | a byte is kept or written as a percent sign and two upper-case hexadecimal digits |
| Percent.PlainCharacters | src/auction_watch/core/identity.py:14-15 | the characters kept are letters, digits and four marks |
| Validation.StripTrims | src/auction_watch/core/validation.py:21-31 | stripping yields trimmed text and changes exactly what is not trimmed |
| Validation.StripMeans | src/auction_watch/core/validation.py:21-31 | stripping takes white space off both ends and nothing else |
| Validation.ExternalIdMeans | src/auction_watch/core/validation.py:21-31 | an identifier is trimmed text of 1 to 256 characters without control characters |
| Validation.SlugMeans | src/auction_watch/core/validation.py:13-18 | a slug is lower-case letters, digits and single inner hyphens |
| Identity.DecodeEncodedKey | src/auction_watch/core/identity.py:18-55 | decoding a key gives back the source and the trimmed ids it was made from |
| Identity.DecodesOnlyItsEncoding | src/auction_watch/core/identity.py:29-55 | a key decodes to an identity iff it is that identity's own encoding and the identity is trimmed |
| Identity.EncodingIsInjective | src/auction_watch/core/identity.py:18-26 | two identities share a key iff they agree after trimming |
| Identity.AcceptedKeys | src/auction_watch/core/identity.py:29-55 | the accepted keys, without reference to the encoder: three canonical components spelling a slug and two valid trimmed ids |
| Identity.KeyExample | src/auction_watch/core/identity.py:18-26 | a key spelt out |
| Cleaning.CollapsedIdIsItself | src/auction_watch/sources/parsing.py:17-18 | cleaned text is trimmed, so an identifier validated from it equals it |
| Cleaning.FieldsMean | src/auction_watch/sources/parsing.py:17-18 | a blank separates the words on either side of it |
| Cleaning.AfterLastMeans | src/auction_watch/sources/castells.py:696-700 | the cursor is what follows the last separator, or the whole identity |
| Ordering.TextLeqMeans | src/auction_watch/sources/castells.py:286-300 | texts are in order when one begins the other or has the smaller character where they first differ |
| Normalization.DedupeTerms | src/auction_watch/core/normalization.py:57-69 | the kept terms are exactly the first spellings of the non-blank terms, in order |
| Normalization.KeptOnce | src/auction_watch/core/normalization.py:57-69 | every non-blank term is kept exactly once |
| Normalization.ContainsMeans | src/auction_watch/core/normalization.py:43-54 | a term occurs iff its words stand one after the other among the words of the text |
| Normalization.WordsMeans | src/auction_watch/core/normalization.py:36-40 | words are what blanks separate |
| Matching.CollectHits | src/auction_watch/core/matching.py:33-73 | one loop yields the hits, the missing terms and the merged findings of a term list |
| Matching.MatchLot | src/auction_watch/core/matching.py:133-317 | the matcher's loops and early exits compute the specified evaluation |
| MatchingTheorems.FirstClosedGateDecides | src/auction_watch/core/matching.py:133-317 | with firing spelled out over the lot's texts and the first context rule of a term: a lot is accepted iff all ten gates are open, and otherwise its one rejection code is the first closed gate's |
| MatchingTheorems.ScoreIsNet | src/auction_watch/core/matching.py:196-262 | the score is two, three and five points a firing term of each kind, the weights of the firing boosts and one point a firing term in the title, less the weights of the firing risks, and never below zero |
| MatchingTheorems.ExclusionOnlyRejects | src/auction_watch/core/matching.py:133-317 | adding an exclusion rejects exactly the lots on which it fires and changes no other decision |
| MatchingTheorems.ResultsAreValid | src/auction_watch/core/models.py:463-544 | every evaluation of a profile with valid term lists passes the validators of the match result: distinct and non-blank terms, fields of listed terms, rejections exactly on rejected lots |
| MatchResults.ResultReports | src/auction_watch/core/matching.py:133-317 | what a result reports besides its decision: exactly the terms of its stage that fire, each with exactly the fields it occurs in, the required terms that do not, and the score |
| MatchingTheorems.ResultsListOwnTerms | src/auction_watch/core/matching.py:133-317 | a result lists no term that the profile does not |
| Profiles.ProfileRepository.Replace | src/auction_watch/persistence/repository.py:220-290 | the refusals in their order, and otherwise the new profile one revision on |
| Profiles.ReplacementMeans | src/auction_watch/persistence/repository.py:220-290 | a replacement succeeds iff it expects the stored revision and, for a system profile, stays that profile, locked, on a newer seed or with nothing changed but enabled flag, schedule and notification mode |
| Profiles.RefusalMeans | src/auction_watch/persistence/repository.py:220-290 | which refusal is given when |
| Profiles.SeedingMeans | src/auction_watch/persistence/repository.py:348-370 | a new seed is stored at revision one; a newer one replaces what was read, if still current, paused as it was |
| Profiles.DeletionMeans | src/auction_watch/persistence/repository.py:292-346 | a deletion succeeds iff the profile is a user's, at the expected revision, with no run in progress |
| Profiles.SystemProfileEvolves | src/auction_watch/persistence/repository.py:220-370 | over any sequence of creations, replacements, deletions and seedings a system profile is never deleted, keeps id and seed key, its seed version never falls, and at one version only enabled flag, schedule and notification mode differ |
| Profiles.UpgradeKeepsThePause | src/auction_watch/persistence/repository.py:348-370 | a seed upgrade acting on a stale read changes nothing or keeps the profile exactly as paused as it is now |
| Profiles.AtMostOneWinner | src/auction_watch/persistence/repository.py:256-278 | of any replacements expecting one revision at most one succeeds per life of the profile |
| Profiles.SystemHasOneWinner | src/auction_watch/persistence/repository.py:256-296 | for a system profile at most one ever succeeds |
| Profiles.SecondLifeSecondWinner | src/auction_watch/persistence/repository.py:292-346 | after deletion and re-creation the same expected revision wins a second time |
| Planner.FindChanges | src/auction_watch/notifications/service.py:71-106 | the loops compute the specified changes |
| Planner.ChangesLeadToCurrent | src/auction_watch/notifications/service.py:71-106 | reading the changes turns every opportunity's previous standing into the current one; a partial run turns nothing off and dismissed opportunities are not mentioned |
| Planner.ReportedChangesAreReal | src/auction_watch/notifications/service.py:80-106 | a new, changed or removed opportunity really is one |
| Planner.SilenceMeansNoChange | src/auction_watch/notifications/service.py:120-121 | nothing is reported iff nothing undismissed changed |
| Planner.Plan | src/auction_watch/notifications/service.py:56-161 | an item results iff the mode wants it, and planning the same run and profile again adds none |
| Planner.DedupeKeysTellApart | src/auction_watch/notifications/service.py:149-150 | dedupe keys name run and profile unambiguously |
| Planner.DedupeKeyText | src/auction_watch/notifications/service.py:149-150 | the key spelt out |
| Prices.FormattedAs | src/auction_watch/sources/remotes.py:96-99 | an amount prints with points between groups of three and, unless whole, a comma and two decimals |
| Prices.GroupEveryThree | src/auction_watch/sources/remotes.py:96-99 | the separator stands before every third digit from the right and nowhere else |
| Prices.CentsMeans | src/auction_watch/sources/remotes.py:96-99 | cents are the nearest, and the even one of two equally near |
| Prices.SeparatorsMean | src/auction_watch/sources/parsing.py:29-34 | points group beside a comma or before exactly three digits, and are decimal otherwise; a comma is decimal |
| Prices.LocalMarksIgnored | src/auction_watch/sources/parsing.py:25-40 | an amount reads the same with either local mark or without, and a negative one is none |
| Prices.LabelExamples | src/auction_watch/sources/remotes.py:102-104 | two labels spelt out |
| Prices.UngroupGroup | src/auction_watch/sources/parsing.py:29-34 | removing the separators undoes the grouping of any digits |
| Prices.LabelReadsBack | src/auction_watch/sources/remotes.py:96-104 | a printed price reads back as the same amount iff it is in local currency with at most two decimals; it is never off by more than half a hundredth, and a foreign label is never read as an amount |

## Left out

- The adapter's pool of two threads is modelled as group scans one after the other; checking and counting a
  request against the budget is one step there as here.
- CastellsPaging.CastellsSource.Get: asked before any deadline was set, which only a call from outside `scan`
  can do, the model answers with the time-out that error is classified as.
- CastellsLots.ParseRow: relies on an amount being read only from a non-empty label, as the decimal parser ensures.
- CastellsDiscovery.CanonicalAuctions: records are compared as JSON values, so 1 and 1.0 count as different,
  which Python's comparison would call equal.
- Worker.RunLedger.Run: the engine's run is one step on the run rows and the lease; its separate transactions are
  steps of their own in `Worker.Move`, and several engines competing for the lease are the events of `Lease`.
- Parsing the home page's GXState, JSON text, URL joining and encoding, hashing and the text of fingerprints:
  parameters.
- The redaction of keys in decoder diagnostics: the safe key is a parameter, and that a diagnostic always passes
  its own text validation is not proved.
- A text that the group or lot model refuses for a lone surrogate is one that the parameter `encodable` rejects; that
  a stored text can be encoded by the database is not modelled.
- Unicode normalisation, case folding and character classes: parameters of the matcher, the codec and the adapter.
- Daylight saving: a profile's local time is a fixed offset of whole minutes.
- Retirement and omission read the clock once per call, where the code reads it once per row.
- The tables of groups, sources, reviews and ignored titles, and user states: keyed writes without a hard property.
- Deleting a profile also deletes its queue, match and outbox rows; the histories of those tables are modelled
  without that deletion, so the queue and outbox bounds are per life of a profile.
- Profiles.ProfileRepository.Replace: an unknown source id makes the database refuse the write and roll back; the model leaves that refusal out.
- The wording of errors, explanations, labels and mails, and the run status summary, with the rule that a run
  whose status is failed stores no snapshot.
- Remotes' paced price requests, RSS and JSON-LD parsing, and the Bavastro, Prado, TodoRemates and generic
  adapters: easier than Castells and without a property of their own beyond it.
- HTTP routes, web pages, configuration, migrations, SQL and storage settings, SMTP, logging and scripts: plumbing.
