# Ride matching: a Dafny model and its proofs

This project models the part of the ride-matching service that decides who gets which driver, and
proves what that part is for: rides and drivers never disagree, whatever the interleaving, lock
expiry or crash.

## What is modelled

**The concurrent system** (`Protocol.dfy`). Any number of workers run `request_ride` (create, then
match), `match_ride`, `cancel_ride`, `complete_ride` and driver location updates, interleaved one
database statement or Redis command at a time. A worker's program counter carries its locals and its
open transaction. The state holds the committed `rides` and `drivers` rows, the lock table with expiry
times, a clock, and a log of events, returns and leases. The environment may let time pass, crash any
worker at any statement, make the lock deny or grant anything, register drivers and send new calls.
Row locks, entries of the partial unique index and idempotency-key slots are functions of the program
counters. On this system are proved:

| module | result |
|---|---|
| `Safety` | the inductive invariant, kept by every step without mentioning the lock; tables always agree |
| `Lifecycle` | statuses only advance, `driver_id` is written once, a driver is BUSY until its very ride ends, BUSY drivers and engaged rides are in bijection |
| `Idempotency` | keys are a write-once map; when a retry conflicts; the loser of a race gets the winner; a run where it is not compared |
| `Events` | no milestone is logged twice or without its committed transition, and without crashes none is missing |
| `LeaseSafety` | who may remove a lease; every lease taken is returned exactly once |
| `Exclusion` | while no lease expires under an open transaction, the index never rejects a matcher or makes it wait |
| `Progress` | waits follow one rank order, so nothing deadlocks; every run without new calls is finite |
| `Burst` | n matchers, m drivers: exactly min(n, m) distinct assignments, everyone else is told there is no driver |
| `Confluence` | one cancel against any number of matches of the same ride always ends CANCELLED, one complete of a MATCHED ride always ends COMPLETED |
| `Recovery` | leases of crashed workers run out, and then a lone match ends having picked the right driver |
| `Backstop` | what an index rejection, a missed UPDATE, an outage and a bound key lead to, exactly, and two runs of the model that the documentation rules out |
| `Locations` | serial location updates keep cell and zone right in every run; when a write breaks them, and a run in which one does |
| `Surge` | the exact price; how each commit moves the counts and the price of each zone; demands over all zones add up |

**The sequential code** (`LockStore`, `Persistence`, `CandidateSearch`, `Matcher`, `RideService`,
`Api`, `Metrics`). The same operations as imperative methods over classes: a Redis client, a database,
a SQLAlchemy session with its identity map, buffered attribute writes and `autoflush=False`, and the
metrics tracker. Between statements the methods let other clients run (`OthersRun`, `OthersCommit`);
about those, a method knows only what their contracts say, which is what
`Safety.OthersRespectHolds` proves of every step of everyone else. A database or Redis marked `quiet` has no
other client, and then the methods are proved to compute exactly what the specification says.
`Candidates`, `Ranking`, `Geo` and `Percentiles` hold the specifications and laws of the parts.

## Assumptions

- PostgreSQL at READ COMMITTED, as in section 13.2.1 of its documentation: each statement sees the
  committed state and its own transaction's writes, and an UPDATE blocked on a row re-evaluates its
  WHERE clause on the newest version. An UPDATE whose WHERE clause does not hold on its snapshot does not
  wait. A unique index is checked by the statement; a conflict with an open transaction waits for it. An
  aborted transaction releases everything at once. The key-share lock that a foreign-key check takes
  does not conflict with changing a driver's status. A statement that would wait is modelled as disabled.
- The ORM writes buffered attribute changes at the commit, only the columns that changed, and forgets
  what it loaded after a commit or rollback.
- UUIDs and lock tokens are never drawn twice; identifiers are compared only for equality, so they are
  numbers. Floats are reals. Candidates at equal distance may come in any order, as the database returns
  rows in any order.
- H3 disks are nested finite sets with only the centre at radius 0; the great-circle distance is a
  non-negative real. Neither is computed.

## Where the code and its documentation disagree

The model follows the code.

- `README.md:94-95` and the docstring `app/matching/matcher.py:23-28` say that a write rejected by the
  unique index is treated as a lost race and the next candidate is tried. The index is checked by the UPDATE at
  `app/storage/repositories/ride_repository.py:115`, outside the `try` around the commit, so the
  IntegrityError leaves `match_ride`. `Backstop.RejectionEndsTheCall` says exactly when,
  `Backstop.NextCandidateIsNotTried` gives a run, `Safety.CommitNeverRejected` shows that the handler
  around the commit is never taken, and `Exclusion.IndexNeverRejectsOrBlocks` when no rejection happens.
- `docs/chaos-testing.md:78-82` calls a lock orphaned after the commit inert. It is inert exactly while an
  active ride names the driver: `Backstop.BoundKeyMattersExactly`. If the ride ends within the TTL, the
  freed driver is skipped until the key expires: `Backstop.OrphanIsNotInert`.
- `app/services/ride_service.py:81-87` raises a conflict when a key is reused with different parameters,
  but the loser of an insert race is handed the winner's ride without a comparison
  (`app/services/ride_service.py:154-158`): `Idempotency.RaceLoserIsNotCompared`, with the exact condition in
  `Idempotency.ConflictExactly`.
- `app/observability/metrics.py:21-22` promises an exact count of the trailing minute's matches. It is
  exact if and only if no attempt that still counts has left the window (`Metrics.ThroughputExact`), which no window
  size rules out (`Metrics.FullWindowUndercounts`); a window with room left or with an oldest entry
  over a minute old is sure to be exact (`Metrics.WindowTellsExactness`).
- `app/api/drivers.py:40-43` derives cell and zone from the coordinates, but two overlapping location updates
  of one driver can leave both wrong (`Locations.OverlapLeavesOutOfStep`). A write that found, loaded and
  was asked for places in step leaves one in step, whatever the grid, if and only if the row it leaves is one of those
  three (`Locations.StaysInStepExactly`); without overlaps none is ever wrong
  (`Locations.SerialUpdatesStayInStep`).

## Model

| member | source | states |
|---|---|---|
| Safety.DriversMatchRides | app/matching/matcher.py:157-200 | in every reachable committed state a driver is BUSY exactly when one active ride names it and AVAILABLE exactly when none does, with crashes and a lock that may grant anything |
| Safety.StepKeepsInv | app/storage/repositories/ride_repository.py:84-116 | every step of every kind keeps the invariant: tables agree, keys are unique, no two open transactions hold the same row, index entry or key |
| Safety.CommitNeverRejected | app/matching/matcher.py:189-200 | a matcher's commit never violates the one-active-ride index, so the IntegrityError handler around it is never taken |
| Safety.EndingFindsDriverBusy | app/services/ride_service.py:220-225 | a cancel or complete always finds the ride's driver BUSY when it frees it |
| Safety.OthersRespectHolds | app/storage/repositories/ride_repository.py:97-107 | while a transaction is open nobody else's step changes the ride row it has locked or takes the driver it is claiming, and the tables stay in agreement |
| Domain.AssignAgrees | app/matching/matcher.py:162-175 | a match of a REQUESTED ride to a driver with a free slot keeps the tables in agreement |
| Domain.EndAgrees | app/services/ride_service.py:214-249 | ending a ride and freeing its driver keeps the tables in agreement, and the driver exists |
| Lifecycle.StepAdvances | app/storage/repositories/ride_repository.py:84-116 | no step moves a ride backwards, out of a terminal status, or changes its request or key |
| Lifecycle.RidesOnlyAdvance | app/services/ride_service.py:214-259 | over any stretch of any run a ride only advances and a recorded driver never changes |
| Lifecycle.DriverMeansMatched | app/api/rides.py:48-74 | a ride names driver d exactly when at some earlier point it was MATCHED to d, replayed requests included |
| Lifecycle.BusyUntilItsRideEnds | app/services/ride_service.py:214-249 | over any run a driver stays BUSY with the ride it was matched to while that ride is active, and the commit that ends that ride is what frees it |
| Lifecycle.BusyEqualsEngaged | app/storage/repositories/ride_repository.py:118-124 | the BUSY drivers are as many as the MATCHED or IN_PROGRESS rides, and BUSY plus AVAILABLE is every driver |
| Lifecycle.FleetChangesOnlyByRegistration | app/api/drivers.py:39-57 | no step but creating a driver changes AVAILABLE plus BUSY |
| Idempotency.OneRideForEveryReturn | app/services/ride_service.py:108-158 | all normal returns for a key, by any calls in any interleaving, give the same ride, the only committed one with that key |
| Idempotency.KeysAreWriteOnce | app/models/ride.py:76 | once a key backs a ride it backs exactly that ride for the rest of the run |
| Idempotency.ConflictExactly | app/services/ride_service.py:108-121 | a call conflicts exactly when its own lookup finds the key's ride with other parameters; with equal parameters it returns that ride |
| Idempotency.RefusedForItsKey | app/services/ride_service.py:129-145 | a known rider's INSERT is refused exactly when its key already backs a ride |
| Idempotency.RaceLoserGetsWinner | app/services/ride_service.py:145-158 | a call whose INSERT was refused for its key is answered, however much later it reads again, with the ride the key backs and never with the IntegrityError |
| Idempotency.RaceLoserIsNotCompared | app/services/ride_service.py:154-158 | a run in which a caller gets the ride of a different request under its key |
| Events.EventLogSound | app/matching/matcher.py:205-214 | per ride at most one RIDE_REQUESTED, one DRIVER_ASSIGNED and one of RIDE_CANCELLED and RIDE_COMPLETED, each matching what the table records |
| Events.EventLogComplete | app/services/ride_service.py:160-169 | once every call has returned and none has crashed, the log reports every ride's request, its driver and how it ended |
| LeaseSafety.LeaseRemovedOnlyByOwnerOrTime | app/redis/lock.py:45-68 | a bound lease disappears only by its owner's release or by expiry, so a stale release never frees a successor |
| LeaseSafety.ReachableTokens | app/redis/lock.py:55-60 | no two holders share a token, a token fits one key, and no key's expiry is more than the TTL ahead |
| LeaseSafety.EveryLeaseReturnedOnce | app/matching/matcher.py:215-218 | a call that ended without crashing has released every lease it took with its own token, and exactly once |
| Exclusion.IndexNeverRejectsOrBlocks | app/matching/matcher.py:126-218 | while no lease expires under an open transaction and the lock is honest, the index check of a matcher's UPDATE passes at once, amid any traffic and crashes |
| Progress.WaitsClimb | app/matching/matcher.py:162-190 | every wait is on a transaction strictly further along: ride row, then driver slot, then driver row |
| Progress.DeadlockFree | app/storage/database.py:18 | in every reachable state with an unfinished worker some worker can take its next statement |
| Progress.RunsAreFinite | app/matching/matcher.py:123-227 | without new calls the system executes at most a fixed number of further statements, however they interleave |
| Burst.BurstTheorem | tests/concurrency/test_driver_assignment.py:92-110 | n matchers of distinct rides and m AVAILABLE drivers in the pickup cell: every complete run without crash or lost lease has exactly min(n, m) successful calls |
| Burst.BurstOutcomes | app/matching/matcher.py:123-227 | every such call succeeds for its own ride or gets NoAvailableDriverError with its ride still REQUESTED; winners' drivers differ; although a contended candidate is skipped and never retried, a call fails only when every driver was given away |
| Confluence.CancelAlwaysWins | tests/concurrency/test_ride_lifecycle.py:7-30 | one cancel_ride against any number of match_ride calls on the ride: the cancel returns normally, the ride is CANCELLED and no driver is BUSY for it |
| Confluence.CompleteAlwaysWins | app/services/ride_service.py:236-259 | a complete_ride of a MATCHED ride that nobody else tries to end returns normally, the ride is COMPLETED and no driver is BUSY for it, amid any other traffic |
| Confluence.EndingAnswers | app/services/ride_service.py:191-201 | a cancel goes on from REQUESTED and MATCHED, a complete from MATCHED only; otherwise the call fails and changes nothing |
| Confluence.UnknownRideIsNotFound | app/services/ride_service.py:187-189 | ending a ride that does not exist raises RideNotFoundError |
| Recovery.LeasesRunOut | app/redis/lock.py:55-68 | from any reachable state, after the TTL without a new acquisition no lease is left |
| Recovery.LoneMatchSucceeds | app/matching/matcher.py:106-227 | a lone matcher of a REQUESTED ride with an AVAILABLE driver in reach is never stuck and ends having assigned a nearest driver of the stopping disk, and nothing else changed |
| Recovery.LoneMatchEnds | app/matching/matcher.py:106-227 | given 8n + max_ring + 5 statements, with n drivers registered, the lone matcher has returned the chosen driver |
| Recovery.CrashRecovery | tests/failure/test_worker_crash_recovery.py:125-164 | after any crashes, once live workers are done and the TTL has passed, a new match_ride is never stuck, and given its statements it has returned the chosen driver |
| Backstop.RejectionEndsTheCall | app/storage/repositories/ride_repository.py:109-116 | the index rejects a matcher exactly when another active ride names the driver; for the rest of any run the call then takes no further lease, changes nothing and can only end with the IntegrityError or crash |
| Backstop.MissedUpdateEndsTheCall | app/matching/matcher.py:169-187 | a matcher whose UPDATE finds the ride no longer REQUESTED takes no further lease, changes nothing and can only end with InvalidRideStateError or crash |
| Backstop.OutageEndsTheCall | app/matching/matcher.py:125-130 | a matcher that finds Redis unreachable tries no other candidate and can only end with LockingUnavailableError or crash |
| Backstop.NextCandidateIsNotTried | app/matching/matcher.py:169-175 | a run in which a call ends with the IntegrityError although its next candidate is AVAILABLE |
| Backstop.BoundKeyMattersExactly | app/matching/matcher.py:123-161 | a matcher that skips a bound key would have claimed the driver, had the key been free, if and only if no active ride names the driver; otherwise it would be where the skip brings it, with the same tables |
| Backstop.OrphanIsNotInert | docs/chaos-testing.md:78-82 | a run in which an orphaned lock makes a request fail although the only driver is AVAILABLE and nobody is matching |
| Matcher.MatchRide | app/matching/matcher.py:106-227 | whatever others commit meanwhile: it stops at the first candidate that is neither contended nor found taken, with that candidate's result, and says there is no driver only when every candidate found was one or the other; it commits nothing unless it returns a driver its own search found, and then exactly one assignment; it returns every lease; each contended candidate is counted once; undisturbed it settles the ride by the tables and leases it found |
| Matcher.TakeTurn | app/matching/matcher.py:123-218 | one candidate: skipped or refused without effect, or tried under its lock, which is given back on every path |
| Matcher.TryCandidate | app/matching/matcher.py:148-204 | skipped exactly when the committed row read by the re-check is not AVAILABLE; otherwise buffered BUSY, conditional UPDATE and commit amount to one atomic assignment or to no change, with nothing left pending |
| Matcher.UndisturbedMatch | app/matching/matcher.py:106-227 | with no contention and a target of at least 1 the call succeeds if and only if an AVAILABLE driver lies within max_ring, and no AVAILABLE driver of the stopping disk has a smaller distance from the pickup point than the one assigned |
| Matcher.FreeSlotMeansAvailable | app/models/ride.py:68-75 | a driver whose index slot is free for a REQUESTED ride is AVAILABLE, and the assignment keeps index and agreement |
| Matcher.FlushIsAssign | app/storage/database.py:18 | flushing one deferred BUSY beside the uncommitted MATCHED row commits exactly the assignment |
| CandidateSearch.Discover | app/matching/candidate_search.py:34-43 | with others committing between its queries, the dictionary holds exactly the drivers that the ring queries returned, up to the first ring that brought the target number, or the last |
| CandidateSearch.RingsMakeDisk | app/matching/candidate_search.py:37-43 | while the tables stand still, those are exactly the AVAILABLE drivers of the smallest disk reaching the target, or of the full disk |
| CandidateSearch.FindRankedCandidates | app/matching/candidate_search.py:19-45 | every driver gathered exactly once, in non-decreasing distance; undisturbed, every AVAILABLE driver of the stopping disk |
| CandidateSearch.RankCandidates | app/matching/ranking.py:12-22 | one pair per driver found, with the distance from the pickup point to where the driver is, in ascending order |
| Candidates.RingCompletesDisk | app/matching/candidate_search.py:38-41 | ring k adds to the drivers of disk k - 1 exactly the missing drivers of disk k |
| Candidates.ChosenExactly | app/matching/candidate_search.py:42-43 | the driver to assign depends on one stopping radius only: it is chosen if and only if it is nearest within it |
| Candidates.ChosenMeans | app/matching/candidate_search.py:34-45 | the chosen driver in full: AVAILABLE in the smallest disk around the pickup cell with the target number of AVAILABLE drivers, or in the largest, and no other such driver has a smaller distance |
| Candidates.ChosenExists | app/matching/candidate_search.py:34-45 | with a target of at least 1 there is a driver to choose if and only if one is AVAILABLE within max_ring |
| Geo.RingsPartitionDisk | app/matching/geo.py:19-34 | the rings up to k are pairwise disjoint and their union is the disk |
| Ranking.SortIsStable | app/matching/ranking.py:21 | the sort moves no candidate past another at the same distance |
| Ranking.SortKeepsDistinct | app/matching/ranking.py:17-22 | ranking lists no driver twice |
| Persistence.Session.AvailableIn | app/storage/repositories/driver_repository.py:59-70 | each AVAILABLE row of the cells once; drivers already loaded keep their objects |
| Persistence.Session.GetDriver | app/storage/repositories/driver_repository.py:37-47 | a plain read returns the object held, a fresh one the committed row |
| Persistence.Session.TransitionStatus | app/storage/repositories/ride_repository.py:84-116 | writes the row exactly when its status is a source and the index admits the result; otherwise nothing |
| Persistence.Session.InsertRide | app/storage/repositories/ride_repository.py:20-41 | inserts exactly when the identifier is new, the rider exists and the key is unused |
| Persistence.Session.RideByKey | app/storage/repositories/ride_repository.py:46-51 | finds a ride with the key, whatever its status, unless there is none |
| Persistence.Session.Commit | app/storage/database.py:18 | sends the buffered changes and commits them together, or refuses both when the index would be violated |
| Persistence.IndexIsAgreed | app/models/ride.py:68-75 | the index as checked row by row is the one-active-ride property of the whole table |
| RideService.CreateRide | app/services/ride_service.py:98-170 | whatever others commit meanwhile: a key taken at the lookup is compared; otherwise a free key, a new identifier and a known rider get exactly the row asked for; the loser of a race for a key gets the winner; it fails only if no ride has its key, and commits at most its own row |
| RideService.QuoteIsExact | app/services/ride_service.py:123-127 | the surcharge on a new ride times the AVAILABLE drivers of its zone (at least one) is the sensitivity times the zone's recent active rides, up to the cap |
| RideService.EndRide | app/services/ride_service.py:173-259 | cancels any ride not yet ended and completes a MATCHED or IN_PROGRESS one, in one commit that frees the driver the ride has then; otherwise not found or invalid, and nothing changes |
| RideService.EndingMeans | app/services/ride_service.py:214-259 | after a cancel the ride is CANCELLED, after a complete COMPLETED, its driver is AVAILABLE where it was, and no other row or column has changed |
| RideService.RetryFindsSameRide | app/services/ride_service.py:108-121 | at any later point of any run, an undisturbed retry returns the first ride, one with other parameters conflicts, and neither changes anything |
| RideService.QuoteLeavesOutItself | app/services/ride_service.py:123-127 | a quote taken after the insert would count one ride more |
| Api.RequestRide | app/api/rides.py:26-74 | answered with its ride, new or found, unless matching it raised something other than "no driver"; a match is tried exactly if the ride is REQUESTED after the first half, and counted once as matched, unmatched or error; at most one commit per half |
| Api.ResponseMeans | app/api/rides.py:57-74 | which attempts still give a 201 with the ride, and how each is counted |
| Api.RetryIsAnswered | app/services/ride_service.py:108-121 | an undisturbed retry whose ride is no longer REQUESTED is answered with that ride, tries no match and changes nothing |
| Api.MatchRequested | app/api/rides.py:57-74 | a match is tried exactly when the ride is REQUESTED, and recorded once whatever happens |
| Api.FreshRequest | app/api/rides.py:48-74 | an undisturbed first request always gets its ride, with a driver exactly when one was in reach, and changes nothing else |
| LockStore.Redis.Acquire | app/redis/lock.py:55-60 | grants a free key under a new token and the TTL, and never a bound one |
| LockStore.Redis.Release | app/redis/lock.py:63-68 | deletes the key exactly when it still holds this token |
| Metrics.MetricsTracker.Record | app/observability/metrics.py:93-99 | the window is always the last `size` attempts of all ever recorded and the failure counter counts them all |
| Metrics.MetricsTracker.RecordLockContention | app/observability/metrics.py:101-107 | counts one lost lock and touches nothing else |
| Metrics.MetricsTracker.TakeSnapshot | app/observability/metrics.py:109-130 | lifetime counts are exact, throughput is the window's matched attempts of the last 60 s and bounded by the true count, and the 50th, 95th and 99th percentiles of the retained latencies are ordered and within them |
| Metrics.ThroughputExact | app/observability/metrics.py:116-120 | throughput equals the true trailing-minute count if and only if no evicted attempt still counts |
| Metrics.TrailingCounts | app/observability/metrics.py:116-120 | throughput is the number of matched attempts at most 60 s old in the window |
| Metrics.FailuresCount | app/observability/metrics.py:98-99 | the failure counter is the number of unmatched attempts ever recorded |
| Metrics.WindowTellsExactness | app/observability/metrics.py:116-120 | with attempts in order of time, a window that has room left or whose oldest attempt is over 60 s old counts exactly |
| Metrics.FullWindowUndercounts | app/observability/metrics.py:21-22 | for every window size a history whose trailing-minute count the window misses by one |
| Metrics.SortKeepsLatencies | app/observability/metrics.py:121 | sorting loses and invents no latency |
| Percentiles.PercentilesOrdered | app/observability/percentiles.py:20-30 | percentiles are ordered like their arguments and stay within the data |
| Percentiles.CutPointsAscend | app/observability/percentiles.py:28 | the interpolated cut points ascend |
| Percentiles.RankIsInterpolated | app/observability/percentiles.py:28-30 | a percentile whose rank falls j points and delta hundredths into the data lies delta hundredths of the way from point j to the next |
| Percentiles.WholeRankIsDataPoint | app/observability/percentiles.py:28-30 | a percentile whose rank is whole is that data point |
| Surge.MultiplierMonotone | app/pricing/surge.py:48-54 | the price never falls with more demand or less supply |
| Surge.PriceIsExact | app/pricing/surge.py:48-54 | up to the cap the surcharge times the supply (at least one) is the sensitivity times the demand; beyond, the price is the cap |
| Surge.MultiplierRange | app/pricing/surge.py:48-54 | the price stays in [1, max], is 1 without demand, and is max exactly when sensitivity * demand >= (max - 1) * max(supply, 1) |
| Surge.SurgeFollowsLifecycle | app/pricing/surge.py:57-73 | create and match commits never lower any zone's price, cancel, complete and new drivers never raise one, and no other step but a location update moves one |
| Surge.CommitsMoveCounts | app/pricing/surge.py:57-73 | a new ride adds one demand in its own zone, a match takes one driver from the driver's zone, an ending undoes each where it belongs, a registration adds one driver; no other zone moves |
| Surge.DemandsAddUp | app/pricing/surge.py:76-89 | the zones reported are those of all recent rides, and on one snapshot their demands sum to the recent active rides that have a zone |
| Locations.UpdateLands | app/storage/repositories/driver_repository.py:72-83 | an update lands exactly where asked unless another one changed a column it does not write; statuses are never touched |
| Locations.StaysInStepExactly | app/storage/repositories/driver_repository.py:78-82 | a write over rows in step leaves cell and zone in step on every grid if and only if it leaves the row found, loaded or asked for |
| Locations.SerialUpdatesStayInStep | app/api/drivers.py:78-90 | in every run in which no two updates of one driver overlap, every driver's cell and zone are those of its coordinates |
| Locations.SerialUpdateLands | app/storage/repositories/driver_repository.py:72-83 | in such a run every update that commits leaves its driver exactly where it was asked to be |
| Locations.UpdateStarts | app/api/drivers.py:84-90 | an unknown driver is not found, an update to where the driver is returns at once |
| Locations.OverlapLeavesOutOfStep | app/storage/repositories/driver_repository.py:78-82 | a run from the empty system in which everything asked for is in step and two overlapping updates leave both cell and zone wrong |

## Left out

- FastAPI routing, schemas, the error envelope, `/health`, the WebSocket, the dashboard and static files: presentation.
- The event bus and its bounded queue: `emit` is an append to a log.
- H3 geometry and trigonometry: disks and distances are parameters of the model.
- The simulation package, load tests, connection-pool behaviour, latency listeners and migrations.
- Infrastructure failures after a commit (a failing `refresh`, Redis down at the release) and commits whose outcome is unknown: excluded, since a call can then raise after a durable change. A database error before the commit is modelled as a crash, which keeps the lease, where the source's `finally` returns it.
- The blind `update_status` methods, which have no caller, and the statuses IN_PROGRESS and OFFLINE, which nothing sets.
- The columns `matched_at`, `fare` and `updated_at`, and the mapping of an empty key header to no key.
- The surge quote in `Protocol`: any number, since nothing in the protocol reads it; `RideService` computes it.
- Nearest driver overall: the code ranks only within the disk at which it stopped.
- LockStore.Redis.Release: a Redis outage at the release, as above.
- Events.EventLogSound: an event may be missing, since a worker can crash between its commit and its event.
- Candidates.ChosenExactly: nearest within the stopping disk, as above, not nearest overall.
