# Verification of the ride-dispatch service

A Dafny model of the service's ride-assignment protocol over Redis, of its worker pool, its
WebSocket hub, its request budget, and of the road router and driver simulator in its demo page,
with proofs of what they are for: no driver and no rider is ever in two rides, dispatch picks the
nearest free driver, no job is lost, routes are shortest and stay on the roads.

`dafny verify dfyconfig.toml` checks everything.

## How it is laid out

| module | what it holds |
|---|---|
| `Keyspace` | the Redis tables with a deadline for each key, and every script and command as a function of the store |
| `RedisServer` | the same scripts as imperative methods on tables updated in place, each proved equal to its function |
| `Clients` | every request as a process: which command it sends next, and where it goes with the reply, keeping stale copies |
| `System` | all interleavings of any number of clients, the clock, lost replies, commands not sent, commands sent twice |
| `Ownership` | what each script keeps, and its exact outcomes, on stores with sound ownership |
| `History` | the theorems over whole runs: exclusivity, monotone records, resets, cancels, arrivals |
| `Claims` | what the leaky lock and busy flag still guarantee: paid-for claims, and requests without a rider (legacy requests) made in time |
| `Counterexamples` | families of runs, for every configuration, that show which assumptions the run theorems cannot do without |
| `Dispatcher` | the Go methods without interference, proved against a one-look specification |
| `Solo` | the processes of `Clients`, run alone, meet the same specifications, and every process ends |
| `RoadGraph`, `Simulator`, `Fleet` | the demo page's router, its movement along routes, and a driver through any sequence of events |
| `WorkerPool` | the pool's bounded channels, workers and collector under every schedule |
| `Realtime` | the hub's registry and fan-out |
| `Budget` | the deduction script, with Lua's doubles |

A run (`System.IsRun`) starts from the empty store. A step moves the clock forward, admits a
client, or lets one client's pending command happen. A command may be answered, applied with its
reply lost, not applied at all, or applied and sent once more. A client that is never chosen again
has paused for ever or crashed. The environment is made of clients too: REST status writes,
heartbeats, location updates, demo lock clearing. Between two commands of one request anything may
happen, and every key may expire.

## Assumptions

- Key lifetimes are whole seconds, and at least one (`Config.Valid`, stated only where it is used): the
  commands are given exact durations and the scripts whole seconds, and the model has one lifetime for both.
- The lifecycle manager, the driver service and the dispatcher share one status key per driver and
  one lock key per driver.
- `FreshRun`: a ride is not created under a request ID that already had one, which a live record
  rules out anyway; what is assumed is that an ID is not created again after its record expired.
  Theorems that need it say `FreshRun`, the others say `IsRun`. Without it, a run is exclusive throughout
  exactly if no reset's clearing script ever reaches a ride that is en route
  (`History.ExclusiveExactly`), and records are still monotone and settled once while they live.
  `Counterexamples.ReuseBreaksExclusivity` shows, in every configuration and for any driver and riders,
  that two rides can be en route with one driver without it.
- `PacedRun`, for requests without a rider (legacy requests) only: a claim finishes before its own
  lock's deadline, request IDs in flight are distinct, and the demo does not clear locks. Expired IDs
  may be created again.
- IDs are not blank; the handlers see to that, and a request without an ID is given one.
- The list of nearby drivers is whatever the geo index returned, nearest first. Results hold for
  every list, and for every distance function in the arrival check.
- Coordinates are reals. `nearlyEqual` is equality, and Haversine distance is a parameter.
- In the simulator an assigned driver's ride is en route or arrived; a driver without a pickup route roams.

## Where the code and the promise part ways

- The lock is meant to keep a legacy request off a driver that a ride owns. It does not when the
  request has the ID of a ride that is en route: a cancel of that ride deletes the request's lock as its
  own, and another ride may take the driver before the request claims it. In paced runs, the requests
  that come in while no ride is en route under their ID are safe, and those that come in while one is are
  not; one look at the record on arrival tells them apart. This takes records that last at least as long
  as locks, as they do by default (24 hours and 10 seconds). Where locks last longer, a claim that lost
  its lock to a cancel may create its ride under the expired ID, and then no legacy request is safe
  unless expired IDs are not created again. `Counterexamples.EnRouteAtAdmissionDecides` is the exact
  condition on arrival, lifetimes and IDs.
- The clearing scripts of a reset compare the pointers and not the ride's status. That is why an expired
  ID created again can cost an en-route ride its driver.
- A budget of exactly 2^53 is not conserved: a cost of 2^53 + 1 rounds down to it and is allowed. No
  larger one is either. Exactly the smaller ones are conserved by every history
  (`Budget.ConservedExactlyBelow`). Of the budgets up to 2^53, one deduction is miscounted exactly for
  that budget and that cost (`Budget.DeductIsExact`), and so are repeated calls of one cost
  (`Budget.EqualCallsExactly`).
- `resetRider` clears the rider's pointer when its record is missing. In every run with fresh IDs the
  pointer is gone by then, and the script finds nothing (`History.ClearRiderFindsNothing`).
- An owned driver is not always busy: a delayed write of `available` may come after the claim.
  Exclusivity is proved without it.

## Model

| member | source | states |
|---|---|---|
| RedisServer.Redis.SetLockIfAbsent | internal/dispatch/lock.go:67-84 | SETNX takes the lock with a fresh deadline only where no live lock is, and nothing else changes |
| RedisServer.Redis.Unlock | internal/dispatch/lock.go:20-29 | only the owner deletes the lock; an expired lock and a foreign lock get different answers |
| RedisServer.Redis.ExtendLock | internal/dispatch/lock.go:31-36 | the answer is 1 exactly for the owner of a live lock, which then lasts a full lock lifetime from now; nothing else changes |
| RedisServer.Redis.SetBusy | internal/driver/driver.go:21-31 | available turns busy, offline and busy are refused with different answers |
| RedisServer.Redis.SetStatus | internal/driver/driver.go:79-102 | going offline deletes the key; busy and available are written as such, for a status lifetime from now; nothing else changes |
| RedisServer.Redis.Heartbeat | internal/driver/driver.go:121-141 | a live status keeps its value and lasts a status lifetime from now, an expired one is not revived |
| RedisServer.Redis.GetStatuses | internal/driver/driver.go:195-218 | exactly the listed drivers are answered for, each with its live status or offline |
| RedisServer.Redis.ClaimLease | internal/server/demo_handler.go:38-60 | the lease changes hands only when free, expired, its own or forced; the listed locks are deleted only with the lease, and the answer is how many of them were live |
| RedisServer.Redis.CreateRide | internal/dispatch/lifecycle.go:76-104 | each refusal has its exact cause and changes nothing; success writes record and both pointers with one deadline and nothing else |
| RedisServer.Redis.CancelRide | internal/dispatch/lifecycle.go:106-139 | refusals change nothing; success needs a matching en-route ride that owns its driver with no foreign lock, and frees status, lock and pointers and keeps the record as cancelled for a new lifetime |
| RedisServer.Redis.ArriveRide | internal/dispatch/lifecycle.go:141-159 | refusals change nothing; success marks the record arrived and gives record, both pointers and the busy status a new lifetime each |
| RedisServer.Redis.RefreshDriver | internal/dispatch/lifecycle.go:161-175 | answers 1 exactly if the owner's record is this driver's and not cancelled, and then writes busy for a status lifetime; otherwise nothing changes |
| RedisServer.Redis.ClearRider | internal/dispatch/lifecycle.go:177-182 | only a pointer to that very request is deleted |
| RedisServer.Redis.ClearReset | internal/dispatch/lifecycle.go:184-192 | each pointer is deleted only if it names that request |
| Ownership.ExecuteKeepsBacked | internal/dispatch/lifecycle.go:76-192 | no script or command leaves a dangling pointer: its record is live, active, of that driver or rider, and lasts as long |
| Ownership.CreateKeepsExclusive | internal/dispatch/lifecycle.go:76-104 | a create never takes a driver or rider from an en-route ride, and its own ride holds both |
| Ownership.CancelKeepsExclusive | internal/dispatch/lifecycle.go:106-139 | a cancel never strips another en-route ride, whatever arguments it is given |
| Ownership.ArriveKeepsExclusive | internal/dispatch/lifecycle.go:141-159 | an arrive never strips another en-route ride |
| Ownership.ExecuteKeepsExclusive | internal/dispatch/lifecycle.go:76-192 | every command keeps each en-route ride holding both pointers at its own deadline, if clearing scripts come only for settled rides |
| Ownership.TickKeepsBacked | internal/dispatch/lifecycle.go:100-102 | expiry at any moment keeps pointers backed and rides exclusive |
| Ownership.KeysLiveTheirTime | internal/dispatch/lifecycle.go:100-102 | a lock, a status or a ride set now is live until exactly its lifetime from now |
| Ownership.ExclusiveUnlessStripped | internal/dispatch/lifecycle.go:177-192 | a command ends exclusivity exactly if it is a clearing script that still finds a pointer of its en-route ride |
| Ownership.EnRouteRidesAreDisjoint | internal/dispatch/lifecycle.go:88-103 | two live en-route rides share neither driver nor rider |
| Ownership.CreateOutcome | internal/dispatch/lifecycle.go:76-104 | each answer has one cause; success is exactly rider, request and driver all free |
| Ownership.CancelOutcome | internal/dispatch/lifecycle.go:106-139 | a live en-route ride is refused a cancel exactly when another request holds the driver's lock |
| Ownership.ArriveOutcome | internal/dispatch/lifecycle.go:141-159 | a live en-route ride is refused an arrive exactly when its driver is not busy |
| Ownership.CancelFreesBoth | internal/dispatch/lifecycle.go:126-138 | after a cancel, pointers and lock are gone and any unused ID can be created for the same pair |
| Ownership.RefreshOutcome | internal/dispatch/lifecycle.go:161-175 | refresh answers 1 exactly for a driver with a live owner, who is then busy; otherwise nothing changes |
| System.ReachableIsBacked | internal/dispatch/lifecycle.go:93-103 | no dangling ownership in any reachable state of any interleaving, even with request IDs reused |
| System.LocationSeesOwner | internal/dispatch/dispatcher.go:309-315 | in any interleaving a location update that sees an owner ends with the driver busy and never offers it; otherwise it goes on having changed nothing |
| System.LocationAskedFirst | internal/dispatch/dispatcher.go:309-323 | in any interleaving a location update lengthens or revives a status only after it has seen, since it came in, that the driver had no owner |
| System.AnythingMayComeIn | internal/dispatch/dispatcher.go:62-324 | every request, location, status write, heartbeat and lock clearing may come in at any time, and the clock may move on by any amount |
| System.AnybodyMayMove | internal/dispatch/lifecycle.go:380-382 | any unfinished client may be next, and its command may be answered, applied unanswered, not applied, or applied and sent again |
| History.ExclusiveExactly | internal/dispatch/lifecycle.go:76-192 | any run, whatever IDs are reused, is exclusive throughout exactly if no clearing script reaches an en-route ride that still has a pointer it names |
| History.RecordIsMonotone | internal/dispatch/lifecycle.go:106-159 | in any run, a record keeps request, rider, driver and pickup while it lives, and moves only out of en route |
| History.SettledOncePerLife | internal/dispatch/lifecycle.go:110-159 | in any run, between two cancel or arrive scripts that succeed on an ID its record was gone |
| History.ActiveIsHeld | internal/dispatch/lifecycle.go:141-192 | in any run, an en-route or arrived record has both pointers for as long as it lives itself, unless a clearing script has named it in its life |
| History.RunsAreExclusive | internal/dispatch/lifecycle.go:76-192 | where no expired ID is created again, in every reachable state each en-route ride holds its driver and rider with its own deadline, so neither has two |
| History.RunIsMonotone | internal/dispatch/lifecycle.go:106-159 | where no expired ID is created again, from any moment of a run to any later one a record keeps its trip, moves only out of en route, and does not come back |
| History.SettledOnce | internal/dispatch/lifecycle.go:110-159 | where no expired ID is created again, at most one cancel or arrive script ever succeeds on a request ID |
| History.ResetNeverStrips | internal/dispatch/lifecycle.go:441-472 | when a reset's clearing script runs its ride is not en route, and every en-route ride keeps both pointers |
| History.ClearRiderFindsNothing | internal/dispatch/lifecycle.go:449-452 | when a reset found the record missing, clearing the rider changes nothing |
| History.RefusalMeansSettled | internal/dispatch/lifecycle.go:456-462 | a state conflict on the reset's cancel means the ride is settled and nothing was changed |
| History.CancelReaches | internal/dispatch/lifecycle.go:355-398 | a cancel, however stale its copy, is refused on a live en-route ride exactly for a foreign lock |
| History.CancelFrees | internal/dispatch/lifecycle.go:355-398 | after a successful cancel in any run, both pointers and the lock are gone and a new ride for the pair can be created |
| History.ArriveReaches | internal/dispatch/lifecycle.go:400-430 | an arrive, however stale its check, is refused on a live en-route ride exactly because the driver is not busy |
| History.ArrivedWasNear | internal/dispatch/dispatcher.go:247-272 | every record ever arrived had its driver's stored position within the threshold of its pickup at an earlier moment |
| Claims.ClaimsConserved | internal/driver/driver.go:21-31 | over any stretch of any run, claims are bounded by offers plus the initial availability |
| Claims.ClaimsArePaidFor | internal/driver/driver.go:21-31 | from the empty store, claims plus a live available status never exceed the writes of available |
| Claims.ReleaseBetweenClaims | internal/dispatch/dispatcher.go:288-324 | two claims of a driver always have a write of available between them |
| Claims.ClaimsAndOffersMean | internal/driver/driver.go:21-31 | a counted claim takes an available driver and leaves it busy, a counted offer leaves it available |
| Claims.CommandKeepsLock | internal/dispatch/lifecycle.go:110-133 | only its own unlock, the cancel of an en-route ride under its ID, or lock clearing ends a live lock |
| Claims.CreateNeedsRoom | internal/dispatch/lifecycle.go:88-102 | an unowned driver comes to be owned only by a create for that driver |
| Claims.PacedRunIsInTime | internal/dispatch/dispatcher.go:153-233 | in paced runs, IDs in flight stay distinct, and every claim for a rider holds its lock or has a recorded ride, whose record outlasts the claim if records last as long as locks |
| Claims.DueIsNear | internal/dispatch/lock.go:67-84 | no claim is ever given longer than a lock lifetime from now |
| Claims.StepKeepsHolding | internal/dispatch/lifecycle.go:110-133 | a claim for a rider loses its lock only to the cancel of its ID's ride, whose record then outlasts the claim |
| Claims.OthersKeepUnowned | internal/dispatch/lifecycle.go:85-91 | while a claim holds the lock of an unowned driver nobody else can record a ride on it: without the lock the create script refuses |
| Claims.LegacyStaysSafe | internal/dispatch/dispatcher.go:153-233 | in a paced run with records that last as long as locks (or without ID reuse), a legacy request that came in with no ride en route under its ID keeps its lock until it is done, and the driver it is about to claim stays unowned |
| Claims.LegacyTakesUnowned | internal/dispatch/dispatcher.go:153-233 | when such a request succeeds, its driver has no live durable owner and the lock is its own |
| Counterexamples.LegacyReuseTakesOwned | internal/dispatch/lifecycle.go:110-133 | in every configuration, for every ID, driver and riders, a paced run in which a legacy request that came in under an en-route ride's ID is given a driver another ride owns |
| Counterexamples.LateCreateTakesOwned | internal/dispatch/lifecycle.go:85-91 | where locks last longer than records, a paced run in which any legacy request is given a driver owned under an expired ID created again |
| Counterexamples.EnRouteAtAdmissionDecides | internal/dispatch/dispatcher.go:153-233 | the legacy requests of an ID all take only unowned drivers exactly if they come in while no ride is en route under it, and records last as long as locks or no expired ID is created again |
| Counterexamples.ReuseBreaksExclusivity | internal/dispatch/lifecycle.go:463-471 | in every configuration, a run in which an expired ID is created again, a paused reset strips that ride, and any other ride is then en route with the same driver |
| Dispatcher.FirstEligible | internal/dispatch/dispatcher.go:123-143 | the first driver of the list that is available, unlocked and unowned |
| Dispatcher.DispatchPicksNearest | internal/dispatch/dispatcher.go:62-150 | the driver given is the first eligible one, and nobody is found exactly when nobody is eligible |
| Dispatcher.FailedDispatchLeavesAll | internal/dispatch/dispatcher.go:163-220 | a dispatch that assigns nobody leaves every lock, status, owner, rider and record value as it was |
| Dispatcher.DispatchRecords | internal/dispatch/dispatcher.go:175-232 | a dispatch that assigns sets exactly that driver's lock and status and, with a rider, the two pointers and a record of the request, the rider, the driver and the pickup asked for, or else the location |
| Dispatcher.DispatchWrites | internal/dispatch/dispatcher.go:158-222 | the same to the last key and deadline |
| Dispatcher.DispatchDecides | internal/dispatch/dispatcher.go:62-150 | each outcome has its exact cause: an engaged rider, nobody eligible, a pickup off the earth, a request that exists, or success |
| Dispatcher.DispatchKeepsOwnership | internal/dispatch/dispatcher.go:62-150 | dispatch keeps pointers backed and rides exclusive |
| Dispatcher.Dispatcher.Active | internal/dispatch/lifecycle.go:334-353 | the rider's live record is returned, exactly for a rider whose live pointer names a live, uncancelled record |
| Dispatcher.Dispatcher.ReleaseDriver | internal/dispatch/dispatcher.go:287-296 | the driver becomes available again unless another request holds the lock, and then nothing changes |
| Dispatcher.Dispatcher.TryAssignDriver | internal/dispatch/dispatcher.go:153-233 | moves on exactly for an ineligible driver, looking as if it never tried; otherwise the outcome and the whole store are as specified |
| Dispatcher.Dispatcher.FindAndAssign | internal/dispatch/dispatcher.go:62-150 | the loop over a status snapshot gives the nearest eligible driver or the exact reason why not; a failure leaves everything as it was, success writes lock, status, pointers and a record with the pickup asked for |
| Dispatcher.Dispatcher.CancelAssignment | internal/dispatch/dispatcher.go:235-243 | on any store, missing, settled and protected rides are told apart and nothing changes; otherwise driver, lock and rider are freed and the record is kept as cancelled |
| Dispatcher.Dispatcher.ArriveAssignment | internal/dispatch/dispatcher.go:245-272 | on any store, each refusal has its exact cause and changes nothing; otherwise record, both pointers and the busy status start a new lifetime |
| Dispatcher.Dispatcher.ResetRider | internal/dispatch/lifecycle.go:441-472 | refused exactly for an en-route ride that is protected, which on exclusive stores is a foreign lock, and then nothing changes; otherwise the rider's ride is cancelled or its pointers are cleared |
| Dispatcher.Dispatcher.UpdateDriverLocation | internal/dispatch/dispatcher.go:298-324 | an owned driver ends busy, an offline one without owner comes back available, any other keeps its status; whichever it is lasts a status lifetime from now, and nothing but the position changes |
| Solo.RankFalls | internal/dispatch/dispatcher.go:62-150 | whatever the replies, every process of the model comes nearer to its end with each |
| Solo.SnapshotKeepsTail | internal/dispatch/dispatcher.go:113-127 | skipping by the one-shot status snapshot never changes what dispatch does |
| Solo.DispatchAlone | internal/dispatch/dispatcher.go:62-233 | the interleaved process of FindAndAssign, run alone, ends with the specified outcome and store |
| Solo.CancelAlone | internal/dispatch/lifecycle.go:355-398 | the interleaved process of a cancel, run alone, does what the method does |
| Solo.ArriveAlone | internal/dispatch/dispatcher.go:247-272 | the interleaved process of an arrival, run alone, does what the method does |
| Solo.ResetAlone | internal/dispatch/lifecycle.go:441-472 | the interleaved process of a reset, run alone, does what the method does |
| Solo.LateCancel | internal/dispatch/lifecycle.go:364-397 | a cancel with a copy of any age: each answer has its exact cause in the store it reaches |
| Solo.LateArrive | internal/dispatch/lifecycle.go:400-430 | an arrival with a copy of any age: each answer has its exact cause in the store it reaches |
| Solo.LateReset | internal/dispatch/lifecycle.go:456-471 | a reset whose ride was settled meanwhile goes on to clear the pointers; a missing record or a protected ride ends it |
| Solo.LateResetRead | internal/dispatch/lifecycle.go:355-362 | the reset's own cancel reads again: a missing record ends it, a settled ride is cleared |
| Solo.LocationAlone | internal/dispatch/dispatcher.go:298-324 | the interleaved process of a location update, run alone, ends with the position stored and the status that owner and earlier status call for |
| Solo.PutStatusAlone | internal/driver/driver.go:96-101 | a status write ends with that status for a status lifetime |
| Solo.PutOfflineAlone | internal/driver/driver.go:91-94 | going offline ends with no status |
| Solo.FreeLocksAlone | internal/server/demo_handler.go:52-57 | lock clearing deletes exactly the listed locks |
| Solo.ExtendAlone | internal/dispatch/lock.go:107-127 | an extension lengthens exactly an own live lock |
| Solo.BeatAlone | internal/driver/driver.go:121-141 | a heartbeat lengthens a live status and reports an offline driver |
| Solo.ConflictAlone | internal/dispatch/dispatcher.go:205-215 | a claim whose driver another ride took gives its lock back and leaves the driver busy for that ride, or available if it is gone again, before the next candidate |
| Solo.RecordConflict | internal/dispatch/dispatcher.go:204-206 | that is where a driver conflict of the create script leads |
| Solo.FailureReleases | internal/dispatch/dispatcher.go:165-184 | a Redis error before the claim gives the lock back and is reported |
| Solo.RecordFailureReleases | internal/dispatch/dispatcher.go:216-219 | an error of the create script gives the lock back and sets the driver available, unless the lock has passed to another request, and is reported |
| Solo.FailureElsewhere | internal/dispatch/dispatcher.go:157-219 | any other Redis error ends the request, or does not stop it from giving up or moving on |
| RoadGraph.StraightIsShortest | internal/server/demo/index.html:2028-2033 | no path is shorter than the distance along the axes |
| RoadGraph.CrossingStreets | internal/server/demo/index.html:2098-2107 | a legal path between two avenues pays the detour of some street |
| RoadGraph.CrossingAvenues | internal/server/demo/index.html:2108-2118 | a legal path between two streets pays the detour of some avenue |
| RoadGraph.ClosestRoadCoordinate | internal/server/demo/index.html:2035-2039 | a road coordinate at least as near to the target as any other |
| RoadGraph.NearestRoadPickup | internal/server/demo/index.html:2054-2066 | a road point no further away, as the crow flies, than any road point |
| RoadGraph.RouteThrough | internal/server/demo/index.html:2068-2078 | appending without repeats and dropping the start keeps a route through corners legal, its end and its length |
| RoadGraph.StaysOnRoads | internal/server/demo/index.html:2123-2129 | the final check decides legality of the whole route |
| RoadGraph.BuildPickupWaypoints | internal/server/demo/index.html:2080-2131 | between any two road points the route is legal, ends at the pickup, is shortest of all legal paths and has at most three hops; the second throw is unreachable |
| Simulator.RoundTrip | internal/server/demo/index.html:1956-1977 | inside the viewport projecting an unprojected point gives it back |
| Simulator.CornersMatch | internal/server/demo/index.html:1585-1590 | the corners of the road grid are the corners of the map's bounds, north up |
| Simulator.ProjectsIntoView | internal/server/demo/index.html:2367-2387 | projection lands in the viewport from anywhere on earth |
| Simulator.TowardsCovers | internal/server/demo/index.html:2192-2194 | moving a fraction of a hop covers that fraction of its length and leaves the rest |
| Simulator.WaypointRoute.AdvanceAlongWaypoints | internal/server/demo/index.html:2173-2207 | a call stays on the roads, covers a full step or the hop that is left, and is finished exactly at the last waypoint |
| Simulator.Follow | internal/server/demo/index.html:2173-2207 | repeated calls finish the route once the steps taken cover it, with one to spare for each waypoint |
| Simulator.SharesSumToTen | internal/server/demo/index.html:2224-2232 | the shares of up to ten segments are positive and sum to ten |
| Simulator.PickupRoute.constructor | internal/server/demo/index.html:2233-2245 | a new pickup route starts at the driver with ten ticks to go, or none when it is there |
| Simulator.TickCovers | internal/server/demo/index.html:2256-2258 | a tick covers an even share of its segment, and the last one all of it |
| Simulator.PickupRoute.AdvancePickupRoute | internal/server/demo/index.html:2248-2277 | one tick less each time, equal to the shares still to come, on the roads throughout, and at the pickup exactly at zero |
| Simulator.Drive | internal/server/demo/index.html:2209-2277 | every non-empty route reaches the pickup at the tenth tick and not before |
| Fleet.RectangleIsLoop | internal/server/demo/index.html:1946-1954 | a route rectangle, from any starting corner, is a ring of legal segments |
| Fleet.RectangleCorners | internal/server/demo/index.html:1946-1954 | its corners go clockwise from the one asked for |
| Fleet.ManhattanIsFramed | internal/server/demo/index.html:1597-1608 | on the demo's own map the outermost roads frame all others |
| Fleet.DemoNumbers | internal/server/demo/index.html:1592-1610 | the roads in pixels, the size of the map, the step and the ticks of the demo |
| Fleet.RejoinIsLegal | internal/server/demo/index.html:2296-2315 | the way back from any road point to any corner of the loop keeps to the roads and ends there |
| Fleet.NearestIndex | internal/server/demo/index.html:2289-2294 | a loop corner nearest to the start |
| Fleet.Driver.ShownOnRoad | internal/server/demo/index.html:3593-3643 | in every sound state the positions shown so far are on an avenue or a street, in view |
| Fleet.RoadsidePickup | internal/server/demo/index.html:1633-1638 | a rider anywhere gets a nearest road point as pickup, in view |
| Fleet.Move | internal/server/demo/index.html:3593-3643 | an assigned driver goes one tick nearer or holds where it arrived, any other goes one step along its way |
| Fleet.Happen | internal/server/demo/index.html:3593-3643 | what each event does to the driver, from any sound state, which it leaves sound and showing the driver's position |
| Fleet.Live | internal/server/demo/index.html:3593-3643 | over any sequence of ticks, assignments, cancels, seedings, resets and stale echoes, every position ever shown is on an avenue or a street, in view |
| Fleet.Driver.Echo | internal/server/demo/index.html:3545-3558 | a stale position may come back at any time and the driver stays sound |
| Fleet.Driver.Reset | internal/server/demo/index.html:2010-2026 | every route is dropped and the driver roams from the start of its loop |
| Fleet.Driver.AdvanceDriverRoute | internal/server/demo/index.html:2318-2365 | 22 pixels along loop or rejoin route, or as far as its next point, shown on a road; a rejoin route ends at its last point |
| Fleet.Driver.StartPickupRoute | internal/server/demo/index.html:2209-2246 | from the shown position, however stale, a shortest route of ten ticks to the pickup |
| Fleet.Driver.AdvancePickup | internal/server/demo/index.html:3615-3625 | a tick of an assigned driver is shown on a road and counts down |
| Fleet.Driver.ReleaseDriverToRoaming | internal/server/demo/index.html:2279-2316 | a released driver is routed by roads to its nearest loop corner and then goes on from there |
| WorkerPool.StepConserves | internal/server/worker.go:60-98 | no step loses, duplicates or makes up a job |
| WorkerPool.StepProgresses | internal/server/worker.go:60-98 | every step brings some job nearer to the collector |
| WorkerPool.StuckMeansDone | internal/server/worker.go:123-147 | no deadlock: a pool that cannot move has collected one result for each job |
| WorkerPool.SubmitAndWaitIsCorrect | internal/server/worker.go:123-147 | under every schedule a run has at most five steps a job and can only stop with every result collected |
| WorkerPool.CollectedSoFar | internal/server/worker.go:127-137 | at every moment the results collected are of distinct submitted jobs |
| WorkerPool.ResultsAreMade | internal/server/worker.go:69-85 | every result buffered or collected is what a processor returned for a job its worker held |
| WorkerPool.BuffersHold | internal/server/worker.go:37-48 | the channels never hold more than their size |
| WorkerPool.ChannelsKeepOrder | internal/server/worker.go:69-82 | workers are given the jobs in the order submitted, and results are collected in the order they were handed over |
| WorkerPool.NobodyIsHeldUp | internal/server/worker.go:60-98 | the submitter, any worker and the collector may move whenever their channel allows it |
| WorkerPool.SubmitAndWait | internal/server/worker.go:123-147 | the call returns, with exactly one result for each job |
| Realtime.Client.SendBytes | internal/realtime/client.go:258-267 | open: queued at the end below 256, dropped at 256; closed: refused at 256, refused or queued below; order is kept |
| Realtime.Client.HandleSubscribe | internal/realtime/client.go:188-206 | only riders subscribe; the answer joins the buffer and broadcasts stay in order |
| Realtime.Client.HandleUnsubscribe | internal/realtime/client.go:209-227 | only riders unsubscribe; the answer joins the buffer and broadcasts stay in order |
| Realtime.Client.Deliver | internal/realtime/client.go:131-135 | the writer takes the oldest message, and what was ever accepted stays in order |
| Realtime.CurrentAfter | internal/realtime/hub.go:114-157 | an event makes exactly the registered client current and ends exactly those it replaces or unregisters |
| Realtime.CurrentIsUnique | internal/realtime/hub.go:114-135 | an ID has at most one current client after any history |
| Realtime.FaithfulHolds | internal/realtime/hub.go:114-157 | the maps hold exactly the last registered client of each ID not unregistered since |
| Realtime.Hub.RegisterClient | internal/realtime/hub.go:114-135 | the newcomer holds its ID, whoever held it is closed, counters are the map sizes, nobody else is touched, and all broadcasts stay in order |
| Realtime.Hub.UnregisterClient | internal/realtime/hub.go:138-157 | only the client that holds its ID is removed and closed; a replaced one is left alone |
| Realtime.Hub.CloseAllClients | internal/realtime/hub.go:195-210 | every client ever registered is closed and the maps are empty |
| Realtime.Hub.HandleLocationBroadcast | internal/realtime/hub.go:160-192 | in any map order each open subscribed rider below 256 gets exactly one copy at the end, riders not subscribed or full and everybody else get none, a closed one gets one or none; every client's broadcasts stay in order |
| Realtime.Serve | internal/realtime/hub.go:76-111 | any action on sound connections leaves them sound, and adds exactly its own event to the history |
| Realtime.ServeAll | internal/realtime/hub.go:76-111 | after any history of connections, registrations, subscriptions, broadcasts, other messages, writes and stops, the maps, counters and closings are right for exactly that history, and every connection's broadcasts came in order, at most once each, within 256, each of a driver it was subscribed to when it was published |
| Budget.DoubleStaysAbove | internal/ratelimiter/scripts.go:14-15 | no integer of 2^53 or more reads below it, and only 2^53 + 1 reads equal to it |
| Budget.DeductIsExact | internal/ratelimiter/scripts.go:9-23 | of the budgets up to 2^53, a deduction is exact but for the cost 2^53 + 1 against 2^53 |
| Budget.BudgetConserved | internal/ratelimiter/scripts.go:9-23 | allowed costs and the remainder add up to the budget over any history, with the remainder never negative |
| Budget.ConservedExactlyBelow | internal/ratelimiter/scripts.go:14-20 | exactly the budgets below 2^53 are conserved by every history |
| Budget.EqualCalls | internal/ratelimiter/scripts.go:9-23 | n calls of equal cost c are allowed min(n, B / c) times, and the remainder is what they leave |
| Budget.EqualCallsExactly | internal/ratelimiter/scripts.go:9-23 | of the budgets up to 2^53, the count is right for all n exactly unless B = 2^53 and c = 2^53 + 1 |
| Budget.RateLimiter.SetBudget | internal/ratelimiter/ratelimiter.go:34-43 | negative amounts and empty keys are refused, others are set |
| Budget.RateLimiter.AllowAtomic | internal/ratelimiter/ratelimiter.go:65-85 | each answer has its cause, a missing key is refused, and the table changes only by an allowed deduction on that key |
| Budget.RateLimiter.Allow | internal/ratelimiter/ratelimiter.go:59-62 | allowed exactly when the atomic call allows; never for a missing key |

## Left out

- HTTP handlers, JSON, status codes, logging, health checks and `main`: plumbing around the protocol.
- The Redis client, GEO indexing and GEORADIUS: the nearby list is a parameter; errors of the geo index end a request before it touches any key.
- Haversine distance and the formatting and parsing of floats: the distance is a parameter, pickups are opaque.
- Position removal: a stored driver position is only ever overwritten here.
- Floating-point rounding and the tolerance of `nearlyEqual` in the demo page: coordinates are reals and compared exactly.
- Driver statistics by SCAN: keys may be returned more than once, so exact counts are not promised.
- The demo lease in interleavings: `RedisServer` has the lease script; runs have its lock clearing and the reset of each rider as steps of their own.
- Unexpected script answers and records that cannot be parsed: the scripts give no other answers and write what they read.
- Coordinate checks, blank driver IDs and unknown statuses at the edges of location and status updates: refused before any command is sent.
- The outcome -2 of the create script in `TryAssignDriver`, and a ride settled between the two reads of a reset in `ResetRider`: they cannot happen without interference; with interference they are branches of `Clients.Resume`.
- Headings, speeds and everything of the demo page that touches the DOM, fetch or sockets.
- The demo page's own self-checks of its routes (`validateDriverRoutes`, `validateRoadsidePickupGeometry`): what they check is proved for all routes.
- WebSocket pumps, timers, pings, JSON payload errors and the hub's channels; events are taken in the order the hub handles them.
- `WorkerPool.Shutdown`, `Stop` and cancelled contexts: they may drop results by design; a single submitter and collector use the pool.
- The results mutex of `SubmitAndWait`: only the collector appends while the caller waits.
- A processor that gives a result another job's ID, or never returns: a result remembers its job, and processing is one step.
- `GetBudget` and amounts beyond the range of a 64-bit integer; the key is taken as already trimmed.
