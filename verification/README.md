# Verified model of AWS-Light

AWS-Light is a small container platform. This project models its control plane and its proxy in Dafny and proves what
they keep, over whole runs and for all inputs:

* the **reconciler**, which drives the service store, Docker's containers, the per-node resource ledger and the routing
  table towards a specification, with the scheduler it places replicas by and the rollout that runs beside it (`Nodes`,
  `Scheduler`, `World`, `Reconcile`, `ReconcileProofs`, `Convergence`, `Quiescence`, `Runs`; `Outdated`, `LateVisits`,
  `LateConvergence`, `Overwrites`, `Lineage`, `Edits` and `Platform` for acting on a record that was read earlier;
  `Rollout`, `Interplay`, `Batches` and `Orchestrator` for rollouts; `OwnedContainers`, `Restart`, `Traps`);
* the **proxy's byte handling**: header rewriting and the reader loops (`Headers`, `HeaderFields`, `HttpReader`);
* the **store cache** with its time to live and its eviction (`CachedStore`);
* **health, routing and balancing**: the probe hysteresis, the two routing tables and the round-robin balancer
  (`Routing`, `Health`, `LoadBalancer`);
* the **autoscaler**, the metrics that feed it, and **declarative apply** (`Autoscaler`, `ProxyMetrics`, `Applier`,
  `Differ`).

`Wrappers`, `Arithmetic` and `Selection` hold options, lists without repetition, facts about quotients, and what it
means that one list is selected from another.

## How to read it

Each component that changes state is a class whose methods follow the program's loops and branches; every method is tied
by its `ensures` to a function of the old state, and the theorems are lemmas about those functions. `World` is the
combined state of store, Docker, ledger and routes. `Accounted(w)` says that the ledger is exact: every replica in the
store has one claim (its node and its service's request), each node holds exactly the replicas claimed for it, its usage
is the sum of their requests, and the sum is within capacity. `RoutesMatch(w)` says that every service's routes are its
running replicas with an address, in store order, and that no route outlives its service; `Exact(w)` says both.

The functions that the program computes with are also characterised apart from their own names: by positions of lists
(`Selects`: all positions that hold something to keep, in order, and what each entry becomes), by fields, by characters
and by readings. `ServesIff` and `RoutesMatchIff` do so for the routes, `KeptSelects`, `StaleSelects`, `DeadSelects` and
`ObservedSelects` for what a pass keeps and drops, `CreateMeans` for a replica started, `BinPackPicks` and `SpreadPicks`
for the placement, `LookupMeans`, `RequestLines`, `ResponseLines`, `DecimalMeans` and `DigitsMean` for heads,
`TraceMoves` and `DecisionMeans` for the autoscaler, `AnswerAt` for the balancer, `UpdateMeans` for the routing tables,
`ContributionMeans` for the counters, and `ServiceMeans` and its neighbours for apply.

`Runs` lets the reconciler visit a service with the record that is stored at that moment. The program visits with the
record that was listed when the turn began. `Platform` has that listing in its state: the moves are a listing, a visit
with the next listed record, the removal of a batch by a rollout with copies it made earlier, the replacement of a whole
specification, and any other step in between. Its central result, `RunExactIff`, says for every such run that the state
stays exact all along if and only if every visit, every rollout removal and every edit was harmless when it came, and
`HarmlessMove` is a condition that could be checked just before it.

A rollout sleeps up to thirty times for each batch. In each sleep the others take any moves of `Platform`, visits with
listed records among them. `RunRollout` is proved to be a run of moves, its own with those of the sleeps. What it
promises about count, image and old ids depends on the sleeps: that they leave the count alone (`Calm`), leave the image
alone (`Steady`), bring no old id back (`Parted`). `Interplay` says of each move exactly when it leaves count and image
alone, and lifts that to the sleeps. What a rollout leaves of ledger and routes is decided by `HarmlessMove` again.

Conventions. CPU is counted in integer millicores and memory in integer megabytes. Stores return copies, so records are
values. One read-change-write of a store is one step, and so is one turn of a loop over a service, one probe with its
table update, one cache operation and one locked section of the metrics. Docker's answers, new ids, clock readings,
probe results, the way a network cuts a stream and the behaviour of other tasks are parameters over which the theorems
quantify. CPU and memory requests are assumed not to be negative, which nothing in the program checks; `HeldRefundIff`
says exactly when giving back a request of either sign is still right. Byte strings are sequences of characters. Times,
thresholds and rates are exact reals.

## Where claims one might expect are false

These are stated as exact conditions, with a witness where the failing family is not obvious.

* A replica is given back twice when someone acts on a copy of it after it is gone. Removing replicas by copies of any
  age keeps the ledger exact if and only if nothing is given back beyond what is held: `RemoveCopiesIff`. A visit with a
  record listed earlier does so if and only if, besides, it does not give routes to a service without a record:
  `LateVisitIff`, `VisitToNothing`. Runs that go wrong, from sound states by legal moves: a rollout removing what a pass
  has removed already (`RolloutRemovesTwice`, which ends with an overcommitted node), and a service deleted during a
  turn (`DeletedComesBack`).
* A visit with a listed record writes back the whole record when its look at Docker shows a difference, and so may undo
  what was written since. It leaves the stored count alone if and only if it sees no difference or the listed count is
  the stored one; the same for the image; and a deleted service stays deleted if and only if it sees no difference:
  `VisitLeavesIff`, `SpecKeptIff`. So a rollout can report completion with the old image and a count of zero:
  `RolloutUndone`.
* Accounting again after a restart looks neither at capacity nor at what is recorded as not running, and a dead replica
  found after a live one on its node takes from what the live one was charged: `RestartCharges`, `RestartIsExactIff`.
* Replacing a specification as a whole leaves ledger and routes right if and only if it keeps the name, asks for nothing
  negative, keeps the requests of a service that has replicas and keeps the port of one that has routes: `EditExactIff`.
* A negative wanted count is sliced from the end of the list, so a pass need not converge and a second one need not be
  idle: `OnePassConverges`, `SecondPassIsIdleIff`, `NegativeCountKeepsShrinking`.
* Heads between 61442 and 65536 bytes are accepted or refused depending on how the stream was cut:
  `ChunkIndependentIff`.
* An upstream host with a line break brings fields of its own into a request: `RequestIdempotentIff`,
  `OrderSurvivesIff`.
* Successes short of the success threshold do not reset the failure count, so "so many consecutive failures" is not what
  takes a replica out of service: `RouteableIffTrusted`, `OfferedIff`. Where a replica id is listed twice, the link
  between table and checker holds exactly as long as no failure threshold is met while another copy is healthy
  (`RunSafeIff`, with a run in `DuplicateIdsBreakSafety`), and the two routing tables agree exactly as long as each
  report meets `ReportAgrees` (`ReportAgreesIff`, `RefinementIff`, `RepeatedIdDisagrees`). The orchestrator's own ids
  are fresh, so with it neither occurs.
* The autoscaler's decision misnames its action for a service at its maximum that is told to go up and is a candidate to
  go down: `DecisionNamesActionIff`.
* The collector's deltas exceed the growth of a counter that went back: `DeltasAreGrowthIff`.
* A service that names a bucket, a database or a caller whose own manifest was refused is applied all the same:
  `StaysClosedIff`, `RefusedCallerDangles`, `RefusedBucketDangles`.

The command `aws-light diff` (`docs/operations.md:63`) suggests a comparison with what is deployed; the code never
fetches it (`aws_light/iac/applier.py:326-327`), so every diff it makes is a creation. The model follows the code of the
differ.

## Model

| member | source | states |
|---|---|---|
| Nodes.NodeManager.Allocate | aws_light/compute/node_manager.py:32-38 | a replica already held changes nothing; otherwise its request is added and it is listed last; a missing node is reported |
| Nodes.NodeManager.Deallocate | aws_light/compute/node_manager.py:40-47 | the clamped subtraction happens whether or not the replica is held; an unknown node is ignored |
| Nodes.NodeManager.constructor | aws_light/compute/node_manager.py:12-24 | unused nodes form an exact ledger of no claims |
| Nodes.AllocateFresh | aws_light/compute/node_manager.py:32-38 | placing an unheld replica on a node with room keeps the whole ledger exact and within capacity |
| Nodes.AllocateHeld | aws_light/compute/node_manager.py:34-35 | re-accounting a held replica, as every refresh does, leaves an exact ledger as it is |
| Nodes.DeallocateHeld | aws_light/compute/node_manager.py:40-47 | giving back a held replica keeps the ledger exact and subtracts its full request: the clamp at zero never fires |
| Nodes.RefundExactIff | aws_light/compute/node_manager.py:44-47 | giving back keeps a node exact if and only if the node held the replica or both clamped totals stay put |
| Nodes.HeldRefundIff | aws_light/compute/node_manager.py:44-47 | for requests of either sign, giving back a held replica keeps its node exact if and only if the request is at most the usage, so that the clamp stays idle, and what remains is within capacity |
| Scheduler.SelectNode | aws_light/compute/scheduler.py:27-72 | an error if and only if no node fits; otherwise a fitting node with the least key of the policy among all that fit; the next two rows say what that is |
| Scheduler.BinPackPicks | aws_light/compute/scheduler.py:27-44 | in the nodes' own fields: the chosen node has room, no node with room has less free CPU, none with as much less free memory, ties go to the smaller id, and there is none if and only if no node has room |
| Scheduler.SpreadPicks | aws_light/compute/scheduler.py:55-72 | likewise: no node with room holds fewer replicas, none with as many uses less CPU, none of these less memory, and ties go to the smaller id |
| Scheduler.BeforeIff | aws_light/compute/scheduler.py:43 | the order of ids: a proper beginning comes first, else the one that is less where they first differ |
| Scheduler.SelectionIgnoresListingOrder | aws_light/compute/scheduler.py:37-72 | the choice depends only on which nodes there are, because the last part of the key is the unique node id |
| Scheduler.SlotsMeaning | aws_light/compute/scheduler.py:28-30 | the slots of a node are the largest number of equal requests that fit on it together; requests of nothing have no limit |
| Scheduler.PlacementTakesOneSlot | aws_light/compute/scheduler.py:27-72 | under either policy a placement fails if and only if no slot is left anywhere, and otherwise uses up exactly one |
| Scheduler.NoPlacementBeatsSlots | aws_light/compute/scheduler.py:27-72 | no assignment of equal requests to nodes, greedy or not, places more than the total of slots |
| Routing.RoutingTable.UpdateService | aws_light/proxy/routing_table.py:31-45 | endpoints already listed keep their health bit, others bring their own, and the service keeps its place in the dictionary |
| Routing.RoutingTable.GetEndpoints | aws_light/proxy/routing_table.py:47-49 | the service's endpoints, none for an unknown service |
| Routing.RoutingTable.SetHealthy | aws_light/proxy/routing_table.py:51-57 | the first endpoint with the id, in dictionary order, is changed and nothing else |
| Routing.RoutingTable.RemoveService | aws_light/proxy/routing_table.py:59-61 | the service and its place are gone, the rest is as it was |
| Routing.RedisRoutingTable.UpdateService | aws_light/proxy/redis_routing_table.py:35-51 | same merge as in memory, taken as one step |
| Routing.RedisRoutingTable.GetEndpoints | aws_light/proxy/redis_routing_table.py:53-66 | the stored endpoints, none for a missing key |
| Routing.RedisRoutingTable.SetHealthyScript | aws_light/proxy/redis_routing_table.py:9-24 | every endpoint of the key with the id is changed; the script answers whether there was one and otherwise writes nothing |
| Routing.RedisRoutingTable.SetHealthy | aws_light/proxy/redis_routing_table.py:68-79 | the services are tried in the order listed and the first that has the id is the only one written |
| Routing.RedisRoutingTable.RemoveService | aws_light/proxy/redis_routing_table.py:81-82 | the key is gone, the rest is as it was |
| Routing.UpdateMeans | aws_light/proxy/routing_table.py:31-45 | in either table: an update lists what it is given, in order; an id listed before has the health bit last listed under it, any other the bit it brings; other services stay |
| Routing.SetFirstMeaning | aws_light/proxy/routing_table.py:51-57 | with unique ids, stopping at the first match changes every endpoint with the id and no other |
| Routing.SetAllMeaning | aws_light/proxy/redis_routing_table.py:68-79 | with unique ids, the Redis search has the same effect in whatever order the keys come |
| Routing.RedisRefinesMemory | aws_light/proxy/redis_routing_table.py:31-87 | for every history of updates, removals and health reports with unique ids, and every key order, both tables hold the same map |
| Routing.ReportAgreesIff | aws_light/proxy/redis_routing_table.py:68-79 | however often ids repeat, one health report leaves both tables equal if and only if both orders meet the same service first and every later copy there has that bit already, or they meet different ones and neither report changes anything, or nobody lists it |
| Routing.RefinementIff | aws_light/proxy/redis_routing_table.py:31-87 | however often ids repeat, the two tables are the same after every operation of a history if and only if every report met that condition when it arrived |
| Routing.RepeatedIdDisagrees | aws_light/proxy/redis_routing_table.py:14-20 | any unhealthy endpoint listed twice is a case in which the condition fails |
| Reconcile.SyncAgrees | aws_light/compute/orchestrator.py:632-642 | after a sync there are positions of the record, in order and namely all those of a running replica with an address, such that the k-th route has id, address and the service's port of the replica at the k-th of them; listed replicas keep their health bit, new ones start unhealthy |
| Reconcile.ServesIff | aws_light/compute/orchestrator.py:632-642 | routes are the computed ones, up to health, if and only if there are such positions |
| Reconcile.RoutesAgreeIff | aws_light/compute/orchestrator.py:632-642 | so the agreement that every later row speaks of is that one |
| Reconcile.SyncServes | aws_light/compute/orchestrator.py:632-642 | after a sync with any record, old or new, the routes serve it in that sense |
| Runs.RoutesMatchIff | aws_light/compute/orchestrator.py:632-642 | all routes match the store if and only if no route lacks a service, and each service's routes serve its record in that sense |
| Reconcile.SyncIdle | aws_light/compute/orchestrator.py:632-642 | syncing routes that already agree changes nothing, health bits included |
| ReconcileProofs.RefreshKeeps | aws_light/compute/orchestrator.py:321-378 | a refresh forgets exactly the running replicas whose container is not running, gives back exactly their claims, takes over Docker's addresses and leaves the routes in agreement with health kept |
| ReconcileProofs.RemoveKeeps | aws_light/compute/orchestrator.py:603-618 | removing a recorded replica by any copy of it, however old, drops that record, its container and its claim only; ledger exact, routes in agreement, health kept |
| ReconcileProofs.CreateKeeps | aws_light/compute/orchestrator.py:489-582 | a creation either changes nothing or appends one replica on a node with room; ledger exact, routes in agreement, health kept |
| ReconcileProofs.CreateMeans | aws_light/compute/orchestrator.py:489-582 | a successful attempt adds a running container and, at the end of the record, a running replica with the launched id, container and address, on the selected node and the wanted image; any other attempt changes nothing |
| ReconcileProofs.RemoveEachKeeps | aws_light/compute/orchestrator.py:286-305 | removing any recorded replicas of the service, by copies of any age, gives back exactly their claims and containers |
| ReconcileProofs.CreateFromKeeps | aws_light/compute/orchestrator.py:298-301 | any number of creation attempts, some refused by Docker, keep the ledger exact and append exactly the replicas started |
| ReconcileProofs.StartedCount | aws_light/compute/orchestrator.py:298-301 | when Docker refuses nothing, as many replicas start as were attempted or as slots were free, whichever is less, in the order supplied, under either policy |
| ReconcileProofs.SlotsAfter | aws_light/compute/orchestrator.py:298-301 | after the attempts, the free slots not used are still free |
| Convergence.PassUnfolds | aws_light/compute/orchestrator.py:269-319 | the pass with the stored record, with its re-read and its three ways to the list of running replicas, is: drop dead and stale replicas, scale what is kept, settle the status; LateVisits.LatePassUnfolds is the same for the listed records that the program visits with |
| Convergence.KeptSelects | aws_light/compute/orchestrator.py:321-378 | what a pass keeps: the running replicas of the record whose container runs, on the wanted image or on none recorded, in order, each under the address Docker reports if it reports one |
| Convergence.StaleSelects | aws_light/compute/orchestrator.py:286-297 | what it drops as stale: those on another image |
| Convergence.DeadSelects | aws_light/compute/orchestrator.py:331-341 | what it forgets: the replicas recorded as running whose container does not run |
| Convergence.ObservedSelects | aws_light/compute/orchestrator.py:326-370 | what a refresh leaves in the record: all others, running ones under Docker's address |
| Convergence.PassKeeps | aws_light/compute/orchestrator.py:269-319 | when the listed record is the stored one, as it always is if nobody else acts: whatever Docker answers and whatever count is wanted, a pass keeps the ledger exact and within capacity, ends with routes in agreement, touches no other service and leaves the specification alone; LateVisits.LateVisitIff and Overwrites.PassWrites are for any listed record |
| Convergence.OnePassConverges | aws_light/compute/orchestrator.py:269-305 | with the stored record and for any requests, nothing included, the pass keeps the live replicas on the wanted image (or none recorded), cut as Python slices, and starts as many more as are wanted or as there are slots; the wanted count is reached if and only if the slots suffice, or for a negative count if the slice empties the list; LateConvergence.LatePassConverges is for any listed record |
| Quiescence.SettledPassIsIdle | aws_light/compute/orchestrator.py:269-378 | a pass over a settled service changes neither store, ledger, containers nor routes |
| Quiescence.PassSettles | aws_light/compute/orchestrator.py:269-378 | one pass settles a service of reachable count, also when it ran out of capacity |
| Quiescence.SecondPassIsIdleIff | aws_light/compute/orchestrator.py:269-378 | with nothing changed in between, a second pass leaves the whole state as it is if and only if the wanted count is not negative or nothing was left to cut |
| OwnedContainers.RunKeepsOwn | aws_light/compute/orchestrator.py:538-582 | over every run, in any state, no two replicas of a service share a container, as long as Docker gives out no container id twice |
| OwnedContainers.SettlesAfterAnyRun | aws_light/compute/orchestrator.py:269-378 | so wherever a run of harmless moves has led from a sound platform, a visit settles a service in the sense of SecondPassIsIdleIff |
| Quiescence.NegativeCountKeepsShrinking | aws_light/compute/orchestrator.py:302-305 | with a negative wanted count, which nothing forbids, every pass drops that many replicas more until none is left |
| Runs.TeardownKeeps | aws_light/compute/orchestrator.py:261-267 | a teardown gives back exactly what the service's replicas held and removes its record, routes and containers |
| Runs.DeleteIsTeardown | aws_light/compute/orchestrator.py:846-862 | the two ways of deleting a service end in the same state |
| Runs.StepKeepsLedger | aws_light/compute/orchestrator.py:126-138 | every kind of step, container deaths and edits of count, image and status included, keeps the ledger exact and within capacity, where a visit uses the stored record |
| Runs.StepKeepsRoutes | aws_light/compute/orchestrator.py:632-642 | every kind of step, health reports included, keeps all routes in agreement with the store |
| Runs.RunsConserve | aws_light/compute/orchestrator.py:126-138 | over every run of such steps from an exact state: usage is the sum of the requests of exactly the replicas the store puts on a node, no node is over capacity, and every service's routes are, position by position, those of its running replicas with an address |
| Runs.StartIsAccounted | aws_light/compute/node_manager.py:12-24 | an empty platform is exact |
| Runs.ListedRecordsStayCurrent | aws_light/compute/orchestrator.py:126-138 | in a turn during which nobody else acts, the records listed before it are still the stored ones when each one's visit comes |
| Runs.VisitTouchesOnlyItsService | aws_light/compute/orchestrator.py:126-138 | visiting one service changes no other service's record |
| Outdated.RefundsAt | aws_light/compute/node_manager.py:40-47 | a series of equal refunds leaves each node with one clamped subtraction of the request times their number there, and with its list less the refunded ids |
| Outdated.RefundCopiesIff | aws_light/compute/node_manager.py:40-47 | refunding by copies keeps the ledger exact if and only if no node gives back for a replica that is gone, unless the request is nothing or the held ones among the copies are all that it is used by |
| Outdated.RemoveCopiesIff | aws_light/compute/orchestrator.py:603-618 | removing replicas by copies of any age keeps the routes in agreement, and keeps the ledger exact if and only if it is harmless in that sense |
| LateVisits.RefreshLate | aws_light/compute/orchestrator.py:321-378 | what a refresh with a record listed earlier does to store, containers, ledger and routes |
| LateVisits.VisitToNothing | aws_light/compute/orchestrator.py:632-642 | visiting with a record that listed no replica, after the service was deleted, leaves routes without a record |
| LateVisits.LateVisitIff | aws_light/compute/orchestrator.py:126-138 | a visit with a record listed earlier, pass or teardown, ends exact if and only if it gives back nothing twice and does not give routes to a service without a record |
| LateVisits.LatePassUnfolds | aws_light/compute/orchestrator.py:269-319 | a pass with a record listed earlier is: drop what is dead or stale of that record, scale what is kept of it to the listed count, settle the status |
| LateConvergence.LatePassConverges | aws_light/compute/orchestrator.py:269-305 | with a record listed earlier the pass converges to the listed count: it keeps the live replicas of that record, cut as Python slices, and starts as many more as were wanted or as there are slots on the ledger as it then is, right or wrong, on the listed image, or after stale replicas were removed on the stored one |
| Overwrites.PassWrites | aws_light/compute/orchestrator.py:372-375 | after a pass with any record, in any state at all: its service has the listed specification if the look at Docker showed a difference and the stored one if not, a missing service is there if and only if it showed one, and every other service is there with its own |
| Overwrites.VisitLeavesIff | aws_light/compute/orchestrator.py:130-136 | a visit with any record that is not being deleted leaves the stored count alone if and only if it sees no difference or the listed count is the stored one, the image likewise, and a missing service missing if and only if it sees no difference |
| Lineage.LatePassWrites | aws_light/compute/orchestrator.py:372-375 | a pass with a record listed earlier puts its service back if it was deleted, leaves the listed specification if the refresh saw a difference or the record was gone, else the current one, and overwrites a status set meanwhile; other services, old ids and containers are left alone |
| Lineage.PassKeepsNodes | aws_light/compute/orchestrator.py:269-319 | a pass with any record changes no node's identity or capacity |
| Platforms.ListIsSound | aws_light/compute/orchestrator.py:130 | listing keeps the platform sound: every listed record is, or was, its service's record |
| Edits.EditExactIff | aws_light/iac/applier.py:188-193 | replacing a specification, name and port included, leaves ledger and routes right if and only if the record stays under its own name, nothing negative is asked for, the requests change only without replicas and the port only without routes |
| Platforms.RemoveOldIff | aws_light/compute/orchestrator.py:465-466 | a rollout's removal between visits keeps the platform sound if it is harmless, and otherwise leaves the state inexact |
| Platforms.VisitIff | aws_light/compute/orchestrator.py:132-136 | so does the visit with the next listed record |
| Platforms.EditIff | aws_light/api/services.py:157-160 | so does the replacement of a whole specification |
| Platforms.MoveIff | aws_light/compute/orchestrator.py:126-138 | so does every move; listings and other steps are always harmless |
| Platforms.RunExactIff | aws_light/compute/orchestrator.py:126-138 | over every run in which listings, visits with listed records, rollout removals, deletions, edits of whole specifications and failures interleave in any way, each legal as far as the ones before were harmless, the state is exact all along if and only if every visit, removal and edit was harmless when it came, and is sound in the end then |
| Platforms.StartIsSound | aws_light/compute/node_manager.py:12-24 | an empty platform is sound |
| Platforms.TurnIsMoves | aws_light/compute/orchestrator.py:126-138 | the turn that the method computes, with others acting before each visit, is the run of the corresponding moves |
| Platforms.HarmlessTurnIsExact | aws_light/compute/orchestrator.py:126-138 | so a turn whose visits are harmless when they come ends exact, whatever happened between them |
| Platforms.QuietTurn | aws_light/compute/orchestrator.py:126-138 | if nobody else acts, the turn is the plain one over the listed records |
| Orchestration.Orchestrator.SyncRoutingTable | aws_light/compute/orchestrator.py:632-642 | the method computes the sync of the combined state, and the table then serves the record: one route for every running replica with an address, in order, with its id, address and the service's port |
| Orchestration.Orchestrator.ObserveReplica | aws_light/compute/orchestrator.py:326-370 | one turn of the observation loop: skip, forget and give back, or take over the address and re-account |
| Orchestration.Orchestrator.ObserveReplicas | aws_light/compute/orchestrator.py:326-370 | the observation loop computes the recursive refresh |
| Orchestration.Orchestrator.RefreshObservedReplicas | aws_light/compute/orchestrator.py:321-378 | the record is written back only if something changed, and the routes are synced in any case |
| Orchestration.Orchestrator.RemoveReplica | aws_light/compute/orchestrator.py:603-618 | container and request go even when the record is gone; the record, if any, loses every replica of that id |
| Orchestration.Orchestrator.CreateReplica | aws_light/compute/orchestrator.py:489-582 | no node or a refusal by Docker changes nothing; otherwise container, ledger, record and routes change together |
| Orchestration.Orchestrator.ReconcileService | aws_light/compute/orchestrator.py:269-319 | the method with its loops computes the reconcile function that the theorems are about |
| Orchestration.Orchestrator.TeardownService | aws_light/compute/orchestrator.py:261-267 | the method computes the teardown function |
| Orchestration.Orchestrator.DeleteService | aws_light/compute/orchestrator.py:846-862 | the method computes the deletion function; a missing service is left alone |
| Orchestration.Orchestrator.ReconcileAll | aws_light/compute/orchestrator.py:126-138 | over any listed records, with others acting before each visit, the loop computes the turn that the platform theorems are about |
| Orchestration.Orchestrator.WaitForReplacements | aws_light/compute/orchestrator.py:443-457 | between one and thirty sleeps, one after the other, in each of which the others take their moves; after every one but the last the service is there and fewer replicas than the batch has run under ids outside it, counted by position; unless it was the thirtieth or the service is gone, at least as many do after the last |
| Orchestration.Orchestrator.ReplaceBatch | aws_light/compute/orchestrator.py:436-466 | while the service lasts: a batch raises the count by its size, sleeps, lowers it by its size and removes the batch by the old copies; the count ends where it began but for what others added, and no id of the batch is listed |
| Orchestration.Orchestrator.RunRollout | aws_light/compute/orchestrator.py:405-481 | the rollout is a run of the platform, its own writes and removals with what others do in its sleeps, visits with listed records included. It reports completion if and only if the service is there after each sleep; then the batches are the old replicas in order, ceil(n / batch) of at most max(1, surge), progress adds up to exactly n, and the count ends at the start plus what others added in the sleeps: at the start, and never outside [start, start + batch], if no sleep changes it; with the new image if none changes that; and with no old id if none brings one back. From a sound state, ledger and routes are right all along if and only if every visit, removal and edit was harmless when it came. Before each batch is removed, in its own sleeps, as many running replicas outside it were there as it has, or thirty sleeps were over |
| Rollouts.ReplacementsCounted | aws_light/compute/orchestrator.py:450-457 | what the wait counts: the positions of the record with a running replica whose id is none of the batch's |
| Batches.ReplacesIds | aws_light/compute/orchestrator.py:459-466 | after a batch none of its ids is listed, and none of any given ids is back but by what others do in the sleeps |
| Batches.Continues | aws_light/compute/orchestrator.py:430-471 | from one batch to the next the rollout stands where it should: batches done in order and as large as possible, sleeps one after the other, count, image and ids as promised, moves legal and decisive for ledger and routes |
| Rollouts.ChainDrift | aws_light/compute/orchestrator.py:443-459 | over sleeps one after the other the count changes by exactly what each changes |
| Rollouts.CalmHasNoDrift | aws_light/compute/orchestrator.py:443-459 | sleeps that each leave the count alone, the service being there, add up to no change |
| Rollouts.MoveKeepsGood | aws_light/compute/orchestrator.py:465-466 | any harmless legal move that launches nothing under an old id leaves the platform sound and the rollout's copies copies of what the service had |
| Rollouts.OrderlyIff | aws_light/compute/orchestrator.py:405-481 | a rollout's moves are legal as far as they are harmless, and the state is exact all along if and only if they all are |
| Interplay.SpecKeptIff | aws_light/compute/orchestrator.py:372-375 | in any state, a move leaves the count of a service alone if and only if it heeds it: a visit of that service tears it down, sees no difference or listed the stored count, an edit or a write has that count, and the service is not created anew; the image likewise |
| Interplay.CountKeptAllAlongIff | aws_light/compute/orchestrator.py:443-459 | over every run, no move changes the count if and only if each heeds it when it comes |
| Interplay.MoveBringsNoneBack | aws_light/compute/orchestrator.py:372-375 | a move that launches none of the given ids, and does not write a record back that still has one alive, brings none of them back |
| Interplay.SoundBringsNoneBack | aws_light/compute/orchestrator.py:326-342 | in a sound state no listed record of a service that is there has an id alive that its stored record has lost |
| Interplay.ReconcilerIsCalm | aws_light/compute/orchestrator.py:443-459 | over any sleeps of a rollout: if each move of the others heeds the count when it comes, the count is left alone, and likewise the image, and the old ids; passes with listed records, deletions, other rollouts, edits and failures are among the moves |
| Interplay.ReconcilerIsTame | aws_light/compute/orchestrator.py:443-459 | what others do in a sleep, legally and launching no old id, leaves ledger and routes right all along if and only if it is harmless, and then leaves the rollout's copies usable |
| Restart.RefreshAllParts | aws_light/compute/orchestrator.py:321-378 | refreshing every service once is looking at every recorded replica in visiting order, whatever containers the earlier refreshes removed |
| Restart.RestartCharges | aws_light/compute/orchestrator.py:331-370 | from unused nodes, each node ends with exactly its live recorded replicas, charged at most what they ask for, and exactly that if and only if no dead replica that asks for something was found after a live one that does |
| Restart.RestartIsExactIff | aws_light/compute/orchestrator.py:321-378 | from unused nodes and any well-formed store with distinct ids, refreshing every service gives an exact ledger if and only if only running replicas are recorded, the live ones fit on every node together, and no dead one is found after a live one |
| Restart.FirstTurnRefreshes | aws_light/compute/orchestrator.py:126-138 | the first turn over settled services is that and nothing else |
| Traps.SecondRemovalExactIff | aws_light/compute/orchestrator.py:465-466 | removing a replica that is no longer recorded keeps the state exact if and only if it gives back nothing |
| Traps.RolloutRemovesTwice | aws_light/compute/orchestrator.py:465-466 | a rollout beside a listing and a visit: sound at the start, every move legal, whatever Docker answers and however often it polls; inexact in the end, and one more launch puts more on the node than it can hold |
| Traps.RolloutUndone | aws_light/compute/orchestrator.py:372-375 | a rollout of one replica beside a container failure and a visit with the record listed before it: sound at the start, every move legal, however often it polls; it runs to its end with the old image and a wanted count of zero |
| Traps.DeletedComesBack | aws_light/compute/orchestrator.py:130-136 | a run: listing, deletion, visit; sound at the start, every move legal, and in the end the deleted service is back and the state inexact |
| Headers.JoinSplit | aws_light/proxy/proxy_server.py:831-840 | joining the lines of a text gives the text back |
| Headers.RewrittenLines | aws_light/proxy/proxy_server.py:716-743 | the exact lines of a rewritten head: start line, the lines of what was added, survivors in order, the close line, two empty lines |
| Headers.RewrittenValue | aws_light/proxy/proxy_server.py:831-836 | which line a lookup in a rewritten head finds: start line first, then what was added, then the survivors, then the close line |
| Headers.RequestKeepsValues | aws_light/proxy/proxy_server.py:716-728 | a lookup of any name outside host and the hop-by-hop names gives the same before and after, for every head |
| Headers.ResponseKeepsValues | aws_light/proxy/proxy_server.py:731-743 | the same for responses, where Transfer-Encoding is kept too |
| Headers.RequestDroppedValues | aws_light/proxy/proxy_server.py:716-728 | a lookup of host finds the upstream, of connection finds close, of any other hop-by-hop name nothing, unless the start line has that shape |
| Headers.ResponseDroppedValues | aws_light/proxy/proxy_server.py:731-743 | a lookup of connection finds close, of any other dropped name nothing, unless the start line has that shape |
| Headers.RequestKeepsOrder | aws_light/proxy/proxy_server.py:716-728 | the surviving fields come out in their order, between the host line and the close line |
| Headers.ResponseKeepsOrder | aws_light/proxy/proxy_server.py:731-743 | the same for responses, with no line added before the close line |
| Headers.OrderSurvivesIff | aws_light/proxy/proxy_server.py:720-728 | nothing joins the surviving fields if and only if the added lines carry no surviving field |
| Headers.RequestFramed | aws_light/proxy/proxy_server.py:728 | the first CRLFCRLF of a rewritten request is its last four bytes, for every head with a line or with that shape itself |
| Headers.ResponseFramed | aws_light/proxy/proxy_server.py:743 | the same for responses |
| Headers.RequestIdempotentIff | aws_light/proxy/proxy_server.py:716-728 | rewriting twice equals rewriting once if and only if the head has no line or the host line brings in no surviving field |
| Headers.RequestIdempotent | aws_light/proxy/proxy_server.py:716-728 | in particular whenever the upstream host holds no CRLF |
| Headers.ResponseIdempotent | aws_light/proxy/proxy_server.py:731-743 | rewriting a response twice always equals rewriting it once |
| Headers.RewriteRequestHeaders | aws_light/proxy/proxy_server.py:716-728 | the loop computes the rewrite that the theorems are about |
| Headers.RewriteResponseHeaders | aws_light/proxy/proxy_server.py:731-743 | the loop computes the rewrite that the theorems are about |
| Headers.SearchHeaderValue | aws_light/proxy/proxy_server.py:831-836 | the search loop returns the value of the first line with the name, start line included |
| HeaderFields.NameMeans | aws_light/proxy/proxy_server.py:843-847 | the name of a line: it has a colon, and what is before its first one, trimmed of blanks, tabs and line ends and with capital letters made small; a line without colon has none |
| HeaderFields.LookupMeans | aws_light/proxy/proxy_server.py:831-836 | a lookup finds the trimmed rest of the first line of that name, or nothing if and only if no line has it |
| HeaderFields.RequestLines | aws_light/proxy/proxy_server.py:716-728 | the request that goes upstream, line by line: start line, host with decimal port, the fields in order whose name is none of the nine dropped ones, the close line |
| HeaderFields.ResponseLines | aws_light/proxy/proxy_server.py:731-743 | the response that goes back, line by line; Transfer-Encoding stays |
| HeaderFields.DecimalMeans | aws_light/proxy/proxy_server.py:721 | the decimal notation: digits that add up, at their places, to the number, without a leading zero; a minus sign for negative ones |
| HttpReader.StreamReader.ReadHttpHead | aws_light/proxy/proxy_server.py:664-679 | the loop computes the head, the bytes read beyond it and what is left, for any cutting of the stream |
| HttpReader.StreamReader.ReadFullResponse | aws_light/proxy/proxy_server.py:768-804 | the loops compute the rewritten head followed by exactly the announced bytes, or by everything, or fail |
| HttpReader.HeadOutcomes | aws_light/proxy/proxy_server.py:664-679 | for every cutting the head is exact, with no byte lost or repeated, or refused; exact whenever it ends within 61441 bytes or the stream has at most 65536, refused whenever it runs over 65536 |
| HttpReader.ChunkIndependentIff | aws_light/proxy/proxy_server.py:664-679 | the head read is the same for every cutting if and only if the stream is small or large in that sense |
| HttpReader.DigitsMean | aws_light/proxy/proxy_server.py:807-817 | a non-empty string of digits is the sum of its digits times powers of ten, anything else is no length |
| HttpReader.DigitsOfDecimal | aws_light/proxy/proxy_server.py:807-817 | reading back the decimal notation of a number gives the number |
| HttpReader.ContentLengthMeans | aws_light/proxy/proxy_server.py:807-817 | a head announces the value of its first Content-Length line, if that is a string of digits |
| HttpReader.ResponseExact | aws_light/proxy/proxy_server.py:768-804 | a stream that fits the limit, or whose head is within 61441 bytes, is relayed as the rewritten head plus exactly the next N bytes, an error if the stream is shorter, all of it without a length, for every cutting; one that ends before any CRLFCRLF is relayed as a rewritten head, or an error if it announces a body. N is the value, digit by digit, of the first Content-Length line |
| HttpReader.RefusedResponse | aws_light/proxy/proxy_server.py:773-774 | an empty stream and an over-long head are errors for every cutting |
| HttpReader.ContentLengthKept | aws_light/proxy/proxy_server.py:807-817 | rewriting a response keeps its announced length |
| HttpReader.RelayIsStable | aws_light/proxy/proxy_server.py:768-804 | what is relayed delimits itself: read again by the same code, under any cutting and with bytes following, it is relayed unchanged |
| CachedStore.TTLStoreCache.Create | aws_light/store/cached_store.py:21-37 | a cache exists if and only if the time to live is positive and the limit at least one |
| CachedStore.TTLStoreCache.FreshEntry | aws_light/store/cached_store.py:66-74 | an expired entry is dropped, a fresh one becomes the most recent and is returned |
| CachedStore.TTLStoreCache.Remember | aws_light/store/cached_store.py:76-83 | the entry becomes the most recent and the oldest ones beyond the limit go |
| CachedStore.TTLStoreCache.Get | aws_light/store/cached_store.py:39-47 | the new cache and the answer are those of the step function |
| CachedStore.TTLStoreCache.Put | aws_light/store/cached_store.py:49-51 | the store has the item and the cache its entry |
| CachedStore.TTLStoreCache.Delete | aws_light/store/cached_store.py:56-58 | neither store nor cache has the key |
| CachedStore.TTLStoreCache.Exists | aws_light/store/cached_store.py:60-64 | a fresh entry answers, otherwise the store does |
| CachedStore.SizeAndOrder | aws_light/store/cached_store.py:66-83 | on every run the cache holds at most the limit, in the order of last touches, each key once |
| CachedStore.RetainedKeyHits | aws_light/store/cached_store.py:66-83 | on every run, a key entered, not deleted since, not expired, with fewer than the limit of other keys touched since its own last touch, is answered from the cache with the value entered |
| CachedStore.PutIsServed | aws_light/store/cached_store.py:39-51 | after any run, a value put at time t is served, and its key exists, until t + ttl, whatever others write to the store, unless it is put again or deleted or as many other keys as the limit are asked for |
| CachedStore.BoundedStaleness | aws_light/store/cached_store.py:39-47 | on every run with arbitrary outside writes, a value got at time t is in the store now or was at some moment in (t - ttl, t]; an absent answer is current |
| CachedStore.ExistsStaleness | aws_light/store/cached_store.py:60-64 | the same bound for existence, and a negative answer is current |
| CachedStore.TransparentFrom | aws_light/store/cached_store.py:39-64 | from any coherent state, a cache whose held keys nobody else writes gives the answers of the bare store |
| CachedStore.Transparent | aws_light/store/cached_store.py:39-64 | without outside writes no sequence of operations tells the cache from the store |
| Health.HealthChecker.CheckReplica | aws_light/proxy/health_checker.py:60-129 | one probe changes counters, routeable set and table as the step functions say; a replica without an address is skipped |
| Health.TracksSuccess | aws_light/proxy/health_checker.py:74-84 | a success keeps counters and set in step with the history: failures since the last streak, successes modulo the threshold |
| Health.TracksFailure | aws_light/proxy/health_checker.py:107-113 | a failure does too |
| Health.RouteableIffTrusted | aws_light/proxy/health_checker.py:74-113 | for any interleaving of probes a replica is routeable if and only if some success streak reached its threshold and fewer than the failure threshold of failures came since the last one, for any integer thresholds |
| Health.HealthComesFrom | aws_light/proxy/routing_table.py:33-43 | a merged list marks as healthy only what was healthy before, when the new endpoints are not |
| Health.StaysSafe | aws_light/proxy/health_checker.py:74-113 | probes, re-syncs and removals with unique ids keep healthy-in-the-table within routeable |
| Health.HealthyImpliesTrusted | aws_light/proxy/health_checker.py:74-113 | from a fresh start, an endpoint the table lists as healthy belongs to a replica whose probe history is trusted |
| Health.OfferedIff | aws_light/proxy/health_checker.py:74-113 | on every run with unique ids an endpoint is healthy in the table if and only if, since its service last began to list it, a streak of successes was completed and no failure threshold was met after that |
| Health.ProbeSafeIff | aws_light/proxy/health_checker.py:107-113 | however often ids repeat, a probe keeps every healthy endpoint routeable if and only if, should it meet the failure threshold, no copy of the replica but the first is healthy |
| Health.RunSafeIff | aws_light/proxy/health_checker.py:74-113 | over every run with ids repeated in any way, healthy endpoints are routeable all along if and only if every such probe found no other copy healthy |
| Health.DuplicateIdsBreakSafety | aws_light/proxy/routing_table.py:51-57 | with an id listed twice, a failed replica stays listed as healthy |
| LoadBalancer.RoundRobinBalancer.HealthyReplicasForRequest | aws_light/proxy/load_balancer.py:21-32 | the answer and the counter are those of the step functions; an error leaves the counter alone |
| LoadBalancer.RoundRobinBalancer.NextHealthyReplica | aws_light/proxy/load_balancer.py:18-19 | the first of the same answer |
| LoadBalancer.AnswerIsRotation | aws_light/proxy/load_balancer.py:21-32 | an error if and only if no endpoint is healthy; otherwise exactly the healthy endpoints, each as often as listed |
| LoadBalancer.AnswerAt | aws_light/proxy/load_balancer.py:27-32 | the order of an answer: the healthy endpoints in the table's order, beginning at the one whose turn it is and going round, so the fallbacks are fixed too; the next request for the service begins one further |
| LoadBalancer.OffersOnlyTrusted | aws_light/proxy/load_balancer.py:21-32 | reading the table of any run of the health checker, the balancer offers only replicas with a trusted probe history |
| LoadBalancer.Fair | aws_light/proxy/load_balancer.py:27-32 | of m requests for a service with n healthy endpoints, mixed with any others and from any counter, each endpoint comes first m / n times, and once more exactly when its turn falls in the last incomplete round |
| Autoscaling.Autoscaler.EvaluateService | aws_light/autoscaler/autoscaler.py:54-88 | below the maximum, and with a reading above its up threshold, the stored count becomes the one read plus one; else, above the minimum, with both readings below their down thresholds and enough such evaluations in a row, the one read minus one; else it stays; the row of such evaluations is counted or forgotten; decision, event and collector reading likewise, and no other service is touched |
| Autoscaling.TraceMoves | aws_light/autoscaler/autoscaler.py:59-88 | on every metric history the count grows by one if and only if it is below the maximum and a reading is above its up threshold, shrinks by one if and only if it does not grow, is above the minimum, both are below their down thresholds and the block is complete, and stays otherwise |
| Autoscaling.DecisionMeans | aws_light/autoscaler/autoscaler.py:124-143 | each of the six decisions, in readings, thresholds, bounds and counter |
| Autoscaling.ActionMeans | aws_light/autoscaler/autoscaler.py:74-88 | the action, its new count and its new counter, in the same numbers |
| Autoscaling.Autoscaler.ApplyScale | aws_light/autoscaler/autoscaler.py:145-157 | the stored record, re-read, gets the new count; a service gone by then is left alone |
| Autoscaling.Autoscaler.PublishEvaluationIfChanged | aws_light/autoscaler/autoscaler.py:90-101 | an event goes out if and only if the decision differs from the last one, which is then remembered |
| Autoscaling.DecisionNamesActionIff | aws_light/autoscaler/autoscaler.py:74-88 | the announced decision names the action taken unless, exactly, a service at its maximum and above its minimum is told both ways |
| Autoscaling.DecisionNamesAction | aws_light/autoscaler/autoscaler.py:124-143 | so it always does when no down threshold is above its up threshold |
| Autoscaling.StaysWithin | aws_light/autoscaler/autoscaler.py:74-86 | on every metric history the count stays within the bounds it started in and is the start plus scale-ups minus scale-downs |
| Autoscaling.DownClosesBlock | aws_light/autoscaler/autoscaler.py:78-86 | a scale-down closes its own block of max(1, R) consecutive down-candidates, all others of which were only counted |
| Autoscaling.DownsAreRare | aws_light/autoscaler/autoscaler.py:78-88 | n evaluations scale down at most n / max(1, R) times |
| Autoscaling.MetricsCollector.Collect | aws_light/autoscaler/metrics_collector.py:23-37 | the rate is the non-negative growth since the last reading over the interval; a missing key reads as zero |
| Autoscaling.DeltasAreGrowthIff | aws_light/autoscaler/metrics_collector.py:27-32 | over any sequence of collections the deltas of a service add up to at least the growth of its counter, and to exactly that if and only if it never went back |
| ProxyMetrics.Metrics.Record | aws_light/proxy/proxy_server.py:153-178 | every counter grows by exactly what the request contributes to it |
| ProxyMetrics.Metrics.Take | aws_light/proxy/proxy_server.py:181-203 | the locked section takes everything and leaves nothing |
| ProxyMetrics.Pipeline | aws_light/proxy/proxy_server.py:207-233 | the queued increments add up, for every Redis counter, to what was taken |
| ProxyMetrics.Metrics.FlushTo | aws_light/proxy/proxy_server.py:180-234 | every Redis counter grows by what was buffered; returning early on a total of zero loses nothing |
| ProxyMetrics.RecordedAdds | aws_light/proxy/proxy_server.py:160-178 | the recording function adds each request's contribution to every kind of counter |
| ProxyMetrics.ContributionMeans | aws_light/proxy/proxy_server.py:160-178 | what a request contributes to each kind of counter, in its own fields: the ten seconds its time lies in, the service or the name for none, the decimal status, hundredths of milliseconds cut off toward zero, errors from 500 |
| ProxyMetrics.RunConserves | aws_light/proxy/proxy_server.py:153-234 | for every interleaving of records, flushes and executions in any order: for the total and each service, status, failure and time bucket, recorded = in Redis + in flight + buffered |
| ProxyMetrics.DrainedIsExact | aws_light/proxy/proxy_server.py:204-234 | with nothing buffered or in flight Redis holds exactly what was recorded |
| ProxyMetrics.CollectorSeesGrowth | aws_light/autoscaler/metrics_collector.py:27-32 | over every such run the deltas the autoscaler sees add up to the growth of the service's counter since its first reading |
| Applier.Applier.ValidateServiceBindings | aws_light/iac/applier.py:138-159 | the first missing bucket, else database, else caller, among names that neither exist nor are asked for |
| Applier.Applier.ApplySecret | aws_light/iac/applier.py:196-203 | the secret has the value, and the result says whether it was there; if an exception strikes, exactly the writes before it are done |
| Applier.Applier.ApplyOne | aws_light/iac/applier.py:90-136 | stores and results after one manifest of each kind; a refused reference changes nothing, and an exception anywhere ends it with one error result and what was written until then |
| Applier.Applier.Apply | aws_light/iac/applier.py:49-75 | stores and results after the whole list, with an exception or none for each manifest |
| Applier.InvalidMeans | aws_light/iac/applier.py:138-159 | a service is refused for the first bucket in its list that neither exists nor is asked for, else for the first such database, else for the first such caller, and accepted if and only if there is none |
| Applier.ServiceMeans | aws_light/iac/applier.py:161-194 | an accepted service has the manifest's fields, with the specification's labels over the metadata's; an existing one keeps status and replicas and answers updated, a new one is pending and answers created; a refused one writes nothing |
| Applier.BucketMeans | aws_light/iac/applier.py:205-211 | an existing bucket is left and answers unchanged, a new one answers created |
| Applier.DatabaseMeans | aws_light/iac/applier.py:213-232 | a database has the manifest's fields, keeps its container and answers created or updated |
| Applier.SecretsMean | aws_light/iac/applier.py:196-203 | after a list of secrets each name holds the value listed last for it, and other names what they held |
| Applier.SecretsAnswer | aws_light/iac/applier.py:196-203 | each secret answers updated if its name was there or listed earlier, else created |
| Applier.FailureMeans | aws_light/iac/applier.py:126-136 | an exception makes a manifest answer once, with an error under its kind and name, "bundle" for a list of secrets, or with the refusal that came first |
| Applier.FaultLeaves | aws_light/iac/applier.py:161-232 | what an exception leaves after so many writes: nothing before the first, all with it, but an existing secret is gone after one write and new after two; a list of secrets is written from the front |
| Applier.OneLocal | aws_light/iac/applier.py:161-232 | applying a manifest changes only what it names |
| Applier.OneDepends | aws_light/iac/applier.py:138-232 | what it does there, and its results, depend only on what it names and on the known names |
| Applier.ManifestsAreIndependent | aws_light/iac/applier.py:49-75 | after any prefix of the list, what a manifest names reads as if it had been applied alone to the initial stores, and the rest reads as before |
| Applier.ResultsAreIndependent | aws_light/iac/applier.py:49-75 | every manifest is answered as if applied alone to the initial stores and met by the same exception |
| Applier.OrderIndependent | aws_light/iac/applier.py:49-75 | every permutation gives the same result per manifest and the same final stores, for any exceptions that strike manifests wherever they stand |
| Applier.FinalServices | aws_light/iac/applier.py:161-194 | the services in the end: the written manifests' records, with status and replicas of existing ones kept, and the untouched initial ones |
| Applier.FinalBuckets | aws_light/iac/applier.py:205-211 | the buckets in the end: the initial ones and those whose manifest got as far as its write |
| Applier.FinalDatabases | aws_light/iac/applier.py:213-232 | the databases in the end, likewise |
| Applier.StaysClosedIff | aws_light/iac/applier.py:122-159 | a referentially closed store stays closed if and only if every bucket, database and caller that a written service names exists already or is written itself |
| Applier.NoErrorsStaysClosed | aws_light/iac/applier.py:49-75 | in particular if no result is an error |
| Applier.RefusedCallerDangles | aws_light/iac/applier.py:157-159 | with an error the store may end up with a service naming a caller that does not exist |
| Applier.RefusedBucketDangles | aws_light/iac/applier.py:138-146 | so may a service bound to a bucket that was asked for and could not be created |
| Differ.FindChangedFields | aws_light/iac/differ.py:33-48 | in whatever order the keys come, the paths found are the reported ones, each once |
| Differ.ComputeDiff | aws_light/iac/differ.py:18-30 | a creation if and only if there is nothing to compare with, no change if and only if both sides are equal up to None and absent |
| Differ.PrefixFree | aws_light/iac/differ.py:44-47 | no reported path extends another |
| Differ.NothingReportedIff | aws_light/iac/differ.py:33-48 | nothing is reported if and only if the sides are equal up to None and absent at every depth |
| Differ.WriteSettles | aws_light/iac/differ.py:33-48 | writing the desired value at a reported path settles that path and no other |
| Differ.PatchIsExact | aws_light/iac/differ.py:33-48 | writing at a set of reported paths makes the sides equal up to None and absent if and only if the set is all of them |
| Differ.DiffAndPatch | aws_light/iac/differ.py:33-48 | diff, then patch, gives the desired tree up to None and absent |

## Left out

- Interleavings inside one read-change-write of a store, inside one visit of a service and inside one probe: the ledger,
  routing and health theorems are about whole steps, and lost updates inside a step are outside them. This includes the
  read and write of `RedisRoutingTable.update_service` and `set_healthy`. Between a listing and each visit, and between
  any two removals of batches, everything may happen (`Platform`).
- Platforms.RunExactIff: a service created anew, or harmlessly edited, while an old record of it is still listed keeps
  CPU, memory and port; replicas are recorded as running, as the orchestrator records them; and a rollout's batch is
  removed in one move.
- Runs.RunsConserve: its visits use the stored record and its edits are those of count, image and status; listed records
  and whole specifications are moves of `Platform`.
- Aliasing of the node records handed out by `get_all_nodes`: ledger entries are values here.
- Floating-point requests, rates and durations: integers and exact reals are used instead.
- Restart.RestartIsExactIff: a live replica on a node that is no longer configured would raise KeyError, so the nodes of
  live replicas are known; removing orphan containers comes before it, and a first turn that also scales, and so may
  place replicas on nodes whose own are not charged yet, is not covered.
- Edits.EditExactIff: what later steps make of a ledger or of routes that an edit left wrong.
- Orchestrator.ReconcileAll: the listing itself is a move of `Platform`; the database half of the turn and the copying
  of nodes to their store are not part of it; nodes of listed replicas must be known because the code would raise
  KeyError.
- Orchestrator.RunRollout: other tasks act only during its sleeps, and no edit stores a specification under another
  name; health of the new replicas is not looked at, as in the code.
- Networks, environment variables, secrets injection, labels, events, logging, timestamps and every timeout.
- Applier.OrderIndependent: a bucket name stands for one directory; "x" and "./x" would be two names for the same one.
- `_destroy_one`, which deletes a service record behind the orchestrator's back, and database containers.
- Headers.SearchHeaderValue: bytes of 128 and above are ordinary characters; `Connection`-nominated fields are not
  dropped by the code and not here.
- HttpReader.ResponseExact: a length is plain decimal digits; signs, underscores and spaces inside the number, which
  Python's `int` would take, count as no length.
- Requests' bodies, chunked transfer, upgrades to WebSocket and the choice of candidates for a retry.
- TTLStoreCache: an item returned from the cache is the cached object in the program and a value here.
- CachedStore.BoundedStaleness: the store does not change between an operation's read of it and its second clock
  reading.
- The loop of `_evaluate_all_services`, which only skips services with equal bounds.
- ProxyMetrics.Metrics.FlushTo: a pipeline that fails loses its counters in the program; here every pipeline runs. A
  status code is rendered to its string when it is recorded, and durations are stored without rounding.
- Redis, JSON and YAML encodings and model validation: taken as exact.
- ServiceSpec in `Applier` holds the fields that references, labels and counts depend on; the other fields are copied
  alike.
- Dotted rendering of the differ's paths, which is ambiguous for keys with dots; a path is a list of keys.
- Database rollout, CPU statistics, topology, dashboard, API, CLI, IAM, tokens, encryption and storage of objects.
