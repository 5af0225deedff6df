# KubeFed control loops, verified

KubeFed spreads Kubernetes resources over member clusters. This project models the parts of it where
a wrong step is hard to notice, and proves what they promise for all inputs, all runs and all
interleavings. `dafny verify dfyconfig.toml` checks everything.

**Replica planner** (`Planner`, `PlannerProofs`, `PlannerTheorems`, `PlannerProgress`, `Scheduler`). A
call assigns minimums in priority order, preallocates running replicas unless it may rebalance, and
then repeats a weighted, rounded-up share loop with clamps at maximum and capacity. The loops are
methods; the functions they are tied to (`Minimums`, `Preallocations`, `Pass`, `Iterate`, `Final`)
describe the ledger after any number of clusters or passes. The theorems are about `Final`: the plan
is conserved, bounded and maximal, running replicas stay, scarcity follows priority, the listing
order of clusters does not matter, replanning a placed plan moves nothing, and the main loop ends for all integers and needs at most
clusters + preallocated + 1 passes, and at most unplaced + preallocated + 1. `order` is always the
sorted list of preferences.

**Dispatch** (`Dispatch`). Per-cluster goroutines that report on a channel, a create that starts an
update of its own, and `Wait`, as a state machine whose steps are single effects. An inductive
invariant gives: no early return, no deadlock, truthful statuses, and an end to every run.

**Deletion protocol** (`DeletionProtocol`). The history of the federated object, a cache of it that
lags but moves forward, member objects that others may change, and the controller's reconcile loop.
Managed member objects never outlive the finalizer, unless it is taken off after a check that took
place while a create or update was still under way in the checked cluster. Where orphaning is requested
nothing is deleted.

**Delaying deliverer** (`DelayingDeliverer`). The binary heap with its key index as a class over
container/heap's `up`, `down`, `Fix`, `Push` and `Pop`, and the run loop. It is a map from keys to
earliest requests, and over whole runs nothing is lost, invented, early or repeated.

**Versions** (`Versions`, `VersionWriter`). The version manager as a class, refined to a replay of
its history of calls; and the optimistic write-back loop against an API server that other
processes change before every call.

**DNS records** (`DnsEndpoints`, `DnsService`, `DnsLadder`). The in-place merge of endpoints refines an
order-free grouping by name; the records of a service form ladders of zone, region and global names
whose aliases always lead to an address.

**Replica overrides** (`Overrides`). Writing a scheduling result back to the federated object: an exact
test whether anything has to change, an update that touches nothing else, and a second run that
writes nothing.

`Sorting` and `StringOrder` model Go's unstable sorts and its order on strings; `Wrappers` holds options
and results.

## Where the code does not do what one would expect

- The comment at `pkg/controller/util/planner/planner.go:164` says that every iteration at least halves the
  pending preallocated replicas. `LinearPasses` and `LinearCall` give calls in which each pass absorbs only a
  constant number, with their exact pass counts. `SingleHalvedIff` says from the state before a pass exactly when
  it halves them for one unbounded cluster, and `HalvedIffSharesSuffice` for any number of clusters each of which
  owes at least its share.
- The planner does not compare `MinReplicas` with `MaxReplicas`, and a plan can end above a maximum
  (`MinimumBeatsMaximum`). `MaximumExceededIff` says exactly when: the minimum given in the first stage exceeds
  it, and the main loop has nothing to spread or no weights to spread it by.
- A create that is still under way when `Wait` times out can land after the federated object has gone
  (`LateCreateIsARun`). `ManagedObjectsAreOwned` holds for every run in which no finalizer comes off on the
  strength of a check that such a write may overtake, and `UnsafeReachableIff` says from which states without the
  finalizer the guarantee can still be broken.
- If others delete the version object after a conflict, the writer only re-reads and never creates it
  again (`DeletedAfterConflict`), exactly until a re-read succeeds (`OnlyRereadsIff`).
- With a DNS prefix equal to the common prefix of a service none of whose clusters has a load
  balancer, the global name becomes an alias of itself (`CycleIff`, and `PublishSelfAlias` for such records).
- A region name with dots can be a zone name of another cluster, and a walk along aliases can then
  take three hops or more (`TwoHopsIff` for the exact condition, `PublishStacked` for such a record).

## Model

| member | source | states |
|---|---|---|
| Planner.Plan | pkg/controller/util/planner/planner.go:67-246 | the call ends and returns plan and overflow of the final ledger of its three stages, for some order of the preferences by `Less` and for all integers |
| Planner.CollectPreferences | pkg/controller/util/planner/planner.go:91-111 | an entry carries what is set for its cluster, or what is set under "*" only if nothing is; a cluster with neither has no entry and is planned 0 |
| Planner.AssignMinimums | pkg/controller/util/planner/planner.go:117-125 | the loop over minimums reaches the ledger `Minimums` describes |
| Planner.PreallocateRunning | pkg/controller/util/planner/planner.go:133-154 | the loop over running replicas reaches the ledger `Preallocations` describes |
| Planner.Distribute | pkg/controller/util/planner/planner.go:156-230 | the main loop ends and computes `Iterate` |
| Planner.DistributeOnce | pkg/controller/util/planner/planner.go:171-229 | one trial computes one pass, with shares fixed at its start |
| Planner.GiveShare | pkg/controller/util/planner/planner.go:182-225 | a cluster that does not fill up takes its share or all that is left, partly by paying off preallocated replicas first; one that fills up ends exactly at its maximum or capacity, and overflow is what its maximum would still have allowed |
| Planner.TrimOverflow | pkg/controller/util/planner/planner.go:235-244 | overflow is cut to what stayed unplaced, and entries that vanish are dropped |
| Planner.PassesEnd | pkg/controller/util/planner/planner.go:169-230 | every pass that changes something drops a full cluster or lowers unplaced plus pending replicas, even with negative weights |
| Planner.GoDivTruncates | pkg/controller/util/planner/planner.go:184 | the quotient is the real one with its fraction dropped on either side of zero |
| PlannerTheorems.Conservation | pkg/controller/util/planner/planner.go:114-230 | planned and unplaced replicas add up to the total, and unplaced never goes negative |
| PlannerProofs.MinimumsConserve | pkg/controller/util/planner/planner.go:117-125 | the same after any number of clusters of the first stage |
| PlannerProofs.PreallocationsConserve | pkg/controller/util/planner/planner.go:133-154 | the same after any number of clusters of the second stage |
| PlannerProofs.PassConserves | pkg/controller/util/planner/planner.go:180-228 | the same after any number of clusters of any pass |
| PlannerTheorems.Bounds | pkg/controller/util/planner/planner.go:114-230 | each planned count is between 0 and the capacity, and within the maximum unless the minimum is above it |
| PlannerTheorems.MaximumExceededIff | pkg/controller/util/planner/planner.go:117-230 | a plan ends above a maximum if and only if the minimum given exceeds it and the main loop does not run, for want of replicas or of weights |
| PlannerTheorems.LoweredToMaximum | pkg/controller/util/planner/planner.go:200-206 | one pass takes a cluster above its maximum down to it, for good |
| PlannerTheorems.MinimumBeatsMaximum | pkg/controller/util/planner/planner.go:117-125 | a call that exceeds the maximum: one cluster whose minimum is all there is to give |
| PlannerTheorems.Maximality | pkg/controller/util/planner/planner.go:158-230 | replicas stay unplaced only if every cluster of positive weight sits exactly at its maximum or capacity |
| PlannerTheorems.RunningReplicasStay | pkg/controller/util/planner/planner.go:127-154 | without rebalancing, if what all clusters are due fits in the total, each keeps its running replicas up to maximum and capacity |
| PlannerTheorems.PlacedStaysPlaced | pkg/controller/util/planner/planner.go:127-230 | without rebalancing, planning anew where the replicas already run within their bounds and add up to the total moves nothing |
| PlannerTheorems.Scarcity | pkg/controller/util/planner/planner.go:55-59 | behind a cluster that ends below what maximum and capacity allow of its minimum every cluster gets 0 |
| PlannerTheorems.OrderIndependent | pkg/controller/util/planner/planner.go:91-112 | when no two clusters tie in weight and hash, permuting the available clusters does not change the call |
| PlannerTheorems.HeavierThenSmallerHash | pkg/controller/util/planner/planner.go:43-47 | clusters are taken by decreasing weight and, at equal weight, by increasing hash |
| PlannerTheorems.OwnPreferenceWins | pkg/controller/util/planner/planner.go:91-111 | in the sorted list a cluster's own preference wins over "*", and every available cluster with either has an entry |
| PlannerTheorems.NothingSetPlannedZero | pkg/controller/util/planner/planner.go:107-109 | a cluster with neither has no entry and ends with 0 |
| PlannerTheorems.MinimumsHonoured | pkg/controller/util/planner/planner.go:117-125 | if the minimums fit in the total, every cluster ends with at least its own as far as maximum and capacity allow |
| PlannerTheorems.RebalanceIgnoresCurrent | pkg/controller/util/planner/planner.go:133 | when rebalancing, what runs where now makes no difference |
| PlannerTheorems.PreallocatedIsBooked | pkg/controller/util/planner/planner.go:145-151 | what a cluster has beyond its minimum when the main loop starts is exactly what is booked as preallocated |
| PlannerTheorems.OverflowOnlyWhereFull | pkg/controller/util/planner/planner.go:200-211 | overflow occurs only at capacity, stays within the maximum with the plan, and without rebalancing is at most what is unplaced |
| PlannerTheorems.OverflowReported | pkg/controller/util/planner/planner.go:232-245 | when rebalancing all overflow is reported, otherwise every positive one while something is unplaced, cut to what is |
| PlannerProofs.PassOutcome | pkg/controller/util/planner/planner.go:181-224 | after a pass the plan, the debt, the overflow and the further participation of each cluster are the outcome of its own turn |
| PlannerProofs.IterateBounds | pkg/controller/util/planner/planner.go:198-219 | the main loop lowers a cluster only down to a bound it already exceeded and never pushes one past a bound |
| PlannerProofs.IterateSettles | pkg/controller/util/planner/planner.go:169-230 | if the main loop ends with replicas left, a cluster of positive weight is exactly full |
| PlannerProgress.SharesCoverTheWhole | pkg/controller/util/planner/planner.go:183-184 | shares rounded up add up to at least what is to be distributed |
| PlannerProgress.PassProgress | pkg/controller/util/planner/planner.go:161-163 | a pass that fills no cluster absorbs at least as many unplaced or preallocated replicas as were unplaced at its start |
| PlannerProgress.PassBound | pkg/controller/util/planner/planner.go:164-166 | the loop runs at most clusters + preallocated replicas + 1 times: the proof the TODO asks for |
| PlannerProgress.PassBoundScarce | pkg/controller/util/planner/planner.go:164-166 | and at most unplaced + preallocated replicas + 1 times, if no plan is above its maximum or capacity when it starts |
| PlannerProgress.LinearPasses | pkg/controller/util/planner/planner.go:164-165 | one unbounded cluster that owes any number of replicas needs exactly that number divided by the unplaced ones, rounded up, and one more passes |
| PlannerProgress.LinearCall | pkg/controller/util/planner/planner.go:164-165 | a whole call needs that many |
| PlannerProgress.SingleHalvedIff | pkg/controller/util/planner/planner.go:164 | for one unbounded cluster: if and only if at least half as many replicas are unplaced |
| PlannerProgress.HalvedIffSharesSuffice | pkg/controller/util/planner/planner.go:164 | for any number of clusters that owe at least their shares: if and only if what they owe together is at most twice the sum of the shares |
| PlannerProgress.FairShares | pkg/controller/util/planner/planner.go:180-188 | where only weights matter, when rebalancing or with nothing running, one pass places everything and each cluster in turn gets its proportional share rounded up while replicas last |
| PlannerProgress.HeavierGetsMore | pkg/controller/util/planner/planner.go:43-47 | then no cluster gets less than one of smaller or equal weight behind it |
| PlannerProgress.EqualSplit | pkg/controller/util/planner/planner.go:171-188 | equally heavy clusters split the total evenly, rounded up, from the front of the order on while replicas last |
| Scheduler.Schedule | pkg/schedulingtypes/replicascheduler.go:269-306 | the result is plan plus overflow, with 0 for clusters known only from the current state |
| Scheduler.Combine | pkg/schedulingtypes/replicascheduler.go:277-287 | the clusters are those of all three maps, and each count is plan plus overflow |
| Scheduler.ScheduledTotal | pkg/schedulingtypes/replicascheduler.go:269-287 | what is scheduled adds up to the total, less the unplaced replicas and plus all overflow |
| Scheduler.PlannedClusters | pkg/controller/util/planner/planner.go:91-125 | exactly the available clusters are planned for |
| Scheduler.ScheduledClusters | pkg/schedulingtypes/replicascheduler.go:277-287 | every available or running cluster is told a count, 0 if it is not available, and just the plan once all is placed without rebalancing |
| Scheduler.ScheduledReplicas | pkg/schedulingtypes/replicascheduler.go:282-287 | a cluster runs at least its plan, more only where the plan fills its capacity, and overflow never takes it above its maximum |
| Dispatch.RunKeeps | pkg/controller/sync/dispatch/operation.go:68-116 | at every point of every interleaving the counter, the reports received and each cluster's entries fit what its goroutines have done |
| Dispatch.NoEarlyReturn | pkg/controller/sync/dispatch/operation.go:68-93 | without a timeout `Wait` returns only when nothing is in flight, nested updates included, and returns true exactly when nothing failed |
| Dispatch.NobodyWrites | pkg/controller/sync/dispatch/managed.go:96-127 | after that no step of anybody is possible, so the rewriting of statuses is undisturbed |
| Dispatch.NoDeadlock | pkg/controller/sync/dispatch/operation.go:72-88 | until `Wait` returns some step other than timing out is always possible |
| Dispatch.RunsAreShort | pkg/controller/sync/dispatch/managed.go:129-246 | under any scheduling a run has at most fourteen steps per cluster and three more, nested updates included |
| Dispatch.WaitEnds | pkg/controller/sync/dispatch/operation.go:68-93 | a run that cannot be extended has returned or timed out |
| Dispatch.SettleStatuses | pkg/controller/sync/dispatch/managed.go:102-125 | the loop turns default timeouts into success and leaves every other status |
| Dispatch.StatusTruth | pkg/controller/sync/dispatch/managed.go:129-263 | the status each cluster ends with is the truth about its operations, never a timeout, and a version is recorded exactly for objects created or updated |
| Dispatch.UpdatesNoticed | pkg/controller/sync/dispatch/managed.go:225-232 | updates are reported exactly when some existing object was updated |
| Dispatch.TimeoutNamesOperation | pkg/controller/sync/dispatch/managed.go:129-246 | while an operation is under way, and so after a timeout, its cluster reads as timed out in just that operation, and in an update once a create has gone over to one |
| Dispatch.EveryEndComesAbout | pkg/controller/sync/dispatch/managed.go:138-246 | every end and every failure code of each operation comes about in some run whose `Wait` returns |
| Dispatch.AdoptionComesAbout | pkg/controller/sync/dispatch/managed.go:166-182 | so does a create that goes over to an update, with both reports received |
| DeletionProtocol.RunKeeps | pkg/controller/sync/controller.go:273-282 | in every run a live version the cache shows proves that the finalizer has been held ever since, and creates and updates are dispatched and awaited only during a sync |
| DeletionProtocol.RunKeepsMembers | pkg/controller/sync/controller.go:557-588 | without the finalizer no create or update is outstanding, and a cluster checked without doubt holds no managed object and will not get one |
| DeletionProtocol.ManagedObjectsAreOwned | pkg/controller/sync/controller.go:438-555 | without orphaning, a managed member object implies that the federated object still carries the finalizer, as long as no finalizer has come off after a check of a cluster with a create or update outstanding |
| DeletionProtocol.FinalizerComesFirst | pkg/controller/sync/controller.go:276-282 | whenever a create or update is under way the finalizer is there |
| DeletionProtocol.OrphansAreNotDeleted | pkg/controller/sync/controller.go:454-474 | in every run objects are deleted and verified on account of their owner only for a version that is being deleted and does not ask to orphan them, and after orphaning only labels are removed |
| DeletionProtocol.OrphaningComesOff | pkg/controller/sync/controller.go:454-471 | where orphaning is requested the finalizer comes off without any check, and labels are removed afterwards |
| DeletionProtocol.DeletionComesOff | pkg/controller/sync/controller.go:473-555 | otherwise it comes off once no cluster holds a managed object, by checking each of them |
| DeletionProtocol.LateCreateIsARun | pkg/controller/sync/dispatch/operation.go:89-96 | a run in which a create outlives its `Wait` and leaves a managed object without owner |
| DeletionProtocol.SafeUnlessLate | pkg/controller/sync/dispatch/operation.go:89-96 | in particular if no create or update outlives its `Wait` |
| DeletionProtocol.UnsafeReachableIff | pkg/controller/sync/dispatch/operation.go:95-112 | once the finalizer is off, others and late operations can break the guarantee, in any number of steps, if and only if a create or update of some member cluster is outstanding |
| DeletionProtocol.LateEffectIff | pkg/controller/sync/dispatch/operation.go:95-112 | and in a single late effect if and only if that is a create, or an update of an object that exists |
| DeletionProtocol.RemovalTooEarly | pkg/controller/sync/controller.go:554 | a run that takes the finalizer off with a create or update outstanding extends by two steps to a managed object without owner |
| DelayingDeliverer.RootIsEarliest | pkg/controller/util/delaying_deliverer.go:101-105 | in a heap no item is earlier than the first |
| DelayingDeliverer.SwapUp | pkg/controller/util/delaying_deliverer.go:52-56 | one step up moves the only item too early for its place to its parent's place |
| DelayingDeliverer.SwapDown | pkg/controller/util/delaying_deliverer.go:52-56 | one step down moves the only item out of place to the place of its earliest child |
| DelayingDeliverer.DownStops | pkg/controller/util/delaying_deliverer.go:125-134 | where an item is no later than its children, only its parent can be out of order |
| DelayingDeliverer.DelivererHeap.Swap | pkg/controller/util/delaying_deliverer.go:52-56 | exchanges two places and keeps the index the exact inverse of the data |
| DelayingDeliverer.DelivererHeap.Push | pkg/controller/util/delaying_deliverer.go:58-62 | appends an item of a new key and keeps the index exact |
| DelayingDeliverer.DelivererHeap.Pop | pkg/controller/util/delaying_deliverer.go:64-70 | removes the last item and its key and keeps the index exact |
| DelayingDeliverer.DelivererHeap.HeapPush | pkg/controller/util/delaying_deliverer.go:132-134 | the map from keys to items gains the item, order and index are kept |
| DelayingDeliverer.DelivererHeap.HeapPop | pkg/controller/util/delaying_deliverer.go:106-107 | removes an earliest item and nothing else, order and index are kept |
| DelayingDeliverer.DelivererHeap.HeapFix | pkg/controller/util/delaying_deliverer.go:127-130 | restores the order after an item changed in place in either direction, without changing the map |
| DelayingDeliverer.DelivererHeap.Accept | pkg/controller/util/delaying_deliverer.go:125-134 | of two requests for a key the earlier wins |
| DelayingDeliverer.Deliverer.Deliver | pkg/controller/util/delaying_deliverer.go:100-109 | emits exactly the items due, each once and in order of time, and keeps exactly the rest |
| DelayingDeliverer.Deliverer.Serve | pkg/controller/util/delaying_deliverer.go:113-137 | one round delivers what is due and then takes at most one request |
| DelayingDeliverer.Deliverer.Run | pkg/controller/util/delaying_deliverer.go:111-139 | what the loop sends is a run of the map from keys to earliest requests, up to the first stop |
| DelayingDeliverer.RequestHonoured | pkg/controller/util/delaying_deliverer.go:111-139 | a request is still pending no later than asked for, or its key has since been delivered with a time no later |
| DelayingDeliverer.NothingOverdue | pkg/controller/util/delaying_deliverer.go:101-134 | after a round nothing is pending that was due, but for the request just taken, which replaced another only if it was strictly earlier |
| DelayingDeliverer.DeliveredWasRequested | pkg/controller/util/delaying_deliverer.go:111-139 | what is delivered is due, was requested in exactly that form, and its key was not delivered in between |
| Versions.VersionMapToClusterVersions | pkg/controller/sync/version/manager.go:449-463 | lists exactly the non-empty versions, sorted, each cluster once |
| Versions.UpdateClusterVersions | pkg/controller/sync/version/manager.go:432-447 | new versions win, old ones survive for selected clusters only, empty ones erase |
| Versions.OneList | pkg/controller/util/propagatedversion.go:61-76 | sorted lists are equal exactly when they give the same versions, so comparing lists compares records |
| Versions.NextStatus | pkg/controller/sync/version/manager.go:156-175 | versions recorded under other hashes do not survive |
| Versions.VersionManager.Get | pkg/controller/sync/version/manager.go:105-136 | returns what is known under the current hashes, or the error in determining them |
| Versions.VersionManager.Update | pkg/controller/sync/version/manager.go:138-197 | records the merged versions under the current hashes, and asks for a write exactly when the record changed |
| Versions.VersionManager.Delete | pkg/controller/sync/version/manager.go:199-208 | forgets the resource and no other |
| Versions.Feed | pkg/controller/sync/version/manager.go:107-208 | after any calls the manager remembers the replay of their history |
| Versions.KnownIffRecorded | pkg/controller/sync/version/manager.go:107-197 | a version is known if and only if some update recorded it under the current hashes and every later call preserved it |
| Versions.VersionsDistinguish | pkg/controller/util/propagatedversion.go:35-43 | two objects have equal versions exactly if they agree in generation, or both lack one and agree in resource version |
| Versions.VersionShows | pkg/controller/util/propagatedversion.go:30-43 | the version is the generation in decimal after "gen:", or without one the resource version after "rv:" |
| Versions.SkippedIffCurrent | pkg/controller/util/propagatedversion.go:45-59 | an update is skipped if and only if the object's own version is the last one recorded for the desired state, and its metadata agrees where it has a generation |
| VersionWriter.ApiServer.UpdateStatus | pkg/controller/sync/version/manager.go:340-348 | what the writer relies on: a status write succeeds only on the current resource version, and an error may hide a success |
| VersionWriter.Poll | pkg/controller/sync/version/manager.go:292-388 | one poll makes only calls the discipline of the writer allows and ends in the state they leave |
| VersionWriter.WriteVersion | pkg/controller/sync/version/manager.go:281-393 | on success the object held exactly the given status at the final write, which replaced the resource version it used; it fails only when refused or out of polls |
| VersionWriter.FirstCall | pkg/controller/sync/version/manager.go:285-310 | a stored version is used at once, and without one the object is created |
| VersionWriter.NextCall | pkg/controller/sync/version/manager.go:292-375 | which call follows which: a version read or created is used next, an object that has gone is created again, one that exists or has changed is read, and after other errors the same call is made again |
| VersionWriter.UsesLastVersion | pkg/controller/sync/version/manager.go:334-340 | every status write uses the version last read, created or stored |
| VersionWriter.ConflictThenReread | pkg/controller/sync/version/manager.go:347-351 | between a conflict and the next status write there is a successful re-read |
| VersionWriter.NoLostUpdate | pkg/controller/sync/version/manager.go:293-302 | a write that succeeds after a re-read replaced exactly what was read, although others write at any time |
| VersionWriter.OnlyRereadsIff | pkg/controller/sync/version/manager.go:293-302 | after a conflict every call is a re-read if and only if no re-read has succeeded |
| VersionWriter.DeletedAfterConflict | pkg/controller/sync/version/manager.go:293-301 | the calls of a writer whose object was overwritten and then deleted for good: any number of re-reads and nothing else |
| DnsEndpoints.SortAndRemoveDuplicateTargets | pkg/controller/dnsendpoint/common.go:144-157 | strictly sorted with the same members |
| StringOrder.LessAtFirstDifference | pkg/controller/dnsendpoint/common.go:97-99 | a name comes before another if it is a proper prefix of it or has the smaller character where they first differ |
| DnsEndpoints.RemoveEmptyTargets | pkg/controller/dnsendpoint/common.go:103-109 | removing in place keeps all other targets in order |
| DnsEndpoints.RemoveEmptyEndpoints | pkg/controller/dnsendpoint/common.go:101-115 | removing in place keeps exactly the endpoints with a real target |
| DnsEndpoints.MergeNeighbours | pkg/controller/dnsendpoint/common.go:117-139 | merging neighbours of a sorted list groups its targets by name |
| DnsEndpoints.GroupMerge | pkg/controller/dnsendpoint/common.go:125-132 | merging one more endpoint into the last record keeps the grouping, whatever the two types are |
| DnsEndpoints.DedupeAndMergeEndpoints | pkg/controller/dnsendpoint/common.go:94-142 | one record per name with a real target, holding all targets listed under its name and type; applied to its own result it changes nothing |
| DnsEndpoints.NamesAreExact | pkg/controller/dnsendpoint/common.go:101-115 | the names are exactly those with a real target |
| DnsEndpoints.OneRecordPerName | pkg/controller/dnsendpoint/common.go:117-139 | no name carries two records |
| DnsEndpoints.AliasIffNothingElse | pkg/controller/dnsendpoint/common.go:120-128 | a record is a CNAME if and only if its name has real targets of no other type |
| DnsEndpoints.OrderIndependent | pkg/controller/dnsendpoint/common.go:94-142 | the same listing in any order gives the same names, types and target sets, if no name has two types beside CNAME |
| DnsService.GetResolvedTargets | pkg/controller/dnsendpoint/common.go:53-77 | the sorted addresses of the resolution |
| DnsService.ResolvedIff | pkg/controller/dnsendpoint/common.go:57-77 | an address is among them if and only if it is a target that is itself an address or the answer to the lookup of a target contains it, up to the first target whose lookup fails; it succeeds if and only if none does |
| DnsService.AddressesNeedNoLookup | pkg/controller/dnsendpoint/common.go:72-74 | IP addresses resolve to themselves, without a lookup and so without failing |
| DnsService.ResolveFinds | pkg/controller/dnsendpoint/common.go:59-75 | if no successful lookup comes back empty, targets resolve to at least one address |
| DnsService.ExtractLoadBalancerTargets | pkg/controller/dnsendpoint/common.go:79-92 | lists addresses and host names in order |
| DnsService.TargetsAreSet | pkg/controller/dnsendpoint/common.go:82-89 | the targets are exactly the addresses and host names that are not empty |
| DnsService.ResolutionFails | pkg/controller/dnsendpoint/common.go:64-68 | a resolution that fails made a lookup that failed |
| DnsService.GenerateEndpoint | pkg/controller/dnsendpoint/service.go:112-136 | addresses if there are load balancer targets, else an alias one level up; nothing only if a lookup made during the call failed |
| DnsService.ClusterEndpoints | pkg/controller/dnsendpoint/service.go:66-97 | a cluster contributes its zone, region and global rungs and nothing else, unless a lookup made during the call failed |
| DnsService.GetServiceDnsEndpoints | pkg/controller/dnsendpoint/service.go:42-110 | the result groups exactly the ladders of all clusters and the prefix alias, unless a lookup made during the call failed |
| DnsService.TtlAndLabels | pkg/controller/dnsendpoint/service.go:53-64 | every record has the TTL asked for, or 180, and no label but the service name, which needs an external name |
| DnsService.CommonPrefixParts | pkg/controller/dnsendpoint/service.go:53-59 | names begin with the external name or else the name of the service, its namespace, its domain and "svc" |
| DnsLadder.ServesItsNames | pkg/controller/dnsendpoint/service.go:66-109 | exactly the zone, region, global and prefix names have records, if some cluster has a load balancer and no lookup comes back empty |
| DnsLadder.AddressIffBalanced | pkg/controller/dnsendpoint/service.go:123-133 | a name has an address record if and only if it is a rung of a cluster with a load balancer |
| DnsLadder.TwoHops | pkg/controller/dnsendpoint/service.go:66-109 | from every name some walk along aliases reaches an address within two hops |
| DnsLadder.EveryWalkEnds | pkg/controller/dnsendpoint/service.go:66-109 | every walk, whichever targets it takes, ends at an address, for arbitrary strings as names |
| DnsLadder.TwoHopsIff | pkg/controller/dnsendpoint/service.go:68-73 | every walk takes at most two hops if and only if no region name without address is a zone name of another such region |
| DnsLadder.PlainRegionsTwoHops | pkg/controller/dnsendpoint/service.go:68-73 | which is so if no region contains a dot |
| DnsLadder.NothingResolves | pkg/controller/dnsendpoint/service.go:130-133 | without any load balancer there is no address record |
| DnsLadder.CycleIff | pkg/controller/dnsendpoint/service.go:99-107 | aliases form a cycle if and only if there is no load balancer and the prefix name is the global name |
| DnsLadder.PublishAddresses | pkg/controller/dnsendpoint/common.go:72-74 | every record is published where all targets are addresses, so the assumptions above can be met |
| DnsLadder.StackedExample | pkg/controller/dnsendpoint/service.go:68-73 | a record with one ladder standing on another |
| DnsLadder.PublishStacked | pkg/controller/dnsendpoint/service.go:68-109 | publishing it leaves a walk of more than two hops |
| DnsLadder.PublishSelfAlias | pkg/controller/dnsendpoint/service.go:99-107 | publishing any record without load balancer under its common prefix as DNS prefix leaves a cycle |
| Overrides.GetOverrides | pkg/controller/util/overrides.go:90-133 | succeeds exactly if clusters and paths are unique and no path is forbidden, and then reads every list |
| Overrides.WhatIsForbidden | pkg/controller/util/overrides.go:63-68 | neither name, generated name, namespace nor kind can be overridden, nor one path twice |
| Overrides.ToUnstructuredSlice | pkg/controller/util/overrides.go:76-88 | lists the map completely, each cluster once, in an arbitrary order |
| Overrides.RoundTrip | pkg/controller/util/overrides.go:76-133 | what is written is valid and reads back as the same map with numbers as floats |
| Overrides.OverrideUpdateNeeded | pkg/schedulingtypes/plugin.go:234-260 | counting is an exact test: no update is needed if and only if the replicas overrides agree with the result |
| Overrides.TruncTowardZero | pkg/schedulingtypes/plugin.go:250 | a float counts as the integer nearest to it on the side of zero |
| Overrides.Pigeonhole | pkg/schedulingtypes/plugin.go:255-259 | as many agreeing overrides as scheduled clusters means that every scheduled cluster has one |
| Overrides.AgreesIffProjection | pkg/schedulingtypes/plugin.go:234-260 | agreement is equality of the result with the map from clusters to the replicas their overrides set |
| Overrides.RemoveReplicas | pkg/schedulingtypes/plugin.go:204-210 | exactly one replicas override is taken out, if there is any, and every other override stays in order |
| Overrides.SetReplicas | pkg/schedulingtypes/plugin.go:216-230 | where there is a replicas override only its value changes; otherwise one without operation, which replaces, is added at the end |
| Overrides.UpdateOverridesMap | pkg/schedulingtypes/plugin.go:200-232 | each cluster's list is updated, removed from or left, and lists appear only for scheduled clusters |
| Overrides.UpdateEstablishes | pkg/schedulingtypes/plugin.go:200-232 | after the update and a round trip through JSON the replicas overrides agree with the result |
| Overrides.AddedOverrideReplaces | pkg/schedulingtypes/plugin.go:223-230 | a scheduled cluster without replicas override ends with one that replaces the value, after all it had; an unscheduled one keeps its list |
| Overrides.ChangedOverrideKeepsPlace | pkg/schedulingtypes/plugin.go:216-222 | one that had an override keeps it in its place with only the value changed |
| Overrides.PlacementUpdateNeeded | pkg/schedulingtypes/plugin.go:185-190 | needed unless the lists hold the same names; a missing list always needs it |
| Overrides.ReconcileOverrides | pkg/schedulingtypes/plugin.go:163-173 | changes exactly if the overrides disagree, then edits exactly the replicas overrides and makes them agree |
| Overrides.Reconcile | pkg/schedulingtypes/plugin.go:135-183 | on success the stored object says what the result says, its overrides are unchanged or edited in just the replicas overrides, and an object in agreement is not written again; success fails to come only if a call fails, the object cannot be read or set, or its overrides are invalid |

## Left out

- Integer width: all numbers are unbounded, so the overflow of `distributeInThisLoop*Weight` in int64 is not modelled; hashes, JSON numbers and truncation to int64 are exact.
- Hash functions: FNV and MD5 are arbitrary functions; that different templates or overrides hash differently is not claimed.
- PlannerTheorems.Bounds: assumes non-negative minimums and capacities, which the planner does not check; negative estimated capacities are possible in the source. So do the theorems on running replicas and scarcity.
- PlannerProgress.HalvedIffSharesSuffice: where some cluster owes less than its share, the replicas it is given anew are missing for the clusters behind it; there `HalvedIff` states the condition only in terms of what each cluster pays off in its turn.
- Arguments changed in place: `Plan`, the overrides update and the DNS merge take and return values, so aliasing between a caller's slices, maps or endpoint pointers is not captured.
- Locks: the status map, the version maps and the counter are updated in single atomic steps.
- Clocks: times are integers, and a timeout may strike at any moment `Wait` or a poll is waiting. A dispatch always ends (`RunsAreShort`); that a deletion eventually completes is not proved.
- The controller's cache of member objects: left completely open in `DeletionProtocol`, so the choice between create, update and delete is arbitrary there.
- DeletionProtocol.ManagedObjectsAreOwned: assumes a fixed set of clusters and that nobody else adds the managed label; runs in which orphaning was requested are exempt.
- Reading accessor errors, owner references, synchronisation from the API at start, and the status writer of the version manager's adapter are not part of `Versions` and `VersionWriter`.
- DnsLadder.EveryWalkEnds: assumes that lookups which succeed find at least one address; so do the other ladder theorems that say so.
- Ingress records: they use the same merge and the same resolution, without ladders.
- Resolution of names and address syntax: an arbitrary answer per lookup, and an arbitrary predicate.
- Overrides.OverrideUpdateNeeded: exact for lists without repeated paths, which is what `GetOverrides` returns; for others only that no disagreement is missed.
- What is in the objects: template, patches, retained fields, defaulting and validation. The dispatcher and the protocol depend only on whether an operation succeeds, so such a step appears there as one that may fail.
- Placement and cluster selectors: which clusters are selected is an arbitrary choice in every model, so the theorems hold for each.
- The health of clusters (`thresholdAdjustedClusterStatus`) and the comparison of collected statuses (`clustersDiffers`): no modelled state depends on them.
- Errors of the API other than those named in the models are one error each; metrics, events and logs are dropped.
