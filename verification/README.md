# A verified model of object-quota-manager

object-quota-manager enforces one quota per namespace, for open file descriptors
and for processes, across all nodes of a cluster. This project models its three
parts and the guarantee they give together.

* **The credit ledger.** An `ObjectQuota` carries the limits and, per node, the
  credits a node has been given. Nodes read it, compute a grant, a release or a
  reclaim from what they read, and write the status back; the write is accepted
  only if nobody wrote in between. Heartbeats say which nodes are alive.
  `QuotaLedger` has the computations as functions, `LeaseManager` the lease
  manager's methods with their loops and updates in place, `LedgerRuns` the runs of
  any number of workers with reads and listings that may be out of date, and
  `HeartbeatRuns` the timing. `FairShare` says how a pool is shared out, and
  `FakePool` models the tests' allocator and relates it to the ledger.
* **The kernel side.** `Enforcer` has the hooks and the maps of one kind, as
  functions and as the class `EnforcerMaps` proved against them. `EnforcerRuns` and
  `EnforcerAccounts` prove what whole runs keep; `HookRace` splits the install hook,
  closes and re-syncs into their loads and stores for N executions at once.
* **The syncer.** `Syncer` has the class with its tables, and `SyncLeases` what it asks of
  the lease manager. In `SyncerRuns` its operations
  are taken apart into the sections that hold the lock and the single map operations
  that do not, which interleave freely with each other and with the hooks; tables
  and kernel maps agree all the same. `CoverRuns` says in which of those runs the
  cgroup counters cover a namespace's count, and `BreachRuns` after which breaches
  there is a kill.
* **The cluster.** `Cluster` puts ledger, syncs and hooks of all nodes together and
  proves that the counts of all nodes add up to at most the namespace's limit in every
  reachable state of every run that follows four rules: the spec is fixed; the
  requests of syncs go through and are granted more than 0; a request answered
  without a write has read a version since which its node has held credits
  throughout; and credits are taken from a node only when it has no counter and no
  sync in progress. `ClusterReach` says for all runs, whether they follow the rules
  or not, exactly when the limit holds, by a condition on each step of a sync and
  each edit of the spec. `ClusterLimits` shows that each of the rules is needed, and
  `ClusterBeats` derives the last of them from heartbeats that are on time.
* `CgroupPaths` models the names of pod cgroups and the search for them.

Descriptors and processes are the same computation on two sets of maps; the model
states it once, with a `Kind`. All runs are sequences of events of any length, and
all theorems hold for all of them. 64-bit arithmetic is written out: signed
sums wrap (`Wrap64`), limits become unsigned in the kernel maps (`ToU64`), and the
budget of the kernel grows modulo 2^64. Reads of the API server, listings,
clocks and grants that come from outside are parameters.

What a reader may not expect of the code:

* The documentation says a node that uses 80 % of its lease asks for more. A node
  that holds credits gets the same amount back on every request
  (lease_k8s.go:107-110); `QuotaLedger.RequestGrants` states that.
* A node whose request fails or is granted nothing enforces the whole limit of
  the namespace (syncer.go:78-89). `ClusterLimits.FallbackBreaksTheLimit` is a run
  that goes over the limit because of it, and there are more: a read that is out of
  date can hand a node credits that it no longer holds without any write that could be
  refused (`StaleReadBreaksTheLimit`); a removal releases the credits before it
  deletes the counter (`ReleaseFirstBreaksTheLimit`); a reclaim takes the credits of
  a node whose kernel goes on counting (`ReclaimBreaksTheLimit`); and lowering the
  limit takes nothing back (`EditBreaksTheLimit`). All of them start where nobody has
  asked for credits. `ClusterReach.LimitHoldsExactly` has the exact condition.
* A reclaim that listed heartbeats from before a node created its first one takes
  the node's credits although its heartbeat is fresh by then
  (`HeartbeatRuns.LateHeartbeatLosesCredits`).
* A re-sync sets the budget back and keeps the count, so with a limit over 100
  installs below the limit may be refused for a while: exactly when, and for
  exactly how long, is in `EnforcerRuns.ResyncRefusesExactly` and
  `EnforcerRuns.RecoveryAfterResync`.
* `resetNsCounter` reads the lease and writes it back (syncer.go:274-280). Hooks in
  between are lost or undone; repeated, that takes the count of a full namespace to
  any higher value, under any limit (`HookRace.ResyncsHaveNoBound`). Two closes that both see a count of 1
  take it below 0 (`HookRace.ClosesRaceBelowZero`).
* A sync that comes between a removal's deletion of the counter and its unmapping
  of the cgroups leaves a count that no cgroup covers
  (`CoverRuns.SyncInsideRemoval`), and a top consumer whose path is forgotten: a
  later breach of the namespace, although it is registered again, makes nobody kill
  anything (`BreachRuns.NobodyKills`). When exactly there is a kill is in
  `BreachRuns.BreachKillsExactly`.
* A re-sync that no longer lists a pod leaves its cgroup mapped, also after the
  namespace is removed (`SyncerRuns.DroppedCgroupStaysMapped`), and a scan that races
  with a removal writes to a nil map (the result of `Syncer.Syncer.MapScanned`).
* Nothing keeps limits from being negative. If the credits subtracted from such a
  limit wrap around, and only then, a request breaks its bounds: a batch the caller
  names is granted out of an empty pool, and a batch chosen for the caller records the
  negative limit itself as the node's entry
  (`QuotaLedger.RequestUnderAnyLimit`). The other theorems take limits that are not
  negative.

## Model

| member | source | states |
|---|---|---|
| MapSum.WrappedTotal | lease_k8s.go:112-115 | The accumulating loop over a map gives the wrapped 64-bit sum, in whatever order the entries come |
| LeaseManager.KeysReachBothSides | lease_k8s.go:61-66 | The key with the suffix reaches the process side of the object; a plain name reaches the descriptor side exactly if it does not end in the suffix |
| LeaseManager.K8sLeaseManager.constructor | lease_k8s.go:46-56 | A lease manager's default batch is positive; 1000 replaces any other |
| LeaseManager.K8sLeaseManager.RequestLease | lease_k8s.go:83-100 | Wrong node and failed reads are errors that change nothing; otherwise the request runs on the side the key names |
| LeaseManager.K8sLeaseManager.RequestFD | lease_k8s.go:102-150 | On any object read, the stored object, the reply and the heartbeat are those of the request's plan under the conditional write |
| LeaseManager.K8sLeaseManager.RequestProc | lease_k8s.go:152-196 | The same for processes; no heartbeat |
| LeaseManager.K8sLeaseManager.ReleaseLease | lease_k8s.go:198-211 | A failed read returns 0 and changes nothing; otherwise the release runs on the side the key names |
| LeaseManager.K8sLeaseManager.ReleaseFD | lease_k8s.go:213-244 | The release's plan under the conditional write; the heartbeat goes only after an accepted write, and a refused one returns 0 |
| LeaseManager.K8sLeaseManager.ReleaseProc | lease_k8s.go:246-265 | The same for processes; the heartbeat stays |
| LeaseManager.K8sLeaseManager.EnsureLease | lease_k8s.go:307-337 | A Lease that the Get finds is updated with the current time, one that it does not find is created, which fails if it exists after all; failed writes change nothing |
| LeaseManager.K8sLeaseManager.CollectActive | lease_k8s.go:367-379 | The active set holds exactly the holders of the listed leases that were renewed less than 60 s ago |
| LeaseManager.HeartbeatsLastAMinute | lease_k8s.go:367-379 | A heartbeat counts until just under 60 s and not at 60 s, and never without a holder or a renew time |
| LeaseManager.K8sLeaseManager.DropInactive | lease_k8s.go:383-392 | The deleting loop keeps exactly the node's own entry and those of active nodes, and reports a change exactly if there was one |
| LeaseManager.K8sLeaseManager.ReclaimExpiredLeases | lease_k8s.go:354-437 | The reclaim's plan for the holders active in the listing, under the conditional write; nothing to reclaim means no write |
| LeaseManager.K8sLeaseManager.RenewalTick | lease_k8s.go:459-469 | One tick renews and reclaims for each listed quota in turn; a failing reclaim does not stop the rest. If reads are current, heartbeats listed and updates arrive, every listed object loses exactly the entries of other nodes without a heartbeat younger than 60 s, on both sides, balances and takes the next version if there were any, and no other object changes |
| LeaseManager.TicksReclaim | lease_k8s.go:459-469 | The same about the stored objects, for any number of listed quotas |
| LeaseManager.TickRenewsOwnHeartbeats | lease_k8s.go:459-469 | A tick renews the node's own heartbeat in every listed namespace it reaches and touches nobody else's |
| LeaseManager.ApiServer.UpdateStatus | lease_k8s.go:144-146 | A status write is accepted exactly if the object has not changed since it was read, and leaves the spec alone |
| QuotaLedger.DefaultBatchRange | lease_k8s.go:122-130 | The batch chosen for the caller lies between 1 and the smaller of the default batch and the limit |
| QuotaLedger.DefaultBatchIsTenth | lease_k8s.go:122-130 | It is a tenth of a limit over 100, rounded down, and all of a smaller one, and never more than the lease manager's own batch |
| QuotaLedger.FirstGrant | lease_k8s.go:122-142 | That is what the first node that names no batch is granted out of an empty pool |
| QuotaLedger.RequestGrants | lease_k8s.go:107-142 | A holder gets back what it has; an exhausted pool grants nothing; otherwise the grant is the smaller of the batch and what is left, is positive, keeps the sum within the limit, and no arithmetic wraps |
| QuotaLedger.ReleaseGivesBack | lease_k8s.go:213-243 | A release takes away exactly the amount it returns and nothing else |
| QuotaLedger.ReclaimRemovesStale | lease_k8s.go:381-421 | A reclaim removes exactly the other nodes' entries outside the active set, on both sides, and writes exactly if there are any |
| QuotaLedger.ReclaimIsIdempotent | lease_k8s.go:404-434 | A second reclaim with the same active set writes nothing |
| QuotaLedger.ApplySound | lease_k8s.go:112-142 | Every operation keeps all entries positive and both sums within an int64 |
| QuotaLedger.ApplyNeverOvercommits | lease_k8s.go:132-139 | Only spec edits start or worsen over-commitment; right after a grant there is none |
| QuotaLedger.BalanceAfterCommit | lease_k8s.go:223-243 | When available descriptors and allocations add up to the limit after a commit: if and only if the operation recomputed them, or they still fit |
| QuotaLedger.EntriesAreWrittenOnce | lease_k8s.go:107-110 | An entry comes only by its node's own grant, goes only by its own release or a reclaim that did not see it active, and never changes in between |
| QuotaLedger.SidesAreApart | lease_k8s.go:83-100 | A request or release on one side leaves the entries of the other and both limits alone |
| QuotaLedger.FirstVersion | lease_k8s.go:267-272 | The first write of a lease manager takes version 1 |
| QuotaLedger.RequestUnderAnyLimit | lease_k8s.go:112-146 | Under any int64 limit and for both kinds of batch: grants are positive and within the limit if and only if the limit less the credits does not wrap; when a request is written, for how much, and exactly when the amount is negative |
| QuotaLedger.NegativeLimitGrants | lease_k8s.go:132-138 | With the smallest limit and 5 credits out, a request of 7 is granted in full, and one that names no batch records the limit as the entry |
| LedgerRuns.ListingShowsFreshNodes | lease_k8s.go:362-379 | In whatever order the leases are listed, the active set is that of the nodes with a fresh heartbeat |
| LedgerRuns.ManagerTakesTheStep | lease_k8s.go:144-146 | The lease manager's methods leave the stored object and answer exactly as the steps of the runs do |
| LedgerRuns.HeartbeatsTakeTheStep | lease_k8s.go:307-352 | The lease manager's writes to its Lease are the renewals and deletions of the runs, or nothing |
| LedgerRuns.StepIsAtomic | lease_k8s.go:144-146 | A step adds at most one version, by an atomic operation on the current one |
| LedgerRuns.StaleWritesChangeNothing | lease_k8s.go:144-146 | A write from a version out of date changes nothing, and is reported exactly if there was something to write |
| LedgerRuns.RunRefinesAtomic | lease_k8s.go:83-272 | In every interleaving, every version of the object is that of the atomic allocator running the accepted operations in commit order |
| LedgerRuns.RunVersion | lease_k8s.go:267-272 | The version number grows by one for each committed write of a lease manager, and by nothing else |
| LedgerRuns.RunKeepsCreditsSound | lease_k8s.go:102-189 | In every run, every version ever stored has positive entries only and sums that fit an int64 |
| LedgerRuns.RunNeverOvercommits | lease_k8s.go:132-142 | In every run, no version but an edited one is further over its limit than the one before, and one written by a grant is not over it |
| LedgerRuns.RunStaysWithinLimit | lease_k8s.go:132-139 | With the spec fixed, the credits of every reachable version sum to at most the limit |
| LedgerRuns.RunConservesDescriptors | lease_k8s.go:404-414 | From a commit that recomputes them until the next edit, available descriptors and allocations add up to the limit |
| HeartbeatRuns.PunctualNodeKeepsCredits | lease_k8s.go:354-402 | Once the node has a heartbeat that no reclaim in progress and no listing still to come misses, and while the period of its renewals, the lag of the listings and twice the clock skew are together below 60 s, no step of any node changes its entry, on either side |
| HeartbeatRuns.LateHeartbeatLosesCredits | lease_k8s.go:144-148 | The run in which a reclaim that lists heartbeats from before the node had one takes its credits, although its heartbeat is fresh by then |
| HeartbeatRuns.ReclaimRecoversStoppedNodes | lease_k8s.go:354-437 | However late it commits, a reclaim takes exactly the entries of the nodes whose heartbeat was missing or 60 s old when it listed them, restores the balance, and leaves nothing for a second one |
| FairShare.SharesInClosedForm | lease_k8s.go:112-139 | From an empty pool the k-th node to ask holds max(0, min(r, limit - (k-1) r)), and the shares add up to the limit or to what was asked for |
| FairShare.HoldersAndTotal | lease_k8s.go:132-139 | Exactly the first ceil(limit / r) nodes hold credits, and once they have asked the pool is shared out |
| FairShare.TenNodesShare | lease_k8s.go:122-139 | With the default batch, ten nodes share a pool of more than 100 credits, a tenth each, and an eleventh gets the rest of the division by 10, if there is one |
| FakePool.FakeLeaseManager.SetGlobalPool | lease_test.go:29-41 | Creates the pool or changes its limit and nothing else |
| FakePool.FakeLeaseManager.RequestLease | lease_test.go:43-72 | No pool is an error; otherwise one step of the pool and its answer |
| FakePool.FakeLeaseManager.ReleaseLease | lease_test.go:74-91 | No pool or no lease returns 0; otherwise one step of the pool and its answer |
| FakePool.TakeStaysExact | lease_test.go:52-71 | A node that asks a pool with credits left gets, on top of what it has, the batch it names, or a tenth of the limit up to 1000, or what is left, and the total grows by that |
| FakePool.TotalStaysExact | lease_test.go:62-91 | The running total is the sum of the node leases after every operation, and the clamp at 0 has nothing to do |
| FakePool.RunTotalStaysExact | lease_test.go:29-91 | The same over all runs |
| FakePool.PoolAgreesWithLedger | lease_test.go:62-71 | The fake pool and the ledger answer alike and stay alike exactly unless a holder asks a pool that has credits left |
| FakePool.PoolSimulatesLedger | lease_test.go:43-91 | Along every run in which nodes ask only while holding nothing, both give the same answers |
| Enforcer.EnforcerMaps.OverLimit | ebpf/src/enforcer_kern.c:228-284 | The hook's effect on all maps, its return code and its event are those of the install function; the process hook is the same code (127-180) |
| Enforcer.EnforcerMaps.Charge | ebpf/src/enforcer_kern.c:256-283 | The two checks, the budget growth and the count |
| Enforcer.EnforcerMaps.GrowSlice | ebpf/src/enforcer_kern.c:264-273 | One slice more, a tenth of the limit held within 10 to 100, up to the limit |
| Enforcer.EnforcerMaps.TrackInstall | ebpf/src/enforcer_kern.c:286-293 | The process is killed exactly if the event names its own cgroup as the top consumer; the clone hook is the same (182-189) |
| Enforcer.EnforcerMaps.TrackClose | ebpf/src/enforcer_kern.c:295-319 | Only the last reference to an existing file counts down |
| Enforcer.EnforcerMaps.TrackExit | ebpf/src/enforcer_kern.c:191-207 | An exit counts down the cgroup and its namespace, neither below 0 |
| Enforcer.EnforcerMaps.RecordInc | ebpf/src/enforcer_kern.c:209-218 | The cgroup's counter is created at 1 or goes up by one |
| Enforcer.EnforcerMaps.RecordDec | ebpf/src/enforcer_kern.c:220-226 | The cgroup's counter goes down by one, not below 0 |
| Enforcer.EnforcerMaps.ResetCounter | syncer.go:268-287 | The first slice is handed out; an existing counter keeps its count and top consumer |
| EnforcerRuns.AttemptInBudget | ebpf/src/enforcer_kern.c:256-282 | Within the budget an install is admitted exactly while the count is below the limit |
| EnforcerRuns.SliceIsTenth | ebpf/src/enforcer_kern.c:264-268 | A slice is a tenth of the limit, at least 10 and at most 100 |
| EnforcerRuns.InstallTakesSlice | ebpf/src/enforcer_kern.c:263-282 | An install that has used up the budget below the limit raises it by 10, by a tenth of the limit or by 100, up to the limit, and is admitted |
| EnforcerRuns.BudgetWrapsUnderNegativeLimit | ebpf/src/enforcer_kern.c:269-280 | With a limit of -1 the growth of the budget wraps around, and the install is refused |
| EnforcerRuns.TimesAreNoted | ebpf/src/enforcer_kern.c:254-254 | A checked install and a counted close are noted with their time |
| EnforcerRuns.SlicingIsTransparent | ebpf/src/enforcer_kern.c:256-282 | From a fresh counter, count <= budget <= limit always, and the sliced hook counts, admits and refuses step for step what the plain quota does; with limits up to 100 also across re-syncs |
| EnforcerRuns.FalseRefusalExactly | ebpf/src/enforcer_kern.c:263-280 | An install below the limit is refused exactly if one more slice still leaves the budget at or under the count |
| EnforcerRuns.ResyncRefusesExactly | syncer.go:268-280 | When a re-sync makes the hook refuse installs below the limit: never with limits up to 100, from twice a tenth of the limit below 1000, and from a tenth and 100 more from there on |
| EnforcerRuns.RecoveryAfterResync | ebpf/src/enforcer_kern.c:263-280 | Exactly (count - budget) / step installs are refused, and the next one is admitted |
| EnforcerRuns.RefusalStep | ebpf/src/enforcer_kern.c:263-280 | Each of those refusals takes the budget one step closer to the limit |
| EnforcerRuns.NoFalseBreach | ebpf/src/enforcer_kern.c:256-318 | If closes match installs, the count never exceeds true usage, a breach means true usage is at the limit, and until the first breach the two are equal |
| EnforcerAccounts.TopConsumerIsHighWater | ebpf/src/enforcer_kern.c:245-248 | The recorded top consumer is the first cgroup to have reached the greatest count any install has seen since the counter was created |
| EnforcerAccounts.NoCgroupAboveTop | ebpf/src/enforcer_kern.c:235-248 | If the cgroups start at 0, none ever counts more than the top consumer |
| EnforcerAccounts.CgroupsCoverNamespace | ebpf/src/enforcer_kern.c:209-318 | The counters of a namespace's cgroups add up to at least its count at all times, in exactly those runs in which every unmapping of a cgroup leaves the others covering it |
| EnforcerAccounts.LateUnbindsCover | syncer.go:219-245 | That is so in every run that unmaps cgroups only when the counter is gone |
| EnforcerAccounts.LateUnbindsExactly | syncer.go:219-245 | Those are exactly the interleavings in which no sync resets the counter between its deletion and an unmapping |
| HookRace.RaceBound | ebpf/src/enforcer_kern.c:256-318 | With N executions of the install hook and any number of closes and re-syncs that take several steps beside them, count plus installs past the check stay within limit + N - 1 in exactly those runs in which no close subtracts from 0 and no re-sync stores a count that is beyond the bound by then |
| HookRace.InstallsAreBounded | ebpf/src/enforcer_kern.c:256-318 | With N executions of the install hook, guarded closes and any changes of the budget beside them, count plus installs past the check never exceed limit + N - 1 |
| HookRace.RaceBoundIsReached | ebpf/src/enforcer_kern.c:256-282 | For every limit and every N there is a run that reaches the bound |
| HookRace.OneExecutionStaysWithinLimit | ebpf/src/enforcer_kern.c:256-318 | One install at a time keeps the count within the limit, whatever is closed and however the budget changes beside it |
| HookRace.UninterruptedIsAtOnce | ebpf/src/enforcer_kern.c:312-316 | A close, or a re-sync, that nothing interrupts is one guarded step, or a change of the budget alone |
| HookRace.UninterruptedInstall | ebpf/src/enforcer_kern.c:256-283 | An install that nothing interrupts takes one, four, or seven to nine steps, and leaves the count and the budget of the hook that runs at once |
| HookRace.ClosesRaceBelowZero | ebpf/src/enforcer_kern.c:312-316 | Two closes that both check a count of 1 leave 2^64 - 1, and no install is admitted from then on |
| HookRace.ResyncsHaveNoBound | syncer.go:274-280 | From a full namespace, with one install at a time, one re-sync beside it and no file closed that the run has not opened, every higher count can be reached under any limit |
| SyncLeases.RequestServes | syncer.go:79-89 | A sync of descriptors asks for descriptor credits and one of processes for process credits: a holder gets what it holds, another node a part of what is left, and the other side is left alone |
| SyncLeases.RequestRenews | lease_k8s.go:144-150 | A sync of descriptors renews the node's heartbeat in the namespace, and one of processes none |
| SyncLeases.RemovalGivesBack | syncer.go:214-217 | After both releases of a removal the node has no entry on either side, and nothing else has changed |
| SyncLeases.RemovalDropsHeartbeat | lease_k8s.go:232-243 | A removal that gives back descriptors deletes the lease manager's heartbeat in the namespace |
| Syncer.Syncer.SyncNamespace | syncer.go:75-141 | The lease is requested under the key of the side; a node that gets through holds an entry on that side and no other, unless nothing is left, and enforces exactly that entry, or the limit; the cgroups of live pods are mapped, noted and tracked; the sync for processes is the same code (143-209) |
| Syncer.Syncer.RemoveNamespace | syncer.go:211-252 | Both sides' credits are released first, after which the node has no entry on either side and no heartbeat; then limits, counters, tracked cgroups with their mappings, counters and paths, and the name are gone |
| Syncer.Syncer.MapScanned | syncer.go:673-690 | New cgroups are mapped for both kinds and tracked; if the namespace has gone meanwhile, the write panics exactly if there is anything new |
| Syncer.Syncer.HandleBreachEvent | syncer.go:484-536 | Which cgroup path userspace kills, if any |
| SyncerRuns.LiveCgroupsAre | syncer.go:108-127 | The cgroups mapped by a sync are those of the unfinished pods that could be resolved |
| SyncerRuns.SyncIsItsSteps | syncer.go:91-130 | A sync is its two map operations without the lock and its section that holds it, if nothing comes between |
| SyncerRuns.RemovalIsItsSteps | syncer.go:219-248 | So is a removal: four deletions without the lock, and the section that holds it |
| SyncerRuns.HooksCommuteWithMapping | syncer.go:106-130 | A hook that runs while the lock is held commutes with the mapping or unmapping of every other cgroup, and has the same verdict before and after it |
| SyncerRuns.SyncTakesEffect | syncer.go:91-130 | The limit and counter after a sync, the exact set of tracked cgroups with mapping and path, the name, and everything else unchanged |
| SyncerRuns.ScanTakesEffect | syncer.go:673-690 | Of the cgroups handed to it, exactly which ones the scan adds, and everything else unchanged |
| SyncerRuns.TablesAgree | syncer.go:99-130 | However syncs, scans, removals and hooks interleave, a cgroup has a path exactly if the kernel maps it, and tracked cgroups map to their namespace |
| SyncerRuns.RemovalIsComplete | syncer.go:219-247 | A removal clears everything of its namespace that it tracks and leaves every other namespace unchanged |
| SyncerRuns.RemovalUnmapsTracked | syncer.go:233-244 | A removal unmaps exactly the cgroups tracked when it is called |
| CoverRuns.RemovalUnbindsLate | syncer.go:219-245 | A removal, in whatever order it takes the cgroups, unmaps them only after the counter is gone |
| CoverRuns.SyncInsideRemoval | syncer.go:219-245 | The interleaving of a removal, a sync and an install that leaves a count of 1 and no cgroup |
| CoverRuns.TablesAreCovered | syncer.go:219-245 | However syncs, scans, removals and hooks interleave, for both kinds and all namespaces, the cgroup counters cover the count at all times in exactly those runs in which the locked part of no removal takes cgroups that a count still needs |
| CoverRuns.RunsFromStartAreCovered | syncer.go:219-245 | From the start of the syncer, that is so in every run in which no sync of a namespace comes between the two parts of its removal |
| SyncerRuns.DroppedCgroupStaysMapped | syncer.go:129-130 | After a sync and a removal, exactly those cgroups are still mapped that were mapped before and that the sync did not report |
| BreachRuns.EventIsAccurate | ebpf/src/enforcer_kern.c:94-106 | A breach event names the trigger, its namespace and a top consumer that has installed there |
| BreachRuns.BreachHasOneKiller | syncer.go:484-536 | While recorded top consumers have paths: never both kill; userspace kills the top consumer and not the trigger; exactly one kills if and only if the kernel did or the name is registered; the two give-up branches are not reached |
| BreachRuns.EveryBreachKillsOnce | ebpf/src/enforcer_kern.c:256-293 | From the start of the syncer, if no sync comes between the two parts of a removal, and the namespace is registered and not forgotten when the event is handled, each breach is followed by exactly one kill |
| BreachRuns.BreachKillsExactly | syncer.go:484-536 | However syncs, scans, removals, hooks and the two lookups of the handler interleave: never two kills, and one if and only if the kernel kills, or the namespace is registered at the first lookup and no removal has taken the top consumer by the second |
| BreachRuns.RegisteredExactly | syncer.go:106-107 | Registered means: a sync has come to its locked part, and no removal to its own since |
| BreachRuns.LostExactly | syncer.go:233-244 | Taken means: a removal found the cgroup tracked, and no sync or scan has reported it since |
| BreachRuns.ForgetKeepsTops | syncer.go:233-247 | The locked part of a removal forgets a recorded top consumer exactly if it is tracked and the counter is there again |
| BreachRuns.TopsStayKnownExactly | syncer.go:219-247 | Every recorded top consumer has a path at all times in exactly those runs in which that does not happen |
| BreachRuns.UninterruptedSpareTops | syncer.go:219-247 | It does not happen if no sync comes between the two parts of a removal |
| BreachRuns.NobodyKills | syncer.go:519-527 | The run, with a limit of 1 and a sync inside a removal, after which a breach of a registered namespace makes nobody kill anything |
| Cluster.KernelTakesTheStep | syncer.go:91-97 | The steps of a node in the cluster runs are what its kernel maps do for the namespace |
| Cluster.KernelWorksElsewhere | ebpf/src/enforcer_kern.c:228-284 | Hooks and map operations for other namespaces do not show in a namespace's limit and counter |
| Cluster.SyncTakesTheStep | syncer.go:79-89 | The syncer's request leaves the object as the step of the runs does, and what it goes on to enforce is what the step offers |
| Cluster.OfferIsWhatIsHeld | lease_k8s.go:107-110 | What a sync whose request is granted goes on to enforce is what the ledger says its node holds |
| Cluster.StepFits | syncer.go:75-97 | Every step that follows the rules for holders keeps limit, count and syncs in progress of every holder in line with its credits |
| Cluster.RunFits | syncer.go:75-97 | So does every such run, and the limit stays what it was |
| Cluster.FreshWorldFits | syncer.go:75-97 | The starting conditions of the cluster theorems hold before any node has asked for credits |
| Cluster.HoldersStayWithinLimit | syncer.go:75-97 | If credits are newly granted only to nodes without counter and sync in progress, each holder counts at most its credits and the counts of the holders add up to at most the global limit, in every run |
| Cluster.GlobalLimitHolds | syncer.go:75-97 | If credits are taken only from nodes without counter and sync in progress, the counts of all nodes add up to at most the global limit in every reachable state, and every node counts at most what it holds |
| Cluster.OnlyHoldersStep | syncer.go:75-97 | Under those rules only nodes with credits ever have a counter or a sync in progress |
| Cluster.GlobalLimitHoldsFromStart | syncer.go:75-97 | The same from a world in which nobody has asked for credits |
| ClusterReach.ReachIsExact | ebpf/src/enforcer_kern.c:256-282 | Hooks alone can take the counts of all nodes beyond a bound if and only if the reaches of the nodes add up to more |
| ClusterReach.StepKeepsWithin | syncer.go:91-97 | A step keeps the reaches within the limit exactly if it adds no more reach than is left, or lowers the limit no further |
| ClusterReach.LimitHoldsExactly | syncer.go:75-97 | In every run, also when a node falls back to a limit it has read from an older spec, the counts of all nodes stay within the limit at all times and whatever the hooks do, if and only if every such step keeps within it |
| ClusterLimits.RulesKeepWithin | syncer.go:75-97 | The four rules are enough for that |
| ClusterLimits.FallbackBreaksTheLimit | syncer.go:85-89 | From the start, following all other rules: a node that is granted nothing takes the namespace over its limit |
| ClusterLimits.StaleReadBreaksTheLimit | lease_k8s.go:91-110 | So does a read out of date |
| ClusterLimits.ReleaseFirstBreaksTheLimit | syncer.go:214-224 | So does releasing credits before deleting the counter |
| ClusterLimits.ReclaimBreaksTheLimit | lease_k8s.go:383-402 | So does reclaiming the credits of a node that goes on counting |
| ClusterLimits.EditBreaksTheLimit | syncer.go:75-97 | So does lowering the limit below what has been granted |
| ClusterLimits.RegrantBreaksTheLimit | lease_k8s.go:112-142 | Granting anew to a node that still counts lets holders count more than they hold and together more than the limit |
| ClusterLimits.EveryRuleIsNeeded | syncer.go:75-97 | For each of the four rules there is a run from the start that follows all the others and ends with counts over the limit |
| ClusterBeats.TimelyWithdraws | lease_k8s.go:383-402 | If every reclaim in progress has seen every node that enforces, credits are taken from no such node |
| ClusterBeats.TimelyRunsFollow | lease_k8s.go:354-402 | If the heartbeats of all nodes that enforce are on time whenever they are listed, and nodes ask only when reclaims in progress have seen them, then credits are taken from no node that enforces |
| ClusterBeats.TimelyClusterStaysWithinLimit | lease_k8s.go:354-402 | From the start, with the period of heartbeats, the lag of listings and twice the clock skew together below 60 s, the counts of all nodes stay within the limit in every such run, whatever is reclaimed |
| CgroupPaths.Candidates | cgroup.go:74-86 | The eight paths the resolver probes, written out, in its order |
| CgroupPaths.CandidatesParse | cgroup.go:74-86 | Of each pair of probed paths the first parses back to the pod's id and the second does not parse |
| CgroupPaths.SlicePathRoundTrip | cgroup.go:138-146 | The slice path of a pod parses back to the pod's id exactly if the id has neither an underscore nor a slash |
| CgroupPaths.ParsesExactly | cgroup.go:138-146 | A name parses exactly if "-pod" occurs in it, to what follows the first occurrence, without ".slice" at the end |
| CgroupPaths.SliceNamesAreDistinct | cgroup.go:75-86 | Ids without underscores have distinct slice names |
| CgroupPaths.PlainNamesDoNotParse | cgroup.go:138-146 | The names of the other layout are never recognised, whatever the id |
| CgroupPaths.FindPodCgroupDirs | syncer.go:695-713 | The search ends on every tree and returns the paths of the listed addresses, in order |
| CgroupPaths.PodDirsAreExact | syncer.go:695-713 | Those addresses are exactly the pod directories with no pod directory between them and the root, each once |
| CgroupPaths.FoundPathsAreTheirs | syncer.go:695-713 | Each reported path lies under the root, is its directory's name joined to the path of its parent, and has that name, a pod name, as its last element |

## Left out

- Kubernetes clients, caches, watches and controllers: the shared object, a resource-version check and reads of any earlier version stand for them. The write is taken to be accepted only if the object is unchanged; config/crd.yaml declares neither the status subresource nor these status fields.
- A write that is accepted while its reply is lost.
- Wrap-around of the version number, of the cgroup counters and of `last_used_ns` in the kernel: the version is stated modulo 2^64, and so is the namespace count where its races are modelled; elsewhere the counters are unbounded and would need 2^64 steps.
- LeaseManager.K8sLeaseManager.RenewalTick: one tick of `StartLeaseRenewal`; the endless loop and its ticker are left out, and the runs contain its renewals and reclaims as separate events, in any order and number. With a 30 s ticker, the period of the heartbeat theorem is 30 s plus the delay of a tick.
- Lease objects in the namespace that do not belong to this manager; they could only enlarge an active set.
- LRU eviction, full maps and dropped ring-buffer records: map operations are taken to succeed, and every event to be delivered.
- Error returns of single map operations in the syncer; the failed pod listing is modelled.
- `NamespaceKey`: a namespace stands for its key, that is, the hash is taken to be injective on the namespaces in use.
- HookRace.RaceBound: the updates of `last_used_ns` and of the top consumer are not part of the race; a re-sync there brings back old values of these as well.
- SyncerRuns.TablesAgree: a section that holds the lock is one step, with the hooks that run during it taken before or after it (`SyncerRuns.HooksCommuteWithMapping`); `resetNsCounter` is one step there, and its lookup and update are taken apart in `HookRace`.
- Cluster.GlobalLimitHolds: a sync's listing of pods and the mapping of cgroups are not part of the cluster runs; an install there is one by a cgroup that is already mapped.
- SyncerRuns.ScanTakesEffect: which cgroups a scan finds (syncer.go:622-671) is a parameter; `CgroupPaths` has the search in the tree of cgroups.
- ClusterReach.LimitHoldsExactly: takes limits that are not negative; a negative one is a limit of about 2^64 in the kernel.
- eBPF loading and attachment, ring-buffer decoding, `KillCgroupProcs`, inode reads and directory reads: effects of the operating system. A delivered event is a value and a directory tree is a datatype.
- `filepath.Join` is concatenation with a slash; cleaning never touches the last element of the paths built here.
- The children that `Resolve` adds to a found pod directory, `CachedPodResolver`, `GetStatus`, deep copies, metrics, logging, flags and `controller.go`: plumbing.
- `ReconcileLeaseWatermark` and `GetTopConsumerCgroup` exist in the tests only.
