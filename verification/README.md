# Agent core: a verified model

A Dafny model of the parts of the backend whose correctness depends on interleaving, on two stores kept
in step, or on an encoding that has to be read back. `dafny verify dfyconfig.toml` checks everything.

| files | what they model |
|---|---|
| `Admission`, `Pool`, `PoolInvariant`, `PoolCapacity`, `PoolSafety`, `PoolKill`, `PoolStrand`, `PoolPromise`, `PoolAlone`, `PoolSteps`, `PoolScan`, `PoolLive`, `PoolCapabilities`, `PoolWitness` | the resident agent pool as a step system over all interleavings |
| `TaskManager`, `IdleScan` | the pool manager and one idle scan, one call at a time |
| `ActiveLease` | the lazily purging lease registry and its histories |
| `AgentRuntime` | the per-agent status machine and its terminal events |
| `Availability`, `Registry`, `CatalogSync` | the agent catalog cache, its two maps, and the handshake queue |
| `Fingerprint`, `MigrationCheck` | the migration audit's digest stream and before/after comparison |
| `ProcessReport`, `LogoPath`, `RuntimeEnv` | the stderr line, the logo path normaliser, the runtime environment rewrite |
| `Basics`, `Text` | sequences, sets and text |

## How the pool is cut into steps

- One `enforce_resident_capacity` call together with the increment of `building_count` is one step: both
  run under `capacity_lock`.
- The reservation is dropped when the init future ends, before the cell stores the value. Release and
  publication are therefore separate steps. The bound is exact when they follow each other at once
  (`CapacityWhenPaired`); otherwise it has slack, and the slack is attained (`SlackIsAttained`).
- A cell is a value written once, one permit and a FIFO of waiters. Every access to the map of slots is
  one step. `clear` is a sequence of removals.
- Agent status and activity, memory use, map order, refusal of an agent's own `kill`, cancellation and the
  factory's outcome are free inputs of the steps. Memory percentages are real numbers.

## What turned out false of the code, and exactly when

- The limit does not bound running agents: `kill` during a build removes the slot and has no agent to
  stop, so the agent published later is never counted nor stopped. `LimitDoesNotBoundLiveAgents` is such a
  run. `RemovalStrandsExactly` is the exact condition: a removal, by whatever step, can be followed by such
  an agent if and only if the slot was empty and some call held it, so an eviction never can. `LiveExact`
  counts the running agents, and `LiveBoundOverRuns` says when they pass the pool's own total.
- A concurrent caller may get Ok with an agent that lacks the capability it asked for: the check happens
  before the slot is obtained (`OkWithoutCapability`). The exact conditions, stage by stage: before it has
  obtained a slot a call can rely on nothing, unless it asked for nothing (`ReadyCapabilitiesExact`). Once it
  holds one, a full slot decides by its value, without any queueing; on an empty slot it can be let down
  unless it asked for nothing, or the permit is with a call that has a good agent, or the slot is out of the
  map and all others who hold it ask for enough (`HoldingCapabilitiesExact`). In the queue of an empty slot
  only the holder and the calls ahead matter (`QueuedCapabilitiesExact`). To a call that nobody disturbs from
  its arrival on it cannot happen (`UndisturbedCall`, and `OkIsCapable` for the object).
- `kill_and_wait` may resolve and the slot be filled afterwards, exactly when a call that obtained the slot
  earlier still holds it (`GivingUpIsExact`); a call can be between obtaining the slot and queueing, and
  `GivingUpHappens` is a run that ends so.
- An idle scan stops by id what it collected before. It hits the collected agent if and only if nobody took
  that slot out of the map meanwhile, and it does not look whether the agent it hits is still idle
  (`ScanHitsExactly`, `ScanStopsBusyAgent`).
- The lease registry reads a wall clock. Its purge stays invisible, with any clock, if and only if nobody
  reads a lease before its expiry after somebody else found it expired (`PurgingVisibleExactly`).
- A handshake on an id that is not cached can leave a catalog member unavailable without a reason;
  `HandshakeExact` gives the condition. If a refresh runs between a handshake's two map writes, even an
  available row can carry a reason (`OverlapExact`, `OverlapBreaksConsistency`). `TwoWritesExact` gives the
  condition for handshake and reload with any operations in between, `HydrateOverlapExact` for a reload
  inside a hydration; removals are safe (`TwoRemovalsKeepWeak`).
- A handshake that is written and then cannot be read back leaves the cache behind (`StaleHappens`). Cache
  and database differ on a column exactly when the messages written since the row was last read have
  changed its value (`StaleExactly`).
- Migration checks that pass one by one need not pass as a whole when rows share keys
  (`DuplicatesBreakComposition`); `ComposesExactly` gives the condition. Keys may be removed from
  `client_preferences` only, and this repository declares its `key` as primary key
  (crates/aionui-db/migrations/001_initial_schema.sql:36), so whole audits of its databases do compose
  (`AuditsCompose`). `AuditsNeedNotCompose` needs a database whose table has no primary key, where
  `_table_key_columns` falls back to the column name.
- The comments on `emit_finish` and `emit_error_data` call them atomic. The lock is released before the
  send, so a terminal event can come out after the next reset (`StaleEventOvertaken`): exactly when some
  reset finds an event pending (`LateEventsExactly`).
- The comment on `decode_row` says that hydration uses the cached projection; the code probes. The model
  follows the code.

## Model

| member | source | states |
|---|---|---|
| Admission.SatisfiesIsPreorder | crates/aionui-ai-agent/src/types.rs:170-179 | Covering a request is a total order on capability sets: reflexive, transitive, antisymmetric, total |
| Admission.SatisfiesOnVersions | crates/aionui-ai-agent/src/types.rs:170-179 | A request for a version is covered by that or a later one, never by none; a request for none always |
| Admission.LruCandidatesOnFields | crates/aionui-ai-agent/src/task_manager.rs:160-175 | The candidate list on the agents' own status and last activity, smallest activity first |
| Admission.AdmissionOnFields | crates/aionui-ai-agent/src/task_manager.rs:177-209 | The whole admission decision on memory, counts, status and last activity: who goes, who stays, when the build starts |
| Admission.LruCandidatesExact | crates/aionui-ai-agent/src/task_manager.rs:160-175 | The candidates are exactly the other initialised conversations with status None or Finished, each once, ordered by last activity |
| Admission.DecideIsLruCorrect | crates/aionui-ai-agent/src/task_manager.rs:177-209 | At or over the limit an admitted build evicts exactly one conversation, a least recently used idle one, never the requester; "at capacity" exactly when nothing else is idle; from 85% memory no build starts and only idle conversations go |
| PoolInvariant.StepKeepsInv | crates/aionui-ai-agent/src/task_manager.rs:228-348 | Every step of every caller keeps the joint invariant of permits, queues, origin of agents, stops and reservations |
| PoolInvariant.ReachableInv | crates/aionui-ai-agent/src/task_manager.rs:228-348 | The invariant holds in every reachable state |
| PoolSteps.NothingIsRuledOut | crates/aionui-ai-agent/src/task_manager.rs:228-348 | Which steps each stage of a call may take: every outcome of factory, refusal, cancellation, memory and other callers is admitted |
| PoolSteps.AdmitEffect | crates/aionui-ai-agent/src/task_manager.rs:177-209 | Admission in the step system performs the decision: the victims leave, admitted or not, their agents are handed over, nobody else leaves, and the call goes on with a reservation or fails and frees its permit |
| PoolSteps.KillEffect | crates/aionui-ai-agent/src/task_manager.rs:276-294 | A kill takes one conversation out, empty or not, and hands over its agent if there is one |
| PoolSteps.KillWakeEffect | crates/aionui-ai-agent/src/task_manager.rs:316-320 | A kill future that wakes up stops the agent it finds |
| PoolCapacity.StepTotal | crates/aionui-ai-agent/src/task_manager.rs:177-209 | Residents plus builds plus the release window grow only by an admission below the limit, and then only up to limit plus window |
| PoolCapacity.EvictionMakesRoom | crates/aionui-ai-agent/src/task_manager.rs:198-207 | An admission with eviction removes one resident |
| PoolCapacity.CapacityOverRuns | crates/aionui-ai-agent/src/task_manager.rs:177-272 | Over every run, residents plus builds plus window stay within the largest effective limit plus the largest window seen by an admission |
| PoolCapacity.CapacityWhenPaired | crates/aionui-ai-agent/src/task_manager.rs:259-272 | When publication follows release at once, residents plus builds never pass the largest effective limit |
| PoolCapacity.ReservationsExact | crates/aionui-ai-agent/src/task_manager.rs:401-407 | `building_count` is the number of builds holding a reservation, in every reachable state; it never goes below zero |
| PoolWitness.SlackIsAttained | crates/aionui-ai-agent/src/task_manager.rs:259-272 | For every k some run with limit one has k builds in the window and a total of one plus k: the slack in the bound cannot be lowered |
| PoolSafety.SingleFlight | crates/aionui-ai-agent/src/task_manager.rs:243-273 | Per slot at most one build runs and at most one succeeds; all Ok results from a slot are the same agent |
| PoolSafety.PublishedForever | crates/aionui-ai-agent/src/task_manager.rs:87-92 | A published value never changes |
| PoolSafety.FailureLeavesRetryable | crates/aionui-ai-agent/src/task_manager.rs:251-272 | A failed, refused or cancelled build leaves the cell empty with its permit free, ready for the next in line |
| PoolSafety.AgentsConserved | crates/aionui-ai-agent/src/task_manager.rs:228-348 | Each built agent is exactly one of unpublished, resident, stopped, awaited by a kill future, orphaned; none is stopped twice |
| PoolSafety.OrphansNeedOverlap | crates/aionui-ai-agent/src/task_manager.rs:276-294 | An orphan implies that its slot was removed while its own builder held it and it was empty |
| PoolStrand.StrandingIsExact | crates/aionui-ai-agent/src/task_manager.rs:228-348 | A slot out of the map can come to hold an agent nobody stops if and only if it is not settled: it holds an unstopped agent, or is empty with a holder |
| PoolStrand.RemovalStrandsExactly | crates/aionui-ai-agent/src/task_manager.rs:276-348 | After any step that takes a slot out of the map (kill, a round of clear, eviction, capability-driven kill, kill_and_wait), some continuation strands an agent there if and only if the slot was empty and some call held it |
| PoolStrand.OverlapCanStrand | crates/aionui-ai-agent/src/task_manager.rs:276-294 | The converse of the row above on orphans: over runs, exactly the removals it names can be followed by one |
| PoolKill.KillAndWaitGuarantee | crates/aionui-ai-agent/src/task_manager.rs:296-334 | If every holder is building or queued when the kill future queues, then once it resolves every agent ever built in the slot is stopped, and the slot is never filled later |
| PoolKill.NoStragglerStays | crates/aionui-ai-agent/src/task_manager.rs:296-334 | That condition, once true of a removed slot, stays true, so it may be checked at the removal |
| PoolKill.SettledForever | crates/aionui-ai-agent/src/task_manager.rs:296-334 | A removed slot with a stopped agent, or empty with no holder, stays so in every continuation |
| PoolKill.GivingUpIsExact | crates/aionui-ai-agent/src/task_manager.rs:316-331 | After the future gives up on an empty slot, some continuation fills it if and only if some call still holds it |
| PoolWitness.GivingUpHappens | crates/aionui-ai-agent/src/task_manager.rs:316-331 | A run from the start in which the future has given up, a call still holds the slot, and the slot can still be filled |
| PoolLive.LiveExact | crates/aionui-ai-agent/src/task_manager.rs:228-294 | Running agents are the residents, the unpublished and the stranded ones, each counted once |
| PoolLive.LiveBoundOverRuns | crates/aionui-ai-agent/src/task_manager.rs:177-294 | Over every run, running agents that are not stranded stay within the limit plus the window; they pass the pool's total exactly when more are stranded than factories run |
| PoolLive.LimitDoesNotBoundLiveAgents | crates/aionui-ai-agent/src/task_manager.rs:276-294 | A run with limit one throughout and two running agents, one of them orphaned |
| PoolCapabilities.CapsOverRuns | crates/aionui-ai-agent/src/task_manager.rs:255-272 | A stored entry always carries the capabilities of the call that built it |
| PoolCapabilities.ReturnedCapabilities | crates/aionui-ai-agent/src/task_manager.rs:255-273 | A returned call got the agent of its slot, with the capabilities of the request that built it |
| PoolAlone.UndisturbedCall | crates/aionui-ai-agent/src/task_manager.rs:228-274 | From any reachable state, a call that alone moves returns only with what it asked for; a resident that covers it is returned and nothing else changes; an outdated one has been stopped |
| PoolAlone.CoveredCallReturns | crates/aionui-ai-agent/src/task_manager.rs:233-250 | With such a resident it returns in three steps, without queueing |
| PoolAlone.ReplaceEffect | crates/aionui-ai-agent/src/task_manager.rs:233-241 | Rebuilding takes the one conversation out, stops its agent once, and fails exactly if that agent refuses |
| PoolPromise.QueuedCapabilitiesExact | crates/aionui-ai-agent/src/task_manager.rs:233-273 | For a call queued on an empty slot: every continuation that returns it gives it the requested capabilities if and only if the holder and all calls ahead ask for enough (the holder alone once it has its agent) |
| PoolPromise.HoldingCapabilitiesExact | crates/aionui-ai-agent/src/task_manager.rs:243-273 | The same from the moment the call holds its slot, full or empty, in the map or out of it |
| PoolPromise.ReadyCapabilitiesExact | crates/aionui-ai-agent/src/task_manager.rs:233-247 | Before that, after its look at the map, a call can rely on the requested capabilities only if it requested none |
| PoolScan.ScanHitsExactly | crates/aionui-ai-agent/src/idle_scanner.rs:88-145 | A stop decided on earlier hits the collected agent if and only if its slot was not taken out meanwhile; the agent it hits, that one or one built since, is idle if and only if the last report about it, from its factory or later, says so |
| PoolScan.ScanStopsBusyAgent | crates/aionui-ai-agent/src/idle_scanner.rs:126-134 | An agent that became busy after the collection is stopped all the same |
| PoolCapabilities.OkWithoutCapability | crates/aionui-ai-agent/src/task_manager.rs:233-273 | A run in which Ok comes with an agent that lacks them |
| TaskManager.OkIsCapable | crates/aionui-ai-agent/src/task_manager.rs:228-274 | Run alone, Ok yields an entry with the requested capabilities; any other conversation is untouched or an evicted idle one |
| TaskManager.VersionsDecide | crates/aionui-ai-agent/src/task_manager.rs:228-274 | On version numbers: a resident new enough is returned untouched; otherwise Ok comes only with the agent just built, stored for the requested version |
| TaskManager.RebuildEvictsNobody | crates/aionui-ai-agent/src/task_manager.rs:233-241 | A capability-driven rebuild within the limit, under 85% memory, changes no other conversation |
| TaskManager.StoppedAreGone | crates/aionui-ai-agent/src/task_manager.rs:228-274 | A request stops exactly the agents that are resident before it and not after it, each once |
| TaskManager.WorkerTaskManager.GetOrBuildTask | crates/aionui-ai-agent/src/task_manager.rs:228-274 | Refines a plain map from conversation to agent and capabilities, and stops in order its own agent if it rebuilds and the evicted ones; the reservation is given back on every path |
| TaskManager.WorkerTaskManager.Initialise | crates/aionui-ai-agent/src/task_manager.rs:257-271 | Admission, reservation, factory and publication on the plain map, including both failures |
| TaskManager.WorkerTaskManager.EnforceResidentCapacity | crates/aionui-ai-agent/src/task_manager.rs:177-209 | Performs exactly the decision proved LRU-correct: the victims leave the map, their agents are stopped in order |
| TaskManager.WorkerTaskManager.KillUntilRefusal | crates/aionui-ai-agent/src/task_manager.rs:186-189 | The high-memory loop stops after the first agent that refuses, which is removed all the same |
| TaskManager.WorkerTaskManager.IdleLruCandidates | crates/aionui-ai-agent/src/task_manager.rs:160-175 | The loop and the stable sort yield the candidate list |
| TaskManager.WorkerTaskManager.ActiveCount | crates/aionui-ai-agent/src/task_manager.rs:350-352 | Counts the entries of the plain map |
| TaskManager.WorkerTaskManager.GetTask | crates/aionui-ai-agent/src/task_manager.rs:123-127 | Looks the agent up in the plain map |
| TaskManager.WorkerTaskManager.Kill | crates/aionui-ai-agent/src/task_manager.rs:276-294 | The entry is gone even if the agent refuses; an agent found is stopped once |
| TaskManager.WorkerTaskManager.KillAndWait | crates/aionui-ai-agent/src/task_manager.rs:296-334 | The entry is gone and an agent found is stopped |
| TaskManager.WorkerTaskManager.Clear | crates/aionui-ai-agent/src/task_manager.rs:336-348 | Empties the map and stops each agent found, once |
| TaskManager.WorkerTaskManager.ConfigureResidentPolicy | crates/aionui-ai-agent/src/task_manager.rs:214-218 | The limit is the larger of one and the request, the idle timeout the larger of a second and the request |
| TaskManager.WorkerTaskManager.CollectIdle | crates/aionui-ai-agent/src/task_manager.rs:354-398 | Returns what a registry that never forgets a lease would let it return, and leaves that history unchanged |
| IdleScan.CollectedOnFields | crates/aionui-ai-agent/src/task_manager.rs:354-398 | The same on the fields of slot, agent and lease: type, status, 64-bit idle time, expiry against the reading |
| IdleScan.CollectedIsFairGame | crates/aionui-ai-agent/src/task_manager.rs:354-398 | The collected ids are exactly the initialised ACP conversations with status None or Finished, idle strictly beyond the threshold, without a live lease |
| IdleScan.RecentActivityProtects | crates/aionui-ai-agent/src/task_manager.rs:363-370 | An agent is not collected within the threshold after its last activity |
| IdleScan.ScanAndCleanup | crates/aionui-ai-agent/src/idle_scanner.rs:88-145 | A scan removes exactly what the coordinator left; with a coordinator that only drops ids nothing else is touched, and a conversation whose lease outlives the scan's readings survives; a lease renewed while the coordinator runs comes too late |
| ActiveLease.SaturatingIsClosest | crates/aionui-ai-agent/src/active_lease.rs:24-26 | Expiries are sums in 64 bits, or the nearest bound |
| ActiveLease.LeaseLastsExactly | crates/aionui-ai-agent/src/active_lease.rs:24-48 | A renewal at t protects until t plus the time to live and not a millisecond longer, and no other id |
| ActiveLease.PurgingIsInvisible | crates/aionui-ai-agent/src/active_lease.rs:24-48 | For every nondecreasing clock and history of renewals, lookups and scans, the purging registry answers like one that never removes anything |
| ActiveLease.PurgingVisibleExactly | crates/aionui-ai-agent/src/active_lease.rs:24-48 | With any clock the answers agree if and only if no operation reads a lapsed lease before its expiry |
| ActiveLease.DroppedIsLapsed | crates/aionui-ai-agent/src/active_lease.rs:40-48 | What has been purged, told from the history alone: leases found expired since their last renewal |
| ActiveLease.ClockMustNotGoBack | crates/aionui-ai-agent/src/active_lease.rs:40-48 | A clock that goes back makes them differ |
| ActiveLease.ExpiriesNeverRecede | crates/aionui-ai-agent/src/active_lease.rs:24-38 | No expiry ever moves backwards, saturation included |
| ActiveLease.CollectedExact | crates/aionui-ai-agent/src/task_manager.rs:354-398 | Position by position, which entries of the map one pass selects |
| ActiveLease.LeaseProtects | crates/aionui-ai-agent/src/active_lease.rs:24-48 | A lease renewed at t keeps its conversation out of every later scan whose readings lie before t plus the time to live |
| ActiveLease.ActiveLeaseRegistry.Renew | crates/aionui-ai-agent/src/active_lease.rs:24-28 | Stores the saturated expiry in the registry and in its full history |
| ActiveLease.ActiveLeaseRegistry.RenewMany | crates/aionui-ai-agent/src/active_lease.rs:30-38 | The loop stores one expiry for all ids and counts them |
| ActiveLease.ActiveLeaseRegistry.ActiveUntil | crates/aionui-ai-agent/src/active_lease.rs:40-48 | Answers from the full history although expired leases have been dropped |
| AgentRuntime.StatusExact | crates/aionui-ai-agent/src/agent_runtime.rs:88-103 | The status is Finished exactly when, by the calls alone, something finished the turn since it was last opened |
| AgentRuntime.TerminalEventBound | crates/aionui-ai-agent/src/agent_runtime.rs:88-149 | In every interleaving, terminal events sent or pending number at most one plus the resets, one per turn, as many as winning emitters |
| AgentRuntime.EventsAreWon | crates/aionui-ai-agent/src/agent_runtime.rs:111-149 | Each terminal event is that of an emitter which found its turn open |
| AgentRuntime.OneWinnerPerTurn | crates/aionui-ai-agent/src/agent_runtime.rs:111-149 | Between two winning emitters there is a reset |
| AgentRuntime.FinishedUntilReset | crates/aionui-ai-agent/src/agent_runtime.rs:85-103 | Finished is left only by a reset |
| AgentRuntime.LateEventsExactly | crates/aionui-ai-agent/src/agent_runtime.rs:97-149 | No event comes out, or is still to come out, after its turn if and only if every reset finds nothing pending |
| AgentRuntime.QuietResetsKeepOrder | crates/aionui-ai-agent/src/agent_runtime.rs:97-149 | Then events appear in the order of their turns |
| AgentRuntime.StaleEventOvertaken | crates/aionui-ai-agent/src/agent_runtime.rs:109-127 | Otherwise an old turn's event can come out after a newer one |
| AgentRuntime.Runtime.TransitionTo | crates/aionui-ai-agent/src/agent_runtime.rs:88-95 | Finished absorbs; otherwise the status is set; the object stays where its recorded run leads |
| AgentRuntime.Runtime.ResetForNewTurn | crates/aionui-ai-agent/src/agent_runtime.rs:100-103 | Sets the status and opens a new turn |
| AgentRuntime.Runtime.EmitTerminal | crates/aionui-ai-agent/src/agent_runtime.rs:111-149 | Finishes, and appends its event exactly when the status was not yet Finished |
| Availability.ProbeExact | crates/aionui-ai-agent/src/registry.rs:1213-1271 | A probe succeeds exactly when the row is enabled and every program and runtime it requires is there; a failure names something really missing |
| Availability.ProbeOnFields | crates/aionui-ai-agent/src/registry.rs:675-680 | What a probe puts into an entry: path and availability on the fields of entry and host, and nothing else |
| Availability.DecodeShows | crates/aionui-ai-agent/src/registry.rs:548-665 | A row with type and source decodes, field by field, column by column, with the override before its own command and no command for the internal CLI |
| Availability.CachedOnFields | crates/aionui-ai-agent/src/registry.rs:682-740 | Cached availability on the fields of the entry and its last check |
| Availability.CachedReasonExact | crates/aionui-ai-agent/src/registry.rs:742-777 | The reason told from a stored code is reported under that code again, and names what the entry names |
| Availability.ProjectionsExplain | crates/aionui-ai-agent/src/registry.rs:675-707 | A probe is unavailable exactly with a reason; the cached projection lacks one exactly for the unexplained rows |
| Registry.CatalogOnIds | crates/aionui-ai-agent/src/registry.rs:513-516 | Catalog members are extension and custom agents and ten official ids |
| Registry.HydratedShowsRows | crates/aionui-ai-agent/src/registry.rs:215-243 | A hydrated cache holds exactly the rows that decode, showing each field of its row, with the path the host gives for the command shown |
| Registry.HandshakeShowsRow | crates/aionui-ai-agent/src/registry.rs:165-187 | After a handshake the entry shows the row as written, keeps availability and path if it was cached, and no other entry changes |
| Registry.HydrateEstablishes | crates/aionui-ai-agent/src/registry.rs:215-243 | A hydrated cache is consistent, whatever came before |
| Registry.RefreshEstablishes | crates/aionui-ai-agent/src/registry.rs:247-265 | A refresh repairs any inconsistency |
| Registry.ReloadKeeps | crates/aionui-ai-agent/src/registry.rs:269-289 | A reload keeps both forms of consistency, also when the row is gone or does not decode |
| Registry.ReloadIsLocalHydrate | crates/aionui-ai-agent/src/registry.rs:269-289 | A reload does for one id what a hydration would do, and nothing to the others |
| Registry.RefreshIsHydrate | crates/aionui-ai-agent/src/registry.rs:245-265 | For catalog members a refresh gives the entry and reason of a new hydration |
| Registry.HandshakeExact | crates/aionui-ai-agent/src/registry.rs:127-189 | A handshake keeps the weak form, and the strong form exactly unless it meets the stated guard |
| Registry.FreshAgentLosesReason | crates/aionui-ai-agent/src/registry.rs:682-707 | The guard holds for an agent added since the last hydration and never checked |
| Registry.FixedSourceIsSafe | crates/aionui-ai-agent/src/registry.rs:165-187 | It cannot hold for an id cached under an unchanged source |
| Registry.StepConsistency | crates/aionui-ai-agent/src/registry.rs:127-289 | Per operation: weak kept always, strong kept if and only if no handshake loses a reason |
| Registry.WeakOverRuns | crates/aionui-ai-agent/src/registry.rs:127-289 | After every operation of every run, reasons belong to cached rows that are not available |
| Registry.StrongOverRuns | crates/aionui-ai-agent/src/registry.rs:127-289 | With handshakes on cached ids of fixed source, a catalog member is unavailable exactly when it has a reason |
| Registry.OverlapExact | crates/aionui-ai-agent/src/registry.rs:165-198 | A refresh between a handshake's two writes breaks even the weak form exactly when it finds an available member gone |
| Registry.OverlapBreaksConsistency | crates/aionui-ai-agent/src/registry.rs:165-198 | A consistent state, for every handshake on it, where that happens: the command of an available agent is gone |
| Registry.TwoWritesExact | crates/aionui-ai-agent/src/registry.rs:185-186 | Whatever operations run between the reason write and the entry write of a handshake or reload, the weak form is lost exactly when the entry is available and they left a reason for it |
| Registry.TwoRemovalsKeepWeak | crates/aionui-ai-agent/src/registry.rs:275-284 | Removing an entry and then its reason is safe whatever runs in between |
| Registry.HydrateOverlapExact | crates/aionui-ai-agent/src/registry.rs:240-241 | A reload between the two writes of a hydration breaks the weak form exactly when it finds available what the hydration found lacking |
| Registry.AgentRegistry.Hydrate | crates/aionui-ai-agent/src/registry.rs:215-243 | The loop builds both maps from all rows that decode |
| Registry.AgentRegistry.RefreshAvailability | crates/aionui-ai-agent/src/registry.rs:247-265 | The loop re-probes catalog members in place, leaves the rest, replaces all reasons |
| Registry.AgentRegistry.ReloadOne | crates/aionui-ai-agent/src/registry.rs:269-289 | Replaces or removes one entry and its reason; returns the cached entry |
| Registry.AgentRegistry.UpdateCachedUnavailableReason | crates/aionui-ai-agent/src/registry.rs:191-198 | Afterwards the id has exactly that reason, or none, and every other id the one it had |
| Registry.AgentRegistry.ApplyHandshakeInner | crates/aionui-ai-agent/src/registry.rs:127-189 | Merges, writes the row, carries availability over, updates both maps |
| CatalogSync.WriteColumn | crates/aionui-db/src/repository/sqlite_agent_metadata.rs:430-482 | Merging and enrichment leave plain columns alone; None never clears |
| CatalogSync.WriteAllColumns | crates/aionui-ai-agent/src/registry.rs:127-156 | All six columns of a written row: config options merged with those cached, the modes and models they yield before the ones sent, absent ones kept |
| CatalogSync.HandshakeFold | crates/aionui-ai-agent/src/registry.rs:105-189 | In every run: bounded FIFO; each plain column is the last value among messages taken and written; cache and database agree on rows read back since their last write; every row read back is cached; writers of other columns do not disturb it |
| CatalogSync.LastWrittenMeaning | crates/aionui-ai-agent/src/registry.rs:105-189 | That value is the one of the last hit, or the initial one when nothing hits |
| CatalogSync.EntryShowsLastRead | crates/aionui-ai-agent/src/registry.rs:105-189 | In every run a cached plain column has the value after the messages consumed when its row was last read |
| CatalogSync.StaleExactly | crates/aionui-ai-agent/src/registry.rs:156-187 | Cache and database differ on a column if and only if the messages written since that read changed its value |
| CatalogSync.StaleHappens | crates/aionui-ai-agent/src/registry.rs:156-166 | One message, written and not read back, leaves any cached entry without that column behind |
| CatalogSync.DrainedCacheShowsLastValue | crates/aionui-ai-agent/src/registry.rs:105-189 | After draining, a cached column shows the last accepted and written value if and only if that is the value its row last read; always when the row was read since its last write |
| CatalogSync.DropsExact | crates/aionui-ai-agent/src/registry.rs:1139-1155 | Messages are lost if and only if one meets a full or closed queue |
| CatalogSync.ClosedForGood | crates/aionui-ai-agent/src/registry.rs:1139-1155 | Once the channel is closed nothing is accepted or consumed any more |
| CatalogSync.CatalogChannel.SendPartial | crates/aionui-ai-agent/src/registry.rs:1139-1155 | Appends exactly when the queue is neither full nor closed |
| CatalogSync.CatalogChannel.Drain | crates/aionui-ai-agent/src/registry.rs:105-117 | The consumer loop takes every queued message once, in order |
| Fingerprint.DecimalRoundTrip | scripts/migration/audit_data_migration.py:194 | A printed size reads back as itself |
| Fingerprint.TargetEndExact | scripts/migration/audit_data_migration.py:187 | Where a link target ends is decided by the stream, newlines in it notwithstanding |
| Fingerprint.StreamInjective | scripts/migration/audit_data_migration.py:184-196 | Equal streams come from equal lists of records |
| Fingerprint.LeIsLexicographic | scripts/migration/audit_data_migration.py:184 | The path order is that of a dictionary |
| Fingerprint.SortedExact | scripts/migration/audit_data_migration.py:184 | Sorting by path gives the same entries in strict path order |
| Fingerprint.FingerprintExact | scripts/migration/audit_data_migration.py:180-197 | Two trees have the same stream if and only if they hold the same files and links, in whatever order they are listed |
| Fingerprint.TreeFingerprint | scripts/migration/audit_data_migration.py:180-197 | The loop feeds that stream and counts files and bytes |
| MigrationCheck.PassesOnFields | scripts/migration/audit_data_migration.py:367-419 | The verdict on the fields of the two audits |
| MigrationCheck.CriticalTables | scripts/migration/audit_data_migration.py:36-55 | Which eighteen tables are compared |
| MigrationCheck.RemovableKeys | scripts/migration/audit_data_migration.py:79-88 | Which keys may go, and from which table |
| MigrationCheck.PreservedSound | scripts/migration/audit_data_migration.py:387-408 | A passing check means that every key outside the expected removals survives |
| MigrationCheck.UniqueKeysDecide | scripts/migration/audit_data_migration.py:387-408 | With unique row keys the count clause follows from the key clause |
| MigrationCheck.PreservedComposes | scripts/migration/audit_data_migration.py:387-408 | With unique row keys the check is transitive |
| MigrationCheck.ComposesExactly | scripts/migration/audit_data_migration.py:387-408 | Without unique keys, every further passing upgrade passes as a whole if and only if the first left room |
| MigrationCheck.DuplicatesBreakComposition | scripts/migration/audit_data_migration.py:387-408 | Tables with shared keys, for any removable set with two keys, where it does not |
| MigrationCheck.AuditsNeedNotCompose | scripts/migration/audit_data_migration.py:367-419 | Whole audits with the script's own removable keys that pass one by one and not as a whole |
| MigrationCheck.AddedRowsHarmless | scripts/migration/audit_data_migration.py:387-408 | Adding rows never makes a passing table fail |
| MigrationCheck.AuditsCompose | scripts/migration/audit_data_migration.py:367-419 | Whole audits compose over successive upgrades if the tables with removable keys have unique keys |
| MigrationCheck.CompareDatabaseAudits | scripts/migration/audit_data_migration.py:367-419 | The loops pass exactly when integrity holds, every critical table is preserved and no credential count drops |
| ProcessReport.RoundTripExact | crates/aionui-app/src/process_report.rs:32-51 | The line parses back to code, ordered fields with sanitised values and message if and only if code and keys are free of the separators |
| ProcessReport.SanitizeFixes | crates/aionui-app/src/process_report.rs:46-51 | Sanitising keeps the length, is the identity exactly on printable values without colon, and is idempotent |
| ProcessReport.ParseClean | crates/aionui-app/src/process_report.rs:32-51 | Whatever the line, parsed codes and keys are free of separators |
| ProcessReport.StderrLine | crates/aionui-app/src/process_report.rs:32-43 | The loop prints that line |
| LogoPath.AcceptedExactly | crates/aionui-assets/src/service.rs:59-78 | A path is accepted exactly when it has no backslash, colon, leading slash or parent part, and some name |
| LogoPath.ComponentsOfJoined | crates/aionui-assets/src/service.rs:64-71 | Joining names and taking components are inverse |
| LogoPath.Canonical | crates/aionui-assets/src/service.rs:59-78 | Normalising is idempotent and its results consist of normal names |
| LogoPath.SameNormalForm | crates/aionui-assets/src/service.rs:59-78 | Accepted paths normalise alike if and only if their lists of names are equal |
| LogoPath.NormalizeLogoPath | crates/aionui-assets/src/service.rs:59-78 | The loop with its early exits computes that normal form; the last replacement finds nothing |
| RuntimeEnv.AppliedValues | crates/aionui-ai-agent/src/types.rs:102-152 | Each managed key has the context's value once, under both names alike, or none; other keys keep their values |
| RuntimeEnv.AppliedByName | crates/aionui-ai-agent/src/types.rs:102-165 | The same by the eight variable names: which carries user, conversation, helper and base URL, and that no other name is touched |
| RuntimeEnv.LaterAbsorbs | crates/aionui-ai-agent/src/types.rs:102-152 | Applying twice equals applying the last; unmanaged entries are a prefix in their order |
| RuntimeEnv.BuildTaskOptions.RetainUnmanaged | crates/aionui-ai-agent/src/types.rs:109-121 | The loop keeps exactly the unmanaged entries, in order |
| RuntimeEnv.BuildTaskOptions.ApplyConversationRuntimeContext | crates/aionui-ai-agent/src/types.rs:102-152 | Rewrites the environment and sets context version 3 |

## Left out

- Two registry operations that are both half done: between the two writes of one, others run as a whole. A refresh holds the lock of the rows until its reasons are written and is one step.
- A lookup that reads a lease and then removes it is one step; a renewal between the two halves would be lost.
- IdleScan.ScanAndCleanup: models a scan during which only leases change; other calls between collection and stop are in `PoolScan`. Spawned stops are taken in list order.
- Liveness: that queues drain, futures resolve or retries succeed.
- Memory orderings: atomics and map operations are sequentially consistent.
- NaN memory percentages, `/proc/meminfo` parsing and environment variables; the percentage is an input.
- TaskManager.WorkerTaskManager.KillAndWait: models a call that is not interleaved, where an empty slot has nobody to wait for; the waiting future is in `Pool`.
- AgentRuntime.Runtime.EmitTerminal: the broadcast channel's capacity and its receivers are not modelled, and events sent through plain `emit` are not counted.
- Registry.AgentRegistry.Hydrate: a failing repository call is an operation of the run that changes nothing, not an error value; the same holds of a reload.
- Row fields that no modelled decision reads (names, icons, args, env overrides, guidance, team capability), and the parsing of type, source and error-code columns, which appear parsed.
- Config option merging and the derivation of modes and models: arbitrary functions, so those three columns have no fold theorem.
- Writers that add or remove rows, or change type, source or handshake columns, during handshake synchronisation: the fold covers edits of all other fields; consistency of the two maps holds with arbitrary edits.
- Management lists, diagnostics and visibility filters of the registry: reads of one row each.
- UTF-8: the fingerprint stream is a stream of characters. SHA-256 of the stream is not modelled, file hashes are 64 arbitrary characters.
- The SQL, backup, smoke-test and file-copy parts of the migration script; check details other than name and outcome.
- Windows path prefixes in the logo path normaliser: components are those of Unix.
- Logging, HTTP, CLI, agent managers and the agent factory.
