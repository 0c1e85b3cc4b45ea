# DRA driver for NVIDIA GPUs: a Dafny model

This project models the stateful parts of the driver and proves what they keep over all runs: the
checkpointed Prepare and Unprepare of the GPU kubelet plugin with dynamic MIG, the compute-domain
plugin with its IMEX channels, the clique of compute-domain daemons that share one API object, the
supervision of the IMEX daemon process, the keyed work queue, the partitionable-device counters, the
canonical MIG names, the precedence of opaque configurations, the checkpoint file with its two
versions and its lock, the cleanup of stale claims, and the binding of KV cache claims to pools.

`dafny verify dfyconfig.toml` checks everything.

## Layout

| files | content |
|---|---|
| `Basics`, `Decimal`, `Claims` | options and results, decimal printing, allocation results |
| `MigNames`, `CounterNames` | canonical MIG names (printer, pattern, parser), counter names |
| `Partitions`, `Allocations` | counters of full and partitioned GPUs, the profile walk, feasible allocations |
| `Configs` | precedence of opaque configurations and the grouping of results |
| `GpuProtocol` | the durable state of the GPU plugin and its small steps; a run is a sequence of steps |
| `GpuInvariants`, `GpuOrphans`, `GpuTeardowns`, `GpuLimits` | what every run keeps, and where the guarantees end |
| `DeviceRelations`, `GpuPlugin` | the plugin's operations as methods that perform those steps |
| `Checkpoints`, `CheckpointLock`, `StaleClaims` | checkpoint file, lock file, background cleanup |
| `ComputeDomainPlugin` | the compute-domain kubelet plugin |
| `ApiObjects`, `Cliques`, `CliqueProtocol`, `NodeStatusProtocol`, `DnsNames` | shared lists under compare-and-swap, indices and DNS names |
| `ProcessSupervisor`, `ProcessManagers`, `WorkQueues` | the two small concurrent machines and the code that performs their steps |
| `KvCache` | KV cache pools and claims |

## How the code is modelled

- **Crashes.** A durable write (checkpoint update, NVML create or destroy, CDI file) is one step. Methods
  of `GpuPlugin.DeviceState` append every step to a ghost `history`; a crash leaves some prefix of it
  behind, and the constructor starts over from any run. What is proved of all runs therefore holds after a
  crash between any two steps. The plugin takes the checkpoint lock and its own mutex around each call, so
  calls follow one another.
- **Concurrency.** The process supervisor, the work queue, the lock file and the KV binding are machines
  whose steps are single accesses to shared state; theorems quantify over all step sequences. Classes
  beside them perform those steps. Writers of a shared API object attempt to write from any earlier
  version; only an attempt from the latest version succeeds.
- **The outside world.** NVML, file writes, API calls and configuration side effects fail at will
  (`if *`), NVML chooses instance ids, maps are walked in arbitrary order, decoders, hashes and the lookup
  from a name to a GPU are parameters. Every such failure is counted in a ghost field `faults`; a contract
  says which errors are possible without one, so that an operation cannot give up for no reason. Failed
  starts of a child are on the supervisor's list of moves instead.

Assumptions, all stated as predicates: device names are announced as `GpuInvariants.ValidNode` says;
claims name announced devices, and NVML does not reissue a GPU-instance id that a checkpoint entry still
records (`GpuInvariants.Orderly`); GPU instances do not overlap and live on GPUs in MIG mode
(`DeviceRelations.Hardware`), and disabling MIG mode has no effect while instances exist; a MIG device
handle that NVML does not return stands for an empty slot; a failed checkpoint write leaves the old file;
every claim has an allocation; API names are unique and UIDs are never reused (`StaleClaims.Serve`); KV
pools are not deleted and their specs do not change (`KvCache.Next`).

## What does not hold

- The rollback looks a parsed name up by a PCI bus ID that the parser leaves empty, so it never finds a GPU
  (`GpuLimits.ParsedNamesFindNoGpu`): it succeeds exactly for claims whose MIG names completed claims list
  (`GpuLimits.WrittenRollbackSucceedsIff`), and any other half-prepared claim with a MIG name is stuck
  (`GpuLimits.StuckUntilListed`). Which lookups would be safe is known exactly: for the devices of
  completed claims (`GpuLimits.DevicesStayLiveIff`) and for orphans (`GpuLimits.NoOrphansLookupIff`).
- A rollback skips every name that some completed claim lists. With admin access the device may belong to
  the claim being rolled back and be left without any entry (`GpuLimits.AdminAccessCanOrphan`).
  `GpuOrphans.NoOrphansIff` says which runs are free of orphans. A complete startup sweep makes up for
  orphans (`GpuPlugin.DeviceState.DestroyUnknownMigDevices`).
- Teardown goes by GPU-instance id; a reissued id destroys somebody else's device
  (`GpuLimits.ReissuedIdLosesDevice`). `GpuTeardowns.LiveIffTeardownsSpareOthers` says in which runs it does,
  and `GpuTeardowns.OwnDevicesSuffice` that comparing UUIDs would prevent it.
- The watchdog resets the process handle without the mutex, so stop() and Signal() can dereference nil after
  having checked it (`ProcessSupervisor.NilHandleIff`, `ProcessSupervisor.NilDereferenceIsReachable`).
- An item enqueued under the empty key makes failing unkeyed items get lost (`WorkQueues.UnkeyedIsRetriedIff`).
- A failed rewrite of the hosts file is not repeated for the same daemons
  (`DnsNames.FileAgreesIff`, `DnsNames.FailedRewriteIsNotMadeUpFor`); the update loop ends on such an error.
- The KV controller's patch names no version; if a claim's name is reused meanwhile the new claim is bound to
  the old claim's pool (`KvCache.PatchBindsRightIff`, `KvCache.ReusedNameIsMisbound`). Controller and
  kubelet pick the last and the first configuration respectively (`KvCache.KubeletAgreesIff`).
- A sanitised name may end in a hyphen (`MigNames.SanitisedNameEndsInHyphenIff`), in canonical names only by
  the cut of profile names longer than 253 characters (`MigNames.ProfilePartEndsInHyphenIff`).

## Model

| member | source | states |
|---|---|---|
| GpuPlugin.DeviceState.CrashAnywhere | cmd/gpu-kubelet-plugin/device_state.go:196-462 | after any calls from a sound start, and after a crash between any two durable steps: completed claims share no non-admin device; MIG devices of completed claims are live until their own teardown begins; no visible MIG device is an orphan if every drop was clean, as without admin access every drop is |
| GpuInvariants.CompletedDevicesStayLive | cmd/gpu-kubelet-plugin/device_state.go:196-303 | over every run, each MIG device recorded by a completed claim whose teardown has not begun exists, with the recorded compute instance and the configuration of its name |
| GpuLimits.DevicesStayLiveIff | cmd/gpu-kubelet-plugin/device_state.go:503-538 | that guarantee holds over all runs exactly when the lookup from a name never leads to a GPU carrying a different announcement of the same profile and placement |
| GpuInvariants.TearDownSparesLive | cmd/gpu-kubelet-plugin/device_state.go:1184-1211 | neither a rollback, nor another claim's Unprepare, nor the startup sweep may touch a live device of a completed claim |
| GpuInvariants.RollbackFindsNoHeldDevice | cmd/gpu-kubelet-plugin/nvlib.go:1235-1314 | a device that a rollback finds is never one that was made for a different name |
| GpuInvariants.LedHomeIsNeverMisled | cmd/gpu-kubelet-plugin/nvlib.go:1235-1237 | a lookup that leads announced names to their own GPU or nowhere never misleads |
| GpuInvariants.LiveInvStep | cmd/gpu-kubelet-plugin/device_state.go:196-462 | every durable step keeps the invariant behind the liveness of completed devices |
| GpuInvariants.CompletedClaimsAreDisjoint | cmd/gpu-kubelet-plugin/device_state.go:1145-1181 | over every run, with no assumption at all, two completed claims share no device that neither has with admin access |
| GpuOrphans.NoOrphansIff | cmd/gpu-kubelet-plugin/device_state.go:233-303 | write-ahead, over runs with admin access allowed: no visible MIG device is ever an orphan, at no prefix of the run, exactly when each step that drops a name (removal of an entry, or a retry that overwrites it) finds every such device that a completed claim lists recorded by another completed claim or named by another half-prepared one |
| GpuOrphans.NoOrphans | cmd/gpu-kubelet-plugin/device_state.go:246-303 | without admin access to MIG names every visible MIG device is named in the results of a checkpointed claim that is half prepared or records that very device |
| GpuOrphans.CleanStepKeepsOrphanFree | cmd/gpu-kubelet-plugin/device_state.go:196-462 | a durable step whose drops are clean leads from a state without orphans to one |
| GpuOrphans.StepWithoutOrphansIsClean | cmd/gpu-kubelet-plugin/device_state.go:196-462 | conversely, a step after which there is no orphan was clean |
| GpuOrphans.BaseInvStep | cmd/gpu-kubelet-plugin/device_state.go:196-462 | every durable step keeps placements apart, devices announced, records named and claims published |
| GpuOrphans.NoAdminRunIsClean | cmd/gpu-kubelet-plugin/device_state.go:1184-1192 | without admin access to MIG names every drop of a run is clean |
| GpuOrphans.SweptIsSound | cmd/gpu-kubelet-plugin/device_state.go:355-391 | a state in which completed claims are intact and list every visible device is one from which all guarantees hold, whatever happened before |
| GpuOrphans.CompletionRecordsItsDevices | cmd/gpu-kubelet-plugin/device_state.go:746-829 | when a claim completes, every live device that it names is among its records, so its Unprepare covers it |
| GpuOrphans.DroppedNameIsListed | cmd/gpu-kubelet-plugin/device_state.go:233-239 | a name that is dropped while a device of that name is visible is listed by a completed claim |
| GpuOrphans.PlacementsStayApart | cmd/gpu-kubelet-plugin/nvlib.go:936-950 | GPU instances of one GPU never overlap |
| GpuLimits.AdminAccessCanOrphan | cmd/gpu-kubelet-plugin/device_state.go:1184-1192 | on every node with a MIG configuration there is a run, using admin access, that leaves a device no checkpoint entry names |
| GpuLimits.NoOrphansLookupIff | cmd/gpu-kubelet-plugin/nvlib.go:1235-1241 | without admin access, no run from a clean installation ever leaves an orphan exactly when the lookup leads every announced MIG name to its own GPU or nowhere |
| GpuLimits.StrayLookupOrphans | cmd/gpu-kubelet-plugin/nvlib.go:1235-1241 | for every announced MIG name that is led to a different GPU there is such a run that ends with a device no entry names |
| GpuTeardowns.LiveIffTeardownsSpareOthers | cmd/gpu-kubelet-plugin/nvlib.go:1060-1073 | with ids that may be reissued: devices of completed claims stay live all along a run exactly when no teardown in it reaches an id that another completed claim has on record |
| GpuTeardowns.OwnDevicesSuffice | cmd/gpu-kubelet-plugin/nvlib.go:1060-1073 | if every teardown destroyed only what was made for its own claim, which a comparison of UUIDs would establish, no teardown would reach another claim, reissued ids or not |
| GpuTeardowns.HeldInvStep | cmd/gpu-kubelet-plugin/nvlib.go:1060-1073 | every step that reaches no other claim keeps the devices of completed claims live and made for them |
| GpuTeardowns.HitIsLoss | cmd/gpu-kubelet-plugin/nvlib.go:1060-1073 | a teardown that reaches another completed claim costs that claim its device |
| GpuLimits.OwnTeardownSparesOthersIff | cmd/gpu-kubelet-plugin/nvlib.go:1060-1073 | one destroy call spares the other completed claims exactly when none that is not being torn down records the same ids |
| GpuLimits.ReissuedIdLosesDevice | cmd/gpu-kubelet-plugin/nvlib.go:1060-1073 | a run in which a reissued GPU-instance id makes a retried teardown destroy another completed claim's device |
| GpuLimits.WrongParentLosesDevice | cmd/gpu-kubelet-plugin/nvlib.go:1236-1241 | a run in which a misleading lookup makes a rollback destroy a completed claim's device |
| GpuLimits.ParsedNamesFindNoGpu | cmd/gpu-kubelet-plugin/nvlib.go:1236-1241 | the lookup as written is keyed by a PCI bus ID that the name parser leaves empty, so it finds no GPU for any parsed name |
| GpuLimits.WrittenRollbackSucceedsIff | cmd/gpu-kubelet-plugin/device_state.go:503-538 | with the lookup as written, rolling a claim back succeeds exactly when each of its names is no MIG name or is listed by a completed claim |
| GpuLimits.StuckUntilListed | cmd/gpu-kubelet-plugin/device_state.go:233-255 | over runs: a half-prepared claim with a MIG name that no completed claim lists stays half prepared, its retry and its removal both disabled, until some claim completes with that name |
| GpuLimits.WrittenLookupLeadsNowhere | cmd/gpu-kubelet-plugin/nvlib.go:1236-1241 | the lookup as written meets the assumptions of the liveness and no-orphan guarantees |
| GpuPlugin.DeviceState.Prepare | cmd/gpu-kubelet-plugin/device_state.go:196-303 | a completed claim is left alone and reported again; an overlap is refused before any change; success means a completed entry, a CDI file, and one reference (request, pool, device) for each of this driver's results, kept as a GPU or as a MIG device made for it; an error leaves the old entry or a started one and, unless something outside has failed, is due to an overlap, to a rollback that finds no GPU, or to the configurations; other claims keep everything |
| GpuPlugin.DeviceState.PrepareFromScratch | cmd/gpu-kubelet-plugin/device_state.go:241-303 | from the write-ahead entry, with the claim's name, to the completed entry, without it |
| GpuPlugin.DeviceState.PrepareDevices | cmd/gpu-kubelet-plugin/device_state.go:622-829 | on success every result of this driver is prepared exactly once and every MIG device was made for this claim; on failure only devices were added; without a fault outside it fails exactly if the configurations cannot be read or applied |
| GpuPlugin.DeviceState.GetConfigResults | cmd/gpu-kubelet-plugin/device_state.go:622-698 | the configuration map over the defaults and the decoded configurations; fails exactly when an entry is not acceptable or a result is rejected |
| GpuPlugin.ConfigsFitTheirDevices | cmd/gpu-kubelet-plugin/device_state.go:673-697 | where Prepare can succeed, a result for a full GPU is governed by a GPU configuration and one for a MIG device by a MIG configuration |
| GpuPlugin.OwnConfigBeatsDefaults | cmd/gpu-kubelet-plugin/device_state.go:622-698 | a result is governed by the last matching configuration of class or claim if there is one, never by a default then |
| GpuPlugin.DeviceState.Unprepare | cmd/gpu-kubelet-plugin/device_state.go:393-462 | an unknown claim is a no-op, an unset state an error; success means the entry is gone, and the CDI file unless its deletion failed, and the recorded devices are gone or the names rolled back; failure keeps every entry and, unless something outside has failed, is due to the entry |
| GpuPlugin.DeviceState.UnprepareDevices | cmd/gpu-kubelet-plugin/device_state.go:831-887 | on success no recorded MIG device is left; nothing else is touched |
| GpuPlugin.DeviceState.UnpreparePartiallyPreparedClaim | cmd/gpu-kubelet-plugin/device_state.go:503-538 | on success every name of the claim is rolled back: no MIG name, listed by a completed claim, or without a visible device |
| GpuPlugin.DeviceState.DeleteMigDevIfExistsAndNotUsedByCompletedClaim | cmd/gpu-kubelet-plugin/device_state.go:1184-1211 | a name that a completed claim lists is left alone; otherwise success means that no visible device answers to it |
| GpuPlugin.DeviceState.DestroyUnknownMigDevices | cmd/gpu-kubelet-plugin/device_state.go:355-391 | devices that completed claims list are spared in any case; a sweep is incomplete only if something outside has failed; after a complete one nothing else is visible, and if completed claims were intact the state is one without orphans from which all guarantees hold |
| GpuPlugin.DeviceState.SweepGpu | cmd/gpu-kubelet-plugin/nvlib.go:395-430 | the visit of one GPU: listed devices spared, and on success none of its other devices visible |
| GpuPlugin.DeviceState.ValidateNoOverlappingPreparedDevices | cmd/gpu-kubelet-plugin/device_state.go:1145-1181 | succeeds exactly when no result of another completed claim and no result of this one want the same device of this driver, both without admin access |
| GpuPlugin.DeviceState.CreateMigDevice | cmd/gpu-kubelet-plugin/nvlib.go:884-1011 | on success the device exists with the configuration of its name, recorded as made by this claim; failures may leave a GPU instance behind |
| GpuPlugin.DeviceState.DeleteMigDevice | cmd/gpu-kubelet-plugin/nvlib.go:1014-1112 | success means that the GPU instance is gone and MIG mode was given a chance to go off; no other device changes; a partial failure may cost the compute instance only |
| GpuPlugin.DeviceState.MaybeDisableMigMode | cmd/gpu-kubelet-plugin/nvlib.go:1114-1148 | asks NVML to disable MIG mode exactly where no MIG device shows, and it goes off only where no instance is left |
| GpuPlugin.DeviceState.FindMigDevBySpec | cmd/gpu-kubelet-plugin/nvlib.go:1235-1314 | finds a visible device of the configuration on the looked-up GPU, or shows there is none |
| GpuPlugin.GetDevices | cmd/gpu-kubelet-plugin/prepared.go:123-152 | lists exactly the one reference of every device of every group, in order |
| Claims.CollectNonAdminDevices | cmd/gpu-kubelet-plugin/device_state.go:1128-1141 | exactly the names of this driver's devices without admin access |
| DeviceRelations.WalkAccounts | cmd/gpu-kubelet-plugin/device_state.go:746-829 | whatever the order of the walk over the configuration map, the prepared groups account for this driver's results |
| DeviceRelations.DefaultsMakeTheScanTotal | cmd/gpu-kubelet-plugin/device_state.go:638-656 | the two default configurations leave no known device without a configuration |
| DeviceRelations.NoSecondAnswer | cmd/gpu-kubelet-plugin/nvlib.go:1249-1310 | once the device found for a configuration is gone, none is left that answers to it |
| DeviceRelations.EveryPrefixIsRun | cmd/gpu-kubelet-plugin/device_state.go:241-303 | what a crash leaves behind anywhere along a run is the end of a run |
| Configs.GetOpaqueDeviceConfigs | cmd/gpu-kubelet-plugin/device_state.go:1071-1124 | class before claim configurations, each in list order; fails exactly on an unknown source, a non-opaque entry or an undecodable entry of this driver |
| Configs.DecodedInPrecedence | cmd/gpu-kubelet-plugin/device_state.go:1071-1124 | position by position: each outcome has the requests and the decoded value of one entry, classes come first, the list decides within a source, and no entry of this driver is missing |
| Configs.GetConfigResultsMap | cmd/gpu-kubelet-plugin/device_state.go:664-698 | each result lands in the group of its governing configuration; fails exactly when some result's device is unknown or its first match is explicit and of the wrong type |
| Configs.FindConfig | cmd/gpu-kubelet-plugin/device_state.go:673-697 | the backward scan finds the governing configuration or the type mismatch |
| Configs.GoverningIsUnique | cmd/gpu-kubelet-plugin/device_state.go:673-697 | the scan's answer is the one matching configuration of highest precedence |
| Configs.AnyWalkPartitions | cmd/gpu-kubelet-plugin/device_state.go:664-698 | in any order of the walk each of this driver's results is met exactly once |
| Configs.GroupMembers | cmd/gpu-kubelet-plugin/device_state.go:664-698 | a result is in a group exactly when it is this driver's and that configuration governs it |
| Configs.GroupConcat | cmd/gpu-kubelet-plugin/device_state.go:664-698 | a group keeps the order of the allocation |
| Configs.ScanIsTotal | cmd/gpu-kubelet-plugin/device_state.go:673-697 | a result stays without configuration exactly when nothing names its request and nothing unrestricted fits |
| Configs.ClaimBeatsClassBeatsDefault | cmd/gpu-kubelet-plugin/device_state.go:1060-1124 | the last matching claim configuration wins, else the last matching class configuration, else a default |
| MigNames.CanonicalNameRoundTrip | cmd/gpu-kubelet-plugin/mig.go:187-215 | a printed name is read back, without the PCI bus ID, exactly when the sanitised profile is not empty |
| MigNames.CanonicalNameIsInjective | cmd/gpu-kubelet-plugin/mig.go:109-112 | two configurations never share a name, whatever their profile names |
| MigNames.NameOfTwoWordProfile | cmd/gpu-kubelet-plugin/mig.go:109-112 | how the name is put together, for profiles called like 1g.10gb |
| MigNames.MatchIsUnique | cmd/gpu-kubelet-plugin/mig.go:240 | groups match the pattern exactly when the matcher returns them, so a name has one reading |
| MigNames.SanitisedShape | cmd/gpu-kubelet-plugin/mig.go:245-258 | the DNS alphabet, no leading hyphen, at most 253 characters; the last character is the subject of the next row |
| MigNames.SanitisedNameEndsInHyphenIff | cmd/gpu-kubelet-plugin/mig.go:245-258 | the result ends in a hyphen, which section 2.1 of RFC 1123 forbids, exactly when the cut to 253 characters lands on one, or nothing is cut and a hyphen stood before the final dot |
| MigNames.ProfilePartEndsInHyphenIff | cmd/gpu-kubelet-plugin/mig.go:109-112 | in a canonical name, where dots are removed first, only the cut can do that |
| MigNames.LongProfilePartEndsInHyphen | cmd/gpu-kubelet-plugin/mig.go:109-112 | every profile name of 252 letters or digits, a hyphen and one more is such an input |
| MigNames.CanonicalNameEndsInDigit | cmd/gpu-kubelet-plugin/mig.go:109-112 | the whole canonical name ends in a digit all the same |
| CounterNames.CounterNamesAreDistinct | cmd/gpu-kubelet-plugin/mig.go:260-271 | two capacity names of letters only and at most 63 characters that differ by more than case get different counter names |
| CounterNames.CounterNameOfTwoWords | cmd/gpu-kubelet-plugin/mig.go:260-271 | a camel-case name of two words is published with a hyphen between them, in lower case |
| CounterNames.CounterNameOfAcronym | cmd/gpu-kubelet-plugin/mig.go:260-271 | a run of capitals is published as one word, up to the capital that begins the next |
| CounterNames.SliceNamesAreApart | cmd/gpu-kubelet-plugin/partitions.go:208-210 | no capacity counter is called like a memory-slice counter |
| CounterNames.SliceNamesAreDistinct | cmd/gpu-kubelet-plugin/partitions.go:208-210 | each memory slice has a counter of its own |
| Partitions.CapacitiesToCounters | cmd/gpu-kubelet-plugin/partitions.go:141-148 | one counter per capacity, with its value, and no other |
| Partitions.AddCountersForMemSlices | cmd/gpu-kubelet-plugin/partitions.go:196-201 | one counter of value one per slice of the placement |
| Partitions.GpuInfo.PartCounters | cmd/gpu-kubelet-plugin/partitions.go:45-61 | the full device offers and consumes all capacities and all slices |
| Partitions.PartConsumesCounters | cmd/gpu-kubelet-plugin/partitions.go:171-176 | counter by counter under its published name: the fields of the profile, the memory in bytes, and one for each slice of the placement |
| Partitions.CounterNamesAre | cmd/gpu-kubelet-plugin/mig.go:115-127 | the published names: multiprocessors, copy-engines, decoders, encoders, jpeg-engines, ofa-engines, memory |
| Partitions.FullGpuCounters | cmd/gpu-kubelet-plugin/partitions.go:45-61 | counter by counter the full GPU offers what the greediest of the profiles found needs, and no more |
| Partitions.SetMaxAll | cmd/gpu-kubelet-plugin/nvlib.go:1319-1323 | the pointwise maximum of two capacity maps |
| Partitions.InspectMigProfilesAndPlacements | cmd/gpu-kubelet-plugin/nvlib.go:1153-1228 | the walk yields exactly the specs of profiles that fill their GPU instance, are not the excluded variant and are known to NVML, the exact maximum of every capacity and the largest placement; fails exactly when a query of a visited profile fails |
| Partitions.SpecFitsSharedCounters | cmd/gpu-kubelet-plugin/partitions.go:171-176 | a found spec consumes no more than the shared set, counter by counter, exactly when its placement ends within the counted slices |
| Allocations.SliceCountersMeanDisjoint | cmd/gpu-kubelet-plugin/partitions.go:45-61 | the slice counters suffice exactly when all placements are disjoint and within the GPU |
| Allocations.FeasibleAllocation | cmd/gpu-kubelet-plugin/partitions.go:45-61 | a feasible allocation has disjoint slices, inside the GPU, whose sizes add up to no more than there are |
| Allocations.FullGpuExcludesPartitions | cmd/gpu-kubelet-plugin/partitions.go:56-61 | beside the full GPU no device with a memory slice is feasible |
| Allocations.FullGpuDrainsEveryCounter | cmd/gpu-kubelet-plugin/partitions.go:56-61 | the full GPU takes every counter down to zero |
| CliqueProtocol.EveryVersionIsOk | cmd/compute-domain-daemon/cdclique.go:277-335 | under any interleaving of attempts from stale copies every version of the list has one entry per node, one node per index and all indices in the domain |
| CliqueProtocol.IndexNeverChanges | cmd/compute-domain-daemon/cdclique.go:337-349 | over every run a node keeps its index while its entry persists |
| CliqueProtocol.WriteKeepsOk | cmd/compute-domain-daemon/cdclique.go:277-477 | insertion, address update, status update, removal and cleanup each keep the invariant |
| CliqueProtocol.TurnsReadyIff | cmd/compute-domain-daemon/cdclique.go:429-477 | a write makes a node ready exactly if it sets that node's status to ready |
| CliqueProtocol.ReadyOnlyBySetStatus | cmd/compute-domain-daemon/cdclique.go:306-311 | over every run, a node that nobody has set to ready is ready in no version |
| CliqueProtocol.ComputeDomainCliqueManager.SyncDaemonInfoToClique | cmd/compute-domain-daemon/cdclique.go:277-335 | one compare-and-swap attempt: a node not listed gets one entry at the end, not ready, with the least unused index; of a listed one only the address changes; up to date means no write; fails for want of an index exactly when the copy has none left, and else only from a stale copy or a failed request |
| CliqueProtocol.ComputeDomainCliqueManager.RemoveDaemonInfoFromClique | cmd/compute-domain-daemon/cdclique.go:374-404 | one attempt; on success exactly the entries with this address are gone from the copy |
| CliqueProtocol.ComputeDomainCliqueManager.UpdateDaemonStatus | cmd/compute-domain-daemon/cdclique.go:429-477 | one attempt: only this node's status changes; up to date means no write; fails without a clique or an entry, from a stale copy or by a failed request |
| CliqueProtocol.ComputeDomainCliqueManager.MaybePushDaemonsUpdate | cmd/compute-domain-daemon/cdclique.go:408-426 | pushes exactly when some address is new or missing since the last push |
| CliqueProtocol.ComputeDomainCliqueManager.OnAddOrUpdate | cmd/compute-domain-daemon/cdclique.go:233-270 | syncs this daemon; what was pushed last has the addresses of a version that lists it |
| CliqueProtocol.CleanupClique | cmd/compute-domain-controller/cdstatus.go:286-323 | one attempt that deletes exactly the entries of nodes without a pod; no write when there are none |
| ApiObjects.ApiObject.Update | cmd/compute-domain-daemon/cdclique.go:325-330 | compare and swap: a stale copy never writes; a write may land although the reply is lost |
| ApiObjects.KeptByEveryWrite | cmd/compute-domain-daemon/cdclique.go:277-477 | what every write keeps holds of all versions over all sequences of attempts |
| Cliques.GetNextAvailableIndex | cmd/compute-domain-daemon/cdclique.go:350-371 | the smallest unused index, at most the number of entries; fails exactly when all indices of the domain are used |
| Cliques.FirstFree | cmd/compute-domain-daemon/cdclique.go:360-363 | the search loop ends at the least unused index |
| Cliques.NoIndexLeftIff | cmd/compute-domain-daemon/cdclique.go:350-371 | with the invariant, allocation fails exactly when the list has reached the maximum |
| NodeStatusProtocol.EveryNodeListIsOk | cmd/compute-domain-daemon/cdstatus.go:223-278 | with daemons of all cliques and the controller writing one list, no two entries of a clique with an id share an index, and those indices are in the domain |
| NodeStatusProtocol.NonFabricNodesShareAnIndex | cmd/compute-domain-controller/cdstatus.go:259-283 | entries without a clique all carry index -1 |
| NodeStatusProtocol.InsertionIsLocal | cmd/compute-domain-daemon/cdstatus.go:293-330 | an insertion into one clique does not move the next index of any other |
| NodeStatusProtocol.FabricReadyOnlyBySetStatus | cmd/compute-domain-daemon/cdstatus.go:419-467 | over every run, an entry with a clique whose node nobody has set to ready is ready in no version |
| NodeStatusProtocol.GetNextAvailableIndexInClique | cmd/compute-domain-daemon/cdstatus.go:293-330 | the smallest index unused within the clique; fails exactly when a clique with an id has none left |
| NodeStatusProtocol.ComputeDomainStatusManager.SyncNodeInfoToCD | cmd/compute-domain-daemon/cdstatus.go:223-278 | one attempt: a node not listed gets one entry at the end, not ready, with the least index unused in its clique; of a listed one only the address changes; up to date means no write; errors as for clique objects |
| NodeStatusProtocol.ComputeDomainStatusManager.RemoveNodeFromComputeDomain | cmd/compute-domain-daemon/cdstatus.go:380-416 | one attempt to drop exactly the entries with this address; no write when there are none |
| NodeStatusProtocol.ComputeDomainStatusManager.UpdateNodeStatus | cmd/compute-domain-daemon/cdstatus.go:419-467 | one attempt: only this node's status changes; up to date means no write |
| NodeStatusProtocol.SyncNodes | cmd/compute-domain-controller/cdstatus.go:208-239 | one attempt to rewrite the list, skipped exactly when every name has the same entry before and after |
| NodeStatusProtocol.GetNonStaleFabricNodes | cmd/compute-domain-controller/cdstatus.go:329-352 | keeps exactly the entries with a clique whose address belongs to a fabric pod |
| NodeStatusProtocol.BuildNodesFromPods | cmd/compute-domain-controller/cdstatus.go:259-283 | the entries for the pods, one by one |
| NodeStatusProtocol.PodsAreListed | cmd/compute-domain-controller/cdstatus.go:259-283 | those are an entry without clique, with index -1 and ready like the pod, per pod that has a node and an address, and no other |
| NodeStatusProtocol.CliquesAreMergedSoundly | cmd/compute-domain-controller/cdstatus.go:242-256 | concatenating sound cliques with different ids gives a list in which (clique, index) is unique |
| DnsNames.NameNeverChanges | cmd/compute-domain-daemon/cdclique.go:337-349 | over every run of the clique a daemon keeps its DNS name while its entry persists |
| DnsNames.MappingIsInjective | cmd/compute-domain-daemon/dnsnames.go:65-102 | in a sound clique with distinct addresses every daemon has one name and no two share one |
| DnsNames.MappedNamesAreListed | cmd/compute-domain-daemon/dnsnames.go:191-216 | every mapped name is in the static nodes file |
| DnsNames.DNSNameManager.ConstructDnsName | cmd/compute-domain-daemon/dnsnames.go:133-142 | a name exactly for the indices of the domain: the prefix and the index with four digits |
| DnsNames.DNSNameManager.UpdateDnsNameMappings | cmd/compute-domain-daemon/dnsnames.go:65-102 | an index outside the domain changes nothing; otherwise the map has the addresses of this clique's daemons with their names, and the hosts file is rewritten exactly if the map changed and the rewrite succeeded |
| DnsNames.FileAgreesIff | cmd/compute-domain-daemon/dnsnames.go:65-102 | after a success the hosts file agrees with the map exactly if it was rewritten now or agreed before |
| DnsNames.FailedRewriteIsNotMadeUpFor | cmd/compute-domain-daemon/dnsnames.go:88-102 | for all new daemons: a failed rewrite, after which every call with the same daemons reports no change and leaves the file in disagreement with the map |
| DnsNames.DNSNameManager.UpdateHostsFile | cmd/compute-domain-daemon/dnsnames.go:145-188 | foreign lines survive in order; the lines about daemons are exactly address, tab and name of the map; fails only if the file cannot be read or written |
| DnsNames.TrimSpaceIs | cmd/compute-domain-daemon/dnsnames.go:145-188 | a preserved line loses exactly the blanks at its ends |
| DnsNames.DNSNameManager.WriteNodesConfig | cmd/compute-domain-daemon/dnsnames.go:191-216 | lists one name per index of the domain |
| DnsNames.DnsNameIsInjective | cmd/compute-domain-daemon/dnsnames.go:34-37 | different indices have different names |
| ProcessSupervisor.AtMostOneUnreaped | cmd/compute-domain-daemon/process.go:81-163 | under any interleaving at most one child is unreaped, the one behind the handle; a nil handle means none and an empty channel |
| ProcessSupervisor.EveryStatusIsReceivedOnce | cmd/compute-domain-daemon/process.go:105-137 | no status is received twice and no child is given up before its status was received |
| ProcessSupervisor.ReapersTendTheirOwnChild | cmd/compute-domain-daemon/process.go:110-112 | a reaper reads the handle late and still waits on the child its own start launched, and its send never blocks |
| ProcessSupervisor.WaitAfterLostNeverBlocks | cmd/compute-domain-daemon/process.go:185-192 | after lost() returned true the channel holds the current child's status until the watchdog receives it |
| ProcessSupervisor.NilHandleIff | cmd/compute-domain-daemon/process.go:71-79 | having checked the handle, the update loop can still find it nil exactly when the watchdog has found the child lost with a clean status and not yet reset the handle |
| ProcessSupervisor.NilDereferenceIsReachable | cmd/compute-domain-daemon/process.go:122-163 | a run from the start in which the update loop dereferences a nil handle under the mutex |
| ProcessSupervisor.StepKeepsInv | cmd/compute-domain-daemon/process.go:49-222 | every access to shared state keeps the supervision invariant |
| ProcessManagers.ProcessManager.Tick | cmd/compute-domain-daemon/process.go:169-201 | one tick of the watchdog, with everybody else moving in between: success means that at some moment the mutex was taken, there was no child or no status, or that a status was received and a new child is behind the handle; if the tick does not come back it waits for the mutex or for a status, at work on the restart, never on the wait after lost() |
| ProcessManagers.ProcessManager.Restart | cmd/compute-domain-daemon/process.go:49-56 | success means that a new child was started and is behind the handle, and that a status was received if the unlocked reading showed a child; otherwise where the thread stands |
| ProcessManagers.ProcessManager.EnsureStarted | cmd/compute-domain-daemon/process.go:62-67 | it says that it starts a child exactly if the unlocked reading found none; success means that there is a child behind the handle, a new one if it says so |
| ProcessManagers.ProcessManager.Signal | cmd/compute-domain-daemon/process.go:71-79 | success means that the handle was set when it was used, an error that it was nil when it was checked; otherwise the mutex is taken or somebody has crashed |
| ProcessManagers.ProcessManager.Start | cmd/compute-domain-daemon/process.go:81-116 | success means that a new child was started and is behind the handle; an error that there was a child, or that the start failed |
| ProcessManagers.ProcessManager.Stop | cmd/compute-domain-daemon/process.go:139-163 | success means that a status was received and the handle is reset; a stop that does not come back waits for the mutex or for a status |
| ProcessManagers.ProcessManager.WaitLost | cmd/compute-domain-daemon/process.go:122-137 | the watchdog's wait, which never waits |
| ProcessManagers.ProcessManager.Lost | cmd/compute-domain-daemon/process.go:204-222 | true means that the child behind the handle has been reaped and its status waits in the channel; false that at some moment of the call the mutex was taken, there was no child or no status |
| WorkQueues.ActiveItemsAreLive | pkg/workqueue/workqueue.go:115-150 | before shutdown every active item is queued or being processed |
| WorkQueues.ItemsLeaveInTwoWays | pkg/workqueue/workqueue.go:152-190 | an item stops being queued or processed exactly by succeeding, or by failing while a different item is active for its key |
| WorkQueues.LastItemIsRetriedUntilSuccess | pkg/workqueue/workqueue.go:152-190 | the last item enqueued for a key stays active and is retried until it succeeds |
| WorkQueues.UnkeyedItemsAreRetried | pkg/workqueue/workqueue.go:92-113 | items without a key are retried until they succeed, if nobody uses the empty string as a key |
| WorkQueues.UnkeyedIsRetriedIff | pkg/workqueue/workqueue.go:168-178 | a failing unkeyed item is retried exactly when nothing is active under the empty key |
| WorkQueues.EmptyKeyDropsUnkeyed | pkg/workqueue/workqueue.go:168-178 | a run in which an item enqueued under the empty key makes an unkeyed one get lost |
| WorkQueues.WorkQueue.ProcessNextWorkItem | pkg/workqueue/workqueue.go:152-190 | takes the oldest item, settles it and is done with it; a failed item that is still the newest for its key is queued again |
| WorkQueues.WorkQueue.EnqueueWithKey | pkg/workqueue/workqueue.go:115-150 | the new item becomes the active one for its key and is queued |
| WorkQueues.WorkQueue.Enqueue | pkg/workqueue/workqueue.go:92-113 | queues a new item without a key; an object of another type is ignored |
| WorkQueues.WorkQueue.SettleItem | pkg/workqueue/workqueue.go:163-189 | records success or failure as one step of the machine |
| Checkpoints.WrittenIsReadBack | cmd/gpu-kubelet-plugin/checkpoint.go:53-63 | for any hash and faithful encoding, what is written passes both checksum checks; the reader finds all claims, a reader of the first version exactly the completed ones |
| Checkpoints.TamperingIsNoticed | cmd/gpu-kubelet-plugin/checkpoint.go:95-138 | unless the hash collides, two files that pass the checks under the same sums hold the same claims, for readers of either version |
| Checkpoints.UpThenDown | cmd/gpu-kubelet-plugin/checkpointv.go:70-98 | first version to second and back is the identity |
| Checkpoints.DownThenUp | cmd/gpu-kubelet-plugin/checkpointv.go:70-98 | second version to first and back keeps exactly the completed claims, without names |
| Checkpoints.DownThenUpIsIdentityIff | cmd/gpu-kubelet-plugin/checkpointv.go:70-98 | that loses nothing exactly when all claims are completed and nameless |
| Checkpoints.CheckpointV1.ToV2 | cmd/gpu-kubelet-plugin/checkpointv.go:70-82 | every claim, as completed |
| Checkpoints.CheckpointV2.ToV1 | cmd/gpu-kubelet-plugin/checkpointv.go:84-98 | the completed claims and no others |
| Checkpoints.Checkpoint.ToLatestVersion | cmd/gpu-kubelet-plugin/checkpoint.go:37-51 | the claims in the second version, sharing the object if there is one |
| Checkpoints.Checkpoint.MarshalCheckpoint | cmd/gpu-kubelet-plugin/checkpoint.go:53-63 | both versions of the claims under valid checksums; the shared object keeps its claims |
| Checkpoints.Checkpoint.SetChecksumV1 | cmd/gpu-kubelet-plugin/checkpoint.go:65-79 | sums up everything but the second version, and puts that back |
| Checkpoints.Checkpoint.SetChecksumV2 | cmd/gpu-kubelet-plugin/checkpoint.go:81-89 | sums up the second version alone |
| Checkpoints.Checkpoint.VerifyChecksum | cmd/gpu-kubelet-plugin/checkpoint.go:95-138 | true exactly when both checksums fit; the object is left as it was |
| Checkpoints.GetCheckpoint | cmd/gpu-kubelet-plugin/device_state.go:557-573 | succeeds exactly for a decodable file whose two sums are those of its contents without the sums, with the claims of its latest version |
| CheckpointLock.UpdatesAreSerial | cmd/gpu-kubelet-plugin/device_state.go:581-609 | under any interleaving of lock, read, write, failure and crash steps the file is the fold of the written mutations; none is lost |
| CheckpointLock.UndisturbedUpdateGetsThrough | cmd/gpu-kubelet-plugin/device_state.go:581-609 | after any run, crashes included, once the lock is free an undisturbed update reaches the file and gives the lock back |
| CheckpointLock.LastMutationCounts | cmd/gpu-kubelet-plugin/device_state.go:581-620 | a claim's entry is what the last mutation of that claim made it |
| CheckpointLock.OtherEntriesStay | cmd/gpu-kubelet-plugin/device_state.go:581-620 | a step changes the entry of its own claim at most |
| CheckpointLock.UnnamedEntriesStay | cmd/gpu-kubelet-plugin/device_state.go:581-620 | over every run, an entry that no written mutation names is what it was at first |
| CheckpointLock.MutualExclusion | pkg/flock/flock.go:70-136 | at most one process is between acquiring and releasing the lock |
| CheckpointLock.WithoutLockUpdatesAreLost | cmd/gpu-kubelet-plugin/device_state.go:575-580 | on the machine without the lock, for any file and two mutations of different claims, a run that writes both and loses the first |
| CheckpointLock.Flock.Acquire | pkg/flock/flock.go:70-136 | locked exactly if the first decisive turn of the polling loop acquired the lock; closed again after timeout, cancellation or another failure |
| StaleClaims.CheckpointCleanupManager.Cleanup | cmd/gpu-kubelet-plugin/cleanup.go:110-130 | exactly the claims it reports are handed to Unprepare, and they are gone from the API server then and at the end; whatever was half prepared, named and gone at the start is among them unless the server failed to answer for it |
| StaleClaims.CheckpointCleanupManager.UnprepareIfStale | cmd/gpu-kubelet-plugin/cleanup.go:149-186 | unprepares only claims that are gone, looked up by the name and namespace on record, although anything may happen between lookup and unprepare |
| StaleClaims.GoneForGood | cmd/gpu-kubelet-plugin/cleanup.go:175-183 | a UID that is gone stays gone, whatever is created or deleted |
| StaleClaims.LookupDecides | cmd/gpu-kubelet-plugin/cleanup.go:149-183 | lookup by recorded name and comparison of UIDs decides exactly whether a claim is gone |
| ComputeDomainPlugin.CompletionKeepsOk | cmd/compute-domain-kubelet-plugin/device_state.go:496-500 | completing a claim keeps channel 0 exclusive and completed claims disjoint |
| ComputeDomainPlugin.DeviceState.Prepare | cmd/compute-domain-kubelet-plugin/device_state.go:154-223 | every checkpoint it ever leaves behind has at most one completed claim with channel 0, admin access or not; a channel is refused while channel 0 is held; success means a started and then a completed entry, and one reference (request, pool, device) for each of this driver's results; an error that nothing outside has caused is due to an overlap or to configurations that cannot be read or applied |
| ComputeDomainPlugin.DeviceState.PrepareDevices | cmd/compute-domain-kubelet-plugin/device_state.go:346-435 | a claim with a channel gets through only while nobody holds channel 0; without a fault outside it succeeds exactly if the configurations can be read and applied |
| ComputeDomainPlugin.DeviceState.ApplyConfig | cmd/compute-domain-kubelet-plugin/device_state.go:467-526 | without a fault outside: a channel configuration applies exactly to a single result while channel 0 is free, a daemon configuration to a single device, any other to nothing |
| ComputeDomainPlugin.DeviceState.AssertImexChannelNotAllocated | cmd/compute-domain-kubelet-plugin/device_state.go:663-691 | success means that no completed claim holds the channel |
| ComputeDomainPlugin.ChannelIsGovernedByChannelConfig | cmd/compute-domain-kubelet-plugin/device_state.go:616-650 | a channel result is governed by a channel configuration, or by one that is always refused |
| ComputeDomainPlugin.OwnConfigBeatsDefaults | cmd/compute-domain-kubelet-plugin/device_state.go:592-650 | a result is governed by the last matching configuration of class or claim if there is one, never by a default then |
| ComputeDomainPlugin.DeviceState.GetConfigResults | cmd/compute-domain-kubelet-plugin/device_state.go:592-650 | the configuration map over the defaults and the claim's decoded configurations; fails exactly when an entry is not acceptable or a result is rejected |
| ComputeDomainPlugin.DeviceState.ValidateNoOverlappingPreparedDevices | cmd/compute-domain-kubelet-plugin/device_state.go:808-844 | succeeds exactly when no result of another completed claim and no result of this one want the same device of this driver, both without admin access |
| ComputeDomainPlugin.DeviceState.Unprepare | cmd/compute-domain-kubelet-plugin/device_state.go:225-295 | failure keeps the entry; success leaves neither entry nor CDI file; an error that nothing outside has caused is due to the entry |
| ComputeDomainPlugin.OneChannelClaimAtATime | cmd/compute-domain-kubelet-plugin/driver.go:108-112 | if claims name advertised channels only, at most one completed claim holds a channel |
| ComputeDomainPlugin.GetCdDevices | cmd/compute-domain-kubelet-plugin/prepared.go:96-115 | lists exactly the reference of every device of every group, in order |
| KvCache.BoundClaimsNameTheirPool | cmd/kvcache-controller/claim_reconciler.go:53-82 | under concurrent, stale and repeated reconciles a controller-bound claim names the pool its configuration asks for, and that pool has the claim's engine, model family, type, block size and tier (names not reused with another configuration) |
| KvCache.SharingIsByKeys | cmd/kvcache-controller/claim_reconciler.go:118-133 | bound claims that name one pool agree on engine, model family, type, block size and tier even under hash collisions; claims that agree on them and name no pool share one |
| KvCache.RebindingChangesNothing | cmd/kvcache-controller/claim_reconciler.go:76-81 | a repeated patch writes the name that is there |
| KvCache.PatchBindsRightIff | cmd/kvcache-controller/claim_reconciler.go:76-81 | a patch binds rightly exactly when the configuration that was read asks for the same pool and agrees on the five fields with the claim's own |
| KvCache.ReusedNameIsMisbound | cmd/kvcache-controller/claim_reconciler.go:76-81 | a run in which a claim's name is reused during a reconcile and the new claim gets the old claim's pool |
| KvCache.KubeletResolvesBoundPool | cmd/kvcache-kubelet-plugin/device_state.go:111-119 | with a single configuration the kubelet resolves the very pool the claim is bound to |
| KvCache.KubeletAgreesIff | api/nvidia.com/resource/v1beta1/kvcachepoolconfig.go:120-133 | the kubelet, working from the first configuration, resolves the name written for the last one exactly when the first names no pool or that one |
| KvCache.DecodeKVCachePoolConfig | cmd/kvcache-controller/claim_reconciler.go:87-113 | the last pool configuration, with its tier defaulted to DRAM, if its fields are usable; an error exactly when an entry cannot be decoded or they are not |
| KvCache.ResolveForKubelet | cmd/kvcache-kubelet-plugin/device_state.go:169-193 | resolves from the first pool configuration, class before claim; succeeds exactly when all entries decode, there is one, it is valid, and it or the annotation names a pool |
| KvCache.ClaimReconciler.GetOrCreatePool | cmd/kvcache-controller/claim_reconciler.go:135-178 | on success the pool exists under the name and has the five fields asked for; a known mismatch is an error, and any other error a failed request; the lost create race is covered |
| KvCache.ClaimReconciler.Reconcile | cmd/kvcache-controller/claim_reconciler.go:53-82 | whatever other reconciles do in between, patches included: leaves alone what does not concern it or is bound; on success the claim, if still there, is bound to the pool named or hashed from the five fields of the configuration that was read, which has these fields; errors have a reason |
| KvCache.NormalizedMayBeValid | api/nvidia.com/resource/v1beta1/kvcachepoolconfig.go:82-115 | defaults are idempotent, keep valid configurations as they are and make up for a missing tier only |

## Left out

- GpuOrphans.NoOrphans: requires claims without admin access to MIG names and a lookup that leads home, because the guarantee is false otherwise; the exact conditions are `GpuOrphans.NoOrphansIff` and `GpuLimits.NoOrphansLookupIff`.
- CounterNames.CounterNamesAreDistinct: does not tell apart names that differ by case only or are longer than 63 characters, and leaves out names with digits; NVML's capacity fields are short, distinct words of letters.
- NodeStatusProtocol.EveryNodeListIsOk: covers the mode in which daemons write the ComputeDomain status; where clique objects are in use the list is their concatenation, see `NodeStatusProtocol.CliquesAreMergedSoundly`.
- KvCache.BoundClaimsNameTheirPool: assumes that a claim's name is not reused with another configuration, because the guarantee is false otherwise; `KvCache.PatchBindsRightIff` has the exact condition.
- Static MIG, VFIO passthrough and sibling advertising, MPS and time slicing: the GPU plugin is modelled with dynamic MIG on and those features off.
- Aliasing of API objects: deep copies are value copies here, so a manager cannot write through to the informer's object.
- Owner references, deletion and re-creation of a clique object: a new object starts a new list.
- Checkpoints that lack the claim status (written by release 25.3): every entry has an allocation here.
- Node labels and daemon settings of the compute-domain plugin: they appear as side effects that may fail.
- Startup, informers, tickers, rate limits and timeouts: their order and timing are arbitrary.
- Starting a child and recording its handle is one step, since the mutex is held in between.
- JSON and SHA-256: an encoding that reads back what it wrote (a nil and an empty map look alike) and any hash.
- CDI file contents, container edits, metrics, taints, health checks, webhooks and the KV pool reconciler.
- The wording of error messages: errors are a small enumeration.
