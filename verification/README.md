# A verified model of the Proxmox desk display

The bridge reads several Proxmox sources concurrently, merges what they answer into one bounded,
ordered and alert-annotated state, caches that state behind a lock while its collector can be swapped,
and keeps its configuration in two files that an admin can change at run time. A small device shows the
state and is driven by two buttons. This project models the parts of that system in which loops, steps
or files interact, and proves what they guarantee together.

| file | part of the system |
|---|---|
| `Wrappers.dfy`, `Text.dfy`, `Ordering.dfy`, `Folds.dfy` | optional values, strings, sorting by keys, maps, sums and streams over lists |
| `Health.dfy`, `Zfs.dfy` | severities; the recursive walk over a pool's devices |
| `Source.dfy`, `Inventory.dfy`, `TaskHistory.dfy`, `HostAlerts.dfy` | the loops that read one source and update its hosts through a shared host table |
| `SourceCollector.dfy`, `SourceTheorems.dfy`, `Conservation.dfy` | all loops of a source in a row; health and guest counts across them |
| `Levels.dfy`, `Reports.dfy` | hosts and alerts told from the answers of the API: percentages, states, causes |
| `Alarms.dfy`, `Pressure.dfy`, `SilentSource.dfy` | which unhealthy hosts raise an alert and which do not |
| `Capabilities.dfy`, `CallRecord.dfy` | the bounded record of a source's calls, in the order in which they are made |
| `Collection.dfy`, `ListOrders.dfy`, `Display.dfy` | channel, merge, sorts, cuts, summary, compact and detail views |
| `EndToEnd.dfy`, `Agreement.dfy`, `OnDevice.dfy` | from API answers to the summary; what two collections of the same answers share; the device's rows |
| `CacheProtocol.dfy`, `SharedCache.dfy` | the cache as interleaved steps, and on the heap with shared arrays |
| `Config.dfy`, `ConfigStore.dfy`, `Requests.dfy`, `Forms.dfy`, `Administration.dfy`, `Manager.dfy` | configuration, two-file store with crashes, admin requests and forms, the manager |
| `Sanitize.dfy`, `Trends.dfy`, `Addresses.dfy` | the id sanitiser, downsampling, guest addresses |
| `Buttons.dfy`, `Selection.dfy` | the firmware's state machines |

Conventions. Code that updates fields or slices in place is a method over a class or an array, and is
proved equal to a function of its inputs and the old state; the properties are lemmas about these
functions. The API's answers, the clock, the order in which Go visits a map, the order in which workers
finish, and the point at which a save fails are parameters, so a lemma about them holds for all of them.
`hide` statements only keep definitions out of a proof; they assume nothing. The lemmas of `ListOrders`,
`Levels`, `Reports` and `Forms`, and those named after a meaning, speak of fields, numbers and texts only, and so
fix what the functions used elsewhere stand for.

Where code and expectation differ, the model follows the code, and a lemma says exactly when the
expectation holds:

- Pressure on a host's storage can be silent: a root file system fuller than every storage of the node
  raises the host's health, but its alert is dropped when a storage is named (`SourceTheorems.PressureReported`
  says exactly when on the host, `Pressure.SilentExactly` on the answers, and `SilentSource.SilentPressure`
  gives an instance).
- Disks and subscriptions raise a host's health and no alert, and the summary looks at alerts and at offline
  hosts only (`Alarms.UnhealthyWithoutAlarm` says exactly which online hosts are unhealthy without an alert,
  `EndToEnd.SummaryExplained` exactly what the summary reflects). So the summary can be fine while an online
  host is critical (`SilentSource.SilentSummary`).
- Two collections of the same answers can hold different capabilities: a source records its first 512 calls,
  and Go visits the nodes in any order. `CallRecord.OrderFreeExactly` says exactly when the order matters;
  `Agreement.HundredNodesDiffer` gives an instance with a hundred nodes.
- A failed call can be lost for good: of more than 512 calls some are dropped by the order in which they are
  made and by their ids, before any ranking (`OnDevice.CallsHeldExactly`, `OnDevice.MergeLosesById`).
- A pool that is unavailable or suspended goes unnoticed when its detail is not read or shows no issue, and a
  text that says "unhealthy" counts as good (`Reports.UnavailablePoolUnnoticed`, `Health.StateLevels`).
- A storage without a status is reported for it, although the alerting code lets an empty status pass: by then
  it has become "unknown" (`Reports.StorageStatusReported`).
- A crash between the two renames of a save can pair a new config with an old token. Exactly when is
  `ConfigStore.CrashLoads`; an instance is `Requests.TokenChangeTears`.
- A deletion that crashes between the renames leaves its source's secret without a source, so the bridge
  restarts without that part of its invariant (`Requests.CrashKeepsInv`); tokens, collector and files are
  in step all the same (`Administration.StartAgrees`).
- The counters of hosts miss the guests whose node is not among the listed nodes
  (`EndToEnd.GuestsConservedOverall`).
- An apply whose last refresh fails returns an error although everything has changed
  (`Manager.Manager.Apply`).

## Model

| member | source | states |
|---|---|---|
| Collection.ScheduleInvariant | apps/bridge/internal/proxmox/provider.go:69-81 | In every schedule of the workers, results in the buffer and results still to come are together exactly one per client. |
| Collection.ChannelNeverBlocks | apps/bridge/internal/proxmox/provider.go:69-81 | No worker ever finds the channel full, and when the last one is done the channel holds exactly the results of all clients. |
| Collection.MergeResults | apps/bridge/internal/proxmox/provider.go:83-107 | The merge loop leaves each list as the concatenation of the workers' lists in arrival order. |
| Collection.SortAndCut | apps/bridge/internal/proxmox/provider.go:109-183 | A list leaves the collector as some sort of its items by the list's key, cut to the list's limit. |
| Collection.Collect | apps/bridge/internal/proxmox/provider.go:63-186 | A collection returns a finalized state each of whose lists is a kept sort of the merge. |
| Collection.CollectConfluent | apps/bridge/internal/proxmox/provider.go:63-186 | Two collections of the same results agree on the key at every position of every list whatever order the workers finish in and however ties are sorted, on the items when keys are distinct, and on the set of items of lists that are not cut. |
| Collection.SummaryConfluent | apps/bridge/internal/proxmox/provider.go:181-185 | The summary does not depend on the arrival order, although alerts are sorted by severity only and not stably. |
| Collection.CollectKeepsTop | apps/bridge/internal/proxmox/provider.go:109-183 | Nothing cut from a list sorts before anything kept, and a list is cut only when it fills its limit. |
| ListOrders.ListsInOrder | apps/bridge/internal/proxmox/provider.go:109-183 | In a collected state tasks, snapshots and storage items are newest first and then by id, guests pinned first and then by id, alerts worst first, and all other lists by id. |
| ListOrders.NewestKept | apps/bridge/internal/proxmox/provider.go:128-157 | What is cut from tasks, snapshots or storage items is no newer than anything kept, and such a list then holds its 48, 96 or 256 items. |
| ListOrders.ListLengths | apps/bridge/internal/proxmox/provider.go:109-183 | Ten lists are cut to 48, 64, 96, 256, 384 or 512 items, whichever is theirs, and all others hold every item merged. |
| Text.BelowMeaning | apps/bridge/internal/proxmox/provider.go:109-110 | Ids are compared lexicographically: by the first position at which they differ, or by length. |
| Text.ItoaMeaning | apps/bridge/internal/proxmox/provider.go:575-575 | A number is written in decimal digits, with no zero in front, and stands for itself. |
| Text.ToUpperMeaning | apps/bridge/internal/proxmox/provider.go:2581-2581 | Upper case changes exactly the letters that have an upper case in ASCII. |
| Ordering.KeyOrder | apps/bridge/internal/display/state.go:723-737 | Keys are strictly and totally ordered, so items are strictly weakly ordered. |
| Ordering.SortsAgree | apps/bridge/internal/proxmox/provider.go:109-183 | Any two sorts of the same items agree on all keys, and on the items when keys are distinct. |
| Ordering.TakeIsTop | apps/bridge/internal/display/state.go:709-717 | A prefix of a sorted list is a top selection. |
| Ordering.StableSortPermutes | apps/bridge/internal/display/state.go:719-739 | The stable sort rearranges its input. |
| Ordering.StableSortSorted | apps/bridge/internal/display/state.go:719-739 | The stable sort sorts. |
| Ordering.StableSortStable | apps/bridge/internal/display/state.go:719-739 | Items that share a key keep their order. |
| Ordering.SortSliceStable | apps/bridge/internal/display/state.go:719-739 | The in-place stable sort leaves the array as the stable sort of what it held. |
| Ordering.SortSlice | apps/bridge/internal/proxmox/provider.go:109-183 | The unstable sort promises a sorted rearrangement and nothing about ties. |
| Source.PctNearest | apps/bridge/internal/proxmox/provider.go:2654-2659 | A percentage is a nearest integer to the exact one. |
| Source.PctBeyond | apps/bridge/internal/proxmox/provider.go:2654-2659 | Beyond 0 and 100 a percentage is the nearer of the two, and without a total it is 0. |
| Source.BuildHosts | apps/bridge/internal/proxmox/provider.go:301-333 | The host table has one object of its own per node name, holding the last resource of that name. |
| Source.RaisedCovers | apps/bridge/internal/proxmox/provider.go:370-390 | Health after a loop over findings is at least that of each finding that needs attention. |
| Source.CertificateLoop | apps/bridge/internal/proxmox/provider.go:370-390 | The loop raises the host's health by its certificates' health, touches nothing else of the host, and emits one alert per certificate that needs attention. |
| Source.PoolLoop | apps/bridge/internal/proxmox/provider.go:437-461 | The loop raises the host's health by the final health of each pool and emits one alert per pool that needs attention. |
| Source.DiskLoop | apps/bridge/internal/proxmox/provider.go:494-521 | The loop counts disks and disks with issues and raises the host's health by the latter. |
| Source.ReadNode | apps/bridge/internal/proxmox/provider.go:335-522 | The calls of one node, in a row, change the host as the composition of their loops does and emit their alerts in order. |
| Inventory.ApplyStorageAlerts | apps/bridge/internal/proxmox/provider.go:1043-1076 | A storage is marked by its fill level, else by a bad status, and reports both. |
| Inventory.StorageLoop | apps/bridge/internal/proxmox/provider.go:524-568 | The loop lists every storage with its alerts and leaves every host's storage maximum as a fold over the storages of its node. |
| Inventory.StorageMaximum | apps/bridge/internal/proxmox/provider.go:563-566 | The storage maximum is the maximum of its initial value and the levels of all storages on the node, and the name is that of a storage on the node with exactly that level; no other field changes. |
| Inventory.GuestLoop | apps/bridge/internal/proxmox/provider.go:571-681 | The loop lists every guest with its alert and adds to each host the guests on its node by final status. |
| TaskHistory.TaskLoop | apps/bridge/internal/proxmox/provider.go:716-748 | The loop over a node's tasks, with the map of backup starts that all hosts share, updates backup, failure counter, health and alert of its host as the fold over its own tasks does, touches no other host's entry, and leaves a host without an answer alone. |
| TaskHistory.NoBackupFound | apps/bridge/internal/proxmox/provider.go:723-731 | Without a backup task of non-negative start time the backup fields keep their values. |
| TaskHistory.LastBackupFound | apps/bridge/internal/proxmox/provider.go:723-731 | The status found is that of the one last-listed backup among those with the greatest start time, and the age matches that start when it is positive. |
| TaskHistory.BackupIgnoresOrder | apps/bridge/internal/proxmox/provider.go:723-731 | The order in which tasks are listed does not matter when no two backups start together. |
| TaskHistory.FailuresReported | apps/bridge/internal/proxmox/provider.go:732-747 | The failure counter is the number of warning tasks that ended within a day; it is positive exactly when there is such a task and exactly when the alert is emitted, and then the health is at least a warning. |
| SourceTheorems.FinalBackup | apps/bridge/internal/proxmox/provider.go:715-753 | In the end, a listed node shows the last-listed of the latest backups of its task list, or nothing without one or without an answer. |
| SourceTheorems.LatestBackupShown | apps/bridge/internal/proxmox/provider.go:723-731 | A backup task that started after all others of the node is the one shown, with its status and age. |
| SourceTheorems.FinalDisks | apps/bridge/internal/proxmox/provider.go:494-521 | In the end, a listed node shows the number of its disks and of those that are a warning or critical. |
| SourceTheorems.FinalFailures | apps/bridge/internal/proxmox/provider.go:715-753 | In the end, a node's failure counter is the number of its tasks that failed within a day, and is positive exactly when its alert is emitted. |
| SourceTheorems.TaskOrderIrrelevant | apps/bridge/internal/proxmox/provider.go:715-753 | Listing a node's tasks in another order gives the same final host in every field, unless two of its backups start together. |
| HostAlerts.ApplyHostAlerts | apps/bridge/internal/proxmox/provider.go:1007-1041 | The last stage lifts an online host's health by its memory and storage percentages and emits the alerts of the host; an offline host is only reported. What that comes to in percentages is `Levels.MemoryReported` and `Levels.HostStorageReported`. |
| HostAlerts.StorageAlertsMeaning | apps/bridge/internal/proxmox/provider.go:1055-1075 | A storage emits a fullness alert of a severity exactly when its level calls for that severity. |
| HostAlerts.PressureLevels | apps/bridge/internal/proxmox/provider.go:1026-1040 | The levels behind storage pressure, in the middle of a run: the host alerts on its own exactly when no storage is named; some storage of the node is at the level of the pressure exactly when the fullest one is; if none is, the root file system is fuller than all. |
| Levels.MemoryReported | apps/bridge/internal/proxmox/provider.go:1019-1025 | Among all alerts, an online listed node has a critical memory alert exactly from the critical threshold on, and a warning exactly between the two thresholds; its health is no better than either. |
| Levels.HostStorageReported | apps/bridge/internal/proxmox/provider.go:1026-1040 | It has an alert of its own about storage on the same terms for the fuller of root and fullest storage, exactly while it names no storage; the health is raised either way. |
| Levels.FullStorageReported | apps/bridge/internal/proxmox/provider.go:1054-1075 | A fullness alert of a severity about a storage name is there exactly when a storage of that name on the node is filled up to that threshold and not up to the next. |
| Levels.FinalPercentages | apps/bridge/internal/proxmox/provider.go:301-361 | A node ends with the memory and root percentages of its status call, and where that gives none with those of the last resource that lists it, which also says whether it is online. |
| Reports.OfflineReported | apps/bridge/internal/proxmox/provider.go:1008-1018 | An alert that a listed node is offline is there exactly when it is. |
| Reports.CallsReported | apps/bridge/internal/proxmox/provider.go:370-461 | Certificates, services and pools of a node are each reported exactly when one calls for it, at its severity. |
| Reports.FailedTasksReported | apps/bridge/internal/proxmox/provider.go:732-747 | Failed tasks are reported exactly when a task of the node ended with a warning within the last 86400 seconds. |
| Reports.StoragesListed | apps/bridge/internal/proxmox/provider.go:524-568 | Every storage comes from a resource, with its node, name, status and percentage, and is marked by its percentage or else by its status. |
| Reports.StorageStatusReported | apps/bridge/internal/proxmox/provider.go:1044-1053 | A storage status is reported on a node exactly when a storage resource there has a status other than "available" and "ok", or none. |
| Reports.GuestsListed | apps/bridge/internal/proxmox/provider.go:571-673 | Every guest comes from a resource, with its number, its node and the status of its status call or else of the list, and is a warning exactly when it is pinned and not in the status expected of it. |
| Reports.GuestOfResource | apps/bridge/internal/proxmox/provider.go:571-673 | And every virtual machine and container among the resources is such a guest. |
| Reports.GuestStatusReported | apps/bridge/internal/proxmox/provider.go:660-672 | A guest status is reported on a node exactly when a pinned guest there is not in the status expected of it. |
| Reports.ClusterReported | apps/bridge/internal/proxmox/provider.go:223-284 | A finding of a cluster-wide call is reported exactly when it needs attention, at its severity. |
| Reports.AlertNames | apps/bridge/internal/proxmox/provider.go:188-756 | The id of every alert is that of its host, storage, guest or finding, followed by the suffix of its cause and severity. |
| Reports.UnavailablePoolUnnoticed | apps/bridge/internal/proxmox/provider.go:1799-1813 | A pool listed as unavailable or suspended has unknown health, and so no alert, unless its detail shows an issue or another state. |
| Pressure.SilentExactly | apps/bridge/internal/proxmox/provider.go:335-753 | On the answers alone: storage pressure on an online listed node is silent exactly when its last-listed fullest storage has a name and is at least as full as the root in the inventory, but calls for a lower level than the root that the node's status reports. |
| Alarms.AlarmedExactly | apps/bridge/internal/proxmox/provider.go:188-756 | An online listed host has an alert about it, or about a full storage of it, of at least a level exactly when a certificate, a failed service, a pool or a failed task reaches the level, or memory, unnamed storage or a storage of the node its threshold. |
| Alarms.UnhealthyWithoutAlarm | apps/bridge/internal/proxmox/provider.go:188-756 | An online listed host is at a level without any such alert exactly when none of these reaches it, but a disk, a subscription or the storage pressure does. |
| SilentSource.SilentPressure | apps/bridge/internal/proxmox/provider.go:188-756 | An instance, as API answers: a node whose status call reports a full root file system, and one half-full storage, give a critical host and no alert at all, in any visiting order. |
| SilentSource.SilentSummary | apps/bridge/internal/display/state.go:651-681 | In every collection from that one source, the summary is fine and an online host is critical. |
| SourceCollector.CallLoop | apps/bridge/internal/proxmox/provider.go:335-522 | Whatever order the host table is visited in, each host becomes what its own calls make of it and no host is touched by another's. |
| SourceCollector.TasksLoop | apps/bridge/internal/proxmox/provider.go:715-748 | Whatever order it visits the hosts in, the loop over task lists turns each host into what its own tasks make of it and emits their alerts: since host ids are injective in the node, no host meets another's entry in the shared map. |
| SourceCollector.AlertLoop | apps/bridge/internal/proxmox/provider.go:750-753 | Whatever order it visits the hosts in, the last loop alerts each host once and lists it as it is after its alerts. |
| SourceCollector.CollectSource | apps/bridge/internal/proxmox/provider.go:188-756 | A source contributes the hosts, storages, guests and alerts that its loops make in a row over one host table, or one offline host and one alert when its first call fails. |
| SourceTheorems.RaisedMeaning | apps/bridge/internal/proxmox/provider.go:2633-2638 | Health reaches a level in a loop exactly when it was there before or some finding that needs attention is. |
| SourceTheorems.CallHealth | apps/bridge/internal/proxmox/provider.go:335-522 | After the calls of a node its host is at least at a level exactly when it was before or one of the five kinds of finding reaches it. |
| SourceTheorems.HealthExplained | apps/bridge/internal/proxmox/provider.go:188-756 | A host's final health is at least a warning, or critical, exactly when one of its possible causes is: offline, certificate, service, pool, subscription, disk, failed task, or a memory or storage percentage at its threshold. |
| SourceTheorems.AlertsCovered | apps/bridge/internal/proxmox/provider.go:188-756 | Every alert about a host's own state, from any of the loops, belongs to a listed node whose final health is at least as severe. |
| SourceTheorems.FullStorageCovered | apps/bridge/internal/proxmox/provider.go:524-568 | Every fullness alert of a storage on a node is matched by a host health of at least that severity. |
| SourceTheorems.PressureReported | apps/bridge/internal/proxmox/provider.go:1026-1076 | Among all alerts that a source emits, one about the storage of an online node at the level its health is raised to exists exactly when no storage is named on the host or the fullest storage is itself at that level; and one about the named storage whenever that is not less full than the root file system. |
| SourceTheorems.SuspectDeviceReported | apps/bridge/internal/proxmox/provider.go:437-458 | A suspect device at any depth makes its pool need attention, its host at least a warning, and puts the pool's alert among the source's alerts. |
| SourceTheorems.PoolHealthMeaning | apps/bridge/internal/proxmox/provider.go:1777-1813 | A pool reaches a level exactly by what the list says of it or, once its detail is read, by a suspect device or by the state that the detail gives, for which the list's stands in. |
| Conservation.GuestCounters | apps/bridge/internal/proxmox/provider.go:674-680 | Each host's counters equal the guests on its node by final status, after all later loops too. |
| Conservation.NodeByNode | apps/bridge/internal/proxmox/provider.go:674-680 | Counting guests node by node is counting the guests of the visited nodes. |
| Conservation.GuestsConserved | apps/bridge/internal/proxmox/provider.go:571-681 | The hosts of a source count no guest it does not have, and all of them exactly when every guest's node is listed. |
| Conservation.VisitOrderIrrelevant | apps/bridge/internal/proxmox/provider.go:335-753 | The orders in which the three loops visit the host table do not change which hosts and alerts a source contributes. |
| Zfs.Walk | apps/bridge/internal/proxmox/provider.go:2575-2592 | The recursive walk adds to its counters the sums over the flattened tree. |
| Zfs.DeviceCounts | apps/bridge/internal/proxmox/provider.go:2572-2597 | Devices and issues are sums over the flattened tree below the pool. |
| Zfs.IssuesMeaning | apps/bridge/internal/proxmox/provider.go:2579-2588 | There are no issues exactly when every counted device is clean, and never more than two per counted device. |
| Zfs.PoolIssues | apps/bridge/internal/proxmox/provider.go:2575-2592 | A pool's detail counts the named devices below it, and shows no issue exactly when every device below it, unmarked inner nodes apart, has no errors and no state other than ONLINE and AVAIL. |
| Zfs.CountsIgnoreOrder | apps/bridge/internal/proxmox/provider.go:2572-2597 | Rearranging children at any depth changes neither count. |
| Zfs.ApplyDetail | apps/bridge/internal/proxmox/provider.go:1799-1813 | A pool's detail raises its health by its issues and by its own state. |
| Zfs.SuspectRaisesPool | apps/bridge/internal/proxmox/provider.go:1799-1813 | A suspect device at any depth makes its pool at least a warning, whatever the pool itself reports. |
| Health.StateLevels | apps/bridge/internal/proxmox/provider.go:2599-2613 | Online and healthy states are good, degraded ones a warning, faulted and offline ones critical; unavailable and suspended ones say nothing, and "unhealthy" is good. |
| Display.Finalize | apps/bridge/internal/display/state.go:580-682 | The loops with their early return compute the counts of the lists and the overall health: critical with a critical alert or a host that is not online, else warning with a warning alert. |
| Display.FinalizeIdempotent | apps/bridge/internal/display/state.go:580-682 | Finalizing a finalized state changes nothing. |
| Display.SummaryIgnoresOrder | apps/bridge/internal/display/state.go:651-681 | The summary depends on the items, not on their order. |
| Display.SummaryCounts | apps/bridge/internal/display/state.go:651-681 | The summary's numbers are those of hosts, online hosts, running and other guests, alerts and updates; its health is critical, else a warning, else fine by alerts and offline hosts. |
| Display.GuestsAllCounted | apps/bridge/internal/display/state.go:661-667 | Running and stopped guests are all guests. |
| Display.CompactKeepsSummary | apps/bridge/internal/display/state.go:684-692 | Compaction leaves the summary unchanged. |
| Display.CompactLists | apps/bridge/internal/display/state.go:684-692 | The compact view empties exactly the six heavy lists. |
| Display.PrioritizedKeepsWorst | apps/bridge/internal/display/state.go:709-754 | No prefix of the capability sort, cut once or twice, drops a capability that is worse than one it keeps, errors being worst, then refusals, then what is not there, then any other failure. |
| Display.PrioritizedInOrder | apps/bridge/internal/display/state.go:719-754 | Capabilities are served worst first, and equally bad ones by source, name and endpoint. |
| Capabilities.Record | apps/bridge/internal/proxmox/provider.go:2739-2780 | A source records exactly its first 512 calls, each classed by its outcome. |
| Capabilities.StatusMeaning | apps/bridge/internal/proxmox/provider.go:2743-2767 | Which outcomes of a call, by HTTP status, are recorded as ok, forbidden, not found, not available and error. |
| Capabilities.CallRecorded | apps/bridge/internal/proxmox/provider.go:2768-2779 | What is recorded of a call to the API: source, host, name, endpoint and status, under an id in which the endpoint stands without the prefix of the API. |
| CallRecord.RecordSource | apps/bridge/internal/proxmox/provider.go:188-756 | A source that visits its nodes in some order records the first 512 of its calls: the cluster's, then block by block those of each visited node with its failed pool details, then the rest. |
| CallRecord.CallsCounted | apps/bridge/internal/proxmox/provider.go:370-492 | A node makes six recorded calls, and one more for each pool whose detail cannot be read, all of them below its own path. |
| CallRecord.OrderFreeExactly | apps/bridge/internal/proxmox/provider.go:2739-2742 | All orders of visiting record the same calls exactly when the cluster's and all nodes' calls together are at most 512, or the cluster's alone are 512 or more, or at most one node is visited. |
| CallRecord.RecordsDiffer | apps/bridge/internal/proxmox/provider.go:335-492 | Otherwise visiting the first node last records other calls. |
| CallRecord.ManyNodesUnsettled | apps/bridge/internal/proxmox/provider.go:335-492 | So it is with 86 nodes or more, however their calls end. |
| EndToEnd.NothingLost | apps/bridge/internal/proxmox/provider.go:83-107 | A list that is never cut holds every item of every source. |
| EndToEnd.HostListed | apps/bridge/internal/proxmox/provider.go:750-753 | Each host of each source is in the merged list with its id, source, state, health and counters. |
| EndToEnd.GuestListed | apps/bridge/internal/proxmox/provider.go:571-681 | So is each guest, with its id, source, host, status, pin and health. |
| EndToEnd.StorageListed | apps/bridge/internal/proxmox/provider.go:524-568 | So is each storage, with its id, source, host, name, status and health. |
| EndToEnd.GuestsConservedOverall | apps/bridge/internal/display/state.go:651-667 | From the per-source loops to the summary: running and stopped guests are all guests; the hosts' counters add up to no more, and to exactly as much when and only when every guest's node is listed by its source. |
| EndToEnd.CompactConservesGuests | apps/bridge/internal/display/state.go:684-692 | The same conservation holds in the compact view that the device fetches, whose summary is that of the full state. |
| Agreement.CollectionsAgree | apps/bridge/internal/proxmox/provider.go:63-186 | Two collections of the same answers agree on the key at every position of every list, on the whole list when its keys are distinct, and on the items of uncut lists, for any orders in which the workers finish and in which each visits its host table and fills its lists; for capabilities where the bound of no worker's record falls between its nodes. |
| Agreement.SummariesAgree | apps/bridge/internal/display/state.go:651-681 | Their summaries are the same for any of these orders, in every case. |
| Agreement.CapabilitiesMayDiffer | apps/bridge/internal/proxmox/provider.go:2739-2742 | Where the bound does fall between the nodes of a single source, there are two collections of the same answers whose capabilities differ. |
| Agreement.HundredNodesDiffer | apps/bridge/internal/proxmox/provider.go:335-492 | An instance, as API answers: one source with a hundred nodes. |
| EndToEnd.AlertReachesSummary | apps/bridge/internal/display/state.go:669-680 | Every alert of every source is in the merged list and the summary is at least as severe. |
| EndToEnd.SummaryExplained | apps/bridge/internal/display/state.go:651-681 | The summary is at least at a level exactly when some source emits an alert of that level or some host is not online. |
| EndToEnd.UnreachableReachesSummary | apps/bridge/internal/proxmox/provider.go:191-212 | A source that cannot be reached makes the summary critical, and is listed with one offline host and one critical alert about it. |
| EndToEnd.SuspectDeviceReachesSummary | apps/bridge/internal/display/state.go:669-680 | A suspect device at any depth of any pool makes pool, host and summary at least a warning in every collection. |
| OnDevice.DeviceShowsFirst | firmware/t-display-s3/src/main.cpp:907-1029 | After a refresh, a detail list on the device, capabilities apart, is exactly the first rows of the full sorted merge, as many as the tightest of the three limits on the way allows. |
| OnDevice.DetailLengths | apps/bridge/internal/display/state.go:694-717 | The detail payload holds the first 8, 24, 32, 48 or 64 items of its lists, whichever is theirs. |
| OnDevice.DeviceShowsNewest | firmware/t-display-s3/src/main.cpp:939-940 | The device's storage items are the 48 newest: none that is missing is newer than one that is shown. |
| OnDevice.DeviceShowsWorstCapabilities | firmware/t-display-s3/src/main.cpp:997-998 | No capability that the bridge holds and the device does not show is worse than one that it shows. |
| OnDevice.DeviceShowsFailuresFirst | firmware/t-display-s3/src/main.cpp:997-998 | The device shows a call that was answered only when it shows every failed call that the bridge holds. |
| OnDevice.CallsHeldExactly | apps/bridge/internal/proxmox/provider.go:168-171 | The bridge holds every call that its workers made exactly when no more than 512 were made in all. |
| OnDevice.MergeLosesById | apps/bridge/internal/proxmox/provider.go:168-171 | What the merge drops of the recorded calls beyond 512 it drops by id: a dropped one, however bad its rank, has no smaller id than any that is held. |
| OnDevice.DeviceShowsWorstCalls | firmware/t-display-s3/src/main.cpp:997-998 | While no more than 512 calls are made in all, no call that was made and is not shown is worse than one that is shown. |
| CacheProtocol.FlightsHoldInstalled | apps/bridge/internal/store/cache.go:57-60 | In every interleaving, an unfinished refresh holds the collector that was installed when it began. |
| CacheProtocol.Provenance | apps/bridge/internal/store/cache.go:57-85 | In every interleaving, the cached state is the finalized result of the last successful refresh, collected by the collector installed when that refresh began. |
| CacheProtocol.HasStateMeaning | apps/bridge/internal/store/cache.go:71-75 | There is a state exactly once some refresh has succeeded, so it never goes away again. |
| CacheProtocol.NewCacheIsEmpty | apps/bridge/internal/store/cache.go:29-35 | A new cache says that nothing has been collected yet, and has a state exactly once a refresh has succeeded. |
| CacheProtocol.ErrorMeaning | apps/bridge/internal/store/cache.go:87-96 | Until some refresh has succeeded a reader is told the error of the last one that failed, or that nothing has been collected yet; after that there is always a state. |
| CacheProtocol.ErrorIsLast | apps/bridge/internal/store/cache.go:65-75 | The error remembered is that of the last refresh to report, and none when that one succeeded. |
| CacheProtocol.IntervalsMeaning | apps/bridge/internal/store/cache.go:78-85 | The intervals in force are those of the last reconfiguration. |
| CacheProtocol.OnlySuccessChangesState | apps/bridge/internal/store/cache.go:57-75 | Over any stretch of any run without a successful refresh, however many fail, state, time stamp and presence stay what they were, and without a reconfiguration so does every answer that readers get. |
| CacheProtocol.EarlyFlights | apps/bridge/internal/store/cache.go:57-85 | The refreshes in flight at a moment are conserved: each has since reported once or is still in flight. |
| CacheProtocol.SupersededCommitsBounded | apps/bridge/internal/store/cache.go:78-85 | After a reconfiguration, superseded refreshes commit at most as often as there were refreshes in flight at that moment. |
| CacheProtocol.CommitAfterReconfigure | apps/bridge/internal/store/cache.go:57-85 | A commit after a reconfiguration is by a refresh that was in flight then, or by one that began later and used the collector installed when it did. |
| CacheProtocol.StaleMeaning | apps/bridge/internal/store/cache.go:87-101 | With a clock that never goes back, a state is unmarked exactly when a refresh has succeeded within the staleness window. |
| SharedCache.FinalizeShared | apps/bridge/internal/display/state.go:580-682 | On the heap, finalizing gives nil lists fresh empty arrays, shares all others, and writes to none. |
| SharedCache.CompactForDisplay | apps/bridge/internal/display/state.go:684-692 | The compact view has the compact value and shares the light lists' arrays. |
| SharedCache.PrioritizedCapabilities | apps/bridge/internal/display/state.go:719-739 | The capability sort happens in a fresh copy and the state's own array is not written. |
| SharedCache.DetailForDisplay | apps/bridge/internal/display/state.go:694-707 | Each detail list has the cut, or sorted and cut, contents of the state's list, and no array of the state is written. |
| SharedCache.Cache.Commit | apps/bridge/internal/store/cache.go:71-75 | The commit replaces the state wholesale, with the delivered arrays, and clears the error. |
| SharedCache.Cache.Fail | apps/bridge/internal/store/cache.go:65-70 | Only the last error changes. |
| SharedCache.Cache.Reconfigure | apps/bridge/internal/store/cache.go:78-85 | Only collector and intervals change. |
| SharedCache.Cache.State | apps/bridge/internal/store/cache.go:87-101 | A reader gets the cached value, marked when it is too old, in the cache's own arrays; or the last error. |
| SharedCache.SnapshotIsStable | apps/bridge/internal/store/cache.go:87-101 | A snapshot keeps its contents through any sequence of commits, failures, reconfigurations, reads, compactions and detail reads. |
| Config.ApplyDefaults | apps/bridge/internal/config/config.go:107-143 | Defaults fill zero and empty fields of the struct and the modes in the shared array, and nothing past the slice. |
| Config.DefaultsFillGaps | apps/bridge/internal/config/config.go:107-143 | Every server field, threshold and TLS mode that is zero or empty takes the value that an empty config gets, and every other one is kept. |
| Config.Validate | apps/bridge/internal/config/config.go:145-191 | No error exactly when the port is in range, a display token and a source exist outside mock mode, ids are distinct and every source is complete. |
| Config.ApplySecrets | apps/bridge/internal/configstore/store.go:111-119 | Trimmed secrets are written into the config and into the shared array; blank ones leave source tokens alone. |
| ConfigStore.Save | apps/bridge/internal/configstore/store.go:83-109 | Depending on the step that fails, no file, the config, or both are replaced; the source tokens in the caller's array are blanked in any case. |
| ConfigStore.Load | apps/bridge/internal/configstore/store.go:47-81 | A load fails exactly when a file that is there cannot be read or parsed, the config being noticed first; otherwise it gives the file's config with defaults and secrets filled in, a missing file counting as empty. |
| ConfigStore.LoadedHasNoGaps | apps/bridge/internal/configstore/store.go:47-81 | Whatever the files say, no server field, threshold or TLS mode of a loaded config is zero or empty. |
| ConfigStore.ConfigNeverOlder | apps/bridge/internal/configstore/store.go:83-109 | Over every run of saves with crashes at any steps, the config file is never from an older save than the secrets file. |
| ConfigStore.CrashLeaves | apps/bridge/internal/configstore/store.go:167-192 | A save that may crash anywhere leaves the old files, the new config with the old secrets, or the new files. |
| ConfigStore.LoadAfterSave | apps/bridge/internal/configstore/store.go:47-109 | A load after a complete save gives back the saved config with the saved secrets in it. |
| ConfigStore.CrashLoads | apps/bridge/internal/configstore/store.go:83-109 | A save that stops between its renames is read back as the state before or after it exactly when it does not change what the config file says or any token that the new config uses. |
| Requests.RequestKeepsInv | apps/bridge/internal/runtime/manager.go:117-210 | Every request keeps source ids distinct, secrets owned by sources, tokens equal to saved secrets, thresholds ordered in 1 to 100, and the intervals ordered from 5 seconds. |
| Requests.RequestKeepsTokens | apps/bridge/internal/runtime/manager.go:117-210 | Every request keeps tokens absent or equal to saved secrets on its own, even where ids are not distinct and secrets are not owned. |
| Requests.ServerTakesValidInput | apps/bridge/internal/runtime/manager.go:117-139 | Server settings that are in range and in order are taken unchanged. |
| Forms.ServerRefused | apps/bridge/internal/runtime/manager.go:117-124 | A server update is refused exactly for a poll interval under 5 seconds or a staleness window shorter than that interval. |
| Forms.ServerTaken | apps/bridge/internal/runtime/manager.go:117-139 | An accepted one saves each token under its own name, trimmed, unless it is blank, takes the interval and the nearest thresholds in range and order, and changes nothing else. |
| Forms.SourceRefused | apps/bridge/internal/runtime/manager.go:270-313 | A source form is refused exactly when it names no source, or neither it nor the existing source has an address, or there is no token given, saved or in the environment. |
| Forms.SourceTaken | apps/bridge/internal/runtime/manager.go:141-162 | An accepted one replaces the first source with its id or is appended, and its address, name, token, token variable and TLS settings are each taken from the form, else from the existing source, as the form's rules say; other sources, secrets and settings stay. |
| Forms.TrimSlashesMeaning | apps/bridge/internal/runtime/manager.go:290-290 | An address loses exactly its trailing slashes. |
| Forms.TrimSpaceMeaning | apps/bridge/internal/runtime/manager.go:283-314 | Trimming takes white space only, and leaves none at either end. |
| Text.SpacePoints | apps/bridge/internal/runtime/manager.go:283-314 | White space is what Unicode calls so, by code points. |
| Forms.DeletionTaken | apps/bridge/internal/runtime/manager.go:188-210 | A deletion is accepted exactly for the id of a source, and drops the sources with that id and their secret and nothing else. |
| Requests.UpsertChangesOne | apps/bridge/internal/runtime/manager.go:141-162 | An upsert leaves all other sources in place and all other secrets alone, and saves the given token or keeps the saved one. |
| Requests.DeleteUndoesUpsert | apps/bridge/internal/runtime/manager.go:188-210 | Deleting a source that an upsert has just added gives back config and secrets. |
| Requests.WithoutMembers | apps/bridge/internal/runtime/manager.go:194-206 | Deleting drops exactly the sources with the id. |
| Requests.QuietRequestIsAtomic | apps/bridge/internal/runtime/manager.go:117-210 | A deletion, an upsert with a blank token, or a server update without tokens that crashes at any step is read back as the config before or after it. |
| Requests.CrashKeepsInv | apps/bridge/internal/runtime/manager.go:117-210 | What is loaded after a crash at any step of any request meets the invariant again, except exactly when a deletion stopped between the renames while a secret of its source was saved. |
| Requests.TokenChangeTears | apps/bridge/internal/runtime/manager.go:141-162 | An instance in which an upsert with a new name and a new token is read back as neither. |
| Administration.CollectorForConfig | apps/bridge/internal/runtime/manager.go:248-259 | The mock, setup or real collector is chosen by mode and sources, and the real one exists exactly for a valid config with usable transports. |
| Administration.CollectorExactly | apps/bridge/internal/config/config.go:145-191 | Mock mode gives mock data, no sources the setup page, and the real collector is built exactly when port, display token, ids, names, addresses, tokens and TLS settings of all sources are complete and usable. |
| Administration.OnlySuccessChangesMemory | apps/bridge/internal/runtime/manager.go:230-246 | Over any stretch of any serialised run without a successful request, torn saves included, config, secrets, collector and intervals all stay what they were. |
| Administration.MemoryIsLastSuccess | apps/bridge/internal/runtime/manager.go:230-246 | After any serialised run, config, secrets, collector and intervals are together what the last successful request installed. |
| Administration.LoadMatchesPublished | apps/bridge/internal/runtime/manager.go:230-246 | After a successful request, a load of the files equals the published config with the secrets written back into it. |
| Administration.RunsHoldTokens | apps/bridge/internal/runtime/manager.go:230-259 | From every start of the bridge on files it can read, whatever they say, and over every serialised run, torn saves and rejected requests included: the collector's clients have the ids, names, addresses and TLS settings of the published config's sources and hold exactly their tokens, the saved secret or else the environment's, trimmed and with one prefix; the secrets file holds the published secrets, the config file never holds a token, and after every successful request a load of the files gives that config, although the published sources hold no token. |
| Administration.SerialKeepsInv | apps/bridge/internal/runtime/manager.go:117-246 | In every serialised run, torn saves included, the published config and secrets keep the invariant of the requests. |
| Administration.SerialAgrees | apps/bridge/internal/runtime/manager.go:117-246 | In every serialised run, torn saves included, tokens, collector and intervals are those of the published config and secrets, and the secrets file holds those secrets. |
| Administration.SuccessRestoresStep | apps/bridge/internal/runtime/manager.go:117-246 | A successful request puts files, config, secrets and collector in step whatever happened before it, torn saves included, up to the next torn save. |
| Administration.SerialStaysInStep | apps/bridge/internal/runtime/manager.go:117-246 | As a corollary of the step from one request to the next: runs without a torn save stay in step. |
| Administration.StartAgrees | apps/bridge/cmd/proxmox-desk-display/main.go:48-66 | Every start agrees: on a valid config, on one for which only the setup collector can be installed, and in mock mode; outside mock mode it is in step with the files. |
| Administration.CrashBeforeOrAfter | apps/bridge/internal/runtime/manager.go:230-246 | A manager in step can crash at any step of a request that changes no token, and a later load gives the config from before or from after. |
| Administration.RestartKeepsInv | apps/bridge/internal/runtime/manager.go:230-246 | A manager in step that crashes at any step of a request restarts with the invariant, except exactly when a deletion stopped between the renames while a secret of its source was saved. |
| Administration.InterleavedInv | apps/bridge/internal/runtime/manager.go:216-246 | Under every interleaving of the admin calls, what is published keeps the invariant of the requests. |
| Manager.SourceFromUpdate | apps/bridge/internal/runtime/manager.go:270-335 | A source is built from its form, blank fields kept from the existing source and the saved token. |
| Manager.FilterInPlace | apps/bridge/internal/runtime/manager.go:194-206 | The in-place filter leaves exactly the functional filter of the slice. |
| Manager.Manager.Clone | apps/bridge/internal/runtime/manager.go:216-228 | A clone has the manager's value in an array of its own. |
| Manager.Manager.Apply | apps/bridge/internal/runtime/manager.go:230-246 | Applying changes config, secrets, files, collector and intervals as the specification says, and its error is empty exactly when collector, save and refresh all succeed. |
| Manager.Manager.UpdateServer | apps/bridge/internal/runtime/manager.go:117-139 | The new config, secrets, files, collector and intervals are those the request specifies, the error is empty exactly when everything including the refresh succeeds, and no published array is written. |
| Manager.Manager.UpsertSource | apps/bridge/internal/runtime/manager.go:141-162 | The same new values and error as the request specifies, through an overwritten or appended entry of a private array. |
| Manager.Manager.DeleteSource | apps/bridge/internal/runtime/manager.go:188-210 | The same new values and error as the request specifies, and the published array keeps its contents through the in-place filter. |
| Sanitize.SanitizeID | apps/bridge/internal/configstore/store.go:141-156 | The rewriting loop ends and gives the one-pass result: clean, split on dashes, drop empty fields, join. |
| Sanitize.SanitizedIsTidy | apps/bridge/internal/configstore/store.go:141-156 | An id has no leading, trailing or doubled dash and only lower-case letters, digits and dashes. |
| Sanitize.SanitizedIdempotent | apps/bridge/internal/configstore/store.go:141-156 | Sanitising an id again changes nothing. |
| Sanitize.SeparatorsSplit | apps/bridge/internal/configstore/store.go:141-156 | A space, underscore, dot, slash, backslash or dash ends one part of an id and begins the next, the parts being joined by one dash. |
| Sanitize.OthersDropped | apps/bridge/internal/configstore/store.go:141-156 | Any other character that is no letter or digit is dropped. |
| Sanitize.WordsKept | apps/bridge/internal/configstore/store.go:141-156 | Letters and digits are kept, in lower case. |
| Trends.TrendValues | apps/bridge/internal/proxmox/provider.go:2553-2570 | A series of n points gives min(n, 24) samples, each read at an index in range. |
| Trends.PickNearest | apps/bridge/internal/proxmox/provider.go:2563-2567 | In a long series each index is within 11/23 of the exact position and is the only such index, so no tie is rounded. |
| Trends.PickIdentity | apps/bridge/internal/proxmox/provider.go:2557-2567 | A short series is copied. |
| Trends.PickGap | apps/bridge/internal/proxmox/provider.go:2563-2567 | Neighbouring samples are the floor or the ceiling of (n - 1)/23 apart. |
| Trends.PickIncreasing | apps/bridge/internal/proxmox/provider.go:2563-2567 | Indices strictly increase. |
| Trends.PickEnds | apps/bridge/internal/proxmox/provider.go:2563-2567 | A series is read from its first point to its last. |
| Trends.PickSymmetric | apps/bridge/internal/proxmox/provider.go:2563-2567 | Reading a series backwards picks the same points. |
| Addresses.AgentIPAddresses | apps/bridge/internal/proxmox/provider.go:2392-2418 | The nested early-exit loops return exactly the first 8 of the deduplicated, filtered, formatted, flattened addresses. |
| Addresses.ContainerIPAddresses | apps/bridge/internal/proxmox/provider.go:2437-2478 | For containers, too, the nested early-exit loops over both address lists and both address fields return exactly the first 8 of the deduplicated stream. |
| Addresses.DedupOrdered | apps/bridge/internal/proxmox/provider.go:2392-2418 | Deduplication keeps no repeats and the order of first occurrences. |
| Addresses.AddressesFound | apps/bridge/internal/proxmox/provider.go:2392-2478 | Both loops return at most eight addresses, only such as a usable interface reports, written with their prefix length, and all of those unless there are eight. |
| Buttons.ButtonState.PollButton | firmware/t-display-s3/src/main.cpp:2115-2130 | One poll updates the button and runs the callbacks that the trace semantics says. |
| Buttons.EveryEdgeAnswered | firmware/t-display-s3/src/main.cpp:2115-2130 | Over every trace, press edges are the callbacks run plus a press still held without its long callback. |
| Buttons.PressRunsOne | firmware/t-display-s3/src/main.cpp:2115-2130 | A completed press runs exactly one callback, the long one exactly when some sample was late on the clock. |
| Buttons.PressAnsweredOnce | firmware/t-display-s3/src/main.cpp:2115-2130 | The long callback runs at the first late sample of a press, the short one at its release. |
| Buttons.LongExactlyWhenHeldLong | firmware/t-display-s3/src/main.cpp:2115-2130 | Across wraps of the 32-bit clock, a press shorter than its period runs the long callback exactly when it was held longer than 1200 ms. |
| Selection.HandledSafe | firmware/t-display-s3/src/main.cpp:1007-1021 | Every successful or failed parse and every press keeps counts within the arrays and selections within the counts. |
| Selection.Run | firmware/t-display-s3/src/main.cpp:2142-2212 | In every run of parses and presses since boot, counts fit the arrays, and every selection and the screen index are in range. |
| Selection.LoadedSlot | firmware/t-display-s3/src/main.cpp:752-756 | A parse refills exactly the lists it covers with the first rows of the payload; a selection stays while its row exists, and otherwise moves to the last row, or to 0 in an empty list. |
| Selection.RefreshMeaning | firmware/t-display-s3/src/main.cpp:907-1029 | A refresh does so for each list of the payload that parses, up to the 8, 12, 16, 24, 48 or 64 rows of its array, and leaves all lists of one that does not. |
| Selection.ButtonBMeaning | firmware/t-display-s3/src/main.cpp:2219-2269 | On each screen button B moves the selection of that screen's list to the next row, from the last to the first, and nothing else; on the last screen it refreshes. |
| Selection.ScreensInTurn | firmware/t-display-s3/src/main.cpp:2132-2135 | Going forward shows all 19 screens in turn. |
| Selection.ScreensTurnBack | firmware/t-display-s3/src/main.cpp:2132-2140 | Going forward and going back undo each other. |
| Selection.Device.Parse | firmware/t-display-s3/src/main.cpp:907-1029 | A parse fills each list up to its capacity and clamps its selection, and a failed one changes nothing. |
| Selection.Device.Handle | firmware/t-display-s3/src/main.cpp:2132-2269 | The device's globals follow the event semantics and stay in range. |
| Selection.PressesVisitAll | firmware/t-display-s3/src/main.cpp:2142-2212 | As many presses of next as there are rows visit every row exactly once. |
| Selection.WindowShowsSelection | firmware/t-display-s3/src/main.cpp:378-384 | The window is full and in bounds, shows the selected row, in the middle unless the window is at an end of the list, and moves by 0 or 1 when the selection advances by one. |

## Left out

- Percentages and downsampling are exact quotients; the source divides in floating point, and no claim is made about its rounding of inexact quotients.
- HTTP, TLS, authentication, templates and handlers: the API's answers are inputs, a failed call being an absent answer.
- JSON and YAML: parsing is the inverse of writing, or fails; which of the two is a parameter.
- A mock start over files that cannot be read, which begins without secrets; any other start on such files ends the program.
- File permissions, directories and the temporary file's contents: a file is replaced at once by its rename.
- Two saves at the same time: admin calls are not serialised around the save, so two of them can leave the config of one with the secrets of the other; crash safety is stated for one save at a time.
- Lost updates between concurrent admin calls, and the order of alerts of equal severity: the code does not prevent the one or determine the other.
- Maps of secrets are values, not shared maps; every clone makes its own map, so none is shared in the source either.
- Host fields that no alert, health or counter depends on (CPU, swap, network, GPU, uptime, data warnings), the titles and texts of alerts, and the texts of validation errors.
- Cluster-wide calls (status, options, backup jobs, HA, Ceph, replication): their findings are inputs that become alerts; the cluster's own health is not tracked.
- The items of certificates, networks, services, disks, updates, repositories, subscriptions, trends, snapshots, storage contents and tasks: what each node contributes to such a list is given; the list is assembled from it in the order in which the loops visit the nodes.
- How the recorded calls end is given apart from what the answered ones contain, and the calls after the loop over the nodes are given as one list.
- Health of certificates, disks, subscriptions and tasks is an input; the classifiers of single values are read off their branches.
- Config parsing of guests, the guest agent's other answers, file systems, GPUs and network summaries: each is one pass over one value.
- Manager.Manager.Refresh: what a collection returns is a parameter; the interleaving of refreshes with requests is in CacheProtocol.
- The cache's polling loop: it only begins refreshes, and the protocol allows them at any time.
- The cache's metadata, mock data, version and documentation files.
- Drawing, Wi-Fi, the captive portal, brightness, boot, and the loop that waits while both buttons are held.
