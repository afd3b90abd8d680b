# Verification of the monitoring agent

A Dafny 4.11 model of the agent's concurrent core and of its loops with a declarative meaning. `dafny verify
dfyconfig.toml` checks it.

Goroutines are modelled as state machines whose events are single lock sections, atomic accesses or channel operations.
A theorem about `Run(events)` is a theorem about every interleaving. Objects the program updates in place are classes;
where other goroutines can run in between, a method gives up control by `Yield`, whose contract allows any number of
their events, and the contract says that the whole execution is a run of the machine (a ghost log, or reachability).

| module | what it models |
|---|---|
| `BoundedQueue`, `QueueMonitor` | the drop-oldest queue: history, slice representation, condition variable |
| `DeliveryLedger`, `Agent`, `Backlog` | the pipeline from collection tick to socket: conservation, order, queue length |
| `Session`, `Client` | the connection lifecycle, as a machine and as the client object |
| `CollectAll`, `ContainerFanIn` | the two goroutine fan-outs |
| `MemoryCollector`, `SystemCollector` | static fields in a shared cache: a scheme that works and one that does not |
| `DiskCollector`, `DiskRates`, `DiskMetrics`, `NetworkCollector`, `Counters` | previous counters, rates, cache freshness |
| `BlockDevices`, `MemoryScan`, `CpuSensors` | partition names and mappers, the dmidecode scan, sensor assignment |
| `ConfigStore`, `ExternalIp` | the stored key across restarts, the dotted-quad check |
| `GoStrings`, `Sequences`, `Goroutines`, `Wrappers` | the string operations in use, facts about sequences, shared types |

What the proofs found:

- `Push` on a queue of capacity 0 panics (the program uses 100).
- A send that is past its connection check when `Disconnect` drops the connection calls through a nil pointer and ends
  the process; so does a receive between its nil test and its read. These are the only panics of the lifecycle.
- A failed first static collection in `MemoryCollector` disables its cache for good; with a positive duration nothing else does.
- The used memory slots can exceed all slots: a device block with two populated Size lines counts twice.
- A slow direct collection can overwrite a later one's rows in the disk cache.
- A listed container without a name, or one with a short ID of which a step fails, ends the process.
- `SystemCollector` raises its flag before the data is in the cache. A failed dynamic sampling, or a second collection in
  between, leaves the static fields blank for good.
- Overlapping disk collections can swap counters in the order opposite to their sampling; a growing counter then shows as
  an increase of almost 2^64. A wrap of the counter itself is harmless.
- Partitions of a disk whose name ends in `p` (`sdp1`) are not resolved to it.
- Mappers whose first slaves lead back to one of them keep `getDiskInfo` recursing.
- A network round for which the clock has not moved loses the bytes since the round before.
- Under hyperthreading an accepted core number in the upper half of the cores writes out of bounds.
- A configuration that does not parse is used as the default with an empty key; the next save stores that.
- `isValidIP` accepts groups above 255 and leading zeros. It still accepts every address of RFC 3986.

Idealisations: `float64` is `real`; `time.Now` is a clock that does not go back; an access to `ds.conn` is atomic (the Go
memory model, under which some of these accesses are data races, is not modelled); answers of the operating system,
Docker, sysfs, JSON and HTTP are arbitrary inputs; sysfs does not change; a JSON round trip
and non-empty generated keys are assumed where stated; lower-casing is that of ASCII.

## Model

| member | source | states |
|---|---|---|
| `BoundedQueue.QueueState.Apply` | internal/common/queue.go:34-74 | one critical section keeps `head <= pushes <= head + capacity`, where `head` counts what was handed out or evicted; the capacity never changes |
| `BoundedQueue.QueueState.Run` | internal/common/queue.go:34-74 | the same bounds for any sequence of operations, which get one reply each |
| `BoundedQueue.EmptyQueue` | internal/common/queue.go:24-31 | a new queue satisfies them |
| `BoundedQueue.ApplyKeepsAccounts` | internal/common/queue.go:34-74 | every position of the push history that has left the queue left it once, in increasing order, either handed out or evicted and never both |
| `BoundedQueue.RunKeepsAccounts` | internal/common/queue.go:34-74 | that accounting holds after every run, and what was handed out or evicted stays so |
| `BoundedQueue.RunAppendsPushes` | internal/common/queue.go:34-45 | with capacity at least 1 the history grows by exactly the pushed items in order, and no push panics |
| `BoundedQueue.RunExplainedByHistory` | internal/common/queue.go:34-74 | every run is explained by the push history: what the pops return is the pushed items at strictly increasing positions |
| `BoundedQueue.PopsAreRecent` | internal/common/queue.go:34-74 | an item popped at any point of any run is among the last `capacity` pushes made before that pop |
| `BoundedQueue.EvictionBalance` | internal/common/queue.go:38-43 | pushes = pops + evictions + queued, so evictions are at least pushes - pops - capacity |
| `BoundedQueue.WindowIsLastPushes` | internal/common/queue.go:38-43 | evict-before-append over any run equals a list that appends and keeps its newest `capacity` elements |
| `BoundedQueue.PushKeepsLast` | internal/common/queue.go:38-43 | one push leaves the newest `capacity` of old contents plus the item |
| `BoundedQueue.ThreadSafeQueue.constructor` | internal/common/queue.go:24-31 | the backing array has the capacity and the slice is empty |
| `BoundedQueue.ThreadSafeQueue.Push` | internal/common/queue.go:34-45 | on the slice representation, through reslicing and reallocation, a push does what the specification says and panics exactly for capacity 0 |
| `BoundedQueue.ThreadSafeQueue.Reslice` | internal/common/queue.go:40 | `items[1:]` drops the oldest element by moving the offset |
| `BoundedQueue.ThreadSafeQueue.Append` | internal/common/queue.go:43 | append in place or into a larger copy adds the item at the end and keeps the rest |
| `BoundedQueue.ThreadSafeQueue.TryPop` | internal/common/queue.go:63-74 | fails exactly on an empty queue, otherwise returns the oldest element and leaves the others |
| `BoundedQueue.ThreadSafeQueue.Size` | internal/common/queue.go:77-82 | is pushes minus everything that has left, and never exceeds the capacity |
| `QueueMonitor.StepKeepsWakeups` | internal/common/queue.go:34-74 | "some popper sleeps implies at most as many items as woken poppers" survives every critical section, with evictions and `TryPop` stealing |
| `QueueMonitor.RunKeepsWakeups` | internal/common/queue.go:34-74 | the same over every run of any number of pushers, poppers and `TryPop` callers |
| `QueueMonitor.SleepersAreNeverForgotten` | internal/common/queue.go:44-60 | in every reachable state a non-empty queue with a sleeper has a woken popper, and letting any of them run hands it the oldest item |
| `QueueMonitor.WokenPoppersSettleTheQueue` | internal/common/queue.go:48-60 | when the woken poppers have run, in any order, nobody sleeps or nothing is queued; they took as many items as there were, at most one each |
| `QueueMonitor.StepLinearises` | internal/common/queue.go:34-74 | each critical section is one operation of the sequential queue with the same contents and reply |
| `QueueMonitor.RunsLinearise` | internal/common/queue.go:34-74 | every interleaving has the contents and hands out the items of one sequential history |
| `QueueMonitor.OnlySleepersWait` | internal/common/queue.go:34-74 | in every reachable state a push is possible, full queue or not, and wakes a sleeper if there is one; a caller not in a Pop can begin one or try, and exactly the woken ones can go on |
| `QueueMonitor.PopReturnsWithAnItem` | internal/common/queue.go:48-61 | in every run a caller that uses only Pop has got exactly as many items as it has made calls, less the one it is still in |
| `DeliveryLedger.PushKeepsBalance` | internal/collectors/collector.go:136 | a push keeps the ledger of queued, evicted, in-hand, written and discarded positions balanced |
| `DeliveryLedger.PopKeepsBalance` | internal/network/client/data_sender.go:138-139 | so does a successful or failed `TryPop` |
| `DeliveryLedger.SettleKeepsBalance` | internal/network/client/data_sender.go:154-198 | so does writing or discarding the metric in hand |
| `DeliveryLedger.EveryPushHasOneFate` | internal/common/queue.go:34-74 | each pushed metric is in exactly one of queued, evicted, in hand, written, discarded, and the counts add up to the pushes |
| `DeliveryLedger.NothingIsOvertaken` | internal/network/client/data_sender.go:129-175 | everything pushed before a written metric is settled |
| `Agent.SenderMoves` | internal/network/client/data_sender.go:129-175 | which events make the send loop take a metric in hand and which let it go |
| `Agent.StepKeepsLedger` | internal/network/client/data_sender.go:129-175 | in every state, every event of collector, queue, sender and connection keeps the ledger balanced; a metric is in hand exactly from a successful pop to the end of its send |
| `Agent.StepKeepsClock` | internal/collectors/collector.go:124-139 | timestamps never decrease along the push history, since a metric is stamped when its collection begins |
| `Agent.StepKeepsInv` | internal/network/client/data_sender.go:47-227 | all invariants of the running agent together |
| `Agent.FateFollowsTheSend` | internal/network/client/data_sender.go:154-198 | a metric is written exactly by a successful write on a live connection and discarded exactly by a send that finds the flag down, cannot marshal or fails to write; it is the one in hand |
| `Agent.PushesWhatWasCollected` | internal/collectors/collector.go:124-139 | in every interleaving the push history is the one computed from the list of events alone: one entry per push, in order, with its body and the time at which its collection began |
| `Agent.EachCollectionIsPushed` | internal/collectors/collector.go:124-139 | event by event: the n-th push is the n-th entry, with the body it was given and the number of clock ticks before the event with which its collection began; there are no other entries |
| `Agent.CollectingIsNeverBlocked` | internal/collectors/collector.go:124-139 | while the process lives a collection can begin just when the loop has been started and none is under way, and can push just when one is |
| `Agent.MetricCanReachTheWire` | internal/network/client/data_sender.go:129-190 | for every capacity and body a run that collects a metric one tick after the start and writes it |
| `Agent.EveryMetricAccountedFor` | internal/network/client/data_sender.go:129-175 | in every interleaving every collection that came to its push has its metric in the history, each with exactly one fate, and all metrics older than one on the wire are sent, evicted or discarded |
| `Agent.WireFollowsPushOrder` | internal/network/client/data_sender.go:173-175 | the written frames are collected metrics, in the order of collection, none twice, with nondecreasing timestamps |
| `Agent.NothingNewIsSentAfterDisconnect` | internal/network/client/data_sender.go:75-95 | once any `Disconnect` has returned, every continuation writes at most the one metric whose send was already past its connection check |
| `Backlog.LastEmpty` | internal/common/queue.go:38-43 | the queue length is bounded by the growth since it was last empty |
| `Backlog.StretchSlack` | internal/collectors/collector.go:125-136 | in any stretch of a run, pushes exceed pop attempts by at most `(collectDelay + sendDelay) / collectPeriod + 2` |
| `Backlog.BacklogBounded` | internal/network/client/data_sender.go:126-145 | with sending period at most the collection period and no lost ticks, the queue never holds more than the backlog at sender start plus that constant |
| `Backlog.NothingEvictedWhenSendingKeepsPace` | internal/common/queue.go:39-41 | if that bound is within the capacity nothing is evicted |
| `Session.ConnectKeepsInv` | internal/network/client/system_client.go:76-105 | every access of Connect keeps the lifecycle invariant |
| `Session.SenderKeepsInv` | internal/network/client/data_sender.go:123-198 | every access of the send loop keeps it |
| `Session.ReceiverKeepsInv` | internal/network/client/data_sender.go:202-227 | every access of the receive loop keeps it |
| `Session.DisconnectKeepsInv` | internal/network/client/system_client.go:108-134 | every access of Disconnect keeps it |
| `Session.SafeLifecycle` | internal/network/client/system_client.go:76-134 | in every run with any number of concurrent Disconnect callers, each done channel is closed at most once, at most one send loop exists, at most one write is attempted after a Disconnect has returned, and then the flag is down and the loop told to stop |
| `Session.NeverReconnects` | internal/network/client/data_sender.go:79-92 | once the connection flag has gone down no continuation raises it |
| `Session.CrashesExactlyOnDroppedConn` | internal/network/client/data_sender.go:172-217 | the process panics exactly when a send past its check, or a receive past its nil test, finds the connection dropped; never by closing a channel twice |
| `Session.WritesExactlyOutsideMutex` | internal/network/client/data_sender.go:172-175 | in every state of every run a cleared send can write if and only if no Disconnect is under the same mutex |
| `Session.LateWriteCanHappen` | internal/network/client/data_sender.go:158-175 | a run that reaches the bound of one late write, which finds no connection and crashes |
| `Session.LateReadCanHappen` | internal/network/client/data_sender.go:211-217 | a run in which a receive passes its nil test, the connection is dropped, and the read crashes |
| `Client.OthersKeepProgress` | internal/network/client/data_sender.go:47-227 | a goroutine under way is moved by its own accesses only |
| `Client.MeanwhileKeepsProgress` | internal/network/client/data_sender.go:47-227 | and so by any number of accesses of the others |
| `Client.SystemClient.Connect` | internal/network/client/system_client.go:76-105 | with other goroutines between any two accesses, the call reports what the dial came to and leaves exactly one send loop, or none; the whole execution is a run of the lifecycle machine |
| `Client.SystemClient.ConnectSender` | internal/network/client/data_sender.go:47-72 | leaves the connection stored, the flag up and the receive loop started just when the dial succeeds, and none of them otherwise |
| `Client.SystemClient.StartSending` | internal/network/client/data_sender.go:98-105 | finds the running flag down and no loop, and leaves the flag up and one loop |
| `Client.SystemClient.StopSending` | internal/network/client/data_sender.go:108-115 | finds the channel open; unless the process dies, ends with the flag down and the channel closed if there is a send loop, although test, store and close are separate accesses |
| `Client.SystemClient.StopSendLoop` | internal/network/client/data_sender.go:114 | closes a channel that is open before |
| `Client.SystemClient.StopReceiveLoop` | internal/network/client/data_sender.go:81 | likewise for the client channel |
| `Client.SystemClient.DisconnectSender` | internal/network/client/data_sender.go:75-95 | under the sender mutex, ends with the flag down, and with the connection dropped if the client channel has been closed |
| `Client.SystemClient.CloseConnection` | internal/network/client/data_sender.go:79-92 | once the flag has been found up, ends with the client channel closed, the connection dropped and the flag down |
| `Client.SystemClient.Disconnect` | internal/network/client/system_client.go:108-134 | whoever gets the mutex returns with the connection flag down, the running flag down and the send loop told to stop if there is one, unless the process has died |
| `Client.SystemClient.SendMetrics` | internal/network/client/data_sender.go:154-198 | reports success only after a write on a live connection; gives up only if encoding or writing fails or the flag is down; otherwise it waits for the mutex a Disconnect holds, or dies on the dropped connection |
| `Client.SystemClient.ReceiveTurn` | internal/network/client/data_sender.go:205-226 | the loop goes on unless the done channel is closed, a read fails (which lowers the flag) or the process dies |
| `CollectAll.WaitSeesEveryMerge` | internal/collectors/collector.go:69-108 | in every interleaving, when the wait returns every collector has been merged exactly once, in the order of the critical sections |
| `CollectAll.SectionsComeFromResults` | internal/collectors/collector.go:87-104 | a filled section is some merged collector's own result |
| `CollectAll.ResultsReachTheirSection` | internal/collectors/collector.go:87-104 | without competing collectors every result is found in its section, wherever it came in the order |
| `CollectAll.MergedErrors` | internal/collectors/collector.go:75-81 | the collected errors are exactly the failures |
| `CollectAll.FailuresAreReported` | internal/collectors/collector.go:75-81 | every failure is among the messages under the name of its collector, and there are no more messages than failures |
| `CollectAll.SameErrors` | internal/collectors/collector.go:75-81 | two orders of the same collectors collect the same errors up to order |
| `CollectAll.RunsAgree` | internal/collectors/collector.go:69-108 | two interleavings report the same failures, and the same metrics unless two collectors compete |
| `CollectAll.OrderIsPossible` | internal/collectors/collector.go:69-108 | every order of the critical sections is reached by some interleaving |
| `CollectAll.ConflictShows` | internal/collectors/collector.go:87-104 | two collectors with different results for one section: different schedules give different metrics |
| `CollectAll.ScheduleIndependentExactly` | internal/collectors/collector.go:69-108 | the metrics do not depend on the schedule if and only if no two successful collectors fill one section differently |
| `CollectAll.RegisteredCollectorsDoNotRace` | internal/collectors/collector.go:38-45 | for the eight registered collectors, in every interleaving each section is its own collector's result, or zero if that failed |
| `CollectAll.Merger.Merge` | internal/collectors/collector.go:76-104 | one critical section on the shared variables |
| `CollectAll.Merger.CollectAll` | internal/collectors/collector.go:55-117 | a call whose critical sections run in any order leaves the merge of that order, and all failures |
| `ContainerFanIn.StepKeepsChannel` | internal/collectors/container.go:167-240 | every event keeps "sent = received or in the channel, each worker once" |
| `ContainerFanIn.StepKeepsWorkers` | internal/collectors/container.go:167-235 | every event keeps the WaitGroup equal to the workers under way, and the channel open while there are any |
| `ContainerFanIn.SendNeverBlocks` | internal/collectors/container.go:228 | while the process lives, in every interleaving a worker ready to send finds the channel open and with room |
| `ContainerFanIn.NeverStuck` | internal/collectors/container.go:166-240 | until the caller has returned or a panic has ended the process, some goroutine can move |
| `ContainerFanIn.DrainTerminates` | internal/collectors/container.go:232-240 | no interleaving of n containers has more than 5n + 3 events, and none ends before the caller has returned or the process is dead |
| `ContainerFanIn.CrashesExactly` | internal/collectors/container.go:173-207 | a call in which nothing can move any more has crashed the process if and only if some container was measured without a name or with missing details, or failed a step with an ID shorter than twelve bytes; otherwise it has returned |
| `ContainerFanIn.ReturnsEveryMeasurement` | internal/collectors/container.go:237-242 | the result is, as a multiset, exactly the metrics of the containers that were measured |
| `ContainerFanIn.ReturnsTheNamedContainers` | internal/collectors/container.go:163-242 | the same from the listing and the outcome of the four steps: the metrics of exactly the containers that have a name and for which every step succeeded |
| `ContainerFanIn.Collection.constructor` | internal/collectors/container.go:166-167 | no worker spawned, an open channel of one place per container |
| `ContainerFanIn.Collection.Turn` | internal/collectors/container.go:169-240 | one access of one goroutine on the shared variables, with the metrics themselves in channel and result |
| `ContainerFanIn.Collection.Collect` | internal/collectors/container.go:159-243 | under every schedule: if the call returns, its metrics are the measured ones in some order; once nothing can move it has returned, unless a container crashed the process |
| `MemoryCollector.StepKeepsInv` | internal/collectors/memory.go:130-207 | every event of every thread keeps cache, flag, Once and in-flight copies consistent |
| `MemoryCollector.StaticInfoIsConsistent` | internal/collectors/memory.go:130-207 | in every interleaving with any sampling failures, once the flag is up the cache and all copies taken from it carry the stored static fields; every cache hit returned those and the dynamic fields of one successful sampling |
| `MemoryCollector.LoadedForGood` | internal/collectors/memory.go:135-153 | what was loaded stays loaded, so hits at different times agree on the static fields |
| `MemoryCollector.HitsAreFresh` | internal/collectors/memory.go:180-190 | in every run every hit is the latest publication of its moment, less than the cache duration old |
| `MemoryCollector.HitExactly` | internal/collectors/memory.go:180-190 | from the events alone: an idle caller is served the last publication if and only if the static fields have been stored and that publication is less than the cache duration ago; otherwise it goes on to collect |
| `MemoryCollector.FailedOnceDisablesTheCache` | internal/collectors/memory.go:135-157 | if the one static collection has failed, no continuation ever serves a hit or gets static fields |
| `MemoryCollector.FailedOnceCanHappen` | internal/collectors/memory.go:135-157 | three events of one thread reach such a state |
| `MemoryCollector.NeverHitsExactly` | internal/collectors/memory.go:130-207 | in every reachable state, no continuation ever serves a hit if and only if the cache duration is not positive or the one static collection has failed |
| `MemoryCollector.Collector.ReadCache` | internal/collectors/memory.go:180-190 | a hit if and only if the static fields are loaded and the last publication is less than the cache duration ago, and then that publication is returned |
| `MemoryCollector.Collector.StoreStatic` | internal/collectors/memory.go:143-152 | stores the static fields and raises the flag in one critical section |
| `MemoryCollector.Collector.Publish` | internal/collectors/memory.go:199-202 | information and time are replaced together |
| `MemoryCollector.Collector.DoOnce` | internal/collectors/memory.go:135-157 | waits exactly if another caller is running the Once, and fails exactly if it is the first and its own static collection fails, which puts the cache out of use; if that succeeds its result is what is loaded; every later caller goes on |
| `MemoryCollector.Collector.CollectMemoryInfo` | internal/collectors/memory.go:130-172 | a copy of the cache with fresh dynamic fields, whatever the other threads do in between; an error only if the dynamic sampling fails, or the static one of the first caller; without a dynamic sampling there is no answer |
| `MemoryCollector.Collector.Collect` | internal/collectors/memory.go:175-207 | a hit under the same condition, with the last publication; otherwise its own sampling is published and returned, and an error only if a sampling failed; the whole execution is a run of the machine |
| `MemoryCollector.Collector.BackgroundTurn` | internal/collectors/memory.go:48-59 | with both samplings successful it publishes its own with the loaded static fields, unless it waits for the Once; without a dynamic sampling it publishes nothing |
| `MemoryScan.HardwareInfo.Scan` | internal/collectors/memory.go:235-281 | the one-pass loop computes the declarative meaning over blank-line-separated blocks (device headers and populated Size lines of devices mod 2^16, the first usable MT/s speed, the first known form factor), and for a listing given as text what the next rows say |
| `MemoryScan.FieldIsRead` | internal/collectors/memory.go:239-271 | how each kind of line of a device block, given as text, is read |
| `MemoryScan.ListingsAreReported` | internal/collectors/memory.go:235-281 | for every listing of device blocks given as text, between any other lines: one slot per device block, a used one per block whose size does not say `No Module Installed`, the digits of the first `Speed: <digits> MT/s`, the first form factor other than `Unknown` |
| `MemoryScan.FlagLine` | internal/collectors/memory.go:242-275 | the loop flag is on exactly when some header above is not yet followed by a blank line |
| `MemoryScan.ScanLine` | internal/collectors/memory.go:239-276 | one turn of the loop extends that meaning by one line |
| `MemoryScan.SlotsBalance` | internal/collectors/memory.go:242-252 | on every prefix of every listing: populated Size lines plus headers with no such line before the next header = headers plus the populated lines that are not the first after their header |
| `MemoryScan.UsedAtMostTotalExactly` | internal/collectors/memory.go:242-279 | below 2^16, used slots are at most all slots if and only if those additional lines are no more than those empty headers |
| `MemoryScan.UsedAtMostTotalBelow` | internal/collectors/memory.go:242-252 | if between two populated Size lines there is always a header, then on every prefix those lines and the empty headers make up all headers |
| `MemoryScan.UsedAtMostTotal` | internal/collectors/memory.go:278-279 | in particular used slots are then at most all slots, for fewer than 2^16 headers |
| `MemoryScan.TwoSizeLinesOvercount` | internal/collectors/memory.go:248-252 | three lines of text that are counted as one slot with two of them used |
| `BlockDevices.StripReplacesLeftmostMatch` | internal/collectors/disk.go:28 | removing the trailing digits and one `p` before them is what replacing the leftmost match of `p?\d+$` does |
| `BlockDevices.BlockDeviceCache.GetBlockDevice` | internal/collectors/disk.go:31-59 | with or without a memo entry the answer is that of the uncached resolver, and every entry ever stored is right |
| `BlockDevices.BlockDeviceCache.GetDiskInfo` | internal/collectors/disk.go:61-98 | for the device reached by following first slaves: SSD if and only if its rotational text is 0 between white space, HDD likewise for 1, else N/A; the model text without the white space around it |
| `BlockDevices.StripOfPartition` | internal/collectors/disk.go:45-46 | what stripping makes of the kernel's name for a partition |
| `BlockDevices.ResolvesPartitionsOfDisk` | internal/collectors/disk.go:38-53 | a partition resolves to its disk if and only if the disk exists, its name does not end in `p` and the partition is not taken for a mapper |
| `BlockDevices.ResolvingTwice` | internal/collectors/disk.go:66 | resolving a resolved name again changes nothing, for all names, if and only if no block device strips to another one |
| `BlockDevices.WellFoundedSlavesTerminate` | internal/collectors/disk.go:71-77 | any rank that falls from each mapper to its first slave bounds the recursion |
| `BlockDevices.MoreSteps` | internal/collectors/disk.go:71-77 | the leaf does not depend on the bound |
| `BlockDevices.EndsExactly` | internal/collectors/disk.go:71-77 | for every sysfs and name, the recursion returns if and only if the way of first slaves meets no name twice, if and only if it ends within as many steps as there are mappers |
| `BlockDevices.CycleNeverEnds` | internal/collectors/disk.go:76 | a way that comes back to a name, round a cycle of any length, ends at no depth |
| `BlockDevices.MutualMappersNeverEnd` | internal/collectors/disk.go:71-77 | a concrete sysfs in which two mappers are each other's first slave: from neither does the recursion return |
| `BlockDevices.SlaveCycleNeverEnds` | internal/collectors/disk.go:76 | a mapper that is its own first slave is never left |
| `BlockDevices.LeafIsNoMapper` | internal/collectors/disk.go:71-78 | the recursion ends at a device that is not a mapper with slaves |
| `BlockDevices.StackLeadsToDisk` | internal/collectors/disk.go:71-78 | from the top of any stack of mappers, each built first of all on the next, down to a partition, the recursion returns with the disk of that partition |
| `GoStrings.TrimSpaceExactly` | internal/collectors/disk.go:84 | trimming gives the one part of a string that begins and ends with no white space and has only white space around it |
| `DiskMetrics.IoKey` | internal/collectors/disk.go:211-232 | counters are found exactly if the partition or its disk has any, under one of the two names |
| `DiskMetrics.IoKeyPrefers` | internal/collectors/disk.go:215-232 | the disk is preferred for nvme and the partition otherwise; the other one is used exactly if the preferred one is missing |
| `DiskMetrics.RowsInOrder` | internal/collectors/disk.go:185-254 | every partition that is not ignored has its row, at the place its predecessors leave it, and there are no others |
| `DiskMetrics.RowShows` | internal/collectors/disk.go:190-252 | a row shows its partition, its usage and the counters found, figures below 2^63 as they are, and zeros where there is nothing to show |
| `DiskMetrics.RowShowsDevice` | internal/collectors/disk.go:190-252 | with the answers of the system: the partition's own usage, the counters of the partition or of its block device, model and type of the device it leads to |
| `DiskMetrics.DataIsReported` | internal/collectors/disk.go:18-24 | file systems that hold data are reported, those the kernel makes up are not |
| `DiskMetrics.BuildRow` | internal/collectors/disk.go:190-252 | one turn of the loop gives the row, with the memo table kept right |
| `DiskMetrics.BuildRows` | internal/collectors/disk.go:184-256 | the loop gives the rows of all partitions, with the memo table kept right |
| `DiskMetrics.BuildStats` | internal/collectors/disk.go:234-251 | counters as int64, and rates just for devices that were there in a collection that is not the first |
| `GoStrings.BaseOfPath` | internal/collectors/disk.go:211 | the base of a device path is the name below its directory |
| `DiskCollector.SecondsSince` | internal/collectors/disk.go:174-182 | the divisor is positive, and the elapsed time whenever time has passed |
| `DiskCollector.StepKeepsChain` | internal/collectors/disk.go:167-172 | every event of every thread keeps the swaps one chain in which no sample is used twice |
| `DiskCollector.StepKeepsThreads` | internal/collectors/disk.go:155-287 | no event of one thread disturbs another's locals or its own sample and link |
| `DiskCollector.StepKeepsCache` | internal/collectors/disk.go:259-287 | the cache always holds rows and time of one publication |
| `DiskCollector.HitsAreFresh` | internal/collectors/disk.go:263-271 | every hit returns the rows of the latest publication, all computed by one collection; if collections take at most L, that one began less than cacheDuration + L before the hit |
| `DiskCollector.HitExactly` | internal/collectors/disk.go:263-271 | the converse, from the events alone: an idle caller is served the last publication if and only if it has rows and is less than the cache duration ago; otherwise it goes on to collect |
| `DiskCollector.CachedTimeNeverGoesBack` | internal/collectors/disk.go:146-149 | the cached time is nondecreasing over every continuation |
| `DiskCollector.Collector.ReadCache` | internal/collectors/disk.go:263-271 | test and copy are of the same moment; a hit if and only if the cache has rows and is less than the cache duration old |
| `DiskCollector.Collector.Swap` | internal/collectors/disk.go:167-172 | takes out exactly what the previous swap put in and puts in its own readings |
| `DiskCollector.Collector.MeasureDuration` | internal/collectors/disk.go:174-182 | divides by a positive duration |
| `DiskCollector.Collector.Publish` | internal/collectors/disk.go:279-282 | rows and time are replaced together |
| `DiskCollector.Collector.CollectDiskMetrics` | internal/collectors/disk.go:155-257 | fails just when the partitions cannot be listed; otherwise its rows are those of the partitions listed, from the answers given, comparing its own readings with those of the swap before, whatever the other threads do |
| `DiskCollector.Collector.CollectAndCache` | internal/collectors/disk.go:143-153 | publishes after every successful collection; the whole execution is a run of the machine |
| `DiskCollector.Collector.Collect` | internal/collectors/disk.go:259-287 | a hit if and only if the cache has rows and is less than the cache duration old; otherwise such a collection is published and returned |
| `Counters.ChainTelescopes` | internal/collectors/disk.go:246-249 | uint64 differences along a chain sum to last minus first plus 2^64 for every descent |
| `Counters.NoDescentsExactly` | internal/collectors/disk.go:246-249 | there is no descent if and only if the chain ascends |
| `Counters.ChainSum` | internal/collectors/disk.go:246-249 | the sum is last minus first mod 2^64 always, and exactly that number if and only if the readings ascend |
| `Counters.DeltasAddUp` | internal/collectors/disk.go:245-250 | parts that are the differences of neighbours add up to that sum |
| `Counters.SumOfSteps` | internal/collectors/disk.go:246-249 | for a counter of any size read at 64 bits, the differences sum to its true growth less 2^64 for every whole turn a step makes |
| `Counters.TrueGrowth` | internal/collectors/disk.go:246-249 | hence, for a counter that never goes back and may wrap any number of times, the sum is the true growth if and only if no step is a whole turn, in particular if the total growth is below 2^64; and if no step is a whole turn, if and only if the counter never goes back |
| `DiskRates.SwapsFormOneChain` | internal/collectors/disk.go:161-172 | however collections interleave, each swap takes out what the one before put in, at its time, and no sample is put in twice |
| `DiskRates.DisplayedDelta` | internal/collectors/disk.go:245-250 | a displayed rate times its duration is the difference of two neighbours of the chain |
| `DiskRates.RatesAddUp` | internal/collectors/disk.go:245-250 | in every interleaving, for a device present throughout, displayed rates times durations add up to last minus first mod 2^64, and exactly to it if and only if the readings ascend in swap order |
| `DiskRates.AmountsAgainstCounter` | internal/collectors/disk.go:161-172 | in every interleaving the displayed amounts are the true growth of the counter less whole turns; with no whole turn between neighbours, they are the true growth if and only if no swap goes against the counter |
| `DiskRates.SerialisedSamplingIsExact` | internal/collectors/disk.go:161-172 | for swaps in sampling order over any window and a counter that has not gone back in it but may have passed 2^64, the displayed amounts are its true growth if and only if no two neighbouring samples are a whole turn apart; a total growth below 2^64 is enough |
| `DiskRates.OneCollectorSerialises` | internal/collectors/disk.go:129-140 | while only one thread collects, swaps come in sampling order |
| `DiskRates.OverlappingCollectionsOvercount` | internal/collectors/disk.go:161-172 | two overlapping collections that swap in the opposite order: a growing counter is displayed as 2^64 too much |
| `DiskRates.SlowCollectionOverwrites` | internal/collectors/disk.go:279-282 | a run in which a slow collection publishes last: the cache ends with the rows of the earlier sample |
| `NetworkCollector.FindsTheNamed` | internal/collectors/network.go:108-111 | a name is found exactly if some counter has it |
| `NetworkCollector.FindsTheLast` | internal/collectors/network.go:108-111 | and what is found is the last counter of that name |
| `NetworkCollector.LinkedSnoc` | internal/collectors/network.go:113-173 | a successful round compares with the round before, and failures in between leave no trace |
| `NetworkCollector.Collector.CollectNetworkMetrics` | internal/collectors/network.go:97-176 | an error changes nothing; success appends one round computed from its own readings and those of the round before |
| `NetworkCollector.Collector.CollectAndCache` | internal/collectors/network.go:63-80 | each success reaches the cache, each failure leaves round and time alone |
| `NetworkCollector.Collector.Collect` | internal/collectors/network.go:83-94 | returns the rows of the last published round, however old |
| `NetworkCollector.MapByName` | internal/collectors/network.go:108-111 | the first loop builds the map in which later counters win |
| `NetworkCollector.BuildRows` | internal/collectors/network.go:116-168 | the loop gives one row per interface that is up and not loopback |
| `NetworkCollector.BuildAddresses` | internal/collectors/network.go:142-150 | the last address of each family wins |
| `NetworkCollector.RowsAreTheReported` | internal/collectors/network.go:117-168 | a row is there if and only if it is that of a reported interface |
| `NetworkCollector.LastOfFamily` | internal/collectors/network.go:142-150 | of addresses listed with their prefix lengths, the one shown of a family is the last of it |
| `NetworkCollector.RowShows` | internal/collectors/network.go:126-168 | a row shows its interface, the last address of each family, and what came in as received and what went out as sent, below 2^63 as it is |
| `NetworkCollector.EthernetByName` | internal/collectors/network.go:187-191 | in any case of letters, names that begin with eth or en are wired |
| `NetworkCollector.VirtualByName` | internal/collectors/network.go:195-197 | names that begin with docker, br- or veth are virtual |
| `NetworkCollector.ShownDelta` | internal/collectors/network.go:162-165 | a shown rate times the seconds between rounds is the difference of the two readings; if the clock has not moved the rate is 0 and the whole difference is lost |
| `NetworkCollector.RatesAddUp` | internal/collectors/network.go:113-174 | for an interface present throughout, shown rates times seconds, with what is lost in rounds for which the clock has not moved, add up to last minus first mod 2^64, and exactly to it if and only if the readings ascend; nothing is lost if and only if the counter stands still in those rounds |
| `NetworkCollector.RatesShowTrueGrowth` | internal/collectors/network.go:113-174 | for a counter that never goes back but may wrap, what is shown is its true growth if and only if no two neighbouring rounds are a whole turn apart and nothing is lost |
| `SystemCollector.StepKeepsInv` | internal/collectors/system.go:158-227 | what can reach the cache carries either the static fields of the host or blank ones |
| `SystemCollector.SettledForGood` | internal/collectors/system.go:161-168 | once cache and all in-flight copies agree on the static fields, blank or not, every continuation keeps and serves only those |
| `SystemCollector.SettledExactly` | internal/collectors/system.go:158-227 | in every reachable state with the flag up, every continuation serves only these static fields if and only if the cache and everything that can still reach it carry them |
| `SystemCollector.QuietStatesAreDecided` | internal/collectors/system.go:158-193 | with the flag up and no collection under way, the future is decided by the cache: the host's fields if they are there, blank ones otherwise, for good |
| `SystemCollector.HitExactly` | internal/collectors/system.go:200-210 | from the events alone: an idle caller is served the cache if and only if the last publication is less than the cache duration ago |
| `SystemCollector.ServedWereSampled` | internal/collectors/system.go:176-193 | the dynamic fields of everything served are those of one successful sampling |
| `SystemCollector.FailureLosesStaticInfo` | internal/collectors/system.go:180-190 | one thread, one failed dynamic sampling after the flag: the static fields are lost for good |
| `SystemCollector.RaceLosesStaticInfo` | internal/collectors/system.go:161-183 | nothing fails, but a second collection copies the empty cache and publishes last: lost for good |
| `CpuSensors.FindsLeftmostMatch` | internal/collectors/cpu.go:232-255 | the search finds the number of the leftmost match, and none only if there is no match |
| `CpuSensors.NumberInExactly` | internal/collectors/cpu.go:232-255 | what is found is the number in the key: where digits can first be spelled between prefix and suffix, the longest that can, if they fit an int |
| `CpuSensors.RoleExactly` | internal/collectors/cpu.go:234-272 | what a key is taken for, by its text: a core if it names one, else the input two below its number, else the package; numbers out of range do not count |
| `CpuSensors.CoreKey` | internal/collectors/cpu.go:236-248 | for every string of digits d: core_d is the sensor of core d if there is one, and otherwise nothing |
| `CpuSensors.InputKey` | internal/collectors/cpu.go:251-272 | for every string of digits d: tempd_input is the sensor of core d - 2 if there is one, temp1_input that of the package, and any other nothing |
| `CpuSensors.PackageKey` | internal/collectors/cpu.go:270 | a key that mentions the package and names neither a core nor an input is the package's |
| `CpuSensors.CaseIsIgnored` | internal/collectors/cpu.go:234 | upper and lower case keys are taken for the same |
| `CpuSensors.UsualKeys` | internal/collectors/cpu.go:234-272 | which cores such keys target, with and without hyperthreading |
| `GoStrings.DecimalReads` | internal/collectors/cpu.go:239 | a number written in decimal is read as that number |
| `GoStrings.DigitsAreDecimal` | internal/collectors/cpu.go:239 | and a string of digits is the number it is read as, but for leading zeros |
| `CpuSensors.RoleOf` | internal/collectors/cpu.go:234-272 | an accepted core or input index is below the number of cores |
| `CpuSensors.SafeExactlyBelowHalf` | internal/collectors/cpu.go:240-243 | all writes are in bounds under hyperthreading if and only if every accepted core number is below half the number of cores |
| `CpuSensors.Apply` | internal/collectors/cpu.go:241-263 | one sensor writes its targets and nothing else, and panics exactly when it overruns |
| `CpuSensors.FallbackTemperature` | internal/collectors/cpu.go:277-285 | the first positive sensor whose key mentions "input", or 0 |
| `CpuSensors.AssignTemperatures` | internal/collectors/cpu.go:230-286 | panics if and only if some key names a core that overruns; otherwise every core has the reading of the last sensor whose key targets it, both siblings alike, ids and usages untouched; the package has its last reading or the fallback |
| `CpuSensors.CollectCores` | internal/collectors/cpu.go:218-287 | the same for the reported cores, by the texts of the keys: number, usage, and the last reading or 0 |
| `ConfigStore.ConfigFile.LoadConfigFromPath` | internal/config/config.go:248-312 | the stored file and the result follow the load specification, about which the next rows are proved |
| `ConfigStore.ConfigFile.SaveConfigToPath` | cmd/system-monitor/main.go:90-105 | likewise for saving |
| `ConfigStore.ConfigFile.StartProgram` | cmd/system-monitor/main.go:125-150 | likewise for the part of a start that touches the configuration |
| `ConfigStore.LoadedKeyIsStored` | internal/config/config.go:248-312 | a successful load returns an empty key if and only if the file is there, readable and does not parse; any other key it returns is the stored one |
| `ConfigStore.StartRunsExactly` | cmd/system-monitor/main.go:120-150 | when a load succeeds, and that a start then runs if and only if it is given a user key or one is stored |
| `ConfigStore.StartUses` | cmd/system-monitor/main.go:40-150 | a start works with what was stored, except for a new key and the looked-up address where there were none, and the user key given to it |
| `ConfigStore.StartStores` | cmd/system-monitor/main.go:40-150 | if nothing goes wrong the file then holds exactly that |
| `ConfigStore.NextStartFindsItAll` | cmd/system-monitor/main.go:40-150 | so the next start, not given the user key and looking nothing up, works with the same configuration and leaves the file as it is |
| `ConfigStore.DamagedFileIsUsedAsDefault` | internal/config/config.go:284-289 | a file that does not parse is used as the default configuration without a local key |
| `ConfigStore.StartLeaves` | cmd/system-monitor/main.go:40-150 | for every file, damaged or not, and every start: afterwards the file holds a key if and only if the last write that touched it says so (a complete one the key in use, an interrupted one what it left, none what was there) |
| `ConfigStore.KeySurvivesExactly` | cmd/system-monitor/main.go:40-150 | a stored key survives a start if and only if the last write that touched the file was complete or left the key readable; a start that gets to run runs with it in any case |
| `ConfigStore.StartKeepsKey` | cmd/system-monitor/main.go:40-150 | in particular with atomic writes |
| `ConfigStore.KeyIsStableExactly` | cmd/system-monitor/main.go:40-150 | over any sequence of starts, whatever fails and whatever is saved, the key is stored at every start and at the end if and only if in each start the last write that touched the file was complete or left the key readable |
| `ConfigStore.KeyIsStable` | cmd/system-monitor/main.go:40-150 | in particular no sequence of starts with atomic writes changes a stored key |
| `ConfigStore.EveryRunUsesTheSameKey` | cmd/system-monitor/main.go:40-150 | the first start that runs on a missing or sound file has a non-empty key, stored if and only if its last write survives; as long as those of the starts in between do, every later start that gets to run uses that key |
| `ConfigStore.DamagedFileLosesTheKey` | internal/config/config.go:284-289 | after any start that reads a file that does not parse, the file holds a key if and only if the last write that touched it was interrupted and left it; after a complete write it holds the empty key |
| `ConfigStore.KeylessFileGetsANewKey` | internal/config/config.go:291-309 | a start that runs on a stored configuration without a key works with the generated one, which is stored if and only if the last touching write was complete or left it |
| `ConfigStore.TornWriteLosesTheKey` | cmd/system-monitor/main.go:103-104 | a start loses a stored key if and only if the last write that touched the file, whichever save it was, was interrupted and left something else |
| `ExternalIp.IsValidIP` | internal/utils/network.go:67-85 | true if and only if splitting at dots gives four groups of one to three digits |
| `ExternalIp.AcceptsFourGroups` | internal/utils/network.go:67-85 | the accepted strings are exactly four such groups joined by dots, the groups are the split parts, and the length is 7 to 15 |
| `ExternalIp.AddressesAmongAccepted` | internal/utils/network.go:67-85 | every IPv4address of section 3.2.2 of RFC 3986 is accepted, and an accepted string is one if and only if no group has a leading zero or exceeds 255 |
| `ExternalIp.AnswerIsAccepted` | internal/utils/network.go:53-57 | an answer is accepted as an address if and only if its text is that dotted quad with white space around it |
| `ExternalIp.GetExternalIP` | internal/utils/network.go:22-64 | the first service whose text is a dotted quad between white space decides, and that quad is returned; it fails only if no service answers so, and reports the last failure |

## Left out

- Client.SystemClient.Disconnect: callers that find the client's mutex taken are in `Session`, not in this method, which
  starts with the mutex free; likewise `SendMetrics` returns when it would have to wait.
- MemoryCollector.Collector.CollectMemoryInfo: a caller that finds the Once running returns as still waiting instead of blocking.
- BoundedQueue.ThreadSafeQueue: the blocking `Pop` is modelled in `QueueMonitor` only, since its wait has no bound.
- MemoryScan.HardwareInfo.Scan: the fallback to the ghw library when dmidecode fails is not modelled.
- BlockDevices.BlockDeviceCache.GetDiskInfo: has a result only where the recursion returns; `EndsExactly` says when that is.
- DiskCollector.Collector.Build: the loop over the partitions is one step, although other threads can use the memo table
  during it; the table is right after every use, whoever makes it.
- NetworkCollector.Collector.CollectNetworkMetrics: the assignment of counters and time is one step with the collection, which
  only one goroutine runs; recovered panics are not modelled.
- ContainerFanIn.Collection.Collect: the conversion of statistics is left out, and so is the cache around it; whether the details
  have all their pointers is an input.
- CpuSensors.CollectCores: the sampling and caching around the sensor loop are left out.
- ConfigStore.ConfigFile.LoadConfigFromPath: `LoadConfig` and `SaveConfig`, the same logic relative to the working directory, are
  left out; encoding a configuration is taken never to fail.
- internal/collectors/process.go and internal/collectors/service.go: their cache scheme repeats that of disk.go.
- `MasterCollector.Stop` is empty, so collecting goes on after `Disconnect`; the model has no event for it.
- Reconnecting after `Disconnect`, a second `Connect`, signals, installation, logging and message handling.
- Liveness under Go's random `select` and scheduling; termination is proved for the container fan-in and the loops.
- Single-branch conversions: service states, Docker fields, sizes.
