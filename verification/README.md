# devmgr: a verified model

devmgr shows and changes the devices, drivers and kernel modules of a Linux machine. Its user
interfaces run in one process, and a privileged daemon, devmgrd, makes the changes. This project
models three parts of it and proves what they promise.

**The concurrency runtime.** `Scheduler` is the deadline timer, `EventBus` the publish/subscribe bus
with its unsubscribe barrier. `Hotplug` and `StatusLine` build completion barriers on the timer,
`DeviceServices` turns enumerations and hotplug events into model changes and announcements, and
`DeviceList` caches the model behind two atomic flags. Each is a state machine with one step for each
critical section or atomic operation; threads interleave freely, and the theorems hold in every state
of every run. Beside each machine stands a class with the source's fields, whose methods are the
critical sections and are proved to make the machine's steps. The machines of `Hotplug` and
`StatusLine` contain the scheduler's own state, and the timer's worker may dequeue between any two
calls that a client makes under its own lock. Besides safety each machine settles: what has begun can
always go on, and every step by which it does leaves less to do.

**The snapshot engine.** `SnapshotStore` is the content-addressed store: files, HEAD, parent links,
dedupe, pruning, quarantine. `SnapshotOrder` and `SnapshotHistory` are its listing order and the
chain that is shown for it, and `SnapshotCycles` says when parent links form a cycle; `SnapshotDiff`
compares payloads. `StateStores` is the list of disabled devices and its file. `SnapshotServices`
restores a snapshot, `RequestProcessors` holds the bus verbs (`Validation` their argument checks),
`EnforcementServices` re-applies persisted disables, and `Guard` decides what may be disabled.
`Daemon` has what these share: the state devmgr owns (`World`), a trace of everything done, and the
environment (`Env`), which answers every call that leaves the process in any way it likes.
`VerbTraces` and `ReApplyTraces` read off the trace what a verb, a sweep, a hotplug event or a
restore has done, event by event; `SnapshotFiles` says what the store answers by the fields of the
files it finds, and `DiffTexts` what the diff reads in files and entries. `DaemonRuns` proves what
holds over all runs of all operations against all environments. Operations are functions from world
to world; the classes (`JsonSnapshotStore`, `StateStore`, `Host`, `SnapshotService`,
`RequestProcessor`, `EnforcementService`) change their fields in place, with the source's loops and
early returns, and are proved to compute these functions.

**SHA-256.** `Fips180` is the definition of FIPS 180-4 over strings of bits; `Sha256` is the code over
bytes, with its block loop, hand-built tail and hex printer, proved to compute that definition.
`Fips180Constants` proves what the standard says of its constants, and `Sha256Example` computes the
published example in the definition. `SnapshotIds` ties the digest to the store's ids.

Parameters of the model: the hash of a payload is any function (`Hash`), and where a theorem needs
it, no other stored payload has the hash of the one at hand (`NoCollision`). File writes are done, not
done, or done and reported as failed; directory iteration reports any list of names; renames and
deletes may fail; the clock, authorization, criticality facts, enumeration, sysfs and driver calls are
answers of `Env`, given for the moment of the call; two readings of one sysfs path with no event between
them agree. The trace exists in the model only: `Began` marks the start of an operation, the
other events are calls, changes and reported outcomes in the order the code makes them.

## Where the code and its comments differ

- daemon/src/snapshot_store.cpp:303-304 says that HEAD never names a missing file. Deleting a snapshot
  can move HEAD to a parent that was deleted or pruned before; a later put of that parent's payload
  then answers with an id that has no file (`DeletesCanLoseHead`). The exact conditions are
  `RemoveKeepsHeadStoredIff`, `PutStoresIff` and `PutReadsIff`.
- core/src/snapshot_history.cpp:10-12 says that cycles cannot occur. They do: a put closes one exactly
  when its id has no file and is where the walk from HEAD stops, and HEAD itself does not name it
  (`PutClosesIff`). Its file may have been deleted (`DeletesCanCloseACycle`) or pruned. No other
  operation closes one (`OthersCloseNothing`), so runs whose puts do not meet the condition have none
  (`RunHasNoCycle`, and `RunLinksHaveNoCycle` for the daemon), and then the chain that is shown has one
  head row and depths that count the links (`RunShowsOneChain`). The
  pruning of the same put opens the cycle again exactly if more than twenty of its snapshots are
  automatic (`CycleStandsIff`). Whether a listing has a head row is `HeadRowIff`.
- daemon/src/snapshot_store.cpp:86-116: an entry off the chain that shares its id with a chain member
  is dropped from the listing (`SharedIdIsDropped`); `OrderedIsPermutationIff` says exactly when the
  listing is complete.
- core/include/devmgr/core/snapshot_history.hpp:34-36 says that the head row matches what a restore would
  treat as current, and the frontends print it as HEAD. It does exactly when no stored snapshot has
  HEAD's as its parent (`HeadRowIsHeadIff`). Disabling, enabling and disabling a device again moves HEAD
  back to the first snapshot, and the row marked as head is the second (`HeadRowCanDiffer`).
- core/src/critical_device_guard.cpp:56-61 asks about the devices of a module one at a time. What goes
  with the module is `ModuleRemoval`: never a root or boot device, but a keyboard, or a pointer, is left
  exactly when one is under none of the affected paths (`ModulesAreNotJoint` is a case of the other kind).
- core/include/devmgr/core/snapshot_diff.hpp:48-56 calls an empty diff "no differences". A directive that
  moves from one file to another leaves an empty diff (`MovedDirectiveIsNoRow`); `DiffIsEmptyIff` is the
  exact meaning.
- app/src/device_service.cpp:20-29: with two devices under one id in one enumeration, the announcements
  end with the second and the model keeps the first (`DuplicateIdBreaksReplay`);
  `ReplayIffAnnouncesKept` is the exact condition.
- app/include/devmgr/app/status_line_vm.hpp:66-80 says that the bus has no completion barrier for
  running handlers; the bus has one (core/include/devmgr/runtime/event_bus.hpp:137-157), and the model
  follows the code.

## Model

| member | source | states |
|---|---|---|
| Scheduler.HandlesArePartitioned | core/src/delayed_scheduler.cpp:14-87 | in every reachable state, also after shutdown, each issued handle is exactly one of queued, dequeued, cancelled; index and queue hold the same handles; no callback ran twice, early, or after its cancel |
| Scheduler.CancelIsFinal | core/src/delayed_scheduler.cpp:36-44 | cancel answers true exactly for queued handles, and the callback then never runs |
| Scheduler.CallbacksRunInOrder | core/src/delayed_scheduler.cpp:28-82 | in every reachable state queue and batch are ordered by deadline and, among equal deadlines, by the order of scheduling |
| Scheduler.ShutdownStopsDequeuing | core/src/delayed_scheduler.cpp:46-87 | after shutdown nothing more is dequeued, the batch only gets shorter, and a queued entry leaves only by a cancel |
| Scheduler.DueCallbacksRun | core/src/delayed_scheduler.cpp:61-87 | before shutdown the worker is never stuck and comes to rest, and at rest every callback whose deadline has passed has run or was cancelled |
| Scheduler.DelayedScheduler.ScheduleAt | core/src/delayed_scheduler.cpp:14-34 | inserts after equal deadlines, indexes the entry, returns a fresh handle |
| Scheduler.DelayedScheduler.FindSlot | core/src/delayed_scheduler.cpp:30 | the multimap's position: after every entry that is not later |
| Scheduler.DelayedScheduler.CancelHandle | core/src/delayed_scheduler.cpp:36-44 | removes exactly that entry from queue and index and says whether it was there |
| Scheduler.DelayedScheduler.Shutdown | core/src/delayed_scheduler.cpp:46-59 | sets stopping and leaves queue and index |
| Scheduler.DelayedScheduler.CollectReady | core/src/delayed_scheduler.cpp:75-82 | takes exactly the due entries, in order, out of queue and index |
| Scheduler.ScheduleKeepsValid | core/src/delayed_scheduler.cpp:28-33 | the queue stays ordered by deadline and matches the index |
| Scheduler.CancelKeepsValid | core/src/delayed_scheduler.cpp:36-44 | cancelling keeps order and index, true exactly for queued handles |
| Scheduler.CollectKeepsValid | core/src/delayed_scheduler.cpp:75-82 | dequeuing the due entries keeps order and index |
| EventBus.ReturnsInsideOrPastBarrier | core/include/devmgr/runtime/event_bus.hpp:137-157 | an unsubscribe that removed a handler returns at once exactly if its thread is inside that handler or no invocation is in flight; otherwise it sleeps, and wakes to the same rule |
| EventBus.RemovedNeverStarts | core/include/devmgr/runtime/event_bus.hpp:74-110 | after the removal no step starts the handler, not even from a target list taken before |
| EventBus.BarrierIsFinal | core/include/devmgr/runtime/event_bus.hpp:74-157 | once the barrier is passed no thread is inside the handler, then or later |
| EventBus.SleeperIsNotified | core/include/devmgr/runtime/event_bus.hpp:112-122 | no thread sleeps at a drained handler's barrier unless a notify is still owed |
| EventBus.PublishDelivers | core/include/devmgr/runtime/event_bus.hpp:74-89 | if no handler throws, a publish takes exactly one step for each entry of its type's list at that moment, in list order, and each starts its handler on the publishing thread exactly if it is not removed then |
| EventBus.PublishStarts | core/include/devmgr/runtime/event_bus.hpp:75-82 | a publish begins its loop at once if the type has handlers, and else does nothing |
| EventBus.ThrowEndsPublish | core/include/devmgr/runtime/event_bus.hpp:84-102 | after a handler throws its publish starts no further handler and ends, with the notify it may owe |
| EventBus.ListIsWhoJoined | core/include/devmgr/runtime/event_bus.hpp:62-153 | the list of a type holds exactly the handlers subscribed to it and not unsubscribed since, in the order of subscription |
| EventBus.RemovedIffOffTheLists | core/include/devmgr/runtime/event_bus.hpp:104-147 | exactly the handlers that are on no list refuse to start, and none is on two |
| EventBus.ThreadsGoOn | core/include/devmgr/runtime/event_bus.hpp:62-157 | in every reachable state a thread that does not sleep at a barrier can take the step its frame calls for, and client code may call the bus at any depth |
| EventBus.GoingOnEnds | core/include/devmgr/runtime/event_bus.hpp:84-157 | each such step leaves the thread less to do, so a publish whose handlers return ends |
| EventBus.EntriesAreKnown | core/include/devmgr/runtime/event_bus.hpp:62-89 | target lists and running handlers name only entries that were subscribed, so the machine excludes no step; that every target is visited is PublishDelivers |
| EventBus.EventBus.SubscribeTo | core/include/devmgr/runtime/event_bus.hpp:62-72 | a new entry, last in its type's list, under a fresh id |
| EventBus.EventBus.BeginInvoke | core/include/devmgr/runtime/event_bus.hpp:104-110 | refuses removed entries, else counts the invocation and notes the thread |
| EventBus.EventBus.EndInvoke | core/include/devmgr/runtime/event_bus.hpp:112-122 | takes the count and one note of the thread back and says whether a removed entry has drained |
| EventBus.EventBus.Remove | core/include/devmgr/runtime/event_bus.hpp:137-157 | marks and unlists the entry; tells whether to return, because unknown or inside it, or to wait |
| DeviceServices.ReplayIffAnnouncesKept | app/src/device_service.cpp:11-41 | replaying an enumeration's announcements gives the new model exactly when the last announcement of each id is the device the model kept |
| DeviceServices.DistinctAnnouncesKept | app/src/device_service.cpp:11-41 | with distinct ids that condition holds |
| DeviceServices.EnumerationOnePerDevice | app/src/device_service.cpp:11-41 | with distinct ids at most one event for each device and none for unchanged ones |
| DeviceServices.DuplicateIdBreaksReplay | app/src/device_service.cpp:20-29 | with a repeated id the model keeps the first device and the announcements end with the second |
| DeviceServices.DeviceService.ApplyEnumeration | app/src/device_service.cpp:11-41 | on any model the new one is the enumeration, first device of each id; removed, then added, then changed devices are announced; replaying them onto the old model gives the new one exactly when the announced devices were kept |
| DeviceServices.DeviceService.ApplyDelta | app/src/device_service.cpp:43-72 | on any model it changes as the event says and at most one event announces it, none if nothing changed; replay holds if it held before |
| Hotplug.DebounceRefinesImmediate | app/src/hotplug_service.cpp:44-101 | until stop discards events, the model overlaid with the event in flight and then the pending ones is the model of immediate application; at quiescence they are equal |
| Hotplug.PendingHasItsFlush | app/src/hotplug_service.cpp:44-87 | outside critical sections every pending id has its own flush queued, or dequeued and not yet started |
| Hotplug.OutstandingIsExact | app/src/hotplug_service.cpp:20-101 | the counter equals the flushes queued, dequeued or not past their decrement; a sleeping stop with none left is owed a notify |
| Hotplug.StopIsABarrier | app/src/hotplug_service.cpp:20-42 | once stop has returned no flush exists, none takes a pending event and the model stays |
| Hotplug.StopLooks | app/src/hotplug_service.cpp:20-42 | once the monitor is stopped no event comes in, and stop returns at the first look that finds nothing outstanding and at no other |
| Hotplug.NewerEventCancels | app/src/hotplug_service.cpp:44-71 | a newer event of a device takes the older one's flush off the timer for good, unless the worker has already dequeued it |
| Hotplug.StopCancels | app/src/hotplug_service.cpp:20-33 | so does stop |
| Hotplug.FlushWaitsItsWindow | app/src/hotplug_service.cpp:65-70 | a flush starts only after the worker, since the event, has seen the clock at or past the deadline that the event set |
| Hotplug.EventsSettle | app/src/hotplug_service.cpp:20-101 | until the timer shuts down what has begun can go on and ends, and then nothing is pending, the model is that of immediate application unless stop discarded events, and a stop has returned |
| Hotplug.HotplugService.OnEvent | app/src/hotplug_service.cpp:44-71 | the critical section makes the machine's cancel, overwrite or insert, and schedule steps; what they mean over a run is NewerEventCancels and FlushWaitsItsWindow |
| Hotplug.HotplugService.TakeEvent | app/src/hotplug_service.cpp:73-86 | takes the pending event of the id, if there is one |
| Hotplug.HotplugService.Resolve | app/src/hotplug_service.cpp:88-99 | the decrement of the counter |
| Hotplug.HotplugService.CancelPending | app/src/hotplug_service.cpp:20-41 | stop cancels every pending flush, uncounts the cancelled, forgets the events, and is done exactly if nothing is outstanding |
| StatusLine.SupersededClearIsHarmless | app/src/status_line_vm.cpp:102-147 | a clear that runs after a later message changes neither text, severity, generation nor handle |
| StatusLine.TextHasItsClear | app/src/status_line_vm.cpp:102-147 | until destruction a non-empty text has a clear of its generation queued or dequeued |
| StatusLine.SleeperIsNotified | app/src/status_line_vm.cpp:49-89 | the destructor does not sleep with nothing outstanding unless a notify is owed |
| StatusLine.DestructorIsABarrier | app/src/status_line_vm.cpp:49-89 | after the wait no clear is queued, dequeued or able to change the line, ever again |
| StatusLine.DestructorLooks | app/src/status_line_vm.cpp:65-89 | once unsubscribed no message comes in, and the destructor returns at the first look that finds nothing outstanding and at no other |
| StatusLine.LastMessageShows | app/src/status_line_vm.cpp:102-147 | until the next message or the destructor the line shows the last message in its colour, exactly until the clear of that message takes the lock, and is empty from then on |
| StatusLine.ClearWaitsItsTime | app/src/status_line_vm.cpp:113-118 | a clear takes the lock only after the worker, since the message, has seen the clock at or past the deadline set |
| StatusLine.LineSettles | app/src/status_line_vm.cpp:49-147 | until the timer shuts down what has begun can go on and ends, and then the text is cleared and the destructor, if called, has returned |
| StatusLine.StatusLineVM.SetMessage | app/src/status_line_vm.cpp:102-119 | shows the message, cancels the old clear, counts and schedules a clear of the new generation |
| StatusLine.StatusLineVM.OnClearFired | app/src/status_line_vm.cpp:121-147 | clears the line exactly if the generation is current, and uncounts itself |
| StatusLine.StatusLineVM.CancelLast | app/src/status_line_vm.cpp:75-88 | the destructor's cancel, generation bump and wait condition |
| DeviceList.QuiescentListIsCurrent | app/src/device_list_vm.cpp:41-68 | with no publisher mid-notification, no rebuild queued and none running, the cached snapshot is the model |
| DeviceList.OneRebuildPerBurst | app/src/device_list_vm.cpp:41-53 | rebuilds queued or about to be posted number at most one, exactly when the flag is set |
| DeviceList.BurstsSettle | app/src/device_list_vm.cpp:41-134 | every notification, post and rebuild that has begun can go on, and each such step leaves less to do |
| DeviceList.SettledListIsNewest | app/src/device_list_vm.cpp:41-134 | once settled, rows that were built show the model of the last change through the filter of the last edit |
| DeviceList.RowsAreBuilt | app/src/device_list_vm.cpp:41-134 | once anything was changed, announced or edited, a settled list has built rows |
| DeviceList.ValidCopyIsReused | app/src/device_list_vm.cpp:123-134 | a rebuild copies the model only if it was invalidated since the last claim |
| DeviceList.DeviceListVM.OnModelChanged | app/src/device_list_vm.cpp:41-53 | invalidates, and posts exactly if no rebuild was queued |
| DeviceList.DeviceListVM.Rebuild | app/src/device_list_vm.cpp:123-134 | fetches exactly if the snapshot was invalid and validates it before fetching |
| DeviceList.DeviceListVM.SetFilter | app/src/device_list_vm.cpp:55-58 | stores the filter and rebuilds |
| Sha256.Sha256Hex | core/src/sha256.cpp:84-112 | for every byte string shorter than 2^61 the output is the hex of the digest FIPS 180-4 defines, always 64 lowercase hex characters |
| Sha256.Compress | core/src/sha256.cpp:42-80 | one block changes the state as section 6.2.2 of FIPS 180-4 says, for the words that section 5.2.1 parses from its bits |
| Sha256.ParsedWord | core/src/sha256.cpp:44-47 | parsing the block's bits by section 5.2.1 gives the big-endian words |
| Sha256.ExpandBlock | core/src/sha256.cpp:48-54 | the schedule loop fills w with the message schedule |
| Sha256.RunRounds | core/src/sha256.cpp:55-71 | the round loop is the sixty-four rounds |
| Sha256.AddTo | core/src/sha256.cpp:72-79 | the working variables are added to the state, word by word |
| Fips180.ZeroCountIsLeast | core/src/sha256.cpp:94-101 | the number of zero bits is the least that section 5.1.1 of FIPS 180-4 allows |
| Sha256.RotationIsShifts | core/src/sha256.cpp:49-61 | the machine rotations are the rotations of section 3.2 of FIPS 180-4 |
| Sha256.PaddingPads | core/src/sha256.cpp:94-101 | message and tail together are the padded message of section 5.1.1, whatever the length |
| Sha256.BuildTail | core/src/sha256.cpp:94-101 | the 128-byte buffer starts with the rest, the marker, zeros and the length, in one block or two |
| Sha256.CompressWhole | core/src/sha256.cpp:87-92 | the loop over whole blocks leaves the digest of the rest to do |
| Sha256.CompressTail | core/src/sha256.cpp:102-103 | one or two tail blocks finish the digest |
| Sha256.PrintWords | core/src/sha256.cpp:105-111 | the printer writes each word's eight nibbles from the top |
| Sha256.HexInjective | core/src/sha256.cpp:105-111 | the printed text determines the digest |
| Sha256.HexReadsBack | core/src/sha256.cpp:105-111 | each eight characters, read as a hexadecimal number, are the word again |
| Sha256.WordDigits | core/src/sha256.cpp:105-110 | the eight digits of a word are its four-bit parts from the top |
| Sha256.HexByValue | core/src/sha256.cpp:105 | the sixteen digit characters, by value |
| Fips180Constants.PrimesAreTheFirst | core/src/sha256.cpp:26-27 | the table of primes is the first 64 primes, each the next after the one before, by the definition of a prime |
| Fips180Constants.RoundConstantsAreCubeRoots | core/src/sha256.cpp:28-36 | each round constant is the first 32 bits of the fractional part of the cube root of its prime, as section 4.2.2 of FIPS 180-4 says |
| Fips180Constants.InitialValueIsSquareRoots | core/src/sha256.cpp:38-40 | each word of the initial value is the first 32 bits of the fractional part of the square root of its prime, as section 5.3.3 says |
| Sha256Example.DigestOfAbc | tests/unit/test_sha256.cpp:14-17 | the digest and hex text of "abc" are the published ones, through every schedule word and round |
| SnapshotOrder.OrderedIsTheListing | daemon/src/snapshot_store.cpp:89-116 | for any parent links the listing is the walk from HEAD, each id once, then the other entries stably sorted by falling time; and only that |
| SnapshotOrder.WalkFollows | daemon/src/snapshot_store.cpp:97-107 | the walk follows parent links through first entries, visits no id twice and stops only at a missing, unlisted or visited parent |
| SnapshotOrder.OneWalk | daemon/src/snapshot_store.cpp:97-107 | any sequence with these properties is the walk |
| SnapshotOrder.SortIsStable | daemon/src/snapshot_store.cpp:111-112 | the sort orders by falling time, permutes, and keeps the order of equal times |
| SnapshotOrder.OneStableSort | daemon/src/snapshot_store.cpp:111-112 | there is only one stable sort |
| SnapshotOrder.OrderedIsPermutationIff | daemon/src/snapshot_store.cpp:93-110 | the listing is a permutation exactly when no entry off the chain has a chain member's id |
| SnapshotOrder.SharedIdIsDropped | daemon/src/snapshot_store.cpp:93-110 | of two entries under HEAD's id the second is dropped |
| SnapshotOrder.DistinctIsPermutation | daemon/src/snapshot_store.cpp:89-116 | with distinct ids it always is |
| SnapshotOrder.OrderNewestFirst | daemon/src/snapshot_store.cpp:89-116 | the loops over index, taken set and rest terminate and build the listing |
| SnapshotOrder.WalkChain | daemon/src/snapshot_store.cpp:97-107 | the chain loop terminates on any links and takes exactly the walked ids |
| SnapshotOrder.IndexById | daemon/src/snapshot_store.cpp:92-93 | the index holds the first entry of each id |
| SnapshotHistory.DepthIsBounded | core/src/snapshot_history.cpp:13-26 | on every listing a row's depth is below the number of rows |
| SnapshotHistory.DepthZeroIff | core/src/snapshot_history.cpp:13-48 | depth 0 exactly for chain starts and rows that name themselves as parent |
| SnapshotHistory.DepthCountsLinks | core/src/snapshot_history.cpp:13-26 | without cycles and with distinct ids depth is the listed parent's depth plus one |
| SnapshotHistory.DepthZeroIffStart | core/src/snapshot_history.cpp:46-48 | without cycles and with distinct ids depth 0 means chain start |
| SnapshotHistory.OneHeadRow | core/src/snapshot_history.cpp:49-52 | without cycles and with distinct ids a non-empty listing has exactly one head row |
| SnapshotHistory.LastGoodIff | core/src/snapshot_history.cpp:53-56 | a row is marked last-good exactly when some row is healthy, and only one |
| SnapshotHistory.HeadRowIff | core/src/snapshot_history.cpp:49-52 | on every listing a head row exists exactly when some listed id is nobody's listed parent, and there is never more than one |
| SnapshotHistory.CycleHasNoHead | core/src/snapshot_history.cpp:49-52 | so a cycle of two rows alone has none |
| SnapshotHistory.DepthOf | core/src/snapshot_history.cpp:13-26 | the loop counts the listed ancestors, each id once, and terminates on every listing |
| SnapshotHistory.BuildSnapshotChain | core/src/snapshot_history.cpp:30-58 | each row has its entry, chain start, depth, and the marks of the first tip and the first healthy row |
| SnapshotStore.StepKeepsSound | daemon/src/snapshot_store.cpp:170-313 | whatever the file system does, one call keeps every file's payload hashing to its name, rewrites no stored file and quarantines nothing |
| SnapshotStore.RunIsSound | daemon/src/snapshot_store.cpp:170-313 | so in every run from the empty store |
| SnapshotStore.PutMovesHead | daemon/src/snapshot_store.cpp:170-205 | a successful put returns the payload's hash and HEAD is it |
| SnapshotStore.PutStoresIff | daemon/src/snapshot_store.cpp:181-199 | its file exists exactly unless HEAD named it already with the file gone |
| SnapshotStore.PutReadsIff | daemon/src/snapshot_store.cpp:170-247 | reading it succeeds, and gives the payload, under exactly that condition |
| SnapshotStore.PutThenRead | daemon/src/snapshot_store.cpp:170-247 | with HEAD absent or stored, put then read gives the payload back |
| SnapshotStore.PutStoresOnly | daemon/src/snapshot_store.cpp:184-199 | whatever fails, the only file that can appear is the payload's own, chained to the old HEAD |
| SnapshotStore.PutKeepsHeadStored | daemon/src/snapshot_store.cpp:170-205 | whatever fails, a put leaves HEAD absent or naming a stored file |
| SnapshotStore.PutsKeepHeadStored | daemon/src/snapshot_store.cpp:170-205 | so do all runs of puts |
| SnapshotStore.RemoveKeepsHeadStoredIff | daemon/src/snapshot_store.cpp:295-313 | a successful delete takes that file only, moves HEAD to the parent if it named the file, and keeps HEAD stored exactly when that parent is absent or stored |
| SnapshotStore.RemoveKeepsHeadStored | daemon/src/snapshot_store.cpp:295-313 | a delete of a snapshot that is not HEAD's, or whose parent is absent or stored, leaves HEAD absent or stored, wherever it fails |
| SnapshotStore.FailedRemoveDeletesNothing | daemon/src/snapshot_store.cpp:295-313 | a delete that fails anywhere deletes nothing and at worst has moved HEAD to the parent |
| SnapshotStore.PruneKeepsFirstTwenty | daemon/src/snapshot_store.cpp:207-220 | pruning a sound store keeps exactly the first twenty automatic snapshots of the listing and every other file |
| SnapshotStore.PruneTakesOnly | daemon/src/snapshot_store.cpp:207-220 | in any directory, listed in any way, a file that goes was damaged and is in quarantine, or is a healthy automatic snapshot past the twentieth that HEAD does not name |
| SnapshotStore.RunKeepsTwenty | daemon/src/snapshot_store.cpp:170-313 | in every run from the empty store with working file operations at most twenty healthy automatic snapshots are stored after each operation |
| SnapshotStore.ListShowsTheStore | daemon/src/snapshot_store.cpp:254-293 | listing a sound store changes nothing and shows each file once, HEAD's first |
| SnapshotStore.DeletesCanLoseHead | daemon/src/snapshot_store.cpp:302-306 | two puts and two deletes leave HEAD naming a missing file, and a put of that payload reports success and stores nothing |
| SnapshotStore.DeletesCanCloseACycle | daemon/src/snapshot_store.cpp:181-199 | one way to meet the condition of PutClosesIff: a deleted ancestor is stored again |
| SnapshotFiles.ReadTells | daemon/src/snapshot_store.cpp:222-247 | what a read answers and changes for every kind of file, by the file's fields: good, newer format, damaged, quarantined earlier, unknown |
| SnapshotFiles.ScanShows | daemon/src/snapshot_store.cpp:254-286 | what a listing shows for every kind of file: its own fields with defaults, and its health |
| SnapshotFiles.ScanGoesThrough | daemon/src/snapshot_store.cpp:254-286 | one entry for each name in the order of the directory, each damaged file moved aside before the next name is looked at |
| SnapshotFiles.PutTells | daemon/src/snapshot_store.cpp:170-205 | what a put answers and leaves at every point of failure, and each field of the document it writes |
| SnapshotFiles.RemoveTells | daemon/src/snapshot_store.cpp:295-313 | what a delete answers and leaves at every point of failure |
| SnapshotCycles.PutClosesIff | daemon/src/snapshot_store.cpp:174-199 | among links without a cycle, the document a put writes closes one exactly when its id, without a file and not named by HEAD, is where the walk from HEAD stops |
| SnapshotCycles.PutIsPart | daemon/src/snapshot_store.cpp:170-220 | a put leaves only files it found, unchanged, and its document; exactly these if nothing is pruned |
| SnapshotCycles.OthersCloseNothing | daemon/src/snapshot_store.cpp:207-313 | reading, listing, deleting and pruning only take files away and never close a cycle, in any directory |
| SnapshotCycles.RunHasNoCycle | daemon/src/snapshot_store.cpp:170-313 | runs whose puts do not meet the condition never have a cycle, whatever the file system does |
| SnapshotCycles.CycleStandsIff | daemon/src/snapshot_store.cpp:170-220 | with working file operations a closed cycle survives the pruning of the same put exactly when at most twenty of its snapshots are automatic |
| SnapshotCycles.ListingIsAcyclicIff | daemon/src/snapshot_store.cpp:288-293 | the links of a sound store's listing have a cycle exactly when the stored links have |
| SnapshotCycles.ListedChain | core/src/snapshot_history.cpp:30-58 | the chain shown for a sound store without a cycle has one head row, if it is not empty, and each row one deeper than its parent |
| SnapshotCycles.HeadRowIsHeadIff | core/src/snapshot_history.cpp:49-52 | for a sound store with a stored HEAD the row marked as head is HEAD's exactly when no stored snapshot has it as parent |
| SnapshotCycles.HeadRowCanDiffer | core/src/snapshot_history.cpp:49-52 | after putting a payload, another one and the first again, HEAD is the first and the head row the second, without any cycle |
| SnapshotCycles.RunShowsOneChain | core/src/snapshot_history.cpp:30-58 | so after every run from the empty store whose puts do not meet the condition |
| SnapshotIds.IdsAreValid | daemon/src/snapshot_store.cpp:175 | whatever the canonical serialization, the id is 64 lowercase hex characters and so an id that the bus verbs accept |
| SnapshotIds.OneIdOneDigest | daemon/src/snapshot_store.cpp:36-41 | two payloads share an id exactly when their serializations share the digest |
| SnapshotIds.IdOf | daemon/src/snapshot_store.cpp:175 | the code's hash of the serialization is that id |
| SnapshotStore.JsonSnapshotStore.PutPayload | daemon/src/snapshot_store.cpp:170-205 | put changes files, HEAD and quarantine as specified, on every path |
| SnapshotStore.JsonSnapshotStore.PruneLocked | daemon/src/snapshot_store.cpp:207-220 | the counting loop deletes exactly the surplus |
| SnapshotStore.JsonSnapshotStore.ReadLocked | daemon/src/snapshot_store.cpp:222-247 | missing, quarantined earlier, damaged, too new and intact files are told apart, damaged ones moved |
| SnapshotStore.JsonSnapshotStore.ScanLocked | daemon/src/snapshot_store.cpp:254-286 | one entry for each name, damaged files moved as they are met |
| SnapshotStore.JsonSnapshotStore.ListAll | daemon/src/snapshot_store.cpp:288-293 | the scan, in listing order |
| SnapshotStore.JsonSnapshotStore.RemoveSnapshot | daemon/src/snapshot_store.cpp:295-313 | refuses what does not read, moves HEAD before deleting |
| StateStores.UpsertLooksUp | daemon/src/state_store.cpp:55-65 | an upsert sets what its key finds and nothing else |
| StateStores.EraseLooksUp | daemon/src/state_store.cpp:67-71 | a removal clears what its key finds and nothing else |
| StateStores.UpdateLooksUp | daemon/src/state_store.cpp:79-100 | a change of one field shows under its key only, and only if the key was there |
| StateStores.UpsertKeys | daemon/src/state_store.cpp:55-65 | upserting keeps keys distinct |
| StateStores.EraseKeys | daemon/src/state_store.cpp:67-71 | removing keeps exactly the entries of other keys, and keys distinct |
| StateStores.EraseUndoesUpsert | daemon/src/state_store.cpp:55-71 | removing a key that an upsert added gives the list back |
| StateStores.UpdatedIsSimilar | daemon/src/state_store.cpp:79-100 | the field updates keep every entry up to suspension and path |
| StateStores.SavedIsLoaded | daemon/src/state_store.cpp:19-53 | what a save reported as done, a restart loads |
| StateStores.SaveTells | daemon/src/state_store.cpp:49-100 | memory always changes, the file unless the write was not done, success only if it was done in full; an unlisted key is reported and nothing changes |
| StateStores.LoadTells | daemon/src/state_store.cpp:19-47 | a start lists what the file holds; a malformed file lists nothing and is moved away or left, never overwritten |
| StateStores.StateStore.Upsert | daemon/src/state_store.cpp:55-65 | the loop replaces the first entry of the key or appends, then saves; memory changes even if the save fails |
| StateStores.StateStore.Remove | daemon/src/state_store.cpp:67-71 | erases every entry of the key, then saves |
| StateStores.StateStore.ReplaceAll | daemon/src/state_store.cpp:73-77 | replaces the list, then saves |
| StateStores.StateStore.SetGuardSuspended | daemon/src/state_store.cpp:79-88 | sets the flag of the first entry of the key and saves, or reports that there is none |
| StateStores.StateStore.SetLastSysfsPath | daemon/src/state_store.cpp:90-100 | sets the path of the first entry of the key and saves, or reports that there is none |
| StateStores.StateStore.LoadFile | daemon/src/state_store.cpp:19-47 | loads the entries; a malformed file leaves none and is moved away unless the rename fails |
| StateStores.StateStore.Find | daemon/src/state_store.cpp:107-113 | the first entry that matches the device by key or path |
| DeviceKeys.KeyIdentifies | core/src/device_key.cpp:43-63 | a device's key matches it, and matches another present device only positionally, by the same last path segment |
| DeviceKeys.MatchesIff | core/src/device_key.cpp:55-63 | a key requires bus, vendor and product always, and the serial number if it has one, the position if not |
| DeviceKeys.KeyIs | core/src/device_key.cpp:35-53 | each field of the key made for a device; the serial number is dropped exactly if a present device at another path shares bus, vendor, product and serial number |
| DeviceKeys.LastSegmentIs | core/src/device_key.cpp:7-10 | the position is what follows the last slash, or the whole path |
| Guard.IsUnderIff | core/src/critical_device_guard.cpp:11-15 | being under a prefix is exactly that it is not empty and its components are the first components |
| Guard.UnderIsTransitive | core/src/critical_device_guard.cpp:11-15 | under what is under is under |
| Guard.DisableAllowedIff | core/src/critical_device_guard.cpp:17-41 | a disable is allowed exactly if no root or boot device is at or below the path and not all keyboards and not all pointers are; otherwise the reason is the first that applies |
| Guard.RefusalCarriesUp | core/src/critical_device_guard.cpp:17-41 | if a path is refused, every ancestor of it is |
| Guard.RunsAreSafe | core/src/critical_device_guard.cpp:30-41 | disables each allowed against the facts still live keep all root and boot devices, and a keyboard and a pointer if there were any |
| Guard.RunsSpareBackingPaths | core/src/critical_device_guard.cpp:30-41 | no disable of such a run is at or above a root or boot device |
| Guard.ModuleVerdictIff | core/src/critical_device_guard.cpp:43-63 | a module may go exactly when nothing uses it and each of its devices may go by itself |
| Guard.EvaluateModuleUnload | core/src/critical_device_guard.cpp:43-63 | the loop gives that verdict, with the reason of the first refused device |
| Guard.ModuleRefusalTells | core/src/critical_device_guard.cpp:43-63 | why a module may not go: its holders, else its use count, else the reason of the first of its devices that may not go |
| Guard.ModuleRemoval | core/src/critical_device_guard.cpp:43-63 | a module that may go takes no root or boot device with it, jointly; a keyboard, or a pointer, is left exactly when one is under none of its devices |
| Guard.ModulesAreNotJoint | core/src/critical_device_guard.cpp:56-61 | two keyboards on one module pass although both would go |
| Daemon.ReApplyTouches | daemon/src/snapshot_service.cpp:215-261 | a re-apply keeps every entry up to suspension and path, the files and the store, and disables only what was just allowed |
| Daemon.ReApplyRecords | daemon/src/enforcement_service.cpp:59-99 | after a disable the entry has the device's path and is not suspended, after a refusal it is suspended, otherwise nothing changes |
| Daemon.Host.ReApplyEntry | daemon/src/enforcement_service.cpp:59-99 | needs-apply test, guard, call and entry updates, in this order on every path |
| Daemon.Host.Snapshot | daemon/src/snapshot_service.cpp:81-84 | captures and stores the current state |
| Daemon.Host.CapturePayload | daemon/src/snapshot_service.cpp:65-79 | the entries and exactly devmgr's own files |
| Daemon.OwnedIff | daemon/src/snapshot_service.cpp:28-33 | devmgr's own files are exactly those with its prefix and the ending of a modprobe file |
| SnapshotServices.WriteBackDoes | daemon/src/snapshot_service.cpp:141-162 | nobody else's file changes, and unless an item is reported failed devmgr's files are the target's |
| SnapshotServices.RestoreStoresFirst | daemon/src/snapshot_service.cpp:114-139 | nothing changes before the put of the safety snapshot has succeeded, and nothing at all if reading or that put fails |
| SnapshotServices.RestoreSucceedsIff | daemon/src/snapshot_service.cpp:114-139 | restore succeeds exactly if the snapshot reads, the put of the safety snapshot succeeds and the list is saved |
| SnapshotServices.WorkingRestoreSucceeds | daemon/src/snapshot_service.cpp:114-139 | with working file operations every restore of a snapshot that reads succeeds |
| SnapshotServices.RestoreEstablishes | daemon/src/snapshot_service.cpp:114-261 | a successful restore leaves the snapshot's entries, up to suspension and path, and its files if file operations work or at least no file is reported as failed |
| SnapshotServices.WorkingFilesGoWell | daemon/src/snapshot_service.cpp:141-162 | if every write and removal works, no file is reported as failed |
| SnapshotServices.ReEnableAllReports | daemon/src/snapshot_service.cpp:164-185 | every removed entry is re-enabled with its driver or reported absent |
| SnapshotServices.ReApplyAllReports | daemon/src/snapshot_service.cpp:187-261 | every restored entry is reported on, and success, refusal and absence are true |
| ReApplyTraces.RestoreConverges | daemon/src/snapshot_service.cpp:114-261 | a restore step by step, with its code at each early end: files first, then each removed entry enabled with its driver, then each restored entry re-disabled as enforcement does, each with the one report that is true of it |
| SnapshotServices.SnapshotReadsIff | daemon/src/snapshot_service.cpp:114-139 | a stored capture reads back, with what was current, exactly unless HEAD named its missing file |
| SnapshotServices.StoredHeadIsUndoable | daemon/src/snapshot_store.cpp:182 | with HEAD absent or stored that cannot be |
| SnapshotServices.RestoringACapture | daemon/src/snapshot_service.cpp:114-261 | restoring a capture of a world succeeds if its put and save work, gives the entries back, up to suspension and path, and devmgr's files if file operations work or at least none is reported as failed |
| SnapshotServices.RestoreUndoesRestore | daemon/src/snapshot_service.cpp:114-261 | restoring the safety snapshot succeeds if its put and save work and undoes a restore, files included if their operations work |
| SnapshotServices.SnapshotService.WriteBackModprobe | daemon/src/snapshot_service.cpp:141-162 | both loops, removals then writes, with an item each |
| SnapshotServices.SnapshotService.ReEnableRemoved | daemon/src/snapshot_service.cpp:164-185 | the loop over the entries before |
| SnapshotServices.SnapshotService.ReApplyRestored | daemon/src/snapshot_service.cpp:187-213 | the loop over a copy of the entries now |
| SnapshotServices.SnapshotService.RestoreSnapshot | daemon/src/snapshot_service.cpp:114-139 | read, safety snapshot, replace, write back, converge, with the source's early returns |
| RequestProcessors.PerformFailsClosed | daemon/src/request_processor.cpp:39-219 | in a device, module or driver verb every change follows a granted authorization and a successful put of what was current; otherwise nothing changes and the verb fails; disables, unbinds and unloads follow an allowing verdict on their path or module with none of them in between |
| RequestProcessors.RestoreFailsClosed | daemon/src/request_processor.cpp:259-267 | the restore verb is as careful |
| RequestProcessors.RestoreUndoesVerb | daemon/src/request_processor.cpp:39-219 | restoring the snapshot that a successful verb took succeeds if its put and save work and undoes it, files included if their operations work |
| RequestProcessors.RefusedLeavesTheStore | daemon/src/request_processor.cpp:64-219 | a device, module or driver verb whose caller is not authorized leaves the snapshot store as it was |
| RequestProcessors.RefusedSnapshotVerbLeavesTheStore | daemon/src/request_processor.cpp:247-276 | so do the snapshot verbs, the delete among them |
| RequestProcessors.SuccessIsSaved | daemon/src/request_processor.cpp:71-122 | entries changed by a successful verb are in state.json |
| RequestProcessors.DisableLists | daemon/src/request_processor.cpp:71-94 | a disable lists the device under its key with path, mechanism and driver, and no other key changes |
| RequestProcessors.EnableUndoesDisable | daemon/src/request_processor.cpp:71-122 | enabling a device that was not listed before its disable gives the list back and rebinds the driver that was unbound |
| RequestProcessors.RequestProcessor.SetDevice | daemon/src/request_processor.cpp:125-143 | validate, contain, guard a disable, authorize, snapshot, act, in this order with early returns; what it does in the end is DisableVerbCalls and EnableVerbCalls |
| RequestProcessors.RequestProcessor.DisableDevice | daemon/src/request_processor.cpp:71-94 | key, call, entry, save |
| RequestProcessors.RequestProcessor.EnableDevice | daemon/src/request_processor.cpp:96-122 | removes the first matching entry's key before it rebinds with that entry's driver |
| RequestProcessors.RequestProcessor.GuardUnload | daemon/src/request_processor.cpp:158-176 | the module guard's inputs and error codes |
| RequestProcessors.RequestProcessor.Load | daemon/src/request_processor.cpp:146-153 | the verb that loads a module |
| RequestProcessors.RequestProcessor.Unload | daemon/src/request_processor.cpp:179-187 | the verb that unloads a module |
| RequestProcessors.RequestProcessor.BindDevice | daemon/src/request_processor.cpp:190-202 | the verb that binds a driver |
| RequestProcessors.RequestProcessor.UnbindDevice | daemon/src/request_processor.cpp:205-219 | the verb that unbinds a driver |
| RequestProcessors.RequestProcessor.HandleSnapshot | daemon/src/request_processor.cpp:247-276 | the snapshot verbs: validate, authorize, act |
| VerbTraces.DisableVerbCalls | daemon/src/request_processor.cpp:71-143 | a disable that succeeds left exactly this trace: the verdict on the contained path, the grant, the snapshot under verb and path, one disable of that path, the saved entry under the key of the first device there |
| VerbTraces.EnableVerbCalls | daemon/src/request_processor.cpp:96-143 | an enable that succeeds asked no guard; after grant and snapshot the first entry that names the path or fits the device went, with its key, and one enable of the path with its driver followed |
| VerbTraces.DriverVerbCalls | daemon/src/request_processor.cpp:146-219 | a load, unload, bind or unbind that succeeds made exactly the one call asked for, on that name or the contained path, after its verdict, grant and snapshot, and changed nothing else |
| VerbTraces.RejectedVerbDoesNothing | daemon/src/request_processor.cpp:125-219 | a malformed argument or a path outside the sysfs root ends a verb with its code before any question, snapshot or call |
| VerbTraces.FailureIsExplained | daemon/src/request_processor.cpp:39-219 | the code of any other failure is told by the last event: the probe, the guard, the authority, the snapshot, the call or the save |
| VerbTraces.SnapshotVerbDoes | daemon/src/request_processor.cpp:247-276 | a snapshot verb is rejected, denied, or, once granted, takes a manual snapshot under its label, restores, or deletes, and answers what that answered |
| Validation.LengthsAreExact | daemon/include/devmgr/daemon/request_validation.hpp:25-97 | the bounds on callers, names, paths, ids and labels, exactly |
| Validation.ValidStaysInPlace | daemon/include/devmgr/daemon/request_validation.hpp:54-97 | a valid name or id has no character that leads out of its directory, a valid label is one line |
| EnforcementServices.EnforcementOnlyTouches | daemon/src/enforcement_service.cpp:27-99 | enforcement keeps all entries up to suspension and path and disables only what the guard has just allowed |
| EnforcementServices.EnforcementService.SweepEntries | daemon/src/enforcement_service.cpp:27-50 | the sweep over a copy of the entries; what it does for each is SweepCares |
| EnforcementServices.EnforcementService.HandleHotplug | daemon/src/enforcement_service.cpp:52-57 | re-applies the first matching entry unless the device went away |
| ReApplyTraces.ReApplyHandles | daemon/src/enforcement_service.cpp:59-99 | a device already disabled is left alone; any other is put to the guard, on the facts of the moment, and disabled exactly if allowed |
| ReApplyTraces.DeviceOfIs | daemon/src/enforcement_service.cpp:33-49 | the device of an entry is the first enumerated one that its key or path fits, or else what is now at its path |
| ReApplyTraces.SweepCares | daemon/src/enforcement_service.cpp:27-99 | a sweep takes care of every entry in turn, between two moments for each, and leaves in each entry what became of its device |
| ReApplyTraces.HotplugHandles | daemon/src/enforcement_service.cpp:52-99 | a device that appears or changes is taken care of under the first entry that fits it; a removal or an unlisted device changes nothing |
| DaemonRuns.RunsAreAttributed | daemon/src/request_processor.cpp:39-276 | in every run every change belongs to an operation; in a verb it follows authorization and a successful put of what was current at its beginning; every disable, unbind and unload follows an allowing verdict of the same operation on the same path or module, with none of them in between |
| DaemonRuns.StepNeedsGrant | daemon/src/request_processor.cpp:64-276 | an operation in which nobody was authorized leaves the snapshot store as it was |
| DaemonRuns.RunsNeedGrant | daemon/src/request_processor.cpp:64-276 | so does a run |
| DaemonRuns.RunsShowChanges | daemon/src/request_processor.cpp:39-276 | entries, state.json and files differ from the start only if the trace shows a change |
| DaemonRuns.StepIsHealthy | daemon/src/request_processor.cpp:39-276 | every operation keeps the store sound and holding only states devmgr was in, and the keys distinct |
| DaemonRuns.RunIsHealthy | daemon/src/request_processor.cpp:39-276 | so in every run from a fresh installation |
| DaemonRuns.RestoreIsUndone | daemon/src/snapshot_service.cpp:114-261 | after any run in whose last world HEAD does not name the missing file of what is current, restoring the safety snapshot undoes a restore of any snapshot |
| DaemonRuns.StepPutsAtMostOnce | daemon/src/request_processor.cpp:39-267 | every operation but the delete verb leaves the store as it was, or as one put of what was current when it began |
| DaemonRuns.StepKeepsHead | daemon/src/request_processor.cpp:39-276 | no operation but the delete verb makes HEAD name a missing file, whatever fails |
| DaemonRuns.DeleteKeepsHead | daemon/src/snapshot_store.cpp:295-313 | a delete verb that is not of HEAD's snapshot, or of one whose parent is absent or stored, leaves HEAD absent or stored, wherever it fails |
| DaemonRuns.RunKeepsHead | daemon/src/request_processor.cpp:39-276 | in every run whose deletes are all of that kind HEAD is absent or stored |
| DaemonRuns.NoDeletesSpareHead | daemon/src/request_processor.cpp:270-276 | runs without a delete are such runs |
| DaemonRuns.UndoHolds | daemon/src/snapshot_service.cpp:114-261 | after any such run, with working file operations, a restore is undone outright: entries, up to suspension and path, and all modprobe files |
| DaemonRuns.VerbUndoHolds | daemon/src/request_processor.cpp:39-219 | and so is a successful device, module or driver verb |
| DaemonRuns.StepHasNoCycle | daemon/src/snapshot_store.cpp:170-205 | an operation closes a cycle of parent links only if what is current has the id, without a file, at which the walk from HEAD stops |
| DaemonRuns.RunLinksHaveNoCycle | daemon/src/snapshot_store.cpp:170-313 | so runs of the daemon without such an operation never have one |
| DaemonRuns.RunKeepsTheMachineUsable | daemon/src/request_processor.cpp:125-219 | in every run whose probes answer what is live, and in which nothing but a disable, successful or not, takes a critical device away, all root and boot devices stay, and a keyboard and a pointer if there were any |
| SnapshotDiff.StateRowsAreTheDifferences | core/src/snapshot_diff.cpp:92-116 | device and module rows are exactly the keys whose state differs, with both states, strictly ascending |
| SnapshotDiff.FileRowsAreTheDifferences | core/src/snapshot_diff.cpp:118-143 | file rows are exactly the files that appeared, disappeared, or changed bytes but not directives, strictly ascending |
| SnapshotDiff.DiffPatches | core/src/snapshot_diff.cpp:84-116 | patching the base's states by the after column gives the target's |
| SnapshotDiff.DiffSwaps | core/src/snapshot_diff.cpp:166-172 | swapping the payloads swaps the columns; an edited file reads the same |
| SnapshotDiff.DiffIsEmptyIff | core/src/snapshot_diff.cpp:166-172 | the exact meaning of an empty diff |
| SnapshotDiff.MovedDirectiveIsNoRow | core/src/snapshot_diff.cpp:57-63 | a directive that moves between files leaves no row |
| DiffTexts.WordsAreSpelled | core/src/snapshot_diff.cpp:18-24 | the words of a line are its maximal runs without white space |
| DiffTexts.OneSpelling | core/src/snapshot_diff.cpp:18-24 | and no other sequence of words is |
| DiffTexts.LinesSplit | core/src/snapshot_diff.cpp:41-42 | a file is split at its line breaks, the last of which begins no further line |
| DiffTexts.CommentIsCut | core/src/snapshot_diff.cpp:19-20 | what counts of a line is what precedes its first # |
| DiffTexts.DirectiveSays | core/src/snapshot_diff.cpp:40-55 | what a line says by its words: blacklist, options or install of the module named second, or nothing |
| DiffTexts.ModuleStateIs | core/src/snapshot_diff.cpp:40-63 | the state of a module is all that the lines of all files say of it, in order, joined by commas |
| DiffTexts.DeviceStateIs | core/src/snapshot_diff.cpp:84-90 | the state of a device label is that of the last entry with it |
| DiffTexts.LabelShows | core/src/snapshot_diff.cpp:147-164 | how a label shows bus, vendor, product, position or path, and serial number, and a state its mechanism |
| SnapshotDiff.CollectDirectives | core/src/snapshot_diff.cpp:40-55 | the loop over lines adds each directive to its module's state |
| SnapshotDiff.CollectModuleStates | core/src/snapshot_diff.cpp:59-63 | all files, in the order of their names |
| SnapshotDiff.CollectDeviceStates | core/src/snapshot_diff.cpp:86-90 | later entries of a label replace earlier ones |
| SnapshotDiff.DiffStates | core/src/snapshot_diff.cpp:92-116 | the loop over the union of keys builds the rows |
| SnapshotDiff.DiffFiles | core/src/snapshot_diff.cpp:118-143 | the loop over the union of file names builds the rows |
| SnapshotDiff.DiffPayloads | core/src/snapshot_diff.cpp:166-172 | device, module and file rows, in this order |
| StringOrder.OneAscending | core/src/snapshot_diff.cpp:72-77 | the ascending order of a set of strings is unique, so the rows' order is |

## Left out

- Qt and FTXUI frontends, row text, grouping, headers and selection of the device list, view models other than the two modelled: presentation.
- D-Bus, polkit, udev, kmod and fwupd: their answers are parameters.
- JSON text: a file is the document that parsing makes of it; a document that parses holds the payload that was written.
- The fsync and rename steps of a file write: a write is done, not done, or done and reported as failed.
- Real time, fairness and memory ordering: the steps are sequentially consistent and deadlines are numbers; a wakeup is stated as a notify that is still owed, and progress as a step that is possible and leaves less to do, not as one that is taken.
- The notify after the decrement at app/src/hotplug_service.cpp:100 and app/src/status_line_vm.cpp:146, and the clear's wake post at line 145, come after what the barriers count; the barriers promise nothing about them.
- Starting a hotplug service again after stop, and the monitor's own threads: the reader calls onEvent one at a time.
- Subscriptions as movable objects: an unsubscribe names its entry.
- The criticality facts that the device list caches beside the snapshot, and the label work of a rebuild.
- Concurrency of daemon operations: each is one step, so a verdict or authorization that grows stale before the apply mutex is taken is not modelled.
- The size limit of parsed files, white space in HEAD, and names in the snapshot directory that are neither snapshots nor quarantined files.
- Texts of errors, refusal reasons and item details: errors are codes, reasons are data.
- The bytes that are hashed for a payload's id: the canonical serialization is any function (`SnapshotIds`), and that distinct payloads have distinct digests is an assumption where it is needed (`NoCollision`).
- SnapshotDiff.Diff: the verb around it, which reads the two payloads, is not modelled.
- Guard.ModuleVerdictIff: the verdict promises no more about several devices of one module than `ModuleRemoval` says.
- Scheduler.DelayedScheduler.Shutdown: the join of the worker thread, and the flag that lets one caller join, are not modelled; the worker's exit is a step of the machine.
- DeviceList.DeviceListVM.Rebuild: building, grouping and selecting the rows is not modelled, only when the snapshot is fetched.
- DaemonRuns.RunKeepsTheMachineUsable: hot-unplugging and unloaded modules that take critical devices along are excluded; for modules see `Guard.ModuleRemoval`.
- SnapshotStore.RunKeepsTwenty: for runs in which file operations work; after a failed prune the count may be higher until the next new snapshot.
- SnapshotServices.RestoreUndoesRestore: hardware is covered by the reports and the trace only, as the source itself promises no more than attempts.
