# gosigar in Dafny

A model of the parts of gosigar that keep state, run concurrently or take text
and bytes apart, with proofs of what they guarantee over all inputs and all runs.

* **Process-event watcher** (`psnotify`, Linux), on two levels.
  `CloseHandshake.dfy` is the watcher as an instruction-level state machine: any
  number of goroutines inside `Close`, `Watch` and `RemoveWatch`, new goroutines
  appearing at any time, and the reader goroutine with its receive loop and the
  whole of `handleEvent`, interleave one lock, one access to the map, one load or
  store of an entry's flags, or one channel operation at a time. The table refers to entries on a heap, as the
  map of pointers does, so that an entry taken out of the table can still be
  written and read. A blocked operation has no successor state; closing a closed
  channel and sending on one lead to a panicked state, so that their absence is
  proved. `CloseGuarantees.dfy` proves what holds of every run; `CloseReturns.dfy`
  when Close can return, `CloseUnaided.dfy` when it can without new calls,
  `CloseTable.dfy` when it leaves the table empty, `LostFlags.dfy` when flags stay
  in the table, `ForkFollowing.dfy` when a child gets its parent's flags,
  `MapRaces.dfy` where map and flags are accessed without a mutex,
  `RunProvenance.dfy` where flags come from; and `CloseRuns.dfy` and `LostRuns.dfy`
  construct the runs in which promises fail. `Runs.dfy` and `TableEntries.dfy` hold
  what these share.
  `WatchTable.dfy` is the watch table with each call and each kernel event as one
  step, `Watcher.dfy` the object that performs those steps in place,
  `Provenance.dfy` the history of flags, and `ReaderRefinement.dfy` ties the two
  levels together: the reader's instructions, undisturbed, are those steps, up to
  the first fork to follow if `closedMutex` is held meanwhile.
* **Human-readable sizes** (`SizeFormat.dfy`). The quantity a text denotes is
  read back from the four characters alone; accuracy and monotonicity are about
  that quantity.
* **cgroup v1** (`Numbers.dfy`, `Paths.dfy`, `Cgroups.dfy`, `CgroupReader.dfy`,
  `Blkio.dfy`, `BlkioThrottle.dfy`, `BlkioFiles.dfy`). Where Go ranges over a map, the visiting order is an
  arbitrary enumeration of the keys.
* **Records and streams** (`Wire.dfy`, `InetDiag.dfy`, `NulRecords.dfy`,
  `ProcStat.dfy`). Message headers follow section 2.3.2 of RFC 3549.
* **CPU sampler** (`CpuSampler.dfy`), differences modulo 2^64 into a channel with
  room for one.

`Text.dfy`, `Decimal.dfy`, `Sequences.dfy`, `MapOrder.dfy` and `Wrappers.dfy` hold
what these share. `dafny verify dfyconfig.toml` checks everything.

## What does not hold, and exactly when it does

* `Close` is documented to remove all watches (psnotify/psnotify.go:98-99). It
  empties the table, but a Watch that is between its closed test and its insertion
  fills it again: `CloseTable.CloseRemovesAll` says that the table stays empty if
  and only if there is none, neither a user's nor the reader's own.
  `CloseRuns.CloseCanLeaveAnEntry` shows the first, after Close has returned;
  `CloseRuns.ReaderCanLeaveAnEntry` the second, with a single goroutine.
  `CloseTable.TableAfterClose` says when the table can still grow after Close.
* `Close` need not return. Once a Close holds `closedMutex` while the reader needs
  it to follow a fork, no Close ever returns: `CloseRuns.CloseCanWaitForEver`;
  `CloseReturns.CloseCanReturn` shows for every call of Close, wherever it is,
  that this is the only point of no return. The run in which Close returns may need
  help: it starts a goroutine that removes the entries, so that nothing is left to
  follow. `CloseUnaided.ReturnsUnaided` says when Close can return by the calls in
  progress alone.
* `Watch` is documented to add to the watched set (psnotify/psnotify.go:125). Of two
  Watches for one process that both find no entry, the later insertion replaces
  the earlier one (`LostRuns.WatchCanBeLost`); of two that both load the flags of
  one entry, the later store undoes the earlier one (`LostRuns.MergeCanBeLost`).
  `LostFlags.FlagsStay` says exactly when flags stay.
* The watch map is read without its mutex in three places (psnotify/psnotify.go:137,
  psnotify/psnotify_linux.go:222-224), where Go's runtime may abort on a concurrent
  write: `MapRaces.LookupsRace` and `MapRaces.FetchesRace`, and
  `MapRaces.RacesAreLookups` for these being the only ones. The flags of an entry are
  written without any mutex (psnotify/psnotify.go:140): `MapRaces.FlagsRace`.
* Group changes are let through by the flag for user changes
  (psnotify/psnotify_linux.go:264): `Provenance.GroupChangesNeedUserFlag`.
* A line of /proc/[pid]/cgroup whose path contains a colon is passed over:
  `Cgroups.WrittenEntry`.
* The common cgroup metadata depends on Go's map order when an empty path stands
  among otherwise equal ones: `CgroupReader.OrderMatters`, and
  `CgroupReader.EmptyPathIsAmbiguous` for files that lead there. With no mounts,
  or only empty paths, the ID is "." and not empty.
* `ProcTime` counts fields from the start of the stat line, so a blank in the
  process name shifts them: `ProcStat.TimesAgreeExactly`.
* `kern_procargs` takes an empty first argument for padding:
  `NulRecords.RecoveredExactly`.
* `parseUint` accepts a negative number with anything after it, as zero, if and only
  if the number overflows 64 bits: `Numbers.NegativeWithTail`.
* What `serialize` writes is not padded and its length is cut to 32 bits, so that it
  is a datagram of one message only for some payloads: `Wire.SerializedRoundTrip`.

## Model

| member | source | states |
|---|---|---|
| CloseHandshake.InvStep | psnotify/psnotify.go:89-180 | every instruction of every goroutine, in any order, keeps the joint invariant: who holds which mutex, how far the handshake has got, which channels are closed, what the trace may contain |
| CloseHandshake.InvRun | psnotify/psnotify.go:89-180 | hence the invariant holds after every run |
| CloseHandshake.MutexStep | psnotify/psnotify.go:101-166 | each mutex is held by exactly the goroutine whose program counter lies between its lock and unlock |
| CloseGuarantees.SafeInEveryRun | psnotify/psnotify.go:89-123 | in every run with any number of goroutines: no channel operation panics, `done` is sent at most once and never blocks, every event channel, `breakLoop` and the socket are closed at most once, nothing is sent on a closed channel, the closed socket is not read |
| CloseGuarantees.ReturnsLastStep | psnotify/psnotify.go:116-123 | a step by which some Close returns finds the loop left, all channels and the listener closed |
| CloseGuarantees.CloseReturnsLast | psnotify/psnotify.go:100-123 | every Close that returns, first, repeated or concurrent, returns after the reader has left its loop and everything is closed, and it stays so |
| CloseGuarantees.WatchAfterCloseFails | psnotify/psnotify.go:128-135 | a Watch that starts after some Close has returned fails, and its goroutine touches no entry before that, in every continuation |
| CloseGuarantees.SentWhereItBelongs | psnotify/psnotify_linux.go:232-274 | in every run each event is sent on the channel of its kind, and the channels are closed in the order of finish |
| CloseReturns.CloseCanReturn | psnotify/psnotify.go:100-123 | any call of Close, wherever it is, can still return if and only if no Close holds `closedMutex` while the reader needs it to follow a fork; new goroutines and calls are allowed |
| CloseUnaided.ReturnsUnaided | psnotify/psnotify.go:116-123 | a Close that waits for the reader, with all other goroutines idle or waiting for `closedMutex`, can return by the calls in progress alone if and only if the reader will not come to a fork that is to be followed, by the table and the events it has in hand |
| CloseReturns.DeadlockedRun | psnotify/psnotify_linux.go:222-228 | once that is so it stays so, and no Close of any goroutine returns, in every run |
| CloseReturns.ReturnRun | psnotify/psnotify.go:100-123 | from every other state, a run in which the call returns, goroutines that hold no mutex left where they were |
| CloseReturns.HolderReturns | psnotify/psnotify.go:104-122 | a Close that holds `closedMutex`, at any of its instructions, can be taken to its end |
| CloseReturns.FreeClosed | psnotify/psnotify.go:101-131 | a Close that waits for `closedMutex` can get it, with the reader not about to follow |
| CloseReturns.Drain | psnotify/psnotify_linux.go:160-277 | with an empty table, or no event left, the reader handles what it still has and leaves its loop, the table unchanged |
| CloseTable.CloseRemovesAll | psnotify/psnotify.go:98-114 | when Close has emptied the table, it stays empty in every run if and only if no Watch, a user's or the reader's own, is between its closed test and its insertion |
| CloseTable.TableAfterClose | psnotify/psnotify.go:100-152 | after a Close has returned, no run adds an entry if and only if no Watch for an absent pid is past its closed test |
| CloseRuns.CloseCanLeaveAnEntry | psnotify/psnotify.go:128-149 | a run in which Close has returned and a user's Watch inserts its entry afterwards |
| CloseRuns.ReaderCanLeaveAnEntry | psnotify/psnotify_linux.go:222-228 | a run with a single goroutine after which Close has returned, no call is in progress, and an entry made by the reader is in the table for good |
| CloseRuns.CloseCanWaitForEver | psnotify/psnotify_linux.go:214-230 | a run of one goroutine, one watched process and one fork after which no continuation lets Close return |
| LostFlags.FlagsStay | psnotify/psnotify.go:137-149 | from every reachable state, flags in the table stay there in every run that keeps the entry, if and only if no Watch is about to store flags without these to the entry, and no Watch that found no entry is about to insert one without these, unless the holder of the table mutex deletes the entry first |
| LostRuns.WatchCanBeLost | psnotify/psnotify.go:137-149 | a run in which two Watches for one process succeed and the flags of the first are gone, its entry replaced |
| LostRuns.MergeCanBeLost | psnotify/psnotify.go:139-140 | a run in which a Watch has returned, its flag is in the table, no insertion is pending, and the store of another Watch takes it away |
| ForkFollowing.ForkIsFollowed | psnotify/psnotify_linux.go:214-230 | in every run in which a process keeps its entry and its flags, exec included, the reader comes past a fork of it only through a Watch for the child with at least these flags |
| ForkFollowing.WriteGives | psnotify/psnotify.go:139-147 | when a Watch, a user's or the reader's, has written, its process holds its flags if and only if it wrote to the entry in the table or the entry there has them anyway |
| MapRaces.RacesAreLookups | psnotify/psnotify.go:109-165 | in every reachable state, a write to the watch map and another access to it can only coincide if that access is one of the three lookups made without the mutex |
| MapRaces.LookupsRace | psnotify/psnotify.go:137-147 | a reachable state in which one Watch is about to write the map and another to read it |
| MapRaces.FetchesRace | psnotify/psnotify_linux.go:222-224 | the same for both lookups of the reader and a RemoveWatch |
| MapRaces.FlagWritesAreUnlocked | psnotify/psnotify.go:140-140 | whoever is about to write the flags of an entry holds no mutex |
| MapRaces.FlagsRace | psnotify/psnotify_linux.go:192-228 | reachable states in which the flags of an entry, a process's or the wildcard's, are about to be read, by isWatching and for following, and to be written |
| TableEntries.RefsReach | psnotify/psnotify.go:137-147 | in every reachable state, every reference held by the table, a Watch or the reader is to an entry made for the right process |
| TableEntries.StoredTable | psnotify/psnotify.go:139-140 | a store through a reference changes the flags of its own process only |
| TableEntries.MergedTable | psnotify/psnotify.go:139-140 | a load and a store without anybody in between are the merge of the table-level step |
| RunProvenance.FlagProvenance | psnotify/psnotify.go:128-152 | in every interleaved run, every flag bit of every entry goes back to a user's Watch call with that bit for the pid, for -1 or for an ancestor by the forks followed since |
| RunProvenance.SendProvenance | psnotify/psnotify_linux.go:205-277 | so does the flag that let through whatever event the reader is about to send |
| ReaderRefinement.DatagramAlone | psnotify/psnotify_linux.go:178-277 | from every reachable state with `closedMutex` free, the reader's instructions for the events of a datagram, undisturbed, give the table and the deliveries of the table-level steps |
| ReaderRefinement.RoundAlone | psnotify/psnotify_linux.go:160-183 | one round of the loop, from the done test over a receive back to the done test, does what the table-level steps do for the events received |
| ReaderRefinement.FailedRound | psnotify/psnotify_linux.go:165-174 | a round whose receive fails sends an error and does nothing else |
| ReaderRefinement.DatagramHeld | psnotify/psnotify_linux.go:178-277 | from every reachable state in which somebody holds `closedMutex`, as after closing, the same for the events before the first fork that is to be followed; there the reader stops, and if a Close holds the mutex it is a deadlock |
| ReaderRefinement.EventAlone | psnotify/psnotify_linux.go:205-277 | one event of any kind; `closedMutex` need only be free for a fork that is to be followed |
| ReaderRefinement.FollowedTable | psnotify/psnotify_linux.go:214-230 | following a fork, through the reader's own Watch call, ends in the table of the one-step event and delivers nothing |
| WatchTable.DeliveredExactly | psnotify/psnotify_linux.go:188-277 | what is delivered for an event of each kind, field by field, by the flag of that kind in the entry of its process, which hides the wildcard's |
| WatchTable.ForkExactly | psnotify/psnotify_linux.go:214-230 | what a fork makes of the table: with the exec flag watched the child gains the flags that decide for the parent, otherwise nothing changes |
| WatchTable.OthersExactly | psnotify/psnotify_linux.go:235-276 | what every other event makes of the table: a delivered exit, uid, gid or sid event removes the entry of its process, nothing else changes |
| WatchTable.WildcardRefinement | psnotify/psnotify_linux.go:188-277 | after one Watch on -1, every event sequence delivers exactly what a stateless filter delivers that goes through the six kinds with their flags, and every entry holds exactly those flags |
| WatchTable.ForkClosure | psnotify/psnotify_linux.go:214-230 | every process reached by forks from watched ones with EXEC holds at least their flags in every run, until its entry is removed |
| WatchTable.SilenceAfterRemoval | psnotify/psnotify_linux.go:243-276 | without a wildcard, nothing about a process is delivered after a delivered exit, uid, gid or sid event until a Watch or followed fork names it again |
| WatchTable.WildcardSurvives | psnotify/psnotify_linux.go:205-277 | no sequence of kernel events adds, removes or changes the wildcard entry |
| WatchTable.ClosedForGood | psnotify/psnotify.go:104-135 | with Close and Watch as single steps, the closed table stays empty and nothing more is delivered |
| WatchTable.SilenceAfterClose | psnotify/psnotify.go:104-114 | whatever was watched before, after Close as a single step nothing is watched or delivered any more |
| Provenance.EntryProvenance | psnotify/psnotify.go:128-152 | every flag bit of every entry goes back to a user's Watch call with that bit for the pid, for -1 or for an ancestor by the forks since |
| Provenance.DeliveryProvenance | psnotify/psnotify_linux.go:188-277 | so does the flag that let any delivered event through |
| Provenance.GroupChangesNeedUserFlag | psnotify/psnotify_linux.go:260-267 | watching all processes delivers exactly the events whose own flag was given, on all event sequences, if and only if UID and GID are given together or not at all |
| WatcherObject.Watcher.constructor | psnotify/psnotify.go:69-82 | a new watcher is the empty open table with nothing sent |
| WatcherObject.Watcher.Watch | psnotify/psnotify.go:128-152 | fails exactly when closed; otherwise the entry gains the flags or is made |
| WatcherObject.Watcher.RemoveWatch | psnotify/psnotify.go:155-166 | succeeds exactly when there is an entry, which is then gone |
| WatcherObject.Watcher.Close | psnotify/psnotify.go:104-114 | deleting in any order empties the table and marks it closed; a second call changes nothing |
| WatcherObject.Watcher.IsWatching | psnotify/psnotify_linux.go:188-200 | an own entry decides and hides the wildcard |
| WatcherObject.Watcher.HandleEvent | psnotify/psnotify_linux.go:205-277 | table and sent events after one event are those of the table-level step |
| WatcherObject.Watcher.HandleFork | psnotify/psnotify_linux.go:214-234 | the fork case, whose second test is made after the table has changed |
| WatcherObject.Watcher.HandleRemoving | psnotify/psnotify_linux.go:243-275 | the exit, uid, gid and sid cases |
| WatcherObject.Watcher.HandleEvents | psnotify/psnotify_linux.go:178-182 | the loop over events refines the run of table-level steps |
| WatcherObject.ForkKeepsGate | psnotify/psnotify_linux.go:220-234 | following a fork never changes whether the fork itself is delivered |
| SizeFormat.FormatSize | sigar_format.go:14-56 | terminates and prints the shape for every uint64 |
| SizeFormat.ShowRounded | sigar_format.go:35-51 | the rounding and writing at the end of the loop |
| SizeFormat.BytesExactly | sigar_format.go:20-24 | below 973 the text is the number of bytes |
| SizeFormat.TextExactly | sigar_format.go:26-52 | by the size alone: which unit, exactly when one decimal is shown, and which quantity, rounded to the nearest tenth or unit with ties up |
| SizeFormat.AccurateBySize | sigar_format.go:26-52 | the error bounds, by the size alone |
| SizeFormat.FourColumns | sigar_format.go:20-52 | four readable characters, unit index at most 5, at least one unit in unit form |
| SizeFormat.RenderDenotes | sigar_format.go:20-52 | the quantity read off the text is the one that was meant |
| SizeFormat.TextIsAccurate | sigar_format.go:26-52 | off by at most 1/2 unit in whole units and by less than 1/20 + 1/1024 unit in one-decimal form |
| SizeFormat.TextIsMonotone | sigar_format.go:20-52 | a larger size never reads as a smaller quantity, across every switch of form and unit |
| Numbers.ParseUintCanonical | cgroup/util.go:61-79 | on the decimal text of any integer with white space around it: 0 if negative, itself below 2^64, a range error above |
| Numbers.ParseUintExact | cgroup/util.go:63-79 | exactly which texts are accepted, and as which number |
| Numbers.NegativeWithTail | cgroup/util.go:66-75 | a negative number with a non-digit after it is accepted, as 0, if and only if it overflows 64 bits |
| Numbers.AccumulateExact | cgroup/util.go:65-68 | exactly when the decimal parser underneath succeeds and which of its errors it reports |
| Cgroups.ParseMountinfoLine | cgroup/util.go:84-117 | the separator search and the three errors agree with the first dash among the fields |
| Cgroups.MountOfWrittenLine | cgroup/util.go:84-117 | a line with any number of optional fields parses to the mountpoint, type and options that were written |
| Cgroups.MountOfWords | cgroup/util.go:87-116 | exactly what a line of words with a separator parses to, errors included |
| Cgroups.MountWithoutSeparator | cgroup/util.go:88-105 | exactly which error a line without a separator gives |
| Cgroups.SubsystemMountpoints | cgroup/util.go:173-226 | maps exactly the requested subsystems that a cgroup line below the root names, each to what Lookup finds, also when the scanner then fails; nothing but the first error when a line does not parse |
| Cgroups.MountpointsOfFile | cgroup/util.go:173-226 | from a file of written lines, exactly the requested subsystems that some line of type cgroup with its mountpoint below the root has among its options, as such or after '=', each with the mountpoint of the first such line |
| Cgroups.AddMount | cgroup/util.go:208-222 | one line's options: new names get the mountpoint, old ones keep theirs |
| Cgroups.LookupFinds | cgroup/util.go:208-222 | Lookup succeeds exactly when some line names the subsystem |
| Cgroups.LookupIsFirst | cgroup/util.go:217-220 | and gives the mountpoint of the first such line |
| Cgroups.ProcessCgroupPaths | cgroup/util.go:230-263 | maps exactly the subsystems on three-field lines, each to what LookupPath finds, and reports whether the scanner failed |
| Cgroups.WrittenEntry | cgroup/util.go:250-259 | a written line is taken with its subsystems and path if and only if the path contains no colon |
| Cgroups.AddPaths | cgroup/util.go:255-259 | one line overwrites the path of every subsystem it lists |
| Cgroups.LookupPathFinds | cgroup/util.go:250-259 | LookupPath succeeds exactly when some line lists the subsystem |
| Cgroups.LookupPathIsLast | cgroup/util.go:257-259 | and gives the path on the last such line |
| CgroupReader.SelectMounts | cgroup/reader.go:72-96 | exactly the four interesting subsystems with a path, not ignored and mounted, each with its own mountpoint, path, ID and joined full path |
| Paths.JoinGoesDown | cgroup/reader.go:94-94 | joining a path without ".." goes down from the mountpoint by the names of the path |
| Paths.JoinOfPaths | cgroup/reader.go:94-94 | for rooted paths of plain names the joined path is the names one after the other |
| Paths.JoinGoesUp | cgroup/reader.go:94-94 | ".." goes up by one name and stays at the root |
| Paths.BaseOfPath | cgroup/reader.go:93-93 | the base of a path is its last name, whatever slashes follow |
| Paths.BaseOfNothing | cgroup/reader.go:161-161 | the base of nothing is ".", that of slashes alone "/" |
| CgroupReader.GetCommonCgroupMetadata | cgroup/reader.go:150-162 | the loop with its early return computes the metadata for some visiting order, and OrderMatters says when that is the same for all |
| CgroupReader.PathExact | cgroup/reader.go:151-159 | the loop gives up exactly when a path differs from an earlier non-empty one; otherwise it holds the one non-empty path there is |
| CgroupReader.SharedPath | cgroup/reader.go:146-162 | if all paths agree, every order gives that path and its base |
| CgroupReader.DifferentPaths | cgroup/reader.go:146-158 | if two non-empty paths differ, every order gives empty metadata |
| CgroupReader.OrderMatters | cgroup/reader.go:150-162 | the result is independent of the visiting order if and only if no empty path stands among otherwise equal ones |
| CgroupReader.EmptyPathIsAmbiguous | cgroup/reader.go:72-98 | from a cgroup file with one empty and one other path to mounts whose metadata depends on the visiting order |
| Blkio.ParseWrittenLine | cgroup/blkio.go:256-293 | a written line, with or without an operation, parses back; negative values read as 0, oversized ones are errors |
| Blkio.ReadBlkioValues | cgroup/blkio.go:219-250 | the loop computes the values of the data lines in order, or the first error; a missing file has none, a failed scan is an error |
| Blkio.ValuesExist | cgroup/blkio.go:219-250 | a file gives values exactly when it is missing, or was scanned to its end and every data line parses; otherwise the first bad line decides |
| Blkio.WrittenFile | cgroup/blkio.go:219-250 | a file of written lines reads back as the list that was written |
| BlkioFiles.FileReads | cgroup/blkio.go:219-250 | a file with summary and blank lines among the lines about devices reads back as the latter |
| BlkioFiles.WordCount | cgroup/blkio.go:256-260 | a line of fewer than three or more than four words is refused |
| BlkioFiles.ThrottleFiles | cgroup/blkio.go:107-293 | from files as the kernel writes them, one record per device mentioned, with the last limits and the last values written for Read, Write, Async and Sync, and, with one line per device and operation, totals that are the sums of the Read and Write values mod 2^64; stated over what was written |
| Blkio.CollectOpValues | cgroup/blkio.go:192-214 | one record per device, with the last value of each operation |
| Blkio.SumIsLiveSum | cgroup/blkio.go:179-184 | summed over the devices in any order, the records hold exactly the read and write lines that no later line replaces |
| Blkio.LiveSumIsLineSum | cgroup/blkio.go:192-211 | with one line per device and operation, no line is replaced |
| BlkioThrottle.BlockIO.constructor | cgroup/reader.go:102-102 | the zero record |
| BlkioThrottle.BlockIO.Throttle | cgroup/blkio.go:107-187 | one record per device in any of the six files, with its last limits and last values; totals grow by the live lines mod 2^64 whatever the map order; the first failing file's error, and then nothing changes |
| BlkioThrottle.BlockIO.Collect | cgroup/blkio.go:179-184 | the final loop lists and adds up the devices in the order visited |
| BlkioThrottle.MergeAll | cgroup/blkio.go:108-177 | all six files merged per device, or the first error |
| BlkioThrottle.MergeTransfers | cgroup/blkio.go:119-137 | byte and operation counts of both files, per device |
| BlkioThrottle.MergeLimits | cgroup/blkio.go:139-177 | two limit files, the second after the first, or the first error |
| BlkioThrottle.MergeOps | cgroup/blkio.go:123-127 | one file of operation values replaces one record of each device it names and nothing else |
| BlkioThrottle.MergeLimit | cgroup/blkio.go:143-147 | one limit file sets the last limit of each device it names and nothing else |
| BlkioThrottle.TotalIsLive | cgroup/blkio.go:180-184 | the wrapping total is the same for every visiting order: the live lines of its file |
| BlkioThrottle.ThrottleOnce | cgroup/blkio.go:95-187 | a fresh record has exactly one device per ID in any file and, with one line per device and operation, totals that are the line sums mod 2^64 |
| BlkioThrottle.TotalFromZero | cgroup/blkio.go:180-184 | from a zero record with one line per device and operation, a total is the sum of the read and write lines mod 2^64 |
| CpuSampler.ReadDelta | sigar_interface.go:46-62 | every field, and Total, of a delta is the difference of the readings mod 2^64 |
| CpuSampler.TotalCountsEveryField | sigar_interface.go:46-49 | what is added to any one of the eight fields is added to the total, mod 2^64 |
| CpuSampler.TotalOfZero | sigar_interface.go:46-49 | the total of nothing is nothing |
| CpuSampler.Conservation | concrete_sigar.go:9-45 | after every run: at most one sample waits, the first reading is never dropped, every sample was received, waits or was dropped, and all of them add up mod 2^64 to the current reading in every field and in Total |
| CpuSampler.NothingLost | concrete_sigar.go:9-45 | while nothing was dropped, the consumer's own sum is the current reading |
| CpuSampler.DroppedExactly | concrete_sigar.go:25-41 | in every run exactly the differences of ticks that find a sample waiting are dropped; all others are received in order, or wait |
| CpuSampler.AttentiveGetsAll | concrete_sigar.go:9-45 | a consumer that receives between ticks gets the first reading and every difference, in order, and they add up to the current reading |
| CpuSampler.ProducerNeverWaits | concrete_sigar.go:25-41 | whether and when a consumer receives makes no difference to what the producer reads and produces and to when it stops, in every run |
| CpuSampler.Collector.constructor | concrete_sigar.go:16-21 | the first sample is the reading itself and waits in the channel |
| CpuSampler.Collector.OnTick | concrete_sigar.go:27-36 | the tick case is the tick step |
| CpuSampler.Collector.OnStop | concrete_sigar.go:38-39 | stopping leaves samples and reading as they are |
| CpuSampler.Collector.Receive | concrete_sigar.go:11-11 | the consumer takes the waiting sample |
| Wire.HeaderRoundTrip | sys/linux/inetdiag.go:199-207 | the five header fields are read back in either byte order |
| Wire.DatagramRoundTrip | sys/linux/inetdiag.go:176-179 | any list of messages written as one padded datagram is parsed back |
| Wire.DatagramThen | sys/linux/inetdiag.go:176-179 | after the messages, fewer bytes than a header are passed over, and a header with an impossible length makes the datagram unreadable |
| Wire.Serialize | sys/linux/inetdiag.go:199-209 | the buffer filled piece by piece is the header, with the length cut to 32 bits, and what fits of the payload; it panics exactly when it is too short for the header |
| Wire.SerializedLayout | sys/linux/inetdiag.go:199-209 | where length, type, flags, sequence number, pid and payload are in the buffer |
| Wire.Bytes32 | sys/linux/inetdiag.go:202-206 | the four bytes of a number in either byte order |
| Wire.Bytes16 | sys/linux/inetdiag.go:203-204 | the two bytes of a number in either byte order |
| Wire.SerializedRoundTrip | sys/linux/inetdiag.go:199-209 | a serialized request parses back as one message if and only if its payload is a multiple of four bytes and its length fits in 32 bits |
| Wire.WordsRoundTrip | sys/linux/inetdiag.go:302-328 | any list of 32-bit words is read back in either byte order |
| InetDiag.MsgRoundTrip | sys/linux/inetdiag.go:302-328 | a message is decoded from its bytes, whatever attributes follow |
| InetDiag.FieldOffsets | sys/linux/inetdiag.go:302-328 | where each field of a message is, and what a shorter payload gives |
| InetDiag.Collect | sys/linux/inetdiag.go:155-197 | the nested receive loops compute the fold over datagrams and messages |
| InetDiag.ChunkingIrrelevant | sys/linux/inetdiag.go:155-197 | however a message list is cut into non-empty datagrams, the outcome is that of one scan of the list |
| InetDiag.FirstDecides | sys/linux/inetdiag.go:181-196 | the first DONE, ERROR or undecodable message decides, with the decoded messages before it or its error |
| InetDiag.CollectorDecides | sys/linux/inetdiag.go:155-197 | however messages are cut into datagrams, the collector returns what the first message that is not plain decides, and waits for more if there is none |
| InetDiag.ErrnoIsNegated | sys/linux/netlink.go:16-22 | the errno is found negated at the start of the data |
| InetDiag.CollectorFailsWithErrno | sys/linux/inetdiag.go:181-187 | an ERROR message before any DONE makes the collector fail with the errno it carries |
| InetDiag.BadReceive | sys/linux/inetdiag.go:159-179 | a failed, too short, refused or unreadable receive ends the collection with its own error |
| NulRecords.ProcArgs | sigar_linux_common.go:276-297 | the arguments, each terminated, and an unterminated rest make up the file exactly |
| NulRecords.RenderUnique | sigar_linux_common.go:282-294 | there is only one such decomposition, so splitting inverts rendering |
| NulRecords.DecodeRendered | sigar_linux_common.go:282-294 | any NUL-free arguments with any unterminated rest are recovered |
| NulRecords.KernProcargs | sigar_darwin.go:373-435 | the cursor loops compute the parse of the buffer, with the callbacks made before an error |
| NulRecords.ReadArgs | sigar_darwin.go:399-410 | at most argc strings, fewer at the end of the buffer |
| NulRecords.ReadEnv | sigar_darwin.go:416-433 | pairs split at the first '=', up to an empty string, the end, or a string without '=' |
| NulRecords.Recovered | sigar_darwin.go:376-433 | path, arguments and environment come back for any padding and any tail that ends the environment |
| NulRecords.RecoveredExactly | sigar_darwin.go:387-433 | for every tail: everything comes back if and only if the first string is not empty and the tail ends the environment, or there is no string and the tail is neither exhausted nor a string |
| NulRecords.ArgumentsRecoveredExactly | sigar_darwin.go:376-414 | for a caller without an environment callback: path and arguments come back, whatever the tail, if and only if the first argument is not empty, or there are none and something follows the padding |
| ProcStat.ProcState.Get | sigar_linux_common.go:163-185 | name and selected fields, or which error; the name is set even when the fields are too few |
| ProcStat.NameRecovered | sigar_linux_common.go:163-172 | any name, parentheses and blanks included, comes back with the fields after it |
| ProcStat.StateOfLine | sigar_linux_common.go:163-185 | from a line with any name and at least 37 fields after it, Get recovers the name and the selected fields |
| ProcStat.StateOfRecord | sigar_linux_common.go:163-185 | from a line written from a record with the fields of proc(5), Get recovers the name and the seven fields by name |
| ProcStat.NoName | sigar_linux_common.go:164-168 | lines that have no name |
| ProcStat.WholeLineFields | sigar_linux_common.go:258-258 | fields counted from the start of the line are the pid, those of the name, and those after it |
| ProcStat.CommIsOneField | sigar_linux_common.go:258-258 | the name in parentheses is one field if and only if it has no blank |
| ProcStat.TimesAgreeExactly | sigar_linux_common.go:258-268 | positions 13, 14 and 21 of the line are 11, 12 and 19 after the name on all lines if and only if the name has no blank |
| ProcStat.TimesOfRecord | sigar_linux_common.go:258-268 | of a line written from a record, with no blank in the name, fields 13, 14 and 21 are its user, system and start time |

## Left out

- Sockets, files, sysctl, cgo and clocks: their results are parameters (lines and how the scanner ended, buffers, datagrams, readings, errors).
- psnotify/psnotify_bsd.go and the Windows stub: the BSD reader never closes `breakLoop`, so the lifecycle results are for Linux.
- Liveness of Close beyond CloseCanReturn: whether it does return depends on kernel events, on consumers and on the scheduler. A send on an event channel or a receive that nobody completes is a step that is never taken.
- Byte-level decoding of connector messages: the reader is given the decoded events of a datagram.
- CloseHandshake.InvStep: a single access to the map, a single load and a single store of an entry's flags are atomic, as in a sequentially consistent memory; MapRaces says which of them can coincide.
- CloseGuarantees.SafeInEveryRun: about channels and the socket; the runtime's abort on coinciding map accesses is not a step of the model.
- CloseTable.TableAfterClose: about the pids in the table, not their flags.
- WatchTable.ClosedForGood: takes Watch as one step; for the code as interleaved see CloseRemovesAll.
- WatcherObject.Watcher.Close: the table part only; the wait for the reader is in CloseHandshake.
- CloseUnaided.ReturnsUnaided: for a Close at its wait with nobody else able to act; with other calls in progress it depends on how they are scheduled.
- InetDiag.Collect: a writer for copies is only known by whether it refuses a datagram; addresses and ports stay raw bytes.
- Blkio.ReadBlkioValues: a data line starts with an ASCII digit, which is exact for valid UTF-8.
- Blkio.ParseWrittenLine: lower-casing is exact where the result is ASCII; other letters occur in no operation that is looked for.
- ProcStat.ProcState.Get: stops before the conversion of the selected fields to integers and the user lookup.
- Strings are sequences of code points, without UTF-8 decoding; white space is what `Text.IsSpace` lists.
- `ProcMem`, `ProcEnv` on Linux, `SupportedSubsystems` and the memory, cpu and cpuacct cgroup files: each copies or sums fields by fixed positions or keys.
- `FormatPercent`, load averages and other floating point; the Windows packages, which wrap foreign calls.
