# PulseAudio: verified models of seven protocols and algorithms

This project models the parts of PulseAudio's daemon and modules that hold real
algorithms or protocols, in Dafny, and proves what they promise.

- **Device manager** (`src/modules/module-device-manager.c`): an encoded database
  of device priorities per role, with register, rename, delete and reorder
  commands, two in-place sorts, and a cache of preferred devices. `DeviceEntry`,
  `DeviceDatabase`, `DeviceReorder`, `DevicePreference`, `DeviceSorts` and the class
  `DeviceManager`, over the tagged values of `Tagstruct`.
- **Combine sink** (`src/modules/module-combine-sink.c`): one rendered stream
  replicated to many output threads (`CombineStream`), the rate controller
  (`CombineRates`), and the request size and latency range gathered from atomics
  that other threads keep changing (`CombineAggregates`).
- **Loopback** (`src/modules/module-loopback.c`): three threads with counters,
  snapshots and start-up flags (`LoopbackThreads`), the rate controller
  (`LoopbackRate`) and the latency arithmetic (`LoopbackLatency`).
- **Equalizer sink** (`src/modules/module-equalizer-sink.c`): streaming overlap-add
  against the whole-signal definition (`OverlapAdd`, `EqualizerChannel`), the
  reconstruction of the input and the window (`Reconstruction`, `HannWindow`), and
  the seeding of filters from control points (`EqualizerFilter`).
- **Daemonising** (`src/daemon/main.c`): a status relayed through two pipes between
  three processes that may fail anywhere (`Daemonize`).
- **ESD handshake** (`src/modules/module-esound-sink.c`): requests and replies in
  pieces, ending in the hand-over of the socket (`EsdHandshake`).
- **Card entries** (`src/modules/module-card-restore.c`): a printer and a parser for
  four versions (`CardCodec`).

`Common` holds the option type and the bytes that several of them use.

Code that runs in one thread and updates its state is modelled by classes and
methods with loops, each proved against a specification function. Code that is
spread over threads or processes is modelled as a state machine over single
actions (one load, one store, one post, one piece of a write), and the theorems
range over every sequence of enabled steps, that is over every interleaving.
What the library underneath provides is small: message queues are FIFO
sequences, a database is a map, a tagstruct is a sequence of tagged values, a
block queue is a byte sequence or a pair of indices with a prebuffering flag.
Clocks, devices, sockets and requests are parameters.

Some properties that one would expect turn out not to hold of the code as it is.
In each case the model keeps the code, a lemma shows the failure, and another one
states exactly when the property holds:

- a REORDER that names 256 or more devices skips the merge, and may hand out a
  number twice (`MergeGuardExample`, `ReorderDistinctIff`);
- a REORDER puts the request first if and only if no unnamed device has a stored
  priority that overflows 32 bits when it is moved behind the request
  (`WrapExample`, `RequestFirstIff`); the priorities that commands give out never do
  (`BoundedNeverWraps`, `RunReorders`);
- an output of the combine sink gets the whole stream since it joined if and only
  if every POST taken for it finds its slave sink opened and room in its block queue
  (`LosingRun`, `StreamExactIff`);
- an output of the combine sink that is on target returns to the base rate if and
  only if it runs at 500 Hz or more or not below the base rate (`SettlesIff`,
  `BandSettlesIff`);
- the loopback's latency budget is kept if and only if the minima of sink and
  source fit into it (`BudgetIff`, `BudgetExample`), and an escalation adds 5 ms
  unless the configured maximum is reached and does not exceed the port offsets
  (`EscalatedIff`);
- a correction of the loopback's queue reaches the requested length unless
  prebuffering holds reads back or the write index lags behind (`AdjustedExactIff`);
- the equalizer's input buffer loses one sample when it grows while one sample more
  than the overlap is held, which happens exactly when the first computed request
  takes two or more hops and the second at least as many; every equalizer then still
  hands out the overlap-add of its input if and only if that sample was silent
  (`GrowthExample`, `ExactIff`);
- the equalizer answers requests if and only if the sample rate is above 8192 Hz,
  because the window of 15999 samples has to fit into the transform
  (`LowRateExample`, `AnsweredIff`);
- the two weights of a sample in overlapping Hann windows add up to one if and only
  if it is not the last one of its hop (`WeightIsOneIff`);
- the ESD handshake fails an assertion exactly when the server's reply is complete
  before the request is (`IoCallback`).

## Model

| member | source | states |
|---|---|---|
| `DeviceEntry.DecodeIff` | src/modules/module-device-manager.c:199-226 | the parser accepts exactly what the printer writes for storable entries, and gives the entry back |
| `DeviceEntry.EncodedLayout` | src/modules/module-device-manager.c:199-226 | where version, description, mark, icon and the nine priorities lie |
| `DeviceEntry.Write` | src/modules/module-device-manager.c:199-226 | prints the encoding of the entry, all nine priorities in order |
| `DeviceEntry.Read` | src/modules/module-device-manager.c:279-358 | returns the decoded entry, or nothing for any other value sequence |
| `DeviceDatabase.RegisterKeeps` | src/modules/module-device-manager.c:490-545 | registering keeps priorities positive and distinct per kind and role, and adds at most one to the greatest |
| `DeviceDatabase.RegisteredPriority` | src/modules/module-device-manager.c:525-545 | a new device gets, for every role, one more than the greatest priority of its kind |
| `DeviceDatabase.RegisterWrites` | src/modules/module-device-manager.c:490-545 | registering writes the icon always, the description unless the user chose one, and touches no other device |
| `DeviceDatabase.RenameWrites` | src/modules/module-device-manager.c:1240-1271 | renaming touches one known device, and of it only the description and the mark that the user chose it |
| `DeviceDatabase.DeleteWrites` | src/modules/module-device-manager.c:1273-1291 | exactly the named devices go, and no other changes |
| `DeviceDatabase.RenameSurvives` | src/modules/module-device-manager.c:490-545 | a chosen name survives registration, and deleting the device forgets it |
| `DeviceDatabase.RenameKeeps` | src/modules/module-device-manager.c:1240-1271 | renaming keeps the invariant of the database |
| `DeviceDatabase.DeleteKeeps` | src/modules/module-device-manager.c:1273-1291 | deleting keeps the invariant of the database |
| `DeviceReorder.MergedIsKind` | src/modules/module-device-manager.c:1393-1436 | the list to renumber is the whole kind, or the request alone when 256 or more devices are named |
| `DeviceReorder.ReorderOutcome` | src/modules/module-device-manager.c:1309-1485 | below 256 named devices, and without a wrap-around, the role's priorities become a permutation of 1..n, named devices first in order of first mention, the others in their old order |
| `DeviceReorder.RequestFirstIff` | src/modules/module-device-manager.c:1393-1456 | every outcome of REORDER has the named devices first and the others in their old order if and only if no unnamed priority plus the length of the request leaves 32 bits |
| `DeviceReorder.WrapExample` | src/modules/module-device-manager.c:1419 | three sinks of which an unnamed one, stored with 2^32 - 2, comes between the two that are named |
| `DeviceReorder.BoundedNeverWraps` | src/modules/module-device-manager.c:1419 | the bound on priorities that every run keeps excludes the wrap-around |
| `DeviceReorder.ReorderFrame` | src/modules/module-device-manager.c:1458-1485 | keys, other kinds, other roles and all other fields are unchanged |
| `DeviceReorder.ReorderDistinctIff` | src/modules/module-device-manager.c:1398-1456 | priorities stay positive and distinct if and only if fewer than 256 devices are named or the unnamed ones are numbered behind the request |
| `DeviceReorder.ReorderKeeps` | src/modules/module-device-manager.c:1309-1485 | under that condition REORDER keeps the whole invariant |
| `DeviceReorder.FavouriteClashes` | src/modules/module-device-manager.c:1398-1436 | naming 256 or more sinks but not the one numbered 1 gives that number out twice |
| `DeviceReorder.MergeGuardExample` | src/modules/module-device-manager.c:1398-1436 | a concrete database of 257 sinks on which this happens |
| `DeviceReorder.StepKeeps` | src/modules/module-device-manager.c:1146-1485 | every command, successful or refused, keeps the invariant and bounds the growth of priorities |
| `DeviceReorder.RunKeeps` | src/modules/module-device-manager.c:1146-1485 | over every run from an empty database all entries stay readable and priorities stay positive and distinct |
| `DeviceReorder.ChoiceSticks` | src/modules/module-device-manager.c:1146-1485 | in every run a name the user chose stays until the device is renamed or deleted |
| `DeviceReorder.RunReorders` | src/modules/module-device-manager.c:1146-1485 | in every run a REORDER of fewer than 256 devices has its whole outcome |
| `DevicePreference.FindLinkedIff` | src/modules/module-device-manager.c:600-630 | the search gives the first device of the core that is linked, has the name and is not ignored, and nothing exactly when there is none |
| `DevicePreference.PreferredUnique` | src/modules/module-device-manager.c:557-647 | at most one index can be the preferred one |
| `DevicePreference.ReorderDecidesPreference` | src/modules/module-device-manager.c:1309-1497 | after a reorder without a wrap-around and a refresh the role prefers the first available device of the request |
| `DeviceSorts.StartupSort` | src/modules/module-device-manager.c:1631-1640 | the loop over the full range in both indices leaves a permutation in non-increasing order |
| `DeviceSorts.ExchangeSort` | src/modules/module-device-manager.c:1446-1456 | the sort of REORDER leaves a permutation in non-decreasing order |
| `DeviceManager.GetRoleIndex` | src/modules/module-device-manager.c:547-555 | the index of a known role, or the invalid index |
| `DeviceManager.FindDevice` | src/modules/module-device-manager.c:600-630 | the index of the first linked, not ignored device of a name, or nothing when there is none |
| `DeviceManager.RunRefreshed` | src/modules/module-device-manager.c:557-647 | after every run of commands a refresh leaves, for each role, the index of the one device of the core that is linked, not ignored and known, and that no other such device precedes, or none if there is none |
| `DeviceManager.SortRanks` | src/modules/module-device-manager.c:1438-1456 | the list made from the hash map enumerates its keys in order of their numbers |
| `DeviceManager.FirstTimeOrder` | src/modules/module-device-manager.c:1622-1659 | a device unknown so far is numbered behind every device registered before it, for every role |
| `DeviceManager.StartupByPriority` | src/modules/module-device-manager.c:1617-1670 | registering both kinds in the order of the start-up sort numbers unknown devices by the priorities of their drivers, for every role |
| `DeviceManager.RegisteredAllKeys` | src/modules/module-device-manager.c:1617-1670 | start-up makes exactly the devices of the core known, but for monitor sources |
| `DeviceManager.SortDevices` | src/modules/module-device-manager.c:1622-1640 | the same devices in non-increasing order of priority |
| `DeviceManager.DeviceManager.EntryRead` | src/modules/module-device-manager.c:279-358 | the decoded entry under a key, if it can be read |
| `DeviceManager.DeviceManager.EntryWrite` | src/modules/module-device-manager.c:199-226 | exactly that key changes, and stays readable |
| `DeviceManager.DeviceManager.LoadOrInitialize` | src/modules/module-device-manager.c:490-545 | the known entry's priorities, or those behind every device of the kind |
| `DeviceManager.DeviceManager.MaxPriorities` | src/modules/module-device-manager.c:506-538 | the greatest priority per role over the devices of a kind |
| `DeviceManager.DeviceManager.Register` | src/modules/module-device-manager.c:796-921 | the new or changed device in the database; monitor sources and failed writes change nothing |
| `DeviceManager.DeviceManager.Rename` | src/modules/module-device-manager.c:1240-1271 | the description set and marked as the user's, for known devices only |
| `DeviceManager.DeviceManager.Delete` | src/modules/module-device-manager.c:1273-1291 | exactly the named keys removed |
| `DeviceManager.DeviceManager.Refresh` | src/modules/module-device-manager.c:557-647 | each role's cache is invalid exactly when no device of the core is linked, known and not ignored, else it is the index of such a device, of least priority when no priority is 0 |
| `DeviceManager.DeviceManager.CollectNamed` | src/modules/module-device-manager.c:1332-1386 | refuses unknown names and mixed kinds, and numbers the others by first mention |
| `DeviceManager.DeviceManager.MergeOthers` | src/modules/module-device-manager.c:1398-1436 | adds the other devices of the kind behind the request, below 256 |
| `DeviceManager.DeviceManager.RenumberAll` | src/modules/module-device-manager.c:1458-1485 | numbers the list from 1 for one role, and says whether anything changed |
| `DeviceManager.DeviceManager.ReorderDatabase` | src/modules/module-device-manager.c:1309-1485 | refuses exactly the unacceptable requests and otherwise reorders |
| `DeviceManager.DeviceManager.Reorder` | src/modules/module-device-manager.c:1309-1497 | the whole command, with the refresh of the cache of the right kind when something changed |
| `DeviceManager.DeviceManager.Execute` | src/modules/module-device-manager.c:1146-1485 | any command of a run is a step of the run theorem |
| `DeviceManager.DeviceManager.RegisterAll` | src/modules/module-device-manager.c:1622-1640 | all devices registered, in non-increasing order of priority when sorted |
| `DeviceManager.DeviceManager.Startup` | src/modules/module-device-manager.c:1617-1670 | sinks, then sources; with fewer than 128 of each kind an unknown device of lower driver priority is numbered behind every device of higher driver priority, for every role |
| `CombineStream.HandlePostConserves` | src/modules/module-combine-sink.c:616-638 | handling a POST moves its bytes into the block queue or counts them as dropped; a closed sink leaves the queue empty and an overflow leaves it alone |
| `CombineStream.PushDirectKeeps` | src/modules/module-combine-sink.c:373-412 | the direct push finds the requesting output's queue drained, so it never overtakes a POST |
| `CombineStream.StepKeeps` | src/modules/module-combine-sink.c:373-458 | every step of every thread keeps the conservation of the stream |
| `CombineStream.StreamExact` | src/modules/module-combine-sink.c:373-458 | in every interleaving what an active output played, holds and has under way falls short of the stream since it joined by exactly the bytes that were dropped |
| `CombineStream.StreamExactIff` | src/modules/module-combine-sink.c:373-458 | in every interleaving an output that has stayed since it joined has exactly the stream since then if and only if every POST taken for it found its slave sink opened and room in its block queue |
| `CombineStream.NothingLostIff` | src/modules/module-combine-sink.c:616-638 | over any run from any reachable state, nothing of an output that stays is dropped if and only if every POST fits |
| `CombineStream.LosingRun` | src/modules/module-combine-sink.c:616-638 | a run in which an output whose slave sink is not opened gets nothing of the byte that was rendered |
| `CombineStream.HeldIsLatest` | src/modules/module-combine-sink.c:373-458 | in every interleaving, as long as no POST overflowed, what an output holds and has under way is the end of the stream, whatever was thrown away while its sink was closed |
| `CombineStream.ClosedFlushes` | src/modules/module-combine-sink.c:616-638 | a POST that is taken while the sink is closed leaves nothing to play |
| `CombineStream.OutputsAgree` | src/modules/module-combine-sink.c:373-458 | two outputs that dropped nothing play the same byte at every common position |
| `CombineStream.PlaysRendered` | src/modules/module-combine-sink.c:436-458 | an output that dropped nothing plays the rendered bytes |
| `CombineStream.ServedNeedHasData` | src/modules/module-combine-sink.c:415-458 | an answered NEED always finds something to play |
| `CombineStream.StarvesOnlyWhenStopped` | src/modules/module-combine-sink.c:415-458 | while the sink runs, no output comes to play without anything to play |
| `CombineStream.StreamIsRendered` | src/modules/module-combine-sink.c:373-412 | the stream is all that was rendered, in order |
| `CombineStream.StandingFollows` | src/modules/module-combine-sink.c:810-860 | an output takes part from being added to being removed, and its sink is opened or not as it was told last |
| `CombineStream.BusyRuns` | src/modules/module-combine-sink.c:373-385 | in every interleaving the sink thread renders for an output only while the sink runs |
| `CombineStream.FlushedStartsClean` | src/modules/module-combine-sink.c:1145-1160 | an output that is flushed before it joins owes nothing to the time before |
| `CombineStream.NeedAnswered` | src/modules/module-combine-sink.c:373-458 | from every reachable state of a running sink, an output that waits is answered with something to play once the sink thread is free for it |
| `CombineStream.LossIff` | src/modules/module-combine-sink.c:616-638 | a step drops bytes of an active output if and only if it takes a POST that finds the sink not opened or the queue full |
| `CombineRates.WantedRemovesError` | src/modules/module-combine-sink.c:245-247 | the wanted rate differs from the base rate by the error in proportion to the adjustment period, rounded towards the base rate |
| `CombineRates.StepIsNearest` | src/modules/module-combine-sink.c:245-260 | a wanted rate outside [0.8, 1.25] of the base rate resets; otherwise the step takes, of all rates within 2 per mille of the current one, the nearest to the wanted rate, or to the base rate when less than 20 Hz from it |
| `CombineRates.StepBounds` | src/modules/module-combine-sink.c:245-260 | a rate in [0.8, 1.25] of the base rate stays there, and a step that is no reset stays within 2 per mille |
| `CombineRates.Direction` | src/modules/module-combine-sink.c:245-254 | the controller pushes towards the target latency |
| `CombineRates.RunStaysInBand` | src/modules/module-combine-sink.c:235-262 | whatever latencies are reported, the rate never leaves the band |
| `CombineRates.SettleIsNewRate` | src/modules/module-combine-sink.c:235-260 | on target, the code's new rate is the settling step that the next two rows iterate |
| `CombineRates.SettlesIff` | src/modules/module-combine-sink.c:245-260 | an output on target reaches exactly the base rate if and only if its rate is at least 500 Hz or not below the base rate |
| `CombineRates.BandSettlesIff` | src/modules/module-combine-sink.c:245-260 | every rate of the band comes to the base rate some time if and only if the base rate is at least 625 Hz |
| `CombineRates.Measure` | src/modules/module-combine-sink.c:200-228 | every enabled output's total latency, and the target: the greatest sink latency or the least total latency |
| `CombineRates.AdjustRates` | src/modules/module-combine-sink.c:184-263 | exactly the enabled outputs are steered, and no rate leaves the band |
| `CombineAggregates.WriterAnnounces` | src/modules/module-combine-sink.c:481-522 | a changed figure is marked from its store until its message is taken |
| `CombineAggregates.AnnouncedKeeps` | src/modules/module-combine-sink.c:747-808 | a half-done fold stays right for the outputs read so far unless one of them is marked as changed |
| `CombineAggregates.StepKeeps` | src/modules/module-combine-sink.c:882-938 | every load, store, post, add, remove and publication keeps the invariant |
| `CombineAggregates.PublishedIsRight` | src/modules/module-combine-sink.c:747-808 | in every interleaving, once nothing is unannounced or unanswered, the published request and latency range are the fold over the active outputs, and min never exceeds max |
| `CombineAggregates.FiguresFollow` | src/modules/module-combine-sink.c:481-522 | the figures that are folded are those the outputs reported last, and the active outputs those added and not removed since |
| `CombineAggregates.WriterRests` | src/modules/module-combine-sink.c:481-522 | an output thread that stored a figure comes to rest by itself, with the change announced |
| `CombineAggregates.BlockFollows` | src/modules/module-combine-sink.c:747-769 | the block size is the one set last |
| `CombineAggregates.CatchesUp` | src/modules/module-combine-sink.c:882-938 | from every reachable state, while the output threads rest, the sink thread alone comes to publish what is right |
| `CombineAggregates.CappedMax` | src/modules/module-combine-sink.c:798-806 | the greatest latency that neither the outputs nor the default exceed, but never below the minimum |
| `CombineAggregates.FoldRequests` | src/modules/module-combine-sink.c:747-769 | the greatest request of the outputs, or the block size when that is 0 |
| `CombineAggregates.FoldRanges` | src/modules/module-combine-sink.c:772-808 | greatest minimum and least maximum with the two caps, or the defaults without outputs |
| `LoopbackThreads.AdjustedExactIff` | src/modules/module-loopback.c:519-551 | exactly when a correction reaches the requested length, and that it never moves away from it |
| `LoopbackThreads.PrebufferingIff` | src/modules/module-loopback.c:519-551 | reads are held back exactly from a queue below its prebuffer that is empty or was since |
| `LoopbackThreads.DropIff` | src/modules/module-loopback.c:519-551 | taking from the queue advances it, or is held back, and the queue remembers which |
| `LoopbackThreads.CorrectionIff` | src/modules/module-loopback.c:519-551 | a correction makes the queue last as long as the rest of the path leaves of the latency, and at least one sink latency, exactly unless prebuffering, a ban on silence or a lagging write index is in the way |
| `LoopbackThreads.PostReaches` | src/modules/module-loopback.c:879-929 | after a correcting POST the latency of the whole path is the configured one or the minimum, up to a frame and a microsecond, or the queue holds one sink latency |
| `LoopbackThreads.FastAdjustReaches` | src/modules/module-loopback.c:519-551 | the same for the message that asks for a correction |
| `LoopbackThreads.PopReaches` | src/modules/module-loopback.c:808-860 | before the first push every pop leaves the whole latency in the queue |
| `LoopbackThreads.TrimReaches` | src/modules/module-loopback.c:924-927 | before the first pop a POST leaves no more than the latency in the queue |
| `LoopbackThreads.StepKeeps` | src/modules/module-loopback.c:554-605 | every step of the three threads keeps counters, snapshots and the correction budget right |
| `LoopbackThreads.CountersAgree` | src/modules/module-loopback.c:554-583 | in every interleaving the counters differ by the audio in flight less the rewinds in flight |
| `LoopbackThreads.BufferExact` | src/modules/module-loopback.c:375-379 | the fill level from the two snapshots is the queue at the sink snapshot plus what was sent by the source snapshot and not yet processed, clipped at zero |
| `LoopbackThreads.SnapshotsTaken` | src/modules/module-loopback.c:375-379 | both snapshots can always be taken in turn, and give the queue plus all that is under way |
| `LoopbackThreads.CorrectionsBounded` | src/modules/module-loopback.c:879-929 | corrections in POST number at most one more than source changes, sink moves and suspends |
| `LoopbackThreads.CorrectsIff` | src/modules/module-loopback.c:808-929 | in every interleaving audio is processed with a correction exactly when two pops came since the start or the last sink move and something changed since the last correction |
| `LoopbackThreads.QueueConserved` | src/modules/module-loopback.c:554-605 | between two corrections the queue grows and shrinks by exactly what is stored, rewound and played |
| `LoopbackThreads.SettingsHold` | src/modules/module-loopback.c:981-992 | the output thread always works with the latest minimum and source latency |
| `LoopbackThreads.BoundReached` | src/modules/module-loopback.c:808-929 | for every number of changes a run with one correction more |
| `LoopbackRate.RateIs` | src/modules/module-loopback.c:242-256 | the closed form: the rate departs from the base rate by the difference over the adjust time plus a hundred times its size |
| `LoopbackRate.RateBounded` | src/modules/module-loopback.c:242-256 | above 0.99 of the base rate less 1, below 1.01 of it, and on the side of the difference |
| `LoopbackRate.RateMonotone` | src/modules/module-loopback.c:242-256 | the rate grows with the latency difference |
| `LoopbackLatency.BudgetIff` | src/modules/module-loopback.c:634-651 | sink and source together keep within the latency if and only if their minima do, and then neither subtraction wraps |
| `LoopbackLatency.BudgetExample` | src/modules/module-loopback.c:266-300 | a large negative port offset overruns the budget and wraps the subtraction |
| `LoopbackLatency.RangeMinimumIs` | src/modules/module-loopback.c:272-296 | 1.1 times the sink's minimum and the source's, or one fragment for a fixed ALSA source, plus 1.5 ms |
| `LoopbackLatency.WantedIs` | src/modules/module-loopback.c:634-651 | a third of the latency when the other side can do with a third, else half of what its minimum leaves |
| `LoopbackLatency.BoundsOf` | src/modules/module-loopback.c:476-512 | a device's bounds, with the least latency raised to 2.5 ms or to the greatest when that is less |
| `LoopbackLatency.MinimumCoversBoth` | src/modules/module-loopback.c:272-296 | without negative offsets the minimum latency covers both minima |
| `LoopbackLatency.EscalatedIff` | src/modules/module-loopback.c:334-350 | an escalation adds 5 ms up to the maximum, exactly unless that maximum is reached and not above the offsets |
| `LoopbackLatency.EscalationClosedForm` | src/modules/module-loopback.c:334-350 | the effective latency after any number of escalations |
| `LoopbackLatency.Loopback.constructor` | src/modules/module-loopback.c:1388-1437 | a maximum below the latency is raised to it, and the counters start in a valid state |
| `LoopbackLatency.Loopback.UpdateMinimumLatency` | src/modules/module-loopback.c:266-300 | the limit found by underruns or the one from the ranges, moved by the offsets |
| `LoopbackLatency.Loopback.Boundaries` | src/modules/module-loopback.c:476-512 | a device's range with its minimum raised to 2.5 ms where possible, min <= max |
| `LoopbackLatency.Loopback.UpdateLatencyBoundaries` | src/modules/module-loopback.c:470-515 | the ranges and offsets of the devices given, the others kept, and the new minimum |
| `LoopbackLatency.Loopback.SetSinkInputLatency` | src/modules/module-loopback.c:1008-1025 | what the sink grants of its share of the budget |
| `LoopbackLatency.Loopback.SetSourceOutputLatency` | src/modules/module-loopback.c:634-651 | what the source grants of its share of the budget |
| `LoopbackLatency.Loopback.SetUp` | src/modules/module-loopback.c:1557-1559 | after set-up the budget is kept if and only if the minima fit, and it is kept without negative offsets, fixed ALSA sources and underruns |
| `LoopbackLatency.Loopback.Escalate` | src/modules/module-loopback.c:334-350 | the effective latency raised by one step of the closed form |
| `LoopbackLatency.Loopback.HandleUnderruns` | src/modules/module-loopback.c:328-356 | escalation after more than two underruns, one forgiven per hour |
| `LoopbackLatency.AtBaseRateIs` | src/modules/module-loopback.c:386-390 | the buffered frames last that long at the base rate, rounded down |
| `LoopbackLatency.Loopback.UpdateAdjustTime` | src/modules/module-loopback.c:358-370 | the averaged adjust time is left alone after changes and sleep, and stays positive while the clock advances |
| `LoopbackLatency.Loopback.AdjustRates` | src/modules/module-loopback.c:312-421 | with a positive averaged adjust time, which it keeps while the clock advances, a rate it sets stays within one percent of the base rate, on the side that shrinks the difference |
| `OverlapAdd.SampleAt` | src/modules/module-equalizer-sink.c:369-420 | position n * hop + j of the reference is sample j of block n |
| `OverlapAdd.AdvancedKeeps` | src/modules/module-equalizer-sink.c:369-420 | one window yields the reference's block and leaves the buffers in step with the signal |
| `OverlapAdd.LastSilenced` | src/modules/module-equalizer-sink.c:223-238 | a growing buffer silences the one sample held beyond the overlap and nothing computed before |
| `OverlapAdd.ExactWhenSilent` | src/modules/module-equalizer-sink.c:223-238 | over any run, whatever the filter, what is handed out and queued is the overlap-add of the whole input if no sample was lost or the lost one was silent |
| `OverlapAdd.ExactIff` | src/modules/module-equalizer-sink.c:223-238 | every equalizer of a given input hands out the overlap-add of that input over a run if and only if no sample was lost or the lost one was silent |
| `OverlapAdd.GrowthExample` | src/modules/module-equalizer-sink.c:223-238 | an equalizer that changes nothing, fed with a ramp: two requests of two hops hand out something else than the overlap-add of the ramp, for every hop |
| `OverlapAdd.AnswerKeeps` | src/modules/module-equalizer-sink.c:607-698 | computing a request keeps the output equal to the whole-signal overlap-add |
| `OverlapAdd.CanPopIff` | src/modules/module-equalizer-sink.c:655-684 | a request passes the assertions if and only if something is queued or the window fits into the transform |
| `OverlapAdd.CeilLog2` | src/modules/module-equalizer-sink.c:1153 | the exponent of the least power of two that is not below the rate |
| `OverlapAdd.FitsIff` | src/modules/module-equalizer-sink.c:1153-1159 | the window fits into the transform if and only if the rate is above 8192 Hz |
| `OverlapAdd.AnsweredIff` | src/modules/module-equalizer-sink.c:655-684 | over any run every request passes the assertions if and only if the rate is above 8192 Hz; otherwise the first one fails |
| `OverlapAdd.LowRateExample` | src/modules/module-equalizer-sink.c:1153-1159 | a sink of 8000 Hz gets a transform of 8192 samples and fails its first request |
| `OverlapAdd.PoppedSomething` | src/modules/module-equalizer-sink.c:688-693 | every answered request hands out something, so the final peek never fails |
| `OverlapAdd.PoppedKeeps` | src/modules/module-equalizer-sink.c:607-698 | handing out any piece of the queue keeps it too |
| `OverlapAdd.RunIsOverlapAdd` | src/modules/module-equalizer-sink.c:539-698 | over any run what was handed out and is queued is the whole-signal overlap-add, and the leftover is the overlap or one sample more |
| `OverlapAdd.ChannelsInStep` | src/modules/module-equalizer-sink.c:555-585 | over any run all channels hold, read, queue and hand out the same number of samples, as their shared counters assume |
| `Reconstruction.GivesBackInput` | src/modules/module-equalizer-sink.c:369-420 | over any run in which nothing audible was lost, with a filter that changes nothing and a window whose overlapping halves add up, every sample handed out or queued is the input's sample at its position |
| `Reconstruction.BackHalfQualifies` | src/modules/module-equalizer-sink.c:382-420 | an equalizer to which the reconstruction law applies |
| `Reconstruction.TransformGets` | src/modules/module-equalizer-sink.c:382-387 | each transform gets the input times gain and window, and zeros behind it |
| `HannWindow.HanningWindow` | src/modules/module-equalizer-sink.c:156-160 | the window is half of one minus the cosine |
| `HannWindow.WeightIsOneIff` | src/modules/module-equalizer-sink.c:156-160 | the two weights of a sample add up to one exactly before the last offset of a hop, where the window's second sample is missing |
| `HannWindow.ZeroIff` | src/modules/module-equalizer-sink.c:156-160 | the first sample of the window is zero and no other |
| `EqualizerChannel.Channel.DspLogic` | src/modules/module-equalizer-sink.c:369-420 | window, filter, overlap-add and shift, in place |
| `EqualizerChannel.Channel.ProcessBlock` | src/modules/module-equalizer-sink.c:557-585 | one round equals one step of the functional model |
| `EqualizerChannel.Channel.ProcessSamples` | src/modules/module-equalizer-sink.c:539-587 | all whole windows processed, their hops queued in order |
| `EqualizerChannel.Channel.InputBuffer` | src/modules/module-equalizer-sink.c:589-604 | the next samples of the stream appended, clamped |
| `EqualizerChannel.Channel.Gather` | src/modules/module-equalizer-sink.c:655-678 | whatever sizes the input comes in, exactly the missing samples are read |
| `EqualizerChannel.Channel.AllocInputBuffers` | src/modules/module-equalizer-sink.c:223-238 | room made, with only the overlap copied |
| `EqualizerChannel.Channel.Compute` | src/modules/module-equalizer-sink.c:637-687 | a computed request equals the functional model's answer, or fails exactly when the window does not fit into the transform |
| `EqualizerChannel.Channel.Pop` | src/modules/module-equalizer-sink.c:607-698 | the next piece of what is queued or computed and the state that goes with it, or a failed assertion exactly when nothing is queued and the window does not fit |
| `EqualizerFilter.IsMonotonic` | src/modules/module-equalizer-sink.c:196-209 | comparing neighbours decides strict monotonicity |
| `EqualizerFilter.Interpolate` | src/modules/module-equalizer-sink.c:168-194 | no assertion fails, and every sample lies on the line of every segment it is in |
| `EqualizerFilter.ThroughKnots` | src/modules/module-equalizer-sink.c:168-194 | the curve passes through every knot |
| `EqualizerFilter.BetweenKnots` | src/modules/module-equalizer-sink.c:168-194 | between two knots it stays between their values |
| `EqualizerFilter.SeedAcceptedIff` | src/modules/module-equalizer-sink.c:1844-1868 | exactly the knot lists from 0 to fft_size/2 on an existing channel are accepted |
| `EqualizerFilter.FirstFailingCheck` | src/modules/module-equalizer-sink.c:1844-1868 | which error is reported for which request; too many points are never what fails |
| `EqualizerFilter.Filters.SeedFilter` | src/modules/module-equalizer-sink.c:1821-1893 | the first failing check is reported and nothing changes; otherwise the channel, or all of them, get the preamp and a curve that follows the knots once it is multiplied by the transform's gain |
| `EqualizerFilter.Filters.Publish` | src/modules/module-equalizer-sink.c:1875-1890 | the hidden slot is written and published, no other channel changes |
| `EqualizerFilter.Filters.MakeFilter` | src/modules/module-equalizer-sink.c:162-194 | the stored filter times the transform's gain follows the knots |
| `EqualizerFilter.Filters.GetFilterPoints` | src/modules/module-equalizer-sink.c:1901-1960 | the published filter at the given points and its preamp, or the first failing check |
| `EqualizerFilter.RoundTrip` | src/modules/module-equalizer-sink.c:1821-1960 | reading back an accepted filter at its knots gives the points and the preamp |
| `Daemonize.StepKeeps` | src/daemon/main.c:767-904 | every step, crash and failure keeps the relation between pipes, statuses and processes |
| `Daemonize.StatusHonest` | src/daemon/main.c:767-904 | each pipe carries at most one status; the launcher leaves with 1 or the daemon's full status, and with 0 only after a successful start or an instance already running under --start |
| `Daemonize.StatusExact` | src/daemon/main.c:1161-1168 | when no process fails on its way, the launcher leaves with 0 exactly when the daemon came up or found an instance running, and with 1 exactly when it gave up |
| `Daemonize.OutcomeIsStep` | src/daemon/main.c:767-904 | the daemon comes to one outcome in a run, that of the one step it took |
| `Daemonize.Progress` | src/daemon/main.c:785-885 | while the launcher waits, some process can go on without a fault |
| `Daemonize.LauncherEnds` | src/daemon/main.c:767-904 | every run ends within 26 steps, and only with the launcher gone |
| `EsdHandshake.RequestsFor` | src/modules/module-esound-sink.c:642-656 | the three requests have 20, 4 and 140 bytes |
| `EsdHandshake.ServerReads` | src/modules/module-esound-sink.c:410-452 | what a server reads from the three requests: cookie, key, message numbers, format, rate and name |
| `EsdHandshake.Handshake.constructor` | src/modules/module-esound-sink.c:636-656 | the cookie and endian key are due first, nothing is on the wire |
| `EsdHandshake.Handshake.DoWrite` | src/modules/module-esound-sink.c:343-394 | what the socket takes goes on the wire, and the socket is handed over exactly when the last byte is out |
| `EsdHandshake.Handshake.HandleResponse` | src/modules/module-esound-sink.c:396-456 | refusal, failed assertion, or the next request |
| `EsdHandshake.Handshake.DoRead` | src/modules/module-esound-sink.c:458-485 | an assertion fails exactly when a reply that is no refusal is complete before the request |
| `EsdHandshake.Handshake.IoCallback` | src/modules/module-esound-sink.c:487-502 | the wire holds a prefix of the three requests, and the socket was handed over, once, exactly when it holds all of them |
| `EsdHandshake.Session` | src/modules/module-esound-sink.c:343-502 | the same over whole sessions; against a server that waits for complete requests no assertion fails |
| `CardCodec.ParseIff` | src/modules/module-card-restore.c:269-376 | the parser accepts exactly the printed forms of versions up to 4, and gives back what was printed |
| `CardCodec.Layout` | src/modules/module-card-restore.c:195-230 | where the fields of every version lie |
| `CardCodec.PrefixFree` | src/modules/module-card-restore.c:334-345 | no proper prefix and no proper extension of an accepted entry is accepted |
| `CardCodec.RoundTrip` | src/modules/module-card-restore.c:195-230 | a written entry is read back for any order of ports, an absent profile as the empty string |
| `CardCodec.OlderVersions` | src/modules/module-card-restore.c:295-345 | older versions are read with what they lack absent and the rest as it was |
| `CardCodec.Write` | src/modules/module-card-restore.c:195-230 | prints the current version with the ports in the order met |
| `CardCodec.Read` | src/modules/module-card-restore.c:269-376 | decodes every known version and rejects everything else, duplicate ports included |

## Left out

- Legacy database formats of the device manager and of card entries; an entry in such a format counts as unreadable.
- Failing database writes inside REORDER, the parsing of the native-protocol messages that carry the commands, and the routing of streams that follows a refresh.
- DeviceManager.DeviceManager.EntryWrite: always succeeds; Register and Rename take the failing write as a flag instead.
- DeviceManager.DeviceManager.RenumberAll: does not model a failing write, after which the counter stays where it is.
- DeviceManager.DeviceManager.MergeOthers: requires the values under keys of the kind to be readable, because the code would otherwise keep a freed record in its list; every run keeps them readable.
- DeviceManager.DeviceManager.ReorderDatabase: requires the same of the kind of the request, and only for a request that is accepted and names fewer than 256 devices.
- DeviceManager.DeviceManager.Reorder: requires the same.
- DeviceManager.DeviceManager.Execute: requires the same when the command is a REORDER.
- DeviceReorder.ReorderOutcome: requires that no unnamed priority wraps around, and fewer than 2^32 entries; `RequestFirstIff` shows that the former is exactly the condition.
- DevicePreference.ReorderDecidesPreference: requires the same.
- DeviceManager.DeviceManager.Refresh: promises the least priority only when no priority is 0, the value that the loop takes for "none yet"; the run theorem shows that priorities stay positive.
- The alignment of chunks to frames, memory blocks and silence inside the block queues; `pa_memblockq` rewinds in the combine sink and the equalizer; time smoothers.
- Requests and latencies of 2^31 and more in the combine sink's `int` atomics, and overflow of 64-bit sums of latencies.
- CombineRates.AdjustRates: uses the signed adjustment that is meant where the code converts a negative double to an unsigned integer.
- CombineRates.StepBounds: like the other rate lemmas takes a positive adjust time, since an adjust time of 0 switches the adjustment off.
- LoopbackLatency.Loopback.AdjustRates: says nothing about the rate when the averaged adjust time is 0, by which the controller divides.
- OverlapAdd.RunIsOverlapAdd: takes requests of at least one frame, like the other lemmas about runs; `pa_sink_input_peek` never asks for less.
- OverlapAdd.CeilLog2: computes the logarithm exactly where the code rounds a quotient of two logarithms, which may choose the next power of two for rates that are powers of two.
- OverlapAdd.ExactIff: takes a clamping that keeps zero and what is clamped already, and configurations whose window fits into the transform.
- Reconstruction.GivesBackInput: takes a window whose halves add up to one everywhere; the Hann window falls short of that at the last offset of each hop, by its second sample.
- CombineStream.HeldIsLatest: takes runs in which no POST overflowed the output's queue, where what is held would have a gap.
- CombineAggregates.PublishedIsRight: for outputs that all request 0 bytes the published request is the block size at the time of the last fold, which a later change of the block size does not update.
- Overflow of the loopback's 64-bit byte counters, its delay and render queues, the corking of streams, and moves that reconfigure only one of the two devices.
- Rounding of doubles in the loopback's and the combine sink's controllers and in the equalizer's control points: these are modelled over the reals. The overlap-add holds for any arithmetic on samples, rounded or not.
- The copying of the equalizer's channels into and out of interleaved frames: the overlap-add is about one channel, and `ChannelsInStep` shows that all channels move in step. The transforms are an arbitrary function of the window, constant over a run.
- Saving and loading equalizer profiles, and readers that run while a filter is being published.
- Everything in `main` outside the daemonising block and the status writes; the autospawn lock; exit statuses other than 0 and 1, which no process writes.
- The latency figure in the ESD server's second reply, and the IO thread after the hand-over.
- Applying a card entry to a card, and the comparison of entries.
- D-Bus plumbing, configuration, command line, logging, and the modules that only wrap the library: they would only add easy members.
