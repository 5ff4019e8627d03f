# Models and proofs of the bsrs core

bsrs runs experiments: plans send messages to an engine, the engine composes
event-model documents (a run start, descriptors, events, a run stop) and
broadcasts them to sinks. This project models the parts of it that keep state
or compute something subtle, and proves what they promise.

| file | about |
|---|---|
| `Documents.dfy`, `Compose.dfy`, `Bundler.dfy` | the documents, `RunBundle` and `RunBundler` |
| `WireOrder.dfy` | the engine, its monitor pumps and the wire: which descriptor each event names |
| `Replay.dfy` | checkpoint, rewind, and re-issuing the same calls |
| `SequenceLedger.dfy` | sequence numbers over whole runs |
| `DescriptorShape.dfy` | what a bundle's descriptor says about its readings |
| `RoutePaths.dfy`, `Routing.dfy` | nearest neighbour, then 2-opt by reversals in place |
| `StatusCell.dfy`, `StatusTree.dfy` | one status, and statuses combined with `and` |
| `SignalCache.dfy` | the fan-out to listener queues and the one shared monitor |
| `PurePath.dfy` | posix and Windows paths |
| `Detector.dfy` | prepare, trigger, kickoff and complete |
| `Suspender.dfy` | when a suspender trips, and when it lets go |
| `StageSigs.dfy` | settings applied at stage and undone at unstage |
| `Router.dfy` | the sinks of optimization runs |
| `OptimizePlans.dfy` | the optimization loops and their validators |
| `NdArray.dfy` | nested lists in C order |
| `RunningStats.dfy` | Welford's statistics against the two-pass ones |

An object whose methods change it is a class. Each of its methods is proved
equal to a function on the values of its fields, `Model()` or `View()`; the
claims are lemmas about those functions, over all inputs, all runs or all
interleavings. A run is a list of actions; where the world decides - an
asset drain that fails, a writer that closes, a source that goes - its answer
is part of the action.

Five promises of the source do not hold as worded. Each has a counterexample
and a condition: for four of them the exact one, for the route's start one that
suffices.

- A descriptor is broadcast before the first event that names it
  (`engine/bundler.rs:158-206`) - unless a `save` mints it and the asset drain
  of that same message then fails, which drops both; the next `save` on the
  stream sends a bare event (`WireOrder.LostDescriptorLeavesBareEvent`). The
  next event of a stream is described if and only if no `save` lost its
  descriptor that way, or the stream was declared or reconfigured again since;
  and a monitor's event may overtake the declaration in hand until that is
  broadcast (`WireOrder.NextEventIsDescribed`).
- A replay repeats the first pass (`engine/bundler.rs:208-236`, `378-399`) if and
  only if all of this holds (`Replay.ReplayRepeats`):
  - the region does not continue a bundle begun before it. The checkpoint
    message is refused inside a bundle, but staging, monitoring, subscribing
    and the rewindable switch move the rewind target there as well
    (`engine/run_engine.rs:2110-2134`; `Replay.OpenBundleIsNotRepeated`).
  - no event, page or span was asked of a stream that the region declares only
    later: the first pass refuses it, the replay does not
    (`Replay.EarlyEventIsNotRepeated`).
  - the rewind takes each counter the region shows back to where it began. It
    does after a checkpoint (`Replay.CheckpointTakesBack`). It does not in a run
    opened since the last one, which has no snapshot
    (`Replay.UncheckpointedIsNotRepeated`), nor after a replay, which leaves the
    snapshot behind (`Replay.RegionAfterReplay`, `Replay.NumberIsUsedAgain`).
- A route starts nearest the starting position (`blop/routing.rs:12-17`, `58-60`): the
  nearest-neighbour phase does, but 2-opt may reverse from the first stop on
  (`Routing.PathMayNotStartNearest`). Call a point anchored if putting another
  point first, and it last or before a third, never saves more than 1e-12:
  exactly such a point no reversal moves from first place, whatever the rest of
  the path (`Routing.AnchoredIff`). A route begins at the first of the nearest
  points if that is anchored (`Routing.RouteIndex`). Being locally optimal, it
  begins at no point where no locally optimal path does.
- Printing a Windows path and parsing it again gives the path back, if and only
  if it is not a driveless, rootless path whose first name has `:` as its
  second character (`PurePaths.WindowsRoundTrip`, `PurePaths.DriveAppears`).
- A stage that fails leaves the device as it was found
  (`devices/stage_sigs.rs:158-161`), if and only if each signal is left at its
  value at entry by the first setting on it whose restore lands, or by the
  failure where none does (`StageSigs.FailedStageLeavesNothing`,
  `StageSigs.FailedRollbackStays`). If the whole rollback lands that is: the
  write that failed did not land after all, changed nothing, or hit a signal
  that an earlier setting restores (`StageSigs.CleanRollback`,
  `StageSigs.LandedWriteStays`).

## Model

| member | source | states |
|---|---|---|
| Compose.RunBundle.Descriptor | crates/bsrs/src/event_model/compose.rs:89-119 | the first definition of a stream wins; a new one gets a fresh uid, names the run and starts at 0, and no other stream is touched |
| Compose.RunBundle.ComposeRedescribe | crates/bsrs/src/event_model/compose.rs:142-160 | a candidate has a fresh uid, the new configuration of that object, and is otherwise the current descriptor; nothing is installed; there is none for an undeclared stream or an object not in it |
| Compose.RunBundle.InstallDescriptor | crates/bsrs/src/event_model/compose.rs:169-174 | the stream's descriptor is replaced and its counter kept; no other stream is touched |
| Compose.RunBundle.Event | crates/bsrs/src/event_model/compose.rs:178-196 | an event carries what it is given, a fresh uid, the current descriptor's uid and the next number, and is refused for an undeclared stream, which changes nothing |
| Compose.RunBundle.EventPage | crates/bsrs/src/event_model/compose.rs:205-227 | a page carries its columns and times, n fresh uids and the next n numbers, and is refused for an undeclared stream |
| Compose.RunBundle.PeekNextSeq | crates/bsrs/src/event_model/compose.rs:235-240 | the number the next event would take, if the stream is declared |
| Compose.RunBundle.AdvanceSeq | crates/bsrs/src/event_model/compose.rs:247-256 | the counter moves by n and nothing else changes |
| Compose.RunBundle.SnapshotSeqNums | crates/bsrs/src/event_model/compose.rs:286-292 | every stream with its counter |
| Compose.RunBundle.RestoreSeqNums | crates/bsrs/src/event_model/compose.rs:301-307 | each counter goes back to the snapshot's, one the snapshot lacks to 0; descriptors stay |
| Compose.RunBundle.Stop | crates/bsrs/src/event_model/compose.rs:310-327 | `num_events` is every stream's counter |
| Bundling.RunBundler.DoCreate | crates/bsrs/src/engine/bundler.rs:224-236 | refused while a bundle is open, else opens an empty one |
| Bundling.RunBundler.DoAddRead | crates/bsrs/src/engine/bundler.rs:241-264 | refused without a bundle or when a key was read before; the open bundle is then unchanged |
| Bundling.RunBundler.PrepareStream | crates/bsrs/src/engine/bundler.rs:276-309 | the objects' schemas folded in order, both descriptor caches updated together |
| Bundling.RunBundler.DoDeclareStream | crates/bsrs/src/engine/bundler.rs:404-410 | as above, the descriptor returned whether new or not |
| Bundling.RunBundler.DoSave | crates/bsrs/src/engine/bundler.rs:313-352 | closes the bundle; nothing for an empty one; the descriptor, if the cache lacks it, and then the event |
| Bundling.RunBundler.DoCheckpoint | crates/bsrs/src/engine/bundler.rs:212-214 | remembers every counter |
| Bundling.RunBundler.DoRewind | crates/bsrs/src/engine/bundler.rs:394-399 | drops the open bundle and restores the counters, keeping the snapshot |
| Bundling.RunBundler.ComposeReconfigure | crates/bsrs/src/engine/bundler.rs:169-184 | one candidate for each declared stream the object is part of, in the order the map yields them, nothing installed |
| Bundling.RunBundler.InstallReconfigured | crates/bsrs/src/engine/bundler.rs:193-206 | both caches move to the broadcast generation |
| Bundling.RunBundler.DescriptorUid | crates/bsrs/src/engine/bundler.rs:426-431 | the cached uid, none for an undeclared stream |
| Bundling.OpenIff | crates/bsrs/src/engine/bundler.rs:224-399 | a bundle is open from its create to the save, drop or rewind that ends it, under its stream and with all that was read into it |
| Bundling.Refusals | crates/bsrs/src/engine/bundler.rs:224-399 | which calls are refused, why, and that a refused call changes nothing |
| WireOrder.ActSafe | crates/bsrs/src/engine/bundler.rs:158-206 | every step of engine and pumps keeps: the two caches agree, current descriptors are on the wire or about to be, generations are installed only when sent, pumped events are covered |
| WireOrder.EventsFollowDescriptors | crates/bsrs/src/engine/bundler.rs:158-206 | in every interleaving with pumps, an event or page on the wire follows its stream's descriptor of that uid, unless the stream once lost one; and a uid names one descriptor |
| WireOrder.NothingLost | crates/bsrs/src/engine/run_engine.rs:2205-2256 | a run in which no asset drain fails loses no descriptor |
| WireOrder.AllIsSent | crates/bsrs/src/engine/run_engine.rs:2205-2262 | in every run each document composed, but for what a failing `save` drops, is on the wire or on its way there, exactly once |
| WireOrder.EverLostIff | crates/bsrs/src/engine/run_engine.rs:2205-2256 | a stream ever lost a descriptor if and only if a failing `save` declared it |
| WireOrder.LostIff | crates/bsrs/src/engine/bundler.rs:313-352 | a lost descriptor stays lost exactly until the stream is declared again or a reconfiguration of it is installed; a later `save` never sends it |
| WireOrder.NextEventIsDescribed | crates/bsrs/src/engine/bundler.rs:426-431 | at every step `descriptor_uid` is what `event()` stamps, and that descriptor is sent with the message in hand at the latest if and only if no `save` that declared the stream failed at its drain, or the stream was declared or reconfigured again since; it is on the wire if and only if, besides, no message that returned it has yet to broadcast it, and between messages none has |
| WireOrder.NonEmptySaveSucceeds | crates/bsrs/src/engine/bundler.rs:313-352 | a `save` with readings never meets the unknown-stream error, and its event names the uid `descriptor_uid` gives |
| WireOrder.SchemaIsFixed | crates/bsrs/src/event_model/compose.rs:121-160 | all descriptors of a stream on the wire differ in uid and configuration values alone |
| WireOrder.ConfigureTakesEffect | crates/bsrs/src/engine/run_engine.rs:2706-2760 | by the swap that ends a configure, with pumps and broadcasts in between, every declared stream whose descriptor lists the object has a descriptor with the new configuration, which is on the wire; every other object's configuration and every other stream is as before, and the swap leaves the counters |
| WireOrder.NothingToConfigure | crates/bsrs/src/engine/run_engine.rs:2747-2758 | nothing is broadcast and installed exactly when no stream's descriptor lists the object |
| WireOrder.WireIsOfTheRun | crates/bsrs/src/event_model/compose.rs:89-119 | every descriptor on the wire has the run's uid, a name and a uid of its own |
| WireOrder.LostDescriptorLeavesBareEvent | crates/bsrs/src/engine/run_engine.rs:2205-2256 | a run whose wire is one event and no descriptor |
| Replay.ReplayRepeats | crates/bsrs/src/engine/bundler.rs:378-399 | from any state, inside an open bundle and without a snapshot included: after a rewind the same calls give the same errors, and the same events, pages and spans with no new descriptor, if and only if the region is repeatable: it does not continue a bundle, no call is early, and the rewind takes each counter it shows back to where it began |
| Replay.ReplayEndsAlike | crates/bsrs/src/engine/bundler.rs:378-399 | the replay of a repeatable region ends like the first pass if and only if every counter was taken back |
| Replay.CheckpointTakesBack | crates/bsrs/src/engine/run_engine.rs:2110-2134 | after a checkpoint every counter is taken back: only a continued bundle and an early call are in the way |
| Replay.UncheckpointedRepeats | crates/bsrs/src/engine/run_engine.rs:2054-2060 | with no snapshot a region is repeatable only if, besides, it moves no counter, and exactly then |
| Replay.EveryPassRepeats | crates/bsrs/src/engine/bundler.rs:388-399 | all passes, however many, repeat the first if and only if the region is repeatable |
| Replay.RegionAfterReplay | crates/bsrs/src/engine/run_engine.rs:1930-1956 | calls made after a replay are repeatable only if they show no counter that the region replayed before them moved: the snapshot stays, and what is replayed is not remembered again |
| Replay.NumberIsUsedAgain | crates/bsrs/src/engine/run_engine.rs:2044-2067 | a second event replayed under the number of the first |
| Replay.OpenBundleIsNotRepeated | crates/bsrs/src/engine/run_engine.rs:2110-2134 | a `save` that succeeds at first and is refused in the replay |
| Replay.UncheckpointedIsNotRepeated | crates/bsrs/src/engine/run_engine.rs:2054-2060 | an event of a run opened since the last checkpoint, replayed under the next number |
| Replay.EarlyEventIsNotRepeated | crates/bsrs/src/event_model/compose.rs:178-196 | an event refused at first and composed in the replay |
| SequenceLedger.StepUses | crates/bsrs/src/event_model/compose.rs:178-256 | every call uses up exactly the numbers it returns |
| SequenceLedger.EnteredStaysBalanced | crates/bsrs/src/engine/bundler.rs:208-221 | every call, rewinds included, keeps the ledger balanced |
| SequenceLedger.NumbersAreGapFree | crates/bsrs/src/event_model/compose.rs:280-327 | over any run, with what a rewind takes back cut from the log, each stream's numbers are 1..n, each once, and the run stop counts n |
| SequenceLedger.UidsNeverRepeat | crates/bsrs/src/event_model/compose.rs:178-227 | in every run, rewinds included, no two events or page rows share a uid |
| DescriptorShape.FirstSaveMatchesItsDescriptor | crates/bsrs/src/engine/bundler.rs:241-352 | reads are all accepted exactly when no two report a key in common, described or not; `save` on a new stream then returns a descriptor and the event that names it: the event has exactly the values and times read, the descriptor the keys described, each under the last object to describe it; where objects report what they describe these are the same keys, each under the object that reported it |
| DescriptorShape.SaveReturns | crates/bsrs/src/engine/bundler.rs:313-352 | what `save` returns of accepted reads: on a new stream its descriptor and the event, on a declared one the event alone |
| DescriptorShape.ShapeIsLastMention | crates/bsrs/src/engine/bundler.rs:276-309 | configuration, object keys and hints are those of each named object's last mention |
| RoutePaths.SquaresAreSummed | crates/bsrs/src/blop/routing.rs:50-56 | between complete points every coordinate both have counts, by its squared difference |
| RoutePaths.NoSquaresIff | crates/bsrs/src/blop/routing.rs:50-56 | points of one dimension apart by nothing are the same point |
| RoutePaths.EdgeIs | crates/bsrs/src/blop/routing.rs:61-76 | an edge is the distance between its points, or to the start, missing where a coordinate is; without a start edges from the anchor are zero |
| RoutePaths.TotalIs | crates/bsrs/src/blop/routing.rs:50-56 | a path is as long as its edges, a missing one counting nothing |
| RoutePaths.EdgeSymmetric | crates/bsrs/src/blop/routing.rs:50-56 | distances are symmetric |
| RoutePaths.ReversalTotal | crates/bsrs/src/blop/routing.rs:104-122 | a reversal changes the path's length by exactly the two edges compared |
| RoutePaths.ImprovesIff | crates/bsrs/src/blop/routing.rs:104-122 | a reversal is made exactly where the distances it changes are known and it cuts the whole path by more than 1e-12 |
| Routing.SlackFalls | crates/bsrs/src/blop/routing.rs:96-124 | so a natural number falls with each, and the sweeps end |
| Routing.Nearest | crates/bsrs/src/blop/routing.rs:77-94 | the first of the nearest, where a missing distance is never nearer |
| Routing.NearestNeighbour | crates/bsrs/src/blop/routing.rs:77-94 | a path over all points, each step to a nearest one left, complete points first |
| Routing.ReverseSegment | crates/bsrs/src/blop/routing.rs:104-122 | the segment is reversed in place and the rest left |
| RoutePaths.ReversedIsPermutation | crates/bsrs/src/blop/routing.rs:104-122 | a reversal loses and repeats no stop |
| Routing.ImprovementEndsComplete | crates/bsrs/src/blop/routing.rs:104-122 | a reversal found worthwhile ends at a complete point, or is none |
| RoutePaths.ReversedCompleteFirst | crates/bsrs/src/blop/routing.rs:104-122 | reversing a segment that ends at a complete point leaves complete points first |
| Routing.Sweep | crates/bsrs/src/blop/routing.rs:96-124 | a sweep shortens the path, or finds no reversal that improves it |
| Routing.TwoOpt | crates/bsrs/src/blop/routing.rs:96-124 | ends with a permutation of the path, no longer, that no reversal improves by more than 1e-12 |
| Routing.RouteIndex | crates/bsrs/src/blop/routing.rs:61-126 | a permutation of 0..n, no longer than the nearest-neighbour path, locally optimal, incomplete points last; it begins at the first of the nearest points if that is anchored |
| Routing.AnchoredIff | crates/bsrs/src/blop/routing.rs:96-124 | a point is anchored if and only if no reversal from first place improves any path that begins with it |
| Routing.TakeSlots | crates/bsrs/src/blop/routing.rs:40-47 | each slot is full when it is taken: the `expect` never fires |
| Routing.RouteSuggestions | crates/bsrs/src/blop/routing.rs:19-48 | the same suggestions, each once, along such a route over the numeric keys of the first; those lacking a routed dimension after all others, start complete or not |
| Routing.PlaneIs | crates/bsrs/src/blop/routing.rs:33-41 | the points routed have each suggestion's numbers in the dimensions of the first, and the start's |
| Routing.PathMayNotStartNearest | crates/bsrs/src/blop/routing.rs:58-61 | a case where no locally optimal path begins at the one point nearest the start |
| StatusCell.Inner.Finish | crates/bsrs/src/core/status.rs:169-186 | the first end stays, for good; its waiters are handed over once, to the call that ended it |
| StatusCell.Inner.AddCallback | crates/bsrs/src/core/status.rs:383-395 | queued while pending, else run by the caller with the stored end |
| StatusCell.Inner.Poll | crates/bsrs/src/core/status.rs:562-573 | pending stores the task's waker, once |
| StatusCell.EndIsFinal | crates/bsrs/src/core/status.rs:166-186 | nothing changes an end |
| StatusCell.CallbacksRunAtMostOnce | crates/bsrs/src/core/status.rs:115-186 | in every interleaving no callback runs twice, and each runs with the status's end |
| StatusCell.NothingIsLost | crates/bsrs/src/core/status.rs:375-395 | once the runners are through, every callback ever registered has run exactly once and no task told Pending is left unwoken |
| StatusCell.RunnersGetThrough | crates/bsrs/src/core/status.rs:169-186 | and they do get through: from every ended status the runners come to where nothing is left to run |
| StatusCell.EndsInTime | crates/bsrs/src/core/status.rs:218-257 | no timeout before timeout plus settle time, unless the producer reported one; no success before its settle time; a failure is one reported |
| StatusCell.EndsIff | crates/bsrs/src/core/status.rs:218-262 | what ends a pending status, with what and when: a cancel, an unused setter's error or success, the settle time of a success, the timeout |
| StatusCell.SetterIs | crates/bsrs/src/core/status.rs:455-483 | a setter counts once, and the settle time runs from the success it reported |
| StatusTree.BehaviourSafe | crates/bsrs/src/core/status.rs:275-291 | at every step a combined status has the first failure reported to it, or success once both parts reported it, or is pending |
| StatusTree.EndComesFromLeaves | crates/bsrs/src/core/status.rs:273-291 | at every step a success means all leaves succeeded, an error is some leaf's |
| StatusTree.QuiescentEnds | crates/bsrs/src/core/status.rs:273-291 | with no callback due: success if and only if all leaves succeeded, failure if and only if one failed, shared and already ended leaves included |
| StatusTree.ReportsComeToRest | crates/bsrs/src/core/status.rs:275-291 | and there is an order of callbacks that comes to where none is due, whatever has ended |
| StatusTree.FirstLeafToFailDecides | crates/bsrs/src/core/status.rs:273-291 | with reports delivered before the next end, the first leaf to fail gives the end, for good |
| StatusTree.CombinedEnd | crates/bsrs/src/core/status.rs:273-291 | `and` of statuses that already ended has, at once, the first part's failure, else the second's, success if both succeeded, and is pending otherwise |
| StatusTree.EarlierFailureDecides | crates/bsrs/src/core/status.rs:273-291 | over such a run, a status combined after one of its leaves failed keeps the first part's failure if that had failed, else the second's, for good |
| StatusTree.ContainsIsReachability | crates/bsrs/src/core/status.rs:293-301 | `contains` is exactly strict reachability |
| SignalCaching.Fanout.Post | crates/bsrs/src/core/subscription.rs:39-45 | the value goes once to each live listener, dead ones are dropped, the value replaced is returned |
| SignalCaching.SentAt | crates/bsrs/src/core/subscription.rs:41-45 | a live listener's queue grows by the value, any other is unchanged |
| SignalCaching.Fanout.Listen | crates/bsrs/src/core/subscription.rs:47-58 | a new queue that starts with the latest value, if any |
| SignalCaching.FanSteps | crates/bsrs/src/core/subscription.rs:39-58 | both keep exactly the listeners alive, in their order; a new one comes last, alive, with the latest value |
| SignalCaching.SignalCache.EnsureToken | crates/bsrs/src/devices/signal_cache.rs:109-118 | opens a monitor only when there is none |
| SignalCaching.SignalCache.MaybeTeardown | crates/bsrs/src/devices/signal_cache.rs:120-128 | closes it, and clears the cached value, only when nothing needs it |
| SignalCaching.SignalCache.SetStaged | crates/bsrs/src/devices/signal_cache.rs:130-140 | opens or may close the monitor |
| SignalCaching.SignalCache.AddListener | crates/bsrs/src/devices/signal_cache.rs:142-170 | counts the listener, opens the monitor, then registers, after what opening delivered |
| SignalCaching.SignalCache.DropToken | crates/bsrs/src/devices/signal_cache.rs:156-168 | uncounts one listener and may close the monitor |
| SignalCaching.OneMonitor | crates/bsrs/src/devices/signal_cache.rs:21-30 | in every run exactly one monitor is open if staged or listened to, none otherwise; the count is that of the undropped tokens |
| SignalCaching.StagedAsSet | crates/bsrs/src/devices/signal_cache.rs:130-140 | staged is what it was last set to |
| SignalCaching.EachOpeningIsNew | crates/bsrs/src/devices/signal_cache.rs:109-118 | every opening is of a new monitor |
| SignalCaching.NeverSaturates | crates/bsrs/src/devices/signal_cache.rs:161-164 | the saturating subtraction never saturates |
| SignalCaching.CachedIsCurrent | crates/bsrs/src/devices/signal_cache.rs:172-176 | the cached reading is the last since the monitor opened, none while it is closed |
| SignalCaching.EveryReadingOnce | crates/bsrs/src/core/subscription.rs:12-17 | a listener gets what it is owed, each reading once and in order |
| SignalCaching.AliveIff | crates/bsrs/src/core/subscription.rs:47-58 | a listener is alive from its registration until its receiver is dropped, in every run |
| SignalCaching.OwedStartsWithCached | crates/bsrs/src/devices/signal_cache.rs:142-149 | which starts with the reading cached at registration, if any |
| PurePaths.NamesOfJoined | crates/bsrs/src/devices/path_provider.rs:70-91 | splitting names undoes joining them |
| PurePaths.NamesConcat | crates/bsrs/src/devices/path_provider.rs:80-84 | the names of two texts put together are the names of each |
| PurePaths.PosixRootIs | crates/bsrs/src/devices/path_provider.rs:153-162 | two leading slashes are kept, any other number is one root |
| PurePaths.PosixRoundTrip | crates/bsrs/src/devices/path_provider.rs:263-271 | for every string, parsing the printed posix path gives it back |
| PurePaths.JoinRelative | crates/bsrs/src/devices/path_provider.rs:111-121 | a relative segment keeps the root and appends its names |
| PurePaths.JoinAbsolute | crates/bsrs/src/devices/path_provider.rs:207-216 | an absolute one is the path |
| PurePaths.JoinAssociative | crates/bsrs/src/devices/path_provider.rs:111-121 | joining is associative |
| PurePaths.ShareSplits | crates/bsrs/src/devices/path_provider.rs:164-181 | `\\server\share` is the drive of what lies below it |
| PurePaths.UncSplits | crates/bsrs/src/devices/path_provider.rs:164-181 | and so is `\\?\UNC\server\share`, in any case |
| PurePaths.BareShareRoot | crates/bsrs/src/devices/path_provider.rs:192-205 | a share alone has a root unless its server is `?`, `.`, `?.` or nothing |
| PurePaths.UncRoot | crates/bsrs/src/devices/path_provider.rs:192-205 | so has one behind `\\?\UNC\`, whatever its server |
| PurePaths.IsUncIff | crates/bsrs/src/devices/path_provider.rs:164-170 | that prefix is read in any case, and nothing else is |
| PurePaths.BareShareSplitsAgain | crates/bsrs/src/devices/path_provider.rs:192-205 | a share alone gets a root that, once printed, splits off again |
| PurePaths.WindowsRoundTrip | crates/bsrs/src/devices/path_provider.rs:164-205 | for every string, parsing the printed Windows path gives it back if and only if its first name does not look like a drive |
| PurePaths.DriveAppears | crates/bsrs/src/devices/path_provider.rs:182-189 | a path that does look so |
| Detectors.WaitForIndex | crates/bsrs/src/devices/detector.rs:354-386 | the wait, round by round |
| Detectors.WaitIff | crates/bsrs/src/devices/detector.rs:351-386 | it ends well if and only if a round sees all writers at the target before one closes or is late |
| Detectors.StandardDetector.UpdatePrepareContext | crates/bsrs/src/devices/detector.rs:262-286 | the prepare is taken before the writers are opened again, and recorded only if all goes well |
| Detectors.ReprepareStartsHere | crates/bsrs/src/devices/detector.rs:262-323 | when a context is made, for what, and why not otherwise: it starts at the index every writer then has, and is recorded; one that is not made leaves no prepare behind |
| Detectors.StandardDetector.Prepare | crates/bsrs/src/devices/detector.rs:249-256 | a control that fails leaves all as it was |
| Detectors.PrepareStartsHere | crates/bsrs/src/devices/detector.rs:249-256 | so does a prepare, which lets the next kickoff have all of its events |
| Detectors.StandardDetector.Stage | crates/bsrs/src/devices/detector.rs:454-466 | forgets prepare and kickoff once disarmed, and then also where stopping the data logics fails, which is the error returned |
| Detectors.StageForgets | crates/bsrs/src/devices/detector.rs:454-466 | after a stage there is nothing to kick off or complete, and a trigger prepares itself |
| Detectors.StandardDetector.Unstage | crates/bsrs/src/devices/detector.rs:467-470 | stops the data logics once disarmed and keeps prepare and kickoff |
| Detectors.StandardDetector.Trigger | crates/bsrs/src/devices/detector.rs:328-349 | one event of the prepare, or of an implicit one; refused for several; the outcome of preparing, arming, waiting and idling, in that order |
| Detectors.TriggerIff | crates/bsrs/src/devices/detector.rs:328-349 | a trigger ends well if and only if it was prepared, armed and idle, and some round saw every writer past its index at the trigger by the collections of one event before any closed or was late |
| Detectors.TriggerFails | crates/bsrs/src/devices/detector.rs:328-349 | otherwise it reports what stopped it first |
| Detectors.TriggerGoesBy | crates/bsrs/src/devices/detector.rs:328-341 | it goes by the prepare there is if that is for one event, by an implicit one if there is none, and is refused otherwise |
| Detectors.StandardDetector.PlanKickoff | crates/bsrs/src/devices/detector.rs:390-418 | refused unprepared, without writers, or past the prepared end |
| Detectors.KickoffIs | crates/bsrs/src/devices/detector.rs:390-418 | when a kickoff is made, and why not otherwise: it asks for all the events set, from the index every writer has, and is the last exactly where the prepare ends |
| Detectors.WholePrepare | crates/bsrs/src/devices/detector.rs:249-418 | a kickoff right after a prepare asks for the whole of it |
| Detectors.StandardDetector.Kickoff | crates/bsrs/src/devices/detector.rs:499-507 | arms after the plan; what was asked for is recorded even where arming fails |
| Detectors.StandardDetector.Complete | crates/bsrs/src/devices/detector.rs:508-528 | waits for the last kickoff's target, and for idle at the prepared end |
| Detectors.CompleteIff | crates/bsrs/src/devices/detector.rs:508-528 | a complete ends well if and only if there was a kickoff, its target was seen in time, and the last one idled |
| Detectors.KeysAlwaysCurrent | crates/bsrs/src/devices/detector.rs:258-286 | on every path a recorded prepare has the keys the writers' last opening reported for its collections per event |
| Detectors.OpenUnlessUnstaged | crates/bsrs/src/devices/detector.rs:258-286 | in every run, the writers of a recorded prepare are open if and only if the detector was not unstaged since they were opened, however often it was prepared again for as many collections per event |
| Detectors.MergedIs | crates/bsrs/src/devices/detector.rs:317-323 | the prepare's keys are the writers', a later writer's first |
| Detectors.KickoffsFitThePrepare | crates/bsrs/src/devices/detector.rs:388-418 | kickoffs, each completed before the next, ask for disjoint, increasing stretches of the prepared range and for no more in all than was prepared |
| Detectors.CompleteMeansWritten | crates/bsrs/src/devices/detector.rs:508-528 | complete succeeds only once every writer reached the target |
| Detectors.IdleAtTheEnd | crates/bsrs/src/devices/detector.rs:80-88 | idle is awaited exactly by kickoffs that end at the prepared end |
| Suspenders.AwaitBad | crates/bsrs/src/engine/suspender.rs:338-351 | resolves on the first BAD value, however brief, and on nothing else |
| Suspenders.AwaitGoodStable | crates/bsrs/src/engine/suspender.rs:353-394 | resolves only after a GOOD value and a silence of the whole delay, at the first such silence, or when the source goes |
| Suspenders.Watch | crates/bsrs/src/engine/suspender.rs:136-146 | one that is not to resume on its own never does |
| Suspenders.GoodThroughout | crates/bsrs/src/engine/suspender.rs:353-358 | the signal was GOOD at every moment of the delay |
| Suspenders.SilenceResolves | crates/bsrs/src/engine/suspender.rs:353-358 | it does resolve after such a silence, and no later |
| Suspenders.NeverIff | crates/bsrs/src/engine/suspender.rs:353-360 | with the source there, it never resolves exactly when no silence was long enough |
| Suspenders.OneOutcome | crates/bsrs/src/engine/suspender.rs:361-394 | where no two things happen at one moment the outcome is determined |
| StageSigs.StagedDevice.Push | crates/bsrs/src/devices/stage_sigs.rs:126-135 | a setting takes the place of one with its key |
| StageSigs.PushedIs | crates/bsrs/src/devices/stage_sigs.rs:126-135 | there is one setting a key, the last one pushed, in the place of the one it replaces or at the end |
| StageSigs.SettingsAsPushed | crates/bsrs/src/devices/stage_sigs.rs:126-141 | in every run the settings are those pushed since the last clear, whatever was staged and unstaged |
| StageSigs.StageApplies | crates/bsrs/src/devices/stage_sigs.rs:158-184 | after a stage that succeeds each signal holds what the last setting on it desires; a second stage changes nothing |
| StageSigs.StagedDevice.ApplySetting | crates/bsrs/src/devices/stage_sigs.rs:71-79 | the value is captured, then the desired one written |
| StageSigs.StagedDevice.RestoreSetting | crates/bsrs/src/devices/stage_sigs.rs:81-87 | the captured value is consumed and written back |
| StageSigs.StagedDevice.Stage | crates/bsrs/src/devices/stage_sigs.rs:158-184 | applies in order; a failure rolls back in reverse; rejected while staged |
| StageSigs.StagedDevice.Unstage | crates/bsrs/src/devices/stage_sigs.rs:186-205 | restores in reverse, all of them, and returns the first error, whether or not the write that failed landed |
| StageSigs.FirstErrorIs | crates/bsrs/src/devices/stage_sigs.rs:190-204 | the error is that of the last setting whose restore fails, the first to be tried |
| StageSigs.RestoreUndoes | crates/bsrs/src/devices/stage_sigs.rs:5-22 | whatever was written meanwhile and whichever restores land, each signal ends at what it held before the first setting on it whose restore lands, and stays as it is if none does |
| StageSigs.FirstRestored | crates/bsrs/src/devices/stage_sigs.rs:5-22 | which is its value at stage entry if the restore of the first setting on it lands, several settings on one signal included |
| StageSigs.FailedStageReturns | crates/bsrs/src/devices/stage_sigs.rs:158-184 | a failed stage leaves no setting applied, and each signal at what it held before the first setting on it whose restore lands, else at what it held when the stage failed |
| StageSigs.FailedStageLeavesNothing | crates/bsrs/src/devices/stage_sigs.rs:15-17 | whatever the rollback meets, a failed stage leaves all as it was if and only if each signal is so left at its value at entry |
| StageSigs.CleanRollback | crates/bsrs/src/devices/stage_sigs.rs:15-17 | where the whole rollback lands that is: the failed write did not land, changed nothing, or hit a signal an earlier setting restores |
| StageSigs.LandedWriteStays | crates/bsrs/src/devices/stage_sigs.rs:15-17 | a stage of one setting that fails and leaves the value it wrote |
| StageSigs.FailedRollbackStays | crates/bsrs/src/devices/stage_sigs.rs:168-178 | a stage whose rollback fails, and whose first setting stays applied |
| StageSigs.UnstageReturnsToEntry | crates/bsrs/src/devices/stage_sigs.rs:186-205 | in every run, whatever was written in between, however stages before failed and however often a second stage was rejected: what `RestoreUndoes` says, for exactly the stage that was not rejected |
| StageSigs.SecondUnstageIsNothing | crates/bsrs/src/devices/stage_sigs.rs:18-20 | a second unstage changes nothing |
| StageSigs.FailedStageIsUndone | crates/bsrs/src/devices/stage_sigs.rs:158-184 | in every run, a failing stage changes nothing if and only if each signal is left at its value at entry, its rollback failing or not |
| Router.OptimizationRouter.Targets | crates/bsrs/src/blop/callbacks.rs:154-199 | the sinks of each document, and the state after |
| Router.RoutesExactly | crates/bsrs/src/blop/callbacks.rs:112-120 | for interleaved runs with fresh uids, descriptors sent again included, every document goes to exactly the sinks the log says: the list at its run's matching start, for starts, primary descriptors, their events, and stops |
| Router.InFlightIff | crates/bsrs/src/blop/callbacks.rs:100-113 | a run is in flight from its matching start to its stop |
| Router.NoStrayDescriptors | crates/bsrs/src/blop/callbacks.rs:100-113 | every descriptor kept is of a run in flight that lists it |
| Router.EmptyInTheEnd | crates/bsrs/src/blop/callbacks.rs:186-196 | both maps are empty once all runs stopped |
| OptimizePlans.UniqueIff | crates/bsrs/src/blop/protocol.rs:596-606 | counting ids finds exactly the repeated ones |
| OptimizePlans.ValidOutcomesIff | crates/bsrs/src/blop/protocol.rs:579-594 | outcomes are valid exactly when they carry each suggested id once and no other |
| OptimizePlans.Optimize | crates/bsrs/src/blop/plans.rs:334-397 | the loop of `optimize`, for every answer it may get |
| OptimizePlans.OptimizeInRun | crates/bsrs/src/blop/plans.rs:402-483 | the loop of `optimize_in_run` |
| OptimizePlans.CallsAreExact | crates/bsrs/src/blop/plans.rs:190-483 | every run call by call: each iteration reached makes exactly the calls its answers ask for, each once, one iteration after the other and in the order suggest, register failures, ingest, record, checkpoint the optimizer, checkpoint the engine |
| OptimizePlans.FailuresAreRegistered | crates/bsrs/src/blop/plans.rs:212-246 | a failure is registered, once and for the suggested batch, if and only if the acquisition threw, or what it acquired could not be evaluated or, in a run, came out wrong |
| OptimizePlans.RunEndsBy | crates/bsrs/src/blop/plans.rs:334-483 | a run ends as the first iteration that does not complete says, or is done after the last one asked for |
| OptimizePlans.EndIsOne | crates/bsrs/src/blop/plans.rs:334-483 | and that is one end only |
| OptimizePlans.IngestsAreExact | crates/bsrs/src/blop/plans.rs:190-288 | no batch is both ingested and registered as failed, every ingest has exactly the suggested ids once each, and failures are registered for exactly the suggested batch |
| OptimizePlans.ReadNeverMismatches | crates/bsrs/src/blop/stubs.rs:180-191 | the comparison of ids made before recording never fails |
| OptimizePlans.RecordedApartIff | crates/bsrs/src/blop/protocol.rs:37-45 | trials the validators tell apart are recorded apart if and only if no number and the text that spells it are both among them |
| OptimizePlans.ShowReads | crates/bsrs/src/blop/protocol.rs:37-45 | a number is recorded as its decimal digits, a text as it is |
| OptimizePlans.CheckpointsAreDue | crates/bsrs/src/blop/plans.rs:290-312 | the optimizer is checkpointed once at exactly the completed iterations that complete an interval, and where saving fails |
| OptimizePlans.DueIff | crates/bsrs/src/blop/plans.rs:298-303 | a checkpoint is due exactly after every whole number of intervals, and never at an interval of zero or none |
| OptimizePlans.EventsAreIngests | crates/bsrs/src/blop/plans.rs:355-391 | as many events as successful ingests, less one when the criterion ends `optimize` or the engine a recording |
| NdArrays.New | crates/bsrs/src/core/ndarray.rs:126-138 | accepts data exactly as long as the product of the shape |
| NdArrays.Serialize | crates/bsrs/src/core/ndarray.rs:168-181 | the nested lists, no slice out of range, rank 0 and zero lengths included |
| NdArrays.ElementAt | crates/bsrs/src/core/ndarray.rs:160-181 | the element at an index is the one at the sum of index times stride |
| NdArrays.NothingElsewhere | crates/bsrs/src/core/ndarray.rs:160-181 | and there is none at any other index, of whatever rank |
| NdArrays.FlattenGivesBack | crates/bsrs/src/core/ndarray.rs:160-181 | flattening gives the data back |
| NdArrays.NestedTellsApart | crates/bsrs/src/core/ndarray.rs:160-187 | arrays of one shape with the same lists are the same |
| NdArrays.NestedAlikeIff | crates/bsrs/src/core/ndarray.rs:160-187 | arrays have the same lists if and only if they have the same data and their shapes agree up to and including the first zero |
| NdArrays.VisibleWithoutZero | crates/bsrs/src/core/ndarray.rs:160-187 | which is all of the shape exactly where no dimension before the last is zero |
| Statistics.RunningStats.Update | crates/bsrs/src/blop/callbacks.rs:62-72 | one observation taken in; NaN and infinities skipped |
| Statistics.RunningStats.Std | crates/bsrs/src/blop/callbacks.rs:84-90 | none before the second finite value; then squared and times count less one it is the sum of the squared deviations from the mean of all finite values |
| Statistics.DeviationsStep | crates/bsrs/src/blop/callbacks.rs:62-72 | the update of `m2` is exact |
| Statistics.RunningIsTwoPass | crates/bsrs/src/blop/callbacks.rs:29-90 | count, min, max, mean and `m2` are those computed in two passes over the finite values, and `m2` is never negative |

## Left out

- uids are numbers from a counter that never repeats; clock fields are not part of the model.
- Counters and indices are unbounded naturals: the wrap-around of u64, u32 and usize is not modelled, nor an array shape whose product overflows.
- Asset documents (resources, datums, their packing) except that draining them may fail; the bundler's configuration cache and its declared-stream and resource-key tables, which no claim here depends on.
- Hash maps iterate in an arbitrary order; object keys in a descriptor are a set.
- The engine apart from what the bundler and the pumps see of it: one run, messages one at a time, broadcasts that succeed, a configure refused inside an open bundle.
- Distances and statistics are exact reals; the square root is a parameter, of which only signs, or the square, are assumed; a missing coordinate stands for NaN. Rounding, and infinite coordinates, are not modelled.
- Progress: watchers, their observers and their queues (`core/status.rs:411-526`), and the guard that cancels on drop.
- Replay.ReplayRepeats: the calls replayed are all the calls made; events that monitors and the interruptions stream add between them, and no replay issues again, are in `WireOrder` and `SequenceLedger` alone.
- Routing.RouteIndex: where the nearest point is not anchored and yet begins some locally optimal path, the route may begin there or not, by the reversals made before; which is not stated.
- A combined status that is itself cancelled.
- A backend that delivers a value after its monitor was closed.
- The wake-up of a suspender's task is prompt: a task polled later than its delay may let go although a value came. The comparisons that define BAD, and the pre- and post-plans.
- StageSigs.UnstageReturnsToEntry: settings are not pushed or cleared while staged.
- `windows_join`, comparison, parents and the directory and file name providers (`devices/path_provider.rs:123-150`, `219-905`); Unicode case folding.
- Detector timeouts are an answer of the writers, not a clock; connecting, describing and collecting are not modelled.
- Error texts, logging, names and metadata; the run wrappers around the optimization loops; sampling given suggestions and candidates (`blop/plans.rs:485-683`).
- The optimization logger's tables (`blop/callbacks.rs:212-604`).
- Sinks and sources over sockets and files, the derive macros, the Lua and Python sides.
