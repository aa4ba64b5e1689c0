# Display-resource engine: a verified model

This project models how the hardware composer decides which display owns which display hardware, and the
workers, rings and caches around that decision. Each stateful part comes in two forms: a class whose methods run
the code's loops and assignments on shared objects, and functions on values that say what one call does. The
methods are proved equal to the functions; the properties are proved about the functions, over all runs.

| file | what it holds |
|---|---|
| `DisplayModes.dfy`, `DrmResources.dfy` | modes and output capability; CRTCs, encoders, connectors with their mirror fields |
| `CrtcAllocation.dfy` | the allocator on values: candidates in loop order, the six passes, bind, release, and dissolving a mirror group |
| `DrmDevice.dfy`, `HotplugHandler.dfy` | the same in place: nested loops over encoders and CRTCs, early returns, releases, the unplug branch |
| `AllocationTheorems.dfy`, `SelectionTheorems.dfy`, `BindTheorems.dfy` | exclusivity over runs; completeness, last resort, capability and termination of the selection; when a bind succeeds, when it mirrors, and what a mirrored pair shares |
| `MirroredRoutes.dfy` | exclusivity with mirroring: which display each bound connector's CRTC carries, and exactly which step spoils that |
| `MirrorGroups.dfy`, `MirrorTheorems.dfy`, `MirrorExamples.dfy` | coherence of mirror groups, step by step and over runs, and a board on which it is lost |
| `UnplugTheorems.dfy`, `GroupFormation.dfy`, `ModeChangeTheorems.dfy` | unplugging a group in any order, how runs form the groups, dissolving one for a mode change |
| `EventQueue.dfy`, `EventWorker.dfy`, `EventProtocol.dfy`, `HotplugSource.dfy` | merging and draining of hotplug events, the worker's critical sections, all interleavings, the scan that sends |
| `BufferQueue.dfy`, `WriteBack.dfy`, `WriteBackAliasing.dfy`, `WriteBackSpacing.dfy`, `WriteBackTheorems.dfy` | the recycling queue, the write-back ring on it with changes of resolution, exactly when its buffers alias, spacing that rules it out, its users and readers |
| `FbCache.dfy`, `LayerCache.dfy`, `HwcLayer.dfy`, `LayerCacheTheorems.dfy`, `LayerAgreement.dfy` | frame buffers and layer caches with reference counts, and whose buffer a layer's current record is |
| `PlaneGroups.dfy` | plane groups moving between CRTCs |
| `FakeEdid.dfy`, `VsyncPhase.dfy`, `Letterbox.dfy`, `Arithmetic.dfy` | EDID packing, vsync phase, picture placement |

Conventions. A kernel commit is a step that succeeds. Objects never made twice are told apart by identity (CRTCs,
encoders, connectors) or by a number that stands for it (buffers, cache records). Allocation never fails. A run of
the allocator starts after the boot configuration was taken over, with every encoder serving one connector and
display ids distinct and below 16; a request may carry split bits. Integer widths, wrap-around and truncation are
written out where they matter. The refresh rate of a mode is the integer it is truncated to. Entries of a layer's
table are released in key order, which the C++ library leaves open.

Where the code and its comments disagree the model follows the code:

- The output check compares the active width and active area of a mode, where its comment speaks of totals.
- The mode of a made-up EDID is meant to be the preferred one, but each `break` only leaves its own loop, so the
  first raw mode wins, then the first listed one.
- The upper bits of the picture height in a made-up EDID are not shifted into place and are lost.
- The product name is said to take thirteen bytes; the thirteenth is always zero.
- A mirror group is said to be freed with its last member; with primary id 0 that is so only if the primary's
  unplug is handled last.

Properties that fail as one would first state them, each with its exact condition and a failing input:

| property | exactly when it holds | failing input |
|---|---|---|
| a step keeps the mirror groups coherent | MirrorTheorems.StepCoherence | MirrorExamples.RebindingAPrimaryBreaksItsGroup |
| a group's CRTC is freed with its last member | UnplugTheorems.GroupFinallyFreed | UnplugTheorems.PrimaryZeroKeepsTheCrtc |
| a bound connector's CRTC carries the display it should show | MirroredRoutes.StepRoutes, MirroredRoutes.RunsRouteExactly | MirroredRoutes.BoundAgainIsSpoilt: any external bound again without a release, onto a CRTC of its own |
| write-back never draws into a buffer in use | WriteBackAliasing.StepIsSafe, WriteBackAliasing.RunsAliasExactlyByReuse; two swaps between changes of resolution suffice, WriteBackSpacing.BuffersNeverAlias | WriteBackSpacing.ThereAndBackAliases, EveryFrameAliases, ThreeSizesAlias |
| the output check bounds the clock a mode really needs | DisplayModes.ClockIsExact | 65536 by 65536 pixels, whose area wraps to 0 |
| a plane group is not offered on a released CRTC until it is asked for again | PlaneGroups.OfferedAgainExactly | a group elsewhere with a move to that CRTC pending |
| the events sent for a connector alternate | HotplugSource.SendsAlternate | HotplugSource.FirstBootRepeats |
| a layer's current record is that of the buffer just set | LayerAgreement.CurrentAgreesExactly | LayerAgreement.SlotsCanBeMistakenForIds |
| the EDID gives the timing back | FakeEdid.TimingRoundTrip | a height of 256 mm |
| the picture keeps its shape | Letterbox.AspectIsKept | a product that wraps |
| the next vsync is at most one frame away | VsyncPhase.PhasedIsNext | a last timestamp a broken frame ahead |
| the displays of a plane group agree after the one-argument setter | PlaneGroups.MaskSetterAgrees | a request pending for another display |

## Model

| member | source | states |
|---|---|---|
| DisplayModes.FirstFittingFinds | drm/drmconnector.cpp:635-714 | a scan of a mode list gives the first considered mode that fits the width and clock limits, and fails exactly when there is none |
| DisplayModes.SuitableModeRanks | drm/drmconnector.cpp:635-714 | the four scans rank preferred listed, listed, preferred raw and raw modes; a mode is found exactly when any list holds a fitting one |
| DisplayModes.ClockIsExact | drm/drmdevice.cpp:2497-2505 | the required clock is width times height times rate if and only if the area is below 2^32, or the rate zero, and the whole product below 2^64 |
| DrmResources.DrmEncoder.SetCrtc | drm/drmencoder.cpp:50-56 | the encoder takes the CRTC and remembers the display that CRTC carries at this moment, -1 for none |
| DrmResources.DrmConnector.EnableConnectorMirrorMode | include/drmconnector.h:196-217 | a connector told its own id becomes primary and adds the mirroring display to its set, any other becomes an external with an empty set |
| DrmResources.DrmConnector.DisableConnectorMirrorMode | include/drmconnector.h:219-232 | a primary loses the leaving display and stops being one with its last display; an external leaves mirror mode |
| DrmResources.DrmConnector.GetSuitableMode | drm/drmconnector.cpp:635-714 | best and current mode become the first hit of the four scans; without one only the best mode is reset |
| CrtcAllocation.FindConnectorFinds | drm/drmdevice.cpp:1021-1027 | looking up a display finds a connector with that display whenever there is one |
| CrtcAllocation.FoundUnderSplitIds | drm/drmdevice.cpp:1021-1027 | a connector is found under its display id with any of the sixteen settings of the split bits |
| CrtcAllocation.CandidateMember | drm/drmdevice.cpp:1892-1893 | the pairs the nested loops visit are exactly those of an encoder of the connector and a CRTC of that encoder |
| CrtcAllocation.CandidateOrder | drm/drmdevice.cpp:1892-1893 | the pairs come encoder by encoder, each with its CRTCs in their order |
| CrtcAllocation.FirstEligibleIsFirst | drm/drmdevice.cpp:1892-1916 | a pass takes the first pair it accepts and none before it was acceptable |
| CrtcAllocation.SelectFromChooses | drm/drmdevice.cpp:1846-1885 | the choice is a reachable pair its pass accepts, every earlier pass accepted nothing, and no choice means no pass accepted anything |
| CrtcAllocation.ApplyShape | drm/drmdevice.cpp:1887-2110 | every field after a choice: who gets the encoder and CRTC, who loses them, and that only the mirror pass touches mirror fields and leaves the CRTC's display alone |
| CrtcAllocation.ReleaseMirrorShape | drm/drmdevice.cpp:3041-3130 | every field after a mirror release: a remaining primary keeps its encoder, an external loses it and its primary forgets it |
| DrmDevice.AttemptsSelect | drm/drmdevice.cpp:1846-1885 | running the passes one after the other until one finds a CRTC is applying the one selection |
| DrmDevice.SearchesAreAttempts | drm/drmdevice.cpp:1846-1885 | the four searches in their order are the six passes in theirs |
| DrmDevice.Device.GetConnectorForDisplay | drm/drmdevice.cpp:1021-1027 | the loop returns the first connector with the display, ignoring split bits |
| DrmDevice.Device.CheckConnectorState | drm/drmdevice.cpp:1807-1843 | 0 exactly for an existing connector whose state is connected, else the error code |
| DrmDevice.Device.CheckCrtcOutputCapability | drm/drmdevice.cpp:2468-2508 | 0 exactly when the mode id is positive and the CRTC reports no limits, or the width is within its width limit and width times height (in 32 bits) times rate (in 64 bits) within its clock limit; else -1 |
| DrmDevice.Device.TakeFree | drm/drmdevice.cpp:1892-1916 | the first scan takes the first pair in loop order whose CRTC is free or already the connector's, capable if asked for, and changes nothing otherwise |
| DrmDevice.Device.TakeOrphan | drm/drmdevice.cpp:1917-1959 | the second scan takes the first pair whose CRTC's display is gone, releasing its connector first |
| DrmDevice.Device.FindAvailableCrtcByFirst | drm/drmdevice.cpp:1887-1961 | the connector loses its encoder, then the two scans run |
| DrmDevice.Device.FindAvailableCrtcByMirror | drm/drmdevice.cpp:1964-2026 | joins the first capable CRTC that shows the same timing for another connected display, marking both connectors; nothing without RGB output |
| DrmDevice.Device.FindAvailableCrtcByCompete | drm/drmdevice.cpp:2029-2110 | takes the first CRTC whose owner is gone or has the larger priority number, any CRTC when the connector has no priority |
| DrmDevice.Device.FindAvailableCrtc | drm/drmdevice.cpp:1846-1885 | the whole search does to the objects what the selection on values says |
| DrmDevice.Device.ReleaseConnectorAndCrtc | drm/drmdevice.cpp:2345-2406 | frees the CRTC and unbinds the connector, an error and no change without a connector |
| DrmDevice.Device.BindConnectorAndCrtc | drm/drmdevice.cpp:2145-2294 | an error for a connector without a mode; else the active mode is the current one, exchanged first for a suitable one if the CRTC cannot output it |
| DrmDevice.Device.BindDpyRes | drm/drmdevice.cpp:2969-2999 | the whole bind on the objects equals the bind on values, result code included |
| DrmDevice.Device.ReleaseDpyResByMirror | drm/drmdevice.cpp:3041-3130 | the mirror release on the objects equals that on values |
| DrmDevice.Device.ReleaseDpyResByNormal | drm/drmdevice.cpp:3133-3199 | the CRTC is free and the connector unbound; of the plane groups just those that are not reserved and whose possible and current masks meet the mask of the CRTC's pipe have both CRTCs 0 and both displays -1, all others are as before |
| DrmDevice.Device.ReleaseDpyRes | drm/drmdevice.cpp:3002-3038 | nothing for an undriven connector, else the release its mirror mode calls for; equals the release on values; a driven connector out of mirror mode gives back the plane groups of its CRTC's pipe, just those and just then |
| DrmDevice.Device.ReleaseMirrorDisplays | drm/drmdevice.cpp:1682-1702 | the loop over a primary's mirror displays releases every driven one, in order |
| HotplugHandler.DrmHotplugHandler.HandleUnplugEvent | drmhwctwo.cpp:6047-6127 | the unplug branch on the objects: release, and for an external possibly the release of its primary |
| AllocationTheorems.ExclusiveMeansOneDriver | drm/drmdevice.cpp:1846-2110 | when every bound connector's CRTC carries its display, no two connectors drive one CRTC |
| AllocationTheorems.StepStaysExclusive | drm/drmdevice.cpp:2969-3038 | a bind, release, hotplug, mode switch or probe keeps every bound connector's CRTC carrying its display |
| AllocationTheorems.RunStaysExclusive | drm/drmdevice.cpp:2969-3038 | so does every run of them, with the mirror pass refused |
| AllocationTheorems.RunHasOneDriverPerCrtc | drm/drmdevice.cpp:2969-3038 | in every state of every such run two bound connectors drive different CRTCs |
| AllocationTheorems.BindBinds | drm/drmdevice.cpp:2969-2999 | a bind that succeeds leaves the connector on a reachable CRTC: one that now carries its display, or, mirroring, one whose display stays as it was |
| AllocationTheorems.ReleaseUndoesBind | drm/drmdevice.cpp:3133-3199 | releasing a connector just bound gives every CRTC back its display if and only if the bind took a free one |
| SelectionTheorems.SelectionComplete | drm/drmdevice.cpp:1846-2110 | a search fails if and only if every reachable CRTC carries another, connected display, which the connector does not outrank, and none can be mirrored: same timing as that display's active mode, within the limits, RGB output |
| SelectionTheorems.PreemptionIsTheLastResort | drm/drmdevice.cpp:2029-2110 | a connected owner loses its CRTC only if no reachable CRTC was free, own, orphaned or of the same timing to be mirrored, and only to a smaller priority number or to a connector without priority |
| SelectionTheorems.CapableCrtcIsPreferred | drm/drmdevice.cpp:1846-1851 | when an available CRTC can output the mode, the search takes such a one and unseats nobody |
| SelectionTheorems.FreeBeforeOrphaned | drm/drmdevice.cpp:1887-1961 | a free or own CRTC is taken before an orphaned one, in the round for capable CRTCs and in the round for any |
| SelectionTheorems.BoundModeIsWithinTheCrtcLimits | drm/drmdevice.cpp:2145-2176 | after a successful bind to a CRTC that reports limits the active mode's width and wrapped product are within them if and only if those of the current mode or of some listed or raw mode are; a capable current mode stays, and so does one when nothing fits |
| BindTheorems.BindSucceedsExactly | drm/drmdevice.cpp:2969-2999 | a bind returns 0 if and only if it is for a connected connector with a mode that has a CRTC to take, mirror or preempt within reach; -1 exactly when a connected connector has none; otherwise -22, and for nobody connected nothing changes |
| BindTheorems.BindMirrorsExactly | drm/drmdevice.cpp:1846-2026 | a bind mirrors if and only if no available CRTC within reach can output the mode, and one that can shows the same timing for another connected display, with RGB output |
| BindTheorems.MirroredDisplaysMatch | drm/drmdevice.cpp:1975-2014 | right after a bind that mirrors both displays have equal active timings; the primary was connected, the CRTC carries its display still, and the mode is within the CRTC's limits, products written out |
| SelectionTheorems.ContestedBind | drm/drmdevice.cpp:2029-2110 | among connected connectors with priorities, every CRTC a bind moves gets a cheaper owner |
| SelectionTheorems.PreemptionTerminates | drm/drmdevice.cpp:1887-2110 | without releases the number of binds that move a CRTC is bounded by the cost of the start, at most CRTCs times one more than the worst priority number, mirroring included |
| MirroredRoutes.StepRoutes | drm/drmdevice.cpp:1964-2026 | with mirroring: an external's CRTC carries its primary's display and any other's its own; after a step that is so for a connector if and only if the step does not spoil it |
| MirroredRoutes.RunsRouteExactly | drm/drmdevice.cpp:2969-3038 | a run keeps everybody so routed in all its states if and only if none of its steps spoils anybody |
| MirroredRoutes.SharedOnlyByMirroring | drm/drmdevice.cpp:1964-2026 | then two connectors on one CRTC are in one mirror group, and a non-external among them is its primary |
| MirroredRoutes.BoundAgainIsSpoilt | drm/drmdevice.cpp:1892-1916 | an external that is bound again without a release, and not by mirroring, is not so routed afterwards |
| MirrorGroups.JoinCoherence | include/drmconnector.h:196-217 | on coherent groups mirroring a display keeps them coherent if and only if the pair is joinable |
| MirrorGroups.LeaveCoherence | include/drmconnector.h:219-242 | a mirror release keeps them coherent if and only if an external leaves under its own id |
| MirrorTheorems.StepCoherence | drm/drmdevice.cpp:1964-2026 | on the allocator: a step keeps display e in p's set exactly when e mirrors p, and p primary exactly when its set is not empty, if and only if it passes a check made before it |
| MirrorTheorems.RunKeepsGroupsCoherent | drm/drmdevice.cpp:3041-3130 | every run of steps that pass the check keeps the groups coherent, whatever hotplugs, switches and normal binds come between |
| MirrorExamples.RebindingAPrimaryBreaksItsGroup | drm/drmdevice.cpp:1964-2026 | on a three-connector board a primary switched to a mode its CRTC cannot output, and bound again, mirrors another display and loses its set while its external still names it |
| GroupFormation.BindStartsGroup | drm/drmdevice.cpp:2969-2999 | a successful normal bind of a connector in no group makes it a primary-to-be on its CRTC, without externals |
| GroupFormation.BindJoinsGroup | drm/drmdevice.cpp:1964-2026 | a mirror bind onto a group's CRTC adds its connector to the group's externals |
| GroupFormation.StepAside | drm/drmdevice.cpp:2969-3038 | binds of others on other CRTCs, releases of others, hotplugs, mode switches and probes leave a group as it is |
| GroupFormation.GroupsGrow | drm/drmdevice.cpp:1964-2026 | over runs of both, the group is the primary with everybody who joined |
| GroupFormation.BoundMirroredUnplugged | drmhwctwo.cpp:6047-6127 | from a bind over any such run to the group's unplug events in any order: the CRTC keeps the primary's display until a freeing event |
| UnplugTheorems.PrimaryZeroKeepsTheCrtc | drmhwctwo.cpp:6078-6084 | a primary with id 0 that leaves before its external: everybody is gone and the CRTC still carries display 0 |
| UnplugTheorems.ExternalHandled | drmhwctwo.cpp:6069-6105 | an external's unplug takes it out of its group; it frees the CRTC exactly when it was the last, the primary's cable is out and the primary's id is positive |
| UnplugTheorems.PrimaryHandled | drmhwctwo.cpp:6047-6068 | a primary's unplug frees the CRTC exactly when nobody mirrors it |
| UnplugTheorems.UnplugInAnyOrder | drmhwctwo.cpp:6047-6127 | for every order of a group's unplug events, and cables pulled any time before, the shared CRTC keeps the primary's display until a freeing event and is free from then on |
| UnplugTheorems.GroupFinallyFreed | drmhwctwo.cpp:6078-6105 | after everybody's unplug the CRTC was freed if and only if the primary's id is positive or all externals were gone before it |
| UnplugTheorems.UnpluggedCannotBind | drmhwctwo.cpp:6047-6127 | an unplug leaves its connector disconnected and no other changed in that, and binding it then fails with -22 and changes nothing |
| ModeChangeTheorems.ModeChangeDissolvesTheGroup | drm/drmdevice.cpp:1678-1702 | a mode change on a primary unbinds every external in any order, leaves the primary alone on its CRTC under its own display, and touches no other connector |
| EventQueue.SendAllMerges | drmhwctwo.cpp:6261-6290 | what a slot holds is the last event sent to it, marked exactly when the one before it had another connection |
| EventQueue.MarkedIffMerged | drmhwctwo.cpp:6270-6281 | under alternating sends the mark says exactly that at least two events were merged |
| EventQueue.DrainLists | drmhwctwo.cpp:6627-6636 | draining lists every pending event once, by display and then by type |
| EventQueue.ListsUnique | drmhwctwo.cpp:6627-6636 | there is only one such list |
| EventWorker.Worker.SendDrmEvent | drmhwctwo.cpp:6261-6290 | the nested map after a send is the merged map |
| EventWorker.Worker.TakePending | drmhwctwo.cpp:6627-6636 | the nested loops empty the map into exactly that list |
| EventProtocol.StepKeepsAccounted | drmhwctwo.cpp:6607-6675 | in every step what was handled and is queued is what the drained batches give, and the pending map is the sends since, merged |
| EventProtocol.TakesExactly | drmhwctwo.cpp:6607-6636 | the worker takes all pending events at its look at the map, exit or not, if it was started and there are any, and when woken from its second wait unless an exit was requested; otherwise none |
| EventProtocol.RunKeepsWakeupDue | utils/worker.cpp:45-77 | in every interleaving a worker asleep with something to do (a start, an event, an exit) has a notification outstanding |
| EventProtocol.DrainKeepsLatest | drmhwctwo.cpp:6627-6636 | merging and draining a batch of sends keeps the last event of every slot |
| EventProtocol.LatestIsSomewhere | drmhwctwo.cpp:6607-6675 | the latest event sent to a slot is pending, else in the worker's queue, else the last handled for it |
| EventProtocol.MergingRefinesReplay | drmhwctwo.cpp:6261-6290 | the drained events leave each slot with the same final event as handling every single one |
| EventProtocol.StepDecreases | utils/worker.cpp:79-93 | every step of the worker or of a notification decreases a measure |
| EventProtocol.EveryEventIsHandled | drmhwctwo.cpp:6607-6675 | from every run, once started and left alone, the worker settles within a bound and every slot's last event has then been handled |
| EventProtocol.ExitEndsTheWorker | utils/worker.cpp:34-43 | after an exit request the worker settles within a bound, and then has ended |
| EventProtocol.ExitDropsTheRest | drmhwctwo.cpp:6607-6636 | after an exit request, whoever sends or wakes, only events already taken are still handled, unless the worker was just between its look at the exit flag and that at the map |
| EventProtocol.NothingBeforeStart | drmhwctwo.cpp:6254-6259 | if the start flag really is false at first, nothing is drained or handled before the start |
| HotplugSource.DrmHotplugSource.HandleEvent | drmhwctwo.cpp:5802-5879 | fast readings, slow ones only if those show no change: each connector is left in the state of the last one taken that succeeded, or as it was; all connectors are sent once on the first-boot branch |
| HotplugSource.OneCall | drmhwctwo.cpp:5802-5879 | by the readings of one call: the state of each connector after it, and that it is sent one event, with that state and the timestamp, if and only if that differs from the one before or nothing at all changed in a first-boot call |
| HotplugSource.SentInOrder | drmhwctwo.cpp:5802-5879 | nothing else is sent, and the events are in the order of the connectors |
| HotplugSource.EveryCall | drmhwctwo.cpp:5802-5879 | the same for each call of a series: the state it leaves and the event it adds |
| HotplugSource.LastReadingWins | drmhwctwo.cpp:5802-5879 | after a series a connector is in the state of the last successful reading of it that was taken, or as it was at first if there was none |
| HotplugSource.SendsAlternate | drmhwctwo.cpp:5802-5879 | whatever the readings of however many calls, RK3528 or not: the last event for a connector is its state, and its events alternate if and only if every first-boot call came before them |
| HotplugSource.MarkMeansMergedEdges | drmhwctwo.cpp:6261-6290 | under alternating sends, in every state of the protocol, a pending event is marked exactly when it merged at least two sends |
| HotplugSource.ScansMarkMergedEdges | drmhwctwo.cpp:5802-5879 | the scan as the sender: in every interleaving a pending event is marked exactly when it merged at least two edges, if the first-boot calls came first |
| HotplugSource.FirstBootRepeats | drmhwctwo.cpp:5862-5876 | two calls through the first-boot branch send the same connection twice |
| BufferQueue.DrmBufferQueue.DequeueDrmBuffer | rockchip/common/drmbufferqueue.cpp:82-116 | a full queue gives its front, made anew if the geometry differs; any other makes one |
| BufferQueue.DrmBufferQueue.QueueBuffer | rockchip/common/drmbufferqueue.cpp:118-133 | only the buffer last dequeued is accepted |
| BufferQueue.CycleKeepsRing | rockchip/common/drmbufferqueue.cpp:82-133 | at any geometries the queue never outgrows its maximum and holds different buffers |
| BufferQueue.CyclesWalkRound | rockchip/common/drmbufferqueue.cpp:82-133 | after k cycles at one geometry the queue holds the last positions of an endless walk around its buffers |
| BufferQueue.DequeuesAreACycle | rockchip/common/drmbufferqueue.cpp:82-133 | dequeue k returns buffer k modulo the maximum, hence what dequeue k minus the maximum returned |
| WriteBack.WriteBackManager.EnableWriteBackMode | resources/resourcemanager.cpp:421-451 | counts another user of the bound display, refuses another display, or starts with a buffer from the queue |
| WriteBack.EnableOutcome | resources/resourcemanager.cpp:341-451 | who may enable; the first user's display, mode and buffer of the wanted geometry, from a queue of four for the display engine or six for the blitter if there is none yet; what a refusal leaves |
| WriteBack.WriteBackManager.DisableWriteBackMode | resources/resourcemanager.cpp:546-560 | the last user clears finished, drawing and next buffers |
| WriteBack.WriteBackManager.SwapWBBuffer | resources/resourcemanager.cpp:788-849 | drawing joins the finished list, which drops its oldest beyond three, next becomes drawing, and a cycle of the queue gives the new next |
| WriteBack.WriteBackManager.UpdateWriteBackResolution | resources/resourcemanager.cpp:454-544 | nothing for the same size, another display or the blitter; another size takes the next buffer from the queue at once |
| WriteBack.ResizeOutcome | resources/resourcemanager.cpp:454-544 | a buffer of the new geometry is taken just for a display that may, in the display engine's mode, and another width or height; all other requests change nothing, with their result codes |
| WriteBack.WriteBackManager.OutputWBBuffer | resources/resourcemanager.cpp:653-786 | succeeds exactly when a frame is finished or being drawn and the copy succeeds; the reader's number moves on to the chosen frame only then |
| WriteBackAliasing.StepIsSafe | resources/resourcemanager.cpp:788-849 | one enable, disable, swap or change of resolution: with the buffers in use different and the next one not among those that stay in use, that remains so if and only if the operation does not take a full queue's front buffer of the wanted geometry while it is still in use |
| WriteBackAliasing.AliasesExactlyByReuse | resources/resourcemanager.cpp:454-517 | over any run from any such state: two buffers in use are the same at some point if and only if a swap follows a reuse with nothing in between to undo it |
| WriteBackAliasing.RunsAliasExactlyByReuse | resources/resourcemanager.cpp:330-369 | the same from the start, at any queue depth the code makes |
| WriteBackSpacing.StepSpread | resources/resourcemanager.cpp:788-849 | with queues of four, or six and more, changes of resolution two swaps apart never reuse a buffer in use |
| WriteBackSpacing.BuffersNeverAlias | resources/resourcemanager.cpp:788-849 | in every state of every run with changes of resolution two swaps apart, to any sizes, the drawing buffer and the at most three finished ones differ, and next can only be the oldest of three finished |
| WriteBackSpacing.SwapsAloneAreSpaced | resources/resourcemanager.cpp:788-849 | runs without changes of resolution are such runs |
| WriteBackSpacing.ThereAndBackAliases | resources/resourcemanager.cpp:454-517 | a size changed there and back between two swaps makes the display draw into a finished buffer |
| WriteBackSpacing.EveryFrameAliases | resources/resourcemanager.cpp:454-517 | so does one change in every frame |
| WriteBackSpacing.ThreeSizesAlias | resources/resourcemanager.cpp:454-517 | and, in a queue of six, one change in every frame among three sizes |
| WriteBackTheorems.BoundUntilTheLastUser | resources/resourcemanager.cpp:421-451 | a display keeps write-back while it has a user, with an exact user count, whatever other displays enable or disable |
| WriteBackTheorems.LastUserClears | resources/resourcemanager.cpp:546-560 | with the last user every buffer a reader could take is gone |
| WriteBackTheorems.ChosenIs | resources/resourcemanager.cpp:656-681 | there is a frame as soon as one is finished or being drawn; a reader gets the oldest finished frame newer than its last, else the newest, and before any is finished the one being drawn, as frame 0 |
| WriteBackTheorems.ReadersAreMonotone | resources/resourcemanager.cpp:656-690 | over every interleaving of swaps with rising numbers and reads, failed ones included, a reader's frame number never decreases |
| FbCache.DecLayerSound | rockchip/common/drmgralloc.cpp:1211-1246 | dropping a layer reference succeeds, keeps all counts and frees just the frame buffers nobody needs any more |
| FbCache.GetSound | rockchip/common/drmgralloc.cpp:1057-1136 | a caller gets a frame buffer of its buffer with its parameters and counts as its user, or an error without a count changed |
| FbCache.RemoveSound | rockchip/common/drmgralloc.cpp:1138-1195 | a user's removal succeeds and keeps all counts |
| FbCache.EntriesComeAndGo | rockchip/common/drmgralloc.cpp:1057-1246 | no entry without layers and frame buffers is left by a decrease or a removal; a request for a buffer leaves one, even if refused |
| FbCache.AliveWhileNeeded | rockchip/common/drmgralloc.cpp:1166-1192 | a frame buffer is in the kernel exactly while it has a user or its buffer a layer reference |
| LayerCache.ReleaseBalanced | resources/resourcescache.cpp:100-110 | giving up a record, destruction included, keeps layer counts equal to the flagged records alive |
| LayerCache.CacheBufferInfoBalanced | include/drmhwctwo.h:285-369 | caching by buffer id keeps that balance |
| LayerCache.CacheBufferInfoBySlotBalanced | include/drmhwctwo.h:213-283 | caching by slot keeps it |
| LayerCache.NoCacheBufferInfoBalanced | include/drmhwctwo.h:371-423 | setting a buffer without caching keeps it |
| LayerCache.SetOutputBufferBalanced | include/drmhwctwo.h:426-460 | setting an output buffer, which is never counted, keeps it |
| LayerCacheTheorems.LayerCountsAreExact | resources/resourcescache.cpp:100-110 | over every run on any number of layers, copies and frame buffer users: a buffer's layer count is the number of flagged records alive for it, records alive are those held, and frame buffers live exactly while needed |
| LayerAgreement.LayerLearns | include/drmhwctwo.h:213-423 | after one call of a layer its table holds, under each key, a flagged record of the buffer its caller can know to be there |
| LayerAgreement.CurrentAgreesExactly | include/drmhwctwo.h:213-423 | any mix of calls on any layers: after a call by id or slot the current record is that of the buffer set if and only if the key was not found or was last set for the same buffer |
| LayerAgreement.CurrentIsTheBufferSet | include/drmhwctwo.h:285-369 | a layer cached by id alone, whatever the others do, has at most 33 keys, each the id its record was made for, and its current record is that of the buffer just set |
| LayerAgreement.IdsStayCached | include/drmhwctwo.h:285-369 | ids stay cached under their records until 33 are held or a hit was followed by a miss; only then a miss starts over with the new id alone |
| LayerAgreement.SlotsCanBeMistakenForIds | include/drmhwctwo.h:213-283 | with slots and ids mixed, a slot's record can be found under a buffer id |
| HwcLayer.DrmGralloc.DecLayerRefCount | rockchip/common/drmgralloc.cpp:1211-1246 | the loop over unused frame buffers leaves the cache as on values |
| HwcLayer.DrmGralloc.FbIdGetAndCached | rockchip/common/drmgralloc.cpp:1057-1136 | the search through the cached frame buffers and the import leave the cache as on values |
| HwcLayer.DrmGralloc.FbIdRmCache | rockchip/common/drmgralloc.cpp:1138-1195 | a removal leaves the cache as on values |
| HwcLayer.Hwc2Layer.ClearTable | include/drmhwctwo.h:300-308 | clearing the table releases all its records |
| HwcLayer.Hwc2Layer.CacheBufferInfo | include/drmhwctwo.h:285-369 | hit, miss, reset and overflow on the objects equal those on values |
| HwcLayer.Hwc2Layer.CacheBufferInfoBySlot | include/drmhwctwo.h:213-283 | the same by slot |
| HwcLayer.Hwc2Layer.NoCacheBufferInfo | include/drmhwctwo.h:371-423 | the same without a table |
| PlaneGroups.PlaneGroup.SetNextCrtc | include/drmplane.h:101-111 | an idle group, or one already there, moves at once; any other waits |
| PlaneGroups.ResetGroups | drm/drmdevice.cpp:3189-3196 | the groups not reserved whose possible and current masks both meet the mask given get CRTCs 0 and displays -1; no other group changes |
| PlaneGroups.MeetsPipe | include/drmplane.h:54-64 | a mask meets that of a pipe if and only if it has the pipe's bit |
| PlaneGroups.PipesAreApart | drm/drmdevice.cpp:3191 | the masks of two pipes meet if and only if the pipes are the same |
| PlaneGroups.OfferedAgainExactly | drmhwctwo.cpp:1752-1769 | after a release no group is offered on that CRTC to any display; without a new request one is offered there later if and only if it was elsewhere with a move to that CRTC pending |
| PlaneGroups.CollectOffers | drmhwctwo.cpp:1752-1769 | the loop collects exactly the groups that are the display's own and not on their way |
| PlaneGroups.AtRestWhereWanted | include/drmplane.h:54-124 | from boot over every run: a group with nothing pending is on the CRTC and display last asked for, and its planes are lit nowhere else |
| PlaneGroups.MovesThroughDark | include/drmplane.h:101-124 | between two CRTCs there is always a completed disable or a reset |
| PlaneGroups.OffersAreDisjoint | drmhwctwo.cpp:1752-1769 | no group is offered to two displays, nor while on its way |
| PlaneGroups.MaskSetterAgrees | include/drmplane.h:83-90 | after a request to a group at rest, the one-argument setter leaves the displays agreeing if and only if it refuses, or the request had nothing to wait for, or named the display already there |
| FakeEdid.ReadPacked | drm/drmconnector.cpp:1640-1695 | reading the detailed timing by section 3.10.2 of VESA E-EDID Release A, Revision 2 gives every field as far as it has room |
| FakeEdid.TemplateReads | drm/drmconnector.cpp:1565-1583 | the same reading of the template's own detailed timing gives 1920 by 1080 at 148.5 MHz with its blanking, porches and size |
| FakeEdid.TimingRoundTrip | drm/drmconnector.cpp:1623-1695 | the timing comes back exactly if and only if every field has room, the height eight bits |
| FakeEdid.WriteTiming | drm/drmconnector.cpp:1640-1695 | the bytes from 54 on, and no others |
| FakeEdid.WriteIds | drm/drmconnector.cpp:1709-1726 | manufacturer DMY, product code and serial number |
| FakeEdid.IdentifiedReads | drm/drmconnector.cpp:1709-1726 | read by section 3.4.1 of that standard the manufacturer is DMY, and the serial number is the connector's number and the manufacturer again |
| FakeEdid.ProductCodeReads | drm/drmconnector.cpp:1720-1722 | exclusive-or with the product code gives the connector's number and the manufacturer from each other |
| FakeEdid.NameReads | drm/drmconnector.cpp:1704-1706 | the name is the text Dummy-type-number with its line feed, cut to twelve bytes, and zeros |
| FakeEdid.DigitsRead | drm/drmconnector.cpp:1705 | the number in it reads back, in decimal digits without leading zeros |
| FakeEdid.WriteChecksum | drm/drmconnector.cpp:1729-1733 | all 128 bytes sum to 0 modulo 256 |
| FakeEdid.ChooseMode | drm/drmconnector.cpp:1591-1620 | the first raw mode, else the first listed one, else the empty mode |
| FakeEdid.MakeFakeEDID | drm/drmconnector.cpp:1585-1736 | the timing of the first raw mode, else of the first listed one, reads back field by field if and only if it fits; header, version, name, identification and checksum are right |
| VsyncPhase.PhasedIsNext | drm/vsyncworker.cpp:80-86 | the timestamp is after now and less than two frames away, and at most one exactly when the last one is not a broken frame ahead |
| VsyncPhase.PhasedIsInPhase | drm/vsyncworker.cpp:80-86 | it differs from the last one by whole frames |
| VsyncPhase.OnTimeIsOneFrame | drm/vsyncworker.cpp:80-86 | a worker that is on time advances by exactly one frame |
| VsyncPhase.TimestampsIncrease | drm/vsyncworker.cpp:90-184 | at any rates, and with vsync switched before, during and after any sleep, software timestamps are later than all before them; that hardware ones are is assumed |
| VsyncPhase.TimestampsOnGrid | drm/vsyncworker.cpp:90-184 | software vsyncs at one rate that end enabled all lie on one grid, whatever the switches during their sleep |
| VsyncPhase.DeliveredWhenEnabled | drm/vsyncworker.cpp:90-184 | a pass hands its timestamp out, and keeps it as its phase, if and only if vsync is enabled at its end |
| VsyncPhase.SwitchStartsOver | drm/vsyncworker.cpp:58-65 | a switch between two passes gives the phase up, one during a sleep does not |
| VsyncPhase.InvalidateWorker.Pass | drm/invalidateworker.cpp:89-147 | a pass divides by zero if and only if the rate is zero, or beyond one per nanosecond with a phase to keep; any other keeps the phase, calls back while the count is not used up, and uses up a positive one |
| VsyncPhase.RequestedRefreshes | drm/invalidateworker.cpp:109-147 | a request for n refreshes gets exactly n |
| Letterbox.FitTarget | drmhwctwo.cpp:2260-2286 | the block's assignments, in exact quotients, give the rectangle defined by products and integer division; a buffer of the display's size is taken whole |
| Letterbox.TargetIsInside | drmhwctwo.cpp:2260-2286 | the rectangle is even, inside the buffer and centred up to the alignment |
| Letterbox.AspectIsKept | drmhwctwo.cpp:2263-2286 | for all sizes, equal ones included: if no 32-bit product wraps, one side fills the buffer up to alignment and the other is within two pixels of what keeps the shape; for sides up to 2^31 only then |

## Left out

- Failing commits: callers do not unwind them, so a commit is a step that succeeds.
- Boot hand-over of kernel CRTC ids (drm/drmdevice.cpp:2112-2142): it may clear another display's CRTC; runs start after it.
- Preempting a mirror primary does not unwind its group; AllocationTheorems has the mirror pass refused, MirroredRoutes says which steps spoil whom with it.
- UpdateDisplayModeNormal and the rebinding after a mirror mode change: the latter is a sequence of binds, covered by the runs of the allocator.
- Display renumbering, crop split and horizontal split set-up, and single-display mode.
- Property values set for colour format and depth, and status strings.
- WriteBack.WriteBackManager.OutputWBBuffer: does not model the wait of up to a tenth of a second for the first frame, which changes nothing.
- LayerAgreement.CurrentAgreesExactly: the buffer's attributes are represented by its id alone.
- VsyncPhase.TimestampsIncrease: that the worker wakes no earlier than its timestamp, and that a hardware timestamp is a new one, is taken from the clock.
- BufferQueue.DrmBufferQueue.DequeueDrmBuffer: does not model fences, parent ids and failing allocation.
- LayerCache.SetOutputBufferBalanced: sideband streams, which are set the same way, have no member of their own.
- HwcLayer.Hwc2Layer.ClearTable: releases in key order, where the library's order is unspecified.
- PlaneGroups.AtRestWhereWanted: takes from the compositor that the planes of a group are off when a disable completes and when a group is reset.
- VsyncPhase.PhasedIsNext: the frame length is a positive number of nanoseconds; the rate it comes from is a float.
- Letterbox.FitTarget: doubles are exact rationals.
- Memory of frame buffers and GEM handles, RGA handles, buffer import for metadata, frame rate statistics.
- Plane assignment per platform, the layer policy and the compositor: not part of this model.
- Kernel ioctls, property blobs, sysfs and uevents; gralloc, RGA, PQ, SVEP, MEMC, EBook and HDR libraries; XML and property parsing, dumps, HWC2 getters.
- Capability predicates, name tables, fence queues and back-off, which would only add easy members.
