# Verified model of the Audio Graph Manager

The Audio Graph Manager (AGM) connects *sessions* (audio streams) to *audio interfaces* (AIFs). Every AIF stands
for a PCM device, and several sessions may share one device through its reference counts. This project models
the parts of AGM whose correctness does not show in any single function, and proves what they promise.

**A. Sessions, AIFs and devices** (`devices.dfy`, `cells.dfy`, `session_spec.dfy`, `sessions.dfy`, `world.dfy`,
`runs.dfy`, `service.dfy`, `faults.dfy`, `session_laws.dfy`, `run_laws.dfy`). `Devices.Device`, `Sessions.Session` and `Service.AgmService` are classes whose
methods follow the C functions statement by statement. Whatever a driver, the graph library or an allocator answers
during a call is in a value of `SessionSpec.Answers`; all answers are possible. Given them, a call is a function:
`SessionSpec` has one per session call (`PrepareEffect`, `OpenEffect`, `LinkEffect` and so on), `Runs.Perform` the one for
any call of a client on all sessions and devices, and `Runs.After` the state after any number of calls. The methods are
proved to compute just these functions, from any state whatever, and everything else is proved about the functions.
What they amount to is said once more without them: `SessionLaws` gives, for every call, when it succeeds, which code it
returns, and the state and the counts of every AIF and device afterwards; `RunLaws` says which session a call changes.

The books are `Worlds.World.Inv`: on every device `open` is the number of AIFs of all sessions attached to it, `start` is
at least the number of started ones, and the device is consistent; a closed session has nothing attached and any other
session has nothing waiting. The proof is a rely-guarantee argument. A call of one session is judged on that session's
AIFs and the devices alone (`Cells.Keeps`: the other sessions on this device do not notice), and `Worlds.MoveKeepsInv`
lifts this to everybody. `Runs.RunKeepsBooks` is the main theorem: along any calls in any order with any failures the
books balance exactly if every outcome is clean. `Runs.PreparedStarts` is the other one: a start is never refused as not
prepared after a successful prepare, whatever other sessions do.

The code does not keep its own books after every failure. The model repairs none of this: each call's function says
which path it took (`OpenPath`, `LinkPath`), and `Runs.Clean` is the *exact* condition on that path. `Drift` gives the
number of attachments by which a connect or disconnect is off. The unclean outcomes are

* an open that fails at a later device and is unwound, but answers with the success of `graph_close`, or whose unwinding
  runs out of memory (`session_obj.c:779-799`);
* an open whose loopback or echo-reference set-up fails after all devices were opened (`session_obj.c:1661-1676`);
* a connect of an AIF that is connected already: the guard is `>` and not `>=` (`session_obj.c:1516`);
* a live connect whose prepare or start fails: the device is closed again and the AIF state stays (`session_obj.c:1610-1611`);
* a disconnect without memory for the merged metadata (`session_obj.c:495-513`).

Each of these has a method in `faults.dfy` that takes a new session there by actual calls.

**B. Metadata** (`dedup.dfy`, `metadata.dfy`, `layout.dfy`). The triple loop that removes duplicates in place is proved
to be the order-preserving first-occurrence filter. Merging, the session-wide fold and the calibration update are
loops proved against functions, and algebraic laws of those functions give the source's promises: the fold is one
merge, and calibrating commutes with merging. The nested offset macros invert the documented byte layout.

**C. Pull and push positions** (`arith.dfy`, `pcm_ring.dfy`). The hardware pointer, its cycle base, the boundary loop,
`avail` and `poll`, with all wrap-arounds.

**D. The intrusive list and the module selection of `graph_open`** (`agm_list.dfy`, `graph_select.dfy`), on a heap of
linked nodes.

**E. Compressed streams** (`compress.dfy`, `drain.dfy`). Fragment accounting as a class; the end-of-stream handshake as
a state machine over the steps of its threads.

`common.dfy` holds what they share. In the rows below a "view" is one session's AIF pool together with all devices.

## Model

| member | source | states |
|---|---|---|
| Devices.Device.Open | service/src/device.c:123-168 | fails exactly if the device is not open yet and pcm_open fails, and then changes nothing; otherwise the count rises and a first open makes the device OPENED |
| Devices.Device.Prepare | service/src/device.c:170-200 | the same for the prepare count and pcm_prepare |
| Devices.Device.Start | service/src/device.c:202-232 | refused exactly below DEV_PREPARED, changing nothing; otherwise the start count rises |
| Devices.Device.Stop | service/src/device.c:234-263 | a stopped device stays as it is; the last stop ends in STOPPED even when pcm_stop fails and its code is returned |
| Devices.Device.Close | service/src/device.c:265-289 | the count falls; the last close clears all counts and closes the handle even when pcm_close fails |
| Devices.StepConsistent | service/src/device.c:123-289 | from consistent counters a call leads to consistent ones if and only if it prepares or closes only an open device |
| Devices.RunConsistent | service/src/device.c:123-289 | along any run, with any pcm_* failures, CLOSED iff open is 0, OPENED iff open and not prepared, STARTED iff start is positive, and pcm_open minus pcm_close successes is 1 iff open: exactly when every call of the run was proper |
| Devices.CloseUndoesOpen | service/src/device.c:143-165 | closing after opening gives back counters and state |
| Cells.ApplyKeeps | service/src/session_obj.c:754-1078 | what any call does to one AIF and its device goes unnoticed by the other sessions on that device, except for an unwinding that gives up before closing the device, which leaves one attachment too many |
| Cells.SweepAt | service/src/session_obj.c:829-845 | a loop over the AIF pool does to each AIF its own operation, exactly once, and leaves other devices alone |
| Cells.SweepKeeps | service/src/session_obj.c:829-1073 | no loop over the pool is noticed by another session |
| Cells.SweepReady | service/src/session_obj.c:829-1073 | after prepare, start, stop or close loops every attached AIF still has a prepared device if it had one |
| Cells.PreparedIsReady | service/src/session_obj.c:829-845 | a full prepare leaves a prepared device behind every attached AIF |
| SessionSpec.FailedConnectRestores | service/src/session_obj.c:589-714 | from every failure point of a connect the counts and the state of a consistent device are as on entry |
| SessionSpec.UnwindRestores | service/src/session_obj.c:779-799 | the unwinding of a failed open restores every AIF and every device count, whichever AIF failed, if and only if no disconnect gave up; otherwise a device keeps an extra attachment |
| SessionSpec.ConnectFirst | service/src/session_obj.c:716-777 | connecting the first waiting AIF ahead of the loop over all of them comes to the same as the loop alone |
| SessionSpec.OpenKeeps | service/src/session_obj.c:1618-1684 | an open, for whatever answers, keeps the books and its phase if its outcome is clean, and otherwise breaks one or the other |
| SessionSpec.UnwoundCell | service/src/session_obj.c:1610-1611 | undoing a live connect leaves an AIF's device off by one if connected before, less one if closed again |
| SessionSpec.JoinKeeps | service/src/session_obj.c:1515-1616 | connecting or disconnecting an AIF, for whatever answers, is unnoticed by the other sessions exactly when the drift of its outcome is 0 |
| SessionSpec.LinkKeeps | service/src/session_obj.c:1501-1616 | the same for the whole call, which may create the AIF object |
| SessionSpec.UnlinkReady | service/src/session_obj.c:1589-1607 | a disconnect never makes a session less ready to start |
| SessionSpec.ReadyIsNotStuck | service/src/device.c:212-217 | device_start refuses no AIF of a session whose attached AIFs have prepared devices |
| SessionSpec.SweepReaches | service/src/session_obj.c:802-1032 | preparing, starting, undoing a start and stopping neither attach, detach nor queue any AIF |
| SessionSpec.CloseDetaches | service/src/session_obj.c:1060-1073 | after a close nothing is attached |
| SessionSpec.PrepareHarmless | service/src/session_obj.c:802-858 | a prepare keeps the books, the phase and the session's readiness |
| SessionSpec.PrepareMakesReady | service/src/session_obj.c:829-857 | a prepare that returns success leaves every attached AIF on a prepared device |
| SessionSpec.StartHarmless | service/src/session_obj.c:860-979 | a start keeps the books, the phase and the readiness, undone or not; a ready session is never refused as not prepared |
| SessionSpec.ClosedRefuses | service/src/session_obj.c:810-816 | prepare and start of a closed session fail and change nothing |
| SessionSpec.StopHarmless | service/src/session_obj.c:981-1032 | a stop keeps the books, the phase and the readiness |
| SessionSpec.CloseHarmless | service/src/session_obj.c:1034-1078 | a close keeps the books and the phase, and takes no device from another session |
| SessionLaws.StartStarts | service/src/session_obj.c:916-958 | after a start that returns success the session is STARTED and every attached AIF is in AIF_STARTED, on a started device whose count has risen by one for an AIF that was not started yet |
| SessionLaws.StartSucceeds | service/src/session_obj.c:860-958 | a start succeeds if and only if something is attached, no AIF to be started has an unprepared device, the graph starts for playback and capture, and the edges are ready for capture |
| SessionLaws.StartLaw | service/src/session_obj.c:860-979 | every code of a start and what it leaves behind, AIF by AIF: nothing before the devices are reached, all started, or undone up to the first AIF refused |
| SessionLaws.FailedStartUndone | service/src/session_obj.c:960-975 | a start that fails at a device or, for playback, at the graph leaves no AIF in AIF_STARTED and the start counts as they were, less those of AIFs started before |
| SessionLaws.PrepareLaw | service/src/session_obj.c:802-858 | every code of a prepare by direction and graph answer; the AIFs in AIF_OPENED or AIF_STOPPED before the first failing device become AIF_PREPARED with one prepare more, all others stay; the session is PREPARED just on success |
| SessionLaws.StopLaw | service/src/session_obj.c:981-1032 | every code of a stop by direction; every started AIF becomes AIF_STOPPED with one start less, the last one stopping its device; the session is STOPPED |
| SessionLaws.CloseLaw | service/src/session_obj.c:1034-1078 | every code of a close; every attached AIF becomes AIF_CLOSED with one open less, the last one closing its device and clearing all counts |
| SessionLaws.ConnectLaw | service/src/session_obj.c:589-714 | which answers decide a connect: graph_open, the callback and the session parameters for the first AIF of a closed session, graph_change for the first of a live one, graph_add for any other; the code by what fails; the device opened once more, or as before |
| SessionLaws.OpenLaw | service/src/session_obj.c:1618-1684 | every code of an open; every waiting AIF in AIF_OPENED with its device opened once more; or, when a further AIF fails, all AIFs and devices as before but for a device whose disconnect ran out of memory |
| SessionLaws.JoinLaw | service/src/session_obj.c:1515-1585 | every code of a connect and what it leaves: refused as already connected; only noted in a closed session; nothing changed when the device or the graph does not take the AIF; otherwise the session catches up, with the code and state that the first unpreparable device, the graph and the edges decide, or the connect is undone with the AIF still attached and its device open once too often just when the disconnect ran out of memory |
| SessionLaws.LinkConnects | service/src/session_obj.c:1525-1585 | a successful connect by session state: AIF_OPEN and no device touched when closed; AIF_OPENED when opened; AIF_PREPARED in a PREPARED session from prepared or stopped; AIF_STARTED on a started device, the session STARTED and every other attached AIF started, when started |
| SessionLaws.LeaveLaw | service/src/session_obj.c:1515-1607 | every code of a disconnect, the AIF's state and its device's counts after it; nothing else changes |
| SessionLaws.LookupLaw | service/src/session_obj.c:90-113 | a connect or disconnect works on the AIF object of that id, or on a closed one added at the end of the pool; without memory it does nothing |
| SessionLaws.AttachedInCounts | service/src/session_obj.c:117-139 | what is counted is the number of AIFs in AIF_OPENED, AIF_STOPPED, AIF_PREPARED and AIF_STARTED |
| Sessions.Session.CountAttached | service/src/session_obj.c:117-139 | how many AIFs are in AIF_OPENED or later |
| Sessions.Session.GetAif | service/src/session_obj.c:90-113 | finds the AIF of this id or appends a closed one; without memory nothing changes |
| Sessions.Session.ConnectAif | service/src/session_obj.c:589-714 | the code and the device for every combination of answers; nothing else changes |
| Sessions.Session.DisconnectAif | service/src/session_obj.c:484-543 | closes the device whatever the graph answers, except that without memory nothing happens |
| Sessions.Session.OpenWithFirstDevice | service/src/session_obj.c:716-748 | attempts just the first AIF in AIF_OPEN; -EPIPE exactly if none waits |
| Sessions.Session.ConnectAllWaiting | service/src/session_obj.c:760-777 | connects the waiting AIFs in pool order, up to the first that fails |
| Sessions.Session.UnwindOpen | service/src/session_obj.c:779-791 | each connected AIF goes back to AIF_OPEN, with its device closed unless memory runs out for it |
| Sessions.Session.ConnectRemainingDevices | service/src/session_obj.c:750-800 | either all AIFs are connected or the ones before the failing AIF are unwound; then the answer is that of graph_close |
| Sessions.Session.Open | service/src/session_obj.c:1618-1684 | computes OpenEffect: code, session state, AIFs and devices |
| Sessions.Session.Prepare | service/src/session_obj.c:802-858 | computes PrepareEffect: the graph before the devices for capture and after them for playback, the devices up to the first that fails |
| Sessions.Session.Start | service/src/session_obj.c:860-979 | computes StartEffect: all AIFs started, or as an undone start leaves them |
| Sessions.Session.Stop | service/src/session_obj.c:981-1032 | computes StopEffect: every started AIF stopped, and the last device's code or the graph's |
| Sessions.Session.Close | service/src/session_obj.c:1034-1078 | computes CloseEffect: every attached AIF closed, and the last device's code or the graph's |
| Sessions.Session.CatchUp | service/src/session_obj.c:1540-1582 | after a live connect the session is prepared, and started if it was started before |
| Sessions.Session.Connect | service/src/session_obj.c:1526-1587 | computes ConnectEffect, by session state and with the unwinding at the end |
| Sessions.Session.Disconnect | service/src/session_obj.c:1589-1607 | computes DisconnectEffect: AIF_CLOSE first, and AIF_CLOSED only on success |
| Sessions.Session.SetAif | service/src/session_obj.c:1501-1616 | computes LinkEffect: the whole of session_obj_sess_aif_connect, with its guards |
| Worlds.MoveKeepsInv | service/src/session_obj.c:1034-1078 | a call that its own session's books survive keeps the books of all sessions and devices |
| Worlds.MoveBreaksInv | service/src/session_obj.c:1604-1611 | a call that gains or loses an attachment, or leaves its session out of phase, breaks them |
| Worlds.MoveKeepsReady | service/src/session_obj.c:802-1078 | no call of another session takes away the prepared devices that a session relies on to start |
| Worlds.AttachedDeviceIsOpen | service/src/device.c:265-289 | while the books are kept, an attached AIF of any session has an open device with one handle, and a started AIF a started device |
| Worlds.AddSession | service/src/session_obj.c:303-331 | a new, closed session keeps the books |
| Runs.StepKeeps | service/src/agm.c:452-544 | any call, from balanced books: they balance afterwards if and only if the outcome is clean; then only sessions on which it connects can have lost readiness, a successful prepare has made its session ready, and a start of a ready session was not refused as not prepared |
| Runs.NewWorldBalances | service/src/session_obj.c:183-197 | the books of a new service balance |
| Runs.RunKeepsBooks | service/src/agm.c:452-544 | over any calls in any order with any failures the books balance at every point if and only if every outcome was clean |
| Runs.StaysReady | service/src/device.c:170-232 | a session that is ready stays so through any calls of other sessions, and its own that connect nothing, while the books balance |
| Runs.PreparedStarts | service/src/session_obj.c:932-949 | after a prepare that returned success no start of that session is refused as not prepared, whatever comes in between, as long as the session connects nothing and the books balance |
| RunLaws.BooksCount | service/src/device.c:123-289 | while the books balance, a device's open count is the number of sessions with an AIF attached to it, its start count at least that of sessions with a started one, and it is closed if and only if no session uses it |
| RunLaws.HandleLaw | service/src/agm.c:489-544 | a call on a handle changes that session, each call by its own effect and set_config by its direction, and the devices; no other session |
| RunLaws.NoHandleLaw | service/src/agm.c:489-544 | a call on no session's handle changes nothing |
| RunLaws.IdLaw | service/src/agm.c:452-487 | a call by id changes the session of that id, which is created at the end of the list if missing, and no other; without memory for it, nothing |
| RunLaws.PlaybackLaw | service/src/session_obj.c:880-890 | the lookup of a loopback's playback session adds that session if it is missing, and nothing else |
| RunLaws.StartRuns | service/src/session_obj.c:916-958 | a client's start that returns success leaves every attached AIF of that session started, on started devices |
| Service.AgmService.GetSession | service/src/session_obj.c:303-348 | finds the session of this id or appends one; nothing else changes |
| Service.AgmService.Execute | service/src/agm.c:452-544 | code and new state of any call are those of Perform, from any state |
| Service.AgmService.Run | service/src/agm.c:452-544 | so are all codes and states of any sequence of calls |
| Faults.UnwoundOpenReported | service/src/session_obj.c:793-799 | every open whose first AIF connects and a later one does not reports success, with the AIFs still waiting, if the unwinding, graph_close and the edges succeed |
| Faults.LiveConnectUndone | service/src/session_obj.c:1610-1611 | a live connect whose device cannot be prepared leaves the AIF connected to a device closed again |
| Faults.ConnectedAgain | service/src/session_obj.c:1516-1516 | a connect of a connected AIF opens its device once more |
| Faults.FailedOpenReportedAsSuccess | service/src/session_obj.c:779-799 | calls on a new session that end in such an open: it is open, both AIFs still wait, no device is open |
| Faults.ConnectedTwice | service/src/session_obj.c:1516-1516 | calls on a new session that open a device twice for one AIF |
| Faults.UndoneConnectStaysConnected | service/src/session_obj.c:1610-1611 | calls on a new session that leave an AIF connected to a closed device |
| Faults.SkippedDisconnectLeaks | service/src/session_obj.c:495-513 | calls on a new session that leave a device open behind a closed AIF |
| Faults.FailedEdgesLeaveDevicesOpen | service/src/session_obj.c:1661-1676 | calls on a new session that leave it closed with a connected AIF |
| FirstKeys.CloseGap | service/src/metadata.c:115-118 | the shifting loop takes out exactly element j of the first count elements |
| FirstKeys.RemoveLater | service/src/metadata.c:113-122 | the middle loop leaves the result of deduplicating unchanged and the elements behind the list untouched |
| FirstKeys.RemoveDup | service/src/metadata.c:105-156 | the loop nest ends, and leaves the deduplicated list in front |
| FirstKeys.DedupIsFirstOccurrences | service/src/metadata.c:105-156 | that list is the original without the elements whose key occurred before, in order |
| FirstKeys.DedupDistinct | service/src/metadata.c:105-156 | its keys are pairwise distinct |
| FirstKeys.DedupKeys | service/src/metadata.c:105-156 | it has the same set of keys, and only elements of the original |
| FirstKeys.DedupAppend | service/src/metadata.c:233-254 | deduplicating a concatenation: the second part contributes just the keys the first one lacks |
| Metadata.CopySources | service/src/metadata.c:229-252 | the offset pointers lay the sources out one after another; the property id is that of the last source there is |
| Metadata.RemoveDups | service/src/metadata.c:105-159 | all three lists end up deduplicated, each with its new count |
| Metadata.Merge | service/src/metadata.c:175-257 | nothing without memory, or else each list is the deduplicated concatenation over the sources that are not NULL |
| Metadata.NextStep | service/src/session_obj.c:148-157 | merging the session's metadata again with every further AIF changes nothing against one merge of session, AIF, device, AIF, device and so on |
| Metadata.SessionMergedMetadata | service/src/session_obj.c:141-160 | the fold is one merge over all AIFs; a failed allocation makes it start afresh with the AIFs after it |
| Metadata.MergedLaw | service/src/metadata.c:175-257 | each merged list is the first occurrences in the sources' lists one after another, with distinct keys, all from some source and none missing; the property id is that of the last source there is |
| Metadata.MergedProps | service/src/metadata.c:142-156 | the merged property values are distinct, and a value is among them if and only if some source has it |
| Metadata.MergedPoolLaw | service/src/session_obj.c:141-160 | the same for the session-wide fold: session, then each AIF and its device; the property id is the last AIF's device's |
| Metadata.LookupDedup | service/src/metadata.c:105-156 | removing duplicates changes the value of no key |
| Metadata.MergePriority | service/src/session_obj.c:148-157 | for any pool, and for graph and calibration keys alike, the first source that has a key decides its value: the session, then the AIFs in pool order, each before its device |
| Metadata.UpdateCal | service/src/metadata.c:161-173 | every key's value becomes that of the update's entry for it; order and keys stay |
| Metadata.LastMatchWins | service/src/metadata.c:166-172 | of several entries for a key the last one counts, and with none the value stays |
| Metadata.CalibrateThenMerge | service/src/session_obj.c:1308-1315 | updating the three sources and merging is the same as merging and then updating, for any update, repeated keys included |
| MetadataLayout.CopyInvertsLayout | service/src/metadata.c:43-72 | a buffer starts with the documented layout of a value if and only if it is as long as its own counts say and metadata_copy yields that value |
| MetadataLayout.CopyFields | service/src/metadata.c:59-72 | the byte offset of every count, key, value and property, as they depend on the counts before |
| MetadataLayout.RoundTrip | service/src/metadata.c:259-302 | copying an encoded value gives it back, whatever follows; encoding what was copied gives back the bytes |
| PcmRing.FrameOfByte | plugins/tinyalsa/src/agm_pcm_plugin.c:202-216 | a byte position within a frame converts back to that frame, as long as its bits fit 32-bit arithmetic |
| PcmRing.FrameSizes | plugins/tinyalsa/src/agm_pcm_plugin.c:159-171 | bytes per frame by format; a sample of 8 bits counts as one of 16 |
| PcmRing.UpdateExact | plugins/tinyalsa/src/agm_pcm_plugin.c:312-324 | after at most a ring of progress an update is right if and only if the cycle is the same, the floored offset has become smaller, or the boundary is one ring |
| PcmRing.UpdateTracks | plugins/tinyalsa/src/agm_pcm_plugin.c:312-324 | after at most a ring less a period hw_ptr is the true position floored to a period, and hw_ptr_base the start of its ring cycle, modulo the boundary |
| PcmRing.UpdateBoundTight | plugins/tinyalsa/src/agm_pcm_plugin.c:317-323 | one frame more of progress can go unnoticed |
| PcmRing.FollowTracks | plugins/tinyalsa/src/agm_pcm_plugin.c:297-329 | so it is after any number of such updates, across any number of wraps |
| PcmRing.FrameOfOffset | plugins/tinyalsa/src/agm_pcm_plugin.c:312-312 | any byte offset into a ring of at most 2^32 bits converts to the frame it lies in |
| PcmRing.Position.UpdateHwPtr | plugins/tinyalsa/src/agm_pcm_plugin.c:297-329 | succeeds exactly if one of ten reads does, and, from the byte offset read, keeps the pointers tracking the hardware |
| PcmRing.Position.constructor | plugins/tinyalsa/src/agm_pcm_plugin.c:656-674 | a new position tracks frame 0, with the boundary that the loop computes |
| PcmRing.ComputeBoundary | plugins/tinyalsa/src/agm_pcm_plugin.c:667-671 | the loop ends with the largest ring times a power of two that is at most 0x7fffffff less the ring (the ring itself if none is), without a 32-bit wrap |
| PcmRing.AvailIsRingLessQueued | plugins/tinyalsa/src/agm_pcm_plugin.c:565-586 | playback avail is the ring less the frames queued, modulo the boundary, if and only if at most a ring is queued; capture avail is the frames captured |
| PcmRing.AvailOfPositions | plugins/tinyalsa/src/agm_pcm_plugin.c:565-586 | the same in terms of absolute positions |
| PcmRing.Position.Poll | plugins/tinyalsa/src/agm_pcm_plugin.c:588-620 | POLLOUT, or POLLIN, exactly if the last known position leaves a full period, and a timeout otherwise; that position is read anew only if the one before leaves less than a period; and a reported period is really free, or captured |
| AgmList.ListInit | service/inc/agm_list.h:50-54 | an empty ring |
| AgmList.ListAddTail | service/inc/agm_list.h:56-62 | the ring of s becomes that of s + [x]; only the head, its neighbour and x are written, so other rings stay |
| AgmList.ListAddHead | service/inc/agm_list.h:64-70 | the ring of s becomes that of [x] + s, likewise |
| AgmList.ListRemove | service/inc/agm_list.h:72-76 | the ring of s becomes that of s without x; only the neighbours are written, so x keeps its links |
| AgmList.ForEach | service/inc/agm_list.h:39-40 | visits every element once, in order, and ends |
| AgmList.RemoveWhere | service/inc/agm_list.h:45-48 | so does the safe traversal while its body removes any of the visited nodes; the others remain, in order |
| AgmList.KeptOrder | service/inc/agm_list.h:45-48 | what remains are just the elements not removed, each in its place among them |
| GraphSelect.AddToList | service/src/graph.c:333-351 | a node for each default module in order; on success the list waits for exactly the given tags |
| GraphSelect.RecordAt | service/src/graph.c:500-502 | at the sum of the sizes of the records before it lies record i |
| GraphSelect.MatchTag | service/src/graph.c:437-455 | a waiting module of this tag is found, used up and taken off the ring, unless the record lists several modules |
| GraphSelect.MatchEither | service/src/graph.c:427-498 | the stream list is tried first and the endpoint list only without a match; the other list's ring is left as it was |
| GraphSelect.MatchEntry | service/src/graph.c:427-498 | a record is matched exactly if its tag is a default module's and occurs for the first time |
| GraphSelect.SelectModules | service/src/graph.c:426-503 | the cursor is the sum of the record sizes and ends at the end of the buffer, and the modules are those of the first occurrences, with the ids the code reads there; the walk gives up if and only if some default tag's first record lists several modules |
| GraphSelect.SelectedPicks | service/src/graph.c:437-496 | the picked modules come from records in increasing order, each the first of its tag, with that record's first module and instance id, and are endpoint modules if and only if the tag is an endpoint's |
| GraphSelect.SingleExactly | service/src/graph.c:438-441 | the walk goes on exactly while no first record of a default tag lists several modules |
| GraphSelect.SelectedTags | service/src/graph.c:426-503 | a module is added exactly when its tag occurs, and at most once |
| Compress.Stream.SetParams | plugins/tinyalsa/src/agm_compress_plugin.c:466-475 | playback starts with the whole buffer available, capture with nothing |
| Compress.Stream.WriteDone | plugins/tinyalsa/src/agm_compress_plugin.c:130-147 | one fragment more is available and one fewer outstanding; the poller is not woken while available is below 0 or above the total |
| Compress.Stream.ReadDone | plugins/tinyalsa/src/agm_compress_plugin.c:148-151 | one fragment more is available and received |
| Compress.Stream.Write | plugins/tinyalsa/src/agm_compress_plugin.c:171-222 | code and new state are those of AfterWrite, with signals arriving before the accounting too |
| Compress.Stream.Read | plugins/tinyalsa/src/agm_compress_plugin.c:224-259 | code and new state are those of AfterRead, likewise |
| Compress.Stream.Stop | plugins/tinyalsa/src/agm_compress_plugin.c:508-540 | after a stop everything is available, nothing copied or outstanding; a failed one changes nothing |
| Compress.Stream.RunPlayback | plugins/tinyalsa/src/agm_compress_plugin.c:130-222 | the answers and the final state of any run of writes, signals and stops are those of Play |
| Compress.WriteAnswers | plugins/tinyalsa/src/agm_compress_plugin.c:183-222 | a write is refused above the total, fails with prepare or write, and otherwise returns what AGM accepted or an overrun; copied grows by what is returned |
| Compress.PlayCopied | plugins/tinyalsa/src/agm_compress_plugin.c:216-217 | along a run every write has its answer, and without a stop copied grows by the sum of the bytes returned |
| Compress.CopiedSinceStop | plugins/tinyalsa/src/agm_compress_plugin.c:535-537 | since the last stop, copied is the sum of the bytes the writes have returned |
| Compress.PlayBalances | plugins/tinyalsa/src/agm_compress_plugin.c:207-208 | along every run, whatever AGM does, available is total less fragment times outstanding fragments |
| Compress.PlayOverruns | plugins/tinyalsa/src/agm_compress_plugin.c:209-213 | a run has an overrun if and only if at some step AGM took more fragments than were free |
| Compress.PlayWithin | plugins/tinyalsa/src/agm_compress_plugin.c:130-222 | available stays between nothing and the whole buffer all along a run if and only if AGM, at every step, takes at most the free fragments and signals only what it holds; and then no write overruns |
| Compress.Stream.RunCapture | plugins/tinyalsa/src/agm_compress_plugin.c:224-259 | the answers and the final state of any run of reads and signals are those of Record |
| Compress.RecordAccounts | plugins/tinyalsa/src/agm_compress_plugin.c:245-252 | along every capture run available is a multiple of the fragment and what was received less what was taken; the rounded-up subtraction never makes it negative if and only if no read takes more than there is, in particular if AGM delivers no more than it is asked for |
| Compress.ReadAnswers | plugins/tinyalsa/src/agm_compress_plugin.c:234-258 | a read is refused if it asks for more than is available, fails without a change, or returns what was delivered |
| Compress.RecordCounts | plugins/tinyalsa/src/agm_compress_plugin.c:148-151 | along a run consumed grows by the bytes returned and received by one fragment for each signal |
| Compress.FragmentsWithin | plugins/tinyalsa/src/agm_compress_plugin.c:203-208 | the rounded-up fragment count fits n fragments exactly if the bytes do |
| Drain.ReachedInv | plugins/tinyalsa/src/agm_compress_plugin.c:568-597 | every interleaving of a drainer with callbacks, stop and close keeps the handshake's invariant |
| Drain.EosMeansWaiting | plugins/tinyalsa/src/agm_compress_plugin.c:584-594 | with the lock free, eos holds exactly if the drainer is blocked in its wait or a failed EOS command left it set; no drain is signalled twice, and before a failure no signal is lost |
| Drain.StepLoses | plugins/tinyalsa/src/agm_compress_plugin.c:155-158 | a step loses a signal exactly if it signals while eos is left over from a failed EOS command |
| Drain.LostExactly | plugins/tinyalsa/src/agm_compress_plugin.c:584-594 | in every interleaving the lost signals are exactly those sent after a failed EOS command and before the next wait or clear |
| Drain.NextOtherWakes | plugins/tinyalsa/src/agm_compress_plugin.c:152-159 | once the drainer waits, the next callback or stop wakes it |
| Drain.WokenLeaves | plugins/tinyalsa/src/agm_compress_plugin.c:592-594 | a woken drainer got one signal, and with the lock free it can leave |
| Drain.FailedEosGoesStale | plugins/tinyalsa/src/agm_compress_plugin.c:587-591 | a concrete failed EOS command after which eos is set with nobody waiting and the next signal is lost |

## Left out

- The DBus, HwBinder and SwBinder layers: marshalling over libraries that are not part of the repository.
- GSL, tinyalsa, ACDB, sysfs and `/proc/asound`: their answers are arbitrary booleans.
- Module payloads, channel maps, mixer controls and the XML parsers: finite tables and forwarding.
- Service.AgmService.Execute: an AIF id must be that of a device. For an id above the number of devices aif_obj_create returns an AIF without a device (service/src/session_obj.c:76-86) that later calls dereference; the id equal to that number passes the guard in device_get_obj, which is `>` and not `>=`, and the code reads behind the device list (service/src/device.c:317-327). Neither is modelled. A handle is the place of its session, and a handle that belongs to none is answered with -EINVAL.
- Service.AgmService.Run: each call is one atomic step, as the session and device locks intend; interleavings within a call are not modelled.
- Sessions.Session.Start: whether loopback and echo reference let a capture start, and the answer if not, is part of the arbitrary answers and not tied to the playback session's state. That the lookup of the playback session may create it is in Runs.Perform, for every start, open and connect, with its id arbitrary.
- Calls that cache parameters and metadata: of these only the creation of a session or an AIF object is modelled (CGetSession, CGetAif).
- Sessions.Session.ConnectAif: the graph handle and the contents of cached parameters are not modelled, only whether a graph call fails. The unlock of the device mutex in the place of a lock (service/src/session_obj.c:677) has no counterpart here.
- Sessions.Session.Prepare: return codes are one constructor per cause; what the graph functions return is just GraphError.
- Devices.Device.Open: reference counts are unbounded integers; the source's `int` could overflow after 2^31 opens.
- Sessions.Session.GetAif: the AIF pool is a sequence in a field; the linked ring itself is modelled apart, in `agm_list.dfy`.
- Metadata.Merge: sources are values and their counts unbounded; the three allocations are one arbitrary answer, and an allocation of size zero that returns NULL is such a failure.
- Metadata.SessionMergedMetadata: freeing the intermediate results is not modelled.
- MetadataLayout.RoundTrip: words are little-endian; the allocations of metadata_copy always succeed, and its `size` argument is left out because the code does not use it, so a buffer shorter than its own counts is outside the contract.
- PcmRing.ComputeBoundary: requires a ring of 1 to 0x7fffffff frames; for an empty or a larger ring the loop would not end.
- PcmRing.Position.UpdateHwPtr: a successful read of the shared position is a consistent sample; how the two reads of the frame counter secure that against the DSP is not modelled, nor are the time stamps. Successful reads within one update are at the same position.
- PcmRing.Position.constructor: rings of at most 0x2aaaaaaa frames and 2^32 bits; above, the boundary is a single ring or the conversion overflows.
- PcmRing.Position.Poll: assumes 64-bit `long`, and that neither side runs further ahead than the boundary leaves room for.
- GraphSelect.SelectModules: the record layout of GSL is not part of this model; a record is taken as two words and two more for each module. A record without any module is taken with the ids the code then reads, which are the next record's first words; only as the last record, where the code reads behind the buffer, a default module's tag without a module is excluded. Allocating the copied key vectors always succeeds.
- GraphSelect.MatchEither: both a session and a device are given.
- Compress.Stream.Write: sizes are unbounded integers. A signal that finds the total exceeded returns without waking the poller, and so does one that arrives while available is below zero, because a negative number is compared as an unsigned one; both show in WriteDone and are not repaired.
- Compress.Stream.RunCapture: a stop resets capture to the full buffer as well, though nothing was received, so the runs have none.
- Drain.EosMeansWaiting: one drainer at a time, and no spurious wake-ups, against which the code has no loop. After a failed EOS command eos stays set, and the claim says so.
- The partial drain, next track and metadata calls of compressed streams, and the sync_ptr calls of the PCM plugin: they forward, or repeat the arithmetic above.
