# Samsung hardware HALs: a Dafny model

This project models the parts of the Samsung hardware repository whose state is hard to keep right by hand, and
proves what they keep over every run:

- the audio HAL's routing engine, echo-reference hand-off, capture path and compress-offload playback;
- the RIL daemon's event loop (linked timer lists, watch table, self-pipe), its pending request lists and its
  counted wake lock;
- the interaction boost handler of the power HAL;
- the DTBH image writer and reader;
- the throttling severity of the thermal HAL and the lockout of the fingerprint HAL.

Most modules have two layers. A value layer gives the state, one function per step and the theorems over every
sequence of steps, that is over every interleaving of the threads involved, where a region under a lock is one
step. A class then holds the source's own fields and changes them as the source does; each of its methods is
proved to perform exactly one step of the value layer, so the theorems are about the code's own fields.

Clocks, drivers, `select`, device lookups and whether an open succeeds are inputs of the steps.

| file | models |
|---|---|
| Routing.dfy, RoutingRuns.dfy, RoutingDevices.dfy, AudioDevice.dfy | usecases, sound devices, routes and reference counts |
| EchoReference.dfy | who owns an echo reference |
| Capture.dfy | reads of any size cut from whole driver periods |
| Offload.dfy | the compress handle, its worker thread and the output path |
| OffloadLocks.dfy | how its threads take the stream and the device lock and wait for the worker |
| Timers.dfy, EventLists.dfy | the timer queue and the linked lists that hold it |
| WatchTable.dfy | watched descriptors with cached fd_set and bound |
| WakeupPipe.dfy | adders, the pipe and the event loop, interleaved |
| PendingRequests.dfy | outstanding requests per SIM slot |
| WakeLock.dfy | the counted wake lock and its timers |
| Interaction.dfy | the interaction boost |
| Dtbh.dfy, DtbhImage.dfy | DTBH layout, bytes and round trip |
| Thermal.dfy | thresholds with hysteresis |
| Lockout.dfy | failed attempts, timed and permanent lockout |
| Options.dfy | a value that may be missing |

Where the code does not do what one would expect of it, the model keeps the code's behaviour and states exactly
when the expectation holds:

- `out_set_offload_parameters` can split the playback backend (`RoutingRuns.OffloadParametersSplit`);
- an echo reference is released twice as soon as a second PCM output exists (`EchoReference.OwnershipExactly`);
- after a write, resume, standby or flush in the wrong place the offload path can be enabled twice or disabled while
  missing, more places being wrong without the effects library (`Offload.TameExactly`); a standby can deadlock with
  other calls (`OffloadLocks.DeadlockExactly`), and a standby or flush can sleep on after the worker is done
  (`OffloadLocks.StrandedExactly`);
- a descriptor watched twice is lost from the fd_set when one watch is removed (`WatchTable.RemovedSet`), and one of
  the two watches can be left out of a fire (`WatchTable.FireLeaves`);
- a wake-lock grab without memory drops a lock others hold (`WakeLock.StepKeepsExactly`), and a grab that comes
  while a timer's callback is starting is cut short (`WakeLock.DropsItsOwnGrab`);
- interaction durations below minus the offset get the longest boost (`Interaction.FinalDurationExactly`);
- DTBH tables with more entries than a bound record wrong blob offsets (`Dtbh.StartsAgreeExactly`), with still more
  they overrun the reader's buffer (`DtbhImage.NoOverrunExactly`), and the entry
  comparator is wrong for values far apart (`DtbhImage.EntryCmpExactly`);
- a falling thermal severity can end below the raw one (`Thermal.BelowRawExactly`);
- a timed lockout can be cleared early (`Lockout.ClearedEarlyExactly`), or not at all by the thread that should clear
  it (`Lockout.ThreadClearsExactly`).

## Model

| member | source | states |
|---|---|---|
| Routing.HoldersUpdate | audio/audio_hw.c:1035-1110 | changing one usecase's fields changes a device's holders by exactly the difference of its shares |
| Routing.DropCounts | audio/audio_hw.c:893-940 | disabling the device in one field makes the counts right for the list without that field |
| Routing.TakeCounts | audio/audio_hw.c:837-891 | enabling a device makes the counts right for the list with it in that field |
| Routing.DisableRoutes | audio/audio_hw.c:893-940 | the rx-cycling re-apply leaves applied exactly the routes of held devices when the first playback usecase's device is held |
| Routing.EnableRoutes | audio/audio_hw.c:837-891 | enabling keeps route applied iff count positive |
| Routing.MoveKeeps | audio/audio_hw.c:980-1001 | moving one usecase off its device conserves counts and routes in the middle of a switch |
| Routing.RouteKeeps | audio/audio_hw.c:943-1002 | re-routing conserves counts and routes, moves every usecase sharing the backend and nothing else |
| Routing.DropKeeps | audio/audio_hw.c:1084-1107 | giving up a device in the middle of a switch conserves counts and routes |
| Routing.TakeKeeps | audio/audio_hw.c:1084-1107 | taking a device in the middle of a switch conserves counts and routes |
| Routing.SwitchKeeps | audio/audio_hw.c:1035-1117 | a whole device switch keeps the invariant; all other playback usecases go to a new output device, all other capture usecases to a new input device, and every other field stays as it was |
| RoutingRuns.SwitchBackend | audio/audio_hw.c:943-1117 | on either side: a switch keeps playback on one output device, or capture on one input device |
| RoutingRuns.SelectKeeps | audio/audio_hw.c:1004-1117 | select_devices with its nested capture call keeps counts, routes, typing and the agreement on each side |
| RoutingRuns.StartKeeps | audio/audio_hw.c:2291-2313 | starting a usecase keeps all of it |
| RoutingRuns.StopKeeps | audio/audio_hw.c:1980-2011 | stopping a usecase keeps all of it |
| RoutingRuns.StopFrees | audio/audio_hw.c:2272-2289 | after a stop the usecase id is free again |
| RoutingRuns.LeaveComboKeeps | audio/compress_offload.c:241-257 | leaving the combo device for headphones keeps counts, routes and the agreement of input devices |
| RoutingRuns.OffloadParametersSplit | audio/compress_offload.c:241-257 | after out_set_offload_parameters playback is on one device iff the lookup does not pick headphones or no other playback usecase is active |
| RoutingRuns.SplitRun | audio/compress_offload.c:241-257 | a run of three calls after which two playback usecases are on different devices |
| RoutingRuns.StartedList | audio/audio_hw.c:2291-2313 | a playback usecase that starts takes the call's device or the one looked up and all other playback follows; nothing else moves unless the active capture is selected again |
| RoutingRuns.StepKeeps | audio/audio_hw.c:2380-2449 | every HAL call, call restart included, keeps the invariant and the agreement of input devices and, except the offload parameters, that of output devices |
| RoutingRuns.CountsAndRoutes | audio/audio_hw.c:837-1117 | over every run: a real device's count is the number of usecase fields that expand to it, and its route is applied iff that is positive |
| RoutingRuns.HeldIff | audio/audio_hw.c:837-891 | a device has holders iff some usecase field expands to it |
| RoutingRuns.BackendAgreement | audio/audio_hw.c:943-1110 | over every run without offload parameters: all active playback is on one device, the call's during a call |
| RoutingRuns.CaptureAgreement | audio/audio_hw.c:943-1110 | over every run: all active capture is on one input device, the call's during a call |
| RoutingRuns.QuietWhenEmpty | audio/audio_hw.c:2272-2289 | over every run: an empty usecase list means no count and no real route is left |
| RoutingDevices.SelectedDevices | audio/audio_hw.c:1004-1117 | the usecase selected ends on the devices it should have: a call on both as looked up; playback on the call's output device when a call has one, else the one looked up, and no input; capture likewise on the input side |
| RoutingDevices.OthersFollow | audio/audio_hw.c:1075-1110 | selecting a call or a capture usecase changes nothing if its devices stay the same; else playback goes to a new output device, capture to a new input device, and nothing else moves |
| RoutingDevices.PlaybackSelectsCapture | audio/audio_hw.c:1046-1060 | selecting playback outside a call re-selects the active capture for voice communication, on the device looked up for that, and otherwise changes no input device |
| RoutingDevices.StartedDevices | audio/audio_hw.c:2407-2449 | a usecase that starts is linked last, on the devices it should have, and in_call is set iff it was or a call starts |
| RoutingDevices.StoppedList | audio/audio_hw.c:2380-2405 | a stop takes out the usecase of that id and no other, in order, and clears in_call iff it is the call |
| RoutingDevices.RestartedCall | audio/audio_hw.c:2380-2449 | a restarted call is active and last in the list, on both devices as looked up |
| AudioDevices.AudioDevice.GetUsecaseFromId | audio/audio_hw.c:537-549 | finds the first usecase of an id or none |
| AudioDevices.AudioDevice.GetUsecaseFromType | audio/audio_hw.c:551-563 | finds the first usecase of the given kinds or none |
| AudioDevices.AudioDevice.EnableSndDevice | audio/audio_hw.c:837-891 | the in-place enable, combo recursion included, is the enable step on the board |
| AudioDevices.AudioDevice.DisableSndDevice | audio/audio_hw.c:893-940 | the in-place disable, with the rx re-apply, is the disable step on the board |
| AudioDevices.AudioDevice.CheckAndRouteUsecases | audio/audio_hw.c:943-1002 | marking first and moving afterwards equals moving one usecase at a time |
| AudioDevices.AudioDevice.SwitchDevices | audio/audio_hw.c:1062-1117 | the in-place switch is the switch step on the board |
| AudioDevices.AudioDevice.SelectDevices | audio/audio_hw.c:1004-1117 | the in-place select_devices is the select step, whose devices RoutingDevices.SelectedDevices gives, error for an unknown usecase included |
| AudioDevices.AudioDevice.StartUsecase | audio/audio_hw.c:2291-2313 | linking and selecting is the start step |
| AudioDevices.AudioDevice.StopUsecase | audio/audio_hw.c:1980-2011 | releasing and unlinking is the stop step |
| AudioDevices.AudioDevice.OutSetOffloadParameters | audio/compress_offload.c:241-257 | the in-place change is the leave-combo step |
| EchoReference.StepKeeps | audio/audio_hw.c:1304-1358 | every interleaved step keeps the ownership invariant |
| EchoReference.InvMeansOwned | audio/audio_hw.c:1304-1358 | the invariant rules out double release, use after release and lost references |
| EchoReference.RunningOutputHoldsTheReference | audio/audio_hw.c:2917-2932 | over every run with the primary output alone: a running output at the device's generation holds the device's reference |
| EchoReference.SecondOutputReleasesTwice | audio/audio_hw.c:2559-2570 | with a low-latency primary and a second output some run releases a reference twice |
| EchoReference.OwnershipExactly | audio/audio_hw.c:1304-1358 | ownership holds over every interleaving iff the primary is not low-latency or is the only PCM output |
| EchoReference.CaptureGetsReference | audio/audio_hw.c:1331-1358 | starting capture makes a reference iff the low-latency primary output runs and the making succeeds; capture and device then share it, and the generation changes iff the device's reference does |
| EchoReference.CaptureGivesUp | audio/audio_hw.c:1304-1329 | over every run with the primary output alone: ending capture gives the reference up and releases it at once iff the output is in standby or has not picked it up |
| EchoReference.WritePicksUp | audio/audio_hw.c:2917-2932 | a write looks for another reference iff the generations differ, then releases the one it has and takes the device's |
| EchoReference.OutputStartsAndStops | audio/audio_hw.c:2350-2355 | an output that starts takes the device's reference and generation; one that stops has none and releases its own iff the generations differ |
| EchoReference.EchoDevice.PutEchoReference | audio/audio_hw.c:1304-1329 | in place, the put step |
| EchoReference.EchoDevice.GetEchoReference | audio/audio_hw.c:1331-1358 | in place, the get step |
| EchoReference.EchoDevice.StartInputStream | audio/audio_hw.c:2013-2171 | in place, the capture start as far as echo references go |
| EchoReference.EchoDevice.DoInStandby | audio/audio_hw.c:3211-3245 | in place, the capture standby step |
| EchoReference.EchoDevice.StartOutputStream | audio/audio_hw.c:2350-2355 | in place, the output start step |
| EchoReference.EchoDevice.DoOutStandby | audio/audio_hw.c:2559-2570 | in place, the output standby step |
| EchoReference.EchoDevice.PickUp | audio/audio_hw.c:2917-2932 | in place, the pickup of a new reference inside a write |
| Capture.CutsOnce | audio/audio_hw.c:1917-1963 | the refinement relation fixes the outcome of every read |
| Capture.CutsNoFurther | audio/audio_hw.c:1851-1899 | no read goes to the driver more often than needed |
| Capture.CutsCompose | audio/audio_hw.c:1917-1963 | two reads in a row are one read of both sizes |
| Capture.CutsThenFails | audio/audio_hw.c:1917-1963 | a failing read after a successful one is a failing read of both sizes with the driver's status |
| Capture.ChainCuts | audio/audio_hw.c:1917-1963 | any number of reads are one read of the total size |
| Capture.EveryFrameOnce | audio/audio_hw.c:1827-1963 | for any read sizes the f-th frame returned is the f-th frame delivered, its main channels sample by sample in order and no other, with less than a period held back |
| Capture.StreamIn.GetNextBuffer | audio/audio_hw.c:1851-1899 | hands out the rest of the current period, reading a new one only when it is used up, or the driver's error, or -ENODEV without a device |
| Capture.StreamIn.ReleaseBuffer | audio/audio_hw.c:1901-1913 | takes the frames used off the front |
| Capture.StreamIn.ReadFrames | audio/audio_hw.c:1917-1963 | fills the buffer with the cut of the driver's frames; each round delivers a frame or ends |
| Capture.StreamIn.ReadAndProcessFrames | audio/audio_hw.c:1688-1849 | the same, keeping of each frame its leading main channels sample by sample; -EINVAL and nothing changed without a device |
| Capture.NothingToStrip | audio/audio_hw.c:1827-1846 | without additional channels cutting to the main channels changes nothing, so skipping it is right |
| Capture.StripKeepsLeading | audio/audio_hw.c:1827-1846 | of a frame with enough channels exactly the first main samples are left, each in its place |
| Capture.StripChannels | audio/audio_hw.c:1827-1846 | copies the leading main channels of every frame, sample by sample |
| Offload.HandleSafety | audio/compress_offload.c:84-169 | over every interleaving: the handle the worker uses is open, not closed and not replaced by any step; a handle is opened only where none is; a write outside standby finds one |
| Offload.CommandsInOrder | audio/compress_offload.c:60-169 | over every interleaving: commands are taken in the order sent, and none after the first EXIT |
| Offload.SentExactly | audio/compress_offload.c:259-383 | over every interleaving the commands sent are, in order, a wait for room per incomplete write on a started stream, a drain per drain call and an exit per destroy |
| Offload.NoHandleLeaks | audio/audio_hw.c:2332-2378 | over every interleaving every handle opened is closed or is the stream's |
| Offload.StateDiagram | audio/compress_offload.c:224-399 | what every call makes of the playback state, on a live stream and on one in standby |
| Offload.WaitsExactly | audio/compress_offload.c:73-82 | a standby waits iff it finds the stream live with the worker at its handle, a flush iff the stream is paused as well, each until its own end |
| Offload.WorkerTakes | audio/compress_offload.c:95-128 | the worker takes the first command; EXIT ends it and empties the queue, any other runs on the stream's handle iff the stream is live |
| Offload.TameKeepsInvariant | audio/compress_offload.c:224-399 | with the effects library or without, the steps that keep the invariant behind the agreement are the tame ones: no write while paused, no write, resume or standby into a waiting flush, no flush into a waiting standby and, without the library, no standby while paused |
| Offload.NotTameFaults | audio/compress_offload.c:224-399 | any other step, or some tame calls after it, enables the path twice or disables a missing one |
| Offload.TameExactly | audio/compress_offload.c:224-399 | with the library or without, a step from a state in agreement is tame iff neither it nor any tame calls after it enable the path twice or disable a missing one |
| Offload.PathAgreement | audio/audio_hw.c:2272-2330 | with the library or without, no run of tame calls enables the output path twice or disables a missing one |
| Offload.ResumeIntoFlush | audio/compress_offload.c:385-399 | a resume while flush waits leads to a path disabled while missing |
| Offload.FlushWindowIsReachable | audio/compress_offload.c:385-399 | that window is reached by allowed calls |
| Offload.WriteWhilePaused | audio/compress_offload.c:259-296 | from any agreeing PAUSED state a write and a pause disable a missing path |
| Offload.WriteWhilePausedRun | audio/compress_offload.c:259-296 | such a run from the start |
| Offload.StandbyWhilePausedWithoutEffects | audio/compress_offload.c:224-239 | without the effects library a standby of a live stream that has no path disables the missing path, at once or when it has waited |
| Offload.StandbyWhilePausedRun | audio/compress_offload.c:224-239 | such a run from the start |
| Offload.StreamOut.SendOffloadCmd | audio/compress_offload.c:60-71 | in place, appends a command |
| Offload.StreamOut.StartOutputStream | audio/audio_hw.c:2332-2378 | in place, the start step with its failure path |
| Offload.StreamOut.OutWrite | audio/compress_offload.c:259-296 | in place, the write step, whose command Offload.SentExactly gives |
| Offload.StreamOut.OutPause | audio/compress_offload.c:336-351 | in place, the pause step |
| Offload.StreamOut.OutResume | audio/compress_offload.c:353-369 | in place, the resume step |
| Offload.StreamOut.OutFlush | audio/compress_offload.c:385-399 | in place, the flush step up to where it waits |
| Offload.StreamOut.OutFlushEnd | audio/compress_offload.c:385-399 | in place, the rest of a flush that waited |
| Offload.StreamOut.OutStandby | audio/audio_hw.c:2552-2583 | in place, the standby step up to where it waits |
| Offload.StreamOut.FinishStandby | audio/audio_hw.c:2571-2583 | in place, closing and stopping |
| Offload.StreamOut.OutStandbyEnd | audio/audio_hw.c:2571-2583 | in place, the rest of a standby that waited |
| Offload.StreamOut.WorkerTake | audio/compress_offload.c:95-128 | in place, the worker takes one command, or exits and discards the rest |
| Offload.StreamOut.WorkerFinish | audio/compress_offload.c:151-157 | in place, the worker gives the handle up |
| OffloadLocks.RunKeepsExclusive | audio/audio_hw.c:2585-2600 | over every interleaving of lock operations each lock has at most one holder |
| OffloadLocks.CarriesOn | audio/compress_offload.c:73-82 | in every state but the two of DeadlockExactly some thread can carry on |
| OffloadLocks.CarryingOnEnds | audio/compress_offload.c:73-82 | every step that carries on something begun decreases a measure, so what has begun ends or comes to a deadlock |
| OffloadLocks.EmbraceLastsForever | audio/compress_offload.c:336-369 | once a waiting standby and a call hold one lock each, that never ends |
| OffloadLocks.DeadlockExactly | audio/compress_offload.c:73-82 | over every interleaving: nothing begun can carry on iff that holds and the compress call has returned, or all that has begun sleeps with the worker at rest |
| OffloadLocks.EmbraceBeginsExactly | audio/audio_hw.c:2847-2876 | over every interleaving: a step leads to the first iff a call that needs the device lock gets the stream lock while a standby waits |
| OffloadLocks.EmbraceIsReached | audio/compress_offload.c:353-369 | it is reached from the start |
| OffloadLocks.StrandedExactly | audio/compress_offload.c:151-154 | a step leaves a waiter asleep with nothing to wait for iff the worker finishes while two or more sleep |
| OffloadLocks.StrandedStays | audio/compress_offload.c:73-82 | such a waiter sleeps until the worker gets another command, a standby holding the device lock all the while |
| OffloadLocks.StrandedIsReached | audio/compress_offload.c:385-399 | a flush and a standby come to it from the start, and it is a deadlock |
| Timers.MacrosAreMicros | ril/libril/ril_event.cpp:158-238 | on normal values the timeval macros compute on microseconds |
| Timers.InsertKeepsSorted | ril/libril/ril_event.cpp:301-307 | inserting before the first deadline not earlier keeps the queue sorted |
| Timers.LeadingAreAll | ril/libril/ril_event.cpp:170-178 | in a sorted queue the leading expired timers are all the expired ones |
| Timers.QueueIsSorted | ril/libril/ril_event.cpp:286-312 | over every run the queue is sorted by deadline |
| Timers.TimersFireOnce | ril/libril/ril_event.cpp:158-213 | over every run the timers started are exactly those queued and those fired, each as often as started |
| Timers.NeverEarly | ril/libril/ril_event.cpp:158-180 | over every run nothing fires at or before its deadline |
| Timers.RoundFiresExactlyTheExpired | ril/libril/ril_event.cpp:158-180 | after every run a round fires every timer whose deadline has passed, in deadline order, and leaves the others in order |
| Timers.RoundUnfolds | ril/libril/ril_event.cpp:170-178 | a round is the repeated move of the first expired timer |
| Timers.SleepEndsAtTheEarliestDeadline | ril/libril/ril_event.cpp:215-238 | after every run the sleep computed ends at the first deadline, not after any queued one, and is zero if one has passed |
| EventLists.InitList | ril/libril/ril_event.cpp:104-110 | an empty ring |
| EventLists.AddToList | ril/libril/ril_event.cpp:112-119 | splicing before a node gives the ring with the new node at that position |
| EventLists.RemoveFromList | ril/libril/ril_event.cpp:121-131 | unlinking gives the ring without the node, whose links are cleared |
| EventLists.FindPlace | ril/libril/ril_event.cpp:301-306 | stops at the first node whose deadline is not earlier, or the sentinel |
| EventLists.EventLoop.RilTimerAdd | ril/libril/ril_event.cpp:286-312 | the linked lists stay well-formed and disjoint, and the queue they hold has the timer inserted at now plus the delay |
| EventLists.EventLoop.ProcessTimeouts | ril/libril/ril_event.cpp:158-180 | the linked lists stay well-formed and disjoint, the queue takes one round, and the nodes moved follow those pending, in order |
| EventLists.EventLoop.FirePending | ril/libril/ril_event.cpp:202-213 | every pending event is called once, in list order, and the list is left empty |
| EventLists.EventLoop.CalcNextTimeout | ril/libril/ril_event.cpp:215-238 | no timeout iff there are no timers, else the time to the first deadline, not below zero |
| WatchTable.AddKeeps | ril/libril/ril_event.cpp:265-283 | adding keeps fd_set and bound in agreement with the table, also when it is full |
| WatchTable.RemovedSet | ril/libril/ril_event.cpp:134-140 | after a removal the fd_set is exactly the watched descriptors iff no other slot watches the same one |
| WatchTable.DuplicateWatchLost | ril/libril/ril_event.cpp:134-140 | a descriptor watched twice drops out of the fd_set when one watch is removed |
| WatchTable.RemovedBound | ril/libril/ril_event.cpp:142-154 | recomputing the bound only when needed leaves it one above the largest descriptor |
| WatchTable.RemoveKeeps | ril/libril/ril_event.cpp:134-156 | removing keeps fd_set and bound in agreement, for distinct descriptors |
| WatchTable.FireKeeps | ril/libril/ril_event.cpp:182-200 | firing keeps fd_set and bound in agreement, for distinct descriptors |
| WatchTable.FireLeaves | ril/libril/ril_event.cpp:182-200 | firing n empties exactly the slots that are ready, not persistent and have fewer than n ready slots before them, whatever the descriptors |
| WatchTable.AllReadyFire | ril/libril/ril_event.cpp:187-196 | with distinct descriptors the countdown of ready descriptors leaves no ready slot out |
| WatchTable.SecondWatchLeftOut | ril/libril/ril_event.cpp:187-196 | of two slots ready for one descriptor only the first fires |
| WatchTable.QueuedExactly | ril/libril/ril_event.cpp:187-196 | a slot that fires is queued after exactly the ready slots before it, and no other is |
| WatchTable.CacheAgrees | ril/libril/ril_event.cpp:134-329 | over every run with distinct descriptors: fd_set is exactly what is watched and nfds is the largest plus one whenever something is |
| WatchTable.EventTable.RilEventAdd | ril/libril/ril_event.cpp:265-283 | in place, the add step; every watched event's index names its slot; the event is watched iff a slot was free |
| WatchTable.EventTable.RemoveWatch | ril/libril/ril_event.cpp:134-156 | in place, the remove step; the event's index becomes -1 |
| WatchTable.EventTable.RilEventDel | ril/libril/ril_event.cpp:315-329 | in place, removes the event iff it is in the table |
| WatchTable.EventTable.ProcessReadReadies | ril/libril/ril_event.cpp:182-200 | in place, queues the first n watched events with ready descriptors, in slot order, and removes those not persistent |
| WakeupPipe.EarliestExists | ril/libril/ril_event.cpp:215-238 | a queue with timers has an earliest deadline |
| WakeupPipe.RunKeeps | ril/libril/ril_event.cpp:345-384 | over every interleaving: the sleeping loop covers every timer and watch, or the pipe is readable, or an adder has yet to write |
| WakeupPipe.NoLostWakeup | ril/libril/ril.cpp:276-307 | over every interleaving: if the loop sleeps past a queued deadline or without a watched descriptor, the pipe is readable or an adder is between linking and writing |
| WakeupPipe.OverdueTimerWakes | ril/libril/ril.cpp:923-954 | over every interleaving: with a deadline reached, select may return at once or after one write already under way |
| WakeupPipe.PipeGrowsWhileAsleep | ril/libril/ril.cpp:297-307 | outside callbacks the pipe is only filled |
| WakeupPipe.LoopReachesSelect | ril/libril/ril_event.cpp:353-367 | the loop can always go on to a select that sleeps past no queued deadline |
| WakeupPipe.LinkedStays | ril/libril/ril.cpp:923-954 | over every interleaving: a timer linked is queued until a round later than its deadline |
| WakeupPipe.RoundTakesThePassed | ril/libril/ril_event.cpp:158-180 | over every interleaving: a round takes exactly the timers whose deadline has passed |
| WakeupPipe.WatchStays | ril/libril/ril_event.cpp:265-283 | over every interleaving: a descriptor linked is watched until it is taken off |
| WakeupPipe.RoundEmptiesPipe | ril/libril/ril.cpp:297-307 | over every interleaving: a round that select began with the pipe readable empties it before it is done |
| PendingRequests.SlotsAreSeparate | ril/libril/ril.cpp:535-590 | a step changes only the list of the request's own slot, and as that list alone says |
| PendingRequests.ListsInOrder | ril/libril/ril.cpp:213-274 | over every run each list holds only requests of its slot, newest first |
| PendingRequests.ListedIffOutstanding | ril/libril/ril.cpp:535-590 | over every run a request is listed iff it was added and has not completed; acks change no list |
| PendingRequests.AckedExactly | ril/libril/ril.cpp:572-580 | over every run the ack flag is set iff an ack came while the request was outstanding |
| PendingRequests.AnsweredExactlyOnce | ril/libril/ril.cpp:625-682 | over every run a completed request gets exactly one response unless local or cancelled, ACK_EXP iff acked and version at least 13, and no other request gets any |
| PendingRequests.GrabPerExpectedAck | ril/libril/ril.cpp:655-664 | over every run the wake lock is grabbed once per ACK_EXP response |
| PendingRequests.AcknowledgedExactly | ril/libril/ril.cpp:592-624 | over every run a request is acknowledged once per ack that came while it was outstanding, and never if cancelled |
| PendingRequests.SlotsOfTheirOwn | ril/libril/ril.cpp:213-240 | each SIM of the build has a list of its own; any other socket id uses that of the first |
| PendingRequests.DroppedAt | ril/libril/ril.cpp:568-586 | dropping a request is cutting it out at its position |
| PendingRequests.Find | ril/libril/ril.cpp:568-573 | the pointer walk finds the request and the link to it iff it is listed |
| PendingRequests.ChainCut | ril/libril/ril.cpp:581-583 | redirecting one link leaves the chain without that node |
| PendingRequests.Pending.AddRequestToList | ril/libril/ril.cpp:213-274 | in place, the add step with a new request |
| PendingRequests.Pending.Unlink | ril/libril/ril.cpp:581-583 | in place, the list without the request; other slots' chains unchanged |
| PendingRequests.Pending.CheckAndDequeue | ril/libril/ril.cpp:535-590 | acks or unlinks iff the request is listed, nothing for a null or unknown token |
| PendingRequests.Pending.OnRequestAck | ril/libril/ril.cpp:592-624 | in place, the ack step |
| PendingRequests.Pending.OnRequestComplete | ril/libril/ril.cpp:625-682 | in place, the completion step |
| WakeLock.TimersKeep | ril/libril/ril.cpp:684-755 | every step keeps the last recorded timer the only uncancelled one, and recorded timers allocated |
| WakeLock.StepKeepsExactly | ril/libril/ril.cpp:684-708 | a step keeps the lock sound iff it is not a grab without memory while the count is positive |
| WakeLock.GrabWithoutMemoryDrops | ril/libril/ril.cpp:692-695 | a run from the start in which a grab without memory drops the lock under another grab |
| WakeLock.RunKeeps | ril/libril/ril.cpp:363-377 | over every interleaving, callbacks split in three: lock held iff count positive, and while held the last timer will drop it |
| WakeLock.HeldUntilNewestTimer | ril/libril/ril.cpp:684-755 | over every interleaving: while held, the one live timer is that of the most recent grab |
| WakeLock.NewestTimerDrops | ril/libril/ril.cpp:734-755 | over every interleaving: once the callback of the most recent grab's timer has run the lock is free |
| WakeLock.DropsItsOwnGrab | ril/libril/ril.cpp:363-377 | over every interleaving: an uncancelled callback drops its own grab's lock iff no grab came since its flag was read |
| WakeLock.NewerGrabCutShort | ril/libril/ril.cpp:363-377 | a run in which it drops a newer grab's lock |
| WakeLock.CountIsOwed | ril/libril/ril.cpp:684-755 | over every interleaving the count is the grabs not yet given back: one more per grab, one less per release, none after an uncancelled callback |
| WakeLock.ReleaseGivesBackOne | ril/libril/ril.cpp:710-731 | over every run: a release frees the lock and calls off its timer iff at most one grab is owed, and else leaves both |
| WakeLock.OneReleaseOfTwo | ril/libril/ril.cpp:717-719 | after two grabs and a release the lock is held, with count one and the newer timer set |
| WakeLock.WakeLockState.GrabPartialWakeLock | ril/libril/ril.cpp:684-708 | in place, the grab step, with and without memory |
| WakeLock.WakeLockState.ReleaseWakeLock | ril/libril/ril.cpp:710-731 | in place, the release step |
| WakeLock.WakeLockState.UserTimerBegin | ril/libril/ril.cpp:363-368 | in place, the flag is read |
| WakeLock.WakeLockState.WakeTimeoutCallback | ril/libril/ril.cpp:737-755 | in place, the callback step |
| WakeLock.WakeLockState.UserTimerFinish | ril/libril/ril.cpp:371-377 | in place, the record of the last timer is cleared iff it is this one |
| Interaction.FinalDurationExactly | aidl/power-libperfmgr/InteractionHandler.cpp:152-159 | the boost is duration plus offset between the limits, the minimum below and the maximum above, iff the duration is at least minus the offset, or the limits coincide; below that it is the maximum |
| Interaction.NegativeDurationGetsMaximum | aidl/power-libperfmgr/InteractionHandler.cpp:55-60 | such a duration with the default properties |
| Interaction.ElapsedWithinAMillisecond | aidl/power-libperfmgr/InteractionHandler.cpp:62-67 | elapsed time is not negative and off by less than a millisecond, rounded up iff the nanoseconds wrapped |
| Interaction.RunKeeps | aidl/power-libperfmgr/InteractionHandler.cpp:147-216 | every interleaving keeps mode, worker, token and hint in step |
| Interaction.HintFollowsMode | aidl/power-libperfmgr/InteractionHandler.cpp:131-145 | over every interleaving: the hint is held iff the mode is INTERACTION or WAITING, and PerfLock and PerfRel alternate |
| Interaction.WaitsBeginDrained | aidl/power-libperfmgr/InteractionHandler.cpp:211-216 | over every interleaving: a wait begins without token, and then holds one iff an Acquire was accepted since |
| Interaction.ReleaseEndsBoostExactly | aidl/power-libperfmgr/InteractionHandler.cpp:195-209 | over every interleaving: a release ends the boost iff no Acquire was accepted since the wait began, and leaves the eventfd drained |
| Interaction.RecordedEndIsLatestAsked | aidl/power-libperfmgr/InteractionHandler.cpp:170-183 | over every interleaving: the end recorded for the boost is the latest asked for by any Acquire since it began, skipped ones included |
| Interaction.ReadyExactly | aidl/power-libperfmgr/InteractionHandler.cpp:91-113 | over every interleaving: the handler is ready iff it has been initialized |
| Interaction.AcquireBoostsExactly | aidl/power-libperfmgr/InteractionHandler.cpp:164-191 | over every interleaving: after an Acquire there is a boost iff there was one or the handler is initialized and has display-idle support; PerfLock is called iff it is new |
| Interaction.InteractionHandler.Init | aidl/power-libperfmgr/InteractionHandler.cpp:91-113 | in place, initializes once, and only if the nodes open |
| Interaction.InteractionHandler.Acquire | aidl/power-libperfmgr/InteractionHandler.cpp:147-193 | in place, the acquire step; the direct hint is given iff the handler is not initialized or has no display-idle support |
| Interaction.InteractionHandler.BeginWait | aidl/power-libperfmgr/InteractionHandler.cpp:268-273 | in place, the start of a wait |
| Interaction.InteractionHandler.Release | aidl/power-libperfmgr/InteractionHandler.cpp:195-209 | in place, the release step |
| Dtbh.RoundUp | dtbhtool/dtbimg.c:259-259 | the least multiple of the page size not below the argument |
| Dtbh.HeaderSumClosed | dtbhtool/dtbimg.c:248-258 | the accumulated header is 16 + 16n(n+1) bytes |
| Dtbh.WritesStayInside | dtbhtool/dtbimg.c:281-306 | for every count the blobs are written no later than recorded, so inside the allocation |
| Dtbh.StartsAgreeExactly | dtbhtool/dtbimg.c:258-301 | recorded and written start agree iff ceil((16+16n(n+1))/P) = floor((12+32n)/P) + 1 |
| Dtbh.SmallTablesAgree | dtbhtool/dtbimg.c:258-301 | they agree while the accumulated header fits one page, which then holds all entries |
| Dtbh.ElevenEntriesDisagree | dtbhtool/unpackdtbhimg.c:27-27 | with the default page size eleven entries disagree by a page |
| DtbhImage.PutEntry | dtbhtool/dtbimg.c:293-298 | the 32 bytes written decode to the entry, others are unchanged |
| DtbhImage.WriteEntries | dtbhtool/dtbimg.c:293-298 | every entry can be read at its place |
| DtbhImage.WriteBlobs | dtbhtool/dtbimg.c:303-306 | every blob lies at its place, zero-padded to pages, and nothing before is changed |
| DtbhImage.Measure | dtbhtool/dtbimg.c:229-259 | the sizes accumulated over the blobs |
| DtbhImage.LoadDtbhBlock | dtbhtool/dtbimg.c:253-310 | every store is in bounds; the image holds header, entries and padded blobs; no image without blobs |
| DtbhImage.Unpack | dtbhtool/unpackdtbhimg.c:134-169 | one dump per announced entry, with the bytes its offset and size denote, or an overrun when it lies past the header page; fails on a short file |
| DtbhImage.NoOverrunExactly | dtbhtool/unpackdtbhimg.c:134-151 | every announced entry is read from the image iff the entries end within the page |
| DtbhImage.SixtyFourEntriesOverrun | dtbhtool/unpackdtbhimg.c:27-27 | with the default page size an image as written overruns the reader's header buffer iff it has 64 entries or more |
| DtbhImage.EntryLeadsToBlob | dtbhtool/unpackdtbhimg.c:149-158 | whenever the starts agree every entry read back leads to its own padded blob |
| DtbhImage.EntryCarries | dtbhtool/dtbimg.c:237-243 | an entry has its file's chip, first and last revision, each in its field, the codes and delimiter, and the padded size |
| DtbhImage.HeaderBytes | dtbhtool/dtbimg.c:287-289 | the image begins with DTBH, then version two and the count, low byte first |
| DtbhImage.RoundTrip | dtbhtool/dtbimg.c:229-310 | writing and reading back restores every entry field by field and every blob followed by zeros only when 16+16n(n+1) <= P |
| DtbhImage.OneBlobFits | dtbhtool/unpackdtbhimg.c:27-27 | any single blob of up to a gigabyte meets what RoundTrip asks, with the default page size |
| DtbhImage.EntryCmpExactly | dtbhtool/dtbimg.c:60-68 | the comparator orders two entries by chip and then revision iff the difference that decides fits a signed 32-bit int |
| DtbhImage.FarChipsMisordered | dtbhtool/dtbimg.c:60-68 | two chips 2^31 apart that each compare below the other |
| Thermal.GetSeverityFromThresholds | aidl/thermal/thermal-helper.cpp:469-508 | the downward loop gives the next hot severity, and for cold that of the mirrored levels |
| Thermal.LevelsApart | aidl/thermal/utils/thermal_info.cpp:678-694 | the overlap check on neighbours separates any two levels by the hysteresis of the higher |
| Thermal.ThresholdsIncrease | aidl/thermal/utils/thermal_info.cpp:639-654 | accepts iff the thresholds present increase from the floor |
| Thermal.NoOverlap | aidl/thermal/utils/thermal_info.cpp:678-694 | accepts iff no threshold lies above the next one present less its hysteresis |
| Thermal.DropsOnlyBelowHysteresis | aidl/thermal/thermal-helper.cpp:500-502 | for any configuration a severity is left downward only at or below its threshold less hysteresis |
| Thermal.NeverOvershoots | aidl/thermal/thermal-helper.cpp:469-508 | for an accepted configuration a reading gives at most the old severity or exactly the raw one |
| Thermal.StaysExactly | aidl/thermal/thermal-helper.cpp:469-508 | a severity stays iff no higher one is reached and its own is reached or kept |
| Thermal.FallsExactly | aidl/thermal/thermal-helper.cpp:469-508 | it falls iff none from it up is reached and its own is not kept |
| Thermal.FollowsExactly | aidl/thermal/thermal-helper.cpp:469-508 | for any configuration: a reading that reaches the old severity or a higher one gives the highest reached, any other the highest kept |
| Thermal.BelowRawExactly | aidl/thermal/thermal-helper.cpp:482-502 | for any configuration a reading ends below the raw severity iff it falls to there and nothing from the raw severity up is kept |
| Thermal.BelowRawOnThreshold | aidl/thermal/thermal-helper.cpp:482-502 | in an accepted configuration without negative hysteresis that is iff the reading equals the raw threshold and that has no hysteresis |
| Thermal.NegativeHysteresisFallsFurther | aidl/thermal/utils/thermal_info.cpp:658-676 | an accepted configuration with negative hysteresis in which another reading does it |
| Thermal.SteadyInBand | aidl/thermal/thermal-helper.cpp:1046-1074 | over every run: readings inside the band of the severity reached leave it unchanged |
| Thermal.FallsOnlyBelowHysteresis | aidl/thermal/thermal-helper.cpp:1046-1074 | over every run: severity k is left downward only at or below threshold[k] - hysteresis[k] |
| Thermal.ColdMirrorsHot | aidl/thermal/utils/thermal_info.cpp:703-758 | cold levels are accepted iff the mirrored levels are accepted as hot |
| Thermal.ColdRunMirrors | aidl/thermal/thermal-helper.cpp:490-505 | a run on the cold side is the run of negated readings on mirrored levels |
| Thermal.ColdMeans | aidl/thermal/thermal-helper.cpp:490-497 | a cold severity is reached at or below its threshold and kept below threshold plus hysteresis |
| Thermal.ColdFallsOnlyAboveHysteresis | aidl/thermal/thermal-helper.cpp:503-505 | over every run: cold severity k is left downward only at or above threshold[k] + hysteresis[k] |
| Thermal.Sensor.ReadTemperature | aidl/thermal/thermal-helper.cpp:369-429 | reports the larger of the hot and the cold severity for a reading and changes no stored state |
| Thermal.Sensor.WatcherUpdate | aidl/thermal/thermal-helper.cpp:1046-1074 | the stored severities are those of the whole run of readings; a change of the larger is reported iff there is one |
| Lockout.RunKeeps | aidl/fingerprint/Session.cpp:315-355 | over every run: permanent iff twenty failures counted, one thread iff the timer is marked started, a started timer aborted while permanent |
| Lockout.CountIsHistory | aidl/fingerprint/LockoutTracker.cpp:18-34 | over every run the count is the failures since the last success or reset |
| Lockout.PermanentExactly | aidl/fingerprint/LockoutTracker.cpp:25-34 | over every run: permanent iff at least twenty failures since the last success or reset; at most one expiry thread |
| Lockout.LockedExactly | aidl/fingerprint/LockoutTracker.cpp:25-34 | over every run: a failed attempt leaves no lockout up to the fourth since the last success or reset, a timed one with its thread from the fifth, a permanent one from the twentieth |
| Lockout.TimedSinceLastFailure | aidl/fingerprint/LockoutTracker.cpp:25-34 | over every run: a timed lockout counts from the last failed attempt |
| Lockout.LapsesExactly | aidl/fingerprint/LockoutTracker.cpp:36-45 | over every run: a check ends a timed lockout iff thirty seconds have passed since the last failed attempt, and leaves other modes alone |
| Lockout.PermanentEndsOnlyByReset | aidl/fingerprint/Session.cpp:149-156 | over every run: a step ends a permanent lockout iff it is a success or a reset, so no expiry does |
| Lockout.ExpiryOnTimeExactly | aidl/fingerprint/Session.cpp:337-355 | over every run: the thread is due a full duration after the last failure iff none came later than the one it was started for |
| Lockout.ClearedEarlyExactly | aidl/fingerprint/Session.cpp:337-355 | over every run: the thread can end a timed lockout before its full duration iff that has not lapsed, a later failure came and the thread is not aborted |
| Lockout.AbortedExactly | aidl/fingerprint/Session.cpp:149-156 | over every run: a started thread is aborted iff a reset or a check finding the lockout permanent came since it was started |
| Lockout.ThreadClearsExactly | aidl/fingerprint/Session.cpp:349-355 | over every run: the thread marked started will ever end a timed lockout iff neither came |
| Lockout.AbortedThreadClearsNothing | aidl/fingerprint/Session.cpp:322-327 | a run from the start in which a lockout after a reset has only the aborted thread, which wakes on time and clears nothing |
| Lockout.SixthFailureClearedEarly | aidl/fingerprint/Session.cpp:322-327 | a run from the start in which a lockout is cleared ten seconds after its last failure |
| Lockout.LockoutTracker.ResetTracker | aidl/fingerprint/LockoutTracker.cpp:18-23 | in place, the reset |
| Lockout.LockoutTracker.AddFailed | aidl/fingerprint/LockoutTracker.cpp:25-34 | in place, the failed attempt |
| Lockout.LockoutTracker.GetMode | aidl/fingerprint/LockoutTracker.cpp:36-45 | in place, a timed lockout lapses after its duration |
| Lockout.LockoutTracker.GetLockoutTimeLeft | aidl/fingerprint/LockoutTracker.cpp:47-57 | thirty seconds less the time since the last failure, positive while a timed lockout has not lapsed |
| Lockout.Session.CheckSensorLockout | aidl/fingerprint/Session.cpp:315-330 | in place, the check, starting a thread only if none is marked started |
| Lockout.Session.NotifyAuthenticated | aidl/fingerprint/Session.cpp:395-410 | in place, the success or failure step |
| Lockout.Session.ResetSessionLockout | aidl/fingerprint/Session.cpp:149-156 | in place, the reset step |
| Lockout.Session.LockoutTimerExpired | aidl/fingerprint/Session.cpp:349-355 | in place, the expiry step |

## Left out

- Finer interleavings than locked regions, except where a step is split above: reads without the lock (calcNextTimeout, mDurationMs in Routine, the last-timer check) are single steps.
- Allocation failure other than the wake lock's, and wrap-around of counters and generations.
- audio_hw.c: device lookups (they are inputs), several mixer cards, resampler, pre-processors, effects, PCM opening, parameter strings, and a voice-call stream taken for an input stream; usecase ids are unique.
- EchoReference: closing a stream, and a primary output that has been closed.
- Capture: frames are elements of the buffers rather than interleaved samples, and the driver fills a whole period at a time.
- Offload: compress_open returning no handle at all; a standby that waits holds the device lock, so calls that need it are not enabled meanwhile (OffloadLocks shows where that ends).
- OffloadLocks: wake-ups without a signal, signals that wake several waiters, and the input lock taken by builds with pre-processing.
- EventLists: ril_timer_add with a null time does nothing and is not modelled; read-ready events are queued by the same splice, and are a returned list in WatchTable.
- WatchTable: descriptors are not negative; in runs select reports as many descriptors as it leaves in the set.
- WakeupPipe: write errors other than interruption, and the time before the pipe is registered.
- PendingRequests: the command tables, and the slot id read from a request that has already been freed.
- WakeLock: versions below 13, where the lock is not counted.
- Interaction: Exit; elapsed time is in whole milliseconds, whose error ElapsedWithinAMillisecond bounds.
- Interaction.FinalDurationExactly: property values of 2^31 and more, which would turn negative in an int.
- Interaction.InteractionHandler.Acquire: the same property values.
- Dtbh: page sizes need not be powers of two here, but only then does the code's mask round up; device tree parsing and file access.
- DtbhImage.LoadDtbhBlock: totals of 4 GiB and more, where the unsigned sums wrap, are required not to occur; the order qsort leaves the entries in is an input, any permutation, since the comparator is not an order for values far apart.
- DtbhImage.Unpack: page sizes below the twelve header bytes; what the code reads past its buffer for an overrun.
- Thermal: rounding of floats, readings that are not numbers, virtual sensors, throttling and cooling devices, the watcher's timing.
- Lockout: the start value of the tracker's mode, which the class leaves open; hasElapsed is not part of this model and is taken to compare elapsed time with the duration.
- The loki tool, boot image tools, HIDL services, sensors, lights, USB, vibrator, memtrack, health, NFC and loader services: tables, file I/O or a handful of states.
