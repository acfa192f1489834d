# A model of ihs_wl_server, with proofs

`ihs_wl_server` is a Wayland server embedded in a Flutter shell: its clients' toplevels are shown as platform views, their
buffers handed to the shell as layers. This project states in Dafny what the server's dense state machines do and proves
what they are relied on for. `dafny verify dfyconfig.toml` checks all of it.

| files | what they are about |
|---|---|
| `FrameClock.dfy`, `FrameQueue.dfy` | the refresh prediction and commit timing; a view's submitted frames and the truth of their feedback |
| `PacingSpec.dfy`, `PacingLists.dfy`, `Pacing.dfy` | frame pacing: what each operation does to the state, and the operations as the server performs them, shown to do just that |
| `PacingProofs.dfy`, `PacingLedger.dfy`, `MultisetSums.dfy` | over whole runs: nothing that waits is forgotten, nothing is released or answered twice |
| `PacingTimes.dfy`, `PacingCalls.dfy`, `PacingAnswers.dfy` | what the clock is armed for and when; when frame callbacks are sent; what feedback is answered |
| `PacingUnbinding.dfy`, `PacingUnblocks.dfy`, `PacingRuns.dfy` | what unbinding a view leaves behind; who is told of what is cleared; the runs behind the exceptions |
| `Holds.dfy` | the buffers the shell may still be reading, and the bound on them |
| `DamageCopy.dfy`, `Staging.dfy`, `StagingProofs.dfy`, `StagingRuns.dfy`, `StagingHolds.dfy` | staging shared-memory surfaces: the copy in place, the ring of slots, both together with the holds, and how long the shell may read a slot |
| `BufferIds.dfy`, `BufferRuns.dfy` | buffer ids and the imports the shell has to drop, by the events of a run |
| `PlaneFds.dfy` | the file descriptors of a submission |
| `Binding.dfy`, `Binder.dfy`, `BindingProofs.dfy`, `BindingChoice.dfy`, `BindingEvents.dfy`, `BindingRuns.dfy` | which view shows which toplevel, and what else each event changes |
| `Dispose.dfy`, `DisposeRuns.dfy` | creating and disposing of views across threads |
| `Codec.dfy`, `CodecProofs.dfy`, `CodecGrammar.dfy` | the creationParams of a view, with the encoding they are read from and the format byte by byte |
| `Geometry.dfy` | fitting, rounding and placing content |
| `Controller.dfy` | the widget's controller, in Dart |

Where the source changes state in place, a class does the same with the same loops, and every method is tied to a function of
the old state; the results are lemmas about those functions. Time, the clients' commits, the shell's answers, the kernel's and
the allocator's, and which timers and event sources can be inserted are inputs of the steps.

Some of what one might expect of the code does not hold of it. In these cases the model follows the code, a lemma says
exactly when the expectation is met, and another gives an input for which it is not:

| expectation | when it holds | an input |
|---|---|---|
| an unbound view has no frames | `UnboundEmptyIff`, in `PacingUnbinding` and `BindingProofs` | `FrameOutlivesBinding`, `UnboundWithFrame` |
| nothing goes unanswered with a view | `LostIff`, `NothingLost` | `FrameGoesWithItsView` |
| what is signaled has its client unblocked | `StepUnblocks`, `SignaledUnblocks`, `HoldLooseSignals` | `LooseListOverflows`, `FrameOutlivesBinding` |
| an update's own timer is always watched | `TimersStayWatched` | `TimerUnwatched` |
| release times are neither too late nor too early | `ReleaseNeverTooLate`, `ReleaseNeverTooEarly` | `LastTargetMissed`, `EarlierTargetWaits` |
| a slot shows what its label says | `FilledShowsDamageIff` | `ShortPoolMislabels` |
| a view waits only for what is not there | `StrandsIff`, `NoOneLeftWaiting` | `DisposedNotSucceeded`, `ReplacedNotSucceeded`, `DestroyedBesideAnother`, `NamedTooLate`, `FreedTooLate` |
| a client's content stays in its view | `ContentInsideIff` | `ContentLeavesView` |
| a view is disposed of with its controller | `OutlivesIff` | `OutlivesItsController` |
| no size is sent twice running | `RepeatedOnlyWhen` | `RepeatedSize` |

## Model

| member | source | states |
|---|---|---|
| `FrameClocks.NextVblankIsEarliest` | src/timing.rs:96-103 | the predicted vblank is the earliest point of the refresh grid strictly after the given time, and only the end of u64 time cuts it short |
| `FrameClocks.ReleasedIsDue` | src/timing.rs:107-118 | commit timing, one half: an update applied no earlier than its release time meets its target, unless that saturates |
| `FrameClocks.DueIsReleased` | src/timing.rs:107-118 | the other half: a target that is met now was to be released by now, when it lies past the last reported vblank and the slack (or the phase is within a refresh of zero) |
| `FrameClocks.ReleaseNeverTooLate` | src/timing.rs:113-118 | the release time is never too late for its target exactly when the target's vblank lies within u64 time |
| `FrameClocks.ReleaseNeverTooEarly` | src/timing.rs:113-118 | the release time is never too early exactly when the target is past the reported vblank and the slack, or that vblank is at most a refresh after zero |
| `FrameClocks.LastTargetMissed` | src/timing.rs:113-118 | an input of the first kind: with the clock as it starts, the last target there is, applied at its release time, is missed |
| `FrameClocks.EarlierTargetWaits` | src/timing.rs:113-118 | an input of the second kind: with a vblank reported at one second, a target before it that can be met at once is released almost a second later |
| `PacingTimes.ClockFollows` | src/timing.rs:74-94 | in every state of every run the clock has the latest vblank reported and the last refresh period that was not reported as 0, and 16,666,667 ns until there was one |
| `PacingTimes.DueIff` | src/timing.rs:105-109 | a target can be met by the next vblank exactly when it is no more than half a millisecond past every point of the grid still to come |
| `FrameQueues.Frames.Push` | src/timing.rs:278-300 | the frame joins the queue with the feedback for what it shows; other feedback is discarded at once; frames over the bound of 16 go oldest first, discarded and cleared, and the caller learns whether a barrier was |
| `FrameQueues.Frames.Presented` | src/timing.rs:305-333 | just the frames up to the reported one leave, every callback of theirs answered by what the reported frame shows, every barrier signaled once |
| `FrameQueues.Frames.ReleaseOlder` | src/timing.rs:337-350 | the barriers of just the older frames are signaled, in order; the frames stay for their report |
| `FrameQueues.Frames.FlushOlder` | src/timing.rs:355-364 | the older frames count as flushed, and whether one was not already is told |
| `FrameQueues.Frames.Clear` | src/timing.rs:376-383 | everything queued is discarded and cleared |
| `FrameQueues.PushKeepsQueue` | src/timing.rs:278-300 | pushing a later frame puts it last and keeps the newest 16: strictly sorted, each with feedback only for what it shows |
| `FrameQueues.FeedbackTruth` | src/timing.rs:305-333 | the truth of feedback: a report of s answers a callback just when its frame is at most s, and with `presented` and the report's timing just when frame s is still queued and shows that layer and generation; its timing has the report's vblank, sequence, low four flags, and refresh unless that is 0 |
| `FrameQueues.OwnFeedbackPresented` | src/timing.rs:305-333 | the frame reported has all its own feedback presented, with the report's timing |
| `FrameQueues.NextStaleIsOldest` | src/timing.rs:368-373 | the stale time is that of the oldest frame with something still to release, and there is none just when nothing is |
| `Pacers.Pacer.UnblockAll` | src/pacing.rs:40-48 | each client of the list is unblocked once, however often it is listed |
| `Pacers.Pacer.ScheduleTick` | src/pacing.rs:212-235 | the clock is armed no later than asked; with no timer to be had everything is released |
| `Pacers.Pacer.ReleaseEverything` | src/pacing.rs:341-374 | all loose barriers, all timers of watched surfaces and all frame barriers are cleared, the callbacks of views on screen sent, and each client concerned unblocked once |
| `Pacers.Pacer.FireTimers` | src/pacing.rs:245-269 | the timers the next vblank can meet are cleared, the surfaces with others left are kept, and the earliest release time of those is found |
| `Pacers.Pacer.FireLoose` | src/pacing.rs:272-281 | the loose barriers due are signaled, the others kept in order, the earliest of their deadlines found |
| `Pacers.Pacer.FireUnsubmitted` | src/pacing.rs:284-293 | the unsubmitted views due are picked out, the others kept, the earliest of their deadlines found |
| `Pacers.Pacer.TickAll` | src/pacing.rs:296-322 | every view, in whatever order the table gives, has its stale or hidden frames released and its next wake counted |
| `Pacers.Pacer.OnTick` | src/pacing.rs:237-338 | a tick does what the specification says on the whole state, and arms the clock for the earliest wake left, at least 100 µs ahead |
| `Pacers.Pacer.HoldLoose` | src/pacing.rs:71-92 | loose barriers are kept for the next vblank, 256 at most, the oldest cleared early; with no client they are cleared at once |
| `Pacers.Pacer.NotShown` | src/pacing.rs:65-68 | an unshown tree's feedback is discarded and its barriers held loose |
| `Pacers.Pacer.WatchTarget` | src/pacing.rs:96-106 | the surface is watched once, and the clock runs at once |
| `Pacers.Pacer.WatchFrames` | src/pacing.rs:159-175 | a submitted frame has the clock armed for when it goes stale, or while suspended for the next hidden release |
| `Pacers.Pacer.Unsubmitted` | src/pacing.rs:179-185 | a view that could not be submitted is listed once, due at the next vblank, and the clock armed for it |
| `Pacers.Pacer.PushFrame` | src/submit.rs:293-298 | the submitted frame is queued under the next number, and the client unblocked if room had to be made |
| `Pacers.Pacer.SubmitView` | src/submit.rs:275-300 | a tree goes to the shell as a frame, or its feedback is discarded, its barriers held loose and the view listed as unsubmitted |
| `Pacers.Pacer.FramePresented` | src/pacing.rs:109-126 | a report moves the clock's phase, answers and releases the frames up to it, sends the frame callbacks and unblocks the client if a barrier was cleared |
| `Pacers.Pacer.ViewSuspended` | src/pacing.rs:131-155 | leaving or entering the scene arms the clock for what the view holds |
| `Pacers.Pacer.DropFrames` | src/pacing.rs:199-209 | a view that shows nothing more has its frames discarded and cleared and its client unblocked |
| `Pacers.Pacer.Apply` | src/handlers/compositor.rs:46-66 | an update applied is submitted to the view showing it, or has its feedback discarded and its barriers held loose |
| `Pacers.Pacer.UnbindView` | src/state.rs:566-582 | the view's frames are dropped, the updates its client then applies take effect while the view is still bound, and only then is it bound to nothing; frames those submit stay queued |
| `PacingProofs.StepWatches` | src/pacing.rs:64-209 | every step keeps all that waits on the clock watched by an armed tick, no later than its own stored deadline and 100 µs |
| `PacingProofs.TickWatches` | src/pacing.rs:237-338 | so does a tick, for whatever it leaves waiting |
| `PacingProofs.NeverStuck` | src/pacing.rs:212-338 | never stuck: in every state of every run a tick is armed for whatever waits, by its own deadline and 100 µs -- a loose barrier and an unsubmitted view by the one they are listed with, a barrier in a frame on screen by a stale time after its submission or the view's return, one off screen by the longest refresh there can be after its submission, the view's release time and the last report; for watched surfaces at some time; and, as long as timers can be had, a frame on screen whose callbacks are due by a stale time likewise |
| `PacingProofs.TickClearsDue` | src/pacing.rs:244-322 | a tick clears exactly what is due: loose barriers and unsent callbacks listed for now or before; on screen the barriers and the unflushed mark of just the frames submitted more than 250 ms ago; off screen, once the view's release time has come and a frame holds one, all barriers, and then the next release is a second away; and of the targets just those the next vblank can meet. What it leaves is as it was, and every timer left has its release time strictly ahead unless past the end of u64 time |
| `PacingProofs.TickUnblocks` | src/pacing.rs:327-334 | with a timer to be had, a tick unblocks a client exactly when a loose barrier of its is due, a frame of its view with a barrier is stale -- off screen, due to be released -- or a target of its can be met, and then once |
| `PacingTimes.TickArms` | src/pacing.rs:296-338 | a tick arms the clock again at the first time anything left needs it, though no sooner than 100 µs from now, and stops it exactly when nothing does: loose barriers and unsubmitted views when they are due, a surface when its earliest target is to be released, a view on screen 250 ms after the first unreported frame was submitted, one off screen at its release time or the next vblank, whichever is later, while a frame holds a barrier |
| `PacingTimes.SubmitArms` | src/submit.rs:275-300 | a frame that cannot be submitted has its barriers held loose, the last 256 of all, its view listed once and the clock armed, all for the next vblank; one that is submitted arms the clock for what its view then needs |
| `PacingTimes.StepArms` | src/pacing.rs:64-209 | what each other event arms the clock for while timers can be had: barriers held and frames not submitted for the next vblank, an update with a target for now, a view leaving the scene for the next vblank if it holds a barrier, one entering it for its first stale frame but 250 ms from now at the least, an unbinding for what the updates applied need, and reports, bindings and surfaces coming and going for nothing |
| `PacingTimes.GoneForgotten` | src/pacing.rs:245-269 | a surface that goes takes its timers with it: no later tick looks for them |
| `PacingCalls.StepCalls` | src/pacing.rs:109-126 | a report sends the frame callbacks of its view once, if that is bound; a tick those of each bound view on screen that is listed as unsubmitted by now or has a frame unreported for more than 250 ms and not flushed; with timers to be had nothing else sends any. Without, the callbacks of views on screen are sent, of all of them and once more where a tick leaves something to wait for |
| `PacingAnswers.ReportAnswers` | src/pacing.rs:109-126 | a report takes just the frames up to it from its view, signals their barriers, and answers their feedback by the truth: presented just for what the reported frame, still queued, shows |
| `PacingAnswers.StepDiscards` | src/pacing.rs:64-374 | no other event says that anything was presented: what feedback it answers it discards, and no answer is taken back |
| `PacingProofs.HoldLooseSignals` | src/pacing.rs:75-90 | holding barriers loose signals some, with nobody unblocked, exactly when their client is gone or the list overflows |
| `PacingProofs.TimersStayWatched` | src/pacing.rs:96-106 | a held-back update's surface stays watched through every step, except exactly when its timer is registered just after arming the clock failed |
| `PacingProofs.TimersAlwaysWatched` | src/pacing.rs:96-106 | so in every run in which no timer is refused just then, every held-back update is watched all along |
| `PacingUnblocks.StepUnblocks` | src/pacing.rs:40-374 | signaled implies unblocked, in every step of every kind: a barrier signaled has its owner unblocked in that step unless it was pushed out of the loose list or sat in a frame of a view not its owner's, a timer cleared has its client unblocked, and nobody is unblocked but for a barrier of its own or in a frame of a view of its (bound as the step begins, or in it), for a timer of its own, or with the clock out of order while a surface of its was listed; frames of another's come only from an unbinding |
| `PacingUnblocks.SignaledUnblocks` | src/pacing.rs:40-374 | so over every run, with the exceptions traced to that step's overflow or to an unbinding before it |
| `PacingUnblocks.OverflowIff` | src/pacing.rs:85-90 | barriers are pushed out of the loose list exactly when the client is there and there would be more than 256 |
| `PacingUnblocks.LeftByShowing` | src/state.rs:566-582 | an unbinding leaves barriers behind only when it applies an update shown in the very view |
| `PacingUnbinding.UnboundEmptyIff` | src/state.rs:566-582 | a view ends its unbinding with an empty queue exactly when no update shown in it, by a shell that takes the frame, is applied as its frames are dropped |
| `PacingUnbinding.LostIff` | src/state.rs:359-392 | frames go with a view that is replaced or disposed of exactly in that case; never once its link to the shell is gone |
| `PacingUnbinding.NothingLost` | src/state.rs:359-392 | with links gone before their views, at every point of every run nothing at all is lost |
| `PacingRuns.FrameOutlivesBinding` | src/state.rs:566-582 | a run: a fifo client with a second update waiting on the first; its view is unbound with that update queued, and when it is reported its barrier clears and the client is not told |
| `PacingRuns.FrameGoesWithItsView` | src/state.rs:385-392 | the same with the view disposed of while still linked: the barrier is neither signaled nor held any more |
| `PacingRuns.LooseListOverflows` | src/pacing.rs:85-90 | a run: one commit with 257 barriers; the first is signaled and nobody is told |
| `PacingRuns.TimerUnwatched` | src/pacing.rs:96-106 | a run: the timer is refused as an update with a target is committed, and the update's own timer is on no list |
| `PacingLedger.StepBooks` | src/pacing.rs:64-209 | each step moves barriers between frames, the loose pool and signaled, and callbacks between pending and answered, adding just what it takes from clients and losing just what goes with a view |
| `PacingLedger.LedgerHolds` | src/pacing.rs:64-374 | at every point of every run what was taken is just what is held, loose, signaled, pending, answered or went with a view |
| `PacingLedger.ExactlyOnce` | src/timing.rs:222-266 | a barrier handed over once is in one frame, or loose, or was signaled once, or went with one view; a callback asked for once is pending in one place, was answered once, or went with one view |
| `Holds.HoldTable.HoldFenced` | src/submit.rs:53-78 | the buffer is held under a key never used before, unless nothing could tell of its fence |
| `Holds.HoldTable.FenceSignaled` | src/submit.rs:64-69 | a fence signaling gives back just the hold it was for |
| `Holds.HoldTable.HoldUnfenced` | src/submit.rs:80-93 | the buffer is held for the later frame only, and the oldest hold goes when there are more than 64 |
| `Holds.HoldTable.Presented` | src/submit.rs:97-99 | what only earlier frames held is free |
| `Holds.HoldTable.Clear` | src/submit.rs:102-107 | nothing is held any more |
| `Holds.UnboundedKeeps` | src/submit.rs:80-99 | without the bound a buffer is held just when no frame after the one it was last held for was reported since |
| `Holds.HeldExactly` | src/submit.rs:80-107 | the holds are, over any operations, the newest 64 of those, sorted by frame and each buffer once |
| `Holds.HeldUntilPassed` | src/submit.rs:80-99 | absent eviction and clear, a buffer is held iff the frame of its last unfenced submission is at least the highest reported |
| `Holds.HardBoundIsSafe` | src/submit.rs:37-93 | with no more than 32 layers a frame, evicting never gives back a buffer of the newest two layered frames |
| `DamageCopy.CopyDamage` | src/staging.rs:445-487 | rectangles are clamped and copied row by row into the slot in place, and the copy stops at the first row not within both buffers |
| `DamageCopy.WholeIff` | src/staging.rs:474-479 | the copy goes through exactly when everything damaged is within the pool and the slot |
| `DamageCopy.PixelAfter` | src/staging.rs:461-482 | then a damaged pixel is the client's and any other is as it was, overlapping rectangles included |
| `DamageCopy.DamageShownIff` | src/staging.rs:461-482 | all that was damaged is shown exactly when all of it is within both buffers |
| `Staging.Stager.Allocate` | src/staging.rs:327-354 | a new slot has a uid never used before, and a failed allocation uses one up too |
| `Staging.StagingRing.Write` | src/staging.rs:491-519 | the slot's memory is the copy's result, or nothing is written when it cannot be mapped |
| `Staging.StagingRing.Stage` | src/staging.rs:231-314 | staging decides as the specification says: reset on another size or format, the same slot for the same commit, else the first free slot, a new one, or the newest |
| `Staging.StagingRing.DropRing` | src/staging.rs:317-325 | a surface that is gone hands over the uids of all its slots |
| `StagingProofs.WrittenShows` | src/staging.rs:445-487 | copying only the clamped damage since the slot's own commit leaves the same pixels as a full copy |
| `StagingProofs.StageKeepsRing` | src/staging.rs:231-314 | staging an honest buffer with sound damage keeps every slot's label true |
| `StagingProofs.StageShowsCurrent` | src/staging.rs:231-314 | what is shown is the current picture, or only when all four slots are held the newest one; nothing is shown exactly when the buffer cannot be staged or memory or a mapping is missing |
| `StagingProofs.UidsUsed` | src/staging.rs:327-354 | a uid is used up exactly when memory for one more slot is asked for: the ring was of another kind, or none of its slots, fewer than four and all held, has the commit |
| `StagingProofs.FilledShowsDamageIff` | src/staging.rs:474-479 | a slot is labelled current after any copy; it shows all that was damaged exactly when the pool has all of it |
| `StagingProofs.ShortPoolMislabels` | src/staging.rs:298-306 | one pixel claimed of an empty pool: the slot is labelled and shown, holding whatever it held |
| `StagingRuns.StageWritesFree` | src/staging.rs:274-307 | a staging call writes only a slot no one else holds, makes only new uids, and drops all slots or none |
| `StagingRuns.BusyUnwritten` | src/staging.rs:274-294 | no step of staging, submitting, reporting, fences, unbinding or surface destruction writes a busy slot |
| `StagingRuns.BusySlotsUntouched` | src/submit.rs:394-404 | over every run, a slot busy all along keeps its pixels, whatever the clients' buffers are |
| `StagingHolds.OnItsWayIff` | src/submit.rs:308-345 | a buffer is among the layers prepared exactly from the event that takes it up to the one that keeps or drops it |
| `StagingHolds.FencedIff` | src/submit.rs:53-78 | a view keeps a buffer for a fence exactly from the submission that got the fence to that fence signaling or the view's unbinding |
| `StagingHolds.UnfencedIs` | src/submit.rs:80-107 | the buffers a view keeps without a fence are what its submissions, reports and unbindings come to, one after the other |
| `StagingHolds.WantedStill` | src/submit.rs:37-93 | one kept for a frame is still kept until a later frame is reported, the view is unbound, or 64 more were kept |
| `StagingHolds.ReadIsBusy` | src/staging.rs:274-294 | what is on its way, or kept for a fence or a frame, is busy, in those terms of events alone |
| `StagingHolds.ReadUntouched` | src/submit.rs:394-404 | so in every run the pixels of a slot do not change while the events say that the shell may read it |
| `StagingHolds.FencedUntouched` | src/submit.rs:394-404 | from the event that shows a slot, through the one that keeps it for a fence, to that fence signaling, the slot's pixels do not change, whatever is committed and staged meanwhile |
| `StagingHolds.FrameUntouched` | src/submit.rs:394-404 | and so for a slot kept for a frame, to the report of a later one, the unbinding or the 64th more hold |
| `StagingRuns.SlotsAccounted` | src/staging.rs:251-259 | every slot uid made is in a ring or retired, never both, and stays retired |
| `StagingRuns.LabelsTrue` | src/staging.rs:296-313 | over every run, for a surface staged with honest buffers whatever the other clients do: a slot labelled with a commit shows just its surface's picture at that commit |
| `StagingRuns.StagedCurrent` | src/staging.rs:231-314 | and each time it is staged its current picture goes to the shell, or the newest one when all its slots are held; nothing does exactly when the buffer cannot be staged or memory or a mapping is missing |
| `BufferIds.BufferTable.IdFor` | src/buffers.rs:49-66 | a buffer keeps its id, a new one gets the next, never 0, and the view is noted once |
| `BufferIds.BufferTable.Destroyed` | src/buffers.rs:69-71 | the buffer's id and views are handed over and its entry is gone |
| `BufferIds.BufferTable.ForgetView` | src/buffers.rs:74-78 | no entry lists the view any more, and nothing else changes |
| `Retirement.StepKeeps` | src/submit.rs:458-476 | submitting, retiring, creating and disposing keep live ids distinct, nonzero and unretired, and every import backed |
| `Retirement.NoImportForgotten` | src/submit.rs:308-345 | with fewer ids handed out than there are, at every point of every run an id a view was submitted and not told to drop has a live entry listing the view |
| `Retirement.NeverResubmitted` | src/submit.rs:338-348 | no submission names an id retired before it |
| `Retirement.GoneTellsAll` | src/submit.rs:458-476 | a buffer that goes is retired in every view it was submitted to that is still linked |
| `RetirementRuns.AssignedIs` | src/buffers.rs:49-66 | a known buffer keeps its id, a new one gets the next, 1 after the last there is; its views are those it had and this one, each listed once, and no other buffer changes |
| `RetirementRuns.ListedIff` | src/buffers.rs:49-78 | in every run a buffer's entry lists exactly the views it was submitted to with neither the buffer gone nor the view disposed of since, each once |
| `RetirementRuns.ShellFollows` | src/submit.rs:308-345 | and the ids a view was submitted and told to drop are exactly those of its submissions' buffers, all of them prepared and the view still linked, and of those that went while it listed them, since it was created; an id is retired exactly once its buffer is gone |
| `PlaneFds.FdTable.CloseFrame` | src/submit.rs:219-229 | each fd of a frame is closed once, however many planes it backs |
| `PlaneFds.AddPlane` | src/submit.rs:175-203 | a plane gets its file's dup or one of its own; if that fails, not every plane can be dup'd |
| `PlaneFds.FrameFor` | src/submit.rs:151-204 | a frame has an fd for each of its first four planes, shared by just the planes of one file; and -1 for the rest; it fails exactly when a dup does, with nothing left open |
| `PlaneFds.PrepareAll` | src/submit.rs:338-348 | all layers are prepared with fds of their own, or none and no fd is left |
| `PlaneFds.Submit` | src/submit.rs:338-404 | on every path each dup'd fd and each release fence is handed over or closed exactly once; the shell gets all the plane fds exactly when every layer is prepared and the view is still linked |
| `Binders.Binder.FindToplevel` | src/state.rs:485-511 | the oldest mapped, unbound toplevel that suits the view by parent, sandbox, token and app id (what suits is `BindingChoice.BindsFirst`) |
| `Binders.Binder.TryBindView` | src/state.rs:474-516 | the view and that toplevel are recorded in each other's table; a bound view is left alone |
| `Binders.Binder.WaitingIds` | src/state.rs:553-559 | the views showing nothing, sorted by id |
| `Binders.Binder.BindWaitingViews` | src/state.rs:552-563 | each waiting view is tried in that order |
| `Binders.Binder.UnbindView` | src/state.rs:566-582 | hints and frames go first, then updates the client applies on being told take effect with the view still bound, then both tables forget the binding and the holds are gone; frames submitted meanwhile stay |
| `Binders.Binder.ViewCreated` | src/state.rs:349-384 | a view under a used id replaces the one there, unbound first, and tries to bind |
| `Binders.Binder.ViewDisposed` | src/state.rs:385-392 | the view is unbound, with what that applies, and gone |
| `Binders.Binder.ToplevelCommit` | src/handlers/compositor.rs:164-189 | a toplevel's first commit maps it and serves the waiting views |
| `Binders.Binder.ToplevelDestroyed` | src/handlers/xdg.rs:68-83 | a destroyed toplevel has its view unbound, with what that applies, and is gone |
| `Binders.Binder.RequestActivation` | src/handlers/activation.rs:50-93 | a token the module issued is used up and recorded, a view taken by app id is unbound, with what that applies, for one naming the token, and the waiting views are served |
| `BindingProofs.StepKeeps` | src/state.rs:474-593 | every step, whatever is applied while a view is unbound, keeps the binding a partial bijection, unbound views without buffers and hints, sandboxes contained, tokens used once and what is shown mapped |
| `BindingProofs.BindingKept` | src/state.rs:474-593 | so does every run |
| `BindingChoice.BindsFirst` | src/state.rs:474-516 | a waiting view gets exactly the lowest toplevel that is mapped, no dialog and shown by none, runs in the sandbox the view names if any, has the view's token if either has one, and else claims the app the view names if any -- from no sandbox or that app's own; with no such toplevel nothing changes |
| `BindingChoice.AllBindFirst` | src/state.rs:552-563 | serving all of them gives each waiting view the lowest such toplevel that no lower view takes, and none exactly when there is none |
| `BindingRuns.ImpostorNotShown` | src/state.rs:485-511 | a run: a client in another app's sandbox claims the app a view waits for, and is not shown in it |
| `BindingEvents.EventSays` | src/state.rs:349-593 | what each event changes of the rest: the views' parameters, what is known of each toplevel, the tokens issued and not used, and the hints, each of which stands until its view is unbound or another comes for its surface |
| `BindingEvents.EventMaps` | src/handlers/compositor.rs:164-189 | a toplevel is mapped exactly by its first commit, or by an update its client applies as an unbinding drops the frames of a view that has some |
| `BindingEvents.EventCounts` | src/state.rs:566-593 | while no view is unbound, a view has a frame and its layers more with each submission while it shows something, and no more than a report leaves |
| `BindingProofs.UnboundEmptyIff` | src/state.rs:566-582 | a view is left without frames by its unbinding exactly when no update shown in it is applied as its frames are dropped |
| `BindingProofs.EmptiedThroughout` | src/state.rs:566-593 | in every run without such an unbinding, unbound views have no frames at any point |
| `BindingRuns.UnboundWithFrame` | src/handlers/activation.rs:78-92 | a run: a view that shows a toplevel by app id loses it to one naming its token while the client has an update waiting; it ends unbound with a frame |
| `BindingProofs.EachServed` | src/state.rs:552-563 | each view of an ascending list gets the oldest eligible toplevel no lower one took |
| `BindingProofs.WaitingServed` | src/state.rs:552-563 | binding the waiting views is the greedy matching, changes nothing else, and leaves no view waiting that could show a toplevel |
| `BindingProofs.StepServes` | src/handlers/compositor.rs:175-188 | just after a toplevel's first commit, or an activation that takes effect, no waiting view has an eligible toplevel |
| `BindingProofs.StrandsIff` | src/state.rs:349-593 | with nobody able to bind before a step, somebody waits that could after it exactly when the step disposes of a view, or replaces it by one that does not take what it showed, with another waiting that suits that; destroys a toplevel whose view suits another that is free; or changes the parent or app id of a free toplevel to what somebody waits for -- as things stand when the binding breaks, and as they stood before unless that maps another toplevel |
| `BindingProofs.NoOneLeftWaiting` | src/handlers/activation.rs:78-92 | so in any run nobody who could show something waits from the start, or from a first commit or an activation that takes effect, up to the next such step |
| `BindingProofs.ActivationOutcome` | src/handlers/activation.rs:66-93 | which view shows an activated toplevel: its own if that names the token or none does, else the lowest waiting one that names it and may, and none exactly when there is no such view |
| `BindingProofs.DisposeServesNoOne` | src/state.rs:385-392 | after a dispose somebody waits that could bind exactly when another waiting view suits what was shown as the binding broke -- or before the dispose, if that maps no toplevel |
| `BindingRuns.DisposedNotSucceeded` | src/state.rs:385-392 | a run: of two views waiting for anything the first gets the toplevel; disposed of, it leaves the second waiting beside it |
| `BindingRuns.ReplacedNotSucceeded` | src/state.rs:349-384 | the same where the first is replaced by one that waits for an app |
| `BindingRuns.DestroyedBesideAnother` | src/handlers/xdg.rs:68-83 | a run: the view of a destroyed toplevel is left waiting beside another it could show |
| `BindingRuns.NamedTooLate` | src/state.rs:485-511 | a run: a toplevel that names its app only after it is mapped is not shown in the view waiting for that app |
| `BindingRuns.FreedTooLate` | src/handlers/xdg.rs:91-103 | a run: a toplevel that ceases to be a dialog is not shown in the view waiting for any |
| `Dispose.StepKeepsLock` | src/view.rs:269-295 | every step keeps a view's lock held by just the thread in its critical section, and calls to the shell only on a link that is there |
| `Dispose.NoCallAfterDispose` | src/view.rs:285-295 | in every interleaving no submit or retire call for a view overlaps the return of its dispose or follows it |
| `Dispose.StepKeepsDrains` | src/thread.rs:200-214 | every step keeps the queue's outcome on the table of views the live views of this server run |
| `Dispose.TableIsLiveViews` | src/state.rs:349-392 | within one server run, once the queue is empty the table is exactly the views created and not disposed of, also under ids used again |
| `Dispose.WaitsEnd` | src/view.rs:6-10 | no deadlock: a thread waiting for a view's lock finds it free or its holder able to go on |
| `Dispose.CreateBeforeDisposeLoses` | src/state.rs:359-364 | were a view created before the one under its id is disposed of, it would be lost with it |
| `DisposeRuns.ServerFollows` | src/thread.rs:122-214 | in every run the server runs as it was started and stopped, each start a run of its own; its thread is there from the start until it crashes or takes the command to quit, which is the last there is; an ended thread leaves no commands and no views |
| `DisposeRuns.HandlesFollow` | src/view.rs:96-176 | there are exactly the handles that were made while the thread was there; a link is there exactly until a dispose of it had the lock, and the view counts as disposed of once that call returned |
| `DisposeRuns.DisposeGoes` | src/view.rs:285-295 | a dispose takes three steps of the shell's thread, whatever runs between: after the second the link is gone for good, after the third the call has returned |
| `DisposeRuns.RenegotiateGoes` | src/view.rs:269-283 | a renegotiation takes two, and has the lock between them |
| `DisposeRuns.CallGoes` | src/submit.rs:360-382 | a call is made on the view the table has under the id, and reaches the shell exactly when the link is there as the lock is had |
| `Codec.Reader.Take` | src/params.rs:93-98 | so many bytes from the position on, or none and the position as it was |
| `Codec.Reader.Size` | src/params.rs:105-111 | the size read in whichever of its three forms |
| `Codec.Reader.Value` | src/params.rs:119-144 | the value of a type that is read, numbers little endian, doubles aligned from the start of the message, strings valid UTF-8; nothing for any other (byte by byte: `CodecGrammar.ValueIff`) |
| `Codec.DecodeMap` | src/params.rs:149-166 | the entries up to the first that cannot be decoded, a key given twice having its last value; the rounds of the loop are linear in the message's length whatever its header claims |
| `CodecProofs.SizeRead` | src/params.rs:105-111 | each of the three size forms is read back |
| `CodecProofs.ValueRead` | src/params.rs:119-144 | every value encoded at a position is read back from it, alignment included |
| `CodecProofs.RoundTrip` | src/params.rs:149-166 | for every map of strings to null, booleans, 64-bit integers, doubles and strings, decoding its encoding gives it back, in whatever order it was encoded; the encoder has the format's tags and the multiple of eight a double starts at in its own terms |
| `CodecProofs.CutKeepsWhole` | src/params.rs:149-166 | a message cut anywhere keeps exactly the entries wholly before the cut; cut within its header it is none |
| `CodecProofs.UnknownEnds` | src/params.rs:141-162 | a value of a type that is not read keeps exactly the entries before it, whatever follows and however many are claimed |
| `CodecGrammar.Utf8Iff` | src/params.rs:137-140 | a string is taken exactly when its bytes are the UTF-8 octets of some scalar values |
| `CodecGrammar.SizeIff` | src/params.rs:105-111 | a size is read at a position exactly where one of its three forms is written |
| `CodecGrammar.ValueIff` | src/params.rs:119-144 | a value is read at a position exactly where it is written: its tag, and then so many little-endian bytes, a size and the text, or for a double the eight bytes from the least multiple of eight on |
| `CodecGrammar.EntriesIff` | src/params.rs:149-166 | the entries decoded are exactly those written one after the other, as many as claimed or up to where none is |
| `CodecGrammar.DecodesIff` | src/params.rs:149-166 | a message gives nothing exactly when it does not start as a map; else the one map of those entries, each key with its last value |
| `Geometry.ContainFits` | src/state.rs:178-188 | a fit keeps the whole content inside the view, touching both edges along one axis and centered along the other |
| `Geometry.ScalesIff` | src/state.rs:180-183 | content can be scaled to a view exactly when each of its sides has the sign of the view's, or is zero in a view that has none negative, and not both are zero, division by zero as floating point has it |
| `Geometry.ContentIs` | src/state.rs:207-232 | what is to fit is, side by side, the larger of the window and the size asked for: the one requested, or the view's pixels at its ratio to the nearest integer, halves away from zero |
| `Geometry.WindowFits` | src/state.rs:228-237 | a window larger than asked for is inside the view as well |
| `Geometry.FitInverse` | src/state.rs:191-204 | `to_client` and `to_view` undo each other |
| `Geometry.FitUsable` | src/state.rs:228-237 | every fit used has a positive scale, so it can be undone |
| `Geometry.NeighborsFlush` | src/submit.rs:231-264 | after rounding, rectangles that met still meet with no gap or overlap, and those apart stay apart |
| `Geometry.PlacedCut` | src/submit.rs:231-264 | whatever the edges, a position is cut to 32 signed bits and a side, the difference of rounded edges, to 32 unsigned ones |
| `Geometry.ContentStaysInside` | src/submit.rs:231-264 | after rounding and clamping, content that is scaled to its view stays inside the view's physical pixels |
| `Geometry.ContentInsideIff` | src/submit.rs:231-264 | all of a view's content stays inside exactly when it is scaled to the view, or has a negative side, or neither side in physical pixels is longer than the view's |
| `Geometry.ContentLeavesView` | src/state.rs:209-236 | an input for which it does not: at one and a half pixels to a logical one, a view of 1000 by 600 asks for 667 by 400 and is filled 1001 wide |
| `Controller.ToplevelViewController.Create` | dart/ihs_wayland_server/lib/src/view.dart:414-416 | the view is created once, however often that is asked |
| `Controller.ToplevelViewController.SendSize` | dart/ihs_wayland_server/lib/src/view.dart:459-472 | the shell is told the size on screen, if it was told another |
| `Controller.ToplevelViewController.LayOut` | dart/ihs_wayland_server/lib/src/view.dart:436-439 | the layout is the latest one, and told |
| `Controller.ToplevelViewController.DrawAt` | dart/ihs_wayland_server/lib/src/view.dart:442-457 | the scale is the latest one, measured from then on, and told to the shell and the input |
| `Controller.ToplevelViewController.GoOnMeasured` | dart/ihs_wayland_server/lib/src/view.dart:474-494 | the create call goes out at the size on screen |
| `Controller.ToplevelViewController.GoOnCreated` | dart/ihs_wayland_server/lib/src/view.dart:495-502 | from the reply on the view is created, and told of what changed meanwhile |
| `Controller.ToplevelViewController.Dispose` | dart/ihs_wayland_server/lib/src/view.dart:516-526 | a view that is created has its input unscaled and the shell told; one that is not is left as it is |
| `Controller.StepTold` | dart/ihs_wayland_server/lib/src/view.dart:436-502 | every step keeps the create first, a dispose last, no resize before the reply, no size given twice running, and after the reply the size last sent the current one |
| `Controller.CreateWaits` | dart/ihs_wayland_server/lib/src/view.dart:474-494 | the create goes out exactly when the view was asked for, the scale on screen is known and none went out yet, with the size asked for, each side at the latest scale of its direction |
| `Controller.FailedStays` | dart/ihs_wayland_server/lib/src/view.dart:474-494 | after a create that failed the view is not created and nothing more is sent or awaited |
| `Controller.Converges` | dart/ihs_wayland_server/lib/src/view.dart:436-502 | for every interleaving, once created and until disposed of the size last sent is the latest layout, its width by the latest horizontal scale and its height by the vertical one, and the input has that scale |
| `Controller.CreatedOnce` | dart/ihs_wayland_server/lib/src/view.dart:414-502 | just one create, before any resize, no resize that gives the size given last, and nothing after a dispose |
| `Controller.RepeatedOnlyWhen` | dart/ihs_wayland_server/lib/src/view.dart:459-502 | on the wire a resize repeats the size before it exactly when it is the first, the create was first asked for with no size, and the latest layout at the latest scale has no size as it goes out |
| `Controller.RepeatedSize` | dart/ihs_wayland_server/lib/src/view.dart:459-502 | a run that does: created before it was laid out, and laid out with no size before the reply |
| `Controller.OutlivesIff` | dart/ihs_wayland_server/lib/src/view.dart:495-526 | a view is created and never disposed of, though its controller was, exactly when the reply to its create comes after the controller was disposed of |
| `Controller.OutlivesItsController` | dart/ihs_wayland_server/lib/src/view.dart:516-520 | a run that does: disposed of while the create is under way |

## Left out

- NextVblankIsEarliest: the one wrap-around in the prediction, a refresh of one nanosecond at the very last instant of u64 time, is not modelled; the step count saturates there.
- NeverStuck: the clock's readings are at least a second short of the end of u64 time, a step reads the clock once, and an update of the clock does not re-arm the tick, so for timed surfaces only that a tick is armed is stated, not when.
- NeverStuck: after a resume the extra stale time is granted only until another tick runs, as in the source; what is stated is the latest time, not the earliest.
- NeverStuck: for a suspended view the latest time is given with the longest refresh a report can carry, not the one in force: a tick armed under one refresh still stands when a shorter one is reported.
- StepUnblocks: the client of a view is the one it had as it was bound; that the source asks its surface each time, and finds none once the client has disconnected, is not modelled.
- OnTick: the order in which clients are unblocked and barriers of different views signaled is not kept, since the source goes through a hash table; each is counted.
- FramePresented, OnTick, SubmitView and ReleaseEverything: a client unblocked may have updates applied at once in the source; here these are steps of their own, after the one that unblocks it, which differs only in that the source arms the clock once more after them. Where it makes a difference, as a view is unbound, they are part of the step (UnbindView).
- UnbindView: which updates a client has waiting is an input; none is applied unless a barrier was cleared and there is a client. In Binding, which counts frames and not barriers, a frame is taken to have one.
- SubmitView: which layers a tree has and whether the shell takes them are inputs; popups, dialogs and frame callback times are not modelled.
- FireTimers: what smithay does with a surface's timers is taken as its contract, clearing just the deadlines not after the time given.
- HardBoundIsSafe: the shell's limit on layers is any number up to half the bound.
- StageKeepsRing: that damage covers every differing pixel is smithay's contract and assumed; commits whose buffer is shorter than it claims are excluded here and dealt with by FilledShowsDamageIff.
- CopyDamage: sums of a rectangle's position and size that overflow an i32 are not modelled.
- StageWritesFree: dma-heap, gbm, mapping and cache synchronization are an allocation and a mapping that succeed or fail.
- NoImportForgotten: u32 ids wrapping around after four billion buffers are excluded.
- Submit: the kernel gives fds that are not open, and two planes are known to share a file when both can be told apart.
- TryBindView: the first submission of a freshly bound view, keyboard focus, configure events and scale are steps of other components.
- ActivationOutcome: tokens are issued once; their lifetime and tokens made by clients for each other are not modelled.
- NoCallAfterDispose: a panic inside a call to the shell is not modelled; the shell disposes of a view once, and of the one under an id before it creates another.
- RoundTrip: doubles are their eight bytes; picking the parameters out of the decoded map is not modelled.
- ContainFits: real arithmetic, without the rounding of floating point; converting to an i32 saturates nowhere within the sizes allowed.
- OutlivesIff: the widget calls nothing on a controller it has disposed of.
- Converges: Dart's exceptions other than a failing create call, and pointer, key and touch input, are not modelled.
- Input dispatch, cursor shapes, popups, grabs, dialog placement, scanout feedback tranches, per-client wait caps and capability queries: little state of their own.
- The shell's C interface, fences, dma-heap, gbm, EGL and syncobj code: foreign calls that succeed or fail.
- Logging, observers, events to Dart, widgets and the example application.
