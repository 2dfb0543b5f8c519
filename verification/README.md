# Verified model of the cloud gaming host

The native host captures a game window, encodes it, streams it to a browser and injects the browser's keys into the
game. Its pipelines are bounded and lossy on purpose: when they fall behind they drop or clear. This project models the
rules of these pipelines and controllers in Dafny and proves what they keep over every run.

Every operation that changes state is a class with the fields of the source and methods that have its branches. Each
method is proved against a function on values; the results about whole runs are lemmas about these functions.

## Main results

- **No stuck keys** (`InputPipeline`). Transport queue, state manager, keyboard queue and key state machine of one session,
  with move coalescing, both overflow resets, emergency release, stuck-key recovery and sequence-gap release: whenever both
  queues are empty, keys down are keys the manager takes for pressed, and these are keys the client holds. This is true for
  all runs exactly when no two supported codes in use share a virtual key; for the host's own table, exactly when the client
  does not use both `Enter` and `NumpadEnter`, which share VK_RETURN.
- **Every key arrives** (`InputDelivery`). The converse: on runs without overflow, dangerous combinations or releases of held
  keys by reset, recovery or gap, empty queues mean that the keys down are exactly the supported keys the client holds, under
  the same condition.
- **Blocked combinations and old keys** (`KeyBlocking`, `KeyAges`). Over every run the keyboard handler never takes Alt+Tab,
  Alt+F4 or Control+Escape for held and blocks nothing else; after a recovery tick no key has been pressed beyond its time,
  and no other was released by it.
- **Bitrate reopen protocol** (`BitrateReopen`). In every interleaving of the single atomic accesses of any number of
  adjusters with the initializer, an encoder without a pending change runs at the target bitrate.
- **Texture pool and frame ledger** (`CapturePool`). Every texture is in one place, the cap holds, acquisition never
  starves, the counters add up, and the consumer sees strictly increasing sequence numbers. The queue always holds the
  frames copied last, the consumer gets the last of them, and a frame gives way only when no texture is left
  (`NewestFrames`).
- **Frame pacing and media time** (`FramePacer`, `SampleDurations`, `MediaPath`). The fixed-point schedule is a plain slot rule
  without drift; and whatever pool, queue and consumer lose, the stamps offered to the encoder never go back, across rate
  changes too. At a fixed rate the durations sent between any two frames are the time between their stamps less what is
  lost at openings of the encoder and at gaps of 2 s or more, so exact between two openings.
- **Session lifecycle** (`SessionLifecycle`, `SessionCauses`). Activations and terminal reports alternate, and a session's
  lifetime is bounded. A session ends exactly for a cause: a stop that names it, a deadline, or a window gone for too long;
  and behind every opened or stopped session is the command that asked for it.
- **Audio path** (`AudioFraming`, `AudioStamps`, `AudioRing`, `AudioPath`). Frames are the consecutive slices of the input
  whatever the block boundaries are; every frame, also one that a later block completes, is stamped to half a microsecond of its
  first sample, for all blocks, exactly when its length per channel is a multiple of six samples, as it always is for the
  host's frames of whole milliseconds; and over any mix of blocks and pops the encoder gets slices in
  order, while the ring keeps the newest.
- **Congestion memory** (`BitrateController`, `BitrateSteps`), **frame dropping** (`FrameDropper`, `DropShares`, `FastPath`),
  **view cache** (`LruCache`), **pipe framing** (`PipeFraming`, `PipeSenders`), **stream profiles** (`StreamProfiles`,
  `ProfileGrants`), **admission of input** (`InputAdmission`) and the **Annex B scan** (`AnnexB`): see the table.

## Where the code does less than its comments or callers suggest

Each of these is a lemma with the exact condition under which the property holds.

- `Enter` and `NumpadEnter` share a virtual key, so a key can stick when a client uses both
  (`InputPipeline.HostKeysStickOnlyOnEnter`).
- The audio working buffer starts at 960 samples and only grows. The whole buffer is pushed, so frames of fewer than 960
  samples are all refused by the ring (`AudioFraming.CaptureBlocks`).
- A back-off at 1 bps arms no congestion ceiling, because 0.9 truncates to the value for none
  (`BitrateController.RemembersCongestionIff`). The host's configuration keeps the floor at 500 kbps or more, where
  the memory always holds (`BitrateController.HostRemembersCongestion`).
- Applying a profile with a changed bitrate makes it the target whatever a back-off remembers. The memory survives exactly
  the profiles whose bitrates are within it (`BitrateController.ProfilesKeepMemoryIff`).
- The fast path of the frame dropper is documented as safe because dropping is only possible on a fair or worse network. It
  skips the reset of the accumulator. Without a minimum interval it drops the same frames as the controller behind it exactly
  if a quiet network drops nothing and, unless a quiet network already counts as bad, no good condition has a drop ratio and
  every bad one drops nothing or everything (`FastPath.FastPathAgreesIff`). The shipped configuration is affected
  (`FastPath.ShippedFastPathMisplacesDrops` gives the run).
- The write lock of the control pipe is free again after a failed write, and the event loop ignores the result of a send. The
  stream stays framed exactly as long as no bytes follow a cut frame (`PipeSenders.StreamIsFramedIff`); when some do, the
  reader can get a message nobody sent (`PipeSenders.ReaderMisreads` gives the run).
- Sample durations are meant to follow capture time, so that dropped frames do not shift the receiver's timeline. Each opening
  of the encoder, for a new size, profile or bitrate, forgets the last timestamp: the next sample is sent with the nominal
  frame time instead of the gap. A gap of 2 s or more is replaced by the duration before it. A sample has its gap exactly if
  that is below 2 s or, after an opening, is the nominal frame time (`MediaPath.SampleIsGapIff`); durations add up exactly if
  and only if the losses add up to 0 (`MediaPath.OfferedFramesKeepTheTimeline`; `MediaPath.ReopeningLosesTime` gives a run
  that loses 1.48 s at a resize).
- A refused profile request can still become active when the consumer already holds the same profile from an earlier request
  (`StreamProfiles.RefusedBecomesActiveIff`; `StreamProfiles.RefusedBecomesActive` gives the run).

## Conventions

Bytes of the pipe are integers below 256, those of the H.264 scan bit-vectors of width 8. The pipe's length is in the byte
order of the host's processor, least significant byte first. Clocks, the outcome of system calls, and the order in which a
hash table is walked are parameters. Real arithmetic stands for floating point.

## Model

| member | source | states |
|---|---|---|
| KeyCodes.SharedVirtualKey | Host/KeyInputHandler.cpp:119-176 | two codes of the table have the same virtual key exactly when they are equal or are the two Enter keys |
| KeyCodes.CanonicalInverse | Host/KeyInputHandler.cpp:119-176 | the table can be inverted, but for NumpadEnter |
| InputEvents.ApplyAllConcat | Host/InputStateManager.cpp:110-146 | the meaning of a stream of events is the meaning of its parts in order |
| InputEvents.MoveAbsorbsMove | Host/InputTransportLayer.cpp:250-258 | of two pointer moves in a row only the second has an effect on held input, position and trace |
| InputTransport.Layer.EnqueueMessage | Host/InputTransportLayer.cpp:231-281 | an unauthorized message only counts as dropped; an authorized one coalesces, is appended, or clears a full queue down to a reset and, if it is a release, itself; every lost message is counted |
| InputTransport.Layer.Take | Host/InputTransportLayer.cpp:178-229 | the oldest message leaves the queue, and nothing else changes |
| InputTransport.Layer.AuthorizeSession | Host/InputTransportLayer.cpp:119-122 | only this session's messages are accepted from now on |
| InputTransport.Layer.ClearAuthorizedSession | Host/InputTransportLayer.cpp:124-128 | no session is authorized; the queue is not cleared |
| InputTransport.CoalescingPreservesMeaning | Host/InputTransportLayer.cpp:250-271 | on every run without overflow, delivered and stored messages together give the same held keys, buttons, position and position at each event as all accepted messages, and every non-move message is kept once and in order |
| InputTransport.StepKeepsFaithful | Host/InputTransportLayer.cpp:250-271 | one arrival without overflow, or one delivery, keeps that meaning |
| InputTransport.CoalescedKeepsMeaning | Host/InputTransportLayer.cpp:250-258 | a stored move replaced by the next means the same as both |
| InputTransport.QueueIsBounded | Host/InputTransportLayer.cpp:250-271 | the queue never holds more than max(2, maxPendingMessages) messages, overflows included |
| InputAdmission.ArrivalIsStored | Host/InputTransportLayer.cpp:250-265 | a message that finds room is stored last, and only a move right before a move is lost for it; one that finds none, and is no move behind a move, leaves a reset and, exactly if it is a key-up, mouse-up or reset, itself |
| InputAdmission.OnlyEntitledMessages | Host/InputTransportLayer.cpp:231-248 | over every run of messages, deliveries and changes of session the layer does exactly what the valid messages of sessions current at their time alone would make it do, and counts these as received |
| InputAdmission.StoredIsEntitled | Host/InputTransportLayer.cpp:239-248 | every message stored or delivered in such a run is entitled, or a reset |
| InputAdmission.MovesAreMerged | Host/InputTransportLayer.cpp:250-254 | in every state of such a run no two stored moves are next to each other |
| InputAdmission.MessagesAddUp | Host/InputTransportLayer.cpp:231-281 | over such a run the messages that came and the resets made are those processed, stored, replaced and counted as dropped |
| InputState.Manager.ProcessEvent | Host/InputStateManager.cpp:301-394 | the new keys, buttons and position, and whether the event is passed on |
| InputState.Manager.ProcessKey | Host/InputStateManager.cpp:301-339 | a key event is passed on exactly when the code is supported and its state changes; only that key changes |
| InputState.Manager.ProcessButton | Host/InputStateManager.cpp:341-394 | a button event is passed on exactly when it changes the button's state |
| InputState.Manager.EmergencyReleaseAllKeys | Host/InputStateManager.cpp:166-217 | every key and button is released, and the lists of owed key-ups and mouse-ups name every held key and button once |
| InputState.Manager.ReleaseHeldButtons | Host/InputStateManager.cpp:192-208 | the loop over the buttons releases exactly the held ones and lists each once |
| InputState.Manager.ReleaseHeldKeys | Host/InputStateManager.cpp:166-217 | the loop over the table releases exactly the held keys and lists each once |
| InputState.Manager.RecoverStuckKeyLocked | Host/InputStateManager.cpp:278-299 | a known key ends up released and a key-up is owed; for an unknown one nothing happens |
| InputState.Manager.CheckForStuckKeys | Host/InputStateManager.cpp:248-276 | exactly the keys beyond their timeout are released and listed once; without recovery nothing happens |
| InputState.EventMeansItsEffect | Host/InputStateManager.cpp:301-394 | de-duplicating transitions gives the same held input as applying each event plainly |
| InputState.ManagerMeansItsStream | Host/InputStateManager.cpp:110-146 | for any stream and any timing the manager holds what the plain reading of the stream gives |
| InputState.AllReleasedHoldsNothing | Host/InputStateManager.cpp:166-217 | no key and no button is held after an emergency release |
| InputState.RecoveryOnlyReleases | Host/InputStateManager.cpp:278-299 | recovery takes the given keys from the pressed set and adds none |
| InputState.PassedOnIffNews | Host/InputStateManager.cpp:301-394 | behind any stream an event is passed on if and only if it is a move or wheel turn or changes the held keys or buttons, and its time is noted for the key that changed |
| KeyAges.PressedIffRecent | Host/InputStateManager.cpp:248-268 | a key pressed at t is pressed after a check at now if and only if now - t is at most its patience: the configured timeout for Shift, Control, Alt and Windows keys, half of it for all others |
| KeyAges.LetterIsPressedIffRecent | Host/InputStateManager.cpp:420-429 | for letters that is half the timeout |
| KeyAges.RecoveryReleasesTheOld | Host/InputStateManager.cpp:248-276 | in every state of every run of the pipeline: after a recovery tick no pressed key is older than its patience, the tick released no key within it, and its list names exactly the keys released |
| KeyInput.SequenceManager.ProcessSequence | Host/InputSequenceManager.cpp:14-37 | gap detection, throttling and the counters; recovery is asked for exactly on an unthrottled gap |
| KeyInput.RecoveriesAreThrottled | Host/InputSequenceManager.cpp:57-129 | over any run the recoveries number at most one a second, and each is a counted gap |
| KeyInput.KeyStateFsm.ProcessKeyEvent | Host/InputStateMachine.cpp:10-18 | a transition is accepted exactly when it changes the key; the set of keys down gains or loses that key |
| KeyInput.KeyStateFsm.ReleaseAllKeys | Host/InputStateMachine.cpp:20-28 | no key is down, and key-ups were injected for exactly the keys that were |
| KeyInput.KeyHandler.EnqueueMessage | Host/KeyInputHandler.cpp:344-367 | a full queue is cleared to the new message with every key and reported key released; otherwise the message is appended |
| KeyInput.KeyHandler.PollMessage | Host/KeyInputHandler.cpp:479-627 | one message with gap recovery, unknown, blocked and dangerous keys, and the reported keys that gate key-ups |
| KeyInput.KeyHandler.ReleaseAllKeysEmergency | Host/KeyInputHandler.cpp:728-730 | the state machine holds nothing; the reported keys stay |
| KeyInput.DeliverAllHead | Host/KeyInputHandler.cpp:479-627 | draining the queue is taking its first message and draining the rest |
| KeyBlocking.NeverForbidden | Host/KeyInputHandler.cpp:532-556 | in every state of every run the reported virtual keys never hold Alt with Tab or F4, nor Control with Escape |
| KeyBlocking.PollingBlocksOnlyForbidden | Host/KeyInputHandler.cpp:513-611 | one turn of the keyboard thread in every reachable state: an unthrottled skipped id first releases every key; a key-down of a supported code is then down and reported unless it would complete a forbidden combination, when nothing changes; a key-up releases its code if and only if its virtual key is reported |
| KeyBlocking.HostNeverHoldsForbidden | Host/KeyInputHandler.cpp:119-176 | with the host's table the state machine never holds AltLeft or AltRight with Tab or F4, nor ControlLeft or ControlRight with Escape, over all runs |
| KeyBlocking.OnlyFullQueueReleases | Host/KeyInputHandler.cpp:344-367 | a message is appended as long as fewer than 16 messages, or the configured number if larger, are queued; else it is the only one left and nothing is held or reported |
| KeyBlocking.EmittedKeyUpsHaveNoId | Host/InputIntegrationLayer.cpp:34-51 | the key-ups that the host makes itself are appended in order and without an id while there is room |
| KeyBlocking.SequenceFollowsIds | Host/InputSequenceManager.cpp:14-37 | over any run of ids the counters, the time of the last recovery and the throttling flag are those told by skipped ids and times alone |
| KeyBlocking.RecoversIffSkips | Host/InputSequenceManager.cpp:14-37 | over any run of ids a message asks for a recovery if and only if it skips an id behind the one before it and none released the keys within the last second |
| InputPipeline.InputHost.OnClientMessage | Host/InputTransportLayer.cpp:231-281 | a client message with its overflow reset takes the pipeline to the specified next state |
| InputPipeline.InputHost.ReleaseEverything | Host/InputIntegrationLayer.cpp:197-201 | the manager's emergency release followed by the keyboard handler's |
| InputPipeline.InputHost.SendKeyUps | Host/InputIntegrationLayer.cpp:34-51 | each released key is enqueued as a key-up, in order, overflows included |
| InputPipeline.InputHost.ClearSession | Host/InputTransportLayer.cpp:124-131 | no session is authorized, and the reset handler releases everything in manager and keyboard handler |
| InputPipeline.InputHost.OnTransportMessage | Host/InputStateManager.cpp:110-146 | one transport message goes through the manager to the keyboard queue |
| InputPipeline.InputHost.OnKeyboardTurn | Host/KeyInputHandler.cpp:479-627 | one keyboard message reaches the state machine |
| InputPipeline.InputHost.OnRecoveryTick | Host/InputStateManager.cpp:248-276 | stuck keys are released and their key-ups enqueued |
| InputPipeline.EnqueueIsSafe | Host/KeyInputHandler.cpp:344-367 | enqueueing, overflow included, makes the keys the queue leads to gain at most a pressed key and lose a released one |
| InputPipeline.EmitIsSafe | Host/InputStateManager.cpp:166-217 | key-ups for a list of codes take all these codes out of what the queue leads to |
| InputPipeline.PollIsSafe | Host/KeyInputHandler.cpp:479-627 | taking a message, with or without gap recovery, adds nothing to what the queue leads to |
| InputPipeline.ArrivalIsSafe | Host/InputTransportLayer.cpp:250-271 | an arriving message keeps what the transport queue leads to within the client's held keys |
| InputPipeline.StepIsSafe | Host/InputIntegrationLayer.cpp:34-51 | each atomic step keeps: keyboard queue leads to pressed keys only, transport queue leads to held keys only |
| InputPipeline.RunIsSafe | Host/InputTransportLayer.cpp:250-273 | both inclusions hold in every state of every run on codes without a shared virtual key |
| InputPipeline.NoKeySticksIff | Host/KeyInputHandler.cpp:561-627 | for all runs, drained queues mean down keys are pressed and pressed keys are held, if and only if no two supported codes share a virtual key |
| InputPipeline.SharedVirtualKeySticks | Host/KeyInputHandler.cpp:565-604 | pressing two codes of one virtual key and releasing the second first leaves the first one down |
| InputPipeline.HostKeymapInjective | Host/KeyInputHandler.cpp:119-176 | the host's table is injective on a set of codes unless it has both Enter keys |
| InputPipeline.HostKeysStickOnlyOnEnter | Host/KeyInputHandler.cpp:160-160 | with the host's table no key ever sticks, if and only if the client does not use both Enter keys |
| InputDelivery.EnqueueIsExact | Host/KeyInputHandler.cpp:344-367 | a message that finds room and is no dangerous combination adds exactly its own key to, or takes it from, what the queue leads to |
| InputDelivery.EmitIsExact | Host/InputStateManager.cpp:166-217 | key-ups for a list of codes that find room take exactly these codes |
| InputDelivery.DeliveryIsExact | Host/InputStateManager.cpp:110-146 | taking a transport message leaves what the transport queue leads to as it is |
| InputDelivery.ArrivalIsComplete | Host/InputTransportLayer.cpp:250-271 | an arriving message that finds room keeps every supported key the client holds in what the transport queue leads to |
| InputDelivery.StepIsComplete | Host/InputIntegrationLayer.cpp:34-51 | each undisturbed step keeps: pressed keys are led to by the keyboard queue, held supported keys by the transport queue |
| InputDelivery.RunIsComplete | Host/InputTransportLayer.cpp:250-273 | in every state of every undisturbed run both queues lead to exactly what is held one stage before |
| InputDelivery.KeysArriveIff | Host/KeyInputHandler.cpp:561-627 | for all undisturbed runs, drained queues mean that the keys down are the keys pressed and these are the supported keys the client holds, if and only if no two supported codes share a virtual key |
| BitrateReopen.NoStaleBitrate | Host/Encoder.cpp:1204-1206 | in every state of every interleaving: no adjuster between its writes and no change pending means the open encoder has the target bitrate |
| BitrateReopen.RunKeepsInv | Host/Encoder.cpp:902-903 | the inductive invariant: no generation is applied beyond the changes seen when the target was loaded |
| BitrateReopen.ReopeningSettles | Host/Encoder.cpp:1246-1266 | one undisturbed reopening leaves nothing pending and the encoder at the target |
| BitrateReopen.TargetFirstIsUnsafe | Host/Encoder.cpp:902-903 | the order of the two loads is needed: with them exchanged, a run from the start ends with nothing pending and the old bitrate in the encoder |
| BitrateController.Controller.AdjustBitrate | Host/Encoder.cpp:1246-1261 | the target is clamped to the limits and the profile's ceiling, and the generation grows exactly when it changed |
| BitrateController.Controller.SetProfileBitrateCeiling | Host/Encoder.cpp:815-821 | the ceiling, none for a value that is not positive, and the target clamped again |
| BitrateController.Controller.OnRtcpFeedback | Host/Encoder.cpp:837-890 | the state after one report: back-off, lossy report in the cooldown, or clean report |
| BitrateController.Controller.BackOff | Host/Encoder.cpp:847-857 | the remembered ceiling, the reduced target and the time of the change |
| BitrateController.Controller.CountCleanReport | Host/Encoder.cpp:862-889 | the clean count, the expiry of the ceiling and an increase that fits under every limit |
| BitrateController.TargetStaysInRange | Host/Encoder.cpp:1246-1252 | with fixed limits the target stays in [min, max(min, min(max, profile ceiling))] over every run |
| BitrateController.RunKeepsArmed | Host/Encoder.cpp:837-890 | for 30 s after a back-off a ceiling of at most 0.9 of the old bitrate, or the floor, stays armed |
| BitrateController.BackOffArms | Host/Encoder.cpp:847-857 | a back-off arms the ceiling and lowers the target below it |
| BitrateController.RemembersCongestionIff | Host/Encoder.cpp:837-890 | no reports and ceiling changes of the next 30 s raise the target above max(floor, 0.9 of the bitrate), for all measured losses and round-trip times, if and only if the encoder's floor is at least 2 bps or no increase above the controller's floor fits |
| BitrateController.OneBitForgets | Host/Encoder.cpp:846-889 | the run that forgets a back-off at 1 bps |
| BitrateController.HostRemembersCongestion | Host/ConfigUtils.cpp:99-120 | with a floor of at least 500 kbps, which the host's configuration enforces, congestion is always remembered |
| BitrateController.ProfileSetsTarget | Host/CaptureHelpers.cpp:574-597 | a changed profile bitrate, clamped to the limits, is the target, whatever was remembered |
| BitrateController.ProfilesKeepMemoryIff | Host/CaptureHelpers.cpp:574-597 | with profiles applied during the 30 s the target stays within the remembered bound, over all runs, if and only if each changed bitrate applied is within it |
| BitrateController.RunHolds | Host/Encoder.cpp:837-890 | the invariant of these runs: an armed ceiling, or limits under which nothing rises, through reports, ceilings and allowed profiles |
| BitrateSteps.BackOffLeavesTenths | Host/Encoder.cpp:846-858 | a congested report leaves 0.9 of the bitrate under 20 ms, 0.6 from afar with a loss of a tenth or more and 0.8 otherwise, to the whole bit, or the floor if that is higher; it remembers 0.9 and the time |
| BitrateSteps.MoreLossCutsNoLess | Host/Encoder.cpp:853-855 | of two reports that back off at the same round-trip time the one with more loss never leaves the higher target |
| BitrateSteps.OtherReportsStep | Host/Encoder.cpp:859-889 | any other report raises the target by one step, two near the host, if and only if it is clean, enough clean reports and time have passed and the target fits under every limit, an armed ceiling of less than 31 s included |
| BitrateSteps.GenerationTellsChange | Host/Encoder.cpp:1246-1261 | a report or a ceiling raises the generation if and only if it changes the target |
| BitrateSteps.IncreasesAreSlow | Host/Encoder.cpp:862-889 | over any run of reports and ceilings n increases take at least n times the shorter of 500 ms and the interval, and raise the target by at most 2 n steps |
| BitrateSteps.TargetRespectsLastCeiling | Host/Encoder.cpp:815-821 | over any run the target is within the configured limits and at most the ceiling set last, but never below the minimum |
| CapturePool.Capture.constructor | Host/CaptureHelpers.cpp:498-505 | the pool has at least two textures and one more than the queue can hold |
| CapturePool.Capture.AcquireCopyTextureLocked | Host/CaptureHelpers.cpp:196-250 | the first matching free texture, else after discarding the free ones the oldest queued frame's, else a new one under the cap |
| CapturePool.Capture.OnFrameSelected | Host/CaptureHelpers.cpp:393-431 | a frame is numbered and gets a texture, or counts as dropped |
| CapturePool.Capture.OnCopyDone | Host/CaptureHelpers.cpp:432-446 | the frame is queued and the oldest frames beyond the depth are dropped, counted and recycled |
| CapturePool.Capture.DropOldest | Host/CaptureHelpers.cpp:432-438 | the oldest frames leave in order and their textures return to the free list |
| CapturePool.Capture.ConsumerTake | Host/CaptureHelpers.cpp:556-572 | the consumer gets the newest frame; the older ones are counted as skipped and recycled |
| CapturePool.Capture.ConsumerFinish | Host/CaptureHelpers.cpp:599-676 | stale, skipped, dropped or offered, with the order check; the texture returns |
| CapturePool.StepKeepsOwned | Host/CaptureHelpers.cpp:192-250 | each locked section keeps every texture in exactly one place, their number equal to the allocation count, and the cap |
| CapturePool.AcquireKeepsOwned | Host/CaptureHelpers.cpp:196-250 | acquisition hands out a texture that is in no place any more, across size changes too |
| CapturePool.StepKeepsOrder | Host/CaptureHelpers.cpp:556-628 | each step keeps sequence numbers growing from processed to next, and the ledger balanced |
| CapturePool.CaptureIsSound | Host/CaptureHelpers.cpp:393-676 | in every reachable state: ownership, cap, ledger balance, strictly increasing numbers at the consumer, out-of-order count 0 |
| CapturePool.AcquisitionNeverStarves | Host/CaptureHelpers.cpp:196-250 | in every reachable state with at least two textures, acquisition yields a matching texture if creation works |
| NewestFrames.QueueHoldsNewest | Host/CaptureHelpers.cpp:432-446 | in every reachable state the queue holds the frames copied last, at most the configured number |
| NewestFrames.ConsumerTakesNewest | Host/CaptureHelpers.cpp:557-572 | in every reachable state the consumer takes the frame copied last, which has the greatest number queued; the queue is then empty, the textures of the others are free, and each of them counts as skipped |
| NewestFrames.CopiedFrameDropsOldest | Host/CaptureHelpers.cpp:432-446 | a copied frame is queued last; a full queue loses its oldest frame for it, counted and with its texture free |
| NewestFrames.FramesGiveWayOnlyWhenFull | Host/CaptureHelpers.cpp:196-250 | in every reachable state a free texture that fits is used; else a new one as long as the queue and the consumer do not use up the pool; only then the oldest queued frame gives way, and hands on its texture if that fits |
| NewestFrames.QueueGivesWayOnlyWhenFull | Host/CaptureHelpers.cpp:498-505 | with the pool that capture starts with, that needs a full queue and a frame in the consumer's hand |
| NewestFrames.PoolFollowsConfiguration | Host/CaptureHelpers.cpp:498-505 | the pool has the configured number of textures if that is 2 to 32 and one more than the queue can hold, and else the nearest number that is |
| NewestFrames.FinishReturnsTexture | Host/CaptureHelpers.cpp:601-676 | in every reachable state a finished frame frees its texture, and its number is noted as processed unless it was stale |
| NewestFrames.CountersCountOutcomes | Host/CaptureHelpers.cpp:562-676 | over every run each counter of the consumer is the number of frames with that outcome, those passed over included |
| FramePacer.Pacer.SelectFrameForOutput | Host/CaptureHelpers.cpp:160-182 | the schedule after a source frame, and its presentation timestamp when it is kept |
| FramePacer.DeadlineBehindSlot | Host/CaptureHelpers.cpp:160-182 | at a fixed rate the deadline after each frame is the start of the slot behind that frame's |
| FramePacer.SlotIsElapsedFrames | Host/CaptureHelpers.cpp:160-182 | at a fixed rate the slot of a frame is the whole number of frame times since the first one, a rate below one counting as one |
| FramePacer.ClockStandsForSource | Host/CaptureHelpers.cpp:160-182 | a positive source time is used as it is, and without one the clock stands for it |
| FramePacer.PacerIsTheSlotRule | Host/CaptureHelpers.cpp:160-182 | at a fixed rate the schedule never restarts after the first frame, and a frame is kept exactly when it is the first in its slot, stamped with the slot's start |
| FramePacer.KeptCountIsSlotCount | Host/CaptureHelpers.cpp:160-182 | as many frames are kept as slots were hit |
| FramePacer.NoDrift | Host/CaptureHelpers.cpp:160-182 | at most one kept frame per elapsed slot, and exactly one when and only when every slot holds a source frame |
| FramePacer.RunIsOnTime | Host/CaptureHelpers.cpp:160-182 | across arbitrary rate changes the deadline is at most a slot ahead, and no stamp is ahead of its source |
| FramePacer.StampsNeverGoBack | Host/CaptureHelpers.cpp:160-182 | kept stamps are in order and never exceed a tenth of the source time, however the rate changes |
| FramePacer.StampsAdvance | Host/CaptureHelpers.cpp:160-182 | at a fixed rate of up to a million frames a second stamps are strictly increasing, at least a rounded frame time apart |
| SampleDurations.SamplePacer.UpdatePacingFromTimestamp | Host/Encoder.cpp:222-239 | the duration of a sample, and what is remembered for the next |
| SampleDurations.UnstampedSampleIsSkipped | Host/Encoder.cpp:222-226 | a sample without a timestamp changes nothing for the durations of those behind it |
| SampleDurations.DurationsAddUp | Host/Encoder.cpp:222-239 | for stamps with gaps in (500 us, 2 s) the durations after the first add up to the time spanned |
| SampleDurations.NominalIsFrameTime | Host/Encoder.cpp:215-220 | the nominal duration is the frame time in whole microseconds, 8333 without a frame rate |
| SampleDurations.DurationIsGapOrRepeated | Host/Encoder.cpp:222-239 | over any run from the start the first sample has the nominal duration, and each later one the time since the sample before it if that is more than 500 us and less than 2 s, and else the duration of that sample |
| SampleDurations.SurvivorsKeepTheTimeline | Host/Encoder.cpp:222-239 | whichever scheduled frames survive, the sent durations span exactly their stamps as long as no gap reaches 2 s |
| MediaPath.RunKeepsInv | Host/CaptureHelpers.cpp:393-676 | from callback to encoder every frame carries the stamp of the source frame that has its number, in order |
| MediaPath.OfferedStampsNeverGoBack | Host/CaptureHelpers.cpp:393-676 | over every run, with every loss on the way and across rate changes, the stamps offered to the encoder are in order, and none is ahead of its source frame |
| MediaPath.RunKeepsAccounts | Host/Encoder.cpp:222-239 | over every run, with any openings, a first sample after an opening has the nominal duration, and any other the gap to the frame before it if plausible and else the duration before it |
| MediaPath.SampleIsGapIff | Host/Encoder.cpp:222-239 | at a fixed rate of up to 1000 frames a second, and behind a positive stamp, a sample is sent with the time since the frame before it if and only if that is below 2 s or, after an opening, is the nominal frame time |
| MediaPath.OfferedFramesKeepTheTimeline | Host/Encoder.cpp:902-906 | at a fixed rate of up to 1000 frames a second the offered stamps increase, and between any two frames of any run, from a positive stamp on, the durations are the span less gap minus nominal at each opening and gap minus previous duration at each gap of 2 s or more; exact if there is none, and if and only if these losses add up to 0 |
| MediaPath.ReopeningLosesTime | Host/CaptureHelpers.cpp:633-661 | the run from the start at 60 frames a second on which a resize makes a sample 16666 us long where 1.5 s passed |
| SessionLifecycle.HostRuntime.HandleMarketplaceCommand | Host/Runtime.cpp:472-477 | commands queue up to 64 and are ignored beyond |
| SessionLifecycle.HostRuntime.QueueTargetSelection | Host/Runtime.cpp:150-159 | a valid selection is pending; one with an empty, long or non-plain name or a long title is refused |
| SessionLifecycle.HostRuntime.ApplyPendingTargetSelection | Host/Runtime.cpp:165-189 | a pending selection detaches capture and waits for the target |
| SessionLifecycle.HostRuntime.AttachTarget | Host/Runtime.cpp:434-470 | the outcome of an attachment; only success starts capture |
| SessionLifecycle.HostRuntime.DetachTarget | Host/Runtime.cpp:609-622 | nothing is captured |
| SessionLifecycle.HostRuntime.ApplyMarketplaceCommand | Host/Runtime.cpp:479-555 | the state and the reports after the oldest command |
| SessionLifecycle.HostRuntime.PrepareSession | Host/Runtime.cpp:510-555 | re-acknowledge, host busy, invalid, failed launch, or activation with its deadlines |
| SessionLifecycle.HostRuntime.CleanupSession | Host/Runtime.cpp:557-580 | an active session ends with one terminal report and leaves nothing of it behind; without one nothing happens |
| SessionLifecycle.HostRuntime.FindTarget | Host/Runtime.cpp:637-663 | the tick without capture: launch timeout, polling and attaching |
| SessionLifecycle.HostRuntime.LoseWindow | Host/Runtime.cpp:665-677 | the tick without a window: grace period, then the session fails or the target is waited for |
| SessionLifecycle.HostRuntime.ReportSession | Host/Runtime.cpp:680-691 | the readiness reports, and the single extension of the deadline |
| SessionLifecycle.HostRuntime.FollowPeer | Host/Runtime.cpp:692-700 | the state follows a changed peer state |
| SessionLifecycle.HostRuntime.Tick | Host/Runtime.cpp:624-701 | the state and the reports after one tick |
| SessionLifecycle.HostRuntime.Stop | Host/Runtime.cpp:725-784 | an active session is failed, and everything queued is gone |
| SessionLifecycle.TickKeepsTidy | Host/Runtime.cpp:624-701 | a tick keeps the invariant of log, state and deadlines, and a surviving session is inside its deadlines |
| SessionLifecycle.RunKeepsTidy | Host/Runtime.cpp:479-784 | so does every run of commands, selections, ticks and stops |
| SessionLifecycle.ExactlyOneTerminalReport | Host/Runtime.cpp:557-580 | over every run each activation is followed by exactly one terminal report naming it before the next activation or Stopped, and Idle means no session and no capture |
| SessionLifecycle.SessionLifetimeIsBounded | Host/Runtime.cpp:633-650 | a session that survives a tick at t has t < deadline <= activation + 180 s + 2 durations, and without capture t < activation + 180 s |
| SessionLifecycle.PrepareWhileActive | Host/Runtime.cpp:506-517 | preparing while a session is active only answers: acknowledged again, or host busy |
| SessionLifecycle.AnswersFitTheOpenSession | Host/Runtime.cpp:506-555 | over every run a host-busy answer is given only while another session is open, and a launch is acknowledged only for the open one |
| SessionCauses.StopEndsItsSession | Host/Runtime.cpp:500-505 | a tick whose command is a stop naming the open session reports that it ended for the given reason and nothing else, and leaves no session and, unless a target was selected, no capture |
| SessionCauses.OtherStopIsIgnored | Host/Runtime.cpp:500-505 | a stop naming another session only leaves the queue: the tick is that of the runtime without a command |
| SessionCauses.ControlReadyGreets | Host/Runtime.cpp:492-499 | a ready control channel is greeted with the open session, which is reported again at once |
| SessionCauses.PrepareOpensSession | Host/Runtime.cpp:507-555 | a valid prepare on a host without a session, with a game that is found and starts, opens exactly that session with three minutes to launch and then its duration |
| SessionCauses.PrepareFails | Host/Runtime.cpp:517-536 | any other prepare on such a host opens none and tells whether it was invalid or the launch failed |
| SessionCauses.SessionEndsIffCause | Host/Runtime.cpp:624-674 | a tick ends the open session if and only if a stop names it, its duration is over, its launch window is over without a captured game, or the window was gone for the grace period; the last report names the first cause that holds |
| SessionCauses.ReportsHaveCauses | Host/Runtime.cpp:479-555 | over every run, behind a session ended on request is a received stop with its id and reason, behind an opened one a received prepare with its id and valid values, behind one that failed with the host a stop |
| SessionCauses.ConnectionIsReported | Host/Runtime.cpp:678-687 | over every run a session that counts as connected was reported as connected |
| SessionCauses.CapturedTickFollowsPeer | Host/Runtime.cpp:677-701 | which report a tick with a captured window makes and when, what a delivered connection does to the deadline, and how a changed peer shows in the state |
| SessionCauses.CaptureStartsIffFound | Host/Runtime.cpp:637-661 | a tick without a captured target starts capture if and only if a poll is due and the target is found and can be captured |
| SessionCauses.LostWindowIsTimed | Host/Runtime.cpp:663-675 | the time since which the window is gone is kept until it is back, and without a session the target is awaited after the grace period |
| AudioRing.RingBuffer.Push | Host/AudioCapturer.cpp:3879-3905 | a frame that is too large is refused; else the oldest frame makes room and the new one is held |
| AudioRing.RingBuffer.Pop | Host/AudioCapturer.cpp:3907-3928 | the oldest frame and its timestamp leave the ring |
| AudioRing.RingBuffer.constructor | Host/AudioCapturer.cpp:3856-3877 | three silent slots, none held |
| AudioRing.RingKeepsTheNewest | Host/AudioCapturer.cpp:3879-3928 | over every run the encoder gets an in-order selection, the ring holds the newest frames, at most three, and pushed = popped + dropped + held |
| AudioFraming.Capturer.FillFrame | Host/AudioCapturer.cpp:3228-3249 | as many samples as fit are copied behind those under way; the first one's time is kept; the buffer only grows |
| AudioFraming.Capturer.FinishFrame | Host/AudioCapturer.cpp:3252-3259 | the whole working buffer is pushed, so the ring takes it only when it is exactly one frame |
| AudioFraming.Capturer.ProcessAudioFrame | Host/AudioCapturer.cpp:3210-3274 | one block is cut into frames that reach the ring in order, and the recursion ends |
| AudioFraming.CutIsSlicing | Host/AudioCapturer.cpp:3210-3274 | frames and rest of a block are what was under way and the block, in order, each frame of full size |
| AudioFraming.FramesAreInputSlices | Host/AudioCapturer.cpp:3210-3274 | whatever the block boundaries, frame k is the k-th slice of the concatenated input, and there are as many frames as fit |
| AudioFraming.CaptureBlocks | Host/AudioCapturer.cpp:3235-3259 | the ring has seen exactly these frames if a frame has at least 960 samples, and nothing otherwise |
| AudioStamps.StampsAreEven | Host/AudioCapturer.cpp:3231-3272 | frames that start in a block that finds nothing under way are one rounded frame time apart, the one left under way included |
| AudioStamps.StampsOfBlock | Host/AudioCapturer.cpp:3231-3272 | the stamp of every frame that starts in a block, with whatever the block finds under way |
| AudioStamps.StartedKeepsStamp | Host/AudioCapturer.cpp:3231-3259 | a frame that has started keeps its stamp through later blocks, whichever completes it |
| AudioStamps.BlocksStampRuns | Host/AudioCapturer.cpp:3210-3274 | any relation of stamp, block time and offset that the clock keeps in single blocks holds for all frames of all runs of blocks |
| AudioStamps.StampsAccurateIff | Host/AudioCapturer.cpp:3231-3272 | for all runs of blocks, every frame that has started, complete or not, is stamped to half a microsecond of its first sample in its block, if and only if a frame has a multiple of six samples per channel |
| AudioStamps.HostFramesAreAccurate | Host/AudioCapturer.cpp:278-300 | so are all frames of whole milliseconds, which are all that the host configures |
| AudioPath.CaptureAndEncode | Host/AudioCapturer.cpp:3210-3274 | on any mix of blocks and pops the code leaves the ring and gives the encoder what the run says |
| AudioPath.EncoderGetsInputSlices | Host/AudioCapturer.cpp:3879-3928 | over any mix of blocks and pops the encoder gets slices of the captured input at increasing positions, the ring holds the newest, and frames of fewer than 960 samples never arrive |
| AudioPath.ChannelsOfFrame | Host/AudioCapturer.cpp:3265-3268 | the channels derived from the frame length are the configured ones |
| AudioPath.EncoderGetsAccurateStamps | Host/AudioCapturer.cpp:3231-3272 | with frames of a multiple of six samples per channel, every frame the encoder gets is stamped to half a microsecond of its first sample in the block in which it starts |
| AudioPath.PathPushesFrames | Host/AudioCapturer.cpp:3210-3274 | the frames pushed along the way are the frames of the captured blocks |
| LruCache.Cache.Get | Host/Encoder.cpp:66-72 | the value of the key, if present, which is now the most recent one |
| LruCache.Cache.Put | Host/Encoder.cpp:73-83 | the key has the value and is the most recent one; beyond the capacity the least recent one is gone |
| LruCache.Cache.SetCapacity | Host/Encoder.cpp:58-61 | the least recent entries beyond the new capacity are gone |
| LruCache.Cache.Clear | Host/Encoder.cpp:62-65 | the cache is empty |
| LruCache.Cache.Splice | Host/Encoder.cpp:69-69 | a node moves to the front, and list and map still lead to the same nodes |
| LruCache.Cache.EvictBack | Host/Encoder.cpp:86-94 | the loop keeps the most recent entries, as many as the capacity |
| LruCache.RunKeepsConsistent | Host/Encoder.cpp:55-99 | after any run list and map hold the same keys, each once, and no more than the capacity |
| LruCache.HitReturnsLastPut | Host/Encoder.cpp:66-83 | a hit gives the value last put under the key since the last clearing |
| LruCache.OrderIsRecent | Host/Encoder.cpp:66-94 | with a fixed capacity the list is the most recently used keys of the whole run |
| LruCache.PresentIff | Host/Encoder.cpp:66-94 | with a fixed capacity a key is present if and only if it was used and fewer other keys than the capacity were used since |
| FrameDropper.QualityController.UpdateNetworkStats | Host/AdaptiveQualityControl.cpp:217-232 | the statistics, and the flag of the fast path |
| FrameDropper.QualityController.ShouldDropFrame | Host/AdaptiveQualityControl.cpp:120-215 | the decision and the new state: disabled, fast path, too soon, ratio |
| FrameDropper.WorseNetworkIsNoBetter | Host/AdaptiveQualityControl.cpp:78-118 | for any thresholds the condition is monotone in round-trip time, loss and queue length |
| FrameDropper.DropsAreWholePart | Host/AdaptiveQualityControl.cpp:178-191 | over any ratios in (0, 1] the drops are the whole part of accumulator and ratios, and the rest stays in [0, 1) |
| FrameDropper.UntilNextIsExact | Host/AdaptiveQualityControl.cpp:178-191 | the announced number is exactly how many further frames at the same ratio bring the next drop |
| FrameDropper.RunAccumulates | Host/AdaptiveQualityControl.cpp:120-215 | in any run of frames and feedback the accumulator sees the applied ratios only, and a drop is one of its own or of a hurried frame |
| FrameDropper.RunDropsExactly | Host/AdaptiveQualityControl.cpp:120-215 | with no ratio zero, the frames dropped are the hurried ones and the whole part of the sum of ratios |
| FrameDropper.RunKeepsFraction | Host/AdaptiveQualityControl.cpp:120-215 | the accumulator stays in [0, 1), and counted frames are sent or dropped |
| FrameDropper.AcceptedAreApart | Host/AdaptiveQualityControl.cpp:134-145 | frames accepted in a row are at least the minimum interval apart, whatever clock and feedback do |
| FrameDropper.FlagIsCurrent | Host/AdaptiveQualityControl.cpp:217-232 | after feedback the flag is set exactly when the current condition is fair or worse |
| DropShares.ShowsWhatIsAssessed | Host/AdaptiveQualityControl.cpp:78-118 | critical is when all measures are poor, poor when some is, fair when some is fair, excellent when none exceeds its best threshold, good otherwise |
| DropShares.FrameIsDroppedIff | Host/AdaptiveQualityControl.cpp:120-215 | in every state of every run a frame is dropped if and only if there is an interval or the network was last reported bad, and it comes too soon after the last accepted one or its share makes the accumulator whole |
| DropShares.DecisionTellsWhy | Host/AdaptiveQualityControl.cpp:120-215 | what the decision tells: condition, share and, with a drop, the least number of further frames until the next |
| DropShares.SteadyNetworkDropsShare | Host/AdaptiveQualityControl.cpp:147-191 | of n frames on a steady network, spaced by the interval, the whole part of n times the configured ratio of its condition is dropped, and without an interval none unless the network is bad |
| FastPath.FastRunIsRun | Host/AdaptiveQualityControl.cpp:120-215 | the controller compared is the one of the code |
| FastPath.OccursIff | Host/AdaptiveQualityControl.cpp:78-118 | which conditions occur for measured statistics, by the thresholds |
| FastPath.HarmlessAgrees | Host/AdaptiveQualityControl.cpp:120-215 | for a harmless configuration both controllers drop the same frames and keep the same accumulator, in every run |
| FastPath.HarmfulDisagrees | Host/AdaptiveQualityControl.cpp:125-130 | for any other there is a run from the start on which they drop different frames |
| FastPath.FastPathAgreesIff | Host/AdaptiveQualityControl.cpp:125-130 | over all runs with measured statistics and a steady clock the fast path drops the same frames as the controller without it, if and only if there is a minimum interval, or a quiet network has ratio 0 and either counts as bad already or no good condition that occurs has a ratio and every bad one has 0 or 1 |
| FastPath.ShippedFastPathMisplacesDrops | config.json:147-165 | the shipped configuration drops nothing on a good network and still fails, on the given run |
| PipeFraming.Pipe.ReadExact | Host/AgentServer.cpp:54-63 | with any short reads, all bytes in order; on a healthy pipe it fails exactly when the stream is too short |
| PipeFraming.Pipe.WriteAll | Host/AgentServer.cpp:65-74 | with any short writes, all bytes in order, or a front of them when a call fails |
| PipeFraming.Pipe.Send | Host/AgentServer.cpp:384-392 | a payload of 1 byte to 1 MiB leaves its frame; any other leaves nothing |
| PipeFraming.Pipe.HandleConnection | Host/AgentServer.cpp:220-239 | the messages of the stream in order, all of them on a healthy pipe |
| PipeFraming.Pipe.ReadMessage | Host/AgentServer.cpp:222-228 | one message is read, or none is left |
| PipeFraming.RoundTrip | Host/AgentServer.cpp:220-229 | reading the frames of any acceptable payloads gives the same payloads |
| PipeFraming.CutStreamGivesWholeFrames | Host/AgentServer.cpp:54-74 | a stream cut at any byte gives exactly the messages that were sent whole |
| PipeFraming.InvalidLengthEndsReading | Host/AgentServer.cpp:224-227 | a length out of range ends the reading after the messages before it |
| PipeFraming.FrameLayout | Host/AgentServer.cpp:384-392 | a frame is the length in four bytes, least significant first, and the payload |
| PipeFraming.FirstMessageIff | Host/AgentServer.cpp:220-229 | a stream has a first message if and only if its first four bytes give a length of 1 to 1 MiB and that many bytes follow, which are the message |
| PipeFraming.ArrivesIff | Host/AgentServer.cpp:384-392 | a payload of less than 4 GiB arrives if and only if it has 1 byte to 1 MiB |
| PipeSenders.WireHoldsAttempts | Host/AgentServer.cpp:384-392 | in every reachable state of any number of senders that lock, write in parts, finish or fail, the pipe has the written fronts of their frames in lock order, and each sender's are its acceptable payloads in its own order |
| PipeSenders.StreamIsFramedIff | Host/AgentServer.cpp:358-392 | the stream is the frames sent whole and at most one cut frame at the end, if and only if no bytes follow a cut frame |
| PipeSenders.ReaderMisreads | Host/AgentServer.cpp:358-392 | a run with a send behind a failed one, on which the reader gets a message nobody sent |
| PipeSenders.ReaderFindsDelivered | Host/AgentServer.cpp:220-229 | as long as no bytes follow a cut frame, a reader finds exactly the payloads sent whole, in lock order |
| PipeSenders.AllArriveInOrder | Host/AgentServer.cpp:384-392 | when no write failed, the reader gets every attempted payload once in lock order, and a sender that is through has attempted all its acceptable payloads in its order |
| PipeSenders.SendFrom | Host/AgentServer.cpp:384-392 | a send of the code is a run of these steps, whatever parts its writes come in |
| PipeSenders.Receive | Host/AgentServer.cpp:220-239 | as long as no bytes follow a cut frame, the reading loop hands on what was sent whole, all of it on a healthy pipe |
| StreamProfiles.Manager.Configure | Host/StreamProfileManager.cpp:33-54 | limits are clamped; a supported default becomes the pending request, any other leaves the handshake alone |
| StreamProfiles.Manager.Request | Host/StreamProfileManager.cpp:56-82 | granted exactly for a session and an H.264 client within its capabilities and the limits; both answers replace the current request |
| StreamProfiles.Manager.RequestOperatorDefault | Host/StreamProfileManager.cpp:84-92 | the operator's default becomes the pending request |
| StreamProfiles.Manager.TakePending | Host/StreamProfileManager.cpp:94-99 | the pending profile is handed out and gone |
| StreamProfiles.Manager.MarkApplied | Host/StreamProfileManager.cpp:101-107 | the requested profile becomes active; any other report changes nothing |
| StreamProfiles.Manager.MarkRejected | Host/StreamProfileManager.cpp:109-114 | the requested profile is rejected; any other report changes nothing |
| StreamProfiles.Manager.ClearSession | Host/StreamProfileManager.cpp:116-125 | the owner's session gives way to the operator's default; any other changes nothing |
| StreamProfiles.Consumer.TakeProfile | Host/CaptureHelpers.cpp:574-597 | the consumer takes the pending profile and reports at once when no new encoder is needed |
| StreamProfiles.Consumer.EncoderDone | Host/CaptureHelpers.cpp:647-661 | the profile held is reported as applied or rejected, once |
| StreamProfiles.HandshakeIsSound | Host/StreamProfileManager.cpp:56-125 | in every run the active profile is supported, and Active means active = requested |
| StreamProfiles.StepEffects | Host/StreamProfileManager.cpp:56-125 | the generation grows by one per request and only then; a request leaves active alone; a report on another profile changes nothing |
| StreamProfiles.TakenAtMostOnce | Host/StreamProfileManager.cpp:94-99 | every granted request is taken at most once, with its own profile, in the order of requests |
| StreamProfiles.GrantedBecomesActive | Host/CaptureHelpers.cpp:574-661 | a granted request that no other overtakes becomes active and stays so, whatever the consumer reports before it takes it, when the first report after the take is a success |
| StreamProfiles.RefusedBecomesActiveIff | Host/StreamProfileManager.cpp:101-107 | a refused request can become active without another request if and only if the consumer held the same profile when it was refused |
| StreamProfiles.RefusedBecomesActive | Host/StreamProfileManager.cpp:101-107 | from every start and for every session such a run exists: the default is taken, a client that cannot show it asks for it and is refused, and it becomes active |
| ProfileGrants.LimitsFollowConfiguration | Host/StreamProfileManager.cpp:36-38 | limits between 500 kbps and 50 Mbps hold as configured; others are moved to the nearest that do |
| ProfileGrants.RequestIsGrantedIff | Host/StreamProfileManager.cpp:56-82 | a request is pending afterwards if and only if it comes from a session, asks for 720p, 1080p or 1440p at 30, 60 or an allowed 120 frames a second within the bitrate limits, and its client can show it; else it is rejected |
| ProfileGrants.DefaultReturns | Host/StreamProfileManager.cpp:84-125 | the operator's default is requested when he asks or the session that asked last ends, and not when another ends |
| ProfileGrants.TakeWaitsForEncoder | Host/CaptureHelpers.cpp:574-597 | a taken profile is active at once if and only if it has the size of the active one and no bitrate change is pending; else it is held until the encoder is opened |
| ProfileGrants.ReportSettlesHeld | Host/CaptureHelpers.cpp:647-661 | the report on the encoder makes the profile held active or rejected if it is still the one requested, and else changes no state |
| ProfileGrants.ActiveProfileIsOffered | Host/StreamProfileManager.cpp:56-125 | over every run of a configured host the active profile is on offer and is the default or was asked for in a session by a client that can show it |
| AnnexB.IsIdrFromNalBytes | Host/Encoder.cpp:263-281 | true if and only if some position holds 00 00 01 followed by a byte with low five bits 5 |
| AnnexB.ScanFindsIdrUnits | Host/Encoder.cpp:262-281 | for every byte stream of well-formed NAL units, with start codes of any length, the scan finds exactly whether a unit is of type 5 |

## Left out

- BitrateController.RemembersCongestionIff: limits and controller settings are fixed during a run; reports and ceiling changes are atomic steps.
- BitrateReopen.NoStaleBitrate: does not cover a reconfiguration of the start bitrate or limits during a run, which changes the target without the protocol.
- InputPipeline.NoKeySticksIff: one authorized session, with each producer call and each consumed message as one atomic step; a message already taken when an overflow clears its queue is not covered.
- InputDelivery.KeysArriveIff: a disturbed step is an overflow, a dangerous combination, or a reset, stuck-key recovery or gap recovery that finds a held key; what a run keeps of the converse after one is not stated.
- InputPipeline.HostKeysStickOnlyOnEnter: held keys are those of the key state machine; the foreground-window gate in front of the injection and the key state of the operating system are not modelled.
- InputPipeline.InputHost.ClearSession: does not model the hand-over to another session, where messages of the old one may still be queued.
- MediaPath.OfferedFramesKeepTheTimeline: each offered frame is taken to come out of the encoder once, in order and with its stamp.
- CapturePool.CaptureIsSound: pool size and queue depth are fixed during a run; each section under the queue lock is one step.
- FastPath.FastPathAgreesIff: compares which frames are dropped; the reported condition and the counters of a frame on the fast path differ anyway.
- FrameDropper.RunDropsExactly: ratios are real numbers, so rounding of floating-point sums is not modelled, nor is the overflow of the 32-bit result for tiny ratios; the configuration is fixed during a run.
- SessionLifecycle.ExactlyOneTerminalReport: a report is logged when the runtime tries to send it; a restart after Stopped and exceptions of the services are not modelled.
- InputPipeline.InputHost.ReleaseEverything: the mouse handler's own release of buttons, the last call of the source's reset, is not modelled.
- PipeFraming.Pipe.HandleConnection: JSON parsing, dispatch and the content of replies; a reply that cannot be sent ends the loop, as a shutdown does.
- StreamProfiles.HandshakeIsSound: starts after one accepted configuration and leaves out a second one; the texts of errors and rejections are not modelled.
- AudioStamps.StampsAccurateIff: the time of a block is taken as given; capture, resampling and the Opus encoder are not modelled.
- Widths of counters, generations, sequence ids and timestamps: unbounded integers, but for the 64-bit difference of the stuck-key timeout.
- Mouse injection queue, and the maps from virtual keys and scan codes back to codes, which do not decide what is held.
- Key metadata of the state manager other than phase and time, and the statistics counters of all layers.
- Audio, websocket and presence flags of the runtime, target names, identifiers and persistence.
- Win32, COM, WASAPI, Direct3D, FFmpeg, Opus and Pion calls: their outcomes are parameters.
- Audio bitrate and error-correction adaptation, the tray application, updates, secrets and the matchmaker client.
