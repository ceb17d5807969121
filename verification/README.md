# DeskLink: verified models of its stateful kernels

DeskLink is a remote desktop application. This project models, in Dafny, the small stateful
programs that sit between its window, its codecs and its command boundary, and two algorithms of its
release tooling, and proves what they keep in every run:

- the remote input pipeline: the dispatcher queue and its one asynchronous pump, the held keys and
  buttons, and the gate that makes input live only after a frame was seen;
- the audio path: the host's streaming resampler and packetiser, and on the controller the buffer
  pool, the generation protocol with the audio worklet and the drop-oldest ring buffer;
- H.264 byte-stream scanning (Annex B, section B.1 of ITU-T Rec. H.264) and header prepending;
- the Windows updater with its racing checks, installs and cancels, and its version order;
- the Rust source gate: the lexer that masks comments and literals, the bracket matcher and the
  module reachability worklist;
- the verifier's task selection and task runner, and the serial video pull loop.

## How it is built

Where the source changes objects step by step the model is a class with the same fields. Code between
two awaits is one method; public calls and continuations may follow each other in any order, so an
invariant that all methods keep holds in every interleaving. Three techniques recur.

- A run is a value. The dispatcher carries a ledger and the list of steps that led to it
  (`DispatchLedger`); `EveryRunIsSound` proves the invariant for every legal list, and
  `DispatchTheorems` reads the promises off it. The updater and the pull loop carry a history in the
  same way.
- A step is a function. Every method of `RemoteAudioPlayer` ends in the state that the function of the
  same name in `AudioTransfer` gives for the old state, so `RunIsSafe`, proved for every sequence of
  such steps, is about that class, and every public method keeps its invariant. The ring buffer, the
  keyboard and the worklet are tied to functions in the same way.
- A simple definition beside the fast form. The mask, the bracket scan, the NAL scan, the resampler and
  the worklist are loops proved equal to a definition, and the promises are proved of the definition.
  Where a definition decides something itself, a second statement says it in other terms, in characters,
  numbers or fields: the lexical forms in `RustTokens`, the steps of the player in `AudioPlayerSteps`, the
  positions of the resampler in source frames, versions by their spellings, checks by how commands end.

`Options.dfy` and `Decimal.dfy` are shared helpers. `dafny verify dfyconfig.toml` checks everything.

## Where a promise is false

Each of these has an input in the model and the exact condition under which the promise holds; where a
condition is only sufficient this is said.

- Preparing an access unit twice is not always preparing it once: a header without both parameter sets
  is prepended again on every call (`H264AnnexB.PreparingTwice`, `PreparingTwiceCanDiffer`).
- The NAL scan never looks for a start code at the header byte of the unit before, so it lists every
  header exactly when no NAL unit is empty (`ScanFindsEveryHeader`, `EmptyUnitHidesAHeader`).
- Two keys that send one name, as Enter and NumpadEnter do, make it go down twice, and the release of
  one lets it up while the other is held. Modifiers never do this. (`RemoteKeyboardRuns.MirrorsExactly`,
  `TwoEnterKeys`.) Nothing stays down after releaseAll in any case.
- A button is pressed twice in a row when a second pointer goes down on it
  (`HeldButtons.ButtonAlternatesExactly`, `TwoPointers`).
- The ring buffer drops stale samples only at the front, so a stale sample behind a fresh one is heard
  (`RemoteAudioPlayback.NextRenderIsFreshExactly`, `PlayingIsFreshExactly`, `HeardCanBeStale`). Behind the
  player this cannot happen while no context clock runs backwards
  (`AudioFreshness.HeardThroughWorkletIsFresh`).
- A file kept because no root reaches it can lose a module that it declares unconditionally
  (`ModuleReachability.ProductionIsClosedExactly`, `KeptFileLosesItsModule`). Without a cycle of
  declarations there is no such file (`AcyclicIsClosed`).
- A plan can leave out a needed task, or stand beside a needed cycle, when two needed tasks share an id
  (`TaskSelection.PlanIsExact` and `PlanIsSoundExactly`, with the inputs `RepeatedIdsCanDiffer` and
  `PlanBesideCycle`). Distinct ids are exactly the condition for both halves together and for the first;
  for the second alone they suffice (`NoNeededCycle`) but are not necessary, as `RepeatedIdsCanDiffer` shows.
- A pull loop whose retry wait is rejected ends while its key stays active, so starting that key again
  does nothing (`VideoPull.SerialVideoPull.LoopInChargeExactly`, `VideoPull.RejectedWaitStalls`). The
  default wait is a timer and never rejects; this needs another one passed to the constructor.

Two things that are no promise but may surprise: a refused resume of the current context turns a failed
player into a paused one (`AudioPlayerStatus.FailureStays` lists all ways out of a failure), and the
converter's clamp to -1 and 1 never acts on an interpolated sample, in exact arithmetic
(`AudioConversion.EmittedAreInterpolations`).

## Model

| member | source | states |
|---|---|---|
| DispatchTheorems.KeptIsFifoUpToCoalescing | apps/windows-ui/src/remote-input-dispatcher.ts:139-236 | In every interleaving, discards included, the accepted events are those dropped and those kept, in order; what was taken, is in flight and is unsent is the kept events in order, up to the allowed coalescings, and the calls are those of the items taken, each cut short only by a failure or a cancel |
| DispatchTheorems.DroppedAreUnsent | apps/windows-ui/src/remote-input-dispatcher.ts:139-158 | Discarding moves drops exactly the unsent moves, discarding all drops exactly what is unsent, and no other step drops anything |
| DispatchTheorems.SentIsFifoUpToCoalescing | apps/windows-ui/src/remote-input-dispatcher.ts:178-236 | In every interleaving that dropped nothing, what was taken, is in flight and is unsent is the accepted events in order, up to the allowed coalescings; the sender calls are those of the items taken so far, and the calls made and to come for the item in flight are exactly its calls |
| DispatchTheorems.NothingIsLost | apps/windows-ui/src/remote-input-dispatcher.ts:178-236 | A drained run that dropped nothing and failed nowhere sent exactly the calls that the coalesced events stand for |
| DispatchTheorems.WheelMotionIsConserved | apps/windows-ui/src/remote-input-dispatcher.ts:41-74 | Per context and axis, the wheel deltas sent by a drained run without drops or failures add up to the deltas enqueued |
| DispatchTheorems.EveryCallIsAcceptable | apps/windows-ui/src/remote-input-dispatcher.ts:186-216 | No call of any run, failed or cancelled ones included, leaves the contract of the native side: valid context, deltas within the limit, text of 1 to 256 characters |
| DispatchTheorems.ChordIsNeverLeftDown | apps/windows-ui/src/remote-input-dispatcher.ts:188-198 | Once its key-down was sent (pressed true), the very next call of a concluded chord was its key-up: pressed false with the same key, character, modifiers and context, whatever failed or was cancelled |
| DispatchTheorems.ChordInFlight | apps/windows-ui/src/remote-input-dispatcher.ts:193-198 | While a chord is in flight its key-down was sent with pressed true, and the only call still to come is the same key with pressed false |
| DispatchTheorems.SentAsItIs | apps/windows-ui/src/remote-input-dispatcher.ts:199-216 | Text, moves, buttons and keys are sent as they are, once or not at all, and once if the item completed |
| DispatchTheorems.EveryPromiseIsKept | apps/windows-ui/src/remote-input-dispatcher.ts:76-104 | At every moment each text or shortcut promise is either settled or owed to exactly one queued or running item |
| DispatchTheorems.SettlementIsFinal | apps/windows-ui/src/remote-input-dispatcher.ts:149-158 | No later step, discardAll included, settles a settled promise again |
| DispatchTheorems.PumpStepsConsumeWork | apps/windows-ui/src/remote-input-dispatcher.ts:178-236 | A step of the pump never adds work: calls made plus calls left do not grow |
| DispatchTheorems.PumpDrains | apps/windows-ui/src/remote-input-dispatcher.ts:178-236 | Without new input the number of calls the pump can still make is bounded in advance |
| DispatchTheorems.DiscardedMovesOnly | apps/windows-ui/src/remote-input-dispatcher.ts:139-147 | Discarding pending moves removes exactly the unsent events that are moves |
| DispatchLedger.EveryRunIsSound | apps/windows-ui/src/remote-input-dispatcher.ts:26-267 | The invariant behind these theorems holds after every legal sequence of public calls, pump steps and sender answers |
| DispatchLedger.StepIsSound | apps/windows-ui/src/remote-input-dispatcher.ts:26-267 | Each single step keeps that invariant |
| DispatchSpec.FragmentsConserveMotion | apps/windows-ui/src/remote-input-dispatcher.ts:203-213 | The fragments of one wheel event add up to it on both axes, each is within the limit and turns no axis around, and their number is the larger of the two rounded-up quotients |
| DispatchSpec.CoalescingConservesMotion | apps/windows-ui/src/remote-input-dispatcher.ts:53-72 | Merging wheels and dropping superseded moves changes no sum of deltas of any context |
| DispatchSpec.CallsConserveMotion | apps/windows-ui/src/remote-input-dispatcher.ts:203-213 | The calls of a sequence of items carry exactly the wheel motion of the items |
| DispatchSpec.TextItemsAreTheText | apps/windows-ui/src/remote-input-dispatcher.ts:80-87 | The chunks of a text, joined, are the text |
| DispatchSpec.TextItemAt | apps/windows-ui/src/remote-input-dispatcher.ts:80-87 | Chunk i holds characters 256 i up to 256 i + 256, or the end of the text, under the i-th promise |
| RemoteInputDispatch.RemoteInputDispatcher.Enqueue | apps/windows-ui/src/remote-input-dispatcher.ts:41-74 | Refuses bad contexts and deltas that are no exact integers, with an error and no other effect; otherwise exactly this event is accepted. With a pump at work nothing is sent, and the event is queued last: a move replaces the move it follows, wheel motion is added to the wheel motion it continues the same way while the sums stay exact |
| RemoteInputDispatch.RemoteInputDispatcher.EnqueueText | apps/windows-ui/src/remote-input-dispatcher.ts:76-90 | Accepts the 256-character chunks of the text in order, one promise each, or refuses the context |
| RemoteInputDispatch.RemoteInputDispatcher.EnqueueShortcut | apps/windows-ui/src/remote-input-dispatcher.ts:92-104 | Accepts one chord under the present shortcut generation, or refuses what is not a key press |
| RemoteInputDispatch.RemoteInputDispatcher.CancelShortcuts | apps/windows-ui/src/remote-input-dispatcher.ts:106-108 | Starts a new shortcut generation and changes nothing else |
| RemoteInputDispatch.RemoteInputDispatcher.EnqueueMouseMove | apps/windows-ui/src/remote-input-dispatcher.ts:115-137 | Exactly this move is accepted; with a pump at work it replaces the last unsent event if that is a move of the same context, and comes last otherwise |
| RemoteInputDispatch.RemoteInputDispatcher.DiscardPendingMoves | apps/windows-ui/src/remote-input-dispatcher.ts:139-147 | Leaves exactly the unsent items that are not moves |
| RemoteInputDispatch.RemoteInputDispatcher.DiscardAll | apps/windows-ui/src/remote-input-dispatcher.ts:149-158 | Empties the queue and rejects exactly the promises of unsent items |
| RemoteInputDispatch.RemoteInputDispatcher.FlushPendingMouseMove | apps/windows-ui/src/remote-input-dispatcher.ts:238-252 | Moves the side slot to the end of the queue without changing what is unsent |
| RemoteInputDispatch.RemoteInputDispatcher.CompactQueue | apps/windows-ui/src/remote-input-dispatcher.ts:254-267 | Never changes the unsent suffix |
| RemoteInputDispatch.RemoteInputDispatcher.Drain | apps/windows-ui/src/remote-input-dispatcher.ts:160-164 | Resolves exactly when no pump runs, and then nothing is unsent and nothing is in flight |
| RemoteInputDispatch.RemoteInputDispatcher.StartPump | apps/windows-ui/src/remote-input-dispatcher.ts:166-176 | Starts the pump if none runs, and does nothing otherwise |
| RemoteInputDispatch.RemoteInputDispatcher.PumpSettled | apps/windows-ui/src/remote-input-dispatcher.ts:170-175 | A pump that returned is restarted exactly when something is left |
| RemoteInputDispatch.RemoteInputDispatcher.PerformHead | apps/windows-ui/src/remote-input-dispatcher.ts:180-223 | One turn: a chord cancelled before it and a text without a sender are rejected and never sent, wheel input without motion completes unsent, everything else begins with its call |
| RemoteInputDispatch.RemoteInputDispatcher.RunPump | apps/windows-ui/src/remote-input-dispatcher.ts:178-236 | Runs to the next await or until nothing is unsent; at most one call is then in flight |
| RemoteInputDispatch.RemoteInputDispatcher.Reply | apps/windows-ui/src/remote-input-dispatcher.ts:183-223 | A single call decides its item; key-down is answered by key-up, and a chord completes if both were answered and it was not cancelled between them; a failed fragment rejects the wheel, and motion left over is sent on unless everything was discarded meanwhile |
| RemoteInputDispatch.RemoteInputDispatcher.Answer | apps/windows-ui/src/remote-input-dispatcher.ts:188-213 | The code behind an await: key-up after key-down, the next wheel fragment, or the outcome of the item |
| RemoteInputDispatch.RemoteInputDispatcher.SendFragment | apps/windows-ui/src/remote-input-dispatcher.ts:207-213 | Sends the clamped remainder of a wheel, unless it is used up or everything was discarded meanwhile |
| InputContexts.IdentityIsLossless | apps/windows-ui/src/u64-identity.ts:4-9 | Every positive 64-bit number has exactly one accepted spelling |
| InputContexts.IdentitiesAreExact | apps/windows-ui/src/u64-identity.ts:4-9 | Accepted are exactly the decimal spellings of 1 to 2 to the 64 less 1, without leading zeros |
| InputContexts.ContextsCompareAsNumbers | apps/windows-ui/src/remote-input-context.ts:12-14 | Comparing two valid contexts as text is comparing the numbers they carry |
| InputPresentation.SeenWereDrawn | apps/windows-ui/src/remote-input-context.ts:54-68 | A frame that was confirmed since the announcement was drawn for exactly that announcement |
| InputPresentation.RemoteInputPresentation.ExposedMeansSeen | apps/windows-ui/src/remote-input-context.ts:36-68 | An exposed context is that of the announcement in force, and some frame of exactly that configuration and channel was drawn and then seen since it was announced and last suspended |
| InputPresentation.RemoteInputPresentation.Announce | apps/windows-ui/src/remote-input-context.ts:39-52 | Reports a change exactly when configuration or channel differ, and a change withdraws the painted frame and the activation |
| InputPresentation.RemoteInputPresentation.Draw | apps/windows-ui/src/remote-input-context.ts:54-60 | Offers a new frame exactly when the frame is of the announcement in force and input is not live yet |
| InputPresentation.RemoteInputPresentation.Activate | apps/windows-ui/src/remote-input-context.ts:62-68 | Succeeds if and only if the frame is the painted one at hand and the latest, made for the present announcement and channel, visible and of the running stream; a success makes input live and is logged as a frame seen, a refusal does neither |
| InputPresentation.RemoteInputPresentation.Suspend | apps/windows-ui/src/remote-input-context.ts:70-75 | Withdraws the activation, so that nothing seen before counts, and keeps the latest frame of the announcement as the one to confirm again |
| InputPresentation.RemoteInputPresentation.Clear | apps/windows-ui/src/remote-input-context.ts:77-84 | Forgets the announcement and everything drawn for it |
| RemoteKeyboardRuns.MirrorsExactly | apps/windows-ui/src/remote-keyboard-state.ts:11-59 | A source, that is a modifier or an ordinary key by the name and character sent, strictly alternates and is down remotely exactly while some held key stands for it, throughout a run, if and only if no press of the run that is sent meets it already held |
| RemoteKeyboardRuns.ModifiersAlwaysMirror | apps/windows-ui/src/remote-keyboard-state.ts:22-43 | A modifier meets that condition in every run: it alternates and is down exactly while one of its keys is held, whichever keys share it |
| RemoteKeyboardRuns.PressMirrorsExactly | apps/windows-ui/src/remote-keyboard-state.ts:22-30 | A single press leaves the remote side in step with a source if and only if it meets that condition |
| RemoteKeyboardRuns.ReleaseMirrors | apps/windows-ui/src/remote-keyboard-state.ts:32-43 | A release keeps the remote side in step, also when another key still holds the modifier |
| RemoteKeyboardRuns.ReleaseAllMirrors | apps/windows-ui/src/remote-keyboard-state.ts:45-58 | So does releaseAll |
| RemoteKeyboardRuns.OrdinaryKeysBalance | apps/windows-ui/src/remote-keyboard-state.ts:22-43 | Without the condition presses sent still outweigh releases sent by exactly the number of held keys of that name |
| RemoteKeyboardRuns.DownIsHeld | apps/windows-ui/src/remote-keyboard-state.ts:22-58 | In every run whatever is down remotely is held |
| RemoteKeyboardRuns.NothingDownAfterReleaseAll | apps/windows-ui/src/remote-keyboard-state.ts:45-58 | After releaseAll nothing is down remotely, in every run |
| RemoteKeyboardRuns.TwoEnterKeys | apps/windows-ui/src/remote-keyboard-state.ts:22-43 | Enter and NumpadEnter held together: the name goes down twice, and the release of one lets it up while the other is held |
| RemoteKeyboardRuns.ReleasedInReverse | apps/windows-ui/src/remote-keyboard-state.ts:45-58 | The releases of releaseAll come in reverse order of the presses |
| RemoteKeyboard.MaskIsHeldModifiers | apps/windows-ui/src/remote-keyboard-state.ts:14-20 | A bit of the modifier mask is set exactly when some held key stands for that modifier |
| RemoteKeyboard.MaskInNames | apps/windows-ui/src/remote-keyboard-state.ts:14-20 | Bits 1, 2, 4 and 8 say whether a shift, control, alt or meta key is held, and no other bit is ever set |
| RemoteKeyboard.MaskTells | apps/windows-ui/src/remote-keyboard-state.ts:26-41 | The mask test of the source asks whether another held key stands for the same modifier |
| RemoteKeyboard.RemoteKeyboardState.ModifierMask | apps/windows-ui/src/remote-keyboard-state.ts:14-20 | The loop computes that mask |
| RemoteKeyboard.RemoteKeyboardState.Press | apps/windows-ui/src/remote-keyboard-state.ts:22-30 | Holds the key and sends it unless the code or its modifier is held already |
| RemoteKeyboard.RemoteKeyboardState.Release | apps/windows-ui/src/remote-keyboard-state.ts:32-43 | Lets the key go and sends the release unless its modifier is still held |
| RemoteKeyboard.RemoteKeyboardState.ReleaseAll | apps/windows-ui/src/remote-keyboard-state.ts:45-58 | Lets every key go and releases every source once, from the last press back |
| HeldButtons.ButtonsMirror | apps/windows-ui/src/controller.ts:3707-3735 | In every run a button is down remotely exactly while it is in the set of pressed buttons |
| HeldButtons.ButtonAlternatesExactly | apps/windows-ui/src/controller.ts:3707-3735 | The events of a button alternate over a run if and only if no press of it met it held |
| HeldButtons.PressAlternatesExactly | apps/windows-ui/src/controller.ts:3707-3709 | A single press keeps a button alternating if and only if it is another button or this one is not held |
| HeldButtons.TwoPointers | apps/windows-ui/src/controller.ts:3707-3709 | Two pointers down on one button: it is pressed twice in a row |
| HeldInput.ReleaseAnswersPress | apps/windows-ui/src/controller.ts:3809-3867 | Each release sent answers a press of the same key, modifier or button under the same stream and epoch, with only releases of it between them, and none where the source alternates |
| HeldInput.PressKeeps | apps/windows-ui/src/controller.ts:3818-3833 | A press under the context of what is held keeps every held source under that one context |
| HeldInput.ReleaseKeeps | apps/windows-ui/src/controller.ts:3834-3838 | A release is sent under the context of its press and keeps the others |
| HeldInput.ReleaseAllKeeps | apps/windows-ui/src/controller.ts:3841-3847 | Releasing everything releases each held source under the context of its press |
| HeldInput.ButtonUp | apps/windows-ui/src/controller.ts:3731-3734 | A button is released under the context of its press |
| ControllerInputState.Controller.CurrentInputContext | apps/windows-ui/src/controller.ts:2875-2882 | A context is given if and only if input is shown, confirmed visible, live and of the running stream, and it is the announced one |
| ControllerInputState.Controller.KeyDown | apps/windows-ui/src/controller.ts:3818-3833 | Nothing without a context; otherwise the key is held and its events are sent under the announced context |
| ControllerInputState.Controller.KeyUp | apps/windows-ui/src/controller.ts:3834-3838 | The release is sent under the context that is held |
| ControllerInputState.Controller.ReleaseKeyboardState | apps/windows-ui/src/controller.ts:3841-3847 | All keys are released under the held context, which is then forgotten |
| ControllerInputState.Controller.PointerDown | apps/windows-ui/src/controller.ts:3667-3710 | A press is sent under the announced context and becomes the held one |
| ControllerInputState.Controller.PointerUp | apps/windows-ui/src/controller.ts:3711-3735 | A button that is held is released under the held context, another is ignored |
| ControllerInputState.Controller.ReleaseInputState | apps/windows-ui/src/controller.ts:3860-3867 | Exactly what was held is released, keys in reverse order, each under the context it was held under, and nothing is held afterwards |
| ControllerInputState.Controller.VideoConfigSignal | apps/windows-ui/src/controller.ts:1701-1730 | When the announced stream or epoch changes, exactly what was held is released under the context it was held under; otherwise nothing is sent and all stays held |
| ControllerInputState.Controller.SetupRemoteDesktop | apps/windows-ui/src/controller.ts:2701-2725 | Announcing again after a render never replaces an announcement in force |
| ControllerInputState.Controller.RuntimeSignal | apps/windows-ui/src/controller.ts:1631-1657 | A runtime that is not connected leaves no announcement and releases exactly what was held under its context; a connected one sends nothing and leaves all held |
| ControllerInputState.Controller.PrepareControllerRender | apps/windows-ui/src/controller.ts:414-425 | Before a render exactly what was held is released under its context, and no announcement stays in force |
| ControllerInputState.Controller.BeginConnection | apps/windows-ui/src/controller.ts:1373-1385 | A new connection starts a channel with no announcement and no configuration, after releasing exactly what was held |
| ControllerInputState.Controller.CancelConnection | apps/windows-ui/src/controller.ts:1478-1486 | So does cancelling one |
| AudioConversion.ChunksDoNotMatter | apps/windows/src/audio.rs:403-457 | Two converters fed the same source frames, however cut, are in the same state and have handed out the same samples |
| AudioConversion.BufferingIsBounded | apps/windows/src/audio.rs:439-455 | At most one source sample and less than a packet of 480 stay behind; output k has been made exactly when k times the rate plus 48000 is less than 48000 times the frames so far |
| AudioConversion.EmittedAreInterpolations | apps/windows/src/audio.rs:428-437 | Sample k handed out lies k times the rate over 48000 source frames into the stream, on the straight line between the frames around that position, scaled by 32767 and rounded; the clamp never acts |
| AudioConversion.DownmixIsMean | apps/windows/src/audio.rs:414-426 | Each source frame is the mean of its channels, decoded side by side from its block |
| AudioConversion.NativeRateIsIdentity | apps/windows/src/audio.rs:428-437 | At 48 kHz the output is the input, quantised |
| AudioConversion.PayloadRoundTrip | apps/windows/src/audio.rs:446-455 | The little-endian payload reads back as the samples |
| AudioConversion.AudioConverter.PushInterleaved | apps/windows/src/audio.rs:403-457 | Refuses short buffers unchanged; otherwise the stream grows by the downmixed frames and whole packets are handed out in order |
| AudioConversion.AudioConverter.Reset | apps/windows/src/audio.rs:397-401 | Forgets stream, position and PCM |
| AudioConversion.AudioConverter.New | apps/windows/src/audio.rs:388-395 | Refuses a layout with no rate, no channels or too narrow a block |
| Resampling.InterpolationStaysInRange | apps/windows/src/audio.rs:430-435 | Interpolating between samples within -1 and 1 stays within |
| Resampling.CountIsUnique | apps/windows/src/audio.rs:429-437 | The number of outputs is determined by the number of source frames |
| Resampling.PcmIsStable | apps/windows/src/audio.rs:429-437 | More input never changes an output computed before |
| AudioSamples.DecodeSample | apps/windows/src/audio.rs:460-482 | Every native sample format decodes into -1 to 1 |
| AudioSamples.DecodedValues | apps/windows/src/audio.rs:460-482 | Every format in numbers: unsigned bytes around 128, signed samples in two's complement with the low byte first, each by its full scale; only floating-point samples are clamped |
| AudioSamples.Bytes16RoundTrip | apps/windows/src/audio.rs:449 | A sample reads back as itself, and its low byte comes first |
| AudioSamples.RoundIsNearest | apps/windows/src/audio.rs:435 | Rounding goes to a nearest integer, and away from zero where two are as near |
| RemoteAudioPayloads.ReadOfPayload | apps/windows-ui/src/remote-audio.ts:43-82 | Every well-formed payload is accepted and read back |
| RemoteAudioPayloads.PayloadOfRead | apps/windows-ui/src/remote-audio.ts:43-82 | Nothing else is accepted: the header read determines the 28 bytes and the length |
| RemoteAudioPayloads.LowByteFirst | apps/windows-ui/src/remote-audio.ts:43-82 | The numbers of the header are little-endian |
| RemoteAudioPayloads.DecodePcm | apps/windows-ui/src/remote-audio.ts:94-98 | Fills the front of the buffer with the samples divided by 32768 and leaves the rest |
| AudioTransferTheorems.PoolIsConserved | apps/windows-ui/src/remote-audio.ts:140-209 | With a live context, pool, waiting packets and the two directions of the current port hold exactly the 25 buffers made last, each once |
| AudioTransferTheorems.DropsExactlyWithoutBuffers | apps/windows-ui/src/remote-audio.ts:250-262 | A packet raises the count of dropped packets by one exactly when it is taken up with an empty pool; then all 25 buffers wait for a node, or all 25 are with the worklet |
| AudioTransferTheorems.NodeIsInStep | apps/windows-ui/src/remote-audio.ts:171-191 | Once there is a node nothing waits outside its port, its first message is a reset and its last is of the present generation |
| AudioTransferTheorems.PostedIsConsecutive | apps/windows-ui/src/remote-audio.ts:222-305 | Packets posted between two resets are consecutive packets of one stream and of one generation, each captured 0 to 100000 us after the one before it |
| AudioTransferTheorems.GenerationsStartExactly | apps/windows-ui/src/remote-audio.ts:222-271 | In every reachable state a packet that is taken up starts a new generation exactly when it is not the next one of its stream, captured within 100000 us, behind the packet queued last, or when packets were dropped since and there is a buffer again |
| AudioTransferTheorems.GenerationFollowsCursor | apps/windows-ui/src/remote-audio.ts:222-271 | The same compared with the packet taken up last, dropped or not |
| AudioTransferTheorems.TakenUpIsRemembered | apps/windows-ui/src/remote-audio.ts:258-270 | A packet that is taken up is what the next one is compared with, whether it got a buffer or not |
| AudioTransferTheorems.RefusedOnlyForAge | apps/windows-ui/src/remote-audio-worklet.ts:41-50 | The worklet never meets a packet of a generation other than its own: what it refuses is too old |
| AudioTransferTheorems.KeptIsOneStream | apps/windows-ui/src/remote-audio-worklet.ts:34-51 | What the worklet buffered since its last reset is one stream, in order, without repeats |
| AudioTransferTheorems.RunIsSafe | apps/windows-ui/src/remote-audio.ts:133-323 | The invariant behind these holds after every sequence of calls, browser events, load completions and port messages |
| AudioTransferTheorems.StepIsSafe | apps/windows-ui/src/remote-audio.ts:133-323 | Each single step keeps it |
| AudioTransferTheorems.PushIsSafe | apps/windows-ui/src/remote-audio.ts:222-271 | So does a packet, with its discontinuity resets, drops and failures to prepare |
| AudioTransferTheorems.DeliverIsSafe | apps/windows-ui/src/remote-audio.ts:250-270 | Taking a buffer, resetting after a drop and queueing keep every buffer in one place and the stream consecutive |
| AudioTransferTheorems.LoadSettledIsSafe | apps/windows-ui/src/remote-audio.ts:164-196 | So does a module load that settles late, for another context, or fails |
| AudioPlayerStatus.StatusIsTrue | apps/windows-ui/src/remote-audio.ts:133-323 | In every reachable state the status says live only while enabled with a node, and muted only while not enabled |
| AudioPlayerStatus.ContextEventTells | apps/windows-ui/src/remote-audio.ts:151-156 | An event of the current context makes the status live if and only if sound is enabled, the context runs and there is a node |
| AudioPlayerStatus.PacketsAreIgnored | apps/windows-ui/src/remote-audio.ts:222-227 | A player that failed or is muted takes no packet and starts nothing for one |
| AudioPlayerStatus.FailureStays | apps/windows-ui/src/remote-audio.ts:307-323 | A failure stays until prepare, enabling or release, or until a refused resume of the current context; no packet, load or message leaves it |
| AudioPlayerStatus.StepIsSound | apps/windows-ui/src/remote-audio.ts:133-323 | Each step keeps the transfer invariant and a true status, and with a context the pool, the waiting packets and the port hold 25 buffers |
| AudioPlayerSteps.ForeignEventsAreIgnored | apps/windows-ui/src/remote-audio.ts:151-203 | Late events of contexts, loads and nodes that were given up change nothing but the record of the loads |
| AudioPlayerSteps.InterruptionsStartOver | apps/windows-ui/src/remote-audio.ts:151-156 | A reset, muting and the current context no longer running each start a generation, tell the port, give back every waiting buffer in order and forget the stream |
| AudioPlayerSteps.RunningLosesNothing | apps/windows-ui/src/remote-audio.ts:151-156 | A context event while the context runs loses nothing that is queued |
| AudioPlayerSteps.ReleaseLeavesNothing | apps/windows-ui/src/remote-audio.ts:285-301 | Releasing leaves no context, node, load, waiting packet or buffer |
| AudioPlayerSteps.FailureStartsAfresh | apps/windows-ui/src/remote-audio.ts:316-323 | A failure gives up the node and starts over with 25 distinct buffers that were never used before |
| AudioPlayerSteps.StatusFits | apps/windows-ui/src/remote-audio.ts:307-314 | After an event of the current context, muting, a resume or an attached node the status is exactly the one that enabling, context and node call for |
| AudioPlayerSteps.PrepareGetsUnderWay | apps/windows-ui/src/remote-audio.ts:133-209 | Where nothing throws, prepare() leaves in every reachable state a context that is not closed, no failure, and a node or a load of one; an open context keeps its link, a closed one is replaced |
| AudioPlayerSteps.LoadDecides | apps/windows-ui/src/remote-audio.ts:164-194 | A load of the current context ends with a node exactly if one was made before the context closed, and with a failure exactly if it was rejected or no node could be made; the node hears of the generation and then of every waiting packet in order |
| AudioPlayerSteps.RefusedResumePauses | apps/windows-ui/src/remote-audio.ts:198-204 | A refused resume of the current context is a pause and changes nothing else |
| AudioPlayerSteps.ReportsAreOfThisGeneration | apps/windows-ui/src/remote-audio.ts:172-184 | Counters are taken over exactly from reports of the present generation |
| AudioPlayerSteps.BuffersComeBack | apps/windows-ui/src/remote-audio.ts:172-176 | A buffer that comes back joins the end of the pool |
| AudioPlayerSteps.JitterIsSmoothed | apps/windows-ui/src/remote-audio.ts:243-249 | The jitter moves a sixteenth of the way to how far an arrival was off the duration of its packet at 48 samples a millisecond |
| RemoteAudioPlayers.RemoteAudioPlayer.Prepare | apps/windows-ui/src/remote-audio.ts:133-138 | Keeps every buffer held, the posted order and a true status; ends in the state that the step Prepare gives, a closed context being released first |
| RemoteAudioPlayers.RemoteAudioPlayer.EnsurePrepared | apps/windows-ui/src/remote-audio.ts:140-209 | Ends in the state of the step of that name, for every way creation, loading or resuming can throw |
| RemoteAudioPlayers.RemoteAudioPlayer.SetEnabled | apps/windows-ui/src/remote-audio.ts:211-220 | Keeps the same; muting resets the connection, unmuting prepares |
| RemoteAudioPlayers.RemoteAudioPlayer.Push | apps/windows-ui/src/remote-audio.ts:222-271 | Keeps the same; refuses malformed payloads unchanged, otherwise ends in the state of the step Push |
| RemoteAudioPlayers.RemoteAudioPlayer.Deliver | apps/windows-ui/src/remote-audio.ts:250-270 | Ends in the state of the step Deliver |
| RemoteAudioPlayers.RemoteAudioPlayer.ResetConnection | apps/windows-ui/src/remote-audio.ts:273-283 | Keeps the same; returns waiting buffers to the pool, posts the reset and forgets the stream |
| RemoteAudioPlayers.RemoteAudioPlayer.Release | apps/windows-ui/src/remote-audio.ts:285-301 | Keeps the same; leaves no context, node, load or buffer |
| RemoteAudioPlayers.RemoteAudioPlayer.Fail | apps/windows-ui/src/remote-audio.ts:316-323 | Drops the node and starts over with 25 fresh buffers |
| RemoteAudioPlayers.RemoteAudioPlayer.ContextChanged | apps/windows-ui/src/remote-audio.ts:151-156 | Keeps the same; a context that stopped running resets the connection, unless it is not the current one |
| RemoteAudioPlayers.RemoteAudioPlayer.LoadSettled | apps/windows-ui/src/remote-audio.ts:164-194 | Keeps the same; a load of another or a closed context changes nothing, otherwise a node is attached or playback fails |
| RemoteAudioPlayers.RemoteAudioPlayer.AttachNode | apps/windows-ui/src/remote-audio.ts:171-190 | Posts the reset and then every waiting packet in order |
| RemoteAudioPlayers.RemoteAudioPlayer.LoadFinally | apps/windows-ui/src/remote-audio.ts:194-196 | Keeps the same; clears the load of the current context only |
| RemoteAudioPlayers.RemoteAudioPlayer.NodeMessage | apps/windows-ui/src/remote-audio.ts:172-184 | Keeps the same; takes back a recycled buffer or a metric of the present generation, ignores other nodes |
| RemoteAudioWorklets.RenderTakesFed | apps/windows-ui/src/remote-audio-buffer.ts:54-80 | A render puts out the next samples fed since the reset, in the order they were fed, and leaves the last ones in the ring |
| RemoteAudioWorklets.DeskLinkAudioProcessor.HandleMessage | apps/windows-ui/src/remote-audio-worklet.ts:34-51 | A reset empties the ring; a packet is kept exactly if it is of this generation and at most 0.25 s old, and then exactly its first samples, up to its count, are pushed at its queue time; any other is counted stale; the buffer goes back either way |
| RemoteAudioWorklets.DeskLinkAudioProcessor.Process | apps/windows-ui/src/remote-audio-worklet.ts:54-72 | Puts out the next samples that the kept packets brought, value by value and in order, then silence, and reports once per quarter of a second, with every counter as it stands |
| RemoteAudioPlayback.KeepsTheNewest | apps/windows-ui/src/remote-audio-buffer.ts:39-52 | In every run the ring holds exactly the newest samples pushed, never more than fit, and a push loses only what does not fit |
| RemoteAudioPlayback.EverySampleIsCounted | apps/windows-ui/src/remote-audio-buffer.ts:32-80 | Pushed equals rendered plus overflowed plus stale plus cleared plus buffered |
| RemoteAudioPlayback.HeardInOrder | apps/windows-ui/src/remote-audio-buffer.ts:54-80 | What is heard is a subsequence of what was pushed: in order, no sample twice |
| RemoteAudioPlayback.OutputIsHeardThenSilence | apps/windows-ui/src/remote-audio-buffer.ts:54-80 | The device gets the samples taken by the render and zeros after them |
| RemoteAudioPlayback.HeardIsFresh | apps/windows-ui/src/remote-audio-buffer.ts:56-60 | When queue times never decrease, no sample heard is older than 0.25 s |
| RemoteAudioPlayback.FrontDropIsEnoughExactly | apps/windows-ui/src/remote-audio-buffer.ts:56-60 | Dropping at the front leaves nothing stale in the queue at any time if and only if its queue times never decrease |
| RemoteAudioPlayback.NextRenderIsFreshExactly | apps/windows-ui/src/remote-audio-buffer.ts:54-80 | No render, whenever it comes, hears a stale sample if and only if no sample queued behind a later-queued one would play just before that one expires |
| RemoteAudioPlayback.PlayingIsFreshExactly | apps/windows-ui/src/remote-audio-buffer.ts:54-80 | While playing, that is: if and only if the queue times never decrease |
| RemoteAudioPlayback.HeardCanBeStale | apps/windows-ui/src/remote-audio-buffer.ts:56-60 | A run in which a stale sample behind a fresh one is heard |
| RemoteAudioPlayback.RunIsSound | apps/windows-ui/src/remote-audio-buffer.ts:32-80 | The invariant behind these holds after every run |
| AudioFreshness.PostedTimesAdvance | apps/windows-ui/src/remote-audio.ts:222-271 | If no context clock runs backwards, what is posted to a node was queued in order of time, across resets, drops, loads and new contexts |
| AudioFreshness.HeardThroughWorkletIsFresh | apps/windows-ui/src/remote-audio-worklet.ts:34-72 | Then, in every reachable state, the ring buffer of the worklet holds no sample queued later than one behind it, and a render at any time puts out only samples queued at most 0.25 s before |
| RemoteAudioBuffers.ExpiredExactly | apps/windows-ui/src/remote-audio-buffer.ts:56-60 | Dropped for their age are the leading samples older than 0.25 s, up to the first that is not |
| RemoteAudioBuffers.RenderIsBlock | apps/windows-ui/src/remote-audio-buffer.ts:54-80 | A render drops those, waits in silence for the target unless playing, then puts out as many samples as there are and zeros, counts what is missing, and goes on playing only while blocks are filled |
| RemoteAudioBuffers.RemoteAudioBuffer.Push | apps/windows-ui/src/remote-audio-buffer.ts:39-52 | Keeps the newest samples of queue and packet together and counts the others as overflow |
| RemoteAudioBuffers.RemoteAudioBuffer.Render | apps/windows-ui/src/remote-audio-buffer.ts:54-80 | Discards stale samples, starts only at the target, fills the block and counts underruns |
| RemoteAudioBuffers.RemoteAudioBuffer.DiscardStale | apps/windows-ui/src/remote-audio-buffer.ts:56-60 | Drops exactly the leading samples that are too old |
| RemoteAudioBuffers.RemoteAudioBuffer.Reset | apps/windows-ui/src/remote-audio-buffer.ts:32-37 | Empties the queue and waits for the target again |
| H264AnnexB.ScannersAgree | apps/windows-ui/src/h264-annex-b.ts:5-43 | hasAnnexBNalType finds a type exactly when annexBNalTypes lists it |
| H264AnnexB.ScanFindsEveryHeader | apps/windows-ui/src/h264-annex-b.ts:5-20 | The scan lists the header behind every start code exactly when no NAL unit is empty, and fewer otherwise |
| H264AnnexB.EmptyUnitHidesAHeader | apps/windows-ui/src/h264-annex-b.ts:5-20 | The bytes 00 00 01 00 00 01 09, where the scan misses the header 9 behind an empty unit |
| H264AnnexB.HeaderTypesComeFirst | apps/windows-ui/src/h264-annex-b.ts:5-20 | The types of a header are a prefix of the types of header followed by access unit |
| H264AnnexB.PreparedKeyframeHasParameterSets | apps/windows-ui/src/h264-annex-b.ts:49-65 | A keyframe prepared with a header that has SPS and PPS has both |
| H264AnnexB.PreparingTwice | apps/windows-ui/src/h264-annex-b.ts:49-65 | Preparing twice equals preparing once if and only if it is no keyframe, the header is empty, or unit or header with unit has both sets |
| H264AnnexB.PreparationIsIdempotent | apps/windows-ui/src/h264-annex-b.ts:49-65 | With a header that has both sets preparing twice equals preparing once |
| H264AnnexB.PreparingTwiceCanDiffer | apps/windows-ui/src/h264-annex-b.ts:49-65 | An input where preparing twice differs |
| H264AnnexB.AnnexBNalTypes | apps/windows-ui/src/h264-annex-b.ts:5-20 | The loop lists the types that the definition gives |
| H264AnnexB.HasAnnexBNalType | apps/windows-ui/src/h264-annex-b.ts:22-43 | True exactly for the types in that list |
| H264AnnexB.FindStartCode | apps/windows-ui/src/h264-annex-b.ts:67-83 | The first start code at or after the position, with its length, or none |
| H264AnnexB.IsH264Keyframe | apps/windows-ui/src/h264-annex-b.ts:45-47 | Signalled, or an IDR type in the list |
| H264AnnexB.PrepareH264AccessUnit | apps/windows-ui/src/h264-annex-b.ts:49-65 | The header is prepended exactly for a keyframe lacking SPS or PPS |
| ReleaseVersions.ParseOfShow | apps/windows-ui/src/windows-update.ts:196-211 | Printing a version and parsing it gives the version back |
| ReleaseVersions.ParseIsExact | apps/windows-ui/src/windows-update.ts:196-211 | Parsed as a version are exactly its spellings: three numbers up to 2 to the 53 less 1 without leading zeros, perhaps with a v in front and blanks around |
| ReleaseVersions.NormalizeIsIdempotent | apps/windows-ui/src/windows-update.ts:196-211 | Normalising twice is normalising once |
| ReleaseVersions.OrderIsTotal | apps/windows-ui/src/windows-update.ts:213-228 | The order is that of major, minor and patch number in turn: antisymmetric, transitive and zero only between equal versions |
| ReleaseVersions.CompareReleaseVersions | apps/windows-ui/src/windows-update.ts:213-228 | 1 exactly if the left version is newer by major, minor or patch number in turn, -1 if the right one is, 0 for equal numbers, and null where a version is malformed |
| ReleaseVersions.EvaluateWindowsRelease | apps/windows-ui/src/windows-update.ts:230-273 | Newer exactly if both versions parse and the release has the higher major, minor or patch number in turn, up to date if both parse otherwise, else unavailable |
| ReleaseVersions.OffersOnlyNewer | apps/windows-ui/src/windows-update.ts:230-273 | An update is offered if and only if both versions parse and the major, minor or patch number of the release is higher, the first that differs deciding |
| WindowsUpdate.NoCheckSpeaksAfterInstall | apps/windows-ui/src/windows-update.ts:95-101 | Once an install has started no check older than it changes the state, and an install reports available only after a cancel accepted for that install |
| WindowsUpdate.InstallsOnlyGrow | apps/windows-ui/src/windows-update.ts:118-124 | Along the history the latest install never goes back and every change is by a run entitled to it |
| WindowsUpdate.WindowsUpdater.Check | apps/windows-ui/src/windows-update.ts:83-116 | Nothing during an install, the pending check if there is one, nothing while the interval runs, otherwise one new check of a new revision |
| WindowsUpdate.WindowsUpdater.VersionArrived | apps/windows-ui/src/windows-update.ts:92-105 | Asks for the release, or fails as a failed check does |
| WindowsUpdate.WindowsUpdater.CheckFails | apps/windows-ui/src/windows-update.ts:100-105 | Stale: nothing. Otherwise retry in a minute, and an offer is kept unless the check was forced |
| WindowsUpdate.WindowsUpdater.ReleaseArrived | apps/windows-ui/src/windows-update.ts:94-99 | Stale: nothing changes. Otherwise available exactly for a release of a strictly newer version, with both versions normalised, no update exactly where a version is malformed or there is no release, and up to date else; an offer is stored; the next check waits a minute after a release that cannot be used and four hours otherwise |
| WindowsUpdate.WindowsUpdater.CheckFinally | apps/windows-ui/src/windows-update.ts:107-109 | The pending check is cleared |
| WindowsUpdate.WindowsUpdater.Install | apps/windows-ui/src/windows-update.ts:118-147 | The pending install, or nothing without an offer, or a new revision that makes every running check stale |
| WindowsUpdate.WindowsUpdater.InstallProgress | apps/windows-ui/src/windows-update.ts:125-129 | Only the current install reports, and a cancel error survives only while downloading |
| WindowsUpdate.WindowsUpdater.InstallResolved | apps/windows-ui/src/windows-update.ts:129-133 | The state goes to installing, not cancelling |
| WindowsUpdate.WindowsUpdater.InstallRejected | apps/windows-ui/src/windows-update.ts:133-140 | Waits for a pending cancel, else ends |
| WindowsUpdate.WindowsUpdater.InstallCancelSettled | apps/windows-ui/src/windows-update.ts:134-140 | Ends after the cancel has settled: back to the offer if a cancel of this install was accepted, else the error |
| WindowsUpdate.WindowsUpdater.InstallFinally | apps/windows-ui/src/windows-update.ts:141-143 | The pending install is cleared |
| WindowsUpdate.WindowsUpdater.Cancel | apps/windows-ui/src/windows-update.ts:149-172 | The pending cancel, or nothing unless downloading and not cancelling, or one cancel of this revision |
| WindowsUpdate.WindowsUpdater.CancelAnswered | apps/windows-ui/src/windows-update.ts:153-159 | Stale: nothing. Otherwise the answer is stored and a refusal stops cancelling |
| WindowsUpdate.WindowsUpdater.CancelFailed | apps/windows-ui/src/windows-update.ts:160-164 | The error is shown on the current install |
| WindowsUpdate.WindowsUpdater.Dismiss | apps/windows-ui/src/windows-update.ts:174-178 | The banner goes, except during an install |
| RustMask.MaskKeepsOffsets | scripts/verify-windows-release.py:242-287 | Length and newlines stay, other characters change only to spaces |
| RustMask.MaskHidesQuotesAndComments | scripts/verify-windows-release.py:242-287 | No double quote and no comment opener is left |
| RustMask.MaskIsIdempotent | scripts/verify-windows-release.py:242-287 | Masking masked text changes nothing |
| RustMask.StringEndsAtFreeQuote | scripts/verify-windows-release.py:271-280 | A string ends at the first quote with an even number of backslashes before it, or at the end of the text |
| RustMask.RustCodeMask | scripts/verify-windows-release.py:242-287 | The loop over the character list computes that mask and terminates on every text |
| RustMask.CommentEndsWhereBalanced | scripts/verify-windows-release.py:253-264 | A block comment ends behind the first mark where its openers and closers balance, and at the end of the text if there is none |
| RustMask.SkipBlockComment | scripts/verify-windows-release.py:253-264 | The loop stops at that end |
| RustMask.SkipString | scripts/verify-windows-release.py:271-280 | The string loop ends where the definition says, also when an escape runs past the end |
| RustTokens.TokensAreExact | scripts/verify-windows-release.py:248-284 | At each place the scanner finds a comment or literal exactly where one is by its shape: a line comment up to the first newline, a block comment to where its marks balance, a raw string to the first quote with as many hash signs, a string to the first free quote, and the four kinds of character literals |
| RustTokens.MaskIsExact | scripts/verify-windows-release.py:242-287 | A text of the same length is the mask if and only if it falls, from the left, into comments and literals that are blank but for their newlines and single other characters that are as they were |
| RustTokens.LineCommentStops | scripts/verify-windows-release.py:250-252 | Behind a line comment the mask is the mask from its newline on, which stays |
| RustDelimiters.DelimitersAreExact | scripts/verify-windows-release.py:290-302 | The complete matching if and only if round, square and curly brackets pair up by kind, each pair inside another or beside it, and the empty map otherwise |
| RustDelimiters.BalancedIsFound | scripts/verify-windows-release.py:290-302 | A matching is unique, and it is the one returned |
| RustDelimiters.FindDelimiters | scripts/verify-windows-release.py:290-302 | The scan with its stack returns that map |
| ModuleReachability.ReachablePairs | scripts/verify-windows-release.py:409-417 | The worklist terminates on every graph and computes exactly the pairs of file and flag that walks from roots give |
| ModuleReachability.ProductionFiles | scripts/verify-windows-release.py:418-428 | A file is dropped exactly when some walk from a root is conditional and none is wholly unconditional |
| ModuleReachability.ProductionIsClosedExactly | scripts/verify-windows-release.py:409-428 | Whatever a kept file declares unconditionally is kept too, on the whole graph, if and only if, of what files that no root reaches declare unconditionally, production reaches all that tests reach |
| ModuleReachability.AcyclicIsClosed | scripts/verify-windows-release.py:409-428 | Without a cycle of declarations roots reach every file, and whatever a kept file declares unconditionally is kept |
| ModuleReachability.KeptFileLosesItsModule | scripts/verify-windows-release.py:409-428 | A graph where a kept file declares a module unconditionally and the module is dropped |
| ModuleReachability.Roots | scripts/verify-windows-release.py:409-411 | The roots are the files nothing declares |
| ModuleReachability.ClosedIsExact | scripts/verify-windows-release.py:412-417 | A closed, sound set of pairs is exactly the reachable one |
| TaskSelection.SelectTasks | scripts/verify.py:80-105 | Selected ids that no task has are refused, exactly their set; otherwise a plan, or a refusal with a real needed cycle or missing requirement. The roots are the selected tasks, or those of the layers where none is selected. With distinct ids a plan holds exactly what is needed, and then no needed cycle exists and nothing needed is missing |
| TaskSelection.PlanIsExact | scripts/verify.py:101-105 | A plan holds precisely the requested tasks and their transitive requirements if and only if no two of those share an id |
| TaskSelection.PlanIsSoundExactly | scripts/verify.py:80-105 | A plan holds precisely what is needed and stands beside no needed cycle if and only if no two needed tasks share an id |
| TaskSelection.RepeatedIdsCanDiffer | scripts/verify.py:80-105 | A table with a repeated id whose plan leaves out a needed task, with no cycle there |
| TaskSelection.PlanBesideCycle | scripts/verify.py:80-105 | A table with a repeated id whose plan stands beside a needed cycle |
| TaskSelection.PlanOrReason | scripts/verify.py:89-99 | A plan beside a reason to refuse happens only where two needed tasks share an id |
| TaskSelection.RequirementsComeFirst | scripts/verify.py:94-99 | Every requirement comes before the task that needs it |
| TaskSelection.NoTaskTwice | scripts/verify.py:92-99 | No id comes twice |
| TaskSelection.NoNeededCycle | scripts/verify.py:90-91 | One direction: a plan beside a needed cycle happens only where two needed tasks share an id |
| TaskSelection.CycleLeavesPlan | scripts/verify.py:89-99 | In every table a needed cycle has a task that no scheduled plan holds |
| TaskSelection.Selection.Add | scripts/verify.py:89-99 | Adds the task after everything it requires, or gives a reason that is one |
| TaskSelection.Selection.AddRequirements | scripts/verify.py:95-96 | Visits the requirements in order |
| TaskRuns.CheckIsJudged | scripts/verify.py:246-297 | A task is run exactly when no process tree was left behind before, it is not to be skipped, the last check of each requirement passed and its tools are there; it passes exactly if its command ends with code 0 and not with a log of no test; otherwise it is blocked, skipped or failed in that order of reasons |
| TaskRuns.RunTasks | scripts/verify.py:246-306 | Every check is judged by the checks before it and passes exactly if its command was run and ended well, an interruption ends the run with code 130, and the report follows from the results |
| TaskRuns.Verify | scripts/verify.py:328-355 | Selecting and then running: a refusal runs nothing; the report passes, with code 0, exactly if there was something to run and every command was run and ended well; with distinct ids every check that was run had its whole transitive requirement set run before it, with success |
| TaskRuns.PlanHoldsRequirements | scripts/verify.py:255-297 | The same for any scheduled plan whose ids the table resolves |
| TaskRuns.RunsOnlyAfterRequirements | scripts/verify.py:263-264 | A task is run only after all its requirements passed |
| TaskRuns.WholeRequirementSetPassed | scripts/verify.py:255-297 | In a scheduled plan the whole transitive requirement set of a task that runs was run before, and each of its commands ended with code 0 and some test where tests are reported |
| TaskRuns.NothingRunsAfterCleanupFailure | scripts/verify.py:259-260 | After a process tree was left behind every task is blocked |
| TaskRuns.PassedMeansAllPassed | scripts/verify.py:300-306 | The report passes, with code 0, exactly when there was something to run and every command was run and ended with code 0 and not without tests; code 1 says that some check failed, and 2 everything else |
| TaskRuns.CheckTask | scripts/verify.py:258-281 | Skipped, blocked, failed for a missing tool, or run; a task that was run passes exactly if its command ended well, and fails otherwise |
| VideoPull.DeliveredByTheLoopInCharge | apps/windows-ui/src/video-pull-loop.ts:105-118 | Every frame delivered comes from the loop started last, with no stop or start in between |
| VideoPull.DelaysGrow | apps/windows-ui/src/video-pull-loop.ts:23-29 | The delay never decreases: 100, 250, 500 and 1000 ms, and 2 s from the fifth failure on |
| VideoPull.KeyIdIsInjective | apps/windows-ui/src/video-pull-loop.ts:126-128 | Different streams or configurations never share a key |
| VideoPull.RejectedWaitStalls | apps/windows-ui/src/video-pull-loop.ts:41-103 | A start, a rejected pull, a rejected wait and a start of the same key: the key is active and no loop is left |
| VideoPull.SerialVideoPull.Start | apps/windows-ui/src/video-pull-loop.ts:41-64 | Nothing for the active key; otherwise one new loop, and no older loop is current any more |
| VideoPull.SerialVideoPull.Stop | apps/windows-ui/src/video-pull-loop.ts:66-69 | No loop is current afterwards |
| VideoPull.SerialVideoPull.PullResolved | apps/windows-ui/src/video-pull-loop.ts:80-118 | Delivers exactly when the loop is in charge, and failures start over |
| VideoPull.SerialVideoPull.PullRejected | apps/windows-ui/src/video-pull-loop.ts:86-98 | A loop in charge waits the delay of its failures in a row; another ends |
| VideoPull.SerialVideoPull.LoopInChargeExactly | apps/windows-ui/src/video-pull-loop.ts:41-103 | While a key is active some loop is in charge if and only if the wait of the present generation was not rejected |
| VideoPull.SerialVideoPull.WaitSettled | apps/windows-ui/src/video-pull-loop.ts:97-102 | Goes on if in charge; a rejected wait ends the loop, and if that was in charge no loop is, while the key stays active |

## Left out

- Everything native or in a browser (Tauri commands, DOM, canvas, WebCodecs, AudioContext, WASAPI, Media
  Foundation, Opus): its answers are parameters or steps of the environment.
- The Rust crates and the servers.
- Floating point: exact reals stand for f32, f64 and JavaScript numbers in the audio path; rounding and
  NaN are not modelled, and reading an IEEE single from four bytes is a parameter.
- Wall-clock time: packets carry no capture timestamp on the host side; other times are parameters.
- Synchronous re-entry: the dispatcher's sender and error callbacks do not call back into it and do not
  throw synchronously, and the updater's `changed` and the player's listeners do nothing to the model.
- Aliasing of input objects: merging a wheel or replacing a move changes a queued value, where the source
  mutates the queued object.
- Text is a sequence of characters that stand for Unicode scalars; splitting UTF-16 is not modelled.
- DispatchTheorems.PumpDrains: bounds the calls that the pump can still make; the loop in which `drain`
  awaits the pump is not modelled, and `Drain` is one turn of it.
- The clock of an audio context is a parameter: that it never runs backwards is assumed where a result says so.
- The regular expressions of `rust_test_regions` and module path resolution: the declared edges and their
  conditional flags are given. Python's `isalnum` is a parameter of the mask.
- Version values that are not strings are one absent value.
- `AudioFrameQueue`, the toolbar, file queue, display switch and other small gates: they would add
  only easy members.
- The modifier bits a key event carries (`keyboardModifiers`) and the composition state of text input.
- A promise chain of a module load runs its handler and, if that throws, its catch in one step.
- Recursion depth: Python's recursion limit in `select_tasks` is not modelled.
- RemoteAudioBuffers.RemoteAudioBuffer.constructor: the RangeError for a capacity that is not a positive
  integer is a precondition.
- RemoteKeyboardRuns.ModifiersAlwaysMirror: stated for presses whose input says pressed, as the controller's
  do; `MirrorsExactly` covers the others.
- RemoteKeyboardRuns.OrdinaryKeysBalance: stated for the same presses.
