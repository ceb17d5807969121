// The held-input slice of apps/windows-ui/src/controller.ts: keys and buttons, the context they
// are held under, and the places where announcements, suspensions and resets touch them.
module ControllerInputState {
  import opened Options
  import opened InputContexts
  import opened DispatchSpec
  import opened RemoteKeyboard
  import opened RemoteKeyboardRuns
  import opened HeldButtons
  import opened HeldInput
  import opened InputPresentation

  class Controller {
    const pressedKeys: RemoteKeyboardState
    const inputPresentation: RemoteInputPresentation
    var pressedButtons: seq<string>
    var heldKeyboardContext: Option<RemoteInputContext>
    var heldButtonContext: Option<RemoteInputContext>
    var videoConfig: Option<Configuration>
    var channelGeneration: int
    var runtimeStreamId: Option<string>     // of a connected runtime
    var surfaceConfirmedVisible: bool

    ghost var keyLog: seq<Fired>
    ghost var buttonLog: seq<Fired>
    ghost var keyActions: seq<Action>
    ghost var buttonActions: seq<ButtonAction>

    // What is held is held under the context that was announced last.
    ghost predicate HeldUnder(held: bool, context: Option<RemoteInputContext>)
      reads this, inputPresentation
    {
      held ==> inputPresentation.configuration.Some? && context == Some(inputPresentation.configuration.value.context)
    }

    // Whatever is announced is the present configuration on the present channel.
    ghost predicate Announced()
      reads this, inputPresentation
    {
      inputPresentation.configuration.Some? ==>
        videoConfig == inputPresentation.configuration && inputPresentation.channelGeneration == channelGeneration
    }

    ghost predicate Kept()
      reads this, pressedKeys
    {
      && pressedKeys.Valid()
      && KeysKept(keyLog, pressedKeys.pressed, heldKeyboardContext)
      && ButtonsKept(buttonLog, pressedButtons, heldButtonContext)
      && IsKeyRun(keyActions, pressedKeys.pressed, keyLog)
      && IsButtonRun(buttonActions, pressedButtons, buttonLog)
    }

    // Everything held was released, under the context it was held under.
    twostate predicate AllReleased()
      reads this, pressedKeys
    {
      && keyLog == old(keyLog)
          + FiredUnder(Notes(ReleaseAllEvents(old(pressedKeys.pressed), [])), old(heldKeyboardContext))
      && buttonLog == old(buttonLog) + FiredUnder(Releases(old(pressedButtons)), old(heldButtonContext))
      && pressedKeys.pressed == [] && pressedButtons == []
    }

    twostate predicate HeldAsBefore()
      reads this, pressedKeys
    {
      && keyLog == old(keyLog) && buttonLog == old(buttonLog)
      && pressedKeys.pressed == old(pressedKeys.pressed) && pressedButtons == old(pressedButtons)
      && heldKeyboardContext == old(heldKeyboardContext) && heldButtonContext == old(heldButtonContext)
    }

    // Nothing that was sent is taken back.
    twostate predicate LogsGrew()
      reads this
    {
      old(keyLog) <= keyLog && old(buttonLog) <= buttonLog
    }

    ghost predicate Valid()
      reads this, pressedKeys, inputPresentation
    {
      && Kept() && inputPresentation.Valid() && Announced()
      && HeldUnder(pressedKeys.pressed != [], heldKeyboardContext)
      && HeldUnder(pressedButtons != [], heldButtonContext)
    }

    constructor ()
      ensures Valid() && fresh(pressedKeys) && fresh(inputPresentation) && keyLog == [] && buttonLog == []
    {
      pressedKeys := new RemoteKeyboardState();
      inputPresentation := new RemoteInputPresentation();
      pressedButtons, heldKeyboardContext, heldButtonContext := [], None, None;
      videoConfig, channelGeneration, runtimeStreamId, surfaceConfirmedVisible := None, 0, None, false;
      keyLog, buttonLog, keyActions, buttonActions := [], [], [], [];
    }

    // ---------------------------------------------------------------- the live context

    // `shown`: the document is visible and the canvas connected.
    method CurrentInputContext(shown: bool) returns (context: Option<RemoteInputContext>)
      requires Valid()
      modifies `surfaceConfirmedVisible, inputPresentation
      ensures Valid() && inputPresentation.configuration == old(inputPresentation.configuration)
      ensures surfaceConfirmedVisible ==> old(surfaceConfirmedVisible)
      ensures context.Some? <==>
                && shown && old(surfaceConfirmedVisible) && old(inputPresentation.Context()).Some?
                && runtimeStreamId == Some(old(inputPresentation.Context()).value.streamId)
      ensures context.Some? ==>
                && shown && context == inputPresentation.Context() && runtimeStreamId == Some(context.value.streamId)
                && inputPresentation.configuration.Some?
                    && context.value == inputPresentation.configuration.value.context
    {
      if runtimeStreamId.None? || !shown || !surfaceConfirmedVisible {
        SuspendPresentedInput();
        return None;
      }
      context := inputPresentation.Context();
      if context.Some? && runtimeStreamId != Some(context.value.streamId) {
        return None;
      }
    }

    method SuspendPresentedInput()
      requires Valid()
      modifies `surfaceConfirmedVisible, inputPresentation
      ensures Valid() && inputPresentation.configuration == old(inputPresentation.configuration)
      ensures inputPresentation.Context() == None && !surfaceConfirmedVisible
    {
      surfaceConfirmedVisible := false;
      inputPresentation.Suspend();
    }

    // ---------------------------------------------------------------- keys

    method KeyDown(code: string, key: string, character: string, modifiers: nat, shown: bool)
      returns (context: Option<RemoteInputContext>)
      requires Valid()
      modifies this, pressedKeys, inputPresentation
      ensures Valid() && buttonLog == old(buttonLog)
      ensures context.None? ==> keyLog == old(keyLog) && pressedKeys.pressed == old(pressedKeys.pressed)
      ensures context.Some? ==>
                var h := Held(code, Key(key, character, true, modifiers));
                && pressedKeys.pressed == AfterPress(old(pressedKeys.pressed), h)
                && keyLog == old(keyLog) + Tagged(Notes(PressEvents(old(pressedKeys.pressed), h)), context.value)
                && inputPresentation.configuration.Some?
                    && context.value == inputPresentation.configuration.value.context
    {
      context := CurrentInputContext(shown);
      if context.None? {
        return;
      }
      var input: KeyInput := Key(key, character, true, modifiers);
      PressKey(code, input, context.value);
    }

    method PressKey(code: string, input: KeyInput, context: RemoteInputContext)
      requires Kept() && input.pressed && (pressedKeys.pressed != [] ==> heldKeyboardContext == Some(context))
      modifies `heldKeyboardContext, `keyLog, `keyActions, pressedKeys
      ensures Kept() && heldKeyboardContext == Some(context)
      ensures pressedKeys.pressed == AfterPress(old(pressedKeys.pressed), Held(code, input))
      ensures keyLog == old(keyLog) + Tagged(Notes(PressEvents(old(pressedKeys.pressed), Held(code, input))), context)
    {
      ghost var h := Held(code, input);
      PressKeeps(keyLog, pressedKeys.pressed, heldKeyboardContext, h, context);
      PressRuns(keyActions, pressedKeys.pressed, keyLog, h, context);
      SendPress(code, input, context);
      heldKeyboardContext := Some(context);
      keyActions := keyActions + [Press(code, input)];
    }

    method SendPress(code: string, input: KeyInput, context: RemoteInputContext)
      requires pressedKeys.Valid()
      modifies `keyLog, pressedKeys
      ensures pressedKeys.Valid() && pressedKeys.pressed == AfterPress(old(pressedKeys.pressed), Held(code, input))
      ensures keyLog == old(keyLog) + Tagged(Notes(PressEvents(old(pressedKeys.pressed), Held(code, input))), context)
    {
      ghost var events := PressEvents(pressedKeys.pressed, Held(code, input));
      var inputs := pressedKeys.Press(code, input);
      FireInputs(inputs, events, context);
    }

    // fireInput for each event, in order.
    method FireInputs(inputs: seq<KeyInput>, ghost events: seq<Held>, context: RemoteInputContext)
      requires inputs == InputsOf(events)
      modifies `keyLog
      ensures keyLog == old(keyLog) + Tagged(Notes(events), context)
      ensures NotesOf(keyLog) == NotesOf(old(keyLog)) + Notes(events)
    {
      TaggedNotes(keyLog, Notes(events), context);
      keyLog := keyLog + Tagged(Notes(events), context);
    }

    method KeyUp(code: string)
      requires Valid()
      modifies this, pressedKeys
      ensures Valid() && buttonLog == old(buttonLog)
      ensures pressedKeys.pressed == AfterRelease(old(pressedKeys.pressed), code)
      ensures old(heldKeyboardContext).Some? ==>
                keyLog == old(keyLog)
                    + Tagged(Notes(ReleaseEvents(old(pressedKeys.pressed), code)), old(heldKeyboardContext).value)
      ensures old(heldKeyboardContext).None? ==> keyLog == old(keyLog) && old(pressedKeys.pressed) == []
    {
      ghost var events := ReleaseEvents(pressedKeys.pressed, code);
      KeyRunMore(keyActions, Release(code), pressedKeys.pressed, keyLog);
      if heldKeyboardContext.Some? {
        ReleaseKeeps(keyLog, pressedKeys.pressed, code, heldKeyboardContext.value);
      }
      var inputs := pressedKeys.Release(code);
      if heldKeyboardContext.Some? {
        FireInputs(inputs, events, heldKeyboardContext.value);
      } else {
        assert NotesOf(keyLog) == NotesOf(keyLog) + Notes(events);
      }
      keyActions := keyActions + [Release(code)];
    }

    method ReleaseKeyboardState()
      requires Kept()
      modifies `heldKeyboardContext, `keyLog, `keyActions, pressedKeys
      ensures Kept() && pressedKeys.pressed == [] && heldKeyboardContext == None && LogsGrew()
      ensures keyLog == old(keyLog)
              + FiredUnder(Notes(ReleaseAllEvents(old(pressedKeys.pressed), [])), old(heldKeyboardContext))
      ensures old(heldKeyboardContext).None? ==> old(pressedKeys.pressed) == []
    {
      var inputContext := heldKeyboardContext;
      ghost var events := ReleaseAllEvents(pressedKeys.pressed, []);
      KeyRunMore(keyActions, ReleaseAll, pressedKeys.pressed, keyLog);
      if inputContext.Some? {
        ReleaseAllKeeps(keyLog, pressedKeys.pressed, inputContext.value);
      }
      var inputs := pressedKeys.ReleaseAll();
      if inputContext.Some? {
        FireInputs(inputs, events, inputContext.value);
      } else {
        assert NotesOf(keyLog) == NotesOf(keyLog) + Notes(events);
      }
      keyActions := keyActions + [ReleaseAll];
      heldKeyboardContext := None;
    }

    // ---------------------------------------------------------------- buttons

    // `onCanvas`: the pointer is over the remote picture.
    method PointerDown(button: string, onCanvas: bool, shown: bool) returns (context: Option<RemoteInputContext>)
      requires Valid()
      modifies this, inputPresentation
      ensures Valid() && keyLog == old(keyLog)
      ensures context.None? || !onCanvas ==> buttonLog == old(buttonLog) && pressedButtons == old(pressedButtons)
      ensures context.Some? && onCanvas ==>
                && buttonLog == old(buttonLog) + [Fired(Note(Button(button), true), context.value)]
                && pressedButtons == WithButton(old(pressedButtons), button)
                && inputPresentation.configuration.Some?
                    && context.value == inputPresentation.configuration.value.context
    {
      context := CurrentInputContext(shown);
      if context.None? || !onCanvas {
        return;
      }
      PressLive(button, context.value);
    }

    // A press under the announced context, which is that of all buttons held.
    method PressLive(button: string, context: RemoteInputContext)
      requires Valid() && inputPresentation.configuration.Some?
      requires context == inputPresentation.configuration.value.context
      modifies `pressedButtons, `heldButtonContext, `buttonLog, `buttonActions
      ensures Valid() && pressedButtons == WithButton(old(pressedButtons), button)
      ensures buttonLog == old(buttonLog) + [Fired(Note(Button(button), true), context)]
    {
      PressButton(button, context);
    }

    method PressButton(button: string, context: RemoteInputContext)
      requires Kept() && (pressedButtons != [] ==> heldButtonContext == Some(context))
      modifies `pressedButtons, `heldButtonContext, `buttonLog, `buttonActions
      ensures Kept() && heldButtonContext == Some(context) && pressedButtons == WithButton(old(pressedButtons), button)
      ensures buttonLog == old(buttonLog) + [Fired(Note(Button(button), true), context)]
    {
      ButtonDown(buttonLog, pressedButtons, heldButtonContext, button, context);
      FireOne(buttonLog, Note(Button(button), true), context);
      ButtonRunMore(buttonActions, ButtonPressed(button));
      buttonActions := buttonActions + [ButtonPressed(button)];
      pressedButtons := WithButton(pressedButtons, button);
      heldButtonContext := Some(context);
      buttonLog := buttonLog + [Fired(Note(Button(button), true), context)];
    }

    method PointerUp(button: string, shown: bool)
      requires Valid()
      modifies this, inputPresentation
      ensures Valid() && keyLog == old(keyLog) && pressedButtons == WithoutButton(old(pressedButtons), button)
      ensures button in old(pressedButtons) ==>
                && old(heldButtonContext).Some?
                && buttonLog == old(buttonLog) + [Fired(Note(Button(button), false), old(heldButtonContext).value)]
      ensures button !in old(pressedButtons) ==> buttonLog == old(buttonLog)
    {
      var inputContext := CurrentInputContext(shown);
      ReleaseButton(button);
    }

    method ReleaseButton(button: string)
      requires Kept()
      modifies `pressedButtons, `heldButtonContext, `buttonLog, `buttonActions
      ensures Kept() && pressedButtons == WithoutButton(old(pressedButtons), button)
      ensures pressedButtons != [] ==> heldButtonContext == old(heldButtonContext)
      ensures button in old(pressedButtons) ==>
                && old(heldButtonContext).Some?
                && buttonLog == old(buttonLog) + [Fired(Note(Button(button), false), old(heldButtonContext).value)]
      ensures button !in old(pressedButtons) ==> buttonLog == old(buttonLog)
    {
      ButtonReleaseRuns(buttonActions, pressedButtons, heldButtonContext, buttonLog, button);
      ButtonReleaseKeeps(pressedButtons, heldButtonContext, buttonLog, button);
      buttonActions := buttonActions + [ButtonReleased(button)];
      buttonLog := buttonLog + FiredRelease(pressedButtons, heldButtonContext, button);
      pressedButtons := WithoutButton(pressedButtons, button);
      if pressedButtons == [] {
        heldButtonContext := None;
      }
    }

    // ---------------------------------------------------------------- resets

    // Also what resetRemoteInputState does to keys and buttons.
    method ReleaseInputState()
      requires Kept()
      modifies `pressedButtons, `heldKeyboardContext, `heldButtonContext, `keyLog, `buttonLog, `keyActions,
              `buttonActions, pressedKeys
      ensures Kept() && AllReleased() && heldKeyboardContext == None && heldButtonContext == None
      ensures LogsGrew()
    {
      ReleaseKeyboardState();
      ReleaseButtons();
    }

    method ReleaseButtons()
      requires Kept()
      modifies `pressedButtons, `heldButtonContext, `buttonLog, `buttonActions
      ensures Kept() && pressedButtons == [] && heldButtonContext == None && old(buttonLog) <= buttonLog
      ensures buttonLog == old(buttonLog) + FiredUnder(Releases(old(pressedButtons)), old(heldButtonContext))
    {
      ButtonRunMore(buttonActions, ButtonsReleased);
      FireReleases();
      ForgetButtons();
    }

    method ForgetButtons()
      modifies `pressedButtons, `heldButtonContext, `buttonActions
      ensures pressedButtons == [] && heldButtonContext == None
      ensures buttonActions == old(buttonActions) + [ButtonsReleased]
    {
      buttonActions := buttonActions + [ButtonsReleased];
      pressedButtons, heldButtonContext := [], None;
    }

    method FireReleases()
      requires ButtonsKept(buttonLog, pressedButtons, heldButtonContext)
      modifies `buttonLog
      ensures ButtonsKept(buttonLog, [], heldButtonContext)
      ensures buttonLog == old(buttonLog) + FiredUnder(Releases(pressedButtons), heldButtonContext)
      ensures NotesOf(buttonLog) == NotesOf(old(buttonLog)) + Releases(pressedButtons)
    {
      if heldButtonContext.None? {
        assert Releases(pressedButtons) == [];
        return;
      }
      ghost var context := heldButtonContext.value;
      var i := 0;
      assert buttonLog == buttonLog + Tagged(Releases([]), context);
      while i < |pressedButtons|
        invariant i <= |pressedButtons| && ButtonsKept(buttonLog, pressedButtons[i..], heldButtonContext)
        invariant buttonLog == old(buttonLog) + Tagged(Releases(pressedButtons[..i]), context)
      {
        ReleaseFired(old(buttonLog), pressedButtons, i, context);
        FirstButtonUp(buttonLog, pressedButtons[i..], context);
        FireRelease(pressedButtons[i], heldButtonContext.value);
        i := i + 1;
      }
      assert pressedButtons[..i] == pressedButtons && pressedButtons[i..] == [];
      TaggedNotes(old(buttonLog), Releases(pressedButtons), context);
    }

    method FireRelease(button: string, context: RemoteInputContext)
      modifies `buttonLog
      ensures buttonLog == old(buttonLog) + [Fired(Note(Button(button), false), context)]
    {
      buttonLog := buttonLog + [Fired(Note(Button(button), false), context)];
    }

    // blur, hiding, changes of display, mode or fullscreen, paste and shortcuts.
    method ResetRemoteInputState()
      requires Valid()
      modifies `pressedButtons, `heldKeyboardContext, `heldButtonContext, `keyLog, `buttonLog, `keyActions,
              `buttonActions, pressedKeys
      ensures Valid() && AllReleased() && LogsGrew()
    {
      ReleaseInputState();
    }

    // ---------------------------------------------------------------- announcements

    // The videoConfig signal; `setsUp`: there is a canvas and the configuration is a new one.
    method VideoConfigSignal(signal: Configuration, setsUp: bool, shown: bool)
      requires Valid()
      modifies this, pressedKeys, inputPresentation
      ensures Valid() && videoConfig == Some(signal) && inputPresentation.configuration == Some(signal)
      ensures if old(inputPresentation.configuration).Some?
                && old(inputPresentation.configuration).value.context != signal.context
              then AllReleased() else HeldAsBefore()
      ensures LogsGrew()
    {
      AnnounceSignal(signal);
      if setsUp {
        SetupRemoteDesktop(true);
      }
      var context := CurrentInputContext(shown);
    }

    // Whatever is held under another context is released under that one.
    method AnnounceSignal(signal: Configuration)
      requires Valid()
      modifies this, pressedKeys, inputPresentation
      ensures Valid() && videoConfig == Some(signal) && inputPresentation.configuration == Some(signal)
      ensures if old(inputPresentation.configuration).Some?
                && old(inputPresentation.configuration).value.context != signal.context
              then AllReleased() else HeldAsBefore()
      ensures LogsGrew()
    {
      var changed, contextChanged := inputPresentation.Announce(signal, channelGeneration);
      if changed {
        surfaceConfirmedVisible := false;
      }
      if contextChanged {
        ReleaseInputState();
      }
      videoConfig := Some(signal);
    }

    // After every render, and when a new configuration arrives; `ready`: nothing else is missing.
    // Its announcement never changes the context that anything is held under.
    method SetupRemoteDesktop(ready: bool)
      requires Valid()
      modifies inputPresentation
      ensures Valid()
      ensures ready && videoConfig.Some? ==> inputPresentation.configuration == videoConfig
      ensures old(inputPresentation.configuration).Some? ==>
              inputPresentation.configuration == old(inputPresentation.configuration)
    {
      if videoConfig.None? || !ready {
        return;
      }
      var changed, contextChanged := inputPresentation.Announce(videoConfig.value, channelGeneration);
    }

    method PaintFrame(configuration: Configuration, generation: int, frameToken: nat)
      returns (painted: Option<PaintedInputFrame>)
      requires Valid()
      modifies inputPresentation
      ensures Valid() && inputPresentation.configuration == old(inputPresentation.configuration)
    {
      painted := inputPresentation.Draw(configuration, generation, frameToken);
    }

    // The animation frame after a painted frame.
    method ConfirmFrame(frame: PaintedInputFrame, visible: bool)
      requires Valid()
      modifies `surfaceConfirmedVisible, inputPresentation
      ensures Valid() && inputPresentation.configuration == old(inputPresentation.configuration)
      ensures surfaceConfirmedVisible ==> visible
    {
      surfaceConfirmedVisible := visible;
      var activated := inputPresentation.Activate(frame, channelGeneration, runtimeStreamId, visible);
      var context := CurrentInputContext(visible);
    }

    // ---------------------------------------------------------------- endings

    // The runtime reports a stream, or that it is not connected; `keepSurface`: it is reconnecting.
    method RuntimeSignal(streamId: Option<string>, keepSurface: bool)
      requires Valid()
      modifies this, pressedKeys, inputPresentation
      ensures Valid() && runtimeStreamId == streamId
      ensures streamId.None? ==> AllReleased() && inputPresentation.configuration == None
      ensures streamId.Some? ==> HeldAsBefore()
      ensures LogsGrew()
    {
      runtimeStreamId := streamId;
      if streamId.Some? {
        return;
      }
      inputPresentation.Clear();
      surfaceConfirmedVisible := false;
      ReleaseInputState();
      if !keepSurface {
        videoConfig := None;
      }
    }

    method PrepareControllerRender()
      requires Kept() && inputPresentation.Valid()
      modifies this, pressedKeys, inputPresentation
      ensures Valid() && AllReleased() && inputPresentation.configuration == None
      ensures videoConfig == old(videoConfig) && channelGeneration == old(channelGeneration)
      ensures LogsGrew()
    {
      ReleaseInputState();
      inputPresentation.Clear();
      surfaceConfirmedVisible := false;
    }

    method BeginConnection()
      requires Valid()
      modifies this, pressedKeys, inputPresentation
      ensures Valid() && LogsGrew() && videoConfig == None && channelGeneration == old(channelGeneration) + 1
      ensures AllReleased() && inputPresentation.configuration == None
    {
      videoConfig := None;
      PrepareControllerRender();
      channelGeneration := channelGeneration + 1;
    }

    method CancelConnection()
      requires Valid()
      modifies this, pressedKeys, inputPresentation
      ensures Valid() && LogsGrew() && videoConfig == None && channelGeneration == old(channelGeneration) + 1
      ensures AllReleased() && inputPresentation.configuration == None
    {
      channelGeneration := channelGeneration + 1;
      PrepareControllerRender();
      videoConfig := None;
    }
  }
}
