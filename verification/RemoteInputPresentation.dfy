// `RemoteInputPresentation` of apps/windows-ui/src/remote-input-context.ts: remote input is live
// only after a frame of exactly the announced configuration was drawn and then seen.
module InputPresentation {
  import opened Options
  import opened InputContexts

  datatype Configuration = Configuration(context: RemoteInputContext, configVersion: nat)

  // `id` is the identity of the object that drew() made; tokens are identities of video frames.
  datatype PaintedInputFrame = PaintedInputFrame(id: nat, configuration: Configuration, channelGeneration: int,
      frameToken: nat)

  // ---------------------------------------------------------------- what happened

  datatype Event =
    | Announced(configuration: Configuration, channelGeneration: int)
    | Drew(configuration: Configuration, channelGeneration: int, frameToken: nat)
    | Confirmed(frameToken: nat)           // an activation of this frame while it was visible
    | Suspended
    | Cleared

  datatype Log = Empty | Then(before: Log, event: Event)

  // The announcement in force.
  function InForce(log: Log): Option<(Configuration, int)>
  {
    match log
    case Empty => None
    case Then(before, Announced(c, g)) => Some((c, g))
    case Then(before, Cleared) => None
    case Then(before, _) => InForce(before)
  }

  // Frames drawn for exactly the announcement in force, since it was made.
  function Drawn(log: Log): set<nat>
  {
    match log
    case Empty => {}
    case Then(before, Announced(c, g)) => if InForce(before) == Some((c, g)) then Drawn(before) else {}
    case Then(before, Drew(c, g, token)) => Drawn(before) + (if InForce(before) == Some((c, g)) then {token} else {})
    case Then(before, Cleared) => {}
    case Then(before, _) => Drawn(before)
  }

  // Those of them that were then confirmed visible, since the last suspension.
  function Seen(log: Log): set<nat>
  {
    match log
    case Empty => {}
    case Then(before, Announced(c, g)) => if InForce(before) == Some((c, g)) then Seen(before) else {}
    case Then(before, Confirmed(token)) => Seen(before) + (if token in Drawn(before) then {token} else {})
    case Then(before, Drew(_, _, _)) => Seen(before)
    case Then(before, _) => {}
  }

  lemma {:induction false} SeenWereDrawn(log: Log)
    ensures Seen(log) <= Drawn(log)
  {
    if log.Then? {
      SeenWereDrawn(log.before);
    }
  }

  class RemoteInputPresentation {
    var configuration: Option<Configuration>
    var channelGeneration: int
    var liveContext: Option<RemoteInputContext>
    var active: bool
    var painted: Option<PaintedInputFrame>
    var latestFrameToken: Option<nat>
    var nextId: nat

    ghost var log: Log
    ghost var announcedAt: nat       // the first identity free when the configuration was announced

    ghost predicate Valid()
      reads this
    {
      && InForce(log) == (if configuration.Some? then Some((configuration.value, channelGeneration)) else None)
      && (liveContext.Some? ==>
          configuration.Some? && liveContext.value == configuration.value.context
            && ValidInputContext(liveContext.value))
      && (latestFrameToken.Some? ==> liveContext.Some? && latestFrameToken.value in Drawn(log))
      && (painted.Some? ==>
            && liveContext.Some? && painted.value.configuration == configuration.value
            && painted.value.channelGeneration == channelGeneration && painted.value.frameToken in Drawn(log)
            && announcedAt <= painted.value.id < nextId)
      && announcedAt <= nextId
      && (active ==> liveContext.Some? && Seen(log) != {})
    }

    constructor ()
      ensures Valid() && configuration == None && !active && log == Empty
    {
      configuration, channelGeneration, liveContext, active, painted, latestFrameToken := None, -1, None, false, None,
          None;
      nextId, log, announcedAt := 0, Empty, 0;
    }

    // The context that input may use now.
    function Context(): Option<RemoteInputContext>
      reads this
    {
      if active then liveContext else None
    }

    // A context is exposed only while some frame of exactly the announced configuration and channel
    // was drawn and afterwards confirmed visible, since the announcement and the last suspension.
    lemma ExposedMeansSeen()
      requires Valid() && Context().Some?
      ensures configuration.Some? && Context().value == configuration.value.context
              && ValidInputContext(Context().value)
      ensures InForce(log) == Some((configuration.value, channelGeneration))
      ensures exists token :: token in Seen(log) && token in Drawn(log)
    {
      SeenWereDrawn(log);
      var token :| token in Seen(log);
    }

    method Announce(c: Configuration, generation: int) returns (changed: bool, contextChanged: bool)
      requires Valid()
      modifies this
      ensures Valid() && log == Then(old(log), Announced(c, generation))
      ensures configuration == Some(c) && channelGeneration == generation
      ensures changed <==> !(old(configuration) == Some(c) && old(channelGeneration) == generation)
      ensures contextChanged <==>
              old(configuration).Some?
                && (old(channelGeneration) != generation || old(configuration).value.context != c.context)
      ensures !changed ==>
              active == old(active) && painted == old(painted) && liveContext == old(liveContext)
                && announcedAt == old(announcedAt)
      ensures changed ==> !active && painted == None && announcedAt == nextId == old(nextId)
    {
      changed := channelGeneration != generation || configuration != Some(c);
      contextChanged := configuration.Some?
          && (channelGeneration != generation || configuration.value.context != c.context);
      log := Then(log, Announced(c, generation));
      if !changed {
        return false, false;
      }
      configuration, channelGeneration := Some(c), generation;
      liveContext := if ValidInputContext(c.context) then Some(c.context) else None;
      active, painted, latestFrameToken := false, None, None;
      announcedAt := nextId;
    }

    method Draw(c: Configuration, generation: int, frameToken: nat) returns (frame: Option<PaintedInputFrame>)
      requires Valid()
      modifies this
      ensures Valid() && log == Then(old(log), Drew(c, generation, frameToken))
      ensures configuration == old(configuration) && channelGeneration == old(channelGeneration)
              && active == old(active) && liveContext == old(liveContext)
      ensures var matches := old(liveContext).Some? && old(configuration) == Some(c)
              && old(channelGeneration) == generation;
              && (frame.Some? <==> matches && !active)
              && (frame.Some? ==>
                  frame == painted && frame.value == PaintedInputFrame(old(nextId), c, generation, frameToken))
              && (frame.None? ==> painted == old(painted))
              && latestFrameToken == (if matches then Some(frameToken) else old(latestFrameToken))
    {
      log := Then(log, Drew(c, generation, frameToken));
      if liveContext.None? || generation != channelGeneration || configuration != Some(c) {
        return None;
      }
      latestFrameToken := Some(frameToken);
      if active {
        return None;
      }
      painted := Some(PaintedInputFrame(nextId, c, generation, frameToken));
      nextId := nextId + 1;
      return painted;
    }

    // Activation succeeds exactly for the painted object at hand, visible, latest and of the running
    // stream; it was made since the present configuration was announced.
    method Activate(frame: PaintedInputFrame, generation: int, runtimeStreamId: Option<string>, visible: bool)
      returns (activated: bool)
      requires Valid()
      modifies this
      ensures Valid() && configuration == old(configuration) && channelGeneration == old(channelGeneration)
      ensures liveContext == old(liveContext) && painted == old(painted) && announcedAt == old(announcedAt)
      ensures latestFrameToken == old(latestFrameToken)
      ensures activated <==>
                && visible && painted == Some(frame) && latestFrameToken == Some(frame.frameToken)
                && configuration == Some(frame.configuration)
                    && channelGeneration == generation == frame.channelGeneration
                && runtimeStreamId == Some(frame.configuration.context.streamId)
      ensures activated ==> active && frame.id >= announcedAt
      ensures !activated ==> active == old(active)
      ensures log == if activated then Then(old(log), Confirmed(frame.frameToken)) else old(log)
    {
      if !visible || painted != Some(frame) || Some(frame.frameToken) != latestFrameToken
          || frame.channelGeneration != generation
         || generation != channelGeneration || runtimeStreamId != Some(frame.configuration.context.streamId)
         || configuration != Some(frame.configuration) {
        return false;
      }
      log := Then(log, Confirmed(frame.frameToken));
      active := liveContext.Some?;
      return active;
    }

    method Suspend()
      requires Valid()
      modifies this
      ensures Valid() && !active && configuration == old(configuration) && channelGeneration == old(channelGeneration)
      ensures liveContext == old(liveContext) && latestFrameToken == old(latestFrameToken)
              && announcedAt == old(announcedAt)
      ensures latestFrameToken.Some? ==> painted.Some? && painted.value.frameToken == latestFrameToken.value
      ensures log == Then(old(log), Suspended)
    {
      log := Then(log, Suspended);
      active := false;
      if configuration.Some? && latestFrameToken.Some?
          && (painted.None? || painted.value.frameToken != latestFrameToken.value) {
        painted := Some(PaintedInputFrame(nextId, configuration.value, channelGeneration, latestFrameToken.value));
        nextId := nextId + 1;
      }
    }

    method Clear()
      requires Valid()
      modifies this
      ensures Valid() && configuration == None && painted == None && !active && liveContext == None
      ensures log == Then(old(log), Cleared)
    {
      log := Then(log, Cleared);
      configuration, liveContext, painted, latestFrameToken, active, channelGeneration := None, None, None, None, false,
          -1;
    }
  }
}
