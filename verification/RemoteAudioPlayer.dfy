// `RemoteAudioPlayer` of apps/windows-ui/src/remote-audio.ts, written against the steps of
// AudioTransfer. Between two events the player is Valid(): every buffer of the pool is held, what was
// posted is in order, and the status is true. The ghost fields are the browser's side: what was posted
// to the current node, how far its worklet got, what it sent back, and the unfinished module loads.
module RemoteAudioPlayers {
  import opened Options
  import opened AudioSamples
  import opened AudioTransfer
  import AudioPlayerStatus
  import opened RemoteAudioPayloads

  class RemoteAudioPlayer {
    var context: Option<nat>
    var contextState: ContextState
    var node: Option<nat>
    var loading: Option<nat>
    var generation: nat
    var pool: seq<nat>
    var pending: seq<Packet>
    var enabled: bool
    var streamId: Option<nat>
    var nextSequence: Option<nat>
    var lastCaptureTimestampUs: Option<nat>
    var lastArrivalMs: Option<real>
    var resetAfterDrop: bool
    var status: Status
    var counters: Counters
    var droppedPackets: nat
    var jitterMs: real
    var nextId: nat

    ghost var posted: seq<Message>
    ghost var taken: nat
    ghost var worklet: Worklet
    ghost var outbox: seq<Report>
    ghost var loads: map<nat, Load>
    ghost var firstBuffer: nat

    ghost function Where(): Link
      reads this
    {
      Link(node, generation, pool, pending, posted, taken, worklet, outbox, firstBuffer)
    }

    ghost function Expected(): Cursor
      reads this
    {
      Cursor(streamId, nextSequence, lastCaptureTimestampUs, lastArrivalMs, resetAfterDrop)
    }

    ghost function State(): Player
      reads this
    {
      Player(context, contextState, loading, enabled, status, Where(), Expected(),
             Stats(counters, droppedPackets, jitterMs), loads, nextId)
    }

    // The invariant of AudioTransferTheorems and AudioPlayerStatus.
    ghost predicate Valid()
      reads this
    {
      AudioPlayerStatus.Sound(State())
    }

    // With a live context, the 25 buffers are in the pool, waiting, or on their way.
    ghost predicate HoldsAllBuffers()
      reads this
    {
      AudioPlayerStatus.Whole(State())
    }

    constructor ()
      ensures Valid() && HoldsAllBuffers() && State() == INITIAL
    {
      context, contextState, node, loading, generation, pool, pending := None, Closed, None, None, 0, [], [];
      enabled, streamId, nextSequence, lastCaptureTimestampUs, lastArrivalMs := true, None, None, None, None;
      resetAfterDrop, status, counters, droppedPackets := false, Starting, Counters(0, 0, 0, 0, 0), 0;
      jitterMs, nextId := 0.0, 0;
      posted, taken, worklet, outbox, loads, firstBuffer := [], 0, Worklet(0, [], 0), [], map[], 0;
    }

    // ---------------------------------------------------------------- preparing

    method Prepare(browser: Browser)
      requires Valid()
      modifies this
      ensures Valid() && HoldsAllBuffers() && State() == AudioTransfer.Prepare(old(State()), browser)
    {
      AudioPlayerStatus.StepIsSound(State(), Preparing(browser));
      PrepareEnabled(browser);
    }

    method PrepareEnabled(browser: Browser)
      modifies this
      ensures State() == AudioTransfer.Prepare(old(State()), browser)
    {
      if !enabled {
        return;
      }
      if context.Some? && contextState.Closed? {
        LetGo();
      }
      if status.Failed? {
        status := Starting;
      }
      EnsurePrepared(true, browser);
    }

    method EnsurePrepared(resume: bool, browser: Browser)
      modifies this
      ensures State() == AudioTransfer.EnsurePrepared(old(State()), resume, browser)
    {
      if !enabled || status.Failed? {
        return;
      }
      var resumes := resume;
      if context.None? {
        resumes := true;
        if browser.creation.CreateThrows? {
          Fail();
          return;
        }
        CreateContext(if browser.creation.Created? then browser.creation.state else Running);
        if browser.creation.GainThrows? {
          Fail();
          return;
        }
      }
      StartPlayback(resumes, browser);
    }

    method CreateContext(state: ContextState)
      modifies `context, `contextState, `pool, `firstBuffer, `nextId
      ensures State() == Open(old(State()), state)
    {
      NameContext(state);
      NewPool();
    }

    method NameContext(state: ContextState)
      modifies `context, `contextState, `nextId
      ensures context == Some(old(nextId)) && contextState == state && nextId == old(nextId) + 1
    {
      context, contextState, nextId := Some(nextId), state, nextId + 1;
    }

    method NewPool()
      modifies `pool, `firstBuffer, `nextId
      ensures State() == WithFreshPool(old(State()))
    {
      pool, firstBuffer := Fresh(nextId), nextId;
      nextId := nextId + TRANSFER_POOL_PACKETS;
    }

    method StartPlayback(resume: bool, browser: Browser)
      requires context.Some?
      modifies this
      ensures State() == AudioTransfer.StartPlayback(old(State()), resume, browser)
    {
      if node.None? && loading.None? {
        if browser.loadThrows {
          Fail();
          return;
        }
        LoadModule();
      }
      if resume && contextState.Suspended? && browser.resumeThrows {
        Fail();
        return;
      }
      UpdateContextState();
    }

    method LoadModule()
      requires context.Some?
      modifies `loading, `loads, `nextId
      ensures State() == StartLoad(old(State()))
    {
      loading, loads := Some(nextId), loads[nextId := Load(context.value, false)];
      nextId := nextId + 1;
    }

    method SetEnabled(enabled: bool, browser: Browser)
      requires Valid()
      modifies this
      ensures Valid() && HoldsAllBuffers()
      ensures State() == AudioTransfer.SetEnabled(old(State()), enabled, browser)
    {
      AudioPlayerStatus.StepIsSound(State(), Enabling(enabled, browser));
      this.enabled := enabled;
      if !enabled {
        StartOver();
        UpdateContextState();
        return;
      }
      PrepareEnabled(browser);
    }

    // ---------------------------------------------------------------- packets

    // False stands for the TypeError that a malformed payload raises.
    method Push(payload: seq<byte>, browser: Browser, now: real, contextTime: real) returns (accepted: bool)
      requires Valid()
      modifies this
      ensures Valid() && HoldsAllBuffers()
      ensures var header := ReadRemoteAudioPayload(payload);
              && accepted == (!old(enabled) || header.Some?)
              && (!old(enabled) || header.None? ==> State() == old(State()))
              && (header.Some? ==>
                    State() == AudioTransfer.Push(old(State()), ArrivalOf(header.value), browser, now, contextTime))
    {
      AudioPlayerStatus.SoundIsWhole(State());
      if !enabled {
        return true;
      }
      var header := ReadRemoteAudioPayload(payload);
      if header.None? {
        return false;
      }
      AudioPlayerStatus.StepIsSound(State(), Pushing(ArrivalOf(header.value), browser, now, contextTime));
      PushPacket(ArrivalOf(header.value), browser, now, contextTime);
      return true;
    }

    static function ArrivalOf(h: Header): Arrival
    {
      Arrival(h.streamId, h.sequence, h.captureTimestampUs, h.sampleCount)
    }

    method PushPacket(packet: Arrival, browser: Browser, now: real, contextTime: real)
      requires enabled
      modifies this
      ensures State() == AudioTransfer.Push(old(State()), packet, browser, now, contextTime)
    {
      EnsurePrepared(false, browser);
      if context.None? || !contextState.Running? || status.Failed? {
        return;
      }
      var sequenceDiscontinuity :=
          streamId.Some? && (Some(packet.stream) != streamId || Some(packet.sequence) != nextSequence);
      var captureDiscontinuity := lastCaptureTimestampUs.Some?
        && (packet.captureTimestampUs < lastCaptureTimestampUs.value
            || packet.captureTimestampUs - lastCaptureTimestampUs.value > MAX_CAPTURE_GAP_US);
      if sequenceDiscontinuity || captureDiscontinuity {
        StartOver();
      }
      UpdateJitter(packet, now);
      Deliver(packet, contextTime);
    }

    method UpdateJitter(packet: Arrival, now: real)
      modifies `jitterMs, `lastArrivalMs
      ensures State() == NoteArrival(old(State()), packet, now)
    {
      if lastArrivalMs.Some? {
        var deviation := Abs(now - lastArrivalMs.value - packet.count as real / SAMPLES_PER_MS);
        jitterMs := jitterMs + (deviation - jitterMs) / 16.0;
      }
      lastArrivalMs := Some(now);
    }

    method Deliver(packet: Arrival, queuedAt: real)
      modifies this
      ensures State() == AudioTransfer.Deliver(old(State()), packet, queuedAt)
    {
      if pool == [] && pending == [] {
        Drop(packet);
        return;
      }
      Place(packet, queuedAt);
    }

    method Drop(packet: Arrival)
      modifies `droppedPackets, `resetAfterDrop, `streamId, `nextSequence, `lastCaptureTimestampUs
      ensures State() ==
              old(State()).(stats := CountDrop(old(State()).stats),
                cursor := Remembered(old(Expected()).(resetAfterDrop := true), packet))
    {
      MissBuffer();
      Remember(packet);
    }

    method MissBuffer()
      modifies `droppedPackets, `resetAfterDrop
      ensures droppedPackets == old(droppedPackets) + 1 && resetAfterDrop
    {
      droppedPackets, resetAfterDrop := droppedPackets + 1, true;
    }

    method Place(packet: Arrival, queuedAt: real)
      requires pool != [] || pending != []
      modifies this
      ensures State() == AudioTransfer.Deliver(old(State()), packet, queuedAt)
    {
      var buffer := TakeBuffer();
      if resetAfterDrop {
        StartOver();
      }
      var queued := Packet(buffer, packet.count, queuedAt, packet.stream, packet.sequence, packet.captureTimestampUs);
      Enqueue(queued, packet);
    }

    method TakeBuffer() returns (buffer: nat)
      requires pool != [] || pending != []
      modifies `pool, `pending, `droppedPackets
      ensures buffer == NextBuffer(old(Where())) && Where() == WithoutNextBuffer(old(Where()))
      ensures droppedPackets == old(droppedPackets) + (if old(pool) == [] then 1 else 0)
    {
      if pool != [] {
        buffer := pool[|pool| - 1];
        pool := pool[..|pool| - 1];
      } else {
        buffer := pending[0].buffer;
        pending := pending[1..];
        droppedPackets := droppedPackets + 1;
      }
    }

    method Enqueue(queued: Packet, packet: Arrival)
      modifies `posted, `pending, `streamId, `nextSequence, `lastCaptureTimestampUs
      ensures State() ==
              old(State()).(link := Queue(old(Where()), queued), cursor := Remembered(old(Expected()), packet))
    {
      if node.Some? {
        PostMessage(Samples(generation, queued));
      } else {
        pending := pending + [queued];
      }
      Remember(packet);
    }

    method Remember(packet: Arrival)
      modifies `streamId, `nextSequence, `lastCaptureTimestampUs
      ensures Expected() == Remembered(old(Expected()), packet)
    {
      streamId, nextSequence, lastCaptureTimestampUs := Some(packet.stream), Some(packet.sequence + 1),
          Some(packet.captureTimestampUs);
    }

    method PostMessage(message: Message)
      requires node.Some?
      modifies `posted
      ensures Where() == Post(old(Where()), [message])
    {
      posted := posted + [message];
    }

    // ---------------------------------------------------------------- endings

    method ResetConnection()
      requires Valid()
      modifies this
      ensures Valid() && HoldsAllBuffers() && State() == AudioTransfer.ResetConnection(old(State()))
    {
      AudioPlayerStatus.StepIsSound(State(), Resetting);
      StartOver();
    }

    method StartOver()
      modifies `generation, `pool, `pending, `posted, `streamId, `nextSequence, `lastCaptureTimestampUs, `lastArrivalMs,
              `resetAfterDrop, `counters
      ensures State() == AudioTransfer.ResetConnection(old(State()))
    {
      StartGeneration();
      ForgetStream();
    }

    method StartGeneration()
      modifies `generation, `pool, `pending, `posted
      ensures State() == old(State()).(link := ResetLink(old(Where())))
    {
      ReturnPending();
      if node.Some? {
        PostMessage(Reset(generation));
      }
    }

    method ForgetStream()
      modifies `streamId, `nextSequence, `lastCaptureTimestampUs, `lastArrivalMs, `resetAfterDrop, `counters
      ensures State() == old(State()).(cursor := NO_CURSOR, stats := ForgetBuffered(old(State()).stats))
    {
      ClearCursor();
      counters := counters.(bufferedSamples := 0);
    }

    method ClearCursor()
      modifies `streamId, `nextSequence, `lastCaptureTimestampUs, `lastArrivalMs, `resetAfterDrop
      ensures Expected() == NO_CURSOR
    {
      streamId, nextSequence, lastCaptureTimestampUs, lastArrivalMs, resetAfterDrop := None, None, None, None, false;
    }

    method ReturnPending()
      modifies `generation, `pool, `pending
      ensures Where() == NextGeneration(old(Where()))
    {
      generation := generation + 1;
      var index := 0;
      while index < |pending|
        invariant generation == old(generation) + 1 && pending == old(pending)
        invariant index <= |pending| && pool == old(pool) + BuffersOf(pending[..index])
      {
        assert BuffersOf(pending[..index + 1]) == BuffersOf(pending[..index]) + [pending[index].buffer];
        pool := pool + [pending[index].buffer];
        index := index + 1;
      }
      assert pending[..|pending|] == pending;
      pending := [];
    }

    method Release()
      requires Valid()
      modifies this
      ensures Valid() && HoldsAllBuffers() && State() == AudioTransfer.Release(old(State()))
    {
      AudioPlayerStatus.StepIsSound(State(), Releasing);
      LetGo();
    }

    method LetGo()
      modifies this
      ensures State() == AudioTransfer.Release(old(State()))
    {
      StartOver();
      node, context, loading, pool, status := None, None, None, [], Ended;
    }

    method Fail()
      modifies this
      ensures State() == AudioTransfer.Fail(old(State()))
    {
      StartOver();
      node := None;
      NewPool();
      status := Failed;
    }

    method UpdateContextState()
      modifies `status
      ensures State() == AudioTransfer.UpdateContextState(old(State()))
    {
      if status.Failed? {
        return;
      }
      if !enabled {
        status := Muted;
      } else if context.Some? && contextState.Suspended? {
        status := Paused;
      } else if context.Some? && contextState.Closed? {
        status := Ended;
      } else if node.Some? {
        status := Live;
      } else {
        status := Starting;
      }
    }

    // ---------------------------------------------------------------- the browser's events

    // onstatechange of the context `of`.
    method ContextChanged(of: nat)
      requires Valid()
      modifies this
      ensures Valid() && HoldsAllBuffers()
      ensures State() == AudioTransfer.ContextChanged(old(State()), of)
    {
      AudioPlayerStatus.StepIsSound(State(), ContextEvent(of));
      if context != Some(of) {
        return;
      }
      if !contextState.Running? {
        StartOver();
      }
      UpdateContextState();
    }

    method ResumeSettled(of: nat, resumed: bool)
      requires Valid()
      modifies `status
      ensures Valid() && HoldsAllBuffers()
      ensures State() == AudioTransfer.ResumeSettled(old(State()), of, resumed)
    {
      AudioPlayerStatus.StepIsSound(State(), Resuming(of, resumed));
      if context != Some(of) {
        return;
      }
      if resumed {
        UpdateContextState();
      } else {
        status := Paused;
      }
    }

    // The module load started for the context `of` settles.
    method LoadSettled(ghost id: nat, of: nat, outcome: LoadOutcome)
      requires id in loads && loads[id] == Load(of, false)
      requires Valid()
      modifies this
      ensures Valid() && HoldsAllBuffers()
      ensures State() == AudioTransfer.LoadSettled(old(State()), id, outcome)
    {
      AudioPlayerStatus.StepIsSound(State(), Loaded(id, outcome));
      loads := loads[id := Load(of, true)];
      LoadContinues(of, outcome);
    }

    method LoadContinues(of: nat, outcome: LoadOutcome)
      modifies this
      ensures State() == if IgnoresLoad(old(State()), of, outcome) then old(State())
                         else if outcome.NodeMade? then AudioTransfer.Attach(old(State()))
                             else AudioTransfer.Fail(old(State()))
    {
      if outcome.Rejected? {
        if context == Some(of) {
          Fail();
        }
        return;
      }
      if context != Some(of) || contextState.Closed? {
        return;
      }
      if outcome.NodeThrows? {
        Fail();
        return;
      }
      Attach();
    }

    method Attach()
      modifies this
      ensures State() == AudioTransfer.Attach(old(State()))
    {
      AttachNode();
      UpdateContextState();
    }

    method AttachNode()
      modifies `node, `nextId, `pending, `posted, `taken, `worklet, `outbox
      ensures Where() == AttachLink(old(Where()), old(nextId)) && nextId == old(nextId) + 1
    {
      node, nextId := Some(nextId), nextId + 1;
      posted, taken, worklet, outbox := [], 0, Worklet(0, [], 0), [];
      PostMessage(Reset(generation));
      var index := 0;
      while index < |pending|
        invariant node == Some(old(nextId)) && nextId == old(nextId) + 1 && pending == old(pending)
        invariant taken == 0 && worklet == Worklet(0, [], 0) && outbox == []
        invariant index <= |pending| && posted == [Reset(generation)] + AsMessages(pending[..index], generation)
      {
        assert AsMessages(pending[..index + 1], generation) ==
            AsMessages(pending[..index], generation) + [Samples(generation, pending[index])];
        PostMessage(Samples(generation, pending[index]));
        index := index + 1;
      }
      assert pending[..|pending|] == pending;
      pending := [];
    }

    method LoadFinally(ghost id: nat, of: nat)
      requires id in loads && loads[id] == Load(of, true)
      requires Valid()
      modifies `loads, `loading
      ensures Valid() && HoldsAllBuffers()
      ensures State() == AudioTransfer.LoadFinally(old(State()), id)
    {
      AudioPlayerStatus.StepIsSound(State(), LoadDone(id));
      loads := loads - {id};
      if context == Some(of) {
        loading := None;
      }
    }

    method ProcessorError(from: nat)
      requires Valid()
      modifies this
      ensures Valid() && HoldsAllBuffers()
      ensures State() == AudioTransfer.ProcessorError(old(State()), from)
    {
      AudioPlayerStatus.StepIsSound(State(), NodeFailing(from));
      if node == Some(from) {
        Fail();
      }
    }

    // A message of the node `from`; the port of the current node delivers in order.
    method NodeMessage(from: nat, message: Report)
      requires node == Some(from) ==> outbox != [] && outbox[0] == message
      requires Valid()
      modifies this
      ensures Valid() && HoldsAllBuffers()
      ensures State() == AudioTransfer.NodeMessage(old(State()), from)
    {
      AudioPlayerStatus.StepIsSound(State(), NodeSpeaking(from));
      if node != Some(from) {
        return;
      }
      HandleReport(message);
    }

    method HandleReport(message: Report)
      requires node.Some? && outbox != [] && outbox[0] == message
      modifies `pool, `counters, `outbox
      ensures State() == AudioTransfer.NodeMessage(old(State()), node.value)
    {
      outbox := outbox[1..];
      match message {
        case Recycle(buffer) => pool := pool + [buffer];
        case Metrics(of, reported) =>
          if of == generation {
            counters := reported;
          }
      }
    }

    // ---------------------------------------------------------------- the browser's side

    method ContextTurns(state: ContextState)
      requires Valid()
      modifies `contextState
      ensures Valid() && HoldsAllBuffers() && State() == old(State()).(contextState := state)
    {
      AudioPlayerStatus.StepIsSound(State(), ContextTurning(state));
      contextState := state;
    }

    ghost method WorkletTakes(currentTime: real)
      requires Valid()
      modifies `taken, `worklet, `outbox
      ensures Valid() && HoldsAllBuffers()
      ensures State() == old(State()).(link := AudioTransfer.WorkletTakes(old(Where()), currentTime))
    {
      AudioPlayerStatus.StepIsSound(State(), NodeTaking(currentTime));
      TakeMessage(AudioTransfer.WorkletTakes(Where(), currentTime));
    }

    ghost method TakeMessage(next: Link)
      requires next == Where().(taken := next.taken, worklet := next.worklet, outbox := next.outbox)
      modifies `taken, `worklet, `outbox
      ensures State() == old(State()).(link := next)
    {
      taken, worklet, outbox := next.taken, next.worklet, next.outbox;
    }

    ghost method WorkletReports(counters: Counters)
      requires Valid()
      modifies `outbox
      ensures Valid() && HoldsAllBuffers()
      ensures State() == old(State()).(link := AudioTransfer.WorkletReports(old(Where()), counters))
    {
      AudioPlayerStatus.StepIsSound(State(), NodeReporting(counters));
      outbox := outbox + [Metrics(worklet.generation, counters)];
    }
  }
}
