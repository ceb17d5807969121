// What the steps of the player do to what a listener can tell: which sound is playing, which is
// forgotten, and whose events count.
module AudioPlayerSteps {
  import opened Options
  import opened AudioTransfer
  import opened AudioTransferTheorems

  // ---------------------------------------------------------------- whose events count

  // An event of a context that is not the current one.
  ghost predicate IsForeign(p: Player, e: Event)
  {
    match e
    case ContextEvent(of) => p.context != Some(of)
    case Resuming(of, _) => p.context != Some(of)
    case Loaded(id, _) => id in p.loads && p.context != Some(p.loads[id].context)
    case LoadDone(id) => id in p.loads && p.context != Some(p.loads[id].context)
    case NodeFailing(from) => p.link.node != Some(from)
    case NodeSpeaking(from) => p.link.node != Some(from)
    case _ => false
  }

  // Late events of contexts, loads and nodes that were given up change nothing but the record of
  // the loads.
  lemma ForeignEventsAreIgnored(p: Player, e: Event)
    requires IsPossible(p, e) && IsForeign(p, e)
    ensures Step(p, e) == p.(loads := Step(p, e).loads)
    ensures !e.Loaded? && !e.LoadDone? ==> Step(p, e).loads == p.loads
  {
  }

  // ---------------------------------------------------------------- what is forgotten

  // Everything queued outside the worklet is given back, the port is told, and the next packet
  // starts a stream of its own.
  ghost predicate StartsOver(p: Player, q: Player)
  {
    && q.link.generation == p.link.generation + 1 && q.link.node == p.link.node
    && q.link.pending == [] && |q.link.pool| == |p.link.pool| + |p.link.pending|
    && (forall i :: 0 <= i < |q.link.pool| ==>
        q.link.pool[i] ==
        if i < |p.link.pool| then p.link.pool[i] else p.link.pending[i - |p.link.pool|].buffer)
    && q.link.posted == p.link.posted + (if p.link.node.Some? then [Reset(p.link.generation + 1)] else [])
    && q.cursor.streamId.None? && q.cursor.nextSequence.None? && q.cursor.lastCaptureTimestampUs.None?
    && q.cursor.lastArrivalMs.None? && !q.cursor.resetAfterDrop && q.stats.counters.bufferedSamples == 0
    && q.stats.droppedPackets == p.stats.droppedPackets && q.stats.jitterMs == p.stats.jitterMs
  }

  lemma ResetStartsOver(p: Player)
    ensures StartsOver(p, ResetConnection(p))
  {
  }

  // Whatever interrupts playback makes it start over: a reset, muting, and the current context
  // no longer running.
  lemma InterruptionsStartOver(p: Player, e: Event)
    requires IsPossible(p, e)
    requires e.Resetting? || (e.Enabling? && !e.enabled)
             || (e.ContextEvent? && p.context == Some(e.of) && !p.contextState.Running?)
    ensures StartsOver(p, Step(p, e)) && Step(p, e).context == p.context
  {
    ResetStartsOver(p);
  }

  // A context that runs, or runs again, loses nothing that is queued.
  lemma RunningLosesNothing(p: Player, of: nat)
    requires p.contextState.Running?
    ensures ContextChanged(p, of).link == p.link && ContextChanged(p, of).cursor == p.cursor
  {
  }

  // After release() nothing is left: no context, node, load or buffer.
  lemma ReleaseLeavesNothing(p: Player)
    ensures var q := Release(p);
            && q.context.None? && q.link.node.None? && q.loading.None? && q.link.pool == [] && q.link.pending == []
            && q.status.Ended? && q.link.generation == p.link.generation + 1 && q.cursor == NO_CURSOR
            && q.enabled == p.enabled
  {
  }

  // A failure gives up the node and starts over with 25 buffers that were never used before.
  lemma FailureStartsAfresh(p: Player)
    ensures var q := Fail(p);
            && q.status.Failed? && q.link.node.None? && q.context == p.context && q.link.pending == []
            && |q.link.pool| == 25 && (forall i :: 0 <= i < 25 ==> p.nextId <= q.link.pool[i] < q.nextId)
            && (forall i, j :: 0 <= i < j < 25 ==> q.link.pool[i] != q.link.pool[j])
            && q.link.generation == p.link.generation + 1 && q.cursor == NO_CURSOR
  {
  }

  // ---------------------------------------------------------------- getting under way

  // The status that the state of the context calls for.
  ghost predicate IsStatus(status: Status, enabled: bool, context: ContextState, hasNode: bool)
  {
    && (status.Muted? <==> !enabled)
    && (status.Paused? <==> enabled && context.Suspended?)
    && (status.Ended? <==> enabled && context.Closed?)
    && (status.Live? <==> enabled && context.Running? && hasNode)
    && (status.Starting? <==> enabled && context.Running? && !hasNode)
  }

  // An event of the current context, muting, a resumed context and a node that was attached each
  // leave exactly the status that fits.
  lemma StatusFits(p: Player, e: Event)
    requires IsPossible(p, e) && p.context.Some? && !p.status.Failed?
    requires (e.ContextEvent? && p.context == Some(e.of)) || (e.Enabling? && !e.enabled)
             || (e.Resuming? && p.context == Some(e.of) && e.resumed)
             || (e.Loaded? && p.context == Some(p.loads[e.id].context) && e.outcome.NodeMade?
                 && !p.contextState.Closed?)
    ensures var q := Step(p, e); IsStatus(q.status, q.enabled, q.contextState, q.link.node.Some?)
  {
  }

  // Where nothing throws, prepare() gets playback under way in every reachable state: a context
  // that is not closed, and a node or a load of one.
  lemma PrepareGetsUnderWay(states: seq<Player>, events: seq<Event>, n: nat)
    requires IsRun(states, events) && n < |states| && states[n].enabled
    ensures var p, q := states[n], Prepare(states[n], WILLING);
            && q.context.Some? && !q.contextState.Closed? && !q.status.Failed?
            && (q.link.node.Some? || q.loading.Some?)
            && IsStatus(q.status, true, q.contextState, q.link.node.Some?)
            && (p.context.Some? && p.contextState.Closed? ==> q.context != p.context)
            && (p.context.Some? && !p.contextState.Closed? ==> q.context == p.context && q.link == p.link)
  {
    RunIsSafe(states, events, n);
    PreparedFrom(states[n]);
  }

  const WILLING := Browser(Created(Running), false, false)

  lemma PlaybackStarts(p: Player)
    requires p.enabled && p.context.Some? && !p.contextState.Closed? && !p.status.Failed?
    ensures var q := StartPlayback(p, true, WILLING);
            && q.context == p.context && q.contextState == p.contextState && !q.status.Failed? && q.link == p.link
            && (q.link.node.Some? || q.loading.Some?)
            && IsStatus(q.status, true, q.contextState, q.link.node.Some?)
  {
  }

  // The player as prepare() finds it once a closed context is released and a failure forgotten.
  function Willing(p: Player): Player
  {
    var q := if p.context.Some? && p.contextState.Closed? then Release(p) else p;
    if q.status.Failed? then q.(status := Starting) else q
  }

  lemma PreparedFrom(p: Player)
    requires Inv(p) && p.enabled
    ensures var q := Prepare(p, WILLING);
            && q.context.Some? && !q.contextState.Closed? && !q.status.Failed?
            && (q.link.node.Some? || q.loading.Some?)
            && IsStatus(q.status, true, q.contextState, q.link.node.Some?)
            && (p.context.Some? && p.contextState.Closed? ==> q.context != p.context)
            && (p.context.Some? && !p.contextState.Closed? ==> q.context == p.context && q.link == p.link)
  {
    var r := Willing(p);
    assert Prepare(p, WILLING) == EnsurePrepared(r, true, WILLING);
    if r.context.Some? {
      PlaybackStarts(r);
    } else {
      PlaybackStarts(Open(r, Running));
    }
  }

  // The node hears of the generation and then of every packet that waited, in order.
  ghost predicate HearsAll(l: Link, m: Link)
  {
    && m.node.Some? && m.pending == [] && m.taken == 0 && m.generation == l.generation
    && |m.posted| == 1 + |l.pending| && m.posted[0] == Reset(l.generation)
    && forall i :: 0 <= i < |l.pending| ==> m.posted[1 + i] == Samples(l.generation, l.pending[i])
  }

  lemma AttachedHearsAll(p: Player)
    ensures HearsAll(p.link, Attach(p).link)
    ensures p.status.Failed? <==> Attach(p).status.Failed?
  {
    assert HearsAll(p.link, AttachLink(p.link, p.nextId));
  }

  // A load of the current context ends with a node exactly if one was made before the context
  // closed, and with a failure exactly if the load was rejected or no node could be made.
  lemma LoadDecides(p: Player, id: nat, outcome: LoadOutcome)
    requires id in p.loads && p.context == Some(p.loads[id].context) && p.link.node.None? && !p.status.Failed?
    ensures var q := LoadSettled(p, id, outcome);
            && (q.link.node.Some? <==> outcome.NodeMade? && !p.contextState.Closed?)
            && (q.status.Failed? <==> outcome.Rejected? || (outcome.NodeThrows? && !p.contextState.Closed?))
            && (q.link.node.Some? ==> HearsAll(p.link, q.link))
  {
    var marked := p.(loads := p.loads[id := p.loads[id].(settled := true)]);
    AttachedHearsAll(marked);
    FailureStartsAfresh(marked);
  }

  // ---------------------------------------------------------------- counters

  // Resuming the current context ends, if it is refused, in a pause, and changes nothing else.
  lemma RefusedResumePauses(p: Player, of: nat)
    requires p.context == Some(of)
    ensures ResumeSettled(p, of, false) == p.(status := ResumeSettled(p, of, false).status)
    ensures ResumeSettled(p, of, false).status.Paused?
  {
  }

  // A report of the current node is taken over exactly if it is of the present generation.
  lemma ReportsAreOfThisGeneration(p: Player, generation: nat, counters: Counters)
    requires p.link.node.Some? && p.link.outbox != [] && p.link.outbox[0] == Metrics(generation, counters)
    ensures var q := NodeMessage(p, p.link.node.value);
            && q.stats.counters == (if generation == p.link.generation then counters else p.stats.counters)
            && q.link == p.link.(outbox := p.link.outbox[1..])
  {
  }

  // A buffer that comes back goes behind those of the pool.
  lemma BuffersComeBack(p: Player, buffer: nat)
    requires p.link.node.Some? && p.link.outbox != [] && p.link.outbox[0] == Recycle(buffer)
    ensures var q := NodeMessage(p, p.link.node.value);
            q == p.(link := p.link.(outbox := p.link.outbox[1..], pool := p.link.pool + [buffer]))
  {
  }

  // The jitter moves a sixteenth of the way to how far the packet's arrival was from its time:
  // its distance from the packet before it, less the 48 samples a millisecond that it holds.
  lemma JitterIsSmoothed(p: Player, a: Arrival, browser: Browser, now: real, contextTime: real)
    requires p.enabled && Accepts(EnsurePrepared(p, false, browser)) && p.context.Some?
    ensures var q := Push(p, a, browser, now, contextTime); var last := Met(p, a).cursor.lastArrivalMs;
            if last.None? then q.stats.jitterMs == p.stats.jitterMs
            else
              var late := now - last.value - a.count as real / 48.0;
              q.stats.jitterMs * 16.0 == p.stats.jitterMs * 15.0 + if late >= 0.0 then late else -late
  {
    var q := EnsurePrepared(p, false, browser);
    PreparingKeepsStats(p, browser, q);
    JitterOfArrival(Met(q, a), a, now);
    DeliverKeepsJitter(NoteArrival(Met(q, a), a, now), a, contextTime);
  }

  lemma PreparingKeepsStats(p: Player, browser: Browser, q: Player)
    requires p.enabled && q == EnsurePrepared(p, false, browser) && Accepts(q) && p.context.Some?
    ensures q.cursor == p.cursor && q.stats == p.stats
  {
  }

  lemma JitterOfArrival(p: Player, a: Arrival, now: real)
    ensures NoteArrival(p, a, now).cursor.lastArrivalMs == Some(now)
    ensures var q := NoteArrival(p, a, now);
            if p.cursor.lastArrivalMs.None? then q.stats.jitterMs == p.stats.jitterMs
            else
              var late := now - p.cursor.lastArrivalMs.value - a.count as real / 48.0;
              q.stats.jitterMs * 16.0 == p.stats.jitterMs * 15.0 + if late >= 0.0 then late else -late
  {
  }

  lemma DeliverKeepsJitter(p: Player, a: Arrival, queuedAt: real)
    ensures Deliver(p, a, queuedAt).stats.jitterMs == p.stats.jitterMs
  {
  }
}
