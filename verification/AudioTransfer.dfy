// The packet pool and generation protocol between `RemoteAudioPlayer`
// (apps/windows-ui/src/remote-audio.ts) and its audio worklet
// (apps/windows-ui/src/remote-audio-worklet.ts), step by step. Buffers, contexts, nodes and module
// loads are numbers; a number is never used twice. `posted` is everything posted to the current
// node; the worklet has taken the first `taken` messages and the rest are in the port, in order.
module AudioTransfer {
  import opened Options
  import RemoteAudioBuffers

  const TRANSFER_POOL_PACKETS := 25
  const MAX_CAPTURE_GAP_US := 100000
  const SAMPLES_PER_MS := 48.0
  const MAX_QUEUE_SECONDS := RemoteAudioBuffers.MAX_AGE

  // `stream`, `sequence` and `capture` say which packet the samples came from and when it was
  // captured; the message does not carry them.
  datatype Packet = Packet(buffer: nat, count: nat, queuedAt: real, stream: nat, sequence: nat, capture: nat)

  datatype Message = Reset(generation: nat) | Samples(generation: nat, packet: Packet)

  // What the worklet reports of its ring buffer, staleSamples with the packets it refused.
  datatype Counters = Counters(bufferedSamples: nat, underrunSamples: nat, overflowSamples: nat,
                               staleSamples: nat, renderedSamples: nat)

  datatype Report = Recycle(buffer: nat) | Metrics(generation: nat, counters: Counters)

  // The worklet's side: the generation it is at, the packets it has pushed into its ring buffer
  // since its last reset, and the ones it refused.
  datatype Worklet = Worklet(generation: nat, kept: seq<Packet>, refused: nat)

  datatype ContextState = Running | Suspended | Closed

  datatype Status = Starting | Live | Paused | Muted | Failed | Ended

  datatype Load = Load(context: nat, settled: bool)

  // Where the buffers and the messages are.
  datatype Link = Link(node: Option<nat>, generation: nat, pool: seq<nat>, pending: seq<Packet>,
                       posted: seq<Message>, taken: nat, worklet: Worklet, outbox: seq<Report>, firstBuffer: nat)

  // What the next packet is compared with.
  datatype Cursor = Cursor(streamId: Option<nat>, nextSequence: Option<nat>, lastCaptureTimestampUs: Option<nat>,
                           lastArrivalMs: Option<real>, resetAfterDrop: bool)

  datatype Stats = Stats(counters: Counters, droppedPackets: nat, jitterMs: real)

  datatype Player = Player(
    context: Option<nat>, contextState: ContextState, loading: Option<nat>, enabled: bool, status: Status,
    link: Link, cursor: Cursor, stats: Stats, loads: map<nat, Load>, nextId: nat)

  // What the browser answers while a context is being prepared.
  datatype Creation = CreateThrows | GainThrows | Created(state: ContextState)
  datatype Browser = Browser(creation: Creation, loadThrows: bool, resumeThrows: bool)
  datatype LoadOutcome = Rejected | NodeThrows | NodeMade

  datatype Arrival = Arrival(stream: nat, sequence: nat, captureTimestampUs: nat, count: nat)

  // ---------------------------------------------------------------- the steps of the player

  function Fresh(first: nat): (pool: seq<nat>)
    ensures |pool| == TRANSFER_POOL_PACKETS && forall i :: 0 <= i < |pool| ==> pool[i] == first + i
  {
    seq(TRANSFER_POOL_PACKETS, i => first + i)
  }

  function BuffersOf(packets: seq<Packet>): (r: seq<nat>)
    ensures |r| == |packets| && forall i :: 0 <= i < |r| ==> r[i] == packets[i].buffer
  {
    seq(|packets|, i requires 0 <= i < |packets| => packets[i].buffer)
  }

  function Post(l: Link, messages: seq<Message>): Link
  {
    if l.node.Some? then l.(posted := l.posted + messages) else l
  }

  function NextGeneration(l: Link): Link
  {
    l.(generation := l.generation + 1, pool := l.pool + BuffersOf(l.pending), pending := [])
  }

  function ResetLink(l: Link): Link { Post(NextGeneration(l), [Reset(l.generation + 1)]) }

  const NO_CURSOR := Cursor(None, None, None, None, false)

  function ForgetBuffered(s: Stats): Stats { s.(counters := s.counters.(bufferedSamples := 0)) }

  function ResetConnection(p: Player): Player
  {
    p.(link := ResetLink(p.link), cursor := NO_CURSOR, stats := ForgetBuffered(p.stats))
  }

  function WithFreshPool(p: Player): Player
  {
    p.(link := p.link.(pool := Fresh(p.nextId), firstBuffer := p.nextId), nextId := p.nextId + TRANSFER_POOL_PACKETS)
  }

  function Fail(p: Player): Player
  {
    var q := ResetConnection(p);
    WithFreshPool(q.(link := q.link.(node := None), status := Failed))
  }

  function Release(p: Player): Player
  {
    var q := ResetConnection(p);
    q.(link := q.link.(node := None, pool := []), context := None, loading := None, status := Ended)
  }

  function UpdateContextState(p: Player): Player
  {
    if p.status.Failed? then p
    else p.(status :=
      if !p.enabled then Muted
      else if p.context.Some? && p.contextState.Suspended? then Paused
      else if p.context.Some? && p.contextState.Closed? then Ended
      else if p.link.node.Some? then Live
      else Starting)
  }

  function Open(p: Player, state: ContextState): Player
  {
    WithFreshPool(p.(context := Some(p.nextId), contextState := state, nextId := p.nextId + 1))
  }

  function StartLoad(p: Player): Player
    requires p.context.Some?
  {
    p.(loading := Some(p.nextId), loads := p.loads[p.nextId := Load(p.context.value, false)], nextId := p.nextId + 1)
  }

  // Loads the worklet if there is none, and resumes a suspended context when asked to.
  function StartPlayback(p: Player, resume: bool, browser: Browser): Player
    requires p.context.Some?
  {
    var loads := p.link.node.None? && p.loading.None?;
    if loads && browser.loadThrows then Fail(p)
    else
      var q := if loads then StartLoad(p) else p;
      if resume && q.contextState.Suspended? && browser.resumeThrows then Fail(q) else UpdateContextState(q)
  }

  function EnsurePrepared(p: Player, resume: bool, browser: Browser): Player
  {
    if !p.enabled || p.status.Failed? then p
    else if p.context.Some? then StartPlayback(p, resume, browser)
    else
      match browser.creation
      case CreateThrows => Fail(p)
      case GainThrows => Fail(Open(p, Running))
      case Created(state) => StartPlayback(Open(p, state), true, browser)
  }

  function Prepare(p: Player, browser: Browser): Player
  {
    if !p.enabled then p
    else
      var q := if p.context.Some? && p.contextState.Closed? then Release(p) else p;
      EnsurePrepared(if q.status.Failed? then q.(status := Starting) else q, true, browser)
  }

  function SetEnabled(p: Player, enabled: bool, browser: Browser): Player
  {
    var q := p.(enabled := enabled);
    if !enabled then UpdateContextState(ResetConnection(q)) else Prepare(q, browser)
  }

  predicate Discontinuous(c: Cursor, a: Arrival)
  {
    || (c.streamId.Some? && (c.streamId != Some(a.stream) || c.nextSequence != Some(a.sequence)))
    || (c.lastCaptureTimestampUs.Some?
        && (a.captureTimestampUs < c.lastCaptureTimestampUs.value
            || a.captureTimestampUs - c.lastCaptureTimestampUs.value > MAX_CAPTURE_GAP_US))
  }

  function Abs(x: real): real { if x < 0.0 then -x else x }

  function NoteArrival(p: Player, a: Arrival, now: real): Player
  {
    var q := p.(cursor := p.cursor.(lastArrivalMs := Some(now)));
    if p.cursor.lastArrivalMs.None? then q
    else
      var deviation := Abs(now - p.cursor.lastArrivalMs.value - a.count as real / SAMPLES_PER_MS);
      q.(stats := p.stats.(jitterMs := p.stats.jitterMs + (deviation - p.stats.jitterMs) / 16.0))
  }

  function Remembered(c: Cursor, a: Arrival): Cursor
  {
    c.(streamId := Some(a.stream), nextSequence := Some(a.sequence + 1),
        lastCaptureTimestampUs := Some(a.captureTimestampUs))
  }

  // Queues a packet for the worklet: straight into the port, or behind the packets that wait for it.
  function Queue(l: Link, packet: Packet): Link
  {
    if l.node.Some? then Post(l, [Samples(l.generation, packet)]) else l.(pending := l.pending + [packet])
  }

  // Takes a buffer off the pool, or else off the oldest packet that waits.
  function NextBuffer(l: Link): nat
    requires l.pool != [] || l.pending != []
  {
    if l.pool != [] then l.pool[|l.pool| - 1] else l.pending[0].buffer
  }

  function WithoutNextBuffer(l: Link): Link
    requires l.pool != [] || l.pending != []
  {
    if l.pool != [] then l.(pool := l.pool[..|l.pool| - 1]) else l.(pending := l.pending[1..])
  }

  function CountDrop(s: Stats): Stats { s.(droppedPackets := s.droppedPackets + 1) }

  function Deliver(p: Player, a: Arrival, queuedAt: real): Player
  {
    if p.link.pool == [] && p.link.pending == [] then
      p.(stats := CountDrop(p.stats), cursor := Remembered(p.cursor.(resetAfterDrop := true), a))
    else
      var q :=
          p.(link := WithoutNextBuffer(p.link), stats := if p.link.pool == [] then CountDrop(p.stats) else p.stats);
      var r := if p.cursor.resetAfterDrop then ResetConnection(q) else q;
      var packet := Packet(NextBuffer(p.link), a.count, queuedAt, a.stream, a.sequence, a.captureTimestampUs);
      r.(link := Queue(r.link, packet), cursor := Remembered(r.cursor, a))
  }

  function Push(p: Player, a: Arrival, browser: Browser, now: real, contextTime: real): Player
  {
    if !p.enabled then p
    else
      var q := EnsurePrepared(p, false, browser);
      if q.context.None? || !q.contextState.Running? || q.status.Failed? then q
      else Deliver(NoteArrival(if Discontinuous(q.cursor, a) then ResetConnection(q) else q, a, now), a, contextTime)
  }

  function ContextChanged(p: Player, of: nat): Player
  {
    if p.context != Some(of) then p
    else UpdateContextState(if p.contextState.Running? then p else ResetConnection(p))
  }

  function ResumeSettled(p: Player, of: nat, resumed: bool): Player
  {
    if p.context != Some(of) then p
    else if resumed then UpdateContextState(p)
    else p.(status := Paused)
  }

  function AsMessages(packets: seq<Packet>, generation: nat): (r: seq<Message>)
    ensures |r| == |packets| && forall i :: 0 <= i < |r| ==> r[i] == Samples(generation, packets[i])
  {
    seq(|packets|, i requires 0 <= i < |packets| => Samples(generation, packets[i]))
  }

  // The worklet module is loaded: a new node, a reset, and everything that waited for it.
  function AttachLink(l: Link, node: nat): Link
  {
    l.(node := Some(node), pending := [], posted := [Reset(l.generation)] + AsMessages(l.pending, l.generation),
       taken := 0, worklet := Worklet(0, [], 0), outbox := [])
  }

  function Attach(p: Player): Player
  {
    UpdateContextState(p.(link := AttachLink(p.link, p.nextId), nextId := p.nextId + 1))
  }

  predicate IgnoresLoad(p: Player, of: nat, outcome: LoadOutcome)
  {
    p.context != Some(of) || (!outcome.Rejected? && p.contextState.Closed?)
  }

  function LoadSettled(p: Player, id: nat, outcome: LoadOutcome): Player
    requires id in p.loads
  {
    var q := p.(loads := p.loads[id := p.loads[id].(settled := true)]);
    if IgnoresLoad(p, p.loads[id].context, outcome) then q
    else if outcome.NodeMade? then Attach(q)
    else Fail(q)
  }

  function LoadFinally(p: Player, id: nat): Player
    requires id in p.loads
  {
    p.(loads := p.loads - {id}, loading := if p.context == Some(p.loads[id].context) then None else p.loading)
  }

  function ProcessorError(p: Player, from: nat): Player
  {
    if p.link.node == Some(from) then Fail(p) else p
  }

  // A message from the current node is the next one of its port; a message of any other node is
  // ignored, whatever it is.
  function NodeMessage(p: Player, from: nat): Player
  {
    if p.link.node != Some(from) || p.link.outbox == [] then p
    else
      var l := p.link.(outbox := p.link.outbox[1..]);
      match p.link.outbox[0]
      case Recycle(buffer) => p.(link := l.(pool := l.pool + [buffer]))
      case Metrics(generation, counters) =>
        p.(link := l, stats := if generation == l.generation then p.stats.(counters := counters) else p.stats)
  }

  // ---------------------------------------------------------------- the steps of the worklet

  function Heard(w: Worklet, message: Message, currentTime: real): Worklet
  {
    match message
    case Reset(generation) => w.(generation := generation, kept := [])
    case Samples(generation, packet) =>
      if generation == w.generation && currentTime - packet.queuedAt <= MAX_QUEUE_SECONDS
          then w.(kept := w.kept + [packet])
      else w.(refused := w.refused + 1)
  }

  function WorkletTakes(l: Link, currentTime: real): Link
  {
    if l.node.None? || l.taken >= |l.posted| then l
    else
      var message := l.posted[l.taken];
      var next := l.(taken := l.taken + 1, worklet := Heard(l.worklet, message, currentTime));
      if message.Samples? then next.(outbox := l.outbox + [Recycle(message.packet.buffer)]) else next
  }

  function WorkletReports(l: Link, counters: Counters): Link
  {
    l.(outbox := l.outbox + [Metrics(l.worklet.generation, counters)])
  }

  // ---------------------------------------------------------------- runs

  datatype Event =
    | Preparing(browser: Browser)
    | Enabling(enabled: bool, browser: Browser)
    | Pushing(arrival: Arrival, browser: Browser, now: real, contextTime: real)
    | Resetting
    | Releasing
    | ContextTurning(state: ContextState)              // the browser, before its event is handled
    | ContextEvent(of: nat)
    | Resuming(of: nat, resumed: bool)
    | Loaded(id: nat, outcome: LoadOutcome)
    | LoadDone(id: nat)
    | NodeFailing(from: nat)
    | NodeSpeaking(from: nat)
    | NodeTaking(currentTime: real)
    | NodeReporting(counters: Counters)

  // Promises settle once and finish after that.
  predicate IsPossible(p: Player, e: Event)
  {
    match e
    case Loaded(id, _) => id in p.loads && !p.loads[id].settled
    case LoadDone(id) => id in p.loads && p.loads[id].settled
    case _ => true
  }

  function Step(p: Player, e: Event): Player
    requires IsPossible(p, e)
  {
    match e
    case Preparing(browser) => Prepare(p, browser)
    case Enabling(enabled, browser) => SetEnabled(p, enabled, browser)
    case Pushing(arrival, browser, now, contextTime) => Push(p, arrival, browser, now, contextTime)
    case Resetting => ResetConnection(p)
    case Releasing => Release(p)
    case ContextTurning(state) => p.(contextState := state)
    case ContextEvent(of) => ContextChanged(p, of)
    case Resuming(of, resumed) => ResumeSettled(p, of, resumed)
    case Loaded(id, outcome) => LoadSettled(p, id, outcome)
    case LoadDone(id) => LoadFinally(p, id)
    case NodeFailing(from) => ProcessorError(p, from)
    case NodeSpeaking(from) => NodeMessage(p, from)
    case NodeTaking(currentTime) => p.(link := WorkletTakes(p.link, currentTime))
    case NodeReporting(counters) => p.(link := WorkletReports(p.link, counters))
  }

  const INITIAL := Player(None, Closed, None, true, Starting,
                          Link(None, 0, [], [], [], 0, Worklet(0, [], 0), [], 0), NO_CURSOR,
                          Stats(Counters(0, 0, 0, 0, 0), 0, 0.0), map[], 0)

  // A run: every state is what the next event makes of the one before it.
  ghost predicate IsRun(states: seq<Player>, events: seq<Event>)
  {
    && |states| == |events| + 1 && states[0] == INITIAL
    && (forall i :: 0 <= i < |events| ==>
        IsPossible(states[i], events[i]) && states[i + 1] == Step(states[i], events[i]))
  }
}
