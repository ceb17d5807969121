// What holds in every state that the player and its worklet can reach.
module AudioTransferTheorems {
  import opened Options
  import opened AudioTransfer

  // ---------------------------------------------------------------- the invariants

  function Carried(messages: seq<Message>): seq<nat>
  {
    if messages == [] then []
    else if messages[0].Samples? then [messages[0].packet.buffer] + Carried(messages[1..])
    else Carried(messages[1..])
  }

  function Recycled(reports: seq<Report>): seq<nat>
  {
    if reports == [] then []
    else if reports[0].Recycle? then [reports[0].buffer] + Recycled(reports[1..])
    else Recycled(reports[1..])
  }

  function InPort(l: Link): seq<Message> { if l.taken <= |l.posted| then l.posted[l.taken..] else [] }

  // The buffers on their way to the current node or back.
  function Transit(l: Link): seq<nat>
  {
    if l.node.Some? then Carried(InPort(l)) + Recycled(l.outbox) else []
  }

  // How often a buffer is in the pool, waiting or on its way.
  function Count(l: Link, buffer: nat): nat
  {
    multiset(l.pool)[buffer] + multiset(BuffersOf(l.pending))[buffer] + multiset(Transit(l))[buffer]
  }

  // Every buffer of the pool is in exactly one place, and no other buffer is anywhere.
  ghost predicate Pooled(l: Link)
  {
    forall buffer :: Count(l, buffer) == multiset(Fresh(l.firstBuffer))[buffer]
  }

  ghost predicate SameBuffers(l: Link, m: Link)
  {
    forall buffer :: Count(l, buffer) == Count(m, buffer)
  }

  // The next packet of the stream, captured within 100 ms of the one before it.
  ghost predicate IsNext(stream: nat, sequence: nat, capture: nat, last: Packet)
  {
    stream == last.stream && sequence == last.sequence + 1 && last.capture <= capture <= last.capture + 100000
  }

  ghost predicate Continues(a: Packet, b: Packet) { IsNext(b.stream, b.sequence, b.capture, a) }

  // A reset starts a later generation; samples belong to the generation before them and continue
  // the packet before them.
  ghost predicate Follows(a: Message, b: Message)
  {
    match b
    case Reset(generation) => generation > a.generation
    case Samples(generation, packet) => generation == a.generation && (a.Samples? ==> Continues(a.packet, packet))
  }

  ghost predicate InOrder(posted: seq<Message>)
  {
    && (posted != [] ==> posted[0].Reset?)
    && (forall i, j :: 0 <= i < j < |posted| && j == i + 1 ==> Follows(posted[i], posted[j]))
  }

  ghost predicate Chain(packets: seq<Packet>)
  {
    forall i, j :: 0 <= i < j < |packets| && j == i + 1 ==> Continues(packets[i], packets[j])
  }

  ghost predicate Ordered(l: Link)
  {
    && (l.node.Some? ==>
          && l.pending == [] && l.posted != [] && l.taken <= |l.posted|
          && InOrder(l.posted) && l.posted[|l.posted| - 1].generation == l.generation)
    && Chain(l.pending)
  }

  // The worklet is at the generation of the last message it took, and what it kept is one stream
  // in order, no later than that message.
  ghost predicate KeptUpTo(kept: seq<Packet>, last: Message)
  {
    kept != [] ==>
      && last.Samples?
      && (forall i :: 0 <= i < |kept| ==>
          kept[i].stream == last.packet.stream && kept[i].sequence <= last.packet.sequence)
      && (forall i, j :: 0 <= i < j < |kept| ==> kept[i].sequence < kept[j].sequence)
  }

  ghost predicate Listening(l: Link)
  {
    l.node.Some? && l.taken <= |l.posted| ==>
      if l.taken == 0 then l.worklet.generation == 0 && l.worklet.kept == []
      else l.worklet.generation == l.posted[l.taken - 1].generation && KeptUpTo(l.worklet.kept, l.posted[l.taken - 1])
  }

  // The packet that was queued last since the last reset, and where the cursor stands then.
  function LastQueued(l: Link): Option<Packet>
  {
    if l.node.Some? then
      if l.posted != [] && l.posted[|l.posted| - 1].Samples? then Some(l.posted[|l.posted| - 1].packet) else None
    else if l.pending != [] then Some(l.pending[|l.pending| - 1]) else None
  }

  ghost predicate Tracked(l: Link, c: Cursor)
  {
    LastQueued(l).Some? && !c.resetAfterDrop ==>
      && c.streamId == Some(LastQueued(l).value.stream) && c.nextSequence == Some(LastQueued(l).value.sequence + 1)
      && c.lastCaptureTimestampUs == Some(LastQueued(l).value.capture)
  }

  // At most one load of the current context is unfinished, and none is unsettled once there is a
  // node.
  ghost predicate Loading(context: Option<nat>, loading: Option<nat>, node: Option<nat>, loads: map<nat, Load>,
        nextId: nat)
  {
    && (forall id <- loads :: id < nextId && loads[id].context < nextId)
    && (context.Some? ==> context.value < nextId)
    && (forall id <- loads :: context == Some(loads[id].context) ==> loading == Some(id))
    && (forall id <- loads :: context == Some(loads[id].context) && node.Some? ==> loads[id].settled)
    && (node.Some? || loading.Some? ==> context.Some?)
  }

  ghost predicate LinkInv(l: Link) { Ordered(l) && Listening(l) }

  ghost predicate Inv(p: Player)
  {
    && LinkInv(p.link) && Tracked(p.link, p.cursor)
    && (if p.context.Some? then Pooled(p.link) else p.link.pending == [])
    && Loading(p.context, p.loading, p.link.node, p.loads, p.nextId)
  }

  // ---------------------------------------------------------------- sequences

  lemma CarriedCons(m: Message, rest: seq<Message>)
    ensures Carried([m] + rest) == (if m.Samples? then [m.packet.buffer] else []) + Carried(rest)
  {
    assert ([m] + rest)[1..] == rest;
  }

  lemma {:induction false} CarriedAppend(a: seq<Message>, b: seq<Message>)
    ensures Carried(a + b) == Carried(a) + Carried(b)
  {
    if a == [] {
      assert a + b == b;
    } else {
      CarriedAppend(a[1..], b);
      CarriedCons(a[0], a[1..]);
      CarriedCons(a[0], a[1..] + b);
      assert a == [a[0]] + a[1..] && a + b == [a[0]] + (a[1..] + b);
    }
  }

  lemma {:induction false} RecycledAppend(a: seq<Report>, b: seq<Report>)
    ensures Recycled(a + b) == Recycled(a) + Recycled(b)
  {
    if a == [] {
      assert a + b == b;
    } else {
      RecycledAppend(a[1..], b);
      assert (a + b)[1..] == a[1..] + b;
    }
  }

  lemma {:induction false} CarriedPackets(packets: seq<Packet>, generation: nat)
    ensures Carried(AsMessages(packets, generation)) == BuffersOf(packets)
  {
    if packets != [] {
      CarriedPackets(packets[1..], generation);
      assert AsMessages(packets, generation)[1..] == AsMessages(packets[1..], generation);
      assert BuffersOf(packets) == [packets[0].buffer] + BuffersOf(packets[1..]);
    }
  }

  lemma PostCarries(l: Link, message: Message)
    requires l.taken <= |l.posted| && l.node.Some?
    ensures multiset(Transit(Post(l, [message]))) == multiset(Transit(l)) + multiset(Carried([message]))
  {
    assert (l.posted + [message])[l.taken..] == l.posted[l.taken..] + [message];
    CarriedAppend(l.posted[l.taken..], [message]);
  }

  lemma PostFollows(posted: seq<Message>, message: Message)
    requires InOrder(posted) && posted != [] && Follows(posted[|posted| - 1], message)
    ensures InOrder(posted + [message])
  {
  }

  // ---------------------------------------------------------------- steps of the link

  lemma ReturningKeepsPool(l: Link)
    ensures SameBuffers(NextGeneration(l), l)
  {
    assert BuffersOf(NextGeneration(l).pending) == [];
    assert Transit(NextGeneration(l)) == Transit(l);
  }

  lemma PostingResetKeepsPool(l: Link, generation: nat)
    requires l.node.Some? ==> l.taken <= |l.posted|
    ensures SameBuffers(Post(l, [Reset(generation)]), l)
  {
    if l.node.Some? {
      PostCarries(l, Reset(generation));
      assert Carried([Reset(generation)]) == [];
    }
    SameTransit(l, Post(l, [Reset(generation)]));
  }

  lemma ResetKeepsPool(l: Link)
    requires l.node.Some? ==> l.taken <= |l.posted|
    ensures SameBuffers(ResetLink(l), l)
  {
    var q := NextGeneration(l);
    ReturningKeepsPool(l);
    PostingResetKeepsPool(q, l.generation + 1);
    assert ResetLink(l) == Post(q, [Reset(l.generation + 1)]);
  }

  lemma ResetKeepsOrder(l: Link)
    requires LinkInv(l)
    ensures LinkInv(ResetLink(l)) && LastQueued(ResetLink(l)).None?
  {
    if l.node.Some? {
      PostFollows(l.posted, Reset(l.generation + 1));
    }
  }

  lemma DetachedIsOrdered(l: Link, pool: seq<nat>, first: nat)
    requires Chain(l.pending)
    ensures LinkInv(l.(node := None, pool := pool, firstBuffer := first))
  {
  }

  lemma TakingKeepsPool(l: Link, currentTime: real)
    requires Ordered(l)
    ensures multiset(Transit(WorkletTakes(l, currentTime))) == multiset(Transit(l))
    ensures SameBuffers(WorkletTakes(l, currentTime), l)
  {
    if l.node.Some? && l.taken < |l.posted| {
      var message := l.posted[l.taken];
      assert l.posted[l.taken..] == [message] + l.posted[l.taken + 1..];
      CarriedAppend([message], l.posted[l.taken + 1..]);
      if message.Samples? {
        RecycledAppend(l.outbox, [Recycle(message.packet.buffer)]);
        assert Carried([message]) == [message.packet.buffer]
            && Recycled([Recycle(message.packet.buffer)]) == [message.packet.buffer];
      } else {
        assert Carried([message]) == [];
      }
    }
  }

  lemma KeptMore(kept: seq<Packet>, last: Message, generation: nat, packet: Packet)
    requires KeptUpTo(kept, last) && Follows(last, Samples(generation, packet))
    ensures KeptUpTo(kept, Samples(generation, packet)) && KeptUpTo(kept + [packet], Samples(generation, packet))
  {
  }

  lemma TakingKeepsOrder(l: Link, currentTime: real)
    requires LinkInv(l)
    ensures var m := WorkletTakes(l, currentTime);
            && LinkInv(m) && LastQueued(m) == LastQueued(l)
            && m.node == l.node && m.firstBuffer == l.firstBuffer && m.pending == l.pending
  {
    if l.node.Some? && l.taken < |l.posted| {
      var message := l.posted[l.taken];
      if l.taken > 0 {
        assert Follows(l.posted[l.taken - 1], l.posted[l.taken]);
        if message.Samples? {
          KeptMore(l.worklet.kept, l.posted[l.taken - 1], message.generation, message.packet);
        }
      }
    }
  }

  lemma ReportingKeepsPool(l: Link, counters: Counters)
    ensures SameBuffers(WorkletReports(l, counters), l)
    ensures LinkInv(l) ==> LinkInv(WorkletReports(l, counters))
    ensures LastQueued(WorkletReports(l, counters)) == LastQueued(l)
  {
    var m := WorkletReports(l, counters);
    assert Transit(m) == Transit(l) by {
      RecycledAppend(l.outbox, [Metrics(l.worklet.generation, counters)]);
    }
    SameTransit(l, m);
    ReportingKeepsOrder(l, counters);
  }

  lemma ReportingKeepsOrder(l: Link, counters: Counters)
    ensures LinkInv(l) ==> LinkInv(WorkletReports(l, counters))
    ensures LastQueued(WorkletReports(l, counters)) == LastQueued(l)
  {
  }

  // With the same pool and the same packets waiting, only what is on its way matters.
  lemma SameTransit(l: Link, m: Link)
    requires m.pool == l.pool && m.pending == l.pending && multiset(Transit(m)) == multiset(Transit(l))
    ensures SameBuffers(m, l)
  {
  }

  lemma SpeakingKeepsPool(l: Link)
    requires l.node.Some? && l.outbox != []
    ensures match l.outbox[0]
            case Recycle(buffer) => SameBuffers(l.(outbox := l.outbox[1..], pool := l.pool + [buffer]), l)
            case Metrics(_, _) => SameBuffers(l.(outbox := l.outbox[1..]), l)
  {
    assert l.outbox == [l.outbox[0]] + l.outbox[1..];
    RecycledAppend([l.outbox[0]], l.outbox[1..]);
  }

  lemma AttachKeepsPool(l: Link, node: nat)
    requires Pooled(l) && l.node.None?
    ensures Pooled(AttachLink(l, node))
  {
    var q := AttachLink(l, node);
    CarriedPackets(l.pending, l.generation);
    CarriedAppend([Reset(l.generation)], AsMessages(l.pending, l.generation));
    assert BuffersOf([]) == [];
    assert Transit(q) == BuffersOf(l.pending);
  }

  lemma AttachKeepsOrder(l: Link, node: nat)
    requires LinkInv(l) && l.node.None?
    ensures LinkInv(AttachLink(l, node)) && LastQueued(AttachLink(l, node)) == LastQueued(l)
  {
    var q := AttachLink(l, node);
    forall i, j | 0 <= i < j < |q.posted| && j == i + 1 ensures Follows(q.posted[i], q.posted[j]) {
      if i > 0 {
        assert Continues(l.pending[i - 1], l.pending[j - 1]);
      }
    }
  }

  // Taking a buffer and queueing it again: the same buffers, one packet further.
  lemma QueueKeepsPool(l: Link, packet: Packet)
    requires Ordered(l)
    ensures forall buffer ::
            Count(Queue(l, packet), buffer) == Count(l, buffer) + (if buffer == packet.buffer then 1 else 0)
  {
    if l.node.Some? {
      PostingKeepsPool(l, packet);
    } else {
      WaitingKeepsPool(l, packet);
    }
  }

  lemma PostingKeepsPool(l: Link, packet: Packet)
    requires Ordered(l) && l.node.Some?
    ensures forall buffer ::
            Count(Queue(l, packet), buffer) == Count(l, buffer) + (if buffer == packet.buffer then 1 else 0)
  {
    PostCarries(l, Samples(l.generation, packet));
    assert Carried([Samples(l.generation, packet)]) == [packet.buffer];
  }

  lemma WaitingKeepsPool(l: Link, packet: Packet)
    requires l.node.None?
    ensures forall buffer ::
            Count(Queue(l, packet), buffer) == Count(l, buffer) + (if buffer == packet.buffer then 1 else 0)
  {
    assert BuffersOf(l.pending + [packet]) == BuffersOf(l.pending) + [packet.buffer];
  }

  lemma QueueKeepsOrder(l: Link, packet: Packet)
    requires LinkInv(l) && (LastQueued(l).Some? ==> Continues(LastQueued(l).value, packet))
    ensures LinkInv(Queue(l, packet)) && LastQueued(Queue(l, packet)) == Some(packet)
  {
    if l.node.Some? {
      PostFollows(l.posted, Samples(l.generation, packet));
    }
  }

  lemma NextBufferIsHeld(l: Link)
    requires l.pool != [] || l.pending != []
    ensures forall buffer ::
            Count(l, buffer) == Count(WithoutNextBuffer(l), buffer) + (if buffer == NextBuffer(l) then 1 else 0)
  {
    assert Transit(WithoutNextBuffer(l)) == Transit(l);
    if l.pool != [] {
      assert l.pool == l.pool[..|l.pool| - 1] + [NextBuffer(l)];
    } else {
      assert BuffersOf(l.pending) == [NextBuffer(l)] + BuffersOf(l.pending[1..]);
    }
  }

  lemma NextBufferKeepsOrder(l: Link)
    requires LinkInv(l) && (l.pool != [] || l.pending != [])
    ensures LinkInv(WithoutNextBuffer(l))
    ensures LastQueued(WithoutNextBuffer(l)).Some? ==> LastQueued(WithoutNextBuffer(l)) == LastQueued(l)
  {
  }

  // ---------------------------------------------------------------- steps of the player

  lemma ResetIsSafe(p: Player)
    requires Inv(p)
    ensures Inv(ResetConnection(p)) && LastQueued(ResetConnection(p).link).None?
            && ResetConnection(p).link.pending == []
  {
    ResetKeepsPool(p.link);
    ResetKeepsOrder(p.link);
  }

  // Without a node, only the pool and the waiting packets hold buffers.
  lemma DetachingIsSafe(p: Player, pool: seq<nat>, first: nat)
    requires Inv(p) && LastQueued(p.link).None? && p.link.pending == []
    ensures var l := p.link.(node := None, pool := pool, firstBuffer := first);
            LinkInv(l) && LastQueued(l).None? && forall buffer :: Count(l, buffer) == multiset(pool)[buffer]
  {
    DetachedIsOrdered(p.link, pool, first);
  }

  lemma FailIsSafe(p: Player)
    requires Inv(p)
    ensures Inv(Fail(p))
  {
    ResetIsSafe(p);
    DetachingIsSafe(ResetConnection(p), Fresh(p.nextId), p.nextId);
  }

  lemma ReleaseIsSafe(p: Player)
    requires Inv(p)
    ensures Inv(Release(p))
  {
    ResetIsSafe(p);
    DetachingIsSafe(ResetConnection(p), [], p.link.firstBuffer);
  }

  // The invariant looks at nothing but the link, the stream the cursor follows, and the loads.
  lemma SameForInv(p: Player, q: Player)
    requires Inv(p)
    requires q.link == p.link && q.context == p.context && q.loading == p.loading && q.loads == p.loads
            && q.nextId == p.nextId
    requires Tracked(p.link, q.cursor)
    ensures Inv(q)
  {
  }

  lemma WithLinkIsSafe(p: Player, q: Player)
    requires Inv(p)
    requires q.context == p.context && q.loading == p.loading && q.loads == p.loads && q.nextId == p.nextId
    requires LinkInv(q.link) && Tracked(q.link, q.cursor) && q.link.node == p.link.node
    requires if q.context.Some? then SameBuffers(q.link, p.link) && q.link.firstBuffer == p.link.firstBuffer
            else q.link.pending == []
    ensures Inv(q)
  {
  }

  lemma OpenIsSafe(p: Player, state: ContextState)
    requires Inv(p) && p.context.None? && p.link.pending == []
    ensures Inv(Open(p, state))
  {
    DetachedIsOrdered(p.link, Fresh(p.nextId + 1), p.nextId + 1);
  }

  lemma StartLoadIsSafe(p: Player)
    requires Inv(p) && p.context.Some? && p.loading.None? && p.link.node.None?
    ensures Inv(StartLoad(p))
  {
  }

  lemma StartPlaybackIsSafe(p: Player, resume: bool, browser: Browser)
    requires Inv(p) && p.context.Some?
    ensures Inv(StartPlayback(p, resume, browser))
  {
    FailIsSafe(p);
    if p.link.node.None? && p.loading.None? {
      StartLoadIsSafe(p);
      FailIsSafe(StartLoad(p));
    }
  }

  lemma EnsurePreparedIsSafe(p: Player, resume: bool, browser: Browser)
    requires Inv(p)
    ensures Inv(EnsurePrepared(p, resume, browser))
  {
    if p.context.Some? {
      StartPlaybackIsSafe(p, resume, browser);
    } else {
      FailIsSafe(p);
      match browser.creation {
        case CreateThrows =>
        case GainThrows => OpenIsSafe(p, Running); FailIsSafe(Open(p, Running));
        case Created(state) => OpenIsSafe(p, state); StartPlaybackIsSafe(Open(p, state), true, browser);
      }
    }
  }

  lemma PrepareIsSafe(p: Player, browser: Browser)
    requires Inv(p)
    ensures Inv(Prepare(p, browser))
  {
    ReleaseIsSafe(p);
    var q := if p.context.Some? && p.contextState.Closed? then Release(p) else p;
    EnsurePreparedIsSafe(if q.status.Failed? then q.(status := Starting) else q, true, browser);
  }

  // ---------------------------------------------------------------- a packet

  // The link after a packet was queued into the buffer it got.
  function Delivered(l: Link, packet: Packet, resets: bool): Link
    requires l.pool != [] || l.pending != []
  {
    Queue(if resets then ResetLink(WithoutNextBuffer(l)) else WithoutNextBuffer(l), packet)
  }

  lemma DeliveredKeepsPool(l: Link, packet: Packet, resets: bool)
    requires Ordered(l) && (l.pool != [] || l.pending != []) && packet.buffer == NextBuffer(l)
    ensures SameBuffers(Delivered(l, packet, resets), l)
  {
    var m := WithoutNextBuffer(l);
    NextBufferIsHeld(l);
    ResetKeepsPool(m);
    QueueKeepsPool(m, packet);
    QueueKeepsPool(ResetLink(m), packet);
  }

  lemma DeliveredKeepsOrder(l: Link, packet: Packet, resets: bool)
    requires LinkInv(l) && (l.pool != [] || l.pending != [])
    requires LastQueued(l).Some? && !resets ==> Continues(LastQueued(l).value, packet)
    ensures LinkInv(Delivered(l, packet, resets)) && LastQueued(Delivered(l, packet, resets)) == Some(packet)
    ensures Delivered(l, packet, resets).node == l.node && Delivered(l, packet, resets).firstBuffer == l.firstBuffer
  {
    var m := WithoutNextBuffer(l);
    NextBufferKeepsOrder(l);
    if resets {
      ResetKeepsOrder(m);
      QueueKeepsOrder(ResetLink(m), packet);
    } else {
      QueueKeepsOrder(m, packet);
    }
  }

  lemma DeliverIsSafe(p: Player, a: Arrival, queuedAt: real)
    requires Inv(p) && p.context.Some?
    requires LastQueued(p.link).Some? && !p.cursor.resetAfterDrop ==>
               IsNext(a.stream, a.sequence, a.captureTimestampUs, LastQueued(p.link).value)
    ensures Inv(Deliver(p, a, queuedAt))
  {
    var l, q := p.link, Deliver(p, a, queuedAt);
    if l.pool == [] && l.pending == [] {
      SameForInv(p, q);
    } else {
      var packet := Packet(NextBuffer(l), a.count, queuedAt, a.stream, a.sequence, a.captureTimestampUs);
      DeliveredKeepsPool(l, packet, p.cursor.resetAfterDrop);
      DeliveredKeepsOrder(l, packet, p.cursor.resetAfterDrop);
      assert q.link == Delivered(l, packet, p.cursor.resetAfterDrop);
      WithLinkIsSafe(p, q);
    }
  }

  // A packet is discontinuous exactly where it is not the next one behind the packet queued last.
  lemma ContinuousContinues(l: Link, c: Cursor, a: Arrival)
    requires Tracked(l, c) && LastQueued(l).Some? && !c.resetAfterDrop
    ensures Discontinuous(c, a) <==> !IsNext(a.stream, a.sequence, a.captureTimestampUs, LastQueued(l).value)
  {
  }

  lemma AcceptIsSafe(q: Player, a: Arrival, now: real, contextTime: real)
    requires Inv(q) && q.context.Some?
    ensures Inv(Deliver(NoteArrival(if Discontinuous(q.cursor, a) then ResetConnection(q) else q, a, now), a,
            contextTime))
  {
    var r := if Discontinuous(q.cursor, a) then ResetConnection(q) else q;
    ResetIsSafe(q);
    var t := NoteArrival(r, a, now);
    SameForInv(r, t);
    if !Discontinuous(q.cursor, a) && LastQueued(q.link).Some? && !q.cursor.resetAfterDrop {
      ContinuousContinues(q.link, q.cursor, a);
    }
    DeliverIsSafe(t, a, contextTime);
  }

  lemma PushIsSafe(p: Player, a: Arrival, browser: Browser, now: real, contextTime: real)
    requires Inv(p)
    ensures Inv(Push(p, a, browser, now, contextTime))
  {
    EnsurePreparedIsSafe(p, false, browser);
    var q := EnsurePrepared(p, false, browser);
    if p.enabled && q.context.Some? && q.contextState.Running? && !q.status.Failed? {
      AcceptIsSafe(q, a, now, contextTime);
    }
  }

  // ---------------------------------------------------------------- the browser's answers

  lemma AttachIsSafe(p: Player)
    requires Inv(p) && p.context.Some? && p.link.node.None?
    requires forall id <- p.loads :: p.context == Some(p.loads[id].context) ==> p.loads[id].settled
    ensures Inv(Attach(p))
  {
    AttachKeepsPool(p.link, p.nextId);
    AttachKeepsOrder(p.link, p.nextId);
    var q := p.(link := AttachLink(p.link, p.nextId), nextId := p.nextId + 1);
    assert Inv(q);
    SameForInv(q, UpdateContextState(q));
  }

  lemma SettlingIsSafe(p: Player, id: nat)
    requires Inv(p) && id in p.loads
    ensures Inv(p.(loads := p.loads[id := p.loads[id].(settled := true)]))
  {
  }

  lemma LoadSettledIsSafe(p: Player, id: nat, outcome: LoadOutcome)
    requires Inv(p) && id in p.loads && !p.loads[id].settled
    ensures Inv(LoadSettled(p, id, outcome))
  {
    SettlingIsSafe(p, id);
    var q := p.(loads := p.loads[id := p.loads[id].(settled := true)]);
    FailIsSafe(q);
    if p.context == Some(p.loads[id].context) && outcome.NodeMade? && !p.contextState.Closed? {
      AttachIsSafe(q);
    }
  }

  lemma LoadFinallyIsSafe(p: Player, id: nat)
    requires Inv(p) && id in p.loads
    ensures Inv(LoadFinally(p, id))
  {
  }

  lemma NodeMessageIsSafe(p: Player, from: nat)
    requires Inv(p)
    ensures Inv(NodeMessage(p, from))
  {
    if p.link.node == Some(from) && p.link.outbox != [] {
      var q := NodeMessage(p, from);
      SpeakingKeepsPool(p.link);
      assert LinkInv(q.link) && LastQueued(q.link) == LastQueued(p.link);
      WithLinkIsSafe(p, q);
    }
  }

  // Messages and buffers that only move between the two sides leave the rest alone.
  lemma MovedIsSafe(p: Player, l: Link)
    requires Inv(p) && LinkInv(l) && SameBuffers(l, p.link) && LastQueued(l) == LastQueued(p.link)
    requires l.node == p.link.node && l.firstBuffer == p.link.firstBuffer && l.pending == p.link.pending
    ensures Inv(p.(link := l))
  {
    WithLinkIsSafe(p, p.(link := l));
  }

  lemma TakingIsSafe(p: Player, currentTime: real)
    requires Inv(p)
    ensures Inv(p.(link := WorkletTakes(p.link, currentTime)))
  {
    TakingKeepsPool(p.link, currentTime);
    TakingKeepsOrder(p.link, currentTime);
    MovedIsSafe(p, WorkletTakes(p.link, currentTime));
  }

  lemma ReportingIsSafe(p: Player, counters: Counters)
    requires Inv(p)
    ensures Inv(p.(link := WorkletReports(p.link, counters)))
  {
    ReportingKeepsPool(p.link, counters);
    MovedIsSafe(p, WorkletReports(p.link, counters));
  }

  lemma EnablingIsSafe(p: Player, enabled: bool, browser: Browser)
    requires Inv(p)
    ensures Inv(SetEnabled(p, enabled, browser))
  {
    var q := p.(enabled := enabled);
    SameForInv(p, q);
    ResetIsSafe(q);
    SameForInv(ResetConnection(q), UpdateContextState(ResetConnection(q)));
    PrepareIsSafe(q, browser);
  }

  lemma ContextEventIsSafe(p: Player, of: nat)
    requires Inv(p)
    ensures Inv(ContextChanged(p, of))
  {
    ResetIsSafe(p);
    SameForInv(p, UpdateContextState(p));
    SameForInv(ResetConnection(p), UpdateContextState(ResetConnection(p)));
  }

  lemma StepIsSafe(p: Player, e: Event)
    requires Inv(p) && IsPossible(p, e)
    ensures Inv(Step(p, e))
  {
    match e {
      case Preparing(browser) => PrepareIsSafe(p, browser);
      case Enabling(enabled, browser) => EnablingIsSafe(p, enabled, browser);
      case Pushing(arrival, browser, now, contextTime) => PushIsSafe(p, arrival, browser, now, contextTime);
      case Resetting => ResetIsSafe(p);
      case Releasing => ReleaseIsSafe(p);
      case ContextTurning(state) => SameForInv(p, Step(p, e));
      case ContextEvent(of) => ContextEventIsSafe(p, of);
      case Resuming(of, resumed) => SameForInv(p, Step(p, e));
      case Loaded(id, outcome) => LoadSettledIsSafe(p, id, outcome);
      case LoadDone(id) => LoadFinallyIsSafe(p, id);
      case NodeFailing(from) => FailIsSafe(p);
      case NodeSpeaking(from) => NodeMessageIsSafe(p, from);
      case NodeTaking(currentTime) => TakingIsSafe(p, currentTime);
      case NodeReporting(counters) => ReportingIsSafe(p, counters);
    }
  }

  lemma {:induction false} RunIsSafe(states: seq<Player>, events: seq<Event>, n: nat)
    requires IsRun(states, events) && n < |states|
    ensures Inv(states[n])
  {
    if n > 0 {
      RunIsSafe(states, events, n - 1);
      assert IsPossible(states[n - 1], events[n - 1]);
      StepIsSafe(states[n - 1], events[n - 1]);
    }
  }

  // ---------------------------------------------------------------- the promises

  lemma PooledIsAll(l: Link)
    requires Pooled(l)
    ensures multiset(l.pool) + multiset(BuffersOf(l.pending)) + multiset(Transit(l)) == multiset(Fresh(l.firstBuffer))
    ensures |l.pool| + |l.pending| + |Transit(l)| == TRANSFER_POOL_PACKETS
  {
    var held := multiset(l.pool) + multiset(BuffersOf(l.pending)) + multiset(Transit(l));
    assert forall buffer :: held[buffer] == Count(l, buffer);
    assert held == multiset(Fresh(l.firstBuffer));
    assert |held| == |multiset(Fresh(l.firstBuffer))|;
  }

  // With a live context no buffer is lost, doubled or invented: pool, waiting packets and the
  // two directions of the port hold exactly the pool that was made last.
  lemma PoolIsConserved(states: seq<Player>, events: seq<Event>, n: nat)
    requires IsRun(states, events) && n < |states| && states[n].context.Some?
    ensures var l := states[n].link;
            && multiset(l.pool) + multiset(BuffersOf(l.pending)) + multiset(Transit(l)) ==
                multiset(Fresh(l.firstBuffer))
            && |l.pool| + |l.pending| + |Transit(l)| == TRANSFER_POOL_PACKETS
  {
    RunIsSafe(states, events, n);
    PooledIsAll(states[n].link);
  }

  // ---------------------------------------------------------------- drops

  // A packet is taken up at all, and the state it then meets.
  predicate Accepts(q: Player) { q.context.Some? && q.contextState.Running? && !q.status.Failed? }

  function Met(q: Player, a: Arrival): Player { if Discontinuous(q.cursor, a) then ResetConnection(q) else q }

  lemma PreparingDropsNothing(p: Player, resume: bool, browser: Browser)
    ensures EnsurePrepared(p, resume, browser).stats.droppedPackets == p.stats.droppedPackets
  {
  }

  lemma DeliverDrops(p: Player, a: Arrival, queuedAt: real)
    ensures Deliver(p, a, queuedAt).stats.droppedPackets ==
            p.stats.droppedPackets + (if p.link.pool == [] then 1 else 0)
  {
  }

  // In every reachable state a packet raises the count of drops exactly when it is taken up and
  // the pool is empty; then all 25 buffers wait for a node, or all 25 are with the worklet.
  lemma DropsExactlyWithoutBuffers(
      states: seq<Player>, events: seq<Event>, n: nat, a: Arrival, browser: Browser, now: real, contextTime: real)
    requires IsRun(states, events) && n < |states| && states[n].enabled
    ensures var q := EnsurePrepared(states[n], false, browser); var l := Met(q, a).link;
            var drops :=
                Push(states[n], a, browser, now, contextTime).stats.droppedPackets - states[n].stats.droppedPackets;
            && drops == (if Accepts(q) && l.pool == [] then 1 else 0)
            && (drops == 1 ==>
                if l.node.Some? then |Transit(l)| == TRANSFER_POOL_PACKETS else |l.pending| == TRANSFER_POOL_PACKETS)
  {
    RunIsSafe(states, events, n);
    DropsWithoutBuffers(states[n], a, browser, now, contextTime);
  }

  lemma DropsWithoutBuffers(p: Player, a: Arrival, browser: Browser, now: real, contextTime: real)
    requires Inv(p) && p.enabled
    ensures var q := EnsurePrepared(p, false, browser); var l := Met(q, a).link;
            var drops := Push(p, a, browser, now, contextTime).stats.droppedPackets - p.stats.droppedPackets;
            && drops == (if Accepts(q) && l.pool == [] then 1 else 0)
            && (drops == 1 ==>
                if l.node.Some? then |Transit(l)| == TRANSFER_POOL_PACKETS else |l.pending| == TRANSFER_POOL_PACKETS)
  {
    PreparingDropsNothing(p, false, browser);
    EnsurePreparedIsSafe(p, false, browser);
    var q := EnsurePrepared(p, false, browser);
    if Accepts(q) {
      ResetIsSafe(q);
      MetIsWhole(Met(q, a));
      DeliverDrops(NoteArrival(Met(q, a), a, now), a, contextTime);
    }
  }

  // A packet that is taken up starts a new generation exactly when it is not the next one behind
  // the packet queued last, or when packets were dropped since and there is a buffer again.
  lemma GenerationsStartExactly(
      states: seq<Player>, events: seq<Event>, n: nat, a: Arrival, browser: Browser, now: real, contextTime: real)
    requires IsRun(states, events) && n < |states| && states[n].enabled
    requires Accepts(EnsurePrepared(states[n], false, browser))
    ensures var l, drops := states[n].link, states[n].cursor.resetAfterDrop;
            var generation := Push(states[n], a, browser, now, contextTime).link.generation;
            && l.generation <= generation <= l.generation + 1
            && (LastQueued(l).Some? && !drops ==>
                (generation == l.generation <==>
                 IsNext(a.stream, a.sequence, a.captureTimestampUs, LastQueued(l).value)))
            && (drops && (l.pool != [] || l.pending != []) ==> generation == l.generation + 1)
  {
    RunIsSafe(states, events, n);
    GenerationAfterPush(states[n], a, browser, now, contextTime);
  }

  // Preparing for a packet that is then taken up leaves the link alone, or opens a new context.
  lemma PreparedForPacket(p: Player, browser: Browser)
    requires Inv(p) && p.enabled && Accepts(EnsurePrepared(p, false, browser))
    ensures var q := EnsurePrepared(p, false, browser);
            && q.cursor == p.cursor && q.link.generation == p.link.generation
            && if p.context.Some? then q.link == p.link
               else q.link.pool != [] && LastQueued(p.link).None? && LastQueued(q.link).None?
  {
  }

  // A packet that is taken up is what the next one is compared with, whether it got a buffer or not.
  lemma TakenUpIsRemembered(p: Player, a: Arrival, browser: Browser, now: real, contextTime: real)
    requires p.enabled && Accepts(EnsurePrepared(p, false, browser))
    ensures var q, l := Push(p, a, browser, now, contextTime), Met(EnsurePrepared(p, false, browser), a).link;
            && q.cursor.streamId == Some(a.stream) && q.cursor.nextSequence == Some(a.sequence + 1)
            && q.cursor.lastCaptureTimestampUs == Some(a.captureTimestampUs)
            && (q.cursor.resetAfterDrop <==> l.pool == [] && l.pending == [])
  {
    var q := EnsurePrepared(p, false, browser);
    DeliveredIsRemembered(NoteArrival(Met(q, a), a, now), a, contextTime);
  }

  lemma DeliveredIsRemembered(p: Player, a: Arrival, queuedAt: real)
    ensures var c := Deliver(p, a, queuedAt).cursor;
            && c.streamId == Some(a.stream) && c.nextSequence == Some(a.sequence + 1)
            && c.lastCaptureTimestampUs == Some(a.captureTimestampUs)
            && (c.resetAfterDrop <==> p.link.pool == [] && p.link.pending == [])
  {
  }

  // Compared with the packet taken up last, dropped or not, a packet starts a new generation
  // exactly when it is not the next one or when packets were dropped and there is a buffer again.
  lemma GenerationFollowsCursor(p: Player, a: Arrival, browser: Browser, now: real, contextTime: real)
    requires p.enabled && p.context.Some? && Accepts(EnsurePrepared(p, false, browser))
    requires p.cursor.streamId.Some? && p.cursor.nextSequence.Some? && p.cursor.lastCaptureTimestampUs.Some?
    ensures var c, last := p.cursor, p.cursor.lastCaptureTimestampUs.value;
            Push(p, a, browser, now, contextTime).link.generation == p.link.generation <==>
              && a.stream == c.streamId.value && a.sequence == c.nextSequence.value
              && last <= a.captureTimestampUs <= last + 100000
              && !(c.resetAfterDrop && (p.link.pool != [] || p.link.pending != []))
  {
    var q := EnsurePrepared(p, false, browser);
    SameWhenTakenUp(p, browser, q);
    GenerationAfterDelivery(NoteArrival(Met(q, a), a, now), a, contextTime);
  }

  lemma SameWhenTakenUp(p: Player, browser: Browser, q: Player)
    requires p.enabled && p.context.Some? && q == EnsurePrepared(p, false, browser) && Accepts(q)
    ensures q.cursor == p.cursor && q.link == p.link
  {
  }

  lemma GenerationAfterDelivery(p: Player, a: Arrival, queuedAt: real)
    ensures Deliver(p, a, queuedAt).link.generation ==
            p.link.generation
            + if p.cursor.resetAfterDrop && (p.link.pool != [] || p.link.pending != []) then 1 else 0
  {
  }

  lemma GenerationAfterPush(p: Player, a: Arrival, browser: Browser, now: real, contextTime: real)
    requires Inv(p) && p.enabled && Accepts(EnsurePrepared(p, false, browser))
    ensures var l, drops := p.link, p.cursor.resetAfterDrop;
            var generation := Push(p, a, browser, now, contextTime).link.generation;
            && l.generation <= generation <= l.generation + 1
            && (LastQueued(l).Some? && !drops ==>
                (generation == l.generation <==>
                 IsNext(a.stream, a.sequence, a.captureTimestampUs, LastQueued(l).value)))
            && (drops && (l.pool != [] || l.pending != []) ==> generation == l.generation + 1)
  {
    PreparedForPacket(p, browser);
    var q := EnsurePrepared(p, false, browser);
    GenerationAfterDelivery(NoteArrival(Met(q, a), a, now), a, contextTime);
    if LastQueued(p.link).Some? && !p.cursor.resetAfterDrop {
      ContinuousContinues(q.link, q.cursor, a);
    }
  }

  lemma MetIsWhole(r: Player)
    requires Inv(r) && r.context.Some?
    ensures |r.link.pool| + |r.link.pending| + |Transit(r.link)| == TRANSFER_POOL_PACKETS
    ensures if r.link.node.Some? then r.link.pending == [] else Transit(r.link) == []
  {
    PooledIsAll(r.link);
  }

  // Once there is a node nothing waits outside it, its first message is a reset, and the last
  // message is of the player's generation.
  lemma NodeIsInStep(states: seq<Player>, events: seq<Event>, n: nat)
    requires IsRun(states, events) && n < |states| && states[n].link.node.Some?
    ensures var l := states[n].link;
            l.pending == [] && l.posted != [] && l.posted[0].Reset?
                && l.posted[|l.posted| - 1].generation == l.generation
  {
    RunIsSafe(states, events, n);
  }

  lemma {:induction false} ConsecutiveInOrder(posted: seq<Message>, i: nat, j: nat)
    requires InOrder(posted) && i <= j < |posted| && forall k :: i <= k <= j ==> posted[k].Samples?
    ensures posted[i].Samples? && posted[j].Samples? && posted[j].generation == posted[i].generation
    ensures posted[j].packet.stream == posted[i].packet.stream
            && posted[j].packet.sequence == posted[i].packet.sequence + (j - i)
    ensures posted[i].packet.capture <= posted[j].packet.capture <= posted[i].packet.capture + 100000 * (j - i)
    decreases j
  {
    if i < j {
      ConsecutiveInOrder(posted, i, j - 1);
      assert Follows(posted[j - 1], posted[j]);
    }
  }

  // Between two resets the packets posted are consecutive packets of one stream, each captured
  // within 100 ms of the one before it, and all of the generation of the reset before them.
  lemma PostedIsConsecutive(states: seq<Player>, events: seq<Event>, n: nat, i: nat, j: nat)
    requires IsRun(states, events) && n < |states| && states[n].link.node.Some?
    requires i <= j < |states[n].link.posted| && forall k :: i <= k <= j ==> states[n].link.posted[k].Samples?
    ensures var first, later := states[n].link.posted[i], states[n].link.posted[j];
            && first.Samples? && later.Samples? && later.generation == first.generation
            && later.packet.stream == first.packet.stream && later.packet.sequence == first.packet.sequence + (j - i)
            && first.packet.capture <= later.packet.capture <= first.packet.capture + 100000 * (j - i)
  {
    RunIsSafe(states, events, n);
    ConsecutiveInOrder(states[n].link.posted, i, j);
  }

  lemma NextIsOfItsGeneration(l: Link)
    requires LinkInv(l) && l.node.Some? && l.taken < |l.posted|
    ensures l.posted[l.taken].Samples? ==> l.posted[l.taken].generation == l.worklet.generation
  {
    if l.taken > 0 {
      assert Follows(l.posted[l.taken - 1], l.posted[l.taken]);
    }
  }

  // The worklet never meets a packet of another generation than its own: if it refuses one, that
  // packet is too old.
  lemma RefusedOnlyForAge(states: seq<Player>, events: seq<Event>, n: nat, currentTime: real)
    requires IsRun(states, events) && n < |states| && states[n].link.node.Some?
    requires states[n].link.taken < |states[n].link.posted| && states[n].link.posted[states[n].link.taken].Samples?
    ensures var l := states[n].link; var message := l.posted[l.taken];
            && message.generation == l.worklet.generation
            && (Heard(l.worklet, message, currentTime).kept == l.worklet.kept <==>
                currentTime - message.packet.queuedAt > MAX_QUEUE_SECONDS)
  {
    RunIsSafe(states, events, n);
    NextIsOfItsGeneration(states[n].link);
  }

  lemma KeptAt(l: Link, i: nat, j: nat)
    requires Ordered(l) && Listening(l) && l.node.Some? && i < j < |l.worklet.kept|
    ensures l.worklet.kept[i].stream == l.worklet.kept[j].stream
            && l.worklet.kept[i].sequence < l.worklet.kept[j].sequence
  {
  }

  // What the worklet has kept since its last reset is one stream, in order and without repeats.
  lemma KeptIsOneStream(states: seq<Player>, events: seq<Event>, n: nat, i: nat, j: nat)
    requires IsRun(states, events) && n < |states| && states[n].link.node.Some?
    requires i < j < |states[n].link.worklet.kept|
    ensures var kept := states[n].link.worklet.kept;
            kept[i].stream == kept[j].stream && kept[i].sequence < kept[j].sequence
  {
    RunIsSafe(states, events, n);
    KeptAt(states[n].link, i, j);
  }
}
