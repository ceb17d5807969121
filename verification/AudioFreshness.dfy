// The age of what is heard, end to end: queue times from the player's clock through the port and
// the worklet's ring buffer to the device.
module AudioFreshness {
  import opened Options
  import opened AudioTransfer
  import opened AudioTransferTheorems
  import opened RemoteAudioWorklets
  import Ring = RemoteAudioBuffers
  import RemoteAudioPlayback

  // ---------------------------------------------------------------- the order of queue times

  ghost predicate NotAfter(time: real, clock: Option<real>) { clock.Some? && time <= clock.value }

  ghost predicate WaitingInTime(packets: seq<Packet>, clock: Option<real>)
  {
    && (forall i :: 0 <= i < |packets| ==> NotAfter(packets[i].queuedAt, clock))
    && (forall i, j :: 0 <= i < j < |packets| ==> packets[i].queuedAt <= packets[j].queuedAt)
  }

  ghost predicate PostedInTime(posted: seq<Message>, clock: Option<real>)
  {
    && (forall i :: 0 <= i < |posted| && posted[i].Samples? ==> NotAfter(posted[i].packet.queuedAt, clock))
    && (forall i, j :: 0 <= i < j < |posted| && posted[i].Samples? && posted[j].Samples? ==>
          posted[i].packet.queuedAt <= posted[j].packet.queuedAt)
  }

  // What was kept is no later than what is still in the port.
  ghost predicate KeptInTime(kept: seq<Packet>, posted: seq<Message>, taken: nat, clock: Option<real>)
  {
    && WaitingInTime(kept, clock)
    && (forall i, k :: 0 <= i < |kept| && taken <= k < |posted| && posted[k].Samples? ==>
          kept[i].queuedAt <= posted[k].packet.queuedAt)
  }

  // Everything of the current context was queued no later than `clock`, in order.
  ghost predicate InTime(l: Link, clock: Option<real>)
  {
    if l.node.Some? then PostedInTime(l.posted, clock) && KeptInTime(l.worklet.kept, l.posted, l.taken, clock)
    else WaitingInTime(l.pending, clock)
  }

  ghost predicate MayTick(clock: Option<real>, time: real) { clock.Some? ==> clock.value <= time }

  predicate Quiet(l: Link) { l.node.None? && l.pending == [] }

  // ---------------------------------------------------------------- steps

  lemma ClockTicks(l: Link, clock: Option<real>, time: real)
    requires InTime(l, clock) && MayTick(clock, time)
    ensures InTime(l, Some(time))
  {
  }

  lemma ResetInTime(l: Link, clock: Option<real>)
    requires InTime(l, clock)
    ensures InTime(ResetLink(l), clock)
  {
  }

  lemma QueueInTime(l: Link, packet: Packet)
    requires InTime(l, Some(packet.queuedAt))
    ensures InTime(Queue(l, packet), Some(packet.queuedAt))
  {
  }

  lemma TakeBufferInTime(l: Link, clock: Option<real>)
    requires InTime(l, clock) && (l.pool != [] || l.pending != [])
    ensures InTime(WithoutNextBuffer(l), clock)
  {
  }

  lemma AttachInTime(l: Link, node: nat, clock: Option<real>)
    requires InTime(l, clock) && l.node.None?
    ensures InTime(AttachLink(l, node), clock)
  {
  }

  lemma TakingInTime(l: Link, currentTime: real, clock: Option<real>)
    requires InTime(l, clock)
    ensures InTime(WorkletTakes(l, currentTime), clock)
  {
  }

  lemma DeliverInTime(p: Player, a: Arrival, time: real, clock: Option<real>)
    requires InTime(p.link, clock) && MayTick(clock, time)
    ensures InTime(Deliver(p, a, time).link, Some(time))
  {
    var l := p.link;
    ClockTicks(l, clock, time);
    if l.pool != [] || l.pending != [] {
      var packet := Packet(NextBuffer(l), a.count, time, a.stream, a.sequence, a.captureTimestampUs);
      TakeBufferInTime(l, Some(time));
      ResetInTime(WithoutNextBuffer(l), Some(time));
      QueueInTime(WithoutNextBuffer(l), packet);
      QueueInTime(ResetLink(WithoutNextBuffer(l)), packet);
    }
  }

  // Preparing leaves the link as it is, or with nothing queued.
  lemma PreparedIsQuiet(p: Player, resume: bool, browser: Browser)
    requires Inv(p)
    ensures var q := EnsurePrepared(p, resume, browser);
            (q.context == p.context && q.link == p.link) || Quiet(q.link)
  {
  }

  // A push reads the clock only for a packet that is taken up.
  predicate TakesUp(p: Player, browser: Browser) { p.enabled && Accepts(EnsurePrepared(p, false, browser)) }

  lemma AcceptInTime(q: Player, a: Arrival, now: real, time: real, clock: Option<real>)
    requires InTime(q.link, clock) && MayTick(clock, time)
    ensures InTime(Deliver(NoteArrival(Met(q, a), a, now), a, time).link, Some(time))
  {
    ResetInTime(q.link, clock);
    DeliverInTime(NoteArrival(Met(q, a), a, now), a, time, clock);
  }

  lemma PushInTime(p: Player, a: Arrival, browser: Browser, now: real, time: real, clock: Option<real>)
    requires Inv(p) && InTime(p.link, clock) && TakesUp(p, browser)
    requires EnsurePrepared(p, false, browser).context == p.context ==> MayTick(clock, time)
    ensures InTime(Push(p, a, browser, now, time).link, Some(time))
  {
    PreparedIsQuiet(p, false, browser);
    var q := EnsurePrepared(p, false, browser);
    AcceptInTime(q, a, now, time, if Quiet(q.link) then None else clock);
  }

  lemma PushKeepsContext(p: Player, a: Arrival, browser: Browser, now: real, time: real)
    requires p.enabled
    ensures Push(p, a, browser, now, time).context == EnsurePrepared(p, false, browser).context
  {
  }

  // A packet that is not taken up leaves the link as it is, or with nothing queued.
  lemma IgnoredIsQuiet(p: Player, a: Arrival, browser: Browser, now: real, time: real)
    requires Inv(p) && !TakesUp(p, browser)
    ensures var q := Push(p, a, browser, now, time);
            (q.context == p.context && q.link == p.link) || Quiet(q.link)
  {
    PreparedIsQuiet(p, false, browser);
  }

  lemma PrepareIsQuiet(p: Player, browser: Browser)
    requires Inv(p)
    ensures var q := Prepare(p, browser); (q.context == p.context && q.link == p.link) || Quiet(q.link)
  {
    ReleaseIsSafe(p);
    var q := if p.context.Some? && p.contextState.Closed? then Release(p) else p;
    PreparedIsQuiet(if q.status.Failed? then q.(status := Starting) else q, true, browser);
  }

  ghost predicate Ticks(p: Player, e: Event) { e.Pushing? && TakesUp(p, e.browser) }

  // A clock that is read again in the context `next` still has shows no earlier time.
  ghost predicate ClockAdvances(p: Player, e: Event, next: Player, clock: Option<real>)
  {
    Ticks(p, e) && next.context == p.context ==> MayTick(clock, e.contextTime)
  }

  // The clock of the current context as far as a packet has read it: a new context starts anew.
  ghost function ClockAfter(p: Player, e: Event, clock: Option<real>): Option<real>
    requires IsPossible(p, e)
  {
    if Ticks(p, e) then Some(e.contextTime) else if Step(p, e).context == p.context then clock else None
  }

  lemma PushingInTime(p: Player, e: Event, clock: Option<real>)
    requires Inv(p) && e.Pushing? && InTime(p.link, clock)
    requires ClockAdvances(p, e, Step(p, e), clock)
    ensures InTime(Step(p, e).link, ClockAfter(p, e, clock))
  {
    if Ticks(p, e) {
      PushKeepsContext(p, e.arrival, e.browser, e.now, e.contextTime);
      PushInTime(p, e.arrival, e.browser, e.now, e.contextTime, clock);
    } else {
      IgnoredIsQuiet(p, e.arrival, e.browser, e.now, e.contextTime);
    }
  }

  lemma PreparingInTime(p: Player, e: Event, clock: Option<real>)
    requires Inv(p) && InTime(p.link, clock) && (e.Preparing? || e.Enabling?)
    ensures InTime(Step(p, e).link, ClockAfter(p, e, clock))
  {
    ResetInTime(p.link, clock);
    match e {
      case Preparing(browser) => PrepareIsQuiet(p, browser);
      case Enabling(enabled, browser) => PrepareIsQuiet(p.(enabled := enabled), browser);
    }
  }

  // Whatever neither prepares nor queues a packet: the link stays as it is, is reset, or has
  // nothing queued.
  lemma OtherInTime(p: Player, e: Event, clock: Option<real>)
    requires Inv(p) && IsPossible(p, e) && InTime(p.link, clock)
    requires !e.Pushing? && !e.Loaded? && !e.NodeTaking? && !e.Preparing? && !e.Enabling?
    ensures InTime(Step(p, e).link, ClockAfter(p, e, clock))
  {
    ResetInTime(p.link, clock);
  }

  lemma LoadedInTime(p: Player, id: nat, outcome: LoadOutcome, clock: Option<real>)
    requires Inv(p) && id in p.loads && !p.loads[id].settled && InTime(p.link, clock)
    ensures InTime(LoadSettled(p, id, outcome).link, clock) && LoadSettled(p, id, outcome).context == p.context
  {
    if p.context == Some(p.loads[id].context) && outcome.NodeMade? && !p.contextState.Closed? {
      AttachInTime(p.link, p.nextId, clock);
    }
  }

  lemma StepInTime(p: Player, e: Event, clock: Option<real>)
    requires Inv(p) && IsPossible(p, e) && InTime(p.link, clock)
    requires ClockAdvances(p, e, Step(p, e), clock)
    ensures InTime(Step(p, e).link, ClockAfter(p, e, clock))
  {
    match e {
      case Pushing(_, _, _, _) => PushingInTime(p, e, clock);
      case Loaded(id, outcome) => LoadedInTime(p, id, outcome, clock);
      case NodeTaking(currentTime) => TakingInTime(p.link, currentTime, clock);
      case Preparing(_) => PreparingInTime(p, e, clock);
      case Enabling(_, _) => PreparingInTime(p, e, clock);
      case _ => OtherInTime(p, e, clock);
    }
  }

  // ---------------------------------------------------------------- runs

  ghost function Clock(states: seq<Player>, events: seq<Event>, n: nat): Option<real>
    requires IsRun(states, events) && n < |states|
  {
    if n == 0 then None
    else
      assert IsPossible(states[n - 1], events[n - 1]);
      ClockAfter(states[n - 1], events[n - 1], Clock(states, events, n - 1))
  }

  // The clock of a context never runs backwards.
  ghost predicate ClocksAdvance(states: seq<Player>, events: seq<Event>)
    requires IsRun(states, events)
  {
    forall n :: 0 <= n < |events| ==> ClockAdvances(states[n], events[n], states[n + 1], Clock(states, events, n))
  }

  lemma {:induction false} RunInTime(states: seq<Player>, events: seq<Event>, n: nat)
    requires IsRun(states, events) && ClocksAdvance(states, events) && n < |states|
    ensures InTime(states[n].link, Clock(states, events, n))
  {
    if n > 0 {
      RunInTime(states, events, n - 1);
      RunIsSafe(states, events, n - 1);
      var p, e := states[n - 1], events[n - 1];
      assert IsPossible(p, e);
      assert ClockAdvances(p, e, states[n - 1 + 1], Clock(states, events, n - 1));
      StepInTime(p, e, Clock(states, events, n - 1));
    }
  }

  // What is posted to a node was queued in order of time.
  lemma PostedTimesAdvance(states: seq<Player>, events: seq<Event>, n: nat, i: nat, j: nat)
    requires IsRun(states, events) && ClocksAdvance(states, events) && n < |states| && states[n].link.node.Some?
    requires i < j < |states[n].link.posted| && states[n].link.posted[i].Samples? && states[n].link.posted[j].Samples?
    ensures states[n].link.posted[i].packet.queuedAt <= states[n].link.posted[j].packet.queuedAt
  {
    RunInTime(states, events, n);
  }

  // ---------------------------------------------------------------- what is heard

  lemma FedInTime(fed: seq<Fed>, kept: seq<Packet>, clock: Option<real>)
    requires OfKept(fed, kept) && WaitingInTime(kept, clock)
    ensures RemoteAudioPlayback.NeverDecreasing(RemoteAudioWorklets.Samples(fed))
  {
    forall i, j | 0 <= i < j < |fed| ensures fed[i].sample.queuedAt <= fed[j].sample.queuedAt {
      assert fed[i].packet <= fed[j].packet;
    }
  }

  lemma HeldInTime(fed: seq<Fed>, queue: seq<Ring.Sample>)
    requires RemoteAudioPlayback.NeverDecreasing(RemoteAudioWorklets.Samples(fed)) && HoldsLast(fed, queue)
    ensures RemoteAudioPlayback.NeverDecreasing(queue)
  {
    var all := RemoteAudioWorklets.Samples(fed);
    forall i, j | 0 <= i < j < |queue| ensures queue[i].queuedAt <= queue[j].queuedAt {
      assert queue[i] == all[|fed| - |queue| + i] && queue[j] == all[|fed| - |queue| + j];
    }
  }

  // The samples fed that a render takes were queued a quarter of a second before at most.
  ghost predicate FreshFrom(fed: seq<Fed>, first: nat, count: nat, now: real)
  {
    first + count <= |fed| && forall i :: first <= i < first + count ==> now - fed[i].sample.queuedAt <= Ring.MAX_AGE
  }

  lemma TakenAreFresh(fed: seq<Fed>, p: Ring.Playback, frames: nat, now: real, target: nat)
    requires RemoteAudioPlayback.NeverDecreasing(RemoteAudioWorklets.Samples(fed)) && HoldsLast(fed, p.queue)
    ensures FreshFrom(fed, FirstTaken(fed, p, now), Taken(p, frames, now, target), now)
  {
    RemoteAudioPlayback.KeptAreFresh(RemoteAudioWorklets.Samples(fed), p.queue, now);
    var rest := p.queue[Ring.Expired(p.queue, now)..];
    var first, count := FirstTaken(fed, p, now), Taken(p, frames, now, target);
    forall i | first <= i < first + count ensures now - fed[i].sample.queuedAt <= Ring.MAX_AGE {
      assert rest[i - first] in rest && rest[i - first] == fed[i].sample;
    }
  }

  // Behind a worklet in any reachable state the ring buffer holds no late pair, and what a render
  // puts out was queued a quarter of a second before at most.
  lemma HeardThroughWorkletIsFresh(
      states: seq<Player>, events: seq<Event>, n: nat, d: DeskLinkAudioProcessor, frames: nat, now: real)
    requires IsRun(states, events) && ClocksAdvance(states, events) && n < |states| && states[n].link.node.Some?
    requires d.Valid() && d.Heard() == states[n].link.worklet
    ensures RemoteAudioPlayback.NeverDecreasing(d.buffer.Queue())
    ensures var p := d.buffer.View();
            FreshFrom(d.fed, FirstTaken(d.fed, p, now), Taken(p, frames, now, d.buffer.targetSamples), now)
  {
    RunInTime(states, events, n);
    FedInTime(d.fed, d.kept, Clock(states, events, n));
    HeldInTime(d.fed, d.buffer.Queue());
    TakenAreFresh(d.fed, d.buffer.View(), frames, now, d.buffer.targetSamples);
  }
}
