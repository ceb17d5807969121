// What the player's status tells: the badge in the window, and whether packets are taken up.
module AudioPlayerStatus {
  import opened Options
  import opened AudioTransfer
  import opened AudioTransferTheorems

  // "Live" means enabled with a node, and "muted" means not enabled.
  predicate StatusOk(p: Player)
  {
    (p.status.Live? ==> p.enabled && p.link.node.Some?) && (p.status.Muted? ==> !p.enabled)
  }

  // Everything that holds between two steps.
  ghost predicate Sound(p: Player) { Inv(p) && StatusOk(p) }

  predicate Whole(p: Player)
  {
    p.context.Some? ==> |p.link.pool| + |p.link.pending| + |Transit(p.link)| == TRANSFER_POOL_PACKETS
  }

  lemma PreparedStatus(p: Player, resume: bool, browser: Browser)
    requires StatusOk(p)
    ensures StatusOk(EnsurePrepared(p, resume, browser))
    ensures p.enabled && !p.status.Failed? ==> !EnsurePrepared(p, resume, browser).status.Muted?
  {
  }

  lemma PushStatus(p: Player, a: Arrival, browser: Browser, now: real, contextTime: real)
    requires StatusOk(p)
    ensures StatusOk(Push(p, a, browser, now, contextTime))
  {
    PreparedStatus(p, false, browser);
    var q := EnsurePrepared(p, false, browser);
    DeliverKeepsStatus(NoteArrival(Met(q, a), a, now), a, contextTime);
  }

  lemma DeliverKeepsStatus(p: Player, a: Arrival, queuedAt: real)
    ensures var q := Deliver(p, a, queuedAt);
            q.status == p.status && q.enabled == p.enabled && q.link.node == p.link.node
  {
  }

  lemma PrepareStatus(p: Player, browser: Browser)
    requires p.status.Live? ==> p.link.node.Some?
    ensures p.enabled ==> StatusOk(Prepare(p, browser))
  {
  }

  lemma StatusStays(p: Player, e: Event)
    requires StatusOk(p) && IsPossible(p, e)
    ensures StatusOk(Step(p, e))
  {
    match e {
      case Preparing(browser) => PrepareStatus(p, browser);
      case Enabling(enabled, browser) => PrepareStatus(p.(enabled := enabled), browser);
      case Pushing(arrival, browser, now, contextTime) => PushStatus(p, arrival, browser, now, contextTime);
      case _ =>
    }
  }

  lemma SoundIsWhole(p: Player)
    requires Sound(p)
    ensures Whole(p)
  {
    if p.context.Some? {
      PooledIsAll(p.link);
    }
  }

  lemma StepIsSound(p: Player, e: Event)
    requires Sound(p) && IsPossible(p, e)
    ensures Sound(Step(p, e)) && Whole(Step(p, e))
  {
    StepIsSafe(p, e);
    StatusStays(p, e);
    SoundIsWhole(Step(p, e));
  }

  // In every reachable state "live" means enabled with a node, and "muted" means not enabled.
  lemma {:induction false} StatusIsTrue(states: seq<Player>, events: seq<Event>, n: nat)
    requires IsRun(states, events) && n < |states|
    ensures StatusOk(states[n])
  {
    if n > 0 {
      StatusIsTrue(states, events, n - 1);
      assert IsPossible(states[n - 1], events[n - 1]);
      StatusStays(states[n - 1], events[n - 1]);
    }
  }

  // An event of the current context tells exactly whether sound is playing.
  lemma ContextEventTells(p: Player, of: nat)
    requires p.context == Some(of) && !p.status.Failed?
    ensures ContextChanged(p, of).status.Live? <==> p.enabled && p.contextState.Running? && p.link.node.Some?
  {
  }

  // A player that failed, or that is muted, takes no packet and starts nothing for one.
  lemma PacketsAreIgnored(p: Player, a: Arrival, browser: Browser, now: real, contextTime: real)
    requires p.status.Failed? || !p.enabled
    ensures Push(p, a, browser, now, contextTime) == p
  {
  }

  // A failure stays until prepare(), setEnabled(true) or release(), or until a refused resume of
  // the current context calls it a pause; no packet, load or message leaves it.
  lemma FailureStays(p: Player, e: Event)
    requires p.status.Failed? && IsPossible(p, e) && !Step(p, e).status.Failed?
    ensures e.Preparing? || (e.Enabling? && e.enabled) || e.Releasing?
            || (e.Resuming? && !e.resumed && p.context == Some(e.of))
  {
    if e.Pushing? {
      assert EnsurePrepared(p, false, e.browser) == p;
    }
  }
}
