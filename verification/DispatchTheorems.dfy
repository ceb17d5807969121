// What every legal run of the dispatcher guarantees, whatever the interleaving.
module DispatchTheorems {
  import opened InputContexts
  import opened DispatchSpec
  import opened DispatchLedger

  // In every run the items taken, in flight and unsent are the accepted events in their order, up
  // to coalescing, without exactly those that were dropped; and the calls are those of the items.
  lemma KeptIsFifoUpToCoalescing(run: LegalRun) returns (kept: seq<QueuedInput>)
    ensures var l := State(run);
            && Dealt(l.accepted, kept, l.dropped) && Coalesced(kept, l.TakenItems() + l.waitingItems)
            && l.calls == CallsMade(l.handled) + l.current
            && (if l.inFlight == [] then l.current == [] else l.current + l.todo == CallsOf(l.inFlight[0]))
            && forall h <- l.handled :: Faithful(h)
  {
    EveryRunIsSound(run);
    var l := State(run);
    kept := Flat(l.takenRuns) + Flat(l.waitingRuns);
    FlatConcat(l.takenRuns, l.waitingRuns);
    assert Collapsing(l.takenRuns + l.waitingRuns, l.TakenItems() + l.waitingItems);
  }

  // What a step drops: the moves among the unsent events, or all of them, and nothing otherwise;
  // what it keeps of them keeps its order.
  lemma DroppedAreUnsent(run: LegalRun, op: Op)
    requires Allowed(State(run), op)
    ensures var l, after := State(run), Apply(State(run), op);
            match op
            case DropMoves =>
              && Dealt(Flat(l.waitingRuns), Flat(after.waitingRuns), multiset(Moves(Flat(l.waitingRuns))))
              && after.dropped == l.dropped + multiset(Moves(Flat(l.waitingRuns)))
              && (forall e <- Moves(Flat(l.waitingRuns)) :: e.Plain? && e.input.MouseMove?)
              && (forall e <- Flat(after.waitingRuns) :: !(e.Plain? && e.input.MouseMove?))
            case Clear => after.waitingItems == [] && after.dropped == l.dropped + multiset(Flat(l.waitingRuns))
            case _ => after.dropped == l.dropped
  {
    var l := State(run);
    match op {
      case DropMoves =>
        DiscardedMovesOnly(run);
        MovesAreDropped(Flat(l.waitingRuns), Flat(Apply(l, DropMoves).waitingRuns));
      case _ =>
    }
  }

  lemma MovesAreDropped(events: seq<QueuedInput>, kept: seq<QueuedInput>)
    requires kept == NonMoves(events)
    ensures Dealt(events, kept, multiset(Moves(events))) && forall e <- kept :: !e.IsMove()
    ensures forall e <- Moves(events) :: e.IsMove()
  {
    MovesAmong(events);
    MovesDealt([], events);
    NonMovesAmong(events);
    assert [] + events == events && [] + NonMoves(events) == NonMoves(events);
  }

  // Unless something was dropped, these are all accepted events.
  lemma SentIsFifoUpToCoalescing(run: LegalRun)
    requires State(run).dropped == multiset{}
    ensures var l := State(run);
            && Coalesced(l.accepted, l.TakenItems() + l.waitingItems)
            && l.calls == CallsMade(l.handled) + l.current
            && (if l.inFlight == [] then l.current == [] else l.current + l.todo == CallsOf(l.inFlight[0]))
            && forall h <- l.handled :: Faithful(h)
  {
    var kept := KeptIsFifoUpToCoalescing(run);
    NoneDropped(State(run).accepted, kept);
  }

  ghost predicate AllCompleted(handled: seq<Handled>)
  {
    forall h <- handled :: h.outcome.Completed?
  }

  ghost predicate Drained(l: Ledger)
  {
    l.inFlight == [] && l.waitingItems == []
  }

  lemma {:induction false} CompletedCalls(handled: seq<Handled>)
    requires AllCompleted(handled) && forall h <- handled :: Faithful(h)
    ensures CallsMade(handled) == AllCalls(Items(handled))
  {
    if handled != [] {
      var init, last := handled[..|handled| - 1], handled[|handled| - 1];
      assert handled == init + [last];
      assert last in handled && forall h <- init :: h in handled;
      CompletedCalls(init);
      AllCallsConcat(Items(init), [last.item]);
      assert AllCalls([last.item]) == CallsOf(last.item) by {
        assert [last.item][1..] == [];
      }
    }
  }

  // A drained run without failures or drops sent exactly the calls of the coalesced events.
  lemma NothingIsLost(run: LegalRun)
    requires State(run).dropped == multiset{} && Drained(State(run)) && AllCompleted(State(run).handled)
    ensures var l := State(run); var items := Items(l.handled);
            Coalesced(l.accepted, items) && l.calls == AllCalls(items)
  {
    SentIsFifoUpToCoalescing(run);
    EveryRunIsSound(run);
    var l := State(run);
    CompletedCalls(l.handled);
    assert l.TakenItems() + l.waitingItems == Items(l.handled);
    assert CallsMade(l.handled) + [] == CallsMade(l.handled);
  }

  // Wheel motion is conserved, per context and axis.
  lemma WheelMotionIsConserved(run: LegalRun, context: RemoteInputContext, axis: Axis)
    requires State(run).dropped == multiset{} && Drained(State(run)) && AllCompleted(State(run).handled)
    ensures SentDelta(State(run).calls, context, axis) == AcceptedDelta(State(run).accepted, context, axis)
  {
    NothingIsLost(run);
    var l := State(run);
    CallsConserveMotion(Items(l.handled), context, axis);
    var runs :| Collapsing(runs, Items(l.handled)) && Flat(runs) == l.accepted;
    RunsConserveMotion(runs, Items(l.handled), context, axis);
  }

  // What the native side accepts: a genuine context, bounded wheel deltas, bounded text.
  predicate Acceptable(c: Call)
  {
    && ValidInputContext(c.context)
    && (c.SendText? ==> 0 < |c.text| <= 256)
    && (c.Send? ==> -1200 <= Delta(c.input, Horizontal) <= 1200 && -1200 <= Delta(c.input, Vertical) <= 1200)
  }

  lemma CallsOfAreAcceptable(item: QueuedInput)
    requires item.WellFormed()
    ensures forall c <- CallsOf(item) :: Acceptable(c)
  {
    if item.IsWheel() {
      var x, y := OrZero(item.input.deltaX), OrZero(item.input.deltaY);
      FragmentsConserveMotion(x, y, item.context);
      assert forall c <- CallsOf(item) :: IsFragment(c, x, y, item.context);
    }
  }

  lemma {:induction false} CallsMadeAreAcceptable(handled: seq<Handled>)
    requires forall h <- handled :: Faithful(h)
    ensures forall c <- CallsMade(handled) :: Acceptable(c)
  {
    if handled != [] {
      var init, last := handled[..|handled| - 1], handled[|handled| - 1];
      assert Faithful(last);
      CallsMadeAreAcceptable(init);
      CallsOfAreAcceptable(last.item);
      assert last.calls <= CallsOf(last.item);
      assert forall c <- last.calls :: c in CallsOf(last.item);
    }
  }

  // In every run, discards and failures included, no call is ever refused for its shape.
  lemma EveryCallIsAcceptable(run: LegalRun)
    ensures forall c <- State(run).calls :: Acceptable(c)
  {
    EveryRunIsSound(run);
    var l := State(run);
    CallsMadeAreAcceptable(l.handled);
    if l.inFlight != [] {
      assert l.inFlight[0] == l.Owed()[0];
      CallsOfAreAcceptable(l.inFlight[0]);
      assert forall c <- l.current :: c in l.current + l.todo;
    }
  }

  lemma {:induction false} CallsMadeAt(handled: seq<Handled>, i: nat)
    requires i < |handled|
    ensures var p := |CallsMade(handled[..i])|;
            && p + |handled[i].calls| <= |CallsMade(handled)|
            && CallsMade(handled)[p..p + |handled[i].calls|] == handled[i].calls
    decreases |handled|
  {
    var n := |handled| - 1;
    if i < n {
      CallsMadeAt(handled[..n], i);
      assert handled[..n][..i] == handled[..i];
    }
  }

  // ---------------------------------------------------------------- what a call carries

  // The key going down or up, field by field.
  function KeyCall(c: KeyInput, pressed: bool, context: RemoteInputContext): Call
  {
    Send(Key(c.key, c.character, pressed, c.modifiers), context)
  }

  lemma ChordHasTwoCalls(item: QueuedInput)
    requires item.Shortcut? && item.chord.pressed
    ensures CallsOf(item) == [KeyCall(item.chord, true, item.context), KeyCall(item.chord, false, item.context)]
  {
  }

  // Once the key-down of a chord was sent and the chord is concluded, the very next call was its
  // key-up: same key, modifiers and context, whatever failed or was cancelled in between.
  lemma ChordIsNeverLeftDown(run: LegalRun, i: nat)
    requires i < |State(run).handled|
    requires State(run).handled[i].item.Shortcut? && State(run).handled[i].calls != []
    ensures var l := State(run); var c, context := l.handled[i].item.chord, l.handled[i].item.context;
            var p := |CallsMade(l.handled[..i])|;
            && p + 2 <= |l.calls|
            && l.calls[p] == Send(Key(c.key, c.character, true, c.modifiers), context)
            && l.calls[p + 1] == Send(Key(c.key, c.character, false, c.modifiers), context)
  {
    EveryRunIsSound(run);
    var l := State(run);
    assert Faithful(l.handled[i]);
    ChordCalls(l.handled, l.current, i);
  }

  lemma ChordCalls(handled: seq<Handled>, current: seq<Call>, i: nat)
    requires i < |handled| && Faithful(handled[i]) && handled[i].item.Shortcut? && handled[i].calls != []
    ensures var p, item := |CallsMade(handled[..i])|, handled[i].item; var calls := CallsMade(handled) + current;
            && p + 2 <= |calls|
            && calls[p] == KeyCall(item.chord, true, item.context)
            && calls[p + 1] == KeyCall(item.chord, false, item.context)
  {
    CallsMadeAt(handled, i);
    var p, h, made := |CallsMade(handled[..i])|, handled[i], CallsMade(handled);
    ChordHasTwoCalls(h.item);
    assert made[p..p + 2][0] == made[p] && made[p..p + 2][1] == made[p + 1];
  }

  // While a chord is in flight, what is still to be called is exactly its key-up, or nothing.
  lemma ChordInFlight(run: LegalRun)
    requires |State(run).inFlight| == 1 && State(run).inFlight[0].Shortcut? && State(run).current != []
    ensures var l := State(run); var c, context := l.inFlight[0].chord, l.inFlight[0].context;
            && l.current[0] == Send(Key(c.key, c.character, true, c.modifiers), context)
            && (l.todo == [] || l.todo == [Send(Key(c.key, c.character, false, c.modifiers), context)])
  {
    EveryRunIsSound(run);
    var l := State(run);
    assert l.inFlight[0] == l.Owed()[0];
    ChordHasTwoCalls(l.inFlight[0]);
    var all := l.current + l.todo;
    assert all[0] == l.current[0];
    if |l.current| == 1 {
      assert l.todo == all[1..];
    }
  }

  // Everything but wheel motion and chords is sent as it is, once or not at all, and once if it
  // completed.
  lemma SentAsItIs(run: LegalRun, i: nat)
    requires i < |State(run).handled|
    ensures var h := State(run).handled[i];
            && (h.item.Plain? && !h.item.input.Wheel? ==>
                h.calls == [Send(h.item.input, h.item.context)] || (h.calls == [] && !h.outcome.Completed?))
            && (h.item.Text? ==>
                h.calls == [SendText(h.item.text, h.item.context)] || (h.calls == [] && !h.outcome.Completed?))
  {
    EveryRunIsSound(run);
    var h := State(run).handled[i];
    assert Faithful(h);
    if !h.item.Shortcut? && !h.item.IsWheel() && h.calls != [] {
      assert |CallsOf(h.item)| == 1 && h.calls == CallsOf(h.item);
    }
  }

  predicate OwedAt(items: seq<QueuedInput>, i: nat, t: nat)
  {
    i < |items| && items[i].HasTicket() && items[i].ticket == t
  }

  // No promise is settled twice, and none is lost: each is settled, or owed to exactly one item.
  lemma EveryPromiseIsKept(run: LegalRun, t: nat)
    requires t < State(run).promised
    ensures var l := State(run);
            if t in l.settled then forall i :: !OwedAt(l.Owed(), i, t)
            else exists i :: OwedAt(l.Owed(), i, t) && forall j :: OwedAt(l.Owed(), j, t) ==> j == i
  {
    EveryRunIsSound(run);
    var l := State(run);
    OneOwner(l.Owed(), l.settled, l.promised, t);
  }

  lemma OneOwner(items: seq<QueuedInput>, settled: map<nat, bool>, next: nat, t: nat)
    requires TicketsOk(items, settled, next) && t < next
    ensures if t in settled then forall i :: !OwedAt(items, i, t)
            else exists i :: OwedAt(items, i, t) && forall j :: OwedAt(items, j, t) ==> j == i
  {
    if t in settled {
      forall i: nat
        ensures !OwedAt(items, i, t)
      {
        assert i < |items| ==> items[i] in items;
      }
    } else {
      assert Holds(items, t);
      var e :| e in items && e.HasTicket() && e.ticket == t;
      var i :| 0 <= i < |items| && items[i] == e;
      assert OwedAt(items, i, t);
    }
  }

  // A settlement is final: no later step changes it.
  lemma SettlementIsFinal(run: LegalRun, op: Op, t: nat)
    requires Allowed(State(run), op) && t in State(run).settled
    ensures var after := Apply(State(run), op).settled; t in after && after[t] == State(run).settled[t]
  {
    EveryRunIsSound(run);
    var l := State(run);
    match op {
      case Conclude(outcome) =>
        var item := l.inFlight[0];
        assert item == l.Owed()[0] && item in l.Owed();
      case Clear =>
        TicketsRejected(l.inFlight, l.waitingItems, l.settled, l.promised);
      case _ =>
    }
  }

  // ---------------------------------------------------------------- progress

  predicate IsPumpOp(op: Op) { op.Take? || op.CallSender? || op.Conclude? }

  // Pump steps never add work, and each sender call takes one off.
  lemma PumpStepsConsumeWork(run: LegalRun, op: Op)
    requires Allowed(State(run), op) && IsPumpOp(op)
    ensures Apply(State(run), op).CallsLeft() + |Apply(State(run), op).calls| <= State(run).CallsLeft()
            + |State(run).calls|
  {
    EveryRunIsSound(run);
    var l := State(run);
    if op.Take? {
      assert l.waitingItems == [l.waitingItems[0]] + l.waitingItems[1..];
      assert AllCalls(l.waitingItems) == CallsOf(l.waitingItems[0]) + AllCalls(l.waitingItems[1..]);
    }
  }

  ghost predicate PumpedFrom(run: Run, later: Run)
  {
    later == run || (later.Then? && IsPumpOp(later.op) && PumpedFrom(run, later.before))
  }

  // With no new input, the pump makes a bounded number of calls: it cannot run forever.
  lemma {:induction false} PumpDrains(run: LegalRun, later: LegalRun)
    requires PumpedFrom(run, later)
    ensures |State(later).calls| <= |State(run).calls| + State(run).CallsLeft()
    ensures |State(later).calls| + State(later).CallsLeft() <= |State(run).calls| + State(run).CallsLeft()
    decreases later
  {
    if later != run {
      PumpDrains(run, later.before);
      PumpStepsConsumeWork(later.before, later.op);
    }
  }

  // Discarding the waiting moves takes away exactly the events that are moves.
  lemma DiscardedMovesOnly(run: LegalRun)
    ensures Flat(Apply(State(run), DropMoves).waitingRuns) == NonMoves(Flat(State(run).waitingRuns))
  {
    WaitingCollapse(run);
    DroppingMoves(State(run));
  }

  lemma DroppingMoves(l: Ledger)
    requires Collapsing(l.waitingRuns, l.waitingItems)
    ensures Flat(Apply(l, DropMoves).waitingRuns) == NonMoves(Flat(l.waitingRuns))
  {
    NonMoveRunsFlat(l.waitingRuns, l.waitingItems);
  }

  lemma WaitingCollapse(run: LegalRun)
    ensures Collapsing(State(run).waitingRuns, State(run).waitingItems)
  {
    EveryRunIsSound(run);
  }
}
