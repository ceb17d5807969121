// The history of a dispatcher run: what was accepted, taken, sent and settled.
module DispatchLedger {
  import opened DispatchSpec

  datatype Outcome = Completed | Rejected | Abandoned

  datatype Handled = Handled(item: QueuedInput, calls: seq<Call>, outcome: Outcome)

  // The calls made for an item are a prefix of its calls, all of them when it completed,
  // and a chord is never left half sent.
  predicate Faithful(h: Handled)
  {
    && h.item.WellFormed()
    && h.calls <= CallsOf(h.item)
    && (h.outcome.Completed? ==> h.calls == CallsOf(h.item))
    && (h.item.Shortcut? ==> h.calls == [] || h.calls == CallsOf(h.item))
    && (h.outcome.Abandoned? ==> h.item.IsWheel())
  }

  function Items(handled: seq<Handled>): (items: seq<QueuedInput>)
    ensures |items| == |handled|
  {
    if handled == [] then [] else Items(handled[..|handled| - 1]) + [handled[|handled| - 1].item]
  }

  function CallsMade(handled: seq<Handled>): seq<Call>
  {
    if handled == [] then [] else CallsMade(handled[..|handled| - 1]) + handled[|handled| - 1].calls
  }

  function Rejections(handled: seq<Handled>): nat
  {
    if handled == [] then 0
    else Rejections(handled[..|handled| - 1]) + if handled[|handled| - 1].outcome.Rejected? then 1 else 0
  }

  lemma RecordOne(handled: seq<Handled>, h: Handled)
    ensures Items(handled + [h]) == Items(handled) + [h.item]
    ensures CallsMade(handled + [h]) == CallsMade(handled) + h.calls
    ensures Rejections(handled + [h]) == Rejections(handled) + if h.outcome.Rejected? then 1 else 0
  {
    assert (handled + [h])[..|handled|] == handled;
  }

  datatype Ledger = Ledger(
    accepted: seq<QueuedInput>,           // every event accepted so far
    dropped: multiset<QueuedInput>,       // those of them that were discarded unsent
    takenRuns: seq<seq<QueuedInput>>,     // the events behind each item the pump has taken
    waitingRuns: seq<seq<QueuedInput>>,   // the events behind each unsent item
    waitingItems: seq<QueuedInput>,       // the unsent items
    handled: seq<Handled>,                // items the pump is done with
    inFlight: seq<QueuedInput>,           // the item it is busy with, if any
    current: seq<Call>,                   // calls made for that item ...
    todo: seq<Call>,                      // ... and those it still needs
    calls: seq<Call>,                     // every sender call, in order
    rejections: nat,                      // items that failed
    promised: nat,                        // promises handed out
    settled: map<nat, bool>)              // promises settled, and whether they were resolved
  {
    function Owed(): seq<QueuedInput> { inFlight + waitingItems }

    function TakenItems(): seq<QueuedInput> { Items(handled) + inFlight }

    // Calls still to be made.
    function CallsLeft(): nat { |AllCalls(waitingItems)| + |todo| }

    // The events behind what was taken and what waits are the accepted ones, in order, but for
    // those discarded.
    ghost predicate DealtOut() { Dealt(accepted, Flat(takenRuns) + Flat(waitingRuns), dropped) }

    // The calls and the queue are those events, up to coalescing.
    ghost predicate HistoryOk()
    {
      && Collapsing(takenRuns, TakenItems())
      && Collapsing(waitingRuns, waitingItems)
      && calls == CallsMade(handled) + current
      && (if inFlight == [] then current == [] && todo == []
          else |inFlight| == 1 && current + todo == CallsOf(inFlight[0]))
      && (forall h <- handled :: Faithful(h))
      && rejections == Rejections(handled)
    }

    // Every promise is settled once or still owed to one item, and a promise of a handled
    // item is resolved exactly when the item completed.
    ghost predicate PromisesOk()
    {
      && TicketsOk(Owed(), settled, promised)
      && forall h <- handled ::
          h.item.HasTicket() ==> h.item.ticket in settled && settled[h.item.ticket] == h.outcome.Completed?
    }

    ghost predicate ItemsOk() { forall e <- Owed() :: e.WellFormed() }

    ghost predicate Sound() { DealtOut() && HistoryOk() && PromisesOk() && ItemsOk() }
  }

  // ---------------------------------------------------------------- runs

  // What can happen: an event joins the queue as an item of its own or by coalescing; the pump
  // takes the first item, calls the sender for it, and concludes it; unsent items are discarded.
  datatype Op =
    | Accept(item: QueuedInput)
    | Join(event: QueuedInput, joined: QueuedInput)
    | Take
    | CallSender
    | Conclude(outcome: Outcome)
    | DropMoves
    | Clear

  datatype Run = Start | Then(before: Run, op: Op)

  const EMPTY := Ledger([], multiset{}, [], [], [], [], [], [], [], [], 0, 0, map[])

  // The two coalescings: a later move replaces a move, wheel motion in one direction adds up.
  predicate MayJoin(last: QueuedInput, e: QueuedInput, joined: QueuedInput)
  {
    && joined.WellFormed() && last.context == e.context == joined.context
    && if e.IsMove() then last.IsMove() && joined == e
       else
         && last.IsWheel() && e.IsWheel() && joined.IsWheel()
         && SameDirection(ItemDelta(last, Horizontal), ItemDelta(e, Horizontal))
         && SameDirection(ItemDelta(last, Vertical), ItemDelta(e, Vertical))
         && ItemDelta(joined, Horizontal) == ItemDelta(last, Horizontal) + ItemDelta(e, Horizontal)
         && ItemDelta(joined, Vertical) == ItemDelta(last, Vertical) + ItemDelta(e, Vertical)
  }

  // Completed needs every call made, a chord is concluded only whole or before its first
  // call, and only wheel motion is ever abandoned.
  predicate MayConclude(l: Ledger, outcome: Outcome)
  {
    && |l.inFlight| == 1
    && (outcome.Completed? ==> l.todo == [])
    && (l.inFlight[0].Shortcut? ==> l.current == [] || l.todo == [])
    && (outcome.Abandoned? ==> l.inFlight[0].IsWheel())
  }

  predicate Allowed(l: Ledger, op: Op)
  {
    match op
    case Accept(item) => item.WellFormed() && (item.HasTicket() ==> item.ticket == l.promised)
    case Join(event, joined) => l.waitingItems != [] && MayJoin(l.waitingItems[|l.waitingItems| - 1], event, joined)
    case Take => l.inFlight == [] && l.waitingItems != []
    case CallSender => l.todo != []
    case Conclude(outcome) => MayConclude(l, outcome)
    case DropMoves => true
    case Clear => true
  }

  function Apply(l: Ledger, op: Op): Ledger
  {
    match op
    case Accept(item) =>
      l.(accepted := l.accepted + [item], waitingRuns := l.waitingRuns + [[item]],
          waitingItems := l.waitingItems + [item],
         promised := if item.HasTicket() then l.promised + 1 else l.promised)
    case Join(event, joined) =>
      l.(accepted := l.accepted + [event], waitingRuns := JoinLast(l.waitingRuns, event),
         waitingItems := AllButLast(l.waitingItems) + [joined])
    case Take => TakeFirst(l)
    case CallSender =>
      if l.todo == [] then l
      else l.(current := l.current + [l.todo[0]], todo := l.todo[1..], calls := l.calls + [l.todo[0]])
    case Conclude(outcome) =>
      if l.inFlight == [] then l
      else
        l.(handled := l.handled + [Handled(l.inFlight[0], l.current, outcome)], inFlight := [], current := [],
            todo := [],
           rejections := l.rejections + if outcome.Rejected? then 1 else 0,
           settled := Settle(l.settled, l.inFlight[0], outcome.Completed?))
    case DropMoves =>
      l.(dropped := l.dropped + multiset(Moves(Flat(l.waitingRuns))),
         waitingRuns := NonMoveRuns(l.waitingRuns, l.waitingItems), waitingItems := NonMoves(l.waitingItems))
    case Clear =>
      l.(dropped := l.dropped + multiset(Flat(l.waitingRuns)), waitingRuns := [], waitingItems := [],
         settled := RejectAll(l.settled, l.waitingItems))
  }

  function AllButLast<T>(s: seq<T>): seq<T> { if s == [] then [] else s[..|s| - 1] }

  function TakeFirst(l: Ledger): Ledger
  {
    if l.waitingItems == [] || l.waitingRuns == [] then l
    else
      l.(takenRuns := l.takenRuns + [l.waitingRuns[0]], waitingRuns := l.waitingRuns[1..],
         waitingItems := l.waitingItems[1..], inFlight := [l.waitingItems[0]], todo := CallsOf(l.waitingItems[0]))
  }

  function State(run: Run): Ledger
  {
    match run
    case Start => EMPTY
    case Then(before, op) => Apply(State(before), op)
  }

  predicate Legal(run: Run)
  {
    match run
    case Start => true
    case Then(before, op) => Legal(before) && Allowed(State(before), op)
  }

  type LegalRun = run: Run | Legal(run) witness Start

  ghost function Extended(run: LegalRun, op: Op): LegalRun
    requires Allowed(State(run), op)
  {
    Then(run, op)
  }

  // ---------------------------------------------------------------- every run is sound

  lemma {:induction false} EveryRunIsSound(run: LegalRun)
    ensures State(run).Sound()
  {
    match run {
      case Start =>
      case Then(before, op) =>
        EveryRunIsSound(before);
        StepIsSound(State(before), op);
    }
  }

  lemma StepIsSound(l: Ledger, op: Op)
    requires l.Sound() && Allowed(l, op)
    ensures Apply(l, op).Sound()
  {
    match op {
      case Accept(item) => AcceptIsSound(l, item);
      case Join(event, joined) => JoinIsSound(l, event, joined);
      case Take => TakeIsSound(l);
      case CallSender => CallIsSound(l);
      case Conclude(outcome) => ConcludeIsSound(l, outcome);
      case DropMoves => DropMovesIsSound(l);
      case Clear => ClearIsSound(l);
    }
  }

  lemma AcceptIsSound(l: Ledger, item: QueuedInput)
    requires l.Sound() && Allowed(l, Accept(item))
    ensures Apply(l, Accept(item)).Sound()
  {
    AppendItem(l.waitingRuns, l.waitingItems, item);
    OneMoreDealt(l, Apply(l, Accept(item)), item);
    AcceptHistory(l, item);
    AcceptPromises(l, item);
  }

  lemma AcceptHistory(l: Ledger, item: QueuedInput)
    requires l.HistoryOk() && Collapsing(l.waitingRuns + [[item]], l.waitingItems + [item])
    ensures Apply(l, Accept(item)).HistoryOk()
  {
    assert Apply(l, Accept(item)).TakenItems() == l.TakenItems();
  }

  lemma AcceptPromises(l: Ledger, item: QueuedInput)
    requires l.PromisesOk() && l.ItemsOk() && Allowed(l, Accept(item))
    ensures Apply(l, Accept(item)).PromisesOk() && Apply(l, Accept(item)).ItemsOk()
  {
    TicketIssued(l.Owed(), l.settled, l.promised, item);
    assert Apply(l, Accept(item)).Owed() == l.Owed() + [item];
  }

  lemma OneMoreDealt(l: Ledger, l': Ledger, e: QueuedInput)
    requires l.DealtOut() && l'.accepted == l.accepted + [e] && l'.dropped == l.dropped
    requires l'.takenRuns == l.takenRuns && Flat(l'.waitingRuns) == Flat(l.waitingRuns) + [e]
    ensures l'.DealtOut()
  {
    Associative(Flat(l.takenRuns), Flat(l.waitingRuns), [e]);
    DealtMore(l.accepted, Flat(l.takenRuns) + Flat(l.waitingRuns), l.dropped, e);
  }

  lemma JoinIsSound(l: Ledger, e: QueuedInput, joined: QueuedInput)
    requires l.Sound() && Allowed(l, Join(e, joined))
    ensures Apply(l, Join(e, joined)).Sound()
  {
    var init, last := AllButLast(l.waitingItems), l.waitingItems[|l.waitingItems| - 1];
    assert init + [last] == l.waitingItems;
    JoinRun(l.waitingRuns[|init|], last, e, joined);
    JoinItem(l.waitingRuns, init, last, e, joined);
    OneMoreDealt(l, Apply(l, Join(e, joined)), e);
    JoinHistory(l, e, joined);
    JoinPromises(l, e, joined);
  }

  lemma JoinHistory(l: Ledger, e: QueuedInput, joined: QueuedInput)
    requires l.HistoryOk() && Collapsing(JoinLast(l.waitingRuns, e), AllButLast(l.waitingItems) + [joined])
    ensures Apply(l, Join(e, joined)).HistoryOk()
  {
    assert Apply(l, Join(e, joined)).TakenItems() == l.TakenItems();
  }

  lemma JoinPromises(l: Ledger, e: QueuedInput, joined: QueuedInput)
    requires l.PromisesOk() && l.ItemsOk() && Allowed(l, Join(e, joined))
    ensures Apply(l, Join(e, joined)).PromisesOk() && Apply(l, Join(e, joined)).ItemsOk()
  {
    var init, last := AllButLast(l.waitingItems), l.waitingItems[|l.waitingItems| - 1];
    assert init + [last] == l.waitingItems;
    assert l.Owed() == (l.inFlight + init) + [last];
    LastTicketless(l.inFlight + init, last, joined, l.settled, l.promised);
    assert Apply(l, Join(e, joined)).Owed() == (l.inFlight + init) + [joined];
  }

  lemma JoinRun(run: seq<QueuedInput>, last: QueuedInput, e: QueuedInput, joined: QueuedInput)
    requires CollapsesTo(run, last) && MayJoin(last, e, joined)
    ensures CollapsesTo(run + [e], joined)
  {
    if e.IsMove() {
      JoinMove(run, last, e);
    } else {
      forall axis: Axis
        ensures SameDirection(ItemDelta(last, axis), ItemDelta(e, axis))
        ensures ItemDelta(joined, axis) == ItemDelta(last, axis) + ItemDelta(e, axis)
      {
        assert axis == Horizontal || axis == Vertical;
      }
      JoinWheel(run, last, e, joined);
    }
  }

  lemma TakeIsSound(l: Ledger)
    requires l.Sound() && Allowed(l, Take)
    ensures Apply(l, Take).Sound()
  {
    MoveRun(l.takenRuns, l.TakenItems(), l.waitingRuns, l.waitingItems);
    SameDealt(l, Apply(l, Take));
    TakeHistory(l);
    TakePromises(l);
  }

  lemma SameDealt(l: Ledger, l': Ledger)
    requires l.DealtOut() && l'.accepted == l.accepted && l'.dropped == l.dropped
    requires Flat(l'.takenRuns) + Flat(l'.waitingRuns) == Flat(l.takenRuns) + Flat(l.waitingRuns)
    ensures l'.DealtOut()
  {
  }

  lemma TakeHistory(l: Ledger)
    requires l.HistoryOk() && Allowed(l, Take)
    ensures Apply(l, Take).HistoryOk()
  {
    MoveRun(l.takenRuns, l.TakenItems(), l.waitingRuns, l.waitingItems);
    assert Apply(l, Take).TakenItems() == l.TakenItems() + [l.waitingItems[0]];
    assert [] + CallsOf(l.waitingItems[0]) == CallsOf(l.waitingItems[0]);
  }

  lemma TakePromises(l: Ledger)
    requires l.PromisesOk() && l.ItemsOk() && Allowed(l, Take)
    ensures Apply(l, Take).PromisesOk() && Apply(l, Take).ItemsOk()
  {
    assert Apply(l, Take).Owed() == l.Owed();
  }

  lemma MoveRun(left: seq<seq<QueuedInput>>, leftItems: seq<QueuedInput>, right: seq<seq<QueuedInput>>,
        rightItems: seq<QueuedInput>)
    requires Collapsing(left, leftItems) && Collapsing(right, rightItems) && right != []
    ensures Collapsing(left + [right[0]], leftItems + [rightItems[0]])
    ensures Collapsing(right[1..], rightItems[1..])
    ensures Flat(left + [right[0]]) + Flat(right[1..]) == Flat(left) + Flat(right)
  {
    FlatSnoc(left, right[0]);
    Associative(Flat(left), right[0], Flat(right[1..]));
  }

  lemma CallIsSound(l: Ledger)
    requires l.Sound() && Allowed(l, CallSender)
    ensures Apply(l, CallSender).Sound()
  {
    var l' := Apply(l, CallSender);
    assert l'.Owed() == l.Owed() && l'.TakenItems() == l.TakenItems();
    Associative(CallsMade(l.handled), l.current, [l.todo[0]]);
    Associative(l.current, [l.todo[0]], l.todo[1..]);
    assert [l.todo[0]] + l.todo[1..] == l.todo;
  }

  lemma ConcludeIsSound(l: Ledger, outcome: Outcome)
    requires l.Sound() && Allowed(l, Conclude(outcome))
    ensures Apply(l, Conclude(outcome)).Sound()
  {
    ConcludeHistory(l, outcome);
    ConcludePromises(l, outcome);
  }

  lemma ConcludePromises(l: Ledger, outcome: Outcome)
    requires l.PromisesOk() && l.ItemsOk() && |l.inFlight| == 1
    ensures Apply(l, Conclude(outcome)).PromisesOk() && Apply(l, Conclude(outcome)).ItemsOk()
  {
    var l', item := Apply(l, Conclude(outcome)), l.inFlight[0];
    assert l.inFlight == [item] && l'.Owed() == l.waitingItems;
    TicketSettled(item, l.waitingItems, l.settled, l.promised, outcome.Completed?);
  }

  lemma ConcludeHistory(l: Ledger, outcome: Outcome)
    requires l.HistoryOk() && l.ItemsOk() && MayConclude(l, outcome)
    ensures Apply(l, Conclude(outcome)).HistoryOk()
  {
    var l', h := Apply(l, Conclude(outcome)), Handled(l.inFlight[0], l.current, outcome);
    RecordOne(l.handled, h);
    assert l.inFlight == [h.item] && h.item == l.Owed()[0];
    assert l'.TakenItems() == l.TakenItems();
    assert CallsMade(l'.handled) + [] == CallsMade(l.handled) + l.current;
    assert Faithful(h) by {
      assert l.current <= l.current + l.todo;
      assert l.current + [] == l.current;
    }
  }

  lemma DropMovesIsSound(l: Ledger)
    requires l.Sound()
    ensures Apply(l, DropMoves).Sound()
  {
    DropMovesDealt(l);
    DropMovesHistory(l);
    DropMovesPromises(l);
  }

  lemma DropMovesDealt(l: Ledger)
    requires l.DealtOut() && Collapsing(l.waitingRuns, l.waitingItems)
    ensures Apply(l, DropMoves).DealtOut()
  {
    NonMoveRunsFlat(l.waitingRuns, l.waitingItems);
    MovesDropped(l, Apply(l, DropMoves));
  }

  lemma MovesDropped(l: Ledger, l': Ledger)
    requires l.DealtOut() && l'.accepted == l.accepted && l'.takenRuns == l.takenRuns
    requires l'.dropped == l.dropped + multiset(Moves(Flat(l.waitingRuns)))
    requires Flat(l'.waitingRuns) == NonMoves(Flat(l.waitingRuns))
    ensures l'.DealtOut()
  {
    var taken, waiting := Flat(l.takenRuns), Flat(l.waitingRuns);
    MovesDealt(taken, waiting);
    DealtTwice(l.accepted, taken + waiting, l.dropped, taken + NonMoves(waiting), multiset(Moves(waiting)));
  }

  lemma DropMovesHistory(l: Ledger)
    requires l.HistoryOk()
    ensures Apply(l, DropMoves).HistoryOk()
  {
    NonMoveRunsCollapse(l.waitingRuns, l.waitingItems);
    assert Apply(l, DropMoves).TakenItems() == l.TakenItems();
  }

  lemma DropMovesPromises(l: Ledger)
    requires l.PromisesOk() && l.ItemsOk()
    ensures Apply(l, DropMoves).PromisesOk() && Apply(l, DropMoves).ItemsOk()
  {
    NonMovesAmong(l.waitingItems);
    MovesTicketless(l.inFlight, l.waitingItems, l.settled, l.promised);
  }

  lemma ClearIsSound(l: Ledger)
    requires l.Sound()
    ensures Apply(l, Clear).Sound()
  {
    ClearDealt(l);
    ClearHistory(l);
    ClearPromises(l);
  }

  lemma ClearDealt(l: Ledger)
    requires l.DealtOut()
    ensures Apply(l, Clear).DealtOut()
  {
    var taken, waiting := Flat(l.takenRuns), Flat(l.waitingRuns);
    RestDealt(taken, waiting);
    DealtTwice(l.accepted, taken + waiting, l.dropped, taken, multiset(waiting));
    assert taken + Flat([]) == taken;
  }

  lemma ClearHistory(l: Ledger)
    requires l.HistoryOk()
    ensures Apply(l, Clear).HistoryOk()
  {
    assert Apply(l, Clear).TakenItems() == l.TakenItems();
  }

  lemma ClearPromises(l: Ledger)
    requires l.PromisesOk() && l.ItemsOk()
    ensures Apply(l, Clear).PromisesOk() && Apply(l, Clear).ItemsOk()
  {
    TicketsRejected(l.inFlight, l.waitingItems, l.settled, l.promised);
    assert Apply(l, Clear).Owed() == l.inFlight;
  }
}
