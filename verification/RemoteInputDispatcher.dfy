// apps/windows-ui/src/remote-input-dispatcher.ts: the queue, the side slot for pointer moves
// and the pump. Every stretch of code between two awaits is one method, so the public
// methods and `Reply` / `PumpSettled` may follow each other in any order.
module RemoteInputDispatch {
  import opened InputContexts
  import opened DispatchSpec
  import opened DispatchLedger

  // What the pump awaits: the only call of an item, one wheel fragment of the motion
  // (x, y) still to be sent, or one half of a chord.
  datatype Stage =
    | Single
    | Fragment(x: int, y: int, generation: nat)
    | Down
    | Up(downOk: bool)

  // `Running`, `Handling` and `Replied` occur only inside a stretch; `Finished` is a pump whose promise
  // is resolved but whose `finally` has not run yet.
  datatype Pump =
    | Idle
    | Running
    | Handling(item: QueuedInput)
    | Replied(item: QueuedInput)
    | Awaiting(item: QueuedInput, stage: Stage)
    | Finished
  {
    function Items(): seq<QueuedInput>
    {
      if Handling? || Replied? || Awaiting? then [item] else []
    }
  }

  predicate StageFits(item: QueuedInput, stage: Stage)
  {
    match stage
    case Single => !item.IsWheel() && !item.Shortcut?
    case Fragment(_, _, _) => item.IsWheel()
    case Down => item.Shortcut?
    case Up(_) => item.Shortcut?
  }

  // The calls an item still needs after the one being awaited.
  function Rest(item: QueuedInput, stage: Stage): seq<Call>
  {
    match stage
    case Single => []
    case Fragment(x, y, _) => Fragments(x - Clamp(x), y - Clamp(y), item.context)
    case Down => if item.Shortcut? then [Send(KeyUp(item.chord), item.context)] else []
    case Up(_) => []
  }

  // What a reply makes of the item: its outcome, or the call still to be made.
  datatype Verdict = Next(stage: Stage) | Done(outcome: Outcome)

  function Answered(ok: bool): Outcome { if ok then Completed else Rejected }

  function Judge(item: QueuedInput, stage: Stage, ok: bool, generation: nat, shortcutGeneration: nat): Verdict
  {
    match stage
    case Single => Done(Answered(ok))
    case Fragment(x, y, started) =>
      if !ok then Done(Rejected)
      else if x == Clamp(x) && y == Clamp(y) then Done(Completed)
      else if started != generation then Done(Abandoned)
      else Next(Fragment(x - Clamp(x), y - Clamp(y), started))
    case Down => Next(Up(ok && item.Shortcut? && item.shortcutGeneration == shortcutGeneration))
    case Up(downOk) => Done(Answered(ok && downOk))
  }

  datatype TextResult = Refused | Promised(first: nat, count: nat)

  datatype ShortcutResult = InvalidShortcut | PromisedShortcut(ticket: nat)

  class RemoteInputDispatcher {
    var queue: seq<QueuedInput>
    var queueHead: nat
    var pump: Pump
    var pendingMouseMove: QueuedInput
    var hasPendingMouseMove: bool
    var generation: nat
    var shortcutGeneration: nat
    var errors: nat                 // calls of onError
    var nextTicket: nat             // promises handed out
    var settled: map<nat, bool>     // promises settled, and whether they were resolved
    const hasTextSender: bool

    ghost var run: LegalRun         // what happened, and ...
    ghost var log: Ledger           // ... where it led
    ghost var unanswered: nat       // sender calls whose promise is open
    ghost var refused: nat          // events turned away with onError

    function Unsent(): seq<QueuedInput>
      reads this
      requires queueHead <= |queue|
    {
      queue[queueHead..] + if hasPendingMouseMove then [pendingMouseMove] else []
    }

    ghost predicate QueueOk()
      reads this
    {
      && queueHead <= |queue|
      && (hasPendingMouseMove ==> queueHead == |queue| && pendingMouseMove.IsMove())
      && (pump.Idle? || pump.Finished? ==> queueHead == 0)
      && log.waitingItems == Unsent()
    }

    ghost predicate PumpOk()
      reads this
    {
      && unanswered == (if pump.Awaiting? then 1 else 0)
      && log.inFlight == pump.Items()
      && match pump
         case Handling(item) => log.current == [] && log.todo == CallsOf(item)
         case Replied(item) => log.current != []
         case Awaiting(item, stage) =>
           && log.current != [] && log.todo == Rest(item, stage) && StageFits(item, stage)
           && (stage.Fragment? ==> stage.generation <= generation)
         case _ => true
    }

    // The run so far is a legal run of the specification.
    ghost predicate Tracked()
      reads this
    {
      && log == State(run)
      && settled == log.settled && nextTicket == log.promised
      && errors == refused + log.rejections
    }

    ghost predicate Valid()
      reads this
    {
      QueueOk() && PumpOk() && Tracked()
    }

    // Between two stretches of code: nothing unsent is without a pump.
    ghost predicate Stable()
      reads this
    {
      && Valid()
      && (pump.Idle? || pump.Awaiting? || pump.Finished?)
      && (pump.Idle? ==> Unsent() == [])
    }

    constructor (hasTextSender: bool)
      ensures Stable() && pump.Idle? && Unsent() == []
      ensures log.accepted == [] && log.calls == [] && log.handled == [] && log.dropped == multiset{} && errors == 0
      ensures this.hasTextSender == hasTextSender
    {
      this.hasTextSender := hasTextSender;
      queue, queueHead, pump := [], 0, Idle;
      pendingMouseMove := Plain(MouseMove(0, 0), RemoteInputContext("", ""));
      hasPendingMouseMove, generation, shortcutGeneration := false, 0, 0;
      errors, nextTicket, settled := 0, 0, map[];
      run, log, unanswered, refused := Start, EMPTY, 0, 0;
    }

    ghost method Do(op: Op)
      requires log == State(run) && Allowed(log, op)
      modifies `run, `log
      ensures log == State(run) && log == Apply(old(log), op)
    {
      run, log := Extended(run, op), Apply(log, op);
    }

    // ------------------------------------------------------------ the pump

    twostate predicate SameEvents()
      reads this
    {
      log.accepted == old(log.accepted) && log.dropped == old(log.dropped)
    }

    // The sender was called once, for the item in flight.
    twostate predicate CalledOnce(call: Call)
      reads this
    {
      && SameEvents() && log.handled == old(log.handled)
      && log.calls == old(log.calls) + [call] && log.current == old(log.current) + [call]
    }

    // The item in flight was concluded without a further call.
    twostate predicate ConcludedAs(item: QueuedInput, outcome: Outcome)
      reads this
    {
      && SameEvents() && log.calls == old(log.calls)
      && log.handled == old(log.handled) + [Handled(item, old(log.current), outcome)]
    }

    // The item in flight was the first to be concluded, with the calls made for it so far.
    twostate predicate Concluded(item: QueuedInput, outcome: Outcome)
      reads this
    {
      && |log.handled| > |old(log.handled)|
      && log.handled[|old(log.handled)|] == Handled(item, old(log.current), outcome)
    }

    // What one stretch of the pump may change: it makes at most one call and keeps the record.
    twostate predicate Pumped()
      reads this
    {
      && SameEvents()
      && old(log.calls) <= log.calls && |log.calls| <= |old(log.calls)| + 1
      && old(log.handled) <= log.handled
      && generation == old(generation) && shortcutGeneration == old(shortcutGeneration)
      && nextTicket == old(nextTicket) && refused == old(refused)
    }

    // Items the pump finishes without any call, and how.
    predicate CanSkip(item: QueuedInput)
      reads this
    {
      match item
      case Plain(input, _) => input.Wheel? && OrZero(input.deltaX) == 0 && OrZero(input.deltaY) == 0
      case Text(_, _, _) => !hasTextSender
      case Shortcut(_, started, _, _) => started != shortcutGeneration
    }

    function Skipped(item: QueuedInput): Handled
    {
      Handled(item, [], if item.Plain? then Completed else Rejected)
    }

    // Since the first `n` items, the pump only skipped.
    ghost predicate OnlySkippedSince(n: nat)
      reads this
    {
      forall i :: n <= i < |log.handled| ==>
          log.handled[i] == Skipped(log.handled[i].item) && CanSkip(log.handled[i].item)
    }

    // this.sender(call) / this.textSender(call), up to the await.
    method Await(item: QueuedInput, stage: Stage, call: Call)
      requires Valid() && unanswered == 0
      requires log.inFlight == [item] && log.todo != [] && call == log.todo[0] && log.todo[1..] == Rest(item, stage)
      requires StageFits(item, stage) && (stage.Fragment? ==> stage.generation <= generation)
      modifies `pump, `run, `log, `unanswered
      ensures Valid() && pump == Awaiting(item, stage)
      ensures CalledOnce(call)
    {
      Do(CallSender);
      pump, unanswered := Awaiting(item, stage), unanswered + 1;
    }

    // resolve or reject, onError, and on to the next item.
    method Finish(item: QueuedInput, outcome: Outcome)
      requires Valid() && unanswered == 0 && log.inFlight == [item] && MayConclude(log, outcome)
      modifies `pump, `run, `log, `errors, `settled
      ensures Valid() && pump.Running?
      ensures ConcludedAs(item, outcome)
    {
      Do(Conclude(outcome));
      settled := Settle(settled, item, outcome.Completed?);
      errors := errors + if outcome.Rejected? then 1 else 0;
      pump := Running;
    }

    // The body of the pump's loop for one item, up to its first await.
    method Perform(item: QueuedInput)
      requires Valid() && pump == Handling(item)
      modifies `pump, `run, `log, `errors, `settled, `unanswered
      ensures Valid()
      ensures if CanSkip(item) then pump.Running? && ConcludedAs(item, Skipped(item).outcome)
              else pump.Awaiting? && CalledOnce(CallsOf(item)[0])
    {
      match item {
        case Shortcut(chord, started, context, _) =>
          if started != shortcutGeneration {
            Finish(item, Rejected);
          } else {
            Await(item, Down, Send(chord, context));
          }
        case Text(text, context, _) =>
          if !hasTextSender {
            Finish(item, Rejected);
          } else {
            Await(item, Single, SendText(text, context));
          }
        case Plain(input, context) =>
          if input.Wheel? {
            SendFragment(item, OrZero(input.deltaX), OrZero(input.deltaY), generation);
          } else {
            Await(item, Single, Send(input, context));
          }
      }
    }

    // The loop head of the wheel splitter, with the motion (x, y) left to send.
    method SendFragment(item: QueuedInput, x: int, y: int, started: nat)
      requires Valid() && unanswered == 0 && item.IsWheel()
      requires log.inFlight == [item] && log.todo == Fragments(x, y, item.context)
      requires started <= generation
      modifies `pump, `run, `log, `errors, `settled, `unanswered
      ensures Valid()
      ensures if (x != 0 || y != 0) && started == generation
              then pump == Awaiting(item, Fragment(x, y, started)) && CalledOnce(FragmentCall(x, y, item.context))
              else pump.Running? && ConcludedAs(item, if x == 0 && y == 0 then Completed else Abandoned)
    {
      if x == 0 && y == 0 {
        Finish(item, Completed);
      } else if started != generation {
        Finish(item, Abandoned);
      } else {
        CallFragment(item, x, y, started);
      }
    }

    method CallFragment(item: QueuedInput, x: int, y: int, started: nat)
      requires Valid() && unanswered == 0 && item.IsWheel() && (x != 0 || y != 0)
      requires log.inFlight == [item] && log.todo == Fragments(x, y, item.context)
      requires started <= generation
      modifies `pump, `run, `log, `unanswered
      ensures Valid() && pump == Awaiting(item, Fragment(x, y, started))
      ensures CalledOnce(FragmentCall(x, y, item.context))
    {
      FragmentsHead(x, y, item.context);
      Await(item, Fragment(x, y, started), FragmentCall(x, y, item.context));
    }

    // compactQueue: never changes what is unsent.
    method CompactQueue()
      requires Valid()
      modifies `queue, `queueHead
      ensures Valid() && Unsent() == old(Unsent())
      ensures old(queueHead == |queue|) ==> queue == [] && queueHead == 0
      ensures queueHead == 0 || queueHead == old(queueHead)
    {
      if queueHead == 0 {
        return;
      }
      if queueHead >= |queue| {
        queue, queueHead := [], 0;
        return;
      }
      if queueHead >= 32 && queueHead * 2 >= |queue| {
        queue, queueHead := queue[queueHead..], 0;
      }
    }

    twostate predicate EndedUnsent(item: QueuedInput, outcome: Outcome)
      reads this
    {
      log.calls == old(log.calls) && log.handled == old(log.handled) + [Handled(item, [], outcome)]
    }

    twostate predicate SentFirst(call: Call)
      reads this
    {
      pump.Awaiting? && log.handled == old(log.handled) && log.calls == old(log.calls) + [call]
    }

    // What the turn of an item begins with. A chord cancelled before its turn and a text without a
    // sender for it are rejected and never sent, no motion is no call, and the rest is called for.
    twostate predicate Begun(item: QueuedInput)
      reads this
    {
      match item
      case Shortcut(chord, started, context, _) =>
        if started != shortcutGeneration then EndedUnsent(item, Rejected) else SentFirst(Send(chord, context))
      case Text(text, context, _) =>
        if !hasTextSender then EndedUnsent(item, Rejected) else SentFirst(SendText(text, context))
      case Plain(input, context) =>
        if !input.Wheel? then SentFirst(Send(input, context))
        else if OrZero(input.deltaX) == 0 && OrZero(input.deltaY) == 0 then EndedUnsent(item, Completed)
        else pump.Awaiting? && log.handled == old(log.handled) && |log.calls| == |old(log.calls)| + 1
    }

    // One turn of the pump's inner loop.
    method PerformHead()
      requires Valid() && pump.Running? && queueHead < |queue|
      modifies `queueHead, `pump, `run, `log, `errors, `settled, `unanswered
      ensures Valid() && Pumped() && OnlySkippedSince(|old(log.handled)|)
      ensures pump.Awaiting? || (pump.Running? && log.calls == old(log.calls))
      ensures queueHead == old(queueHead) + 1
      ensures Begun(old(queue[queueHead]))
    {
      var item := queue[queueHead];
      TakeItem(item);
      Perform(item);
    }

    // The pump's inner loop: up to the first await, or until the queue is empty.
    method DrainQueue()
      requires Valid() && pump.Running?
      modifies `queueHead, `pump, `run, `log, `errors, `settled, `unanswered
      ensures Valid() && Pumped() && OnlySkippedSince(|old(log.handled)|)
      ensures pump.Awaiting? || (pump.Running? && queueHead == |queue| && log.calls == old(log.calls))
    {
      while queueHead < |queue|
        invariant Valid() && pump.Running? && Pumped()
        invariant log.calls == old(log.calls)
        invariant OnlySkippedSince(|old(log.handled)|)
        decreases |queue| - queueHead
      {
        PerformHead();
        if pump.Awaiting? {
          return;
        }
      }
    }

    // The pump once its queue is empty: the side slot, or the end.
    method FinishLoop()
      requires Valid() && pump.Running? && queueHead == |queue|
      modifies this
      ensures Stable() && Pumped() && log.handled == old(log.handled)
      ensures pump.Awaiting? || (pump.Finished? && log.calls == old(log.calls) && Unsent() == [])
    {
      CompactQueue();
      if !hasPendingMouseMove {
        pump := Finished;
        return;
      }
      PerformMove();
    }

    // The turn for the side slot; sending a move always waits for the sender.
    method PerformMove()
      requires Valid() && pump.Running? && hasPendingMouseMove
      modifies `hasPendingMouseMove, `pump, `run, `log, `errors, `settled, `unanswered
      ensures Valid() && pump.Awaiting? && Pumped() && log.handled == old(log.handled)
    {
      var move := pendingMouseMove;
      TakeMove(move);
      Perform(move);
    }

    // The pump from its loop head to the next await or its return.
    method RunPump()
      requires Valid() && pump.Running?
      modifies this
      ensures Stable() && Pumped() && OnlySkippedSince(|old(log.handled)|)
      ensures pump.Awaiting? || (pump.Finished? && log.calls == old(log.calls) && Unsent() == [])
    {
      DrainQueue();
      if !pump.Awaiting? {
        FinishLoop();
      }
    }

    method TakeItem(item: QueuedInput)
      requires Valid() && pump.Running? && queueHead < |queue| && item == queue[queueHead]
      modifies `queueHead, `pump, `run, `log
      ensures Valid() && pump == Handling(item) && queueHead == old(queueHead) + 1
      ensures SameEvents() && log.calls == old(log.calls) && log.handled == old(log.handled)
    {
      TakeIsAllowed();
      UnsentAfterHead(queue, queueHead, if hasPendingMouseMove then [pendingMouseMove] else []);
      Do(Take);
      queueHead := queueHead + 1;
      pump := Handling(item);
    }

    method TakeMove(move: QueuedInput)
      requires Valid() && pump.Running? && hasPendingMouseMove && move == pendingMouseMove
      modifies `hasPendingMouseMove, `pump, `run, `log
      ensures Valid() && pump == Handling(move) && !hasPendingMouseMove
      ensures SameEvents() && log.calls == old(log.calls) && log.handled == old(log.handled)
    {
      TakeIsAllowed();
      assert Unsent() == [move] && Unsent()[1..] == [];
      Do(Take);
      hasPendingMouseMove := false;
      pump := Handling(move);
    }

    lemma TakeIsAllowed()
      requires log == State(run)
      ensures |log.waitingRuns| == |log.waitingItems|
      ensures log.inFlight == [] ==> log.current == []
    {
      EveryRunIsSound(run);
    }

    method StartPump()
      requires Valid() && (pump.Idle? || pump.Awaiting? || pump.Finished?)
      modifies this
      ensures Stable() && Pumped()
      ensures !old(pump).Idle? ==> pump == old(pump) && log == old(log) && Unsent() == old(Unsent())
    {
      if !pump.Idle? {
        return;
      }
      pump := Running;
      RunPump();
    }

    // The `finally` of a pump that returned.
    method PumpSettled()
      requires Stable() && pump.Finished?
      modifies this
      ensures Stable() && Pumped()
      ensures old(Unsent()) == [] ==> pump.Idle? && log == old(log)
    {
      pump := Idle;
      if |queue| > 0 || hasPendingMouseMove {
        StartPump();
      }
    }

    // One turn of drain(): it goes on waiting while a pump is there, and resolves only when
    // everything accepted was taken and concluded.
    method Drain() returns (resolves: bool)
      requires Stable()
      ensures resolves <==> pump.Idle?
      ensures resolves ==> Unsent() == [] && log.inFlight == []
    {
      resolves := pump.Idle?;
    }

    // The code behind the await, up to the next await or the end of the item.
    method Answer(ok: bool)
      requires Valid() && pump.Awaiting?
      modifies `pump, `run, `log, `errors, `settled, `unanswered
      ensures Valid()
      ensures match Judge(old(pump.item), old(pump.stage), ok, generation, shortcutGeneration)
              case Next(stage) =>
                pump == Awaiting(old(pump.item), stage) && old(log.todo) != [] && CalledOnce(old(log.todo)[0])
              case Done(outcome) => pump.Running? && ConcludedAs(old(pump.item), outcome)
      ensures old(pump.stage).Down? && old(pump.item).Shortcut? ==>
                var c := old(pump.item).chord;
                CalledOnce(Send(Key(c.key, c.character, false, c.modifiers), old(pump.item).context))
    {
      var item, stage := pump.item, pump.stage;
      TakeReply();
      match stage {
        case Single =>
          Finish(item, Answered(ok));
        case Fragment(x, y, started) =>
          AnswerFragment(item, x - Clamp(x), y - Clamp(y), started, ok);
        case _ =>
          AnswerChord(item, stage, ok);
      }
    }

    method TakeReply()
      requires Valid() && pump.Awaiting?
      modifies `pump, `unanswered
      ensures Valid() && pump == Replied(old(pump.item)) && unanswered == 0
      ensures log.todo == Rest(old(pump.item), old(pump.stage)) && StageFits(old(pump.item), old(pump.stage))
      ensures old(pump.stage).Fragment? ==> old(pump.stage).generation <= generation
    {
      pump, unanswered := Replied(pump.item), 0;
    }

    method AnswerFragment(item: QueuedInput, x: int, y: int, started: nat, ok: bool)
      requires Valid() && pump == Replied(item) && item.IsWheel() && unanswered == 0
      requires log.todo == Fragments(x, y, item.context) && started <= generation
      modifies `pump, `run, `log, `errors, `settled, `unanswered
      ensures Valid()
      ensures if ok && (x != 0 || y != 0) && started == generation
              then pump == Awaiting(item, Fragment(x, y, started)) && old(log.todo) != []
                  && CalledOnce(old(log.todo)[0])
              else
                pump.Running?
                && ConcludedAs(item, if !ok then Rejected else if x == 0 && y == 0 then Completed else Abandoned)
    {
      if !ok {
        Finish(item, Rejected);
      } else {
        FragmentsCases(x, y, item.context);
        SendFragment(item, x, y, started);
      }
    }

    // Key-up follows key-down whatever became of it.
    method AnswerChord(item: QueuedInput, stage: Stage, ok: bool)
      requires Valid() && pump == Replied(item) && item.Shortcut? && unanswered == 0
      requires (stage.Down? || stage.Up?) && log.todo == Rest(item, stage)
      modifies `pump, `run, `log, `errors, `settled, `unanswered
      ensures Valid()
      ensures if stage.Down?
              then pump == Awaiting(item, Up(ok && item.shortcutGeneration == shortcutGeneration))
                   && CalledOnce(Send(KeyUp(item.chord), item.context))
              else pump.Running? && ConcludedAs(item, Answered(ok && stage.downOk))
    {
      if stage.Down? {
        var cancelled := item.shortcutGeneration != shortcutGeneration;
        Await(item, Up(ok && !cancelled), Send(KeyUp(item.chord), item.context));
      } else {
        Finish(item, Answered(ok && stage.downOk));
      }
    }

    // The awaited sender promise settles.
    method Reply(ok: bool)
      requires Stable() && pump.Awaiting?
      modifies this
      ensures Stable() && Pumped()
      ensures match Judge(old(pump.item), old(pump.stage), ok, generation, shortcutGeneration)
              case Next(stage) =>
                && pump == Awaiting(old(pump.item), stage) && log.handled == old(log.handled)
                && old(log.todo) != [] && log.calls == old(log.calls) + [old(log.todo)[0]]
              case Done(outcome) =>
                && Concluded(old(pump.item), outcome) && OnlySkippedSince(|old(log.handled)| + 1)
      ensures old(pump.stage).Single? ==> Concluded(old(pump.item), if ok then Completed else Rejected)
      ensures old(pump.stage).Down? && old(pump.item).Shortcut? ==>
                var c := old(pump.item).chord;
                && log.calls ==
                    old(log.calls) + [Send(Key(c.key, c.character, false, c.modifiers), old(pump.item).context)]
                && pump == Awaiting(old(pump.item),
                                    Up(ok && old(pump.item).shortcutGeneration == shortcutGeneration))
      ensures old(pump.stage).Up? ==>
                Concluded(old(pump.item), if ok && old(pump.stage).downOk then Completed else Rejected)
      ensures old(pump.stage).Fragment? && !ok ==> Concluded(old(pump.item), Rejected)
      ensures old(pump.stage).Fragment? && ok ==>
                var s := old(pump.stage);
                if Abs(s.x) <= MAX_WHEEL_DELTA && Abs(s.y) <= MAX_WHEEL_DELTA then Concluded(old(pump.item), Completed)
                else if s.generation != generation then Concluded(old(pump.item), Abandoned)
                else pump.Awaiting? && pump.item == old(pump.item) && |log.calls| == |old(log.calls)| + 1
    {
      Answer(ok);
      if pump.Running? {
        RunPump();
      }
    }

    // ------------------------------------------------------------ the public methods

    // The end of the queue; moves in the side slot come before everything else.
    method Push(item: QueuedInput)
      requires Valid() && !hasPendingMouseMove && item.WellFormed()
      requires item.HasTicket() ==> item.ticket == nextTicket
      modifies `queue, `nextTicket, `run, `log
      ensures Valid() && Unsent() == old(Unsent()) + [item]
      ensures AcceptedOnly(item)
      ensures nextTicket == old(nextTicket) + if item.HasTicket() then 1 else 0
    {
      PushItem(item);
    }

    method PushItem(item: QueuedInput)
      requires QueueTracked() && item.WellFormed() && (item.HasTicket() ==> item.ticket == nextTicket)
      modifies `queue, `nextTicket, `run, `log
      ensures QueueTracked() && OnlyQueueGrew() && log.accepted == old(log.accepted) + [item]
      ensures queue == old(queue) + [item]
      ensures nextTicket == old(nextTicket) + if item.HasTicket() then 1 else 0
    {
      Do(Accept(item));
      queue := queue + [item];
      nextTicket := nextTicket + if item.HasTicket() then 1 else 0;
    }

    // One more event is accepted and nothing is sent.
    twostate predicate AcceptedOnly(event: QueuedInput)
      reads this
    {
      && log.accepted == old(log.accepted) + [event] && log.dropped == old(log.dropped)
      && log.calls == old(log.calls) && log.handled == old(log.handled)
    }

    // The last queued item takes up one more event.
    method ReplaceLast(event: QueuedInput, joined: QueuedInput)
      requires Valid() && !hasPendingMouseMove && queueHead < |queue| && joined.WellFormed()
      requires joined.Plain? && MayJoin(queue[|queue| - 1], event, joined)
      modifies `queue, `run, `log
      ensures Valid() && Unsent() == old(AllButLast(Unsent())) + [joined]
      ensures AcceptedOnly(event)
    {
      SuffixUpdate(queue, queueHead, joined);
      assert Unsent() == queue[queueHead..];
      Do(Join(event, joined));
      queue := queue[|queue| - 1 := joined];
      assert Unsent() == queue[queueHead..];
    }

    method FlushPendingMouseMove()
      requires Valid()
      modifies `queue, `hasPendingMouseMove
      ensures Valid() && !hasPendingMouseMove && Unsent() == old(Unsent())
    {
      if !hasPendingMouseMove {
        return;
      }
      queue, hasPendingMouseMove := queue + [pendingMouseMove], false;
    }

    method Refuse()
      requires Valid()
      modifies `errors, `refused
      ensures Valid() && errors == old(errors) + 1 && refused == old(refused) + 1
    {
      errors, refused := errors + 1, refused + 1;
    }

    // Whether `enqueue` takes the event at all.
    ghost predicate Acceptable(input: ControllerInput, context: RemoteInputContext)
    {
      && ValidInputContext(context)
      && (input.Wheel? ==> IsExactDelta(input.deltaX) && IsExactDelta(input.deltaY))
    }

    // Absent, or an integer that a double represents with no neighbour.
    ghost predicate IsExactDelta(d: Number)
    {
      d.Missing? || (d.Whole? && -9007199254740991 <= d.n <= 9007199254740991)
    }

    method Enqueue(input: ControllerInput, context: RemoteInputContext)
      requires Stable()
      modifies this
      ensures Stable()
      ensures !Acceptable(input, context) ==>
                && log == old(log) && pump == old(pump) && Unsent() == old(Unsent()) && errors == old(errors) + 1
      ensures Acceptable(input, context) ==>
                && log.accepted == old(log.accepted) + [Plain(input, context)] && log.dropped == old(log.dropped)
                && (!old(pump).Idle? ==>
                    && pump == old(pump) && log.calls == old(log.calls) && log.handled == old(log.handled)
                    && QueuedBehind(old(Unsent()), Plain(input, context), Unsent()))
    {
      if !ValidInputContext(context) {
        Refuse();
        return;
      }
      if input.Wheel? && (!IsSafeDelta(input.deltaX) || !IsSafeDelta(input.deltaY)) {
        Refuse();
        return;
      }
      TakeUp(Plain(input, context));
    }

    method TakeUp(queued: QueuedInput)
      requires Stable() && queued.Plain? && queued.WellFormed()
      modifies this
      ensures Stable()
      ensures log.accepted == old(log.accepted) + [queued] && log.dropped == old(log.dropped)
      ensures !old(pump).Idle? ==>
                && pump == old(pump) && log.calls == old(log.calls) && log.handled == old(log.handled)
                && QueuedBehind(old(Unsent()), queued, Unsent())
    {
      QueueEvent(queued);
      StartPump();
    }

    method QueueEvent(queued: QueuedInput)
      requires Valid() && queued.Plain? && queued.WellFormed()
      modifies `queue, `hasPendingMouseMove, `nextTicket, `run, `log
      ensures Valid() && AcceptedOnly(queued) && QueuedBehind(old(Unsent()), queued, Unsent())
    {
      FlushPendingMouseMove();
      Coalesce(queued);
    }

    method Coalesce(queued: QueuedInput)
      requires Valid() && !hasPendingMouseMove && queued.Plain? && queued.WellFormed()
      modifies `queue, `nextTicket, `run, `log
      ensures Valid() && !hasPendingMouseMove && AcceptedOnly(queued)
      ensures QueuedBehind(old(Unsent()), queued, Unsent())
    {
      JoinsThatFit(Unsent(), queue, queueHead, queued);
      if queueHead < |queue| && Mergeable(queue[|queue| - 1], queued) {
        JoinLast(queued, Merged(queue[|queue| - 1], queued));
      } else if queueHead < |queue| && Supersedes(queue[|queue| - 1], queued) {
        JoinLast(queued, queued);
      } else {
        PushLast(queued);
      }
    }

    // The last item takes up an event that `joined` accounts for.
    method JoinLast(event: QueuedInput, joined: QueuedInput)
      requires Valid() && !hasPendingMouseMove && queueHead < |queue|
      requires FitsLast(Unsent(), queue[|queue| - 1], event, joined)
      modifies `queue, `run, `log
      ensures Valid() && !hasPendingMouseMove && AcceptedOnly(event)
      ensures QueuedBehind(old(Unsent()), event, Unsent())
    {
      ReplaceLast(event, joined);
    }

    method PushLast(queued: QueuedInput)
      requires Valid() && !hasPendingMouseMove && queued.Plain? && queued.WellFormed()
      requires queueHead < |queue| ==>
                 !Mergeable(queue[|queue| - 1], queued) && !Supersedes(queue[|queue| - 1], queued)
      modifies `queue, `nextTicket, `run, `log
      ensures Valid() && !hasPendingMouseMove && AcceptedOnly(queued) && nextTicket == old(nextTicket)
      ensures QueuedBehind(old(Unsent()), queued, Unsent())
    {
      LastOfUnsent(Unsent(), queue, queueHead);
      QueuedLast(Unsent(), queued);
      Push(queued);
    }

    method EnqueueMouseMove(x: int, y: int, context: RemoteInputContext)
      requires Stable()
      modifies this
      ensures Stable()
      ensures !ValidInputContext(context) ==>
                && log == old(log) && pump == old(pump) && Unsent() == old(Unsent()) && errors == old(errors) + 1
      ensures ValidInputContext(context) ==>
                && log.accepted == old(log.accepted) + [Plain(MouseMove(x, y), context)]
                    && log.dropped == old(log.dropped)
                && (!old(pump).Idle? ==>
                    && pump == old(pump) && log.calls == old(log.calls) && log.handled == old(log.handled)
                    && QueuedBehind(old(Unsent()), Plain(MouseMove(x, y), context), Unsent()))
    {
      if !ValidInputContext(context) {
        Refuse();
        return;
      }
      QueueMove(Plain(MouseMove(x, y), context));
      StartPump();
    }

    method QueueMove(move: QueuedInput)
      requires Valid() && move.IsMove() && move.WellFormed()
      modifies `queue, `nextTicket, `pendingMouseMove, `hasPendingMouseMove, `run, `log
      ensures Valid() && AcceptedOnly(move)
      ensures nextTicket == old(nextTicket)
      ensures QueuedBehind(old(Unsent()), move, Unsent())
    {
      if queueHead < |queue| {
        QueueMoveLast(move);
      } else if hasPendingMouseMove && pendingMouseMove.context != move.context {
        assert Unsent() == [pendingMouseMove];
        QueuedLast(Unsent(), move);
        FlushPendingMouseMove();
        Push(move);
      } else {
        QueuedInSlot(Unsent(), move);
        SetPending(move);
      }
    }

    method QueueMoveLast(move: QueuedInput)
      requires Valid() && move.IsMove() && move.WellFormed() && queueHead < |queue|
      modifies `queue, `nextTicket, `run, `log
      ensures Valid() && AcceptedOnly(move) && nextTicket == old(nextTicket) && !hasPendingMouseMove
      ensures QueuedBehind(old(Unsent()), move, Unsent())
    {
      JoinsThatFit(Unsent(), queue, queueHead, move);
      if Supersedes(queue[|queue| - 1], move) {
        JoinLast(move, move);
      } else {
        PushLast(move);
      }
    }

    // The side slot: the queue is empty, and the slot is free or holds a move of the same context.
    method SetPending(move: QueuedInput)
      requires Valid() && move.IsMove() && move.WellFormed() && queueHead == |queue|
      requires hasPendingMouseMove ==> pendingMouseMove.context == move.context
      modifies `pendingMouseMove, `hasPendingMouseMove, `run, `log
      ensures Valid() && Unsent() == [move] && AcceptedOnly(move)
    {
      if hasPendingMouseMove {
        assert Unsent() == [pendingMouseMove] && AllButLast(Unsent()) == [];
        Do(Join(move, move));
      } else {
        assert Unsent() == [];
        Do(Accept(move));
      }
      pendingMouseMove, hasPendingMouseMove := move, true;
      assert Unsent() == [move];
    }

    method EnqueueText(text: string, context: RemoteInputContext) returns (result: TextResult)
      requires Stable()
      modifies this
      ensures Stable()
      ensures !ValidInputContext(context) ==>
              result == Refused && log == old(log) && pump == old(pump) && Unsent() == old(Unsent())
      ensures ValidInputContext(context) ==>
                && result == Promised(old(nextTicket), |TextItems(text, context, old(nextTicket))|)
                && log.accepted == old(log.accepted) + TextItems(text, context, old(nextTicket))
                    && log.dropped == old(log.dropped)
                && (!old(pump).Idle? ==>
                    pump == old(pump) && log.calls == old(log.calls) && log.handled == old(log.handled))
    {
      if !ValidInputContext(context) {
        return Refused;
      }
      FlushPendingMouseMove();
      var first := nextTicket;
      PushChunks(text, context);
      result := Promised(first, nextTicket - first);
      StartPump();
    }

    // The splitting loop of `enqueueText`.
    method PushChunks(text: string, context: RemoteInputContext)
      requires QueueTracked() && ValidInputContext(context)
      modifies `queue, `nextTicket, `run, `log
      ensures QueueTracked() && OnlyQueueGrew()
      ensures log.accepted == old(log.accepted) + TextItems(text, context, old(nextTicket))
      ensures nextTicket == old(nextTicket) + |TextItems(text, context, old(nextTicket))|
    {
      var offset := 0;
      ghost var first, before := nextTicket, log.accepted;
      NothingSplit(before, text, context, first);
      while offset < |text|
        invariant QueueTracked() && OnlyQueueGrew()
        invariant offset <= |text| && SplitTo(log.accepted, before, text, offset, context, first, nextTicket)
      {
        offset := PushChunk(text, offset, context, before, first);
      }
      AllSplit(log.accepted, before, text, context, first, nextTicket);
    }

    // The part of Valid that pushing depends on.
    ghost predicate QueueTracked()
      reads this
    {
      && queueHead <= |queue| && !hasPendingMouseMove && log.waitingItems == Unsent()
      && log == State(run) && log.promised == nextTicket
    }

    twostate predicate OnlyQueueGrew()
      reads this
    {
      log == old(log).(accepted := log.accepted, waitingRuns := log.waitingRuns, waitingItems := log.waitingItems,
          promised := log.promised)
    }

    method PushChunk(text: string, offset: nat, context: RemoteInputContext, ghost before: seq<QueuedInput>,
          ghost first: nat)
      returns (next: nat)
      requires QueueTracked() && ValidInputContext(context) && offset < |text|
      requires SplitTo(log.accepted, before, text, offset, context, first, nextTicket)
      modifies `queue, `nextTicket, `run, `log
      ensures QueueTracked() && OnlyQueueGrew() && offset < next <= |text|
      ensures SplitTo(log.accepted, before, text, next, context, first, nextTicket)
    {
      next := ChunkEnd(text, offset);
      ghost var accepted, ticket := log.accepted, nextTicket;
      ChunkFits(text, offset);
      var chunk := text[offset..next];
      PushItem(Text(chunk, context, nextTicket));
      NextChunk(accepted, log.accepted, before, text, offset, next, context, first, ticket, nextTicket);
    }

    method EnqueueShortcut(input: ControllerInput, context: RemoteInputContext) returns (result: ShortcutResult)
      requires Stable()
      modifies this
      ensures Stable()
      ensures ValidInputContext(context) && input.Key? && input.key != "" && input.pressed ==>
                && result == PromisedShortcut(old(nextTicket))
                && log.accepted ==
                    old(log.accepted) + [Shortcut(input, old(shortcutGeneration), context, old(nextTicket))]
                && log.dropped == old(log.dropped)
                && (!old(pump).Idle? ==>
                    pump == old(pump) && log.calls == old(log.calls) && log.handled == old(log.handled))
      ensures !(ValidInputContext(context) && input.Key? && input.key != "" && input.pressed) ==>
                result == InvalidShortcut && log == old(log) && pump == old(pump) && Unsent() == old(Unsent())
    {
      if !ValidInputContext(context) || !IsChord(input) {
        return InvalidShortcut;
      }
      FlushPendingMouseMove();
      result := PromisedShortcut(nextTicket);
      Push(Shortcut(input, shortcutGeneration, context, nextTicket));
      StartPump();
    }

    method CancelShortcuts()
      requires Stable()
      modifies `shortcutGeneration
      ensures Stable() && shortcutGeneration == old(shortcutGeneration) + 1
    {
      shortcutGeneration := shortcutGeneration + 1;
    }

    method DiscardPendingMoves()
      requires Stable()
      modifies `queue, `queueHead, `hasPendingMouseMove, `run, `log
      ensures Stable()
      ensures log == Apply(old(log), DropMoves)
      ensures Unsent() == NonMoves(old(Unsent()))
    {
      DropMovesOfQueue();
      CompactQueue();
    }

    method DropMovesOfQueue()
      requires QueueOk() && Tracked()
      modifies `queue, `hasPendingMouseMove, `run, `log
      ensures QueueOk() && Tracked() && !hasPendingMouseMove
      ensures log == Apply(old(log), DropMoves)
      ensures Unsent() == NonMoves(old(Unsent()))
    {
      RemoveMoves();
      DoDropMoves();
    }

    method RemoveMoves()
      requires QueueOk()
      modifies `queue, `hasPendingMouseMove
      ensures queueHead <= |queue| && !hasPendingMouseMove && Unsent() == NonMoves(old(Unsent()))
    {
      ghost var queued := queue[queueHead..];
      ghost var pending := if hasPendingMouseMove then [pendingMouseMove] else [];
      RemoveQueuedMoves();
      hasPendingMouseMove := false;
      DropMovesKeepsQueue(queued, pending, queue[queueHead..]);
    }

    ghost method DoDropMoves()
      requires log == State(run)
      modifies `run, `log
      ensures log == State(run) && log == Apply(old(log), DropMoves)
      ensures log == old(log).(dropped := log.dropped, waitingRuns := log.waitingRuns,
              waitingItems := NonMoves(old(log.waitingItems)))
    {
      Do(DropMoves);
    }

    method RemoveQueuedMoves()
      requires queueHead <= |queue|
      modifies `queue
      ensures queueHead <= |queue| && queue[queueHead..] == NonMoves(old(queue)[queueHead..])
    {
      var index := |queue|;
      ghost var was := queue;
      while index > queueHead
        invariant queueHead <= index <= |was| && index <= |queue|
        invariant queue == was[..index] + NonMoves(was[index..])
      {
        index := index - 1;
        RemoveStep(was, index, queue);
        if queue[index].IsMove() {
          queue := queue[..index] + queue[index + 1..];
        }
      }
      SuffixOfConcat(was[..queueHead], NonMoves(was[queueHead..]));
    }

    method DiscardAll()
      requires Stable()
      modifies this
      ensures Stable()
      ensures log == Apply(old(log), Clear) && Unsent() == [] && pump == old(pump)
      ensures generation == old(generation) + 1 && shortcutGeneration == old(shortcutGeneration) + 1
    {
      NextGenerations();
      DiscardUnsent();
    }

    method DiscardUnsent()
      requires Stable()
      modifies `queue, `queueHead, `hasPendingMouseMove, `settled, `run, `log
      ensures Stable() && Unsent() == [] && log == Apply(old(log), Clear)
    {
      ClearQueue();
    }

    method NextGenerations()
      requires Stable()
      modifies `generation, `shortcutGeneration
      ensures Stable() && generation == old(generation) + 1 && shortcutGeneration == old(shortcutGeneration) + 1
    {
      CancelShortcuts();
      generation := generation + 1;
    }

    method ClearQueue()
      requires QueueOk() && Tracked()
      modifies `queue, `queueHead, `hasPendingMouseMove, `settled, `run, `log
      ensures QueueOk() && Tracked() && Unsent() == []
      ensures log == Apply(old(log), Clear)
    {
      EmptyQueue();
      DoClear();
    }

    method EmptyQueue()
      requires QueueOk() && Tracked()
      modifies `queue, `queueHead, `hasPendingMouseMove, `settled
      ensures queueHead == 0 && queue == [] && !hasPendingMouseMove && Unsent() == []
      ensures settled == RejectAll(log.settled, log.waitingItems)
    {
      RejectUnsent();
      queue, queueHead, hasPendingMouseMove := [], 0, false;
    }

    method RejectUnsent()
      requires QueueOk() && Tracked()
      modifies `settled
      ensures settled == RejectAll(log.settled, log.waitingItems)
    {
      RejectQueued();
    }

    ghost method DoClear()
      requires log == State(run)
      modifies `run, `log
      ensures log == State(run) && log == Apply(old(log), Clear)
      ensures log == old(log).(dropped := log.dropped, waitingRuns := [], waitingItems := [],
                               settled := RejectAll(old(log.settled), old(log.waitingItems)))
    {
      Do(Clear);
    }

    method RejectQueued()
      requires queueHead <= |queue|
      requires hasPendingMouseMove ==> pendingMouseMove.IsMove()
      modifies `settled
      ensures settled == RejectAll(old(settled), Unsent())
    {
      var index := queueHead;
      RejectNone(settled, queue, queueHead);
      while index < |queue|
        invariant queueHead <= index <= |queue|
        invariant settled == RejectAll(old(settled), queue[queueHead..index])
      {
        RejectStep(old(settled), queue, queueHead, index);
        settled := Settle(settled, queue[index], false);
        index := index + 1;
      }
      RejectPending(old(settled), queue[queueHead..index], queue[queueHead..], pendingMouseMove);
    }
  }

  lemma RejectNone(settled: map<nat, bool>, queue: seq<QueuedInput>, head: nat)
    requires head <= |queue|
    ensures RejectAll(settled, queue[head..head]) == settled
  {
    assert queue[head..head] == [];
  }

  lemma RejectStep(settled: map<nat, bool>, queue: seq<QueuedInput>, head: nat, index: nat)
    requires head <= index < |queue|
    ensures Settle(RejectAll(settled, queue[head..index]), queue[index], false) ==
            RejectAll(settled, queue[head..index + 1])
  {
    RejectAllStep(settled, queue[head..index], queue[index]);
    assert queue[head..index + 1] == queue[head..index] + [queue[index]];
  }

  lemma RejectPending(settled: map<nat, bool>, rejected: seq<QueuedInput>, queued: seq<QueuedInput>,
        pending: QueuedInput)
    requires rejected == queued
    ensures RejectAll(settled, rejected) == RejectAll(settled, queued + [])
    ensures pending.IsMove() ==> RejectAll(settled, rejected) == RejectAll(settled, queued + [pending])
  {
    assert queued + [] == queued;
    RejectAllStep(settled, queued, pending);
  }

  lemma SuffixOfConcat<T>(a: seq<T>, b: seq<T>)
    ensures (a + b)[|a|..] == b
  {
  }

  lemma RemoveStep(was: seq<QueuedInput>, i: nat, queue: seq<QueuedInput>)
    requires i < |was| && queue == was[..i + 1] + NonMoves(was[i + 1..])
    ensures queue[i] == was[i]
    ensures was[i].IsMove() ==> queue[..i] + queue[i + 1..] == was[..i] + NonMoves(was[i..])
    ensures !was[i].IsMove() ==> queue == was[..i] + NonMoves(was[i..])
  {
    NonMovesStep(was, i);
    assert was[..i + 1] == was[..i] + [was[i]];
    SuffixOfConcat(was[..i + 1], NonMoves(was[i + 1..]));
  }

  lemma NonMovesStep(s: seq<QueuedInput>, i: nat)
    requires i < |s|
    ensures NonMoves(s[i..]) == (if s[i].IsMove() then [] else [s[i]]) + NonMoves(s[i + 1..])
  {
    NonMovesConcat([s[i]], s[i + 1..]);
    assert [s[i]] + s[i + 1..] == s[i..];
    NonMovesOfRun([s[i]], s[i].IsMove());
  }

  predicate IsChord(input: ControllerInput)
  {
    input.Key? && input.key != "" && input.pressed
  }

  // The splitting loop stands at `offset`: what it accepted and the items of the rest are the items
  // of the text.
  ghost predicate SplitTo(accepted: seq<QueuedInput>, before: seq<QueuedInput>, text: string, offset: nat,
        context: RemoteInputContext, first: nat, ticket: nat)
    requires offset <= |text|
  {
    && accepted + TextItems(text[offset..], context, ticket) == before + TextItems(text, context, first)
    && ticket + |TextItems(text[offset..], context, ticket)| == first + |TextItems(text, context, first)|
  }

  lemma NothingSplit(before: seq<QueuedInput>, text: string, context: RemoteInputContext, first: nat)
    ensures SplitTo(before, before, text, 0, context, first, first)
  {
    assert text[0..] == text;
  }

  lemma AllSplit(accepted: seq<QueuedInput>, before: seq<QueuedInput>, text: string, context: RemoteInputContext,
        first: nat, ticket: nat)
    requires SplitTo(accepted, before, text, |text|, context, first, ticket)
    ensures accepted == before + TextItems(text, context, first)
    ensures ticket == first + |TextItems(text, context, first)|
  {
    assert accepted + [] == accepted;
  }

  lemma ChunkFits(text: string, offset: nat)
    requires offset < |text|
    ensures offset < ChunkEnd(text, offset) <= |text| && 0 < |text[offset..ChunkEnd(text, offset)]| <= TEXT_CHUNK
  {
  }

  lemma NextChunk(accepted: seq<QueuedInput>, longer: seq<QueuedInput>, before: seq<QueuedInput>, text: string,
        offset: nat, next: nat, context: RemoteInputContext, first: nat, ticket: nat, later: nat)
    requires offset < |text| && SplitTo(accepted, before, text, offset, context, first, ticket)
    requires next == ChunkEnd(text, offset) && later == ticket + 1
    requires longer == accepted + [Text(text[offset..next], context, ticket)]
    ensures SplitTo(longer, before, text, next, context, first, later)
  {
    var rest := text[offset..];
    assert rest[..next - offset] == text[offset..next] && rest[next - offset..] == text[next..];
  }

  lemma DropMovesKeepsQueue(queued: seq<QueuedInput>, pending: seq<QueuedInput>, kept: seq<QueuedInput>)
    requires forall e <- pending :: e.IsMove()
    requires kept == NonMoves(queued)
    ensures kept + [] == NonMoves(queued + pending)
  {
    NonMovesConcat(queued, pending);
    NonMovesOfRun(pending, true);
  }

  lemma SuffixUpdate<T>(s: seq<T>, from: nat, x: T)
    requires from < |s|
    ensures s[|s| - 1 := x][from..] == AllButLast(s[from..]) + [x]
    ensures s[from..][|s[from..]| - 1] == s[|s| - 1]
  {
  }

  predicate Mergeable(last: QueuedInput, queued: QueuedInput)
  {
    && last.IsWheel() && queued.IsWheel() && last.context == queued.context
    && SameDirection(ItemDelta(last, Horizontal), ItemDelta(queued, Horizontal))
    && SameDirection(ItemDelta(last, Vertical), ItemDelta(queued, Vertical))
    && IsSafe(ItemDelta(last, Horizontal) + ItemDelta(queued, Horizontal))
    && IsSafe(ItemDelta(last, Vertical) + ItemDelta(queued, Vertical))
  }

  lemma UnsentAfterHead(queue: seq<QueuedInput>, head: nat, pending: seq<QueuedInput>)
    requires head < |queue|
    ensures (queue[head..] + pending)[0] == queue[head]
    ensures (queue[head..] + pending)[1..] == queue[head + 1..] + pending
  {
  }

  lemma LastOfUnsent(was: seq<QueuedInput>, queue: seq<QueuedInput>, head: nat)
    requires head <= |queue| && was == queue[head..] + []
    ensures head < |queue| ==> was != [] && was[|was| - 1] == queue[|queue| - 1]
    ensures head == |queue| ==> was == []
  {
  }

  // What becomes of the unsent events when one more is queued.
  lemma QueuedLast(was: seq<QueuedInput>, e: QueuedInput)
    requires e.Plain?
    ensures was != [] && Mergeable(was[|was| - 1], e) ==>
              QueuedBehind(was, e, AllButLast(was) + [Merged(was[|was| - 1], e)])
    ensures was != [] && Supersedes(was[|was| - 1], e) ==> QueuedBehind(was, e, AllButLast(was) + [e])
    ensures was == [] || (!Mergeable(was[|was| - 1], e) && !Supersedes(was[|was| - 1], e)) ==>
              QueuedBehind(was, e, was + [e])
  {
    if was != [] {
      MergesExactly(was[|was| - 1], e);
    }
  }

  // The side slot takes the place of the one event that may be in it.
  lemma QueuedInSlot(was: seq<QueuedInput>, e: QueuedInput)
    requires |was| <= 1 && e.IsMove() && (was != [] ==> Supersedes(was[0], e))
    ensures QueuedBehind(was, e, [e])
  {
    assert was == [] ==> was + [e] == [e];
    assert was != [] ==> was[..0] + [e] == [e];
  }

  // The source's test for merging, in signs and sums.
  lemma MergesExactly(last: QueuedInput, queued: QueuedInput)
    requires queued.Plain?
    ensures Mergeable(last, queued) <==> AddsToWheel(last, queued)
    ensures Mergeable(last, queued) ==>
              Merged(last, queued) ==
              Plain(Wheel(Whole(OrZero(last.input.deltaX) + OrZero(queued.input.deltaX)),
                          Whole(OrZero(last.input.deltaY) + OrZero(queued.input.deltaY))), queued.context)
  {
  }

  ghost predicate FitsLast(was: seq<QueuedInput>, last: QueuedInput, event: QueuedInput, joined: QueuedInput)
  {
    && joined.Plain? && joined.WellFormed() && MayJoin(last, event, joined)
    && QueuedBehind(was, event, AllButLast(was) + [joined])
  }

  lemma JoinsThatFit(was: seq<QueuedInput>, queue: seq<QueuedInput>, head: nat, queued: QueuedInput)
    requires head <= |queue| && was == queue[head..] + [] && queued.Plain? && queued.WellFormed()
    ensures head < |queue| ==>
              var last := queue[|queue| - 1];
              && (Mergeable(last, queued) ==> FitsLast(was, last, queued, Merged(last, queued)))
              && (Supersedes(last, queued) ==> FitsLast(was, last, queued, queued))
  {
    LastOfUnsent(was, queue, head);
    QueuedLast(was, queued);
  }

  predicate Supersedes(last: QueuedInput, queued: QueuedInput)
  {
    queued.IsMove() && last.IsMove() && last.context == queued.context
  }

  function Merged(last: QueuedInput, queued: QueuedInput): QueuedInput
  {
    Plain(Wheel(Whole(ItemDelta(last, Horizontal) + ItemDelta(queued, Horizontal)),
                Whole(ItemDelta(last, Vertical) + ItemDelta(queued, Vertical))), last.context)
  }
}
