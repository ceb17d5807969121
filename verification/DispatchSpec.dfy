// What the remote input dispatcher promises, said without its queue:
// which sender calls an accepted event stands for, and which coalescings are allowed.
module DispatchSpec {
  import opened InputContexts

  const MAX_WHEEL_DELTA := 1200
  const MAX_SAFE_INTEGER := 9007199254740991
  const TEXT_CHUNK := 256

  // A JavaScript number as the dispatcher distinguishes them: absent, an integer, or neither.
  datatype Number = Missing | Whole(n: int) | NotWhole

  function OrZero(d: Number): int { if d.Whole? then d.n else 0 }

  predicate IsSafe(n: int) { -MAX_SAFE_INTEGER <= n <= MAX_SAFE_INTEGER }

  predicate IsSafeDelta(d: Number) { d.Missing? || (d.Whole? && IsSafe(d.n)) }

  datatype ControllerInput =
    | MouseMove(x: int, y: int)
    | MouseButton(button: string, down: bool)
    | Wheel(deltaX: Number, deltaY: Number)
    | Key(key: string, character: string, pressed: bool, modifiers: nat)

  type KeyInput = i: ControllerInput | i.Key? witness Key("", "", true, 0)

  datatype QueuedInput =
    | Plain(input: ControllerInput, context: RemoteInputContext)
    | Text(text: string, context: RemoteInputContext, ticket: nat)
    | Shortcut(chord: KeyInput, shortcutGeneration: nat, context: RemoteInputContext, ticket: nat)
  {
    predicate IsMove() { Plain? && input.MouseMove? }
    predicate IsWheel() { Plain? && input.Wheel? }
    predicate HasTicket() { !Plain? }

    predicate WellFormed()
    {
      && ValidInputContext(context)
      && (IsWheel() ==> IsSafeDelta(input.deltaX) && IsSafeDelta(input.deltaY))
      && (Text? ==> 0 < |text| <= TEXT_CHUNK)
      && (Shortcut? ==> chord.pressed && chord.key != "")
    }
  }

  datatype Call =
    | Send(input: ControllerInput, context: RemoteInputContext)
    | SendText(text: string, context: RemoteInputContext)

  datatype Axis = Horizontal | Vertical

  function Delta(input: ControllerInput, axis: Axis): int
  {
    if !input.Wheel? then 0 else OrZero(if axis.Horizontal? then input.deltaX else input.deltaY)
  }

  function ItemDelta(item: QueuedInput, axis: Axis): int
  {
    if item.Plain? then Delta(item.input, axis) else 0
  }

  predicate SameDirection(left: int, right: int)
  {
    left == 0 || right == 0 || (left < 0 <==> right < 0)
  }

  // ---------------------------------------------------------------- wheel splitting

  function Clamp(d: int): (r: int)
    ensures -MAX_WHEEL_DELTA <= r <= MAX_WHEEL_DELTA
    ensures r == 0 <==> d == 0
  {
    if d < -MAX_WHEEL_DELTA then -MAX_WHEEL_DELTA else if d > MAX_WHEEL_DELTA then MAX_WHEEL_DELTA else d
  }

  function Abs(d: int): nat { if d < 0 then -d else d }

  function Fragments(x: int, y: int, context: RemoteInputContext): seq<Call>
    decreases Abs(x) + Abs(y)
  {
    if x == 0 && y == 0 then []
    else [FragmentCall(x, y, context)] + Fragments(x - Clamp(x), y - Clamp(y), context)
  }

  // The first call for the motion (x, y).
  function FragmentCall(x: int, y: int, context: RemoteInputContext): Call
  {
    Send(Wheel(Whole(Clamp(x)), Whole(Clamp(y))), context)
  }

  lemma FragmentsCases(x: int, y: int, context: RemoteInputContext)
    ensures x != 0 || y != 0 ==>
            Fragments(x, y, context) != [] && Fragments(x, y, context)[0] == FragmentCall(x, y, context)
  {
  }

  lemma FragmentsHead(x: int, y: int, context: RemoteInputContext)
    requires x != 0 || y != 0
    ensures Fragments(x, y, context) != []
    ensures Fragments(x, y, context)[0] == FragmentCall(x, y, context)
    ensures Fragments(x, y, context)[1..] == Fragments(x - Clamp(x), y - Clamp(y), context)
  {
  }

  function CallDelta(call: Call, context: RemoteInputContext, axis: Axis): int
  {
    if call.Send? && call.context == context then Delta(call.input, axis) else 0
  }

  function SentDelta(calls: seq<Call>, context: RemoteInputContext, axis: Axis): int
  {
    if calls == [] then 0 else CallDelta(calls[0], context, axis) + SentDelta(calls[1..], context, axis)
  }

  lemma {:induction false} SentDeltaConcat(a: seq<Call>, b: seq<Call>, context: RemoteInputContext, axis: Axis)
    ensures SentDelta(a + b, context, axis) == SentDelta(a, context, axis) + SentDelta(b, context, axis)
  {
    if a == [] {
      assert a + b == b;
    } else {
      SentDeltaConcat(a[1..], b, context, axis);
      assert (a + b)[1..] == a[1..] + b;
    }
  }

  function Ceiling(d: int): nat { (Abs(d) + 1199) / 1200 }

  predicate IsFragment(c: Call, x: int, y: int, context: RemoteInputContext)
  {
    && c.Send? && c.input.Wheel? && c.context == context
    && Abs(Delta(c.input, Horizontal)) <= MAX_WHEEL_DELTA && Abs(Delta(c.input, Vertical)) <= MAX_WHEEL_DELTA
    && PartOf(Delta(c.input, Horizontal), x) && PartOf(Delta(c.input, Vertical), y)
    && (Delta(c.input, Horizontal) != 0 || Delta(c.input, Vertical) != 0)
  }

  predicate PartOf(part: int, whole: int) { 0 <= part <= whole || whole <= part <= 0 }

  lemma {:induction false} FragmentsAddUp(x: int, y: int, context: RemoteInputContext)
    ensures SentDelta(Fragments(x, y, context), context, Horizontal) == x
    ensures SentDelta(Fragments(x, y, context), context, Vertical) == y
    decreases Abs(x) + Abs(y)
  {
    if x != 0 || y != 0 {
      FragmentsAddUp(x - Clamp(x), y - Clamp(y), context);
    }
  }

  lemma {:induction false} FragmentsCount(x: int, y: int, context: RemoteInputContext)
    ensures |Fragments(x, y, context)| == if Ceiling(x) > Ceiling(y) then Ceiling(x) else Ceiling(y)
    decreases Abs(x) + Abs(y)
  {
    if x != 0 || y != 0 {
      FragmentsCount(x - Clamp(x), y - Clamp(y), context);
      CeilingStep(x);
      CeilingStep(y);
    }
  }

  lemma {:induction false} FragmentsAreParts(x: int, y: int, context: RemoteInputContext)
    ensures forall c <- Fragments(x, y, context) :: IsFragment(c, x, y, context)
    decreases Abs(x) + Abs(y)
  {
    if x != 0 || y != 0 {
      var restX, restY := x - Clamp(x), y - Clamp(y);
      FragmentsAreParts(restX, restY, context);
      forall c <- Fragments(restX, restY, context) ensures IsFragment(c, x, y, context) {
        assert IsFragment(c, restX, restY, context);
      }
    }
  }

  // Splitting loses no motion, uses as few calls as the bound allows,
  // and no fragment exceeds the bound or opposes the motion it is part of.
  lemma FragmentsConserveMotion(x: int, y: int, context: RemoteInputContext)
    ensures SentDelta(Fragments(x, y, context), context, Horizontal) == x
    ensures SentDelta(Fragments(x, y, context), context, Vertical) == y
    ensures |Fragments(x, y, context)| == if Ceiling(x) > Ceiling(y) then Ceiling(x) else Ceiling(y)
    ensures forall c <- Fragments(x, y, context) :: IsFragment(c, x, y, context)
  {
    FragmentsAddUp(x, y, context);
    FragmentsCount(x, y, context);
    FragmentsAreParts(x, y, context);
  }

  lemma CeilingStep(d: int)
    ensures Ceiling(d - Clamp(d)) == if d == 0 then 0 else Ceiling(d) - 1
  {
  }

  lemma {:induction false} FragmentsKeepContext(x: int, y: int, context: RemoteInputContext, other: RemoteInputContext,
        axis: Axis)
    requires other != context
    ensures SentDelta(Fragments(x, y, context), other, axis) == 0
    decreases Abs(x) + Abs(y)
  {
    if x != 0 || y != 0 {
      FragmentsKeepContext(x - Clamp(x), y - Clamp(y), context, other, axis);
    }
  }

  // ---------------------------------------------------------------- calls of an item

  function KeyUp(chord: KeyInput): KeyInput
  {
    chord.(pressed := false)
  }

  function CallsOf(item: QueuedInput): seq<Call>
  {
    match item
    case Plain(input, context) =>
      if input.Wheel? then Fragments(OrZero(input.deltaX), OrZero(input.deltaY), context) else [Send(input, context)]
    case Text(text, context, _) => [SendText(text, context)]
    case Shortcut(chord, _, context, _) => [Send(chord, context), Send(KeyUp(chord), context)]
  }

  function AllCalls(items: seq<QueuedInput>): seq<Call>
  {
    if items == [] then [] else CallsOf(items[0]) + AllCalls(items[1..])
  }

  lemma {:induction false} AllCallsConcat(a: seq<QueuedInput>, b: seq<QueuedInput>)
    ensures AllCalls(a + b) == AllCalls(a) + AllCalls(b)
  {
    if a == [] {
      assert a + b == b;
    } else {
      AllCallsConcat(a[1..], b);
      assert (a + b)[1..] == a[1..] + b && (a + b)[0] == a[0];
      Associative(CallsOf(a[0]), AllCalls(a[1..]), AllCalls(b));
    }
  }

  lemma Associative<T>(a: seq<T>, b: seq<T>, c: seq<T>)
    ensures (a + b) + c == a + (b + c)
  {
  }

  // ---------------------------------------------------------------- coalescing

  function EventDelta(item: QueuedInput, context: RemoteInputContext, axis: Axis): int
  {
    if item.Plain? && item.context == context then Delta(item.input, axis) else 0
  }

  function AcceptedDelta(events: seq<QueuedInput>, context: RemoteInputContext, axis: Axis): int
  {
    if events == [] then 0
        else AcceptedDelta(events[..|events| - 1], context, axis) + EventDelta(events[|events| - 1], context, axis)
  }

  lemma {:induction false} AcceptedDeltaConcat(a: seq<QueuedInput>, b: seq<QueuedInput>, context: RemoteInputContext,
        axis: Axis)
    ensures AcceptedDelta(a + b, context, axis) == AcceptedDelta(a, context, axis) + AcceptedDelta(b, context, axis)
  {
    if b == [] {
      assert a + b == a;
    } else {
      AcceptedDeltaConcat(a, b[..|b| - 1], context, axis);
      assert (a + b)[..|a + b| - 1] == a + b[..|b| - 1];
    }
  }

  ghost predicate OneWay(run: seq<QueuedInput>, axis: Axis)
  {
    || (forall e <- run :: ItemDelta(e, axis) >= 0)
    || (forall e <- run :: ItemDelta(e, axis) <= 0)
  }

  ghost predicate IsMoveRun(run: seq<QueuedInput>, context: RemoteInputContext)
  {
    forall e <- run :: e.IsMove() && e.context == context
  }

  ghost predicate IsWheelRun(run: seq<QueuedInput>, context: RemoteInputContext)
  {
    && (forall e <- run :: e.IsWheel() && e.context == context)
    && OneWay(run, Horizontal) && OneWay(run, Vertical)
  }

  // A run of consecutive events that may be sent as the single event `item`.
  ghost predicate CollapsesTo(run: seq<QueuedInput>, item: QueuedInput)
  {
    || run == [item]
    || (&& |run| > 0 && item.IsMove() && IsMoveRun(run, item.context) && run[|run| - 1] == item)
    || (&& |run| > 0 && item.IsWheel() && IsWheelRun(run, item.context)
        && ItemDelta(item, Horizontal) == AcceptedDelta(run, item.context, Horizontal)
        && ItemDelta(item, Vertical) == AcceptedDelta(run, item.context, Vertical))
  }

  function Flat(runs: seq<seq<QueuedInput>>): seq<QueuedInput>
  {
    if runs == [] then [] else runs[0] + Flat(runs[1..])
  }

  ghost predicate Collapsing(runs: seq<seq<QueuedInput>>, items: seq<QueuedInput>)
  {
    |runs| == |items| && forall i :: 0 <= i < |runs| ==> CollapsesTo(runs[i], items[i])
  }

  // `items` is `events` in order, cut into runs that each collapse to one item.
  ghost predicate Coalesced(events: seq<QueuedInput>, items: seq<QueuedInput>)
  {
    exists runs :: Collapsing(runs, items) && Flat(runs) == events
  }

  lemma {:induction false} FlatConcat(a: seq<seq<QueuedInput>>, b: seq<seq<QueuedInput>>)
    ensures Flat(a + b) == Flat(a) + Flat(b)
  {
    if a == [] {
      assert a + b == b;
    } else {
      FlatConcat(a[1..], b);
      assert (a + b)[1..] == a[1..] + b;
      Associative(a[0], Flat(a[1..]), Flat(b));
    }
  }

  lemma FlatSnoc(runs: seq<seq<QueuedInput>>, run: seq<QueuedInput>)
    ensures Flat(runs + [run]) == Flat(runs) + run
  {
    FlatConcat(runs, [run]);
    assert [run][1..] == [] && Flat([run]) == run;
  }

  lemma FlatLast(runs: seq<seq<QueuedInput>>)
    requires runs != []
    ensures Flat(runs) == Flat(runs[..|runs| - 1]) + runs[|runs| - 1]
  {
    FlatSnoc(runs[..|runs| - 1], runs[|runs| - 1]);
    assert runs[..|runs| - 1] + [runs[|runs| - 1]] == runs;
  }

  // A new event joins the queue as an item of its own ...
  lemma AppendItem(runs: seq<seq<QueuedInput>>, items: seq<QueuedInput>, e: QueuedInput)
    requires Collapsing(runs, items)
    ensures Collapsing(runs + [[e]], items + [e])
    ensures Flat(runs + [[e]]) == Flat(runs) + [e]
  {
    FlatSnoc(runs, [e]);
  }

  // ... or joins the run of the last queued item.
  ghost predicate ReplacesMove(last: QueuedInput, e: QueuedInput)
  {
    last.IsMove() && e.IsMove() && last.context == e.context
  }

  // Motion that does not turn round, and that stays exact when added up.
  predicate AddsUp(a: int, b: int)
  {
    ((a >= 0 && b >= 0) || (a <= 0 && b <= 0)) && -MAX_SAFE_INTEGER <= a + b <= MAX_SAFE_INTEGER
  }

  ghost predicate AddsToWheel(last: QueuedInput, e: QueuedInput)
  {
    && last.IsWheel() && e.IsWheel() && last.context == e.context
    && AddsUp(OrZero(last.input.deltaX), OrZero(e.input.deltaX))
    && AddsUp(OrZero(last.input.deltaY), OrZero(e.input.deltaY))
  }

  // One more event behind the unsent ones: a move replaces the move it follows, wheel motion is
  // added to the wheel motion it continues, and everything else comes last.
  ghost predicate QueuedBehind(was: seq<QueuedInput>, e: QueuedInput, now: seq<QueuedInput>)
  {
    if was != [] && ReplacesMove(was[|was| - 1], e) then now == was[..|was| - 1] + [e]
    else if was != [] && AddsToWheel(was[|was| - 1], e) then
      var last := was[|was| - 1].input;
      now == was[..|was| - 1] + [Plain(Wheel(Whole(OrZero(last.deltaX) + OrZero(e.input.deltaX)),
                                             Whole(OrZero(last.deltaY) + OrZero(e.input.deltaY))), e.context)]
    else now == was + [e]
  }

  function JoinLast(runs: seq<seq<QueuedInput>>, e: QueuedInput): seq<seq<QueuedInput>>
  {
    if runs == [] then [] else runs[..|runs| - 1] + [runs[|runs| - 1] + [e]]
  }

  lemma JoinItem(runs: seq<seq<QueuedInput>>, items: seq<QueuedInput>, last: QueuedInput, e: QueuedInput,
        joined: QueuedInput)
    requires Collapsing(runs, items + [last])
    requires CollapsesTo(runs[|items|] + [e], joined)
    ensures Collapsing(JoinLast(runs, e), items + [joined])
    ensures Flat(JoinLast(runs, e)) == Flat(runs) + [e]
  {
    var init, run := runs[..|items|], runs[|items|];
    forall i | 0 <= i < |items|
      ensures CollapsesTo(init[i], items[i])
    {
      assert (items + [last])[i] == items[i] && init[i] == runs[i];
    }
    FlatLast(runs);
    FlatSnoc(init, run + [e]);
  }

  lemma JoinMove(run: seq<QueuedInput>, last: QueuedInput, e: QueuedInput)
    requires CollapsesTo(run, last)
    requires last.IsMove() && e.IsMove() && last.context == e.context
    ensures CollapsesTo(run + [e], e)
  {
  }

  lemma JoinWheel(run: seq<QueuedInput>, last: QueuedInput, e: QueuedInput, merged: QueuedInput)
    requires CollapsesTo(run, last)
    requires last.IsWheel() && e.IsWheel() && merged.IsWheel() && last.context == e.context == merged.context
    requires forall axis :: SameDirection(ItemDelta(last, axis), ItemDelta(e, axis))
    requires forall axis :: ItemDelta(merged, axis) == ItemDelta(last, axis) + ItemDelta(e, axis)
    ensures CollapsesTo(run + [e], merged)
  {
    WheelRun(run, last);
    ExtendWheelRun(run, last, e, merged);
  }

  // Whatever collapses to a wheel item is a one-way wheel run with that sum.
  lemma WheelRun(run: seq<QueuedInput>, item: QueuedInput)
    requires CollapsesTo(run, item) && item.IsWheel()
    ensures |run| > 0 && IsWheelRun(run, item.context)
    ensures forall axis :: AcceptedDelta(run, item.context, axis) == ItemDelta(item, axis)
  {
    if run == [item] {
      assert [item][..0] == [];
      assert forall axis :: OneWay(run, axis);
    } else {
      forall axis: Axis
        ensures AcceptedDelta(run, item.context, axis) == ItemDelta(item, axis)
      {
        assert axis == Horizontal || axis == Vertical;
      }
    }
  }

  lemma ExtendWheelRun(run: seq<QueuedInput>, last: QueuedInput, e: QueuedInput, merged: QueuedInput)
    requires |run| > 0 && IsWheelRun(run, last.context)
    requires forall axis :: AcceptedDelta(run, last.context, axis) == ItemDelta(last, axis)
    requires last.IsWheel() && e.IsWheel() && merged.IsWheel() && last.context == e.context == merged.context
    requires forall axis :: SameDirection(ItemDelta(last, axis), ItemDelta(e, axis))
    requires forall axis :: ItemDelta(merged, axis) == ItemDelta(last, axis) + ItemDelta(e, axis)
    ensures CollapsesTo(run + [e], merged)
  {
    forall axis: Axis
      ensures OneWay(run + [e], axis)
      ensures AcceptedDelta(run + [e], merged.context, axis) == ItemDelta(merged, axis)
    {
      assert OneWay(run, axis) by { assert axis == Horizontal || axis == Vertical; }
      OneWaySum(run, last.context, axis);
      OneWayExtend(run, e, axis);
      assert (run + [e])[..|run|] == run;
    }
    assert IsWheelRun(run + [e], merged.context);
  }

  lemma OneWayExtend(run: seq<QueuedInput>, e: QueuedInput, axis: Axis)
    requires OneWay(run, axis)
    requires (forall r <- run :: ItemDelta(r, axis) >= 0) || ItemDelta(e, axis) <= 0
    requires (forall r <- run :: ItemDelta(r, axis) <= 0) || ItemDelta(e, axis) >= 0
    ensures OneWay(run + [e], axis)
  {
    if ItemDelta(e, axis) > 0 {
      assert forall r <- run + [e] :: ItemDelta(r, axis) >= 0;
    } else if ItemDelta(e, axis) < 0 {
      assert forall r <- run + [e] :: ItemDelta(r, axis) <= 0;
    }
  }

  // Along a one-way run the sum keeps the direction, and is zero only if nothing moved.
  lemma OneWaySum(run: seq<QueuedInput>, context: RemoteInputContext, axis: Axis)
    requires OneWay(run, axis)
    requires forall e <- run :: e.IsWheel() && e.context == context
    ensures var sum := AcceptedDelta(run, context, axis);
            && (sum <= 0 ==> forall e <- run :: ItemDelta(e, axis) <= 0)
            && (sum >= 0 ==> forall e <- run :: ItemDelta(e, axis) >= 0)
  {
    if forall e <- run :: ItemDelta(e, axis) >= 0 {
      DirectedSum(run, context, axis, 1);
    } else {
      DirectedSum(run, context, axis, -1);
    }
  }

  lemma {:induction false} DirectedSum(run: seq<QueuedInput>, context: RemoteInputContext, axis: Axis, sign: int)
    requires sign == 1 || sign == -1
    requires forall e <- run :: e.IsWheel() && e.context == context && sign * ItemDelta(e, axis) >= 0
    ensures sign * AcceptedDelta(run, context, axis) >= 0
    ensures AcceptedDelta(run, context, axis) == 0 ==> forall e <- run :: ItemDelta(e, axis) == 0
  {
    if run != [] {
      var init, e := run[..|run| - 1], run[|run| - 1];
      assert forall x :: x in run <==> x in init || x == e by {
        assert run == init + [e];
      }
      DirectedSum(init, context, axis, sign);
    }
  }

  // Dropping the waiting moves leaves everything else exactly as it was coalesced.
  function NonMoves(events: seq<QueuedInput>): seq<QueuedInput>
  {
    if events == [] then []
    else NonMoves(events[..|events| - 1]) + if events[|events| - 1].IsMove() then [] else [events[|events| - 1]]
  }

  function Moves(events: seq<QueuedInput>): seq<QueuedInput>
  {
    if events == [] then []
    else Moves(events[..|events| - 1]) + if events[|events| - 1].IsMove() then [events[|events| - 1]] else []
  }

  // `all` dealt out, in its order, to what was kept and what was dropped.
  ghost predicate Dealt(all: seq<QueuedInput>, kept: seq<QueuedInput>, dropped: multiset<QueuedInput>)
  {
    if all == [] then kept == [] && dropped == multiset{}
    else
      var init, e := all[..|all| - 1], all[|all| - 1];
      || (kept != [] && kept[|kept| - 1] == e && Dealt(init, kept[..|kept| - 1], dropped))
      || (e in dropped && Dealt(init, kept, dropped - multiset{e}))
  }

  lemma DealtMore(all: seq<QueuedInput>, kept: seq<QueuedInput>, dropped: multiset<QueuedInput>, e: QueuedInput)
    requires Dealt(all, kept, dropped)
    ensures Dealt(all + [e], kept + [e], dropped) && Dealt(all + [e], kept, dropped + multiset{e})
  {
    assert (all + [e])[..|all|] == all && (kept + [e])[..|kept|] == kept;
    assert (dropped + multiset{e}) - multiset{e} == dropped;
  }

  lemma {:induction false} AllKept(all: seq<QueuedInput>)
    ensures Dealt(all, all, multiset{})
  {
    if all != [] {
      AllKept(all[..|all| - 1]);
    }
  }

  lemma {:induction false} NoneDropped(all: seq<QueuedInput>, kept: seq<QueuedInput>)
    requires Dealt(all, kept, multiset{})
    ensures kept == all
  {
    if all != [] {
      NoneDropped(all[..|all| - 1], kept[..|kept| - 1]);
      assert all == all[..|all| - 1] + [all[|all| - 1]] && kept == kept[..|kept| - 1] + [kept[|kept| - 1]];
    }
  }

  // Dropping more of what was kept.
  lemma {:induction false} DealtTwice(
      all: seq<QueuedInput>, kept: seq<QueuedInput>, dropped: multiset<QueuedInput>,
      still: seq<QueuedInput>, more: multiset<QueuedInput>)
    requires Dealt(all, kept, dropped) && Dealt(kept, still, more)
    ensures Dealt(all, still, dropped + more)
    decreases |all|
  {
    if all != [] {
      var init, e := all[..|all| - 1], all[|all| - 1];
      if kept != [] && kept[|kept| - 1] == e && Dealt(init, kept[..|kept| - 1], dropped) {
        var left := kept[..|kept| - 1];
        if still != [] && still[|still| - 1] == e && Dealt(left, still[..|still| - 1], more) {
          DealtTwice(init, left, dropped, still[..|still| - 1], more);
        } else {
          DealtTwice(init, left, dropped, still, more - multiset{e});
          assert dropped + more - multiset{e} == dropped + (more - multiset{e});
        }
      } else {
        DealtTwice(init, kept, dropped - multiset{e}, still, more);
        assert dropped + more - multiset{e} == (dropped - multiset{e}) + more;
      }
    }
  }

  lemma {:induction false} MovesDealt(front: seq<QueuedInput>, events: seq<QueuedInput>)
    ensures Dealt(front + events, front + NonMoves(events), multiset(Moves(events)))
  {
    if events == [] {
      assert front + events == front && front + NonMoves(events) == front;
      AllKept(front);
    } else {
      var init, e := events[..|events| - 1], events[|events| - 1];
      MovesDealt(front, init);
      DealtMore(front + init, front + NonMoves(init), multiset(Moves(init)), e);
      OneMoreMove(front, events, init, e);
    }
  }

  // One more event at the end, dropped if it is a move and kept if not.
  lemma OneMoreMove(front: seq<QueuedInput>, events: seq<QueuedInput>, init: seq<QueuedInput>, e: QueuedInput)
    requires events != [] && init == events[..|events| - 1] && e == events[|events| - 1]
    ensures front + events == (front + init) + [e]
    ensures e.IsMove() ==>
              && front + NonMoves(events) == front + NonMoves(init)
              && multiset(Moves(events)) == multiset(Moves(init)) + multiset{e}
    ensures !e.IsMove() ==>
              && front + NonMoves(events) == (front + NonMoves(init)) + [e]
              && multiset(Moves(events)) == multiset(Moves(init))
  {
    if e.IsMove() {
      assert Moves(events) == Moves(init) + [e] && NonMoves(events) == NonMoves(init) + [];
    } else {
      assert Moves(events) == Moves(init) + [] && NonMoves(events) == NonMoves(init) + [e];
    }
  }

  lemma {:induction false} RestDealt(front: seq<QueuedInput>, events: seq<QueuedInput>)
    ensures Dealt(front + events, front, multiset(events))
  {
    if events == [] {
      assert front + events == front;
      AllKept(front);
    } else {
      var init, e := events[..|events| - 1], events[|events| - 1];
      RestDealt(front, init);
      DealtMore(front + init, front, multiset(init), e);
      assert events == init + [e] && front + events == (front + init) + [e];
    }
  }

  lemma {:induction false} NonMovesConcat(a: seq<QueuedInput>, b: seq<QueuedInput>)
    ensures NonMoves(a + b) == NonMoves(a) + NonMoves(b)
  {
    if b == [] {
      assert a + b == a;
    } else {
      var init, last := b[..|b| - 1], b[|b| - 1];
      NonMovesConcat(a, init);
      NonMovesSnoc(a + init, last);
      NonMovesSnoc(init, last);
      assert b == init + [last] && a + b == (a + init) + [last];
      Associative(NonMoves(a), NonMoves(init), if last.IsMove() then [] else [last]);
    }
  }

  lemma NonMovesSnoc(events: seq<QueuedInput>, e: QueuedInput)
    ensures NonMoves(events + [e]) == NonMoves(events) + if e.IsMove() then [] else [e]
  {
    assert (events + [e])[..|events|] == events;
  }

  lemma {:induction false} NonMovesOfRun(run: seq<QueuedInput>, moves: bool)
    requires forall e <- run :: e.IsMove() == moves
    ensures NonMoves(run) == if moves then [] else run
  {
    if run != [] {
      var init, last := run[..|run| - 1], run[|run| - 1];
      assert last.IsMove() == moves;
      NonMovesOfRun(init, moves);
      assert run == init + [last];
    }
  }

  // The runs whose item is not a move.
  function NonMoveRuns(runs: seq<seq<QueuedInput>>, items: seq<QueuedInput>): seq<seq<QueuedInput>>
  {
    if runs == [] || |runs| != |items| then []
    else
      NonMoveRuns(runs[..|runs| - 1], items[..|runs| - 1]) + if items[|runs| - 1].IsMove() then []
          else [runs[|runs| - 1]]
  }

  lemma {:induction false} NonMoveRunsCollapse(runs: seq<seq<QueuedInput>>, items: seq<QueuedInput>)
    requires Collapsing(runs, items)
    ensures Collapsing(NonMoveRuns(runs, items), NonMoves(items))
    decreases |runs|
  {
    if runs != [] {
      var n := |runs| - 1;
      NonMoveRunsCollapse(runs[..n], items[..n]);
      CollapsesMore(NonMoveRuns(runs[..n], items[..n]), NonMoves(items[..n]), runs[n], items[n]);
    }
  }

  lemma CollapsesMore(runs: seq<seq<QueuedInput>>, items: seq<QueuedInput>, run: seq<QueuedInput>, item: QueuedInput)
    requires Collapsing(runs, items) && CollapsesTo(run, item)
    ensures Collapsing(runs + [], items + []) && Collapsing(runs + [run], items + [item])
  {
  }

  lemma {:induction false} NonMoveRunsFlat(runs: seq<seq<QueuedInput>>, items: seq<QueuedInput>)
    requires Collapsing(runs, items)
    ensures Flat(NonMoveRuns(runs, items)) == NonMoves(Flat(runs))
    decreases |runs|
  {
    if runs != [] {
      var n := |runs| - 1;
      NonMoveRunsFlat(runs[..n], items[..n]);
      FlatLast(runs);
      NonMovesConcat(Flat(runs[..n]), runs[n]);
      RunNonMoves(runs[n], items[n]);
      var kept := NonMoveRuns(runs[..n], items[..n]);
      if items[n].IsMove() {
        assert NonMoveRuns(runs, items) == kept + [] == kept;
        assert NonMoves(Flat(runs[..n])) + [] == NonMoves(Flat(runs[..n]));
      } else {
        assert NonMoveRuns(runs, items) == kept + [runs[n]];
        FlatSnoc(kept, runs[n]);
      }
    }
  }

  lemma RunNonMoves(run: seq<QueuedInput>, item: QueuedInput)
    requires CollapsesTo(run, item)
    ensures NonMoves(run) == if item.IsMove() then [] else run
  {
    NonMovesOfRun(run, item.IsMove());
  }

  // ---------------------------------------------------------------- conservation

  lemma CoalescingConservesMotion(events: seq<QueuedInput>, items: seq<QueuedInput>, context: RemoteInputContext,
        axis: Axis)
    requires Coalesced(events, items)
    ensures AcceptedDelta(events, context, axis) == AcceptedDelta(items, context, axis)
  {
    var runs :| Collapsing(runs, items) && Flat(runs) == events;
    RunsConserveMotion(runs, items, context, axis);
  }

  lemma {:induction false} RunsConserveMotion(runs: seq<seq<QueuedInput>>, items: seq<QueuedInput>,
        context: RemoteInputContext, axis: Axis)
    requires Collapsing(runs, items)
    ensures AcceptedDelta(Flat(runs), context, axis) == AcceptedDelta(items, context, axis)
    decreases |runs|
  {
    if runs != [] {
      RunsConserveMotion(runs[1..], items[1..], context, axis);
      AcceptedDeltaConcat(runs[0], Flat(runs[1..]), context, axis);
      AcceptedDeltaConcat([items[0]], items[1..], context, axis);
      assert [items[0]] + items[1..] == items;
      RunMotion(runs[0], items[0], context, axis);
    }
  }

  lemma RunMotion(run: seq<QueuedInput>, item: QueuedInput, context: RemoteInputContext, axis: Axis)
    requires CollapsesTo(run, item)
    ensures AcceptedDelta(run, context, axis) == AcceptedDelta([item], context, axis)
  {
    if run != [item] && (item.IsMove() || item.context != context) {
      StillRun(run, context, axis);
    }
    assert [item][..0] == [];
  }

  lemma {:induction false} StillRun(run: seq<QueuedInput>, context: RemoteInputContext, axis: Axis)
    requires forall e <- run :: EventDelta(e, context, axis) == 0
    ensures AcceptedDelta(run, context, axis) == 0
  {
    if run != [] {
      StillRun(run[..|run| - 1], context, axis);
    }
  }

  // The calls an item stands for carry exactly its motion, in its context.
  lemma {:induction false} CallsConserveMotion(items: seq<QueuedInput>, context: RemoteInputContext, axis: Axis)
    ensures SentDelta(AllCalls(items), context, axis) == AcceptedDelta(items, context, axis)
  {
    if items != [] {
      var e := items[0];
      CallsConserveMotion(items[1..], context, axis);
      SentDeltaConcat(CallsOf(e), AllCalls(items[1..]), context, axis);
      AcceptedDeltaConcat([e], items[1..], context, axis);
      assert [e] + items[1..] == items && [e][..0] == [];
      if e.IsWheel() {
        FragmentsConserveMotion(OrZero(e.input.deltaX), OrZero(e.input.deltaY), e.context);
        if e.context != context {
          FragmentsKeepContext(OrZero(e.input.deltaX), OrZero(e.input.deltaY), e.context, context, axis);
        }
      } else if e.Shortcut? {
        assert CallsOf(e)[1..] == [Send(KeyUp(e.chord), e.context)];
      }
    }
  }

  // ---------------------------------------------------------------- promises

  ghost predicate Holds(items: seq<QueuedInput>, t: nat)
  {
    exists e <- items :: e.HasTicket() && e.ticket == t
  }

  // Every promise handed out is settled, or still owed to exactly one outstanding item.
  ghost predicate TicketsOk(items: seq<QueuedInput>, settled: map<nat, bool>, next: nat)
  {
    && (forall e <- items :: e.HasTicket() ==> e.ticket < next && e.ticket !in settled)
    && (forall i, j ::
        0 <= i < j < |items| && items[i].HasTicket() && items[j].HasTicket() ==> items[i].ticket < items[j].ticket)
    && (forall t <- settled :: t < next)
    && (forall t: nat :: t < next && t !in settled ==> Holds(items, t))
  }

  function Settle(settled: map<nat, bool>, item: QueuedInput, value: bool): map<nat, bool>
  {
    if item.HasTicket() then settled[item.ticket := value] else settled
  }

  lemma TicketSettled(item: QueuedInput, rest: seq<QueuedInput>, settled: map<nat, bool>, next: nat, value: bool)
    requires TicketsOk([item] + rest, settled, next)
    ensures item.HasTicket() ==> item.ticket !in settled
    ensures TicketsOk(rest, Settle(settled, item, value), next)
  {
    var items := [item] + rest;
    assert items[0] == item && forall i :: 0 <= i < |rest| ==> items[i + 1] == rest[i];
    forall t: nat | t < next && t !in Settle(settled, item, value)
      ensures Holds(rest, t)
    {
      assert Holds(items, t);
      var e :| e in items && e.HasTicket() && e.ticket == t;
      assert e in rest;
    }
    forall e <- rest | e.HasTicket()
      ensures e.ticket < next && e.ticket !in Settle(settled, item, value)
    {
      var j :| 0 <= j < |rest| && rest[j] == e;
      assert items[j + 1] == e;
    }
  }

  lemma TicketIssued(items: seq<QueuedInput>, settled: map<nat, bool>, next: nat, item: QueuedInput)
    requires TicketsOk(items, settled, next)
    requires item.HasTicket() ==> item.ticket == next
    ensures TicketsOk(items + [item], settled, if item.HasTicket() then next + 1 else next)
  {
    var all := items + [item];
    assert item in all && forall e :: e in all <==> e in items || e == item;
    forall t: nat | t < next && t !in settled
      ensures Holds(all, t)
    {
      assert Holds(items, t);
    }
    if item.HasTicket() {
      assert Holds(all, next);
    }
  }

  lemma LastTicketless(items: seq<QueuedInput>, last: QueuedInput, item: QueuedInput, settled: map<nat, bool>,
        next: nat)
    requires TicketsOk(items + [last], settled, next)
    requires last.Plain? && item.Plain?
    ensures TicketsOk(items + [item], settled, next)
  {
    var all := items + [last];
    assert forall e :: e in all <==> e in items || e == last;
    assert forall i :: 0 <= i < |items| ==> all[i] == items[i];
    assert TicketsOk(items, settled, next) by {
      forall t: nat | t < next && t !in settled
        ensures Holds(items, t)
      {
        assert Holds(all, t);
      }
    }
    TicketIssued(items, settled, next, item);
  }

  lemma {:induction false} MovesTicketless(front: seq<QueuedInput>, items: seq<QueuedInput>, settled: map<nat, bool>,
        next: nat)
    requires TicketsOk(front + items, settled, next)
    ensures TicketsOk(front + NonMoves(items), settled, next)
    decreases |items|
  {
    if items == [] {
    } else {
      var init, last := items[..|items| - 1], items[|items| - 1];
      assert front + items == (front + init) + [last];
      DropLast(front + init, last, settled, next);
      if last.IsMove() {
        MovesTicketless(front, init, settled, next);
        assert NonMoves(items) == NonMoves(init);
      } else {
        MovesTicketless(front, init, Settle(settled, last, false), next);
        NonMovesAmong(init);
        KeepLast(front + init, front + NonMoves(init), last, settled, next);
        assert front + NonMoves(items) == (front + NonMoves(init)) + [last];
      }
    }
  }

  lemma {:induction false} NonMovesAmong(items: seq<QueuedInput>)
    ensures forall e <- NonMoves(items) :: e in items && !e.IsMove()
  {
    if items != [] {
      NonMovesAmong(items[..|items| - 1]);
    }
  }

  lemma {:induction false} MovesAmong(items: seq<QueuedInput>)
    ensures forall e <- Moves(items) :: e in items && e.IsMove()
  {
    if items != [] {
      MovesAmong(items[..|items| - 1]);
    }
  }

  lemma DropLast(items: seq<QueuedInput>, last: QueuedInput, settled: map<nat, bool>, next: nat)
    requires TicketsOk(items + [last], settled, next)
    ensures TicketsOk(items, Settle(settled, last, false), next)
  {
    var all := items + [last];
    assert forall e :: e in all <==> e in items || e == last;
    assert all[|items|] == last && forall i :: 0 <= i < |items| ==> all[i] == items[i];
    forall t: nat | t < next && t !in Settle(settled, last, false)
      ensures Holds(items, t)
    {
      assert Holds(all, t);
    }
    forall e <- items | e.HasTicket()
      ensures e.ticket !in Settle(settled, last, false)
    {
      var j :| 0 <= j < |items| && items[j] == e;
      assert all[j] == e;
    }
  }

  // A ticket issued last stays the largest when earlier items are dropped.
  lemma KeepLast(before: seq<QueuedInput>, after: seq<QueuedInput>, last: QueuedInput, settled: map<nat, bool>,
        next: nat)
    requires TicketsOk(before + [last], settled, next)
    requires TicketsOk(after, Settle(settled, last, false), next)
    requires forall e <- after :: e in before
    ensures TicketsOk(after + [last], settled, next)
  {
    var was, all := before + [last], after + [last];
    assert was[|before|] == last && forall i :: 0 <= i < |before| ==> was[i] == before[i];
    assert last in all && forall e :: e in all <==> e in after || e == last;
    assert forall e <- before :: e in was;
    assert last in was;
    forall t: nat | t < next && t !in settled
      ensures Holds(all, t)
    {
      if !(last.HasTicket() && last.ticket == t) {
        assert Holds(after, t);
      }
    }
    forall i, j | 0 <= i < j < |all| && all[i].HasTicket() && all[j].HasTicket()
      ensures all[i].ticket < all[j].ticket
    {
      if j == |after| {
        assert all[i] in before;
        var k :| 0 <= k < |before| && before[k] == all[i];
        assert was[k] == all[i];
      }
    }
  }

  function Tickets(items: seq<QueuedInput>): set<nat>
  {
    set e <- items | e.HasTicket() :: e.ticket
  }

  function RejectAll(settled: map<nat, bool>, items: seq<QueuedInput>): map<nat, bool>
  {
    if items == [] then settled else Settle(RejectAll(settled, items[..|items| - 1]), items[|items| - 1], false)
  }

  lemma RejectAllStep(settled: map<nat, bool>, items: seq<QueuedInput>, item: QueuedInput)
    ensures RejectAll(settled, items + [item]) == Settle(RejectAll(settled, items), item, false)
  {
    assert (items + [item])[..|items|] == items;
  }

  lemma TicketsStep(items: seq<QueuedInput>, item: QueuedInput)
    ensures Tickets(items + [item]) == Tickets(items) + if item.HasTicket() then {item.ticket} else {}
  {
    var all := items + [item];
    assert item in all && forall e :: e in all <==> e in items || e == item;
    forall t | t in Tickets(items)
      ensures t in Tickets(all)
    {
      var e :| e in items && e.HasTicket() && e.ticket == t;
      assert e in all;
    }
  }

  lemma {:induction false} RejectAllRejects(settled: map<nat, bool>, items: seq<QueuedInput>)
    ensures var all := RejectAll(settled, items);
            && all.Keys == settled.Keys + Tickets(items)
            && (forall t <- settled :: t !in Tickets(items) ==> all[t] == settled[t])
            && (forall t <- Tickets(items) :: !all[t])
  {
    if items != [] {
      var init, last := items[..|items| - 1], items[|items| - 1];
      RejectAllRejects(settled, init);
      TicketsStep(init, last);
      assert init + [last] == items;
    }
  }

  lemma TicketsApart(front: seq<QueuedInput>, items: seq<QueuedInput>, settled: map<nat, bool>, next: nat)
    requires TicketsOk(front + items, settled, next)
    ensures forall e <- front, d <- items :: e.HasTicket() && d.HasTicket() ==> e.ticket != d.ticket
    ensures forall t <- Tickets(items) :: t !in settled && t < next
  {
    var all := front + items;
    forall e <- front, d <- items | e.HasTicket() && d.HasTicket()
      ensures e.ticket != d.ticket
    {
      var i :| 0 <= i < |front| && front[i] == e;
      var j :| 0 <= j < |items| && items[j] == d;
      assert all[i] == e && all[|front| + j] == d;
    }
    forall t <- Tickets(items)
      ensures t !in settled && t < next
    {
      var e :| e in items && e.HasTicket() && e.ticket == t;
      assert e in all;
    }
  }

  // Clearing rejects the promises of `items`, none of which was settled, and leaves `front` owed.
  lemma TicketsRejected(front: seq<QueuedInput>, items: seq<QueuedInput>, settled: map<nat, bool>, next: nat)
    requires TicketsOk(front + items, settled, next)
    ensures TicketsOk(front, RejectAll(settled, items), next)
    ensures forall t <- settled :: t in RejectAll(settled, items) && RejectAll(settled, items)[t] == settled[t]
    ensures forall t <- Tickets(items) :: t !in settled
  {
    var all := front + items;
    RejectAllRejects(settled, items);
    TicketsApart(front, items, settled, next);
    assert forall e :: e in all <==> e in front || e in items;
    assert forall i :: 0 <= i < |front| ==> all[i] == front[i];
    forall t: nat | t < next && t !in RejectAll(settled, items)
      ensures Holds(front, t)
    {
      assert Holds(all, t);
      assert forall d <- items | d.HasTicket() :: d.ticket in Tickets(items);
    }
    forall e <- front | e.HasTicket()
      ensures e.ticket !in RejectAll(settled, items)
    {
      assert e in all;
    }
  }

  // ---------------------------------------------------------------- text

  function TextItems(text: string, context: RemoteInputContext, ticket: nat): seq<QueuedInput>
  {
    if text == [] then []
    else
      var size := if |text| < TEXT_CHUNK then |text| else TEXT_CHUNK;
      [Text(text[..size], context, ticket)] + TextItems(text[size..], context, ticket + 1)
  }

  function Joined(items: seq<QueuedInput>): string
    requires forall e <- items :: e.Text?
  {
    if items == [] then "" else items[0].text + Joined(items[1..])
  }

  // The chunks are the text, each within the native limit.
  lemma {:induction false} TextItemsAreTheText(text: string, context: RemoteInputContext, ticket: nat)
    ensures forall e <- TextItems(text, context, ticket) ::
            e.Text? && 0 < |e.text| <= TEXT_CHUNK && e.context == context
    ensures Joined(TextItems(text, context, ticket)) == text
    ensures |TextItems(text, context, ticket)| == (|text| + TEXT_CHUNK - 1) / TEXT_CHUNK
  {
    if text != [] {
      var size := if |text| < TEXT_CHUNK then |text| else TEXT_CHUNK;
      TextItemsAreTheText(text[size..], context, ticket + 1);
      var rest := TextItems(text[size..], context, ticket + 1);
      assert TextItems(text, context, ticket)[1..] == rest;
      assert text[..size] + text[size..] == text;
    }
  }

  function ChunkEnd(text: string, offset: nat): nat
    requires offset <= |text|
  {
    if |text| - offset < TEXT_CHUNK then |text| else offset + TEXT_CHUNK
  }

  lemma SliceOfSuffix<T>(s: seq<T>, n: nat, from: nat, to: nat)
    requires n <= |s| && from <= to <= |s| - n
    ensures s[n..][from..to] == s[n + from..n + to]
  {
  }

  // Chunk i starts at scalar 256 * i and carries promise ticket + i.
  lemma {:induction false} TextItemAt(text: string, context: RemoteInputContext, ticket: nat, i: nat)
    requires 256 * i < |text|
    ensures i < |TextItems(text, context, ticket)|
    ensures var end := if 256 * (i + 1) < |text| then 256 * (i + 1) else |text|;
            && TextItems(text, context, ticket)[i] == Text(text[256 * i..end], context, ticket + i)
            && (end == |text| <==> i + 1 == |TextItems(text, context, ticket)|)
  {
    var size := if |text| < TEXT_CHUNK then |text| else TEXT_CHUNK;
    var rest := text[size..];
    if i > 0 {
      TextItemAt(rest, context, ticket + 1, i - 1);
      SliceOfSuffix(text, size, 256 * (i - 1), if 256 * i < |rest| then 256 * i else |rest|);
    } else {
      TextItemsAreTheText(text, context, ticket);
    }
  }
}
