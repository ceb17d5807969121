// `RemoteKeyboardState` of apps/windows-ui/src/remote-keyboard-state.ts: which physical keys are
// held, and which key events the remote side is sent for them.
module RemoteKeyboard {
  import opened DispatchSpec

  // keyboardModifierMask of apps/windows-ui/src/remote-input.ts.
  function KeyboardModifierMask(key: string): bv8
  {
    if key == "shift" then 1
    else if key == "control" then 2
    else if key == "alt" then 4
    else if key == "meta" then 8
    else 0
  }

  // A physical code and the input that its press carried. The Map keeps insertion order, so it is
  // a sequence in which every code occurs once.
  datatype Held = Held(code: string, input: KeyInput)

  // What the remote side sees go down and up. An event carries no physical code: a modifier is
  // known by its bit, any other key by its name and character.
  datatype Source = Modifier(mask: bv8) | Ordinary(key: string, character: string) | Button(button: string)

  function SourceOf(h: Held): Source
  {
    var own := KeyboardModifierMask(h.input.key);
    if own != 0 then Modifier(own) else Ordinary(h.input.key, h.input.character)
  }

  predicate HasSource(pressed: seq<Held>, s: Source)
  {
    pressed != [] && (SourceOf(pressed[|pressed| - 1]) == s || HasSource(pressed[..|pressed| - 1], s))
  }

  // The key is a modifier that some key of `pressed` stands for already.
  predicate Covered(pressed: seq<Held>, h: Held)
  {
    SourceOf(h).Modifier? && HasSource(pressed, SourceOf(h))
  }

  ghost predicate Distinct(pressed: seq<Held>)
  {
    forall i, j :: 0 <= i < j < |pressed| ==> pressed[i].code != pressed[j].code
  }

  // Where the Map has `code`, or its size.
  function Find(pressed: seq<Held>, code: string): (i: nat)
    ensures i <= |pressed|
    ensures i < |pressed| ==> pressed[i].code == code
    ensures forall k :: 0 <= k < |pressed| && pressed[k].code == code ==> i < |pressed|
  {
    if pressed == [] then 0
    else if pressed[|pressed| - 1].code == code then |pressed| - 1
    else
      var i := Find(pressed[..|pressed| - 1], code);
      if i < |pressed| - 1 then i else |pressed|
  }

  predicate HasCode(pressed: seq<Held>, code: string) { Find(pressed, code) < |pressed| }

  function MaskOf(pressed: seq<Held>): bv8
  {
    if pressed == [] then 0
    else MaskOf(pressed[..|pressed| - 1]) | KeyboardModifierMask(pressed[|pressed| - 1].input.key)
  }

  // The mask names exactly the modifiers that some held key stands for.
  lemma {:induction false} MaskIsHeldModifiers(pressed: seq<Held>, m: bv8)
    requires m == 1 || m == 2 || m == 4 || m == 8
    ensures MaskOf(pressed) & m != 0 <==> HasSource(pressed, Modifier(m))
  {
    if pressed != [] {
      var before, own := pressed[..|pressed| - 1], KeyboardModifierMask(pressed[|pressed| - 1].input.key);
      MaskIsHeldModifiers(before, m);
      BitOfUnion(MaskOf(before), own, m);
    }
  }

  ghost predicate HoldsKey(pressed: seq<Held>, key: string) { exists h <- pressed :: h.input.key == key }

  // The bits by name.
  lemma {:induction false} MaskInNames(pressed: seq<Held>)
    ensures MaskOf(pressed) & 1 != 0 <==> HoldsKey(pressed, "shift")
    ensures MaskOf(pressed) & 2 != 0 <==> HoldsKey(pressed, "control")
    ensures MaskOf(pressed) & 4 != 0 <==> HoldsKey(pressed, "alt")
    ensures MaskOf(pressed) & 8 != 0 <==> HoldsKey(pressed, "meta")
    ensures MaskOf(pressed) & 0xF0 == 0
  {
    if pressed != [] {
      var before, last := pressed[..|pressed| - 1], pressed[|pressed| - 1];
      MaskInNames(before);
      HoldsOneMore(before, last);
      assert pressed == before + [last];
      var own := KeyboardModifierMask(last.input.key);
      BitOfUnion(MaskOf(before), own, 1);
      BitOfUnion(MaskOf(before), own, 2);
      BitOfUnion(MaskOf(before), own, 4);
      BitOfUnion(MaskOf(before), own, 8);
      NoHighBits(MaskOf(before), own);
    }
  }

  lemma NoHighBits(a: bv8, own: bv8)
    requires a & 0xF0 == 0 && (own == 0 || own == 1 || own == 2 || own == 4 || own == 8)
    ensures (a | own) & 0xF0 == 0
  {
  }

  lemma HoldsOneMore(before: seq<Held>, last: Held)
    ensures forall key :: HoldsKey(before + [last], key) <==> HoldsKey(before, key) || last.input.key == key
  {
    forall key ensures HoldsKey(before + [last], key) <==> HoldsKey(before, key) || last.input.key == key {
      assert (before + [last])[|before|] == last;
      if HoldsKey(before, key) {
        var h :| h in before && h.input.key == key;
        assert h in before + [last];
      }
    }
  }

  lemma BitOfUnion(a: bv8, own: bv8, m: bv8)
    requires m == 1 || m == 2 || m == 4 || m == 8
    requires own == 0 || own == 1 || own == 2 || own == 4 || own == 8
    ensures (a | own) & m != 0 <==> (a & m != 0) || own == m
  {
  }

  // The mask test of the source asks whether another held key stands for the same modifier.
  lemma MaskTells(pressed: seq<Held>, h: Held)
    ensures var own := KeyboardModifierMask(h.input.key);
            own != 0 && MaskOf(pressed) & own != 0 <==> Covered(pressed, h)
  {
    var own := KeyboardModifierMask(h.input.key);
    if own != 0 {
      MaskIsHeldModifiers(pressed, own);
    }
  }

  // ---------------------------------------------------------------- the events

  function Without(pressed: seq<Held>, i: nat): seq<Held>
    requires i < |pressed|
  {
    pressed[..i] + pressed[i + 1..]
  }

  function Up(h: Held): Held { h.(input := h.input.(pressed := false)) }

  function InputsOf(events: seq<Held>): (inputs: seq<KeyInput>)
    ensures |inputs| == |events| && forall i :: 0 <= i < |inputs| ==> inputs[i] == events[i].input
  {
    seq(|events|, i requires 0 <= i < |events| => events[i].input)
  }

  function PressEvents(pressed: seq<Held>, h: Held): seq<Held>
  {
    if HasCode(pressed, h.code) || Covered(pressed, h) then [] else [h]
  }

  function AfterPress(pressed: seq<Held>, h: Held): seq<Held>
  {
    if HasCode(pressed, h.code) then pressed else pressed + [h]
  }

  function ReleaseEvents(pressed: seq<Held>, code: string): seq<Held>
  {
    var i := Find(pressed, code);
    if i == |pressed| || Covered(Without(pressed, i), pressed[i]) then [] else [Up(pressed[i])]
  }

  function AfterRelease(pressed: seq<Held>, code: string): seq<Held>
  {
    var i := Find(pressed, code);
    if i == |pressed| then pressed else Without(pressed, i)
  }

  // From the last press back, every key but the modifiers that are among the `done` ones.
  function ReleaseAllEvents(pressed: seq<Held>, done: seq<Held>): seq<Held>
  {
    if pressed == [] then []
    else
      var before, last := pressed[..|pressed| - 1], pressed[|pressed| - 1];
      if Covered(done, last) then ReleaseAllEvents(before, done)
      else [Up(last)] + ReleaseAllEvents(before, done + [Up(last)])
  }

  class RemoteKeyboardState {
    var pressed: seq<Held>

    ghost predicate Valid()
      reads this
    {
      Distinct(pressed)
    }

    constructor ()
      ensures Valid() && pressed == []
    {
      pressed := [];
    }

    method ModifierMask() returns (mask: bv8)
      requires Valid()
      ensures mask == MaskOf(pressed)
    {
      mask := 0;
      var i := 0;
      while i < |pressed|
        invariant i <= |pressed| && mask == MaskOf(pressed[..i])
      {
        assert pressed[..i + 1][..i] == pressed[..i];
        mask := mask | KeyboardModifierMask(pressed[i].input.key);
        i := i + 1;
      }
      assert pressed[..|pressed|] == pressed;
    }

    // Whether a held key stands for the same modifier.
    method ModifierHeld(h: Held) returns (held: bool)
      requires Valid()
      ensures held == Covered(pressed, h)
    {
      var ownModifier := KeyboardModifierMask(h.input.key);
      var mask := ModifierMask();
      MaskTells(pressed, h);
      return ownModifier != 0 && mask & ownModifier != 0;
    }

    method Press(code: string, input: KeyInput) returns (inputs: seq<KeyInput>)
      requires Valid()
      modifies this
      ensures Valid() && pressed == AfterPress(old(pressed), Held(code, input))
      ensures inputs == InputsOf(PressEvents(old(pressed), Held(code, input)))
    {
      if HasCode(pressed, code) {
        return [];
      }
      var alreadyPressed := ModifierHeld(Held(code, input));
      pressed := pressed + [Held(code, input)];
      return if alreadyPressed then [] else [input];
    }

    method Release(code: string) returns (inputs: seq<KeyInput>)
      requires Valid()
      modifies this
      ensures Valid() && pressed == AfterRelease(old(pressed), code)
      ensures inputs == InputsOf(ReleaseEvents(old(pressed), code))
    {
      var i := Find(pressed, code);
      if i == |pressed| {
        return [];
      }
      var held := pressed[i];
      StillDistinct(pressed, i);
      pressed := Without(pressed, i);
      var stillHeld := ModifierHeld(held);
      if stillHeld {
        return [];
      }
      return [Up(held).input];
    }

    method ReleaseAll() returns (inputs: seq<KeyInput>)
      requires Valid()
      modifies this
      ensures Valid() && pressed == []
      ensures inputs == InputsOf(ReleaseAllEvents(old(pressed), []))
    {
      var releasedModifiers: bv8 := 0;
      ghost var events: seq<Held> := [];
      inputs := [];
      var i := |pressed|;
      assert pressed[..i] == pressed;
      while i > 0
        invariant 0 <= i <= |pressed| && pressed == old(pressed)
        invariant inputs == InputsOf(events) && releasedModifiers == MaskOf(events)
        invariant events + ReleaseAllEvents(pressed[..i], events) == ReleaseAllEvents(pressed, [])
      {
        i := i - 1;
        var held := pressed[i];
        var ownModifier := KeyboardModifierMask(held.input.key);
        assert pressed[..i + 1] == pressed[..i] + [held];
        ReleaseStepByMask(events, pressed[..i], held, releasedModifiers, ownModifier);
        if !(ownModifier != 0 && releasedModifiers & ownModifier != 0) {
          inputs := inputs + [Up(held).input];
          releasedModifiers := releasedModifiers | ownModifier;
          events := events + [Up(held)];
        }
      }
      pressed := [];
    }
  }

  // A step of releaseAll, decided by the mask of what was released so far.
  lemma ReleaseStepByMask(events: seq<Held>, rest: seq<Held>, h: Held, released: bv8, own: bv8)
    requires released == MaskOf(events) && own == KeyboardModifierMask(h.input.key)
    ensures var all := ReleaseAllEvents(rest + [h], events);
            if own != 0 && released & own != 0 then all == ReleaseAllEvents(rest, events)
            else
              && events + all == (events + [Up(h)]) + ReleaseAllEvents(rest, events + [Up(h)])
              && MaskOf(events + [Up(h)]) == released | own
              && InputsOf(events + [Up(h)]) == InputsOf(events) + [Up(h).input]
  {
    MaskTells(events, h);
    ReleaseStep(events, rest, h);
  }

  lemma ReleaseStep(events: seq<Held>, rest: seq<Held>, h: Held)
    ensures var all := ReleaseAllEvents(rest + [h], events);
            if Covered(events, h) then all == ReleaseAllEvents(rest, events)
            else
              && events + all == (events + [Up(h)]) + ReleaseAllEvents(rest, events + [Up(h)])
              && MaskOf(events + [Up(h)]) == MaskOf(events) | KeyboardModifierMask(h.input.key)
              && InputsOf(events + [Up(h)]) == InputsOf(events) + [Up(h).input]
  {
    assert (rest + [h])[..|rest|] == rest;
    if !Covered(events, h) {
      EventMore(events, Up(h));
      Regroup(events, [Up(h)], ReleaseAllEvents(rest, events + [Up(h)]));
    }
  }

  lemma EventMore(events: seq<Held>, e: Held)
    ensures MaskOf(events + [e]) == MaskOf(events) | KeyboardModifierMask(e.input.key)
    ensures InputsOf(events + [e]) == InputsOf(events) + [e.input]
  {
    assert (events + [e])[..|events|] == events;
  }

  lemma Regroup(a: seq<Held>, b: seq<Held>, c: seq<Held>)
    ensures a + (b + c) == (a + b) + c
  {
  }

  lemma StillDistinct(pressed: seq<Held>, i: nat)
    requires Distinct(pressed) && i < |pressed|
    ensures Distinct(Without(pressed, i))
  {
  }
}
