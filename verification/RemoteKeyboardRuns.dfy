// Whole runs of presses, releases and releaseAll: what the remote side sees of them, source by
// source.
module RemoteKeyboardRuns {
  import opened DispatchSpec
  import opened RemoteKeyboard

  datatype Note = Note(source: Source, pressed: bool)

  function NoteOf(h: Held): Note { Note(SourceOf(h), h.input.pressed) }

  function Notes(events: seq<Held>): (notes: seq<Note>)
    ensures |notes| == |events| && forall i :: 0 <= i < |notes| ==> notes[i] == NoteOf(events[i])
  {
    seq(|events|, i requires 0 <= i < |events| => NoteOf(events[i]))
  }

  // The last event of a source decides whether it is down remotely.
  predicate Down(log: seq<Note>, s: Source)
  {
    log != [] &&
    var last := log[|log| - 1];
    if last.source == s then last.pressed else Down(log[..|log| - 1], s)
  }

  // The source goes down only while it is up, and up only while it is down.
  predicate AlternatesOf(log: seq<Note>, s: Source)
  {
    log != [] ==>
      var before, last := log[..|log| - 1], log[|log| - 1];
      (last.source == s ==> last.pressed == !Down(before, s)) && AlternatesOf(before, s)
  }

  // The source alternates, and is down remotely exactly when some held key stands for it.
  predicate MirrorsOf(log: seq<Note>, pressed: seq<Held>, s: Source)
  {
    AlternatesOf(log, s) && (Down(log, s) <==> HasSource(pressed, s))
  }

  // How many held keys stand for a source, and by how many presses its events outweigh releases.
  function HeldCount(pressed: seq<Held>, s: Source): nat
  {
    if pressed == [] then 0
    else HeldCount(pressed[..|pressed| - 1], s) + (if SourceOf(pressed[|pressed| - 1]) == s then 1 else 0)
  }

  function Balance(log: seq<Note>, s: Source): int
  {
    if log == [] then 0
    else
      var last := log[|log| - 1];
      Balance(log[..|log| - 1], s) + (if last.source != s then 0 else if last.pressed then 1 else -1)
  }

  lemma Append(log: seq<Note>, n: Note, s: Source)
    ensures AlternatesOf(log + [n], s) <==> AlternatesOf(log, s) && (n.source == s ==> n.pressed == !Down(log, s))
    ensures Down(log + [n], s) <==> if s == n.source then n.pressed else Down(log, s)
    ensures Balance(log + [n], s) == Balance(log, s) + (if n.source != s then 0 else if n.pressed then 1 else -1)
  {
    assert (log + [n])[..|log|] == log;
  }

  lemma SourceMore(pressed: seq<Held>, h: Held, s: Source)
    ensures HasSource(pressed + [h], s) <==> HasSource(pressed, s) || SourceOf(h) == s
    ensures HeldCount(pressed + [h], s) == HeldCount(pressed, s) + (if SourceOf(h) == s then 1 else 0)
  {
    assert (pressed + [h])[..|pressed|] == pressed;
  }

  lemma {:induction false} HeldIsCounted(pressed: seq<Held>, s: Source)
    ensures HasSource(pressed, s) <==> HeldCount(pressed, s) > 0
  {
    if pressed != [] {
      HeldIsCounted(pressed[..|pressed| - 1], s);
    }
  }

  lemma {:induction false} CountWithout(pressed: seq<Held>, i: nat, s: Source)
    requires i < |pressed|
    ensures HeldCount(pressed, s) == HeldCount(Without(pressed, i), s) + (if SourceOf(pressed[i]) == s then 1 else 0)
  {
    var n := |pressed| - 1;
    if i < n {
      CountWithout(pressed[..n], i, s);
      assert Without(pressed, i)[..n - 1] == Without(pressed[..n], i);
    } else {
      assert Without(pressed, i) == pressed[..n];
    }
  }

  lemma SourceWithout(pressed: seq<Held>, i: nat, s: Source)
    requires i < |pressed|
    ensures HasSource(pressed, s) <==> HasSource(Without(pressed, i), s) || SourceOf(pressed[i]) == s
    ensures HeldCount(pressed, s) <= 1 && SourceOf(pressed[i]) == s ==> !HasSource(Without(pressed, i), s)
  {
    CountWithout(pressed, i, s);
    HeldIsCounted(pressed, s);
    HeldIsCounted(Without(pressed, i), s);
  }

  // ---------------------------------------------------------------- one step, one source

  // An ordinary key is held by at most one physical key.
  predicate Single(pressed: seq<Held>, s: Source) { s.Ordinary? ==> HeldCount(pressed, s) <= 1 }

  predicate InStep(log: seq<Note>, pressed: seq<Held>, s: Source)
  {
    MirrorsOf(log, pressed, s) && Single(pressed, s)
  }

  // Whatever the press sends for this source says "pressed", and no held key stands for it yet.
  predicate CleanPress(pressed: seq<Held>, h: Held, s: Source)
  {
    SourceOf(h) == s && PressEvents(pressed, h) != [] ==> h.input.pressed && !HasSource(pressed, s)
  }

  // A press leaves the remote side in step with the source exactly when it is clean.
  lemma PressMirrorsExactly(log: seq<Note>, pressed: seq<Held>, h: Held, s: Source)
    requires InStep(log, pressed, s)
    ensures var after := log + Notes(PressEvents(pressed, h));
            && (MirrorsOf(after, AfterPress(pressed, h), s) <==> CleanPress(pressed, h, s))
            && (CleanPress(pressed, h, s) ==> InStep(after, AfterPress(pressed, h), s))
  {
    SourceMore(pressed, h, s);
    HeldIsCounted(pressed, s);
    if PressEvents(pressed, h) == [] {
      assert log + Notes([]) == log;
    } else {
      assert Notes([h]) == [NoteOf(h)];
      Append(log, NoteOf(h), s);
    }
  }

  lemma ReleaseMirrors(log: seq<Note>, pressed: seq<Held>, code: string, s: Source)
    requires InStep(log, pressed, s)
    ensures InStep(log + Notes(ReleaseEvents(pressed, code)), AfterRelease(pressed, code), s)
  {
    var i := Find(pressed, code);
    if i == |pressed| {
      assert log + Notes([]) == log;
    } else {
      var h := pressed[i];
      CountWithout(pressed, i, s);
      SourceWithout(pressed, i, s);
      if ReleaseEvents(pressed, code) == [] {
        assert log + Notes([]) == log;
      } else {
        assert Notes([Up(h)]) == [NoteOf(Up(h))];
        Append(log, NoteOf(Up(h)), s);
      }
    }
  }

  lemma NotesMore(log: seq<Note>, h: Held, rest: seq<Held>)
    ensures log + Notes([h] + rest) == (log + [NoteOf(h)]) + Notes(rest)
  {
  }

  // What a releaseAll that has done `done` still has to release.
  predicate Owed(pressed: seq<Held>, done: seq<Held>, s: Source)
  {
    HasSource(pressed, s) && !(s.Modifier? && HasSource(done, s))
  }

  // If only owed sources are down, releasing them leaves the source up; if exactly they are, it
  // also alternates.
  lemma {:induction false} ReleaseAllFrees(log: seq<Note>, pressed: seq<Held>, done: seq<Held>, s: Source)
    requires Down(log, s) ==> Owed(pressed, done, s)
    ensures var after := log + Notes(ReleaseAllEvents(pressed, done));
            && !Down(after, s)
            && (AlternatesOf(log, s) && (Down(log, s) <==> Owed(pressed, done, s)) && Single(pressed, s) ==>
                AlternatesOf(after, s))
    decreases |pressed|
  {
    if pressed == [] {
      assert log + Notes([]) == log;
    } else {
      var before, last := pressed[..|pressed| - 1], pressed[|pressed| - 1];
      HeldIsCounted(before, s);
      if Covered(done, last) {
        ReleaseAllFrees(log, before, done, s);
      } else {
        var up := Up(last);
        SourceMore(done, up, s);
        Append(log, NoteOf(up), s);
        ReleaseAllFrees(log + [NoteOf(up)], before, done + [up], s);
        NotesMore(log, up, ReleaseAllEvents(before, done + [up]));
      }
    }
  }

  lemma ReleaseAllMirrors(log: seq<Note>, pressed: seq<Held>, s: Source)
    requires InStep(log, pressed, s)
    ensures InStep(log + Notes(ReleaseAllEvents(pressed, [])), [], s)
  {
    ReleaseAllFrees(log, pressed, [], s);
  }

  // ---------------------------------------------------------------- runs

  datatype Action = Press(code: string, input: KeyInput) | Release(code: string) | ReleaseAll

  datatype Keyboard = Keyboard(pressed: seq<Held>, log: seq<Note>)

  function After(k: Keyboard, a: Action): Keyboard
  {
    match a
    case Press(code, input) =>
      Keyboard(AfterPress(k.pressed, Held(code, input)), k.log + Notes(PressEvents(k.pressed, Held(code, input))))
    case Release(code) => Keyboard(AfterRelease(k.pressed, code), k.log + Notes(ReleaseEvents(k.pressed, code)))
    case ReleaseAll => Keyboard([], k.log + Notes(ReleaseAllEvents(k.pressed, [])))
  }

  function Run(actions: seq<Action>): Keyboard
  {
    if actions == [] then Keyboard([], []) else After(Run(actions[..|actions| - 1]), actions[|actions| - 1])
  }

  // At every moment of the run the remote side mirrors the source.
  predicate MirrorsThroughout(actions: seq<Action>, s: Source)
  {
    MirrorsOf(Run(actions).log, Run(actions).pressed, s)
    && (actions != [] ==> MirrorsThroughout(actions[..|actions| - 1], s))
  }

  // No press of the run sends a release, or meets a held key that stands for the same source.
  predicate CleanThroughout(actions: seq<Action>, s: Source)
  {
    actions != [] ==>
      var before, last := actions[..|actions| - 1], actions[|actions| - 1];
      && CleanThroughout(before, s)
      && (last.Press? ==> CleanPress(Run(before).pressed, Held(last.code, last.input), s))
  }

  lemma {:induction false} CleanRunsAreInStep(actions: seq<Action>, s: Source)
    requires CleanThroughout(actions, s)
    ensures InStep(Run(actions).log, Run(actions).pressed, s) && MirrorsThroughout(actions, s)
  {
    if actions != [] {
      var before, last := actions[..|actions| - 1], actions[|actions| - 1];
      CleanRunsAreInStep(before, s);
      var k := Run(before);
      match last {
        case Press(code, input) => PressMirrorsExactly(k.log, k.pressed, Held(code, input), s);
        case Release(code) => ReleaseMirrors(k.log, k.pressed, code, s);
        case ReleaseAll => ReleaseAllMirrors(k.log, k.pressed, s);
      }
    }
  }

  // A source strictly alternates and is down exactly while held, throughout a run, if and only if
  // no press of the run meets it already held by another key (or says "released").
  lemma {:induction false} MirrorsExactly(actions: seq<Action>, s: Source)
    ensures MirrorsThroughout(actions, s) <==> CleanThroughout(actions, s)
  {
    if CleanThroughout(actions, s) {
      CleanRunsAreInStep(actions, s);
    } else {
      var before, last := actions[..|actions| - 1], actions[|actions| - 1];
      MirrorsExactly(before, s);
      if CleanThroughout(before, s) {
        CleanRunsAreInStep(before, s);
        PressMirrorsExactly(Run(before).log, Run(before).pressed, Held(last.code, last.input), s);
      }
    }
  }

  // What the controller's presses always do.
  ghost predicate Presses(actions: seq<Action>)
  {
    forall a <- actions :: a.Press? ==> a.input.pressed
  }

  lemma {:induction false} ModifiersAreClean(actions: seq<Action>, mask: bv8)
    requires Presses(actions)
    ensures CleanThroughout(actions, Modifier(mask))
  {
    if actions != [] {
      assert actions[|actions| - 1] in actions;
      ModifiersAreClean(actions[..|actions| - 1], mask);
    }
  }

  // A modifier mirrors the held keys in every run, whichever keys share it.
  lemma ModifiersAlwaysMirror(actions: seq<Action>, mask: bv8)
    requires Presses(actions)
    ensures MirrorsOf(Run(actions).log, Run(actions).pressed, Modifier(mask))
  {
    ModifiersAreClean(actions, mask);
    CleanRunsAreInStep(actions, Modifier(mask));
  }

  // ---------------------------------------------------------------- without the condition

  lemma {:induction false} ReleaseAllBalance(log: seq<Note>, pressed: seq<Held>, done: seq<Held>, s: Source)
    requires s.Ordinary?
    ensures Balance(log + Notes(ReleaseAllEvents(pressed, done)), s) == Balance(log, s) - HeldCount(pressed, s)
    decreases |pressed|
  {
    if pressed == [] {
      assert log + Notes([]) == log;
    } else {
      var before, last := pressed[..|pressed| - 1], pressed[|pressed| - 1];
      if Covered(done, last) {
        ReleaseAllBalance(log, before, done, s);
      } else {
        Append(log, NoteOf(Up(last)), s);
        ReleaseAllBalance(log + [NoteOf(Up(last))], before, done + [Up(last)], s);
        NotesMore(log, Up(last), ReleaseAllEvents(before, done + [Up(last)]));
      }
    }
  }

  lemma PressBalance(k: Keyboard, h: Held, s: Source)
    requires s.Ordinary? && Balance(k.log, s) == HeldCount(k.pressed, s) && h.input.pressed
    ensures Balance(k.log + Notes(PressEvents(k.pressed, h)), s) == HeldCount(AfterPress(k.pressed, h), s)
  {
    SourceMore(k.pressed, h, s);
    if PressEvents(k.pressed, h) == [] {
      assert k.log + Notes([]) == k.log;
    } else {
      assert Notes([h]) == [NoteOf(h)];
      Append(k.log, NoteOf(h), s);
    }
  }

  lemma ReleaseBalance(k: Keyboard, code: string, s: Source)
    requires s.Ordinary? && Balance(k.log, s) == HeldCount(k.pressed, s)
    ensures Balance(k.log + Notes(ReleaseEvents(k.pressed, code)), s) == HeldCount(AfterRelease(k.pressed, code), s)
  {
    var i := Find(k.pressed, code);
    if i < |k.pressed| {
      CountWithout(k.pressed, i, s);
    }
    if ReleaseEvents(k.pressed, code) == [] {
      assert k.log + Notes([]) == k.log;
    } else {
      var up := Up(k.pressed[i]);
      assert Notes([up]) == [NoteOf(up)];
      Append(k.log, NoteOf(up), s);
    }
  }

  // Even where two physical keys share a name, every press sent is paired by a release: the
  // surplus of presses is the number of keys held.
  lemma {:induction false} OrdinaryKeysBalance(actions: seq<Action>, key: string, character: string)
    requires Presses(actions)
    ensures Balance(Run(actions).log, Ordinary(key, character)) ==
            HeldCount(Run(actions).pressed, Ordinary(key, character))
  {
    if actions != [] {
      assert actions[|actions| - 1] in actions;
      OrdinaryKeysBalance(actions[..|actions| - 1], key, character);
      var k, s := Run(actions[..|actions| - 1]), Ordinary(key, character);
      match actions[|actions| - 1] {
        case Press(code, input) => PressBalance(k, Held(code, input), s);
        case Release(code) => ReleaseBalance(k, code, s);
        case ReleaseAll => ReleaseAllBalance(k.log, k.pressed, [], s);
      }
    }
  }

  lemma PressedDownIsHeld(k: Keyboard, h: Held, s: Source)
    requires Down(k.log, s) ==> HasSource(k.pressed, s)
    ensures Down(k.log + Notes(PressEvents(k.pressed, h)), s) ==> HasSource(AfterPress(k.pressed, h), s)
  {
    SourceMore(k.pressed, h, s);
    if PressEvents(k.pressed, h) == [] {
      assert k.log + Notes([]) == k.log;
    } else {
      assert Notes([h]) == [NoteOf(h)];
      Append(k.log, NoteOf(h), s);
    }
  }

  lemma ReleasedDownIsHeld(k: Keyboard, code: string, s: Source)
    requires Down(k.log, s) ==> HasSource(k.pressed, s)
    ensures Down(k.log + Notes(ReleaseEvents(k.pressed, code)), s) ==> HasSource(AfterRelease(k.pressed, code), s)
  {
    var i := Find(k.pressed, code);
    if i < |k.pressed| {
      SourceWithout(k.pressed, i, s);
    }
    if ReleaseEvents(k.pressed, code) == [] {
      assert k.log + Notes([]) == k.log;
    } else {
      var up := Up(k.pressed[i]);
      assert Notes([up]) == [NoteOf(up)];
      Append(k.log, NoteOf(up), s);
    }
  }

  // In every run, whatever is down remotely is held.
  lemma {:induction false} DownIsHeld(actions: seq<Action>, s: Source)
    ensures Down(Run(actions).log, s) ==> HasSource(Run(actions).pressed, s)
  {
    if actions != [] {
      var k := Run(actions[..|actions| - 1]);
      DownIsHeld(actions[..|actions| - 1], s);
      match actions[|actions| - 1] {
        case Press(code, input) => PressedDownIsHeld(k, Held(code, input), s);
        case Release(code) => ReleasedDownIsHeld(k, code, s);
        case ReleaseAll => ReleaseAllFrees(k.log, k.pressed, [], s);
      }
    }
  }

  // After releaseAll nothing is down, in every run.
  lemma NothingDownAfterReleaseAll(actions: seq<Action>, s: Source)
    requires actions != [] && actions[|actions| - 1].ReleaseAll?
    ensures !Down(Run(actions).log, s)
  {
    DownIsHeld(actions, s);
  }

  lemma RunOne(before: seq<Action>, a: Action)
    ensures Run(before + [a]) == After(Run(before), a)
  {
    assert (before + [a])[..|before|] == before;
  }

  // Two physical keys with one name and character.
  lemma TwoPresses(one: Held, two: Held)
    requires one.code != two.code && one.input == two.input && one.input.pressed && SourceOf(one).Ordinary?
    ensures var n := NoteOf(one);
            && After(Keyboard([], []), Press(one.code, one.input)) == Keyboard([one], [n])
            && After(Keyboard([one], [n]), Press(two.code, two.input)) == Keyboard([one, two], [n, n])
  {
    assert Find([one], two.code) == 1;
  }

  lemma FirstReleased(one: Held, two: Held)
    requires one.code != two.code && one.input == two.input && SourceOf(one).Ordinary?
    ensures var n := NoteOf(one);
            After(Keyboard([one, two], [n, n]), Release(one.code)) == Keyboard([two], [n, n, Note(n.source, false)])
  {
    var both := [one, two];
    assert both[..1] == [one];
    assert Find(both, one.code) == 0;
    assert both[..0] == [] && both[1..] == [two] && Without(both, 0) == [] + [two];
  }

  // Enter and the Enter of the number pad are both sent as "enter": the second goes down while the
  // first is down, and the release of the first is sent while the second is still held.
  lemma TwoEnterKeys()
    ensures var enter := Key("enter", "", true, 0); var s := Ordinary("enter", "");
            var both, one := Run([Press("Enter", enter), Press("NumpadEnter", enter)]),
                             Run([Press("Enter", enter), Press("NumpadEnter", enter), Release("Enter")]);
            && both.log == [Note(s, true), Note(s, true)] && !AlternatesOf(both.log, s)
            && one.log == [Note(s, true), Note(s, true), Note(s, false)]
            && HasSource(one.pressed, s) && !Down(one.log, s)
  {
    var enter: KeyInput, s := Key("enter", "", true, 0), Ordinary("enter", "");
    var first, second := Held("Enter", enter), Held("NumpadEnter", enter);
    var down := Note(s, true);
    assert |"Enter"| != |"NumpadEnter"|;
    TwoPresses(first, second);
    FirstReleased(first, second);
    RunOne([], Press("Enter", enter));
    RunOne([Press("Enter", enter)], Press("NumpadEnter", enter));
    RunOne([Press("Enter", enter), Press("NumpadEnter", enter)], Release("Enter"));
    assert [] + [Press("Enter", enter)] == [Press("Enter", enter)];
    assert [Press("Enter", enter)] + [Press("NumpadEnter", enter)] ==
        [Press("Enter", enter), Press("NumpadEnter", enter)];
    assert [Press("Enter", enter), Press("NumpadEnter", enter)] + [Release("Enter")]
        == [Press("Enter", enter), Press("NumpadEnter", enter), Release("Enter")];
    assert [down] + [down] == [down, down] && [down, down] + [Note(s, false)] == [down, down, Note(s, false)];
    Append([down], down, s);
    Append([down, down], Note(s, false), s);
  }

  // The keys that a releaseAll releases, from the last press back.
  function ReleaseOrder(pressed: seq<Held>, done: seq<Held>): seq<nat>
  {
    if pressed == [] then []
    else
      var before, last := pressed[..|pressed| - 1], pressed[|pressed| - 1];
      if Covered(done, last) then ReleaseOrder(before, done)
      else [|pressed| - 1] + ReleaseOrder(before, done + [Up(last)])
  }

  lemma {:induction false} ReleasedInReverse(pressed: seq<Held>, done: seq<Held>)
    ensures var order, events := ReleaseOrder(pressed, done), ReleaseAllEvents(pressed, done);
            && |order| == |events|
            && (forall k :: 0 <= k < |order| ==> order[k] < |pressed| && events[k] == Up(pressed[order[k]]))
            && (forall j, k :: 0 <= j < k < |order| ==> order[j] > order[k])
  {
    if pressed != [] {
      var before, last := pressed[..|pressed| - 1], pressed[|pressed| - 1];
      ReleasedInReverse(before, done);
      ReleasedInReverse(before, done + [Up(last)]);
    }
  }
}
