// What apps/windows-ui/src/controller.ts hands to the dispatcher for held keys and buttons: each
// press and release with the input context it was sent under.
module HeldInput {
  import opened Options
  import opened InputContexts
  import opened DispatchSpec
  import opened RemoteKeyboard
  import opened RemoteKeyboardRuns
  import opened HeldButtons

  datatype Fired = Fired(note: Note, context: RemoteInputContext)

  function NotesOf(log: seq<Fired>): (notes: seq<Note>)
    ensures |notes| == |log| && forall i :: 0 <= i < |notes| ==> notes[i] == log[i].note
  {
    seq(|log|, i requires 0 <= i < |log| => log[i].note)
  }

  function Tagged(notes: seq<Note>, context: RemoteInputContext): (r: seq<Fired>)
    ensures |r| == |notes| && forall i :: 0 <= i < |r| ==> r[i] == Fired(notes[i], context)
  {
    seq(|notes|, i requires 0 <= i < |notes| => Fired(notes[i], context))
  }

  // What is sent for these notes while input is held under `context`: nothing without one.
  function FiredUnder(notes: seq<Note>, context: Option<RemoteInputContext>): seq<Fired>
  {
    if context.Some? then Tagged(notes, context.value) else []
  }

  // The context under which a source was last heard of.
  function LastContext(log: seq<Fired>, s: Source): Option<RemoteInputContext>
  {
    if log == [] then None
    else if log[|log| - 1].note.source == s then Some(log[|log| - 1].context)
    else LastContext(log[..|log| - 1], s)
  }

  // A release goes out under the stream and epoch under which its source was last heard of.
  ghost predicate ContextsKept(log: seq<Fired>)
  {
    log != [] ==>
      var before, last := log[..|log| - 1], log[|log| - 1];
      ContextsKept(before) && (!last.note.pressed ==> LastContext(before, last.note.source) == Some(last.context))
  }

  // The latest press of a source that was heard of, with nothing but releases of it behind.
  lemma {:induction false} LastPress(log: seq<Fired>, s: Source) returns (i: nat)
    requires ContextsKept(log) && LastContext(log, s).Some?
    ensures i < |log| && log[i].note == Note(s, true) && LastContext(log, s) == Some(log[i].context)
    ensures forall k :: i < k < |log| && log[k].note.source == s ==> log[k] == Fired(Note(s, false), log[i].context)
    ensures Down(NotesOf(log), s) ==> forall k :: i < k < |log| ==> log[k].note.source != s
  {
    var n := |log| - 1;
    if log[n].note == Note(s, true) {
      i := n;
    } else {
      assert NotesOf(log)[..n] == NotesOf(log[..n]);
      i := LastPress(log[..n], s);
    }
  }

  lemma {:induction false} AlternatesAt(log: seq<Fired>, j: nat)
    requires j < |log| && AlternatesOf(NotesOf(log), log[j].note.source)
    ensures log[j].note.pressed == !Down(NotesOf(log[..j]), log[j].note.source)
  {
    var n := |log| - 1;
    assert NotesOf(log)[..n] == NotesOf(log[..n]);
    if j < n {
      AlternatesAt(log[..n], j);
      assert log[..n][..j] == log[..j];
    }
  }

  // Each release has a press of the same key, modifier or button before it, under the same stream
  // and epoch, with nothing but releases of that source between; and nothing of it at all if the
  // source alternates.
  lemma {:induction false} ReleaseAnswersPress(log: seq<Fired>, j: nat) returns (i: nat)
    requires ContextsKept(log) && j < |log| && !log[j].note.pressed
    ensures i < j && log[i] == Fired(Note(log[j].note.source, true), log[j].context)
    ensures forall k :: i < k < j && log[k].note.source == log[j].note.source ==> log[k] == log[j]
    ensures AlternatesOf(NotesOf(log), log[j].note.source) ==>
            forall k :: i < k < j ==> log[k].note.source != log[j].note.source
  {
    KeptBefore(log, j);
    i := LastPress(log[..j], log[j].note.source);
    if AlternatesOf(NotesOf(log), log[j].note.source) {
      AlternatesAt(log, j);
    }
  }

  lemma {:induction false} KeptBefore(log: seq<Fired>, j: nat)
    requires ContextsKept(log) && j < |log|
    ensures ContextsKept(log[..j])
    ensures !log[j].note.pressed ==> LastContext(log[..j], log[j].note.source) == Some(log[j].context)
  {
    var n := |log| - 1;
    if j < n {
      KeptBefore(log[..n], j);
      assert log[..n][..j] == log[..j];
    }
  }

  lemma FireOne(log: seq<Fired>, n: Note, context: RemoteInputContext)
    ensures NotesOf(log + [Fired(n, context)]) == NotesOf(log) + [n]
    ensures forall s ::
            LastContext(log + [Fired(n, context)], s) == if s == n.source then Some(context) else LastContext(log, s)
    ensures ContextsKept(log + [Fired(n, context)]) <==>
            ContextsKept(log) && (!n.pressed ==> LastContext(log, n.source) == Some(context))
  {
    assert (log + [Fired(n, context)])[..|log|] == log;
  }

  lemma TagMore(log: seq<Fired>, notes: seq<Note>, n: Note, context: RemoteInputContext)
    ensures log + Tagged(notes + [n], context) == (log + Tagged(notes, context)) + [Fired(n, context)]
    ensures NotesOf(log) + (notes + [n]) == (NotesOf(log) + notes) + [n]
  {
  }

  ghost predicate UnderContext(log: seq<Fired>, notes: seq<Note>, context: RemoteInputContext)
  {
    forall n <- notes :: !n.pressed ==> LastContext(log, n.source) == Some(context)
  }

  // What a batch of events sent under one context leaves behind.
  ghost predicate SentUnder(log: seq<Fired>, after: seq<Fired>, notes: seq<Note>, context: RemoteInputContext)
  {
    && NotesOf(after) == NotesOf(log) + notes && ContextsKept(after)
    && (forall s :: LastContext(after, s) == LastContext(log, s) || LastContext(after, s) == Some(context))
    && (forall n <- notes :: LastContext(after, n.source) == Some(context))
  }

  lemma SendMore(log: seq<Fired>, so: seq<Fired>, notes: seq<Note>, n: Note, context: RemoteInputContext)
    requires SentUnder(log, so, notes, context)
    requires !n.pressed ==> LastContext(log, n.source) == Some(context)
    ensures SentUnder(log, so + [Fired(n, context)], notes + [n], context)
  {
    FireOne(so, n, context);
    assert NotesOf(log) + (notes + [n]) == (NotesOf(log) + notes) + [n];
  }

  // Events that are all sent under `context`, where whatever they release was heard of under it.
  lemma {:induction false} FireAll(log: seq<Fired>, notes: seq<Note>, context: RemoteInputContext)
    requires ContextsKept(log) && UnderContext(log, notes, context)
    ensures SentUnder(log, log + Tagged(notes, context), notes, context)
    decreases |notes|
  {
    if notes == [] {
      assert log + Tagged(notes, context) == log && NotesOf(log) + notes == NotesOf(log);
    } else {
      var before, last := notes[..|notes| - 1], notes[|notes| - 1];
      assert notes == before + [last];
      TagMore(log, before, last, context);
      FireAll(log, before, context);
      SendMore(log, log + Tagged(before, context), before, last, context);
    }
  }

  // ---------------------------------------------------------------- keys

  // Whatever is held was last heard of under the one held context.
  ghost predicate KeysKept(log: seq<Fired>, pressed: seq<Held>, context: Option<RemoteInputContext>)
  {
    && ContextsKept(log)
    && (pressed != [] ==> context.Some?)
    && (forall s :: HasSource(pressed, s) ==> LastContext(log, s) == context)
  }

  lemma {:induction false} ReleasedWereHeld(pressed: seq<Held>, done: seq<Held>)
    ensures forall e <- ReleaseAllEvents(pressed, done) :: HasSource(pressed, SourceOf(e)) && !e.input.pressed
    decreases |pressed|
  {
    if pressed != [] {
      var before, last := pressed[..|pressed| - 1], pressed[|pressed| - 1];
      ReleasedWereHeld(before, done);
      ReleasedWereHeld(before, done + [Up(last)]);
    }
  }

  lemma PressKeeps(
      log: seq<Fired>, pressed: seq<Held>, held: Option<RemoteInputContext>, h: Held, context: RemoteInputContext)
    requires KeysKept(log, pressed, held) && h.input.pressed
    requires pressed != [] ==> held == Some(context)
    ensures KeysKept(log + Tagged(Notes(PressEvents(pressed, h)), context), AfterPress(pressed, h), Some(context))
  {
    FireAll(log, Notes(PressEvents(pressed, h)), context);
    forall s ensures HasSource(pressed + [h], s) <==> HasSource(pressed, s) || SourceOf(h) == s {
      SourceMore(pressed, h, s);
    }
    if PressEvents(pressed, h) != [] {
      assert NoteOf(h) in Notes([h]);
    }
  }

  lemma ReleasedIsHeld(pressed: seq<Held>, code: string)
    ensures forall s :: HasSource(AfterRelease(pressed, code), s) ==> HasSource(pressed, s)
    ensures forall e <- ReleaseEvents(pressed, code) :: HasSource(pressed, SourceOf(e)) && !e.input.pressed
  {
    var i := Find(pressed, code);
    if i < |pressed| {
      forall s ensures HasSource(pressed, s) <==> HasSource(Without(pressed, i), s) || SourceOf(pressed[i]) == s {
        SourceWithout(pressed, i, s);
      }
    }
  }

  lemma ReleaseKeeps(log: seq<Fired>, pressed: seq<Held>, code: string, context: RemoteInputContext)
    requires KeysKept(log, pressed, Some(context))
    ensures KeysKept(log + Tagged(Notes(ReleaseEvents(pressed, code)), context), AfterRelease(pressed, code),
            Some(context))
  {
    ReleasedIsHeld(pressed, code);
    FireAll(log, Notes(ReleaseEvents(pressed, code)), context);
  }

  lemma ReleaseAllKeeps(log: seq<Fired>, pressed: seq<Held>, context: RemoteInputContext)
    requires KeysKept(log, pressed, Some(context))
    ensures KeysKept(log + Tagged(Notes(ReleaseAllEvents(pressed, [])), context), [], None)
  {
    ReleasedWereHeld(pressed, []);
    FireAll(log, Notes(ReleaseAllEvents(pressed, [])), context);
  }

  // ---------------------------------------------------------------- buttons

  ghost predicate ButtonsKept(log: seq<Fired>, buttons: seq<string>, context: Option<RemoteInputContext>)
  {
    && ContextsKept(log) && ButtonsInStep(Buttons(buttons, NotesOf(log)))
    && (buttons != [] ==> context.Some?)
    && (forall b <- buttons :: LastContext(log, Button(b)) == context)
  }

  lemma ButtonDown(
      log: seq<Fired>, buttons: seq<string>, held: Option<RemoteInputContext>, b: string, context: RemoteInputContext)
    requires ButtonsKept(log, buttons, held) && (buttons != [] ==> held == Some(context))
    ensures ButtonsKept(log + [Fired(Note(Button(b), true), context)], WithButton(buttons, b), Some(context))
  {
    FireOne(log, Note(Button(b), true), context);
    PressInStep(Buttons(buttons, NotesOf(log)), b);
  }

  lemma ButtonUp(log: seq<Fired>, buttons: seq<string>, context: RemoteInputContext, b: string)
    requires ButtonsKept(log, buttons, Some(context)) && b in buttons
    ensures ButtonsKept(log + [Fired(Note(Button(b), false), context)], WithoutButton(buttons, b), Some(context))
  {
    FireOne(log, Note(Button(b), false), context);
    ReleaseInStep(Buttons(buttons, NotesOf(log)), b);
  }

  lemma FirstButtonUp(log: seq<Fired>, buttons: seq<string>, context: RemoteInputContext)
    requires buttons != [] && ButtonsKept(log, buttons, Some(context))
    ensures ButtonsKept(log + [Fired(Note(Button(buttons[0]), false), context)], buttons[1..], Some(context))
  {
    ButtonUp(log, buttons, context, buttons[0]);
    assert WithoutButton(buttons, buttons[0]) == buttons[1..];
  }

  // ---------------------------------------------------------------- the runs behind the logs

  // The key log is that of a run of the keyboard, whose presses all say "pressed".
  ghost predicate IsKeyRun(actions: seq<Action>, pressed: seq<Held>, log: seq<Fired>)
  {
    Presses(actions) && Run(actions) == Keyboard(pressed, NotesOf(log))
  }

  ghost predicate IsButtonRun(actions: seq<ButtonAction>, buttons: seq<string>, log: seq<Fired>)
  {
    RunButtons(actions) == Buttons(buttons, NotesOf(log))
  }

  lemma KeyRunMore(actions: seq<Action>, a: Action, pressed: seq<Held>, log: seq<Fired>)
    requires IsKeyRun(actions, pressed, log) && (a.Press? ==> a.input.pressed)
    ensures Presses(actions + [a]) && Run(actions + [a]) == RemoteKeyboardRuns.After(Keyboard(pressed, NotesOf(log)), a)
  {
    RunOne(actions, a);
  }

  lemma TaggedNotes(log: seq<Fired>, notes: seq<Note>, context: RemoteInputContext)
    ensures NotesOf(log + Tagged(notes, context)) == NotesOf(log) + notes
  {
  }

  lemma ReleaseFired(log: seq<Fired>, buttons: seq<string>, i: nat, context: RemoteInputContext)
    requires i < |buttons|
    ensures log + Tagged(Releases(buttons[..i + 1]), context)
            == (log + Tagged(Releases(buttons[..i]), context)) + [Fired(Note(Button(buttons[i]), false), context)]
    ensures buttons[i..][0] == buttons[i] && buttons[i..][1..] == buttons[i + 1..]
  {
  }

  lemma ButtonRunMore(actions: seq<ButtonAction>, a: ButtonAction)
    ensures RunButtons(actions + [a]) == AfterButton(RunButtons(actions), a)
  {
    assert (actions + [a])[..|actions|] == actions;
  }

  lemma PressRuns(actions: seq<Action>, pressed: seq<Held>, log: seq<Fired>, h: Held, context: RemoteInputContext)
    requires IsKeyRun(actions, pressed, log) && h.input.pressed
    ensures IsKeyRun(actions + [Press(h.code, h.input)], AfterPress(pressed, h),
                     log + Tagged(Notes(PressEvents(pressed, h)), context))
  {
    KeyRunMore(actions, Press(h.code, h.input), pressed, log);
    TaggedNotes(log, Notes(PressEvents(pressed, h)), context);
    assert Held(h.code, h.input) == h;
  }

  // What letting a button go sends: its release, if it is held.
  function FiredRelease(buttons: seq<string>, context: Option<RemoteInputContext>, b: string): seq<Fired>
    requires buttons != [] ==> context.Some?
  {
    if b in buttons then [Fired(Note(Button(b), false), context.value)] else []
  }

  lemma ButtonReleaseRuns(
      actions: seq<ButtonAction>, buttons: seq<string>, context: Option<RemoteInputContext>, log: seq<Fired>, b: string)
    requires ButtonsKept(log, buttons, context) && IsButtonRun(actions, buttons, log)
    ensures buttons != [] ==> context.Some?
    ensures IsButtonRun(
              actions + [ButtonReleased(b)], WithoutButton(buttons, b), log + FiredRelease(buttons, context, b))
  {
    ButtonRunMore(actions, ButtonReleased(b));
    if b in buttons {
      FireOne(log, Note(Button(b), false), context.value);
    } else {
      assert log + [] == log;
    }
  }

  lemma ButtonReleaseKeeps(buttons: seq<string>, context: Option<RemoteInputContext>, log: seq<Fired>, b: string)
    requires ButtonsKept(log, buttons, context)
    ensures buttons != [] ==> context.Some?
    ensures ButtonsKept(log + FiredRelease(buttons, context, b), WithoutButton(buttons, b),
                        if WithoutButton(buttons, b) == [] then None else context)
  {
    if b in buttons {
      ButtonUp(log, buttons, context.value, b);
    } else {
      assert log + [] == log;
    }
  }
}
