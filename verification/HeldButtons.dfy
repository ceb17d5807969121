// The `pressedButtons` set of apps/windows-ui/src/controller.ts and the button events sent for it.
module HeldButtons {
  import opened RemoteKeyboard
  import opened RemoteKeyboardRuns

  // The Set keeps insertion order.
  function WithButton(buttons: seq<string>, b: string): seq<string> { if b in buttons then buttons else buttons + [b] }

  function IndexOf(buttons: seq<string>, b: string): (i: nat)
    requires b in buttons
    ensures i < |buttons| && buttons[i] == b
  {
    if buttons[0] == b then 0 else 1 + IndexOf(buttons[1..], b)
  }

  function WithoutButton(buttons: seq<string>, b: string): seq<string>
  {
    if b in buttons then buttons[..IndexOf(buttons, b)] + buttons[IndexOf(buttons, b) + 1..] else buttons
  }

  ghost predicate DistinctButtons(buttons: seq<string>)
  {
    forall i, j :: 0 <= i < j < |buttons| ==> buttons[i] != buttons[j]
  }

  function Releases(buttons: seq<string>): (notes: seq<Note>)
    ensures |notes| == |buttons| && forall i :: 0 <= i < |notes| ==> notes[i] == Note(Button(buttons[i]), false)
  {
    seq(|buttons|, i requires 0 <= i < |buttons| => Note(Button(buttons[i]), false))
  }

  // ---------------------------------------------------------------- runs

  datatype ButtonAction = ButtonPressed(button: string) | ButtonReleased(button: string) | ButtonsReleased

  datatype Buttons = Buttons(held: seq<string>, log: seq<Note>)

  function AfterButton(k: Buttons, a: ButtonAction): Buttons
  {
    match a
    case ButtonPressed(b) => Buttons(WithButton(k.held, b), k.log + [Note(Button(b), true)])
    case ButtonReleased(b) =>
      if b in k.held then Buttons(WithoutButton(k.held, b), k.log + [Note(Button(b), false)]) else k
    case ButtonsReleased => Buttons([], k.log + Releases(k.held))
  }

  function RunButtons(actions: seq<ButtonAction>): Buttons
  {
    if actions == [] then Buttons([], [])
    else AfterButton(RunButtons(actions[..|actions| - 1]), actions[|actions| - 1])
  }

  // A button is down remotely exactly while it is in the set.
  ghost predicate ButtonsInStep(k: Buttons)
  {
    DistinctButtons(k.held) && forall b :: Down(k.log, Button(b)) <==> b in k.held
  }

  lemma PressInStep(k: Buttons, b: string)
    requires ButtonsInStep(k)
    ensures ButtonsInStep(AfterButton(k, ButtonPressed(b)))
  {
    forall c ensures Down(k.log + [Note(Button(b), true)], Button(c)) <==> c in WithButton(k.held, b) {
      Append(k.log, Note(Button(b), true), Button(c));
    }
  }

  lemma ReleaseInStep(k: Buttons, b: string)
    requires ButtonsInStep(k)
    ensures ButtonsInStep(AfterButton(k, ButtonReleased(b)))
    ensures AlternatesOf(k.log, Button(b)) ==> AlternatesOf(AfterButton(k, ButtonReleased(b)).log, Button(b))
  {
    if b in k.held {
      forall c ensures Down(k.log + [Note(Button(b), false)], Button(c)) <==> c in WithoutButton(k.held, b) {
        Append(k.log, Note(Button(b), false), Button(c));
      }
      Append(k.log, Note(Button(b), false), Button(b));
    }
  }

  lemma ReleasesMore(log: seq<Note>, first: string, rest: seq<string>)
    ensures log + Releases([first] + rest) == (log + [Note(Button(first), false)]) + Releases(rest)
  {
  }

  lemma ReleasesLast(log: seq<Note>, buttons: seq<string>, i: nat)
    requires i < |buttons|
    ensures log + Releases(buttons[..i + 1]) == (log + Releases(buttons[..i])) + [Note(Button(buttons[i]), false)]
    ensures buttons[i..][0] == buttons[i] && buttons[i..][1..] == buttons[i + 1..]
  {
  }

  // Releasing all leaves a button up, and keeps it alternating.
  lemma {:induction false} ReleasesFree(held: seq<string>, log: seq<Note>, b: string)
    requires DistinctButtons(held) && (Down(log, Button(b)) <==> b in held)
    ensures !Down(log + Releases(held), Button(b))
    ensures AlternatesOf(log, Button(b)) ==> AlternatesOf(log + Releases(held), Button(b))
    decreases |held|
  {
    if held == [] {
      assert log + Releases([]) == log;
    } else {
      var first, rest := held[0], held[1..];
      assert held == [first] + rest;
      Append(log, Note(Button(first), false), Button(b));
      ReleasesFree(rest, log + [Note(Button(first), false)], b);
      ReleasesMore(log, first, rest);
    }
  }

  lemma ReleasesInStep(k: Buttons)
    requires ButtonsInStep(k)
    ensures ButtonsInStep(AfterButton(k, ButtonsReleased))
  {
    forall b ensures !Down(k.log + Releases(k.held), Button(b)) {
      ReleasesFree(k.held, k.log, b);
    }
  }

  lemma {:induction false} ButtonsMirror(actions: seq<ButtonAction>)
    ensures ButtonsInStep(RunButtons(actions))
  {
    if actions != [] {
      var k := RunButtons(actions[..|actions| - 1]);
      ButtonsMirror(actions[..|actions| - 1]);
      match actions[|actions| - 1] {
        case ButtonPressed(b) => PressInStep(k, b);
        case ButtonReleased(b) => ReleaseInStep(k, b);
        case ButtonsReleased => ReleasesInStep(k);
      }
    }
  }

  // ---------------------------------------------------------------- alternation

  // No press of the button while it is held.
  predicate NeverPressedTwice(actions: seq<ButtonAction>, b: string)
  {
    actions != [] ==>
      var before, last := actions[..|actions| - 1], actions[|actions| - 1];
      NeverPressedTwice(before, b) && !(last == ButtonPressed(b) && b in RunButtons(before).held)
  }

  // A press keeps a button alternating if and only if the button is not held.
  lemma PressAlternatesExactly(k: Buttons, pressed: string, b: string)
    requires ButtonsInStep(k) && AlternatesOf(k.log, Button(b))
    ensures AlternatesOf(AfterButton(k, ButtonPressed(pressed)).log, Button(b)) <==> (pressed == b ==> b !in k.held)
  {
    Append(k.log, Note(Button(pressed), true), Button(b));
  }

  lemma {:induction false} PrefixAlternates(log: seq<Note>, more: seq<Note>, s: Source)
    requires AlternatesOf(log + more, s)
    ensures AlternatesOf(log, s)
    decreases |more|
  {
    if more == [] {
      assert log + more == log;
    } else {
      assert (log + more)[..|log + more| - 1] == log + more[..|more| - 1];
      PrefixAlternates(log, more[..|more| - 1], s);
    }
  }

  lemma LogGrows(k: Buttons, a: ButtonAction) returns (more: seq<Note>)
    ensures AfterButton(k, a).log == k.log + more
  {
    more := match a
      case ButtonPressed(b) => [Note(Button(b), true)]
      case ButtonReleased(b) => if b in k.held then [Note(Button(b), false)] else []
      case ButtonsReleased => Releases(k.held);
  }

  // The events of a button alternate over a run if and only if no press of it met it held.
  lemma {:induction false} ButtonAlternatesExactly(actions: seq<ButtonAction>, b: string)
    ensures AlternatesOf(RunButtons(actions).log, Button(b)) <==> NeverPressedTwice(actions, b)
  {
    if actions != [] {
      var before, last := actions[..|actions| - 1], actions[|actions| - 1];
      var k := RunButtons(before);
      ButtonAlternatesExactly(before, b);
      ButtonsMirror(before);
      if AlternatesOf(k.log, Button(b)) {
        match last {
          case ButtonPressed(c) => PressAlternatesExactly(k, c, b);
          case ButtonReleased(c) =>
            ReleaseInStep(k, c);
            Append(k.log, Note(Button(c), false), Button(b));
          case ButtonsReleased => ReleasesFree(k.held, k.log, b);
        }
      } else {
        var more := LogGrows(k, last);
        if AlternatesOf(RunButtons(actions).log, Button(b)) {
          PrefixAlternates(k.log, more, Button(b));
        }
      }
    }
  }

  // Two pointers go down on the same button: it is pressed twice in a row.
  lemma TwoPointers()
    ensures var left := Note(Button("left"), true);
            var log := RunButtons([ButtonPressed("left"), ButtonPressed("left")]).log;
            log == [left, left] && !AlternatesOf(log, Button("left"))
  {
    var once, twice := [ButtonPressed("left")], [ButtonPressed("left"), ButtonPressed("left")];
    assert twice[..1] == once && once[..0] == [];
    assert RunButtons(once) == Buttons(["left"], [Note(Button("left"), true)]);
    Append([Note(Button("left"), true)], Note(Button("left"), true), Button("left"));
  }
}
