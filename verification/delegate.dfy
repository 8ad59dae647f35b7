/**
 * The application delegate (src/app/delegate.rs): folding decoded shell
 * output into the text buffer, and translating key presses into the strings
 * sent to the shell.
 *
 * The shell output arrives as bytes and is decoded by the external termwiz
 * parser; here a `ShellOutput` command carries the parser's decoded actions.
 * Sending to the shell is a channel send whose failure is only logged, so the
 * model returns the string that would be sent and ignores send failures.
 */
module Delegate {
  import opened Wrappers
  import opened Escape
  import opened State

  // ---------------------------------------------------------------------------
  // Output: folding actions into the text buffer
  // ---------------------------------------------------------------------------

  /** Removes the last character, if any (Rust's `String::pop`). */
  function PopLast(s: string): (r: string)
    ensures |s| == 0 ==> r == s
    ensures |s| > 0 ==> |r| == |s| - 1 && r == s[..|s| - 1]
  {
    if |s| == 0 then s else s[..|s| - 1]
  }

  /** The effect of one decoded action on the text buffer. */
  function Step(buf: string, a: Action): (r: string)
    ensures a.Print? ==> r == buf + [a.c]
    ensures a == Control(LineFeed) ==> r == buf + ['\n']
    ensures a == Control(CarriageReturn) ==> r == buf
    ensures a == Control(ControlCode.Backspace) ==> r == PopLast(buf)
    ensures Ignored(a) ==> r == buf
    ensures -1 <= |r| - |buf| <= 1
  {
    match a
    case Print(c) => buf + [c]
    case Control(code) =>
      (match code
       case LineFeed => buf + ['\n']
       case CarriageReturn => buf
       case Backspace => PopLast(buf)
       case _ => buf)
    case _ => buf
  }

  /** Applies the actions of one output chunk in order. */
  function ApplyActions(buf: string, actions: seq<Action>): (r: string)
    ensures |actions| == 0 ==> r == buf
    ensures |buf| - |actions| <= |r| <= |buf| + |actions|
    decreases |actions|
  {
    if |actions| == 0 then buf else ApplyActions(Step(buf, actions[0]), actions[1..])
  }

  /** The characters the appending actions add, in order (an independent view of the fold). */
  function Text(actions: seq<Action>): (t: string)
    ensures |t| <= |actions|
  {
    if |actions| == 0 then []
    else (if Appends(actions[0]) then [AppendedChar(actions[0])] else []) + Text(actions[1..])
  }

  /** How many backspaces a sequence of actions holds. */
  function Erasures(actions: seq<Action>): (n: nat)
    ensures n <= |actions|
  {
    if |actions| == 0 then 0
    else (if Erases(actions[0]) then 1 else 0) + Erasures(actions[1..])
  }

  /** The actions that have any effect, in order. */
  function Relevant(actions: seq<Action>): (rs: seq<Action>)
    ensures |rs| <= |actions|
    ensures forall i :: 0 <= i < |rs| ==> !Ignored(rs[i])
  {
    if |actions| == 0 then []
    else (if Ignored(actions[0]) then [] else [actions[0]]) + Relevant(actions[1..])
  }

  /** A backspace undoes the character a `Print` or line feed appended. */
  lemma EraseUndoesAppend(buf: string, a: Action)
    requires Appends(a)
    ensures Step(Step(buf, a), Control(ControlCode.Backspace)) == buf
  {
  }

  /** Applying `xs + ys` is applying `xs` and then `ys`. */
  lemma {:induction false} ApplyConcat(buf: string, xs: seq<Action>, ys: seq<Action>)
    ensures ApplyActions(buf, xs + ys) == ApplyActions(ApplyActions(buf, xs), ys)
    decreases |xs|
  {
    if |xs| == 0 {
      assert xs + ys == ys;
    } else {
      assert (xs + ys)[0] == xs[0];
      assert (xs + ys)[1..] == xs[1..] + ys;
      ApplyConcat(Step(buf, xs[0]), xs[1..], ys);
    }
  }

  /** Appending one action to a chunk applies it after the rest. */
  lemma ApplySnoc(buf: string, xs: seq<Action>, a: Action)
    ensures ApplyActions(buf, xs + [a]) == Step(ApplyActions(buf, xs), a)
  {
    ApplyConcat(buf, xs, [a]);
    assert [a][1..] == [];
  }

  /** Without backspaces the fold appends exactly the text of the actions. */
  lemma {:induction false} ApplyWithoutErasures(buf: string, actions: seq<Action>)
    requires Erasures(actions) == 0
    ensures ApplyActions(buf, actions) == buf + Text(actions)
    decreases |actions|
  {
    if |actions| > 0 {
      var a := actions[0];
      ApplyWithoutErasures(Step(buf, a), actions[1..]);
      if Appends(a) {
        assert buf + Text(actions) == (buf + [AppendedChar(a)]) + Text(actions[1..]);
      } else {
        assert Text(actions) == Text(actions[1..]);
      }
    }
  }

  /**
   * Only the last `Erasures(actions)` characters of the buffer can be touched:
   * anything before them stays in front of the result.
   */
  lemma {:induction false} ApplyLocality(s: string, t: string, actions: seq<Action>)
    requires Erasures(actions) <= |t|
    ensures ApplyActions(s + t, actions) == s + ApplyActions(t, actions)
    decreases |actions|
  {
    if |actions| > 0 {
      var a := actions[0];
      if a.Print? {
        assert Step(s + t, a) == s + Step(t, a);
      } else if a == Control(LineFeed) {
        assert Step(s + t, a) == s + Step(t, a);
      } else if Erases(a) {
        assert (s + t)[..|s + t| - 1] == s + t[..|t| - 1];
      }
      ApplyLocality(s, Step(t, a), actions[1..]);
    }
  }

  /** The part of the buffer that the backspaces of a chunk cannot reach survives as a prefix. */
  lemma ApplyKeepsPrefix(buf: string, actions: seq<Action>)
    requires Erasures(actions) <= |buf|
    ensures buf[..|buf| - Erasures(actions)] <= ApplyActions(buf, actions)
  {
    var k := |buf| - Erasures(actions);
    assert buf == buf[..k] + buf[k..];
    ApplyLocality(buf[..k], buf[k..], actions);
  }

  /** Each action changes the length by at most one, so the length stays within these bounds. */
  lemma {:induction false} ApplyLengthBounds(buf: string, actions: seq<Action>)
    ensures |ApplyActions(buf, actions)| <= |buf| + |Text(actions)|
    ensures |ApplyActions(buf, actions)| >= |buf| + |Text(actions)| - Erasures(actions)
    decreases |actions|
  {
    if |actions| > 0 {
      ApplyLengthBounds(Step(buf, actions[0]), actions[1..]);
    }
  }

  /** Ignored actions have no effect wherever they occur in a chunk. */
  lemma {:induction false} IgnoredActionsVanish(buf: string, actions: seq<Action>)
    ensures ApplyActions(buf, actions) == ApplyActions(buf, Relevant(actions))
    decreases |actions|
  {
    if |actions| > 0 {
      var a := actions[0];
      IgnoredActionsVanish(Step(buf, a), actions[1..]);
      if !Ignored(a) {
        var rs := [a] + Relevant(actions[1..]);
        assert rs[0] == a && rs[1..] == Relevant(actions[1..]);
        assert Relevant(actions) == rs;
        assert ApplyActions(buf, rs) == ApplyActions(Step(buf, a), Relevant(actions[1..]));
      } else {
        assert Relevant(actions) == Relevant(actions[1..]);
      }
    }
  }

  /** The handler's `for` loop over the decoded actions, pushing and popping in place. */
  method ApplyOutput(buf: string, actions: seq<Action>) returns (r: string)
    ensures r == ApplyActions(buf, actions)
  {
    r := buf;
    for i := 0 to |actions|
      invariant r == ApplyActions(buf, actions[..i])
    {
      var a := actions[i];
      match a {
        case Print(c) =>
          r := r + [c];
        case Control(code) =>
          match code {
            case LineFeed => r := r + ['\n'];
            case CarriageReturn =>
            case Backspace =>
              if |r| > 0 {
                r := r[..|r| - 1];
              }
            case _ =>
          }
        case _ =>
      }
      ApplySnoc(buf, actions[..i], a);
      assert actions[..i + 1] == actions[..i] + [a];
    }
    assert actions[..|actions|] == actions;
  }

  // ---------------------------------------------------------------------------
  // Commands delivered to the delegate
  // ---------------------------------------------------------------------------

  datatype Command =
    | ProcessExited
    | ShellOutput(actions: seq<Action>)   // already decoded by the parser
    | OtherCommand(selector: string)

  /** `handled` mirrors `Handled::Yes`; `quit` records the request to quit the application. */
  datatype CommandResult = CommandResult(handled: bool, quit: bool, state: AppState)

  /** `Delegate::command`. */
  function HandleCommand(cmd: Command, st: AppState): (r: CommandResult)
    ensures r.state.cursorPos == st.cursorPos
    ensures r.quit <==> cmd.ProcessExited?
    ensures r.handled <==> !cmd.OtherCommand?
    ensures !cmd.ShellOutput? ==> r.state == st
    ensures cmd.ShellOutput? ==> r.state.shellString == ApplyActions(st.shellString, cmd.actions)
  {
    match cmd
    case ProcessExited => CommandResult(true, true, st)
    case ShellOutput(actions) =>
      CommandResult(true, false, st.(shellString := ApplyActions(st.shellString, actions)))
    case OtherCommand(_) => CommandResult(false, false, st)
  }

  /** Output delivered in two chunks leaves the same state as the two chunks delivered at once. */
  lemma ChunkedOutput(st: AppState, xs: seq<Action>, ys: seq<Action>)
    ensures HandleCommand(ShellOutput(ys), HandleCommand(ShellOutput(xs), st).state).state
         == HandleCommand(ShellOutput(xs + ys), st).state
  {
    ApplyConcat(st.shellString, xs, ys);
  }

  // ---------------------------------------------------------------------------
  // Events: translating key presses into strings for the shell
  // ---------------------------------------------------------------------------

  /** The keys of a key event; every key other than these three is `OtherKey`. */
  datatype KbKey =
    | Character(text: string)
    | Enter
    | Backspace
    | OtherKey(name: string)

  datatype Modifiers = Modifiers(ctrl: bool, shift: bool, alt: bool, meta: bool)

  datatype KeyEvent = KeyEvent(key: KbKey, mods: Modifiers)

  /** Window events; only key presses are translated. */
  datatype Event =
    | KeyDown(keyEvent: KeyEvent)
    | KeyUp(keyEvent: KeyEvent)
    | OtherEvent(name: string)

  /**
   * What handling an event does: the string sent to the shell, if any, and
   * the event passed on; or a panic, which is what reading an empty
   * clipboard with `unwrap` does.
   */
  datatype EventOutcome =
    | Forwarded(sent: Option<string>, event: Event)
    | ClipboardPanic

  const EndOfText: string := "\U{0003}"
  const EndOfTransmission: string := "\U{0004}"
  const DeleteChar: string := "\U{007F}"

  /** The first character of a key's text (Rust's `chars().next()`). */
  function FirstChar(text: string): (r: Option<char>)
    ensures r.Some? <==> |text| > 0
    ensures r.Some? ==> r.value == text[0]
  {
    if |text| == 0 then None else Some(text[0])
  }

  /** A key press of the given key, with any modifiers. */
  predicate IsPress(ev: Event, key: KbKey)
  {
    ev.KeyDown? && ev.keyEvent.key == key
  }

  /** A key press of a character key whose text begins with `c`, with ctrl held. */
  predicate IsCtrlChord(ev: Event, c: char)
  {
    ev.KeyDown? && ev.keyEvent.key.Character? && ev.keyEvent.mods.ctrl
    && FirstChar(ev.keyEvent.key.text) == Some(c)
  }

  /** Ctrl+Shift+V: paste the clipboard. */
  predicate IsPasteChord(ev: Event)
  {
    IsCtrlChord(ev, 'V') && ev.keyEvent.mods.shift
  }

  /** `Delegate::event`. */
  function OnEvent(ev: Event, clipboard: Option<string>): (r: EventOutcome)
    ensures r.ClipboardPanic? <==> IsPasteChord(ev) && clipboard.None?
    ensures r.Forwarded? ==> r.event == ev
    ensures IsPasteChord(ev) && clipboard.Some? ==> r.sent == clipboard
    ensures IsCtrlChord(ev, 'c') ==> r.sent == Some(EndOfText)
    ensures IsCtrlChord(ev, 'd') ==> r.sent == Some(EndOfTransmission)
    ensures IsPress(ev, Enter) ==> r.sent == Some("\n")
    ensures IsPress(ev, KbKey.Backspace) ==> r.sent == Some(DeleteChar)
    ensures ev.KeyDown? && ev.keyEvent.key.Character? && !ev.keyEvent.mods.ctrl
            ==> r.sent == Some(ev.keyEvent.key.text)
    ensures ev.KeyDown? && ev.keyEvent.key.Character? && ev.keyEvent.mods.ctrl
            && !IsPasteChord(ev) && !IsCtrlChord(ev, 'c') && !IsCtrlChord(ev, 'd')
            ==> r.sent == Some(ev.keyEvent.key.text)
    ensures r.Forwarded? && r.sent.None?
            <==> !ev.KeyDown? || ev.keyEvent.key.OtherKey?
  {
    match ev
    case KeyDown(k) =>
      (match k.key
       case Character(text) =>
         if k.mods.ctrl && k.mods.shift && FirstChar(text) == Some('V') then
           (match clipboard
            case Some(contents) => Forwarded(Some(contents), ev)
            case None => ClipboardPanic)
         else if k.mods.ctrl && FirstChar(text) == Some('c') then
           Forwarded(Some(EndOfText), ev)
         else if k.mods.ctrl && FirstChar(text) == Some('d') then
           Forwarded(Some(EndOfTransmission), ev)
         else
           Forwarded(Some(text), ev)
       case Enter => Forwarded(Some("\n"), ev)
       case Backspace => Forwarded(Some(DeleteChar), ev)
       case OtherKey(_) => Forwarded(None, ev))
    case _ => Forwarded(None, ev)
  }

  /** The clipboard is read only for Ctrl+Shift+V; every other event ignores it. */
  lemma ClipboardOnlyForPaste(ev: Event, c1: Option<string>, c2: Option<string>)
    requires !IsPasteChord(ev)
    ensures OnEvent(ev, c1) == OnEvent(ev, c2)
  {
  }

  /** Alt and meta never change what is sent. */
  lemma AltMetaIgnored(k: KeyEvent, alt: bool, meta: bool, clipboard: Option<string>)
    ensures var r1 := OnEvent(KeyDown(k.(mods := k.mods.(alt := alt, meta := meta))), clipboard);
            var r2 := OnEvent(KeyDown(k), clipboard);
            r1.Forwarded? == r2.Forwarded? && (r1.Forwarded? ==> r1.sent == r2.sent)
  {
  }
}
