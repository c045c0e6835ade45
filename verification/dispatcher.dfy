/**
 `handle_key_press`: one key event. A key bound by a plugin runs its action
 and nothing else; otherwise the key goes down the fixed chain of built-in
 branches (movement, Backspace, Delete, Enter, Ctrl+Q, printable
 characters, resize). Whenever a branch acted, the viewport is reconciled.
 The result says whether the editor keeps running.
 */
module Dispatcher {
  import opened Session
  import opened BuiltIns
  import Viewport
  import SavePlugin
  import Text

  // curses key codes (ncurses values); all lie outside 0..127.
  const DownArrow := 258
  const UpArrow := 259
  const LeftArrow := 260
  const RightArrow := 261
  const HomeKey := 262
  const BackspaceKey := 263
  const DeleteKey := 330
  const PageDownKey := 338
  const PageUpKey := 339
  const EnterKey := 343
  const EndKey := 360
  const ResizeEvent := 410

  /** Ctrl+Q. */
  const QuitKey := 17

  /** The answers the outside world gives during one key press: what the
      prompt returns, whether a typed file name is a directory, and how a
      file write goes. */
  datatype Env = Env(reply: Option<string>, nameIsDirectory: bool, write: SavePlugin.WriteOutcome)

  /** The session after the key, whether the editor keeps running (the
      function's return value), and the file write a plugin attempted. */
  datatype Outcome = Outcome(session: Session, running: bool, attempted: Option<SavePlugin.FileWrite>)

  predicate IsMovementKey(key: int) {
    key in {UpArrow, DownArrow, LeftArrow, RightArrow, HomeKey, EndKey, PageUpKey, PageDownKey}
  }

  predicate IsBackspace(key: int) {
    key == BackspaceKey || key == 127 || key == 8
  }

  predicate IsEnter(key: int) {
    key == EnterKey || key == 10 || key == 13
  }

  /** Calls a bound action with the session. */
  function RunAction(s: Session, action: Action, env: Env): (r: SavePlugin.SaveResult)
    ensures r.session.isDirty ==> s.isDirty
    ensures r.session == s.(filename := r.session.filename, isDirty := r.session.isDirty, status := r.session.status)
  {
    match action
    case SaveFile(tools) => SavePlugin.DoSaveFile(s, tools, env.reply, env.nameIsDirectory, env.write)
  }

  /** The built-in `elif` chain, in the source's order. */
  function BuiltIn(s: Session, key: int, env: Env): (e: Effect)
    requires Valid(s)
    ensures e.Acted? ==> Valid(e.after) && e.after.height == s.height && e.after.width == s.width
    ensures e.Acted? ==> (e.after.lines != s.lines ==> e.after.isDirty)
    ensures e.Acted? ==> (e.after.isDirty && !s.isDirty ==> e.after.lines != s.lines)
    ensures e.Stop? <==> key == QuitKey && (!s.isDirty || Confirmed(AskUser(s, env.reply)))
  {
    if key == UpArrow then KeyUp(s)
    else if key == DownArrow then KeyDown(s)
    else if key == LeftArrow then KeyLeft(s)
    else if key == RightArrow then KeyRight(s)
    else if key == HomeKey then KeyHome(s)
    else if key == EndKey then KeyEnd(s)
    else if key == PageUpKey then KeyPageUp(s)
    else if key == PageDownKey then KeyPageDown(s)
    else if IsBackspace(key) then Backspace(s)
    else if key == DeleteKey then DeleteForward(s)
    else if IsEnter(key) then Enter(s)
    else if key == QuitKey then Quit(s, env.reply)
    else if 32 <= key <= 126 then InsertPrintable(s, key)
    else if key == ResizeEvent then Acted(s)
    else Ignored
  }

  /** `handle_key_press(editor_state, key)`. The cursor stays valid; the
      editor stops exactly on an unbound Ctrl+Q with a clean buffer or a
      confirmed prompt, and then leaves the session as it was; only a bound
      action can write a file. */
  function HandleKeyPress(s: Session, key: int, env: Env): (r: Outcome)
    requires Valid(s)
    ensures Valid(r.session)
    ensures !r.running <==> key !in s.keyActions && key == QuitKey && (!s.isDirty || Confirmed(AskUser(s, env.reply)))
    ensures !r.running ==> r.session == s
    ensures r.attempted.Some? ==> key in s.keyActions
  {
    if key in s.keyActions then
      var result := RunAction(s, s.keyActions[key], env);
      Outcome(Viewport.Reconcile(result.session), true, result.attempted)
    else
      match BuiltIn(s, key, env)
      case Acted(t) => Outcome(Viewport.Reconcile(t), true, None)
      case Ignored => Outcome(s, true, None)
      case Stop => Outcome(s, false, None)
  }

  /** The dirty flag follows real edits: a key that changes the lines leaves
      the buffer dirty, and a key that makes a clean buffer dirty has changed
      the lines. */
  lemma DirtyOnlyOnRealEdit(s: Session, key: int, env: Env)
    requires Valid(s)
    ensures var r := HandleKeyPress(s, key, env);
      && (r.session.lines != s.lines ==> r.session.isDirty)
      && (r.session.isDirty && !s.isDirty ==> r.session.lines != s.lines)
  {
  }

  /** Once the cursor is in view, it stays in view after any key. */
  lemma CursorStaysVisible(s: Session, key: int, env: Env)
    requires Valid(s) && Viewport.CanScroll(s) && Viewport.CursorVisible(s)
    ensures Viewport.CursorVisible(HandleKeyPress(s, key, env).session)
  {
  }

  /** A bound key runs its action instead of any built-in, even Ctrl+Q or an
      arrow: the editor keeps running and neither the lines nor the cursor
      move. */
  lemma BoundKeyShadowsBuiltIns(s: Session, key: int, env: Env)
    requires Valid(s) && key in s.keyActions
    ensures var r := HandleKeyPress(s, key, env);
      && r.running
      && r.session.lines == s.lines
      && r.session.cursorRow == s.cursorRow && r.session.cursorCol == s.cursorCol
      && r.attempted == RunAction(s, s.keyActions[key], env).attempted
  {
  }

  /** Unbound movement keys never touch the text, the dirty flag, the name
      or the status. */
  lemma MovementKeepsText(s: Session, key: int, env: Env)
    requires Valid(s) && key !in s.keyActions && IsMovementKey(key)
    ensures var r := HandleKeyPress(s, key, env);
      && r.running && r.attempted.None?
      && r.session.lines == s.lines && r.session.isDirty == s.isDirty
      && r.session.filename == s.filename && r.session.status == s.status
  {
  }

  /** Ctrl+Q on a dirty buffer answered with anything but "y"/"Y": the editor
      keeps running, says "Quit cancelled." and the buffer is untouched. */
  lemma QuitDeclined(s: Session, env: Env)
    requires Valid(s) && QuitKey !in s.keyActions && s.isDirty
    requires !Confirmed(AskUser(s, env.reply))
    ensures var r := HandleKeyPress(s, QuitKey, env);
      && r.running
      && r.session.status == "Quit cancelled."
      && r.session.lines == s.lines && r.session.isDirty
      && r.session.cursorRow == s.cursorRow && r.session.cursorCol == s.cursorCol
  {
  }

  /** A session for the concrete scenarios below: an 80x24 terminal, no
      bindings, no name, a clean buffer. */
  function Sample(lines: seq<string>, row: nat, col: nat): Session {
    Session(lines, row, col, 0, 0, 24, 80, map[], None, false, "")
  }

  /** Enter at the end of "hello". */
  lemma EnterAtEndOfLine()
    ensures var r := HandleKeyPress(Sample(["hello"], 0, 5), EnterKey, Env(None, false, SavePlugin.Written)).session;
      r.lines == ["hello", ""] && r.cursorRow == 1 && r.cursorCol == 0 && r.isDirty
  {
    var s := Sample(["hello"], 0, 5);
    var t := Enter(s).after;
    assert BuiltIn(s, EnterKey, Env(None, false, SavePlugin.Written)) == Enter(s);
    assert t.lines[0] + t.lines[1] == "hello" && |t.lines[0]| == 5;
    assert t.lines[1] == "";
    assert t.lines[0] == "hello";
  }

  /** Backspace at the start of the second line joins it to the first. */
  lemma BackspaceJoinsLines()
    ensures var r := HandleKeyPress(Sample(["ab", "cd"], 1, 0), 127, Env(None, false, SavePlugin.Written)).session;
      r.lines == ["abcd"] && r.cursorRow == 0 && r.cursorCol == 2 && r.isDirty
  {
    var s := Sample(["ab", "cd"], 1, 0);
    var t := Backspace(s).after;
    assert BuiltIn(s, 127, Env(None, false, SavePlugin.Written)) == Backspace(s);
    assert |t.lines| == 1 && t.lines[0] == s.lines[0] + s.lines[1];
    assert s.lines[0] + s.lines[1] == "abcd";
    assert t.lines == [t.lines[0]];
    assert |s.lines[0]| == 2;
  }

  /** Backspace at the very start of the buffer changes nothing. */
  lemma BackspaceAtStartIsNoOp()
    ensures var s := Sample(["x"], 0, 0);
      HandleKeyPress(s, 127, Env(None, false, SavePlugin.Written)) == Outcome(s, true, None)
  {
  }

  /** After the save plugin registers, Ctrl+S on an unnamed buffer asks for a
      name; a reply that needs no stripping names the file written, and the
      buffer ends clean. */
  lemma SaveKeyAfterRegister(s: Session, name: string)
    requires Valid(s) && !HasName(s) && s.height > 1 && s.width > 1
    requires name != "" && Text.Strip(name) == name
    ensures var r := HandleKeyPress(SavePlugin.Register(s, CoreTools), SavePlugin.SaveKey,
                                    Env(Some(name), false, SavePlugin.Written));
      && r.running
      && r.attempted == Some(SavePlugin.FileWrite(name, SavePlugin.Serialise(s.lines)))
      && r.session.filename == Some(name)
      && !r.session.isDirty
      && r.session.lines == s.lines
  {
    var env := Env(Some(name), false, SavePlugin.Written);
    var t := SavePlugin.Register(s, CoreTools);
    assert Valid(t) && !HasName(t) && t.lines == s.lines && AskUser(t, env.reply) == Some(name);
    assert t.keyActions[SavePlugin.SaveKey] == SaveFile(CoreTools);
    var saved := SavePlugin.DoSaveFile(t, CoreTools, env.reply, false, SavePlugin.Written);
    assert HandleKeyPress(t, SavePlugin.SaveKey, env) == Outcome(Viewport.Reconcile(saved.session), true, saved.attempted);
  }
}
