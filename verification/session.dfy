/**
 The editor's memory (the `editor_state` dictionary of pooja_core_editor.py)
 as an immutable record, the cursor-validity invariant, the key-binding
 registry plugins write into, the dirty-flag and status helpers, and the
 line-input prompt as an oracle.
 */
module Session {

  datatype Option<T> = None | Some(value: T)

  /** Which of the named core functions a plugin was handed in its
      `provided_core_tools` dictionary; `false` stands for a missing entry. */
  datatype Tools = Tools(
    tellCoreAboutKey: bool,
    askUser: bool,
    showMessage: bool,
    getLines: bool,
    getFilename: bool,
    setFilename: bool,
    markAsChanged: bool,
    markAsSaved: bool,
    getCursorPos: bool)

  /** The tool set the editor hands every plugin at start-up: all present. */
  const CoreTools := Tools(true, true, true, true, true, true, true, true, true)

  /** A plugin action bound to a key. The save plugin's `do_save_file` is the
      one action in the repository; it carries the tool set it was registered
      with. */
  datatype Action = SaveFile(tools: Tools)

  /** What a plugin hands `tell_core_about_key`: a callable, or something
      that is not callable. */
  datatype Handler = Callable(action: Action) | NotCallable

  datatype Session = Session(
    lines: seq<string>,
    cursorRow: nat,
    cursorCol: nat,
    topLine: nat,
    leftCol: nat,
    height: nat,
    width: nat,
    keyActions: map<int, Action>,
    filename: Option<string>,
    isDirty: bool,
    status: string)

  /** The buffer is never empty and the cursor sits on an existing line, at
      most one column past its last character. */
  predicate Valid(s: Session) {
    && |s.lines| >= 1
    && s.cursorRow < |s.lines|
    && s.cursorCol <= |s.lines[s.cursorRow]|
  }

  /** Python truthiness of the stored filename: neither None nor "". */
  predicate HasName(s: Session) {
    s.filename.Some? && s.filename.value != ""
  }

  /** `setup_editor_state` before any file is loaded: one empty line, the
      cursor and the window at the origin, no bindings, no name, a clean
      buffer, and a terminal size still to be read. */
  function Initial(): (s: Session)
    ensures Valid(s) && s.lines == [""] && s.cursorRow == 0 && s.cursorCol == 0
    ensures s.topLine == 0 && s.leftCol == 0
    ensures s.keyActions == map[] && s.filename.None? && !s.isDirty
  {
    Session([""], 0, 0, 0, 0, 0, 0, map[], None, false, "SimpleEdit | Ctrl+Q: Quit")
  }

  /** `tell_core_about_key`: a callable replaces whatever was bound to
      `key`; anything else is refused and nothing changes. */
  function TellCoreAboutKey(s: Session, key: int, h: Handler): (r: Session)
    ensures h.NotCallable? ==> r == s
    ensures h.Callable? ==> key in r.keyActions && r.keyActions[key] == h.action
    ensures r.keyActions.Keys == s.keyActions.Keys + (if h.Callable? then {key} else {})
    ensures forall k :: k in s.keyActions && k != key ==> r.keyActions[k] == s.keyActions[k]
    ensures r == s.(keyActions := r.keyActions)
  {
    match h
    case NotCallable => s
    case Callable(a) => s.(keyActions := s.keyActions[key := a])
  }

  /** Registering twice for the same key keeps only the later action. */
  lemma LatestBindingWins(s: Session, key: int, first: Action, second: Action)
    ensures TellCoreAboutKey(TellCoreAboutKey(s, key, Callable(first)), key, Callable(second))
         == TellCoreAboutKey(s, key, Callable(second))
  {
    assert s.keyActions[key := first][key := second] == s.keyActions[key := second];
  }

  /** `show_message_in_status`: the status line, and nothing else, changes. */
  function ShowMessage(s: Session, message: string): (r: Session)
    ensures r.status == message
    ensures r == s.(status := r.status)
  {
    s.(status := message)
  }

  /** `mark_file_as_changed`: afterwards the buffer is dirty; nothing else
      changes. */
  function MarkChanged(s: Session): (r: Session)
    ensures r.isDirty
    ensures r == s.(isDirty := r.isDirty)
  {
    if !s.isDirty then s.(isDirty := true) else s
  }

  /** `mark_file_as_saved`: afterwards the buffer is clean; nothing else
      changes. */
  function MarkSaved(s: Session): (r: Session)
    ensures !r.isDirty
    ensures r == s.(isDirty := r.isDirty)
  {
    s.(isDirty := false)
  }

  /** `ask_user_for_input`, with `reply` standing for whatever the terminal
      returned (None for Ctrl+C or a curses error). A window too small to
      show the prompt gives None without asking. The routine restores the
      status line before returning, so the session it leaves behind is the
      one it was given; that is why this function returns only the answer. */
  function AskUser(s: Session, reply: Option<string>): (answer: Option<string>)
    ensures s.height <= 1 || s.width <= 1 ==> answer.None?
    ensures s.height > 1 && s.width > 1 ==> answer == reply
  {
    if s.height <= 1 || s.width <= 1 then None else reply
  }
}
