/**
 The save plugin (plugins/plugin_save.py): `register` binds Ctrl+S (key
 code 19) to `do_save_file`, which picks a file name, possibly by asking,
 and writes every buffer line followed by "\n".

 The plugin keeps the tools it was registered with in a module-level
 dictionary; here the bound action carries them instead (`SaveFile(tools)`).
 The prompt reply, whether the typed name is a directory, and how the write
 went are inputs.
 */
module SavePlugin {
  import opened Session
  import Text
  import Loader

  /** Ctrl+S. */
  const SaveKey := 19

  /** How writing the file went: it worked, an `IOError` was raised, or some
      other exception was; the exception text is carried along. */
  datatype WriteOutcome = Written | IOFailure(reason: string) | OtherFailure(reason: string)

  /** A write the plugin attempted: the path it opened and the text it tried
      to write (on a failure the file may hold any part of it). */
  datatype FileWrite = FileWrite(path: string, content: string)

  datatype SaveResult = SaveResult(session: Session, attempted: Option<FileWrite>)

  const MissingToolsMessage := "Error: Save plugin missing core tools!"
  const CancelledMessage := "Save cancelled."

  /** The six tools `do_save_file` checks for before doing anything. */
  predicate HasSaveTools(t: Tools) {
    t.askUser && t.showMessage && t.getLines && t.getFilename && t.setFilename && t.markAsSaved
  }

  /** The file text: each line followed by "\n", in order. */
  function Serialise(lines: seq<string>): (content: string)
    ensures |lines| > 0 ==> |content| > 0 && content[|content| - 1] == '\n'
    ensures (forall i :: 0 <= i < |lines| ==> Text.NoLineBreaks(lines[i])) ==>
      forall j :: 0 <= j < |content| ==> content[j] != '\r'
  {
    if |lines| == 0 then ""
    else
      var rest := Serialise(lines[1..]);
      assert forall i :: 0 <= i < |lines| - 1 ==> lines[1..][i] == lines[i + 1];
      lines[0] + "\n" + rest
  }

  /** A reply the plugin treats as "cancel": none, or whitespace only. */
  predicate Cancelled(answer: Option<string>) {
    answer.None? || Text.Strip(answer.value) == ""
  }

  function SavedMessage(count: nat, name: string): string {
    "Saved " + Text.NatToDecimal(count) + " lines to " + name
  }

  function WriteFailedMessage(outcome: WriteOutcome): string
    requires !outcome.Written?
  {
    match outcome
    case IOFailure(e) => "Error saving! Could not write to file: " + e
    case OtherFailure(e) => "Error saving! An unexpected error occurred: " + e
  }

  /** The `try` block of `do_save_file`: write, then report. */
  function WriteFile(s: Session, name: string, outcome: WriteOutcome): (r: SaveResult)
    ensures r.attempted == Some(FileWrite(name, Serialise(s.lines)))
    ensures outcome.Written? ==> r.session == s.(status := SavedMessage(|s.lines|, name), isDirty := false)
    ensures !outcome.Written? ==> r.session == s.(status := WriteFailedMessage(outcome))
  {
    var attempt := Some(FileWrite(name, Serialise(s.lines)));
    if outcome.Written? then
      SaveResult(MarkSaved(ShowMessage(s, SavedMessage(|s.lines|, name))), attempt)
    else
      SaveResult(ShowMessage(s, WriteFailedMessage(outcome)), attempt)
  }

  /** `do_save_file(editor_state)`. Only the file name, the dirty flag and
      the status can change. Without its tools the plugin only complains (if
      it can). A name already set is used without asking; otherwise it asks
      "Save As: ", gives up on an empty or whitespace reply, refuses a
      directory (forgetting the name), and otherwise adopts the stripped
      reply as the file name before writing, so a failed write still leaves
      the name set. Every write holds the serialised lines and goes to the
      session's file name; the buffer turns clean only after a write that
      worked. */
  function DoSaveFile(s: Session, tools: Tools, reply: Option<string>, nameIsDirectory: bool, outcome: WriteOutcome): (r: SaveResult)
    ensures r.session == s.(filename := r.session.filename, isDirty := r.session.isDirty, status := r.session.status)
    ensures !HasSaveTools(tools) ==>
      r.attempted.None? && r.session == (if tools.showMessage then s.(status := MissingToolsMessage) else s)
    ensures HasSaveTools(tools) && HasName(s) ==>
      r.attempted == Some(FileWrite(s.filename.value, Serialise(s.lines))) && r.session.filename == s.filename
    ensures HasSaveTools(tools) && !HasName(s) && Cancelled(AskUser(s, reply)) ==>
      r.attempted.None? && r.session == s.(status := CancelledMessage)
    ensures HasSaveTools(tools) && !HasName(s) && !Cancelled(AskUser(s, reply)) && nameIsDirectory ==>
      var name := Text.Strip(AskUser(s, reply).value);
      r.attempted.None? && r.session == s.(filename := None, status := "Error: '" + name + "' is a folder.")
    ensures HasSaveTools(tools) && !HasName(s) && !Cancelled(AskUser(s, reply)) && !nameIsDirectory ==>
      var name := Text.Strip(AskUser(s, reply).value);
      r.attempted == Some(FileWrite(name, Serialise(s.lines))) && r.session.filename == Some(name)
    ensures r.attempted.Some? ==>
      && r.attempted.value.path != ""
      && r.session.filename == Some(r.attempted.value.path)
      && r.attempted.value.content == Serialise(s.lines)
      && r.session.status == (if outcome.Written? then SavedMessage(|s.lines|, r.attempted.value.path)
                              else WriteFailedMessage(outcome))
    ensures r.session.isDirty == (s.isDirty && !(r.attempted.Some? && outcome.Written?))
  {
    if !HasSaveTools(tools) then
      SaveResult(if tools.showMessage then ShowMessage(s, MissingToolsMessage) else s, None)
    else if HasName(s) then
      WriteFile(s, s.filename.value, outcome)
    else
      var answer := AskUser(s, reply);
      if Cancelled(answer) then
        SaveResult(ShowMessage(s, CancelledMessage), None)
      else
        var name := Text.Strip(answer.value);
        if nameIsDirectory then
          SaveResult(ShowMessage(s.(filename := None), "Error: '" + name + "' is a folder."), None)
        else
          WriteFile(s.(filename := Some(name)), name, outcome)
  }

  /** With a file name already set, the prompt reply and the directory check
      play no part. */
  lemma NoPromptWhenNamed(s: Session, tools: Tools, reply1: Option<string>, reply2: Option<string>,
                          dir1: bool, dir2: bool, outcome: WriteOutcome)
    requires HasName(s)
    ensures DoSaveFile(s, tools, reply1, dir1, outcome) == DoSaveFile(s, tools, reply2, dir2, outcome)
  {
  }

  /** `register(editor_state, provided_core_tools)`: binds Ctrl+S to the save
      action carrying the provided tools, through `tell_core_about_key`, and
      keeps every other binding. Without `tell_core_about_key` nothing is
      bound. */
  function Register(s: Session, tools: Tools): (r: Session)
    ensures r == s.(keyActions := r.keyActions)
    ensures tools.tellCoreAboutKey ==> r.keyActions == s.keyActions[SaveKey := SaveFile(tools)]
    ensures !tools.tellCoreAboutKey ==> r == s
  {
    if tools.tellCoreAboutKey then TellCoreAboutKey(s, SaveKey, Callable(SaveFile(tools))) else s
  }

  /** Reading back a line followed by "\n" and more text yields that line
      (with its "\n") first. */
  lemma LineEndAfterNewline(line: string, rest: string)
    requires Text.NoLineBreaks(line)
    ensures Loader.LineEnd(line + "\n" + rest) == |line| + 1
  {
    var x := line + "\n" + rest;
    var k := Loader.LineEnd(x);
    assert x[|line|] == '\n';
    assert forall i :: 0 <= i < |line| ==> x[i] == line[i];
  }

  /** Iterating over the serialised text yields each line with its "\n". */
  lemma {:induction false} FileLinesOfSerialise(lines: seq<string>)
    requires forall i :: 0 <= i < |lines| ==> Text.NoLineBreaks(lines[i])
    ensures var pieces := Loader.FileLines(Serialise(lines));
      |pieces| == |lines| && forall i :: 0 <= i < |lines| ==> pieces[i] == lines[i] + "\n"
  {
    if |lines| > 0 {
      var rest := Serialise(lines[1..]);
      var x := lines[0] + "\n" + rest;
      assert Serialise(lines) == x;
      LineEndAfterNewline(lines[0], rest);
      assert x[..|lines[0]| + 1] == lines[0] + "\n";
      assert x[|lines[0]| + 1..] == rest;
      FileLinesOfSerialise(lines[1..]);
    }
  }

  /** Reading the saved text back yields the lines that were saved. */
  lemma ReadLinesOfSerialise(lines: seq<string>)
    requires forall i :: 0 <= i < |lines| ==> Text.NoLineBreaks(lines[i])
    ensures Loader.ReadLines(Serialise(lines)) == lines
  {
    var content := Serialise(lines);
    Loader.TranslateWithoutCarriageReturn(content);
    FileLinesOfSerialise(lines);
    var pieces := Loader.FileLines(content);
    var read := Loader.ReadLines(content);
    assert |read| == |lines|;
    forall i | 0 <= i < |lines|
      ensures read[i] == lines[i]
    {
      Text.RStripAppendedNewline(lines[i]);
    }
  }

  /** Saving a buffer whose lines hold no "\n" or "\r" and loading the file
      back reproduces the lines exactly. */
  lemma SaveThenLoad(s: Session, name: string)
    requires |s.lines| >= 1
    requires forall i :: 0 <= i < |s.lines| ==> Text.NoLineBreaks(s.lines[i])
    ensures Loader.LoadFile(s, name, Loader.RegularFile(Serialise(s.lines))).lines == s.lines
  {
    ReadLinesOfSerialise(s.lines);
  }
}
