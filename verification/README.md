# pooja_editor editing engine in Dafny

A model of the editing engine of a minimal curses text editor and its save
plugin. The editor's memory (`editor_state`) is an immutable `Session` record:
buffer lines, cursor row and column, the scroll offsets of the window, the
terminal size, the plugin key bindings, the file name, the dirty flag and the
status message. One key press is a pure function from a session to the next
session and a keep-running flag (`Dispatcher.HandleKeyPress`). Anything the
editor would learn from the terminal or the disk during that key press is an
input. That covers the prompt reply, whether a typed name is a directory, and
how a file write went (`Dispatcher.Env`). Loading a file takes the result of
looking the path up as an input (`Loader.FsEntry`).

Modules, following the program's structure:

- `Text`: the Python string operations used: `isspace`, `strip`,
  `rstrip('\n\r')`, `str(n)`, and `lower() == 'y'`.
- `Session`: the state record, the cursor invariant `Valid`, the binding
  registry (`tell_core_about_key`), the status and dirty-flag helpers, and the
  prompt as an oracle.
- `Viewport`: `move_cursor_and_scroll`.
- `Lines`: the character and line edits, each with its inverse.
- `BuiltIns`: one function per built-in branch of `handle_key_press`.
- `Loader`: `load_file_into_editor`, including text-mode newline translation
  and line iteration.
- `SavePlugin`: `do_save_file`, `register` and the file format.
- `Dispatcher`: `handle_key_press` and the properties that span branches.

## Model

| member | source | states |
|---|---|---|
| `Session.Initial` | pooja_core_editor.py:17-30 | the editor starts with one empty line, the cursor and both scroll offsets at (0,0), no bindings, no name and a clean buffer, so the cursor invariant holds from the start |
| `Session.TellCoreAboutKey` | pooja_core_editor.py:151-160 | a callable becomes the binding for its key code and every other binding is kept; a non-callable changes nothing |
| `Session.LatestBindingWins` | pooja_core_editor.py:160 | binding the same key twice leaves only the later action |
| `Session.ShowMessage` | pooja_core_editor.py:164-166 | the status becomes the message; nothing else changes |
| `Session.MarkChanged` | pooja_core_editor.py:168-171 | the buffer is dirty afterwards; nothing else changes |
| `Session.MarkSaved` | pooja_core_editor.py:173-175 | the buffer is clean afterwards; nothing else changes |
| `Session.AskUser` | pooja_core_editor.py:324-382 | a window with height <= 1 or width <= 1 gives None without asking; any larger window gives the user's reply; only the answer comes back, since the prompt restores the status it overwrote |
| `Viewport.Reconcile` | pooja_core_editor.py:284-316 | only the two scroll offsets change; a window with height <= 1 or width <= 0 is left alone; otherwise the cursor is visible afterwards; each offset moves exactly when the cursor was out of view in that direction and is kept otherwise, and then the cursor lands on the first or last visible row or column |
| `Viewport.ReconcileIdempotent` | pooja_core_editor.py:284-316 | reconciling twice equals reconciling once |
| `Lines.RemoveAt` | pooja_core_editor.py:470 | the line is one character shorter; the characters before the index are kept and those after it move left by one |
| `Lines.InsertAt` | pooja_core_editor.py:530 | the character sits at the index; the characters before it are kept and the rest move right by one |
| `Lines.RemoveUndoesInsert` | pooja_core_editor.py:526-533 | removing the character just inserted gives back the line |
| `Lines.InsertUndoesRemove` | pooja_core_editor.py:482-488 | re-inserting the removed character gives back the line |
| `Lines.SplitLine` | pooja_core_editor.py:497-503 | one more line; the two halves concatenate to the old line; lines before are kept and lines after move down by one |
| `Lines.JoinWithNext` | pooja_core_editor.py:489-491 | one line fewer; the line becomes its concatenation with the next; lines before are kept and lines after move up by one |
| `Lines.JoinUndoesSplit` | pooja_core_editor.py:497-503 | joining the two halves of a split gives back the lines |
| `Lines.SplitUndoesJoin` | pooja_core_editor.py:489-491 | splitting a joined line where the first part ended gives back the lines |
| `BuiltIns.KeyUp` | pooja_core_editor.py:409-415 | acts exactly when not on the first line; moves up one line and keeps the column unless the new line is shorter, in which case the cursor goes to its end; nothing but the cursor changes |
| `BuiltIns.KeyDown` | pooja_core_editor.py:416-422 | acts exactly when not on the last line; moves down one line with the same column rule; nothing but the cursor changes |
| `BuiltIns.KeyLeft` | pooja_core_editor.py:423-430 | acts exactly when not at (0,0); moves one column left, or from column 0 to the end of the previous line |
| `BuiltIns.KeyRight` | pooja_core_editor.py:431-439 | acts exactly when not at the end of the last line; moves one column right, or from the end of a line to column 0 of the next |
| `BuiltIns.KeyHome` | pooja_core_editor.py:440-442 | always acts; column 0 of the same line |
| `BuiltIns.KeyEnd` | pooja_core_editor.py:443-445 | always acts; just past the last character of the same line |
| `BuiltIns.KeyPageUp` | pooja_core_editor.py:446-454 | acts exactly when height > 1; cursor row and top line each move up one page of height-1 rows, or to 0 when less than a page remains; column rule as for Up |
| `BuiltIns.KeyPageDown` | pooja_core_editor.py:455-464 | acts exactly when height > 1; the cursor moves down one page or stops on the last line; the top line becomes the smaller of one page further and `max(0, len(lines) - page)`; column rule as for Down |
| `BuiltIns.Backspace` | pooja_core_editor.py:467-481 | acts exactly when not at (0,0), so the start of the buffer leaves the dirty flag alone; removes the character before the cursor, or appends the line to the previous one and puts the cursor at the old end of that line; every action changes the lines and sets dirty |
| `BuiltIns.DeleteForward` | pooja_core_editor.py:482-494 | acts exactly when not at the end of the last line; removes the character under the cursor, or appends the next line; the cursor never moves; every action changes the lines and sets dirty |
| `BuiltIns.Enter` | pooja_core_editor.py:497-508 | the line is cut at the cursor: the first part has the cursor column as its length, the two parts concatenate to the old line, and other lines are kept in order; the cursor goes to (row+1, 0); the buffer becomes dirty |
| `BuiltIns.InsertPrintable` | pooja_core_editor.py:526-533 | the key's character is inserted at the cursor, which moves right by one; other lines are unchanged; the buffer becomes dirty |
| `BuiltIns.Quit` | pooja_core_editor.py:511-522 | stops exactly when the buffer is clean or the prompt answer is a non-empty string that lower-cases to "y"; otherwise only the status changes, to "Quit cancelled." |
| `BuiltIns.LeftRightInverse` | pooja_core_editor.py:423-439 | whenever Left moves, Right moves the cursor back, and the reverse, across line wraps too |
| `BuiltIns.BackspaceUndoesInsert` | pooja_core_editor.py:467-533 | Backspace right after typing a character restores lines and cursor |
| `BuiltIns.BackspaceUndoesEnter` | pooja_core_editor.py:467-508 | Backspace right after Enter rejoins the line and restores the cursor |
| `BuiltIns.DeleteUndoesEnterAtEnd` | pooja_core_editor.py:482-508 | Enter at the end of a line, then Left, then Delete, restores lines and cursor |
| `Loader.TranslateNewlines` | pooja_core_editor.py:53 | no carriage return survives text-mode reading, and non-empty text stays non-empty |
| `Loader.TranslateWithoutCarriageReturn` | pooja_core_editor.py:53 | text without carriage returns reads back unchanged |
| `Loader.FileLines` | pooja_core_editor.py:53-54 | the pieces a file iteration yields are non-empty, concatenate to the text, hold a newline only as their last character, and all but the last end with one |
| `Loader.CarriageReturnNewlineEndsLine` | pooja_core_editor.py:53 | for all texts: a "\r\n" after text free of carriage returns reads as a single "\n" |
| `Loader.LoneCarriageReturnEndsLine` | pooja_core_editor.py:53 | for all texts: a "\r" not followed by "\n", after text free of carriage returns, reads as "\n" |
| `Loader.CarriageReturnsEndLines` | pooja_core_editor.py:53-54 | example: the file text "ab\r\ncd\re" loads as the lines "ab", "cd", "e" |
| `Loader.LoadFile` | pooja_core_editor.py:44-90 | every branch leaves a valid buffer with cursor and scroll at 0, a clean buffer, and the bindings and window size kept; the name is kept exactly for an existing or missing file and dropped exactly for a directory or a read failure; only a regular file gives lines other than one empty line: its pieces with trailing CR/LF removed, or one empty line for an empty file; each branch has its own status text |
| `Text.Strip` | plugins/plugin_save.py:47-52 | the result is a slice of the input with only whitespace outside it; it is empty exactly when the input is all whitespace, and otherwise neither starts nor ends with whitespace |
| `Text.StripLeavesTrimmed` | plugins/plugin_save.py:52 | a name with no leading or trailing whitespace is kept as typed |
| `Text.RStripLineBreaks` | pooja_core_editor.py:54 | the result is a prefix of the input that does not end in CR or LF, and everything removed is CR or LF |
| `Text.RStripAppendedNewline` | pooja_core_editor.py:54 | a line without CR/LF followed by "\n" strips back to the line |
| `Text.NatToDecimal` | plugins/plugin_save.py:79-80 | canonical decimal digits, with no leading zero, whose value is the number |
| `SavePlugin.Serialise` | plugins/plugin_save.py:75-76 | non-empty input gives text ending in "\n"; lines free of CR/LF give text free of CR |
| `SavePlugin.WriteFile` | plugins/plugin_save.py:65-89 | the attempted write holds the serialised lines; success reports "Saved {n} lines to {name}" and clears dirty; a failure reports the error and changes nothing else |
| `SavePlugin.DoSaveFile` | plugins/plugin_save.py:13-89 | only name, dirty flag and status can change; missing tools only give a message when `show_message` is present; a set name is used without asking; a None or whitespace reply cancels; a directory drops the name and writes nothing; otherwise the stripped reply becomes the name before the write; every write holds the serialised lines and targets the session's name; dirty is cleared exactly by a write that worked |
| `SavePlugin.NoPromptWhenNamed` | plugins/plugin_save.py:35-41 | with a name set, the reply and the directory answer play no part |
| `SavePlugin.Register` | plugins/plugin_save.py:93-109 | binds key 19 to the save action carrying the provided tools and keeps other bindings; without `tell_core_about_key` nothing is bound |
| `SavePlugin.FileLinesOfSerialise` | plugins/plugin_save.py:75-76 | iterating the saved text yields exactly each line followed by "\n" |
| `SavePlugin.ReadLinesOfSerialise` | plugins/plugin_save.py:75-76 | reading the saved text back line by line, with line breaks stripped, yields the saved lines |
| `SavePlugin.SaveThenLoad` | plugins/plugin_save.py:72-76 | saving lines free of CR/LF and loading the file back reproduces them exactly |
| `Dispatcher.RunAction` | pooja_core_editor.py:400-404 | a bound action changes only name, dirty flag and status, and cannot make a buffer dirty |
| `Dispatcher.BuiltIn` | pooja_core_editor.py:406-540 | the built-in chain keeps the cursor valid and the window size unchanged; when it acts, the lines change only together with the dirty flag, and a clean buffer turns dirty only when the lines changed; it stops exactly on Ctrl+Q with a clean buffer or a confirmed prompt |
| `Dispatcher.HandleKeyPress` | pooja_core_editor.py:386-548 | the cursor stays valid; the result is False exactly on an unbound key 17 with a clean buffer or a confirmed prompt, and then the session is unchanged; only a bound action writes a file |
| `Dispatcher.DirtyOnlyOnRealEdit` | pooja_core_editor.py:466-533 | a key that changes the lines leaves the buffer dirty, and a key that dirties a clean buffer has changed the lines |
| `Dispatcher.CursorStaysVisible` | pooja_core_editor.py:543-545 | in a window large enough to scroll, a visible cursor stays visible after any key |
| `Dispatcher.BoundKeyShadowsBuiltIns` | pooja_core_editor.py:400-404 | a bound key, even 17 or an arrow, keeps the editor running, moves neither lines nor cursor, and writes what its action writes |
| `Dispatcher.MovementKeepsText` | pooja_core_editor.py:408-464 | unbound movement keys leave lines, dirty flag, name and status unchanged |
| `Dispatcher.QuitDeclined` | pooja_core_editor.py:510-522 | on a dirty buffer with an unconfirmed prompt, the editor keeps running with "Quit cancelled.", the lines and cursor untouched, and the buffer still dirty |
| `Dispatcher.EnterAtEndOfLine` | pooja_core_editor.py:497-508 | ["hello"] with the cursor at (0,5), Enter: ["hello",""], cursor (1,0), dirty |
| `Dispatcher.BackspaceJoinsLines` | pooja_core_editor.py:474-481 | ["ab","cd"] with the cursor at (1,0), key 127: ["abcd"], cursor (0,2), dirty |
| `Dispatcher.BackspaceAtStartIsNoOp` | pooja_core_editor.py:467-481 | ["x"] with the cursor at (0,0), key 127: nothing changes, dirty flag included |
| `Dispatcher.SaveKeyAfterRegister` | plugins/plugin_save.py:35-82 | after `register`, key 19 on an unnamed buffer with a reply that needs no stripping writes the serialised lines under that name, sets the name and leaves the buffer clean |

## Left out

- Drawing (`show_editor_on_screen`) is not modelled. The screen height and width are plain session fields, not read from the terminal.
- `ask_user_for_input` is modelled only through its outcome: the reply, or None for a window too small to prompt in. Echo, cursor placement, `getstr`'s length limit, byte decoding and the handling of Ctrl+C and curses errors are left out. Each of those outcomes is some reply.
- Plugin discovery (`find_and_load_plugins`), the main loop (`run_editor_loop`, including its Ctrl+C quit path), `start_editor` and argument parsing are left out. So is the load at start-up inside `setup_editor_state` (pooja_core_editor.py:33-38), including its replacement of the loader's status with "File: {filename} | Ctrl+Q: Quit" when a name was kept. `Session.Initial` models only the initial record (pooja_core_editor.py:17-30). The model works one key at a time, and the key bindings are simply a map in the session.
- Reading and writing files is abstracted. The lookup is `Missing | Directory | RegularFile(text) | ReadFailure(message)`. A write is `Written | IOFailure(message) | OtherFailure(message)`. UTF-8 decoding with `errors='replace'` is not modelled: file text is already a string.
- Exception messages appear only as the opaque text carried by `ReadFailure` and the write failures.
- The `try` around the "Save As: " prompt (plugins/plugin_save.py:40-44) is not modelled, because `ask_user_for_input` handles its own interrupts and curses errors.
- The save plugin keeps its tools in a module-level dictionary. Here the bound action carries them (`SaveFile(tools)`). A tool is present or absent; a present tool is always truthy.
- The only plugin action modelled is the save plugin's. Any other callable a plugin could bind is outside the model.
- `SavePlugin.Register`: when `tell_core_about_key` is missing, the model binds nothing and carries on. The source instead reaches `print(..., file=sys.stderr)` at plugins/plugin_save.py:112 without importing `sys`. That raises `NameError`, which aborts the editor during plugin loading.
- `Dispatcher.HandleKeyPress` requires a valid cursor. The requirement excludes no reachable state: `setup_editor_state` starts valid (pooja_core_editor.py:17-30, `Session.Initial`), `Loader.LoadFile` ensures it, and `Dispatcher.HandleKeyPress` keeps it. Sessions outside it are not modelled. For example, with the column past the end of the line, Python's slicing clamps and the source keeps going without an error.
- `Text.IsYes` models `answer.lower() == 'y'` as "the answer is y or Y". Those are the only strings Python lower-cases to "y".
- The scroll pass runs only after a branch that acted (pooja_core_editor.py:544). A key that does nothing does not re-reconcile a window left out of date by a resize.
- A failed save keeps a newly typed file name, because the name is set before the write (plugins/plugin_save.py:62).
- The dirty flag records that an edit happened, not that the content differs from disk (pooja_core_editor.py:168-171). Typing a character and deleting it again leaves the buffer dirty.
