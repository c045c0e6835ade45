/**
 The built-in branches of `handle_key_press`, one function per branch. Each
 returns an `Effect`: `Acted` when the branch sets `action_was_taken` (so the
 caller reconciles the viewport afterwards), `Ignored` when it leaves the
 session untouched, `Stop` when it tells the editor to quit.
 */
module BuiltIns {
  import opened Session
  import Lines
  import Text

  datatype Effect = Acted(after: Session) | Ignored | Stop

  function Min(a: nat, b: nat): nat {
    if a <= b then a else b
  }

  /** Nothing but the cursor position differs. */
  predicate CursorOnlyMoved(s: Session, t: Session) {
    t == s.(cursorRow := t.cursorRow, cursorCol := t.cursorCol)
  }

  /** After a vertical move the column is kept, unless the new line is too
      short, in which case the cursor snaps to its end. */
  predicate ColumnKept(col: nat, t: Session)
    requires Valid(t)
  {
    t.cursorCol <= col && (t.cursorCol < col ==> t.cursorCol == |t.lines[t.cursorRow]|)
  }

  /** An edit: only the lines and the cursor changed, and the buffer is now
      dirty. */
  predicate Edited(s: Session, t: Session) {
    t.isDirty && t == s.(lines := t.lines, cursorRow := t.cursorRow, cursorCol := t.cursorCol, isDirty := t.isDirty)
  }

  /** Same number of lines, and every line other than `row` is unchanged. */
  predicate OnlyLineChanged(before: seq<string>, after: seq<string>, row: nat) {
    |after| == |before| && forall i :: 0 <= i < |before| && i != row ==> after[i] == before[i]
  }

  /** Up arrow: one line up, if there is one. */
  function KeyUp(s: Session): (e: Effect)
    requires Valid(s)
    ensures e.Acted? <==> s.cursorRow > 0
    ensures !e.Stop?
    ensures e.Acted? ==> var t := e.after;
      Valid(t) && CursorOnlyMoved(s, t) && t.cursorRow + 1 == s.cursorRow && ColumnKept(s.cursorCol, t)
  {
    if s.cursorRow > 0 then
      var row := s.cursorRow - 1;
      Acted(s.(cursorRow := row, cursorCol := Min(s.cursorCol, |s.lines[row]|)))
    else Ignored
  }

  /** Down arrow: one line down, if there is one. */
  function KeyDown(s: Session): (e: Effect)
    requires Valid(s)
    ensures e.Acted? <==> s.cursorRow + 1 < |s.lines|
    ensures !e.Stop?
    ensures e.Acted? ==> var t := e.after;
      Valid(t) && CursorOnlyMoved(s, t) && t.cursorRow == s.cursorRow + 1 && ColumnKept(s.cursorCol, t)
  {
    if s.cursorRow < |s.lines| - 1 then
      var row := s.cursorRow + 1;
      Acted(s.(cursorRow := row, cursorCol := Min(s.cursorCol, |s.lines[row]|)))
    else Ignored
  }

  /** Left arrow: one column left, or from column 0 to the end of the
      previous line; nothing at the start of the buffer. */
  function KeyLeft(s: Session): (e: Effect)
    requires Valid(s)
    ensures e.Acted? <==> s.cursorCol > 0 || s.cursorRow > 0
    ensures !e.Stop?
    ensures e.Acted? ==> Valid(e.after) && CursorOnlyMoved(s, e.after)
    ensures e.Acted? && s.cursorCol > 0 ==>
      e.after.cursorRow == s.cursorRow && e.after.cursorCol + 1 == s.cursorCol
    ensures e.Acted? && s.cursorCol == 0 ==>
      e.after.cursorRow + 1 == s.cursorRow && e.after.cursorCol == |s.lines[e.after.cursorRow]|
  {
    if s.cursorCol > 0 then
      Acted(s.(cursorCol := s.cursorCol - 1))
    else if s.cursorRow > 0 then
      var row := s.cursorRow - 1;
      Acted(s.(cursorRow := row, cursorCol := |s.lines[row]|))
    else Ignored
  }

  /** Right arrow: one column right, or from the end of a line to the start
      of the next; nothing at the end of the buffer. */
  function KeyRight(s: Session): (e: Effect)
    requires Valid(s)
    ensures e.Acted? <==> s.cursorCol < |s.lines[s.cursorRow]| || s.cursorRow + 1 < |s.lines|
    ensures !e.Stop?
    ensures e.Acted? ==> Valid(e.after) && CursorOnlyMoved(s, e.after)
    ensures e.Acted? && s.cursorCol < |s.lines[s.cursorRow]| ==>
      e.after.cursorRow == s.cursorRow && e.after.cursorCol == s.cursorCol + 1
    ensures e.Acted? && s.cursorCol == |s.lines[s.cursorRow]| ==>
      e.after.cursorRow == s.cursorRow + 1 && e.after.cursorCol == 0
  {
    if s.cursorCol < |s.lines[s.cursorRow]| then
      Acted(s.(cursorCol := s.cursorCol + 1))
    else if s.cursorRow < |s.lines| - 1 then
      Acted(s.(cursorRow := s.cursorRow + 1, cursorCol := 0))
    else Ignored
  }

  /** Home: to column 0 of the current line. */
  function KeyHome(s: Session): (e: Effect)
    requires Valid(s)
    ensures e.Acted? && Valid(e.after) && CursorOnlyMoved(s, e.after)
    ensures e.after.cursorRow == s.cursorRow && e.after.cursorCol == 0
  {
    Acted(s.(cursorCol := 0))
  }

  /** End: just past the last character of the current line. */
  function KeyEnd(s: Session): (e: Effect)
    requires Valid(s)
    ensures e.Acted? && Valid(e.after) && CursorOnlyMoved(s, e.after)
    ensures e.after.cursorRow == s.cursorRow && e.after.cursorCol == |s.lines[s.cursorRow]|
  {
    Acted(s.(cursorCol := |s.lines[s.cursorRow]|))
  }

  /** Page Up: cursor and top line both move up by one page of `height - 1`
      rows, stopping at line 0; only possible when there is a text row. */
  function KeyPageUp(s: Session): (e: Effect)
    requires Valid(s)
    ensures e.Acted? <==> s.height > 1
    ensures !e.Stop?
    ensures e.Acted? ==> var t := e.after; var page := s.height - 1;
      && Valid(t)
      && t == s.(cursorRow := t.cursorRow, cursorCol := t.cursorCol, topLine := t.topLine)
      && (t.cursorRow + page == s.cursorRow || (t.cursorRow == 0 && s.cursorRow < page))
      && (t.topLine + page == s.topLine || (t.topLine == 0 && s.topLine < page))
      && ColumnKept(s.cursorCol, t)
  {
    if s.height > 1 then
      var page := s.height - 1;
      var row := if s.cursorRow >= page then s.cursorRow - page else 0;
      var top := if s.topLine >= page then s.topLine - page else 0;
      Acted(s.(cursorRow := row, topLine := top, cursorCol := Min(s.cursorCol, |s.lines[row]|)))
    else Ignored
  }

  /** The highest top line that still fills a page: `max(0, len(lines) - page)`. */
  function LastPageTop(s: Session): nat
    requires s.height > 1
  {
    if |s.lines| >= s.height - 1 then |s.lines| - (s.height - 1) else 0
  }

  /** Page Down: cursor moves down one page, stopping at the last line; the
      top line moves down one page but no further than `LastPageTop`. */
  function KeyPageDown(s: Session): (e: Effect)
    requires Valid(s)
    ensures e.Acted? <==> s.height > 1
    ensures !e.Stop?
    ensures e.Acted? ==> var t := e.after; var page := s.height - 1;
      && Valid(t)
      && t == s.(cursorRow := t.cursorRow, cursorCol := t.cursorCol, topLine := t.topLine)
      && t.cursorRow <= s.cursorRow + page
      && (t.cursorRow == s.cursorRow + page || t.cursorRow + 1 == |s.lines|)
      && t.topLine <= s.topLine + page && t.topLine <= LastPageTop(s)
      && (t.topLine == s.topLine + page || t.topLine == LastPageTop(s))
      && ColumnKept(s.cursorCol, t)
  {
    if s.height > 1 then
      var page := s.height - 1;
      var row := Min(|s.lines| - 1, s.cursorRow + page);
      var top := Min(LastPageTop(s), s.topLine + page);
      Acted(s.(cursorRow := row, topLine := top, cursorCol := Min(s.cursorCol, |s.lines[row]|)))
    else Ignored
  }

  /** Backspace: removes the character before the cursor; at column 0 of a
      later line, appends the line to the previous one and puts the cursor at
      the join; at the start of the buffer, does nothing (and so leaves the
      dirty flag alone). */
  function Backspace(s: Session): (e: Effect)
    requires Valid(s)
    ensures e.Acted? <==> s.cursorCol > 0 || s.cursorRow > 0
    ensures !e.Stop?
    ensures e.Acted? ==> Valid(e.after) && Edited(s, e.after) && e.after.lines != s.lines
    ensures e.Acted? && s.cursorCol > 0 ==> var t := e.after; var row := s.cursorRow;
      && t.cursorRow == row && t.cursorCol + 1 == s.cursorCol
      && OnlyLineChanged(s.lines, t.lines, row)
      && |t.lines[row]| + 1 == |s.lines[row]|
      && t.lines[row][..t.cursorCol] == s.lines[row][..t.cursorCol]
      && t.lines[row][t.cursorCol..] == s.lines[row][s.cursorCol..]
    ensures e.Acted? && s.cursorCol == 0 ==> var t := e.after; var prev := t.cursorRow;
      && prev + 1 == s.cursorRow && t.cursorCol == |s.lines[prev]|
      && |t.lines| + 1 == |s.lines|
      && t.lines[..prev] == s.lines[..prev]
      && t.lines[prev] == s.lines[prev] + s.lines[s.cursorRow]
      && t.lines[prev + 1..] == s.lines[s.cursorRow + 1..]
  {
    var row := s.cursorRow;
    var col := s.cursorCol;
    if col > 0 then
      Acted(MarkChanged(s.(lines := s.lines[row := Lines.RemoveAt(s.lines[row], col - 1)], cursorCol := col - 1)))
    else if row > 0 then
      Acted(MarkChanged(s.(lines := Lines.JoinWithNext(s.lines, row - 1), cursorRow := row - 1, cursorCol := |s.lines[row - 1]|)))
    else Ignored
  }

  /** Delete: removes the character under the cursor; at the end of a line
      that is not the last, appends the next line to it; at the end of the
      buffer, does nothing. The cursor never moves. */
  function DeleteForward(s: Session): (e: Effect)
    requires Valid(s)
    ensures e.Acted? <==> s.cursorCol < |s.lines[s.cursorRow]| || s.cursorRow + 1 < |s.lines|
    ensures !e.Stop?
    ensures e.Acted? ==> var t := e.after;
      Valid(t) && Edited(s, t) && t.lines != s.lines && t.cursorRow == s.cursorRow && t.cursorCol == s.cursorCol
    ensures e.Acted? && s.cursorCol < |s.lines[s.cursorRow]| ==> var t := e.after; var row := s.cursorRow;
      && OnlyLineChanged(s.lines, t.lines, row)
      && |t.lines[row]| + 1 == |s.lines[row]|
      && t.lines[row][..s.cursorCol] == s.lines[row][..s.cursorCol]
      && t.lines[row][s.cursorCol..] == s.lines[row][s.cursorCol + 1..]
    ensures e.Acted? && s.cursorCol == |s.lines[s.cursorRow]| ==> var t := e.after; var row := s.cursorRow;
      && |t.lines| + 1 == |s.lines|
      && t.lines[..row] == s.lines[..row]
      && t.lines[row] == s.lines[row] + s.lines[row + 1]
      && t.lines[row + 1..] == s.lines[row + 2..]
  {
    var row := s.cursorRow;
    var col := s.cursorCol;
    if col < |s.lines[row]| then
      Acted(MarkChanged(s.(lines := s.lines[row := Lines.RemoveAt(s.lines[row], col)])))
    else if row < |s.lines| - 1 then
      Acted(MarkChanged(s.(lines := Lines.JoinWithNext(s.lines, row))))
    else Ignored
  }

  /** Enter: the current line is cut at the cursor; the text after the
      cursor becomes a new line below, where the cursor goes to column 0. */
  function Enter(s: Session): (e: Effect)
    requires Valid(s)
    ensures e.Acted? && Valid(e.after) && Edited(s, e.after) && e.after.lines != s.lines
    ensures var t := e.after; var row := s.cursorRow;
      && t.cursorRow == row + 1 && t.cursorCol == 0
      && |t.lines| == |s.lines| + 1
      && t.lines[..row] == s.lines[..row]
      && t.lines[row + 2..] == s.lines[row + 1..]
      && t.lines[row] + t.lines[row + 1] == s.lines[row]
      && |t.lines[row]| == s.cursorCol
  {
    Acted(MarkChanged(s.(
      lines := Lines.SplitLine(s.lines, s.cursorRow, s.cursorCol),
      cursorRow := s.cursorRow + 1,
      cursorCol := 0)))
  }

  /** A printable key (codes 32 to 126): its character is inserted at the
      cursor, which moves one column right. */
  function InsertPrintable(s: Session, key: int): (e: Effect)
    requires Valid(s) && 32 <= key <= 126
    ensures e.Acted? && Valid(e.after) && Edited(s, e.after) && e.after.lines != s.lines
    ensures var t := e.after; var row := s.cursorRow; var col := s.cursorCol;
      && t.cursorRow == row && t.cursorCol == col + 1
      && OnlyLineChanged(s.lines, t.lines, row)
      && |t.lines[row]| == |s.lines[row]| + 1
      && t.lines[row][col] == key as char
      && t.lines[row][..col] == s.lines[row][..col]
      && t.lines[row][col + 1..] == s.lines[row][col..]
  {
    var row := s.cursorRow;
    Acted(MarkChanged(s.(
      lines := s.lines[row := Lines.InsertAt(s.lines[row], s.cursorCol, key as char)],
      cursorCol := s.cursorCol + 1)))
  }

  /** The quit test `confirm and confirm.lower() == 'y'`. */
  predicate Confirmed(answer: Option<string>) {
    answer.Some? && answer.value != "" && Text.IsYes(answer.value)
  }

  /** Ctrl+Q: stops at once on a clean buffer; on a dirty one asks for
      confirmation and stops only on "y"/"Y", otherwise reports
      "Quit cancelled." and carries on with the buffer untouched. */
  function Quit(s: Session, reply: Option<string>): (e: Effect)
    ensures !e.Ignored?
    ensures e.Stop? <==> !s.isDirty || Confirmed(AskUser(s, reply))
    ensures e.Acted? ==> e.after == s.(status := "Quit cancelled.")
  {
    if s.isDirty then
      var confirm := AskUser(s, reply);
      if Confirmed(confirm) then Stop
      else Acted(ShowMessage(s, "Quit cancelled."))
    else Stop
  }

  /** Left undoes Right and Right undoes Left, wherever they move. */
  lemma LeftRightInverse(s: Session)
    requires Valid(s)
    ensures KeyLeft(s).Acted? ==> KeyRight(KeyLeft(s).after) == Acted(s)
    ensures KeyRight(s).Acted? ==> KeyLeft(KeyRight(s).after) == Acted(s)
  {
  }

  /** Backspace right after typing a character restores the lines and the
      cursor. */
  lemma BackspaceUndoesInsert(s: Session, key: int)
    requires Valid(s) && 32 <= key <= 126
    ensures var t := Backspace(InsertPrintable(s, key).after);
      t.Acted? && t.after == s.(isDirty := true)
  {
    var row := s.cursorRow;
    var col := s.cursorCol;
    Lines.RemoveUndoesInsert(s.lines[row], col, key as char);
    assert s.lines[row := s.lines[row]] == s.lines;
  }

  /** Backspace right after Enter rejoins the split line and puts the cursor
      back where it was. */
  lemma BackspaceUndoesEnter(s: Session)
    requires Valid(s)
    ensures var t := Backspace(Enter(s).after);
      t.Acted? && t.after == s.(isDirty := true)
  {
    Lines.JoinUndoesSplit(s.lines, s.cursorRow, s.cursorCol);
  }

  /** Delete at the end of a line undoes Enter typed there, cursor included. */
  lemma DeleteUndoesEnterAtEnd(s: Session)
    requires Valid(s) && s.cursorCol == |s.lines[s.cursorRow]|
    ensures var left := KeyLeft(Enter(s).after);
      left.Acted? && DeleteForward(left.after).Acted?
      && DeleteForward(left.after).after == s.(isDirty := true)
  {
    Lines.JoinUndoesSplit(s.lines, s.cursorRow, s.cursorCol);
  }
}
