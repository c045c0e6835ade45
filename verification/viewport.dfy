/**
 Scroll reconciliation (`move_cursor_and_scroll`): the window onto the
 buffer is `height - 1` text rows (the last terminal row is the status bar)
 by `width` columns, anchored at (`topLine`, `leftCol`).
 */
module Viewport {
  import opened Session

  /** The window has at least one text row and one column. */
  predicate CanScroll(s: Session) {
    s.height > 1 && s.width > 0
  }

  /** The cursor lies inside the window. */
  predicate CursorVisible(s: Session) {
    && s.topLine <= s.cursorRow < s.topLine + (s.height - 1)
    && s.leftCol <= s.cursorCol < s.leftCol + s.width
  }

  function ClampToZero(x: int): nat {
    if x < 0 then 0 else x
  }

  /** Moves the window just far enough to bring the cursor into view. Only
      the two scroll offsets can change; a window too small to scroll is left
      alone; each direction moves exactly when the cursor was out of view in
      that direction, and then only as far as needed: the cursor ends on the first or last
      visible row (column) on the side it left by. */
  function Reconcile(s: Session): (r: Session)
    ensures r == s.(topLine := r.topLine, leftCol := r.leftCol)
    ensures !CanScroll(s) ==> r == s
    ensures CanScroll(s) ==> CursorVisible(r)
    ensures CanScroll(s) ==> (r == s <==> CursorVisible(s))
    ensures CanScroll(s) && s.cursorRow < s.topLine ==> r.topLine == s.cursorRow
    ensures CanScroll(s) && s.cursorRow >= s.topLine + (s.height - 1) ==> s.cursorRow == r.topLine + (s.height - 2)
    ensures CanScroll(s) && s.cursorCol < s.leftCol ==> r.leftCol == s.cursorCol
    ensures CanScroll(s) && s.cursorCol >= s.leftCol + s.width ==> s.cursorCol == r.leftCol + (s.width - 1)
    ensures CanScroll(s) && s.topLine <= s.cursorRow < s.topLine + (s.height - 1) ==> r.topLine == s.topLine
    ensures CanScroll(s) && s.leftCol <= s.cursorCol < s.leftCol + s.width ==> r.leftCol == s.leftCol
  {
    if s.height <= 1 || s.width <= 0 then s
    else
      var shown := s.height - 1;
      var top: int :=
        if s.cursorRow < s.topLine then s.cursorRow
        else if s.cursorRow >= s.topLine + shown then s.cursorRow - shown + 1
        else s.topLine;
      var left: int :=
        if s.cursorCol < s.leftCol then s.cursorCol
        else if s.cursorCol >= s.leftCol + s.width then s.cursorCol - s.width + 1
        else s.leftCol;
      s.(topLine := ClampToZero(top), leftCol := ClampToZero(left))
  }

  /** Reconciling a second time changes nothing. */
  lemma ReconcileIdempotent(s: Session)
    ensures Reconcile(Reconcile(s)) == Reconcile(s)
  {
    var r := Reconcile(s);
    if CanScroll(s) {
      assert CanScroll(r) && CursorVisible(r);
    }
  }
}
