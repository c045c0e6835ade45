/**
 `load_file_into_editor`: the four outcomes of looking a path up, and how the
 text of a regular file becomes buffer lines. Opening the file in text mode
 translates "\r\n" and a lone "\r" to "\n"; iterating over it yields pieces
 that end just after each "\n" (the last may lack one); each piece is then
 stripped of trailing "\n"/"\r" characters.
 */
module Loader {
  import opened Session
  import Text

  /** What the path turned out to be: absent, a directory, a regular file
      whose decoded text is `content`, or a file whose opening or reading
      raised an exception with message `reason`. */
  datatype FsEntry = Missing | Directory | RegularFile(content: string) | ReadFailure(reason: string)

  /** Universal-newline translation: no "\r" survives, and only "\r" (or
      the "\r" of "\r\n") is rewritten. */
  function TranslateNewlines(s: string): (r: string)
    ensures forall i :: 0 <= i < |r| ==> r[i] != '\r'
    ensures |r| <= |s| && (|s| > 0 ==> |r| > 0)
    decreases |s|
  {
    if |s| == 0 then ""
    else if s[0] == '\r' then
      "\n" + TranslateNewlines(if |s| > 1 && s[1] == '\n' then s[2..] else s[1..])
    else [s[0]] + TranslateNewlines(s[1..])
  }

  /** Text without carriage returns reads back unchanged. */
  lemma {:induction false} TranslateWithoutCarriageReturn(s: string)
    requires forall i :: 0 <= i < |s| ==> s[i] != '\r'
    ensures TranslateNewlines(s) == s
    decreases |s|
  {
    if |s| > 0 {
      TranslateWithoutCarriageReturn(s[1..]);
      assert s == [s[0]] + s[1..];
    }
  }

  /** A "\r\n" becomes a single "\n"; text before it without carriage
      returns is kept as it is. */
  lemma {:induction false} CarriageReturnNewlineEndsLine(a: string, b: string)
    requires forall i :: 0 <= i < |a| ==> a[i] != '\r'
    ensures TranslateNewlines(a + "\r\n" + b) == a + "\n" + TranslateNewlines(b)
    decreases |a|
  {
    if |a| == 0 {
      assert a + "\r\n" + b == "\r\n" + b;
      assert ("\r\n" + b)[2..] == b;
    } else {
      CarriageReturnNewlineEndsLine(a[1..], b);
      assert (a + "\r\n" + b)[1..] == a[1..] + "\r\n" + b;
      assert a == [a[0]] + a[1..];
    }
  }

  /** A lone "\r" (one not followed by "\n") becomes "\n". */
  lemma {:induction false} LoneCarriageReturnEndsLine(a: string, b: string)
    requires forall i :: 0 <= i < |a| ==> a[i] != '\r'
    requires |b| == 0 || b[0] != '\n'
    ensures TranslateNewlines(a + "\r" + b) == a + "\n" + TranslateNewlines(b)
    decreases |a|
  {
    if |a| == 0 {
      assert a + "\r" + b == "\r" + b;
      assert ("\r" + b)[1..] == b;
    } else {
      LoneCarriageReturnEndsLine(a[1..], b);
      assert (a + "\r" + b)[1..] == a[1..] + "\r" + b;
      assert a == [a[0]] + a[1..];
    }
  }

  /** The index just past the first "\n" of `s`, or `|s|` when it has none. */
  function LineEnd(s: string): (k: nat)
    ensures k <= |s| && (|s| > 0 ==> k > 0)
    ensures forall i :: 0 <= i < k - 1 ==> s[i] != '\n'
    ensures k < |s| ==> s[k - 1] == '\n'
    decreases |s|
  {
    if |s| == 0 then 0
    else if s[0] == '\n' then 1
    else 1 + LineEnd(s[1..])
  }

  /** The pieces concatenated in order. */
  function Concat(pieces: seq<string>): string {
    if |pieces| == 0 then "" else pieces[0] + Concat(pieces[1..])
  }

  /** What `for line in f` yields for the (translated) text `s`: non-empty
      pieces that together spell `s`, each holding a "\n" only as its last
      character, and every piece but the last ending in "\n". */
  function FileLines(s: string): (r: seq<string>)
    ensures Concat(r) == s
    ensures forall i :: 0 <= i < |r| ==> |r[i]| > 0
    ensures forall i, j :: 0 <= i < |r| && 0 <= j < |r[i]| - 1 ==> r[i][j] != '\n'
    ensures forall i :: 0 <= i < |r| - 1 ==> r[i][|r[i]| - 1] == '\n'
    decreases |s|
  {
    if |s| == 0 then []
    else
      var k := LineEnd(s);
      var rest := FileLines(s[k..]);
      var r := [s[..k]] + rest;
      assert r[1..] == rest;
      assert s[..k] + s[k..] == s;
      r
  }

  /** `[line.rstrip('\n\r') for line in f]` for the file text `content`. */
  function ReadLines(content: string): seq<string> {
    var pieces := FileLines(TranslateNewlines(content));
    seq(|pieces|, i requires 0 <= i < |pieces| => Text.RStripLineBreaks(pieces[i]))
  }

  /** An instance of the two lemmas above, through to the buffer lines:
      "\r\n" and a lone "\r" end a line just as "\n" does, so saving writes
      "\n" where the file had either. */
  lemma CarriageReturnsEndLines()
    ensures ReadLines("ab\r\ncd\re") == ["ab", "cd", "e"]
  {
    TranslateExample();
    SplitExample();
    var pieces := FileLines("ab\ncd\ne");
    var r := ReadLines("ab\r\ncd\re");
    assert |r| == 3;
    Text.RStripAppendedNewline("ab");
    assert pieces[0] == "ab" + "\n";
    assert r[0] == "ab";
    Text.RStripAppendedNewline("cd");
    assert pieces[1] == "cd" + "\n";
    assert r[1] == "cd";
    assert r[2] == Text.RStripLineBreaks("e") == "e";
  }

  lemma TranslateExample()
    ensures TranslateNewlines("ab\r\ncd\re") == "ab\ncd\ne"
  {
    var text := "ab\r\ncd\re";
    assert TranslateNewlines(text[7..]) == "e";
    assert text[6] == '\r' && text[7..] == "e";
    assert TranslateNewlines(text[6..]) == "\ne";
    assert TranslateNewlines(text[5..]) == "d\ne";
    assert TranslateNewlines(text[4..]) == "cd\ne";
    assert text[2] == '\r' && text[3] == '\n' && text[2..][2..] == text[4..];
    assert TranslateNewlines(text[2..]) == "\ncd\ne";
    assert TranslateNewlines(text[1..]) == "b\ncd\ne";
  }

  lemma SplitExample()
    ensures FileLines("ab\ncd\ne") == ["ab\n", "cd\n", "e"]
  {
    var text := "ab\ncd\ne";
    var second := text[3..];
    var third := second[3..];
    assert second == "cd\ne" && third == "e";
    assert LineEnd(third) == 1 && third[..1] == "e" && third[1..] == "";
    assert FileLines(third[1..]) == [];
    assert FileLines(third) == ["e"];
    assert LineEnd(second) == 3 && second[..3] == "cd\n";
    assert FileLines(second) == ["cd\n", "e"];
    assert LineEnd(text) == 3 && text[..3] == "ab\n";
  }

  /** The state every branch of the loader leaves: the given lines, the
      cursor and both scroll offsets at 0, a clean buffer. */
  predicate FreshBuffer(s: Session) {
    && |s.lines| >= 1
    && s.cursorRow == 0 && s.cursorCol == 0
    && s.topLine == 0 && s.leftCol == 0
    && !s.isDirty
  }

  function Reset(s: Session, lines: seq<string>, filename: Option<string>, status: string): Session {
    s.(lines := lines, filename := filename, isDirty := false,
       cursorRow := 0, cursorCol := 0, topLine := 0, leftCol := 0, status := status)
  }

  /** `load_file_into_editor(editor_state, filename)` when the path looks
      like `entry`. Every branch starts a fresh, valid buffer and keeps the
      bindings and window size; the name is remembered for a file and for a
      new (missing) file and forgotten for a directory or a read failure; a
      file's lines are its text split at line ends with the line breaks
      removed, and an empty file gives one empty line. */
  function LoadFile(s: Session, filename: string, entry: FsEntry): (r: Session)
    ensures Valid(r) && FreshBuffer(r)
    ensures r.keyActions == s.keyActions && r.height == s.height && r.width == s.width
    ensures (entry.Missing? || entry.RegularFile?) <==> r.filename == Some(filename)
    ensures (entry.Directory? || entry.ReadFailure?) <==> r.filename.None?
    ensures !entry.RegularFile? ==> r.lines == [""]
    ensures entry.RegularFile? && entry.content == "" ==> r.lines == [""]
    ensures entry.RegularFile? && entry.content != "" ==>
      var pieces := FileLines(TranslateNewlines(entry.content));
      && |r.lines| == |pieces|
      && forall i :: 0 <= i < |pieces| ==> r.lines[i] == Text.RStripLineBreaks(pieces[i])
    ensures entry.RegularFile? ==> r.status == "Opened: " + filename
    ensures entry.Directory? ==> r.status == "Error: '" + filename + "' is a folder."
    ensures entry.Missing? ==> r.status == "New File: " + filename + " | Ctrl+Q: Quit"
    ensures entry.ReadFailure? ==> r.status == "Error loading " + filename + ": " + entry.reason
  {
    match entry
    case RegularFile(content) =>
      var read := ReadLines(content);
      Reset(s, if read == [] then [""] else read, Some(filename), "Opened: " + filename)
    case Directory =>
      Reset(s, [""], None, "Error: '" + filename + "' is a folder.")
    case Missing =>
      Reset(s, [""], Some(filename), "New File: " + filename + " | Ctrl+Q: Quit")
    case ReadFailure(reason) =>
      Reset(s, [""], None, "Error loading " + filename + ": " + reason)
  }
}
