/**
 The pure edits the key handler performs on the buffer: removing or
 inserting one character of a line, splitting a line in two, and joining a
 line with the one after it. Each comes with its inverse.
 */
module Lines {

  /** `line[:i] + line[i+1:]`: the character at `i` is gone, the rest keep
      their order. */
  function RemoveAt(line: string, i: nat): (r: string)
    requires i < |line|
    ensures |r| + 1 == |line|
    ensures r[..i] == line[..i] && r[i..] == line[i + 1..]
  {
    line[..i] + line[i + 1..]
  }

  /** `line[:i] + c + line[i:]`: `c` now sits at `i`, the characters from
      `i` on are shifted one place right. */
  function InsertAt(line: string, i: nat, c: char): (r: string)
    requires i <= |line|
    ensures |r| == |line| + 1 && r[i] == c
    ensures r[..i] == line[..i] && r[i + 1..] == line[i..]
  {
    line[..i] + [c] + line[i..]
  }

  lemma RemoveUndoesInsert(line: string, i: nat, c: char)
    requires i <= |line|
    ensures RemoveAt(InsertAt(line, i, c), i) == line
  {
    var r := RemoveAt(InsertAt(line, i, c), i);
    assert r == r[..i] + r[i..];
  }

  lemma InsertUndoesRemove(line: string, i: nat)
    requires i < |line|
    ensures InsertAt(RemoveAt(line, i), i, line[i]) == line
  {
    var r := InsertAt(RemoveAt(line, i), i, line[i]);
    assert r == r[..i] + [r[i]] + r[i + 1..];
    assert line == line[..i] + [line[i]] + line[i + 1..];
  }

  /** Line `row` is cut at `col`: the part before stays at `row`, the part
      after becomes a new line at `row + 1`, later lines move down by one. */
  function SplitLine(lines: seq<string>, row: nat, col: nat): (r: seq<string>)
    requires row < |lines| && col <= |lines[row]|
    ensures |r| == |lines| + 1
    ensures r[..row] == lines[..row] && r[row + 2..] == lines[row + 1..]
    ensures r[row] == lines[row][..col] && r[row + 1] == lines[row][col..]
    ensures r[row] + r[row + 1] == lines[row]
  {
    var line := lines[row];
    assert line[..col] + line[col..] == line;
    lines[..row] + [line[..col], line[col..]] + lines[row + 1..]
  }

  /** Line `row + 1` is appended to line `row` and removed; later lines move
      up by one. */
  function JoinWithNext(lines: seq<string>, row: nat): (r: seq<string>)
    requires row + 1 < |lines|
    ensures |r| + 1 == |lines|
    ensures r[..row] == lines[..row] && r[row + 1..] == lines[row + 2..]
    ensures r[row] == lines[row] + lines[row + 1]
  {
    lines[..row] + [lines[row] + lines[row + 1]] + lines[row + 2..]
  }

  lemma JoinUndoesSplit(lines: seq<string>, row: nat, col: nat)
    requires row < |lines| && col <= |lines[row]|
    ensures JoinWithNext(SplitLine(lines, row, col), row) == lines
  {
    var r := JoinWithNext(SplitLine(lines, row, col), row);
    assert r == r[..row] + [r[row]] + r[row + 1..];
    assert lines == lines[..row] + [lines[row]] + lines[row + 1..];
  }

  lemma SplitUndoesJoin(lines: seq<string>, row: nat)
    requires row + 1 < |lines|
    ensures SplitLine(JoinWithNext(lines, row), row, |lines[row]|) == lines
  {
    var j := JoinWithNext(lines, row);
    var r := SplitLine(j, row, |lines[row]|);
    assert j[row][..|lines[row]|] == lines[row];
    assert j[row][|lines[row]|..] == lines[row + 1];
    assert r == r[..row] + [r[row], r[row + 1]] + r[row + 2..];
    assert lines == lines[..row] + [lines[row], lines[row + 1]] + lines[row + 2..];
  }
}
