/**
 The few Python string operations the editor relies on, written out over
 `string` (a `seq<char>`): `str.isspace`, `str.strip`, `str.rstrip` with an
 explicit character set, `str(n)` for a natural number, and the `lower() == "y"`
 test of the quit confirmation.
 */
module Text {

  /** Python's `str.isspace()` on a single character (Unicode White_Space
      characters plus the ASCII information separators 0x1C..0x1F). */
  predicate IsSpace(c: char) {
    var n := c as int;
    || n == 0x20
    || 0x09 <= n <= 0x0D
    || 0x1C <= n <= 0x1F
    || n == 0x85
    || n == 0xA0
    || n == 0x1680
    || 0x2000 <= n <= 0x200A
    || n == 0x2028
    || n == 0x2029
    || n == 0x202F
    || n == 0x205F
    || n == 0x3000
  }

  /** The two characters `rstrip('\n\r')` removes. */
  predicate IsLineBreak(c: char) {
    c == '\n' || c == '\r'
  }

  /** True when no character of `s` is a line break. */
  predicate NoLineBreaks(s: string) {
    forall i :: 0 <= i < |s| ==> !IsLineBreak(s[i])
  }

  /** Drops the longest prefix of characters satisfying `drop`. */
  function TrimStart(s: string, drop: char -> bool): (r: string)
    ensures |r| <= |s| && r == s[|s| - |r|..]
    ensures forall i :: 0 <= i < |s| - |r| ==> drop(s[i])
    ensures |r| > 0 ==> !drop(r[0])
    decreases |s|
  {
    if |s| > 0 && drop(s[0]) then TrimStart(s[1..], drop) else s
  }

  /** Drops the longest suffix of characters satisfying `drop`
      (Python's `s.rstrip(chars)` when `drop` tests membership in `chars`). */
  function TrimEnd(s: string, drop: char -> bool): (r: string)
    ensures |r| <= |s| && r == s[..|r|]
    ensures forall i :: |r| <= i < |s| ==> drop(s[i])
    ensures |r| > 0 ==> !drop(r[|r| - 1])
    decreases |s|
  {
    if |s| > 0 && drop(s[|s| - 1]) then TrimEnd(s[..|s| - 1], drop) else s
  }

  /** Python's `s.strip()`: leading and trailing whitespace removed. The
      result is empty exactly when `s` consists of whitespace only. */
  function Strip(s: string): (r: string)
    ensures r == "" <==> forall i :: 0 <= i < |s| ==> IsSpace(s[i])
    ensures r != "" ==> !IsSpace(r[0]) && !IsSpace(r[|r| - 1])
    ensures |r| <= |s|
    ensures exists a, b :: TrimmedSlice(s, a, b, IsSpace, r)
  {
    var front := TrimStart(s, IsSpace);
    var r := TrimEnd(front, IsSpace);
    SliceOfSlice(s, IsSpace, front, r);
    r
  }

  /** `r` is `s[a..b]` and every character outside that slice satisfies
      `drop`. */
  predicate TrimmedSlice(s: string, a: int, b: int, drop: char -> bool, r: string) {
    && 0 <= a <= b <= |s| && r == s[a..b]
    && (forall k :: 0 <= k < a ==> drop(s[k]))
    && (forall k :: b <= k < |s| ==> drop(s[k]))
  }

  /** A prefix `r` of a suffix `front` of `s` is a slice of `s`; when what
      the two cuts dropped satisfies `drop`, `r` is a trimmed slice. */
  lemma SliceOfSlice(s: string, drop: char -> bool, front: string, r: string)
    requires |front| <= |s| && front == s[|s| - |front|..]
    requires forall i :: 0 <= i < |s| - |front| ==> drop(s[i])
    requires |r| <= |front| && r == front[..|r|]
    requires forall i :: |r| <= i < |front| ==> drop(front[i])
    ensures TrimmedSlice(s, |s| - |front|, |s| - |front| + |r|, drop, r)
  {
    var a := |s| - |front|;
    var b := a + |r|;
    assert r == s[a..b];
    assert forall k :: b <= k < |s| ==> s[k] == front[k - a];
  }

  /** A string that neither starts nor ends with whitespace strips to
      itself. */
  lemma {:induction false} StripLeavesTrimmed(s: string)
    requires |s| > 0 ==> !IsSpace(s[0]) && !IsSpace(s[|s| - 1])
    ensures Strip(s) == s
  {
    var r := Strip(s);
    var a, b :| TrimmedSlice(s, a, b, IsSpace, r);
    assert a == 0 && b == |s|;
    assert s[0..|s|] == s;
  }

  /** Python's `s.rstrip('\n\r')`. */
  function RStripLineBreaks(s: string): (r: string)
    ensures |r| <= |s| && r == s[..|r|] && NoLineBreaksAtEnd(r)
    ensures forall i :: |r| <= i < |s| ==> IsLineBreak(s[i])
  {
    TrimEnd(s, IsLineBreak)
  }

  predicate NoLineBreaksAtEnd(s: string) {
    |s| > 0 ==> !IsLineBreak(s[|s| - 1])
  }

  /** `rstrip('\n\r')` undoes appending a single newline to a line that
      holds no line break of its own. */
  lemma RStripAppendedNewline(line: string)
    requires NoLineBreaks(line)
    ensures RStripLineBreaks(line + "\n") == line
  {
    var s := line + "\n";
    var r := RStripLineBreaks(s);
    if |line| > 0 {
      assert !IsLineBreak(s[|line| - 1]);
    }
    assert s[..|line|] == line;
  }

  /** The test `answer.lower() == 'y'`: "y" and "Y" are the only strings
      Python lower-cases to "y". */
  predicate IsYes(answer: string) {
    answer == "y" || answer == "Y"
  }

  predicate IsDigit(c: char) {
    '0' <= c <= '9'
  }

  predicate AllDigits(s: string) {
    forall i :: 0 <= i < |s| ==> IsDigit(s[i])
  }

  function DigitChar(d: nat): (c: char)
    requires d < 10
    ensures IsDigit(c) && c as int - '0' as int == d
  {
    ('0' as int + d) as char
  }

  /** The number a string of decimal digits denotes. */
  function DecimalValue(s: string): nat
    requires AllDigits(s)
  {
    if |s| == 0 then 0
    else DecimalValue(s[..|s| - 1]) * 10 + (s[|s| - 1] as int - '0' as int)
  }

  /** Python's `str(n)` (the `{num_lines}` of an f-string) for a natural
      number: canonical decimal digits that denote `n`. */
  function NatToDecimal(n: nat): (r: string)
    ensures |r| >= 1 && AllDigits(r)
    ensures |r| > 1 ==> r[0] != '0'
    ensures DecimalValue(r) == n
    decreases n
  {
    if n < 10 then [DigitChar(n)]
    else
      var high := NatToDecimal(n / 10);
      var r := high + [DigitChar(n % 10)];
      assert r[..|r| - 1] == high;
      r
  }
}
