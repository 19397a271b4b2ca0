/** The string operations of the host language that the parsers and renderers rest on: white space,
    line boundaries, splitting into lines and stripping. Text is a sequence of Unicode scalar values. */
module Text {

  /** `str.isspace` of one character. */
  predicate IsSpace(c: char) {
    '\U{9}' <= c <= '\U{D}' || '\U{1C}' <= c <= '\U{20}' || c == '\U{85}' || c == '\U{A0}' || c == '\U{1680}' ||
    '\U{2000}' <= c <= '\U{200A}' || c == '\U{2028}' || c == '\U{2029}' || c == '\U{202F}' || c == '\U{205F}' || c == '\U{3000}'
  }

  /** The characters `str.splitlines` ends a line at. */
  predicate IsBreak(c: char) {
    '\U{A}' <= c <= '\U{D}' || '\U{1C}' <= c <= '\U{1E}' || c == '\U{85}' || c == '\U{2028}' || c == '\U{2029}'
  }

  /** The ten line boundaries, by code point; each of them is white space. */
  lemma BreaksSay(c: char)
    ensures IsBreak(c) <==> c as int in {10, 11, 12, 13, 28, 29, 30, 0x85, 0x2028, 0x2029}
    ensures IsBreak(c) ==> IsSpace(c)
    ensures IsSpace(c) <==> IsBreak(c) || c as int in {9, 31, 32, 0xA0, 0x1680, 0x202F, 0x205F, 0x3000} || 0x2000 <= c as int <= 0x200A
  {
  }

  predicate OneLine(s: string) {
    forall i :: 0 <= i < |s| ==> !IsBreak(s[i])
  }

  /** Where the first line ends. */
  function LineEnd(s: string): (n: nat)
    ensures n <= |s| && OneLine(s[..n]) && (n < |s| ==> IsBreak(s[n]))
  {
    if s == "" || IsBreak(s[0]) then 0
    else
      var n := LineEnd(s[1..]) + 1;
      assert forall i :: 0 < i < n ==> s[i] == s[1..][i - 1];
      n
  }

  /** The length of the boundary itself: a carriage return takes a following newline with it. */
  function BreakWidth(s: string, n: nat): nat
    requires n < |s|
  {
    if s[n] == '\r' && n + 1 < |s| && s[n + 1] == '\n' then 2 else 1
  }

  function SplitLines(s: string): (lines: seq<string>)
    ensures s == "" <==> lines == []
  {
    if s == "" then []
    else
      var n := LineEnd(s);
      if n == |s| then [s] else [s[..n]] + SplitLines(s[n + BreakWidth(s, n)..])
  }

  /** Each line closed by one newline. */
  function Unlines(lines: seq<string>): string {
    if lines == [] then "" else lines[0] + "\n" + Unlines(lines[1..])
  }

  predicate AllOneLine(lines: seq<string>) {
    forall i :: 0 <= i < |lines| ==> OneLine(lines[i])
  }

  lemma {:induction false} LineEndOf(line: string, rest: string)
    requires OneLine(line) && (rest != "" ==> IsBreak(rest[0]))
    ensures LineEnd(line + rest) == |line|
  {
    if line == "" {
      assert line + rest == rest;
    } else {
      assert (line + rest)[1..] == line[1..] + rest;
      assert (line + rest)[0] == line[0];
      LineEndOf(line[1..], rest);
    }
  }

  lemma FirstBreak(line: string, tail: string)
    requires OneLine(line)
    ensures var all := line + ("\n" + tail);
            LineEnd(all) == |line| < |all| && all[..|line|] == line && BreakWidth(all, |line|) == 1 && all[|line| + 1..] == tail
  {
    LineEndOf(line, "\n" + tail);
    assert (line + ("\n" + tail))[|line|] == '\n';
  }

  lemma SplitAt(s: string, n: nat)
    requires n == LineEnd(s) < |s|
    ensures SplitLines(s) == [s[..n]] + SplitLines(s[n + BreakWidth(s, n)..])
  {
  }

  lemma SplitFirst(line: string, tail: string)
    requires OneLine(line)
    ensures SplitLines(line + ("\n" + tail)) == [line] + SplitLines(tail)
  {
    FirstBreak(line, tail);
    SplitAt(line + ("\n" + tail), |line|);
  }

  /** A carriage return and the newline behind it are one boundary. */
  lemma ReturnAndNewline(line: string, tail: string)
    requires OneLine(line)
    ensures SplitLines(line + ("\r\n" + tail)) == [line] + SplitLines(tail)
  {
    var all := line + ("\r\n" + tail);
    LineEndOf(line, "\r\n" + tail);
    assert all[|line|] == '\r' && all[|line| + 1] == '\n' && all[..|line|] == line && all[|line| + 2..] == tail;
    SplitAt(all, |line|);
  }

  /** No line of a split text holds a boundary. */
  lemma {:induction false} LinesAreWhole(s: string)
    ensures AllOneLine(SplitLines(s))
    decreases |s|
  {
    if LineEnd(s) < |s| {
      SplitAt(s, LineEnd(s));
      LinesAreWhole(s[LineEnd(s) + BreakWidth(s, LineEnd(s))..]);
    }
  }

  /** Splitting undoes closing: whole lines come back, and whatever follows splits on its own. */
  lemma {:induction false} SplitUnlines(lines: seq<string>, rest: string)
    requires AllOneLine(lines)
    ensures SplitLines(Unlines(lines) + rest) == lines + SplitLines(rest)
  {
    if lines == [] {
      assert Unlines(lines) + rest == rest;
      assert lines + SplitLines(rest) == SplitLines(rest);
    } else {
      var tail := Unlines(lines[1..]) + rest;
      assert Unlines(lines) + rest == lines[0] + ("\n" + tail);
      SplitFirst(lines[0], tail);
      SplitUnlines(lines[1..], rest);
      HeadBack(lines, SplitLines(rest));
    }
  }

  lemma HeadBack<T>(xs: seq<T>, ys: seq<T>)
    requires xs != []
    ensures [xs[0]] + (xs[1..] + ys) == xs + ys
  {
  }

  lemma SplitOneLine(s: string)
    requires OneLine(s)
    ensures SplitLines(s) == if s == "" then [] else [s]
  {
    LineEndOf(s, "");
    assert s + "" == s;
  }

  lemma {:induction false} UnlinesSnoc(lines: seq<string>, line: string)
    ensures Unlines(lines + [line]) == Unlines(lines) + line + "\n"
  {
    if lines == [] {
      assert lines + [line] == [line];
    } else {
      assert (lines + [line])[1..] == lines[1..] + [line];
      UnlinesSnoc(lines[1..], line);
    }
  }

  // --- Stripping --------------------------------------------------------------------------------

  predicate Blank(s: string) {
    forall i :: 0 <= i < |s| ==> IsSpace(s[i])
  }

  function LStrip(s: string): string {
    if s != "" && IsSpace(s[0]) then LStrip(s[1..]) else s
  }

  function RStrip(s: string): string {
    if s != "" && IsSpace(s[|s| - 1]) then RStrip(s[..|s| - 1]) else s
  }

  /** Stripping takes white space off the front, and all of it. */
  lemma {:induction false} LStripTakesSpace(s: string)
    ensures var r := LStrip(s);
            |r| <= |s| && r == s[|s| - |r|..] && Blank(s[..|s| - |r|]) && (r != "" ==> !IsSpace(r[0]))
  {
    if s != "" && IsSpace(s[0]) {
      LStripTakesSpace(s[1..]);
      var r := LStrip(s[1..]);
      assert s[..|s| - |r|] == [s[0]] + s[1..][..|s[1..]| - |r|];
    }
  }

  /** And off the end. */
  lemma {:induction false} RStripTakesSpace(s: string)
    ensures var r := RStrip(s);
            r <= s && Blank(s[|r|..]) && (r != "" ==> !IsSpace(r[|r| - 1]))
  {
    if s != "" && IsSpace(s[|s| - 1]) {
      RStripTakesSpace(s[..|s| - 1]);
      var r := RStrip(s[..|s| - 1]);
      assert s[|r|..] == s[..|s| - 1][|r|..] + [s[|s| - 1]];
    }
  }

  function Strip(s: string): string {
    RStrip(LStrip(s))
  }

  function LowerChar(c: char): char {
    if 'A' <= c <= 'Z' then c - 'A' + 'a' else c
  }

  /** ASCII lower-casing: exact for the comparisons made with it, since no other character lowers to a
      letter of `status:`, `low`, `medium` or `high`. */
  function Lower(s: string): (r: string)
    ensures |r| == |s| && forall i :: 0 <= i < |s| ==> r[i] == LowerChar(s[i])
  {
    if s == "" then "" else [LowerChar(s[0])] + Lower(s[1..])
  }

  predicate StartsWith(s: string, prefix: string) {
    prefix <= s
  }

  predicate EndsWith(s: string, suffix: string) {
    |suffix| <= |s| && s[|s| - |suffix|..] == suffix
  }
}
