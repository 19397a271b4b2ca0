/** The append-only JSONL log at character level: one printer, one torn-tail-tolerant and
    interior-strict reader. The JSON codec itself is a parameter. */
module Jsonl {
  import opened Wrappers
  import opened Text

  datatype Codec<!E> = Codec(enc: E -> string, dec: string -> Option<E>)

  /** What printing an object promises of one event: it reads back, begins with a brace or any other character that is no white
      space, and no part of it reads. Whether it is one line is another matter. */
  ghost predicate Loads<E>(c: Codec<E>, e: E) {
    c.dec(c.enc(e)) == Some(e) && c.enc(e) != "" && !IsSpace(c.enc(e)[0]) &&
    forall k :: 0 <= k < |c.enc(e)| ==> c.dec(c.enc(e)[..k]) == None
  }

  /** A line that is neither blank nor readable. */
  predicate Bad<E>(c: Codec<E>, line: string) {
    !Blank(line) && c.dec(line).None?
  }

  /** The event of a readable line. */
  function Read<E>(c: Codec<E>, line: string): seq<E> {
    if !Blank(line) && c.dec(line).Some? then [c.dec(line).value] else []
  }

  /** The events of the readable lines, in order. */
  function Events<E>(c: Codec<E>, lines: seq<string>): seq<E> {
    if lines == [] then [] else Events(c, lines[..|lines| - 1]) + Read(c, lines[|lines| - 1])
  }

  predicate Holed<E>(c: Codec<E>, lines: seq<string>) {
    exists i :: 0 <= i < |lines| - 1 && Bad(c, lines[i])
  }

  function LinesContents<E>(c: Codec<E>, lines: seq<string>): Result<seq<E>, ()> {
    if Holed(c, lines) then Failure(()) else Success(Events(c, lines))
  }

  /** What a reader of this file gets; a failure stands for LogCorruptionError. */
  function Contents<E>(c: Codec<E>, text: string): Result<seq<E>, ()> {
    LinesContents(c, SplitLines(text))
  }

  method ReadJsonl<E>(c: Codec<E>, file: Option<string>) returns (r: Result<seq<E>, ()>)
    ensures r == if file.None? then Success([]) else Contents(c, file.value)
  {
    if file.None? {
      return Success([]);
    }
    var lines := SplitLines(file.value);
    var last := |lines| - 1;
    var entries: seq<E> := [];
    for i := 0 to |lines|
      invariant entries == Events(c, lines[..i])
      invariant forall j :: 0 <= j < i && j < last ==> !Bad(c, lines[j])
    {
      assert lines[..i + 1][..i] == lines[..i];
      var raw := lines[i];
      if Blank(raw) {
        continue;
      }
      var parsed := c.dec(raw);
      if parsed.None? {
        if i == last {
          continue;
        }
        assert Bad(c, lines[i]);
        return Failure(());
      }
      entries := entries + [parsed.value];
    }
    assert lines[..|lines|] == lines;
    return Success(entries);
  }

  class LogFile<!E> {
    const codec: Codec<E>
    var file: Option<string>

    constructor (codec: Codec<E>)
      ensures this.codec == codec && file == None
    {
      this.codec, file := codec, None;
    }

    method Append(event: E)
      modifies this`file
      ensures file == Some((if old(file).None? then "" else old(file).value) + codec.enc(event) + "\n")
    {
      var before := if file.None? then "" else file.value;
      file := Some(before + codec.enc(event) + "\n");
    }
  }

  // --- Whole appends read back ------------------------------------------------------------------

  function Printed<E>(c: Codec<E>, events: seq<E>): (lines: seq<string>)
    ensures |lines| == |events| && forall i :: 0 <= i < |events| ==> lines[i] == c.enc(events[i])
  {
    if events == [] then [] else Printed(c, events[..|events| - 1]) + [c.enc(events[|events| - 1])]
  }

  lemma LoadedReads<E>(c: Codec<E>, e: E)
    requires Loads(c, e)
    ensures !Blank(c.enc(e)) && Read(c, c.enc(e)) == [e] && !Bad(c, c.enc(e))
  {
    assert !IsSpace(c.enc(e)[0]);
  }

  lemma EventsSnoc<E>(c: Codec<E>, lines: seq<string>, line: string)
    ensures Events(c, lines + [line]) == Events(c, lines) + Read(c, line)
  {
    assert (lines + [line])[..|lines|] == lines;
  }

  lemma PrintedAreGood<E>(c: Codec<E>, events: seq<E>)
    requires forall e :: e in events ==> Loads(c, e)
    ensures forall i :: 0 <= i < |events| ==> !Bad(c, Printed(c, events)[i])
  {
    forall i | 0 <= i < |events| ensures !Bad(c, Printed(c, events)[i]) {
      LoadedReads(c, events[i]);
    }
  }

  lemma {:induction false} PrintedRead<E>(c: Codec<E>, events: seq<E>)
    requires forall e :: e in events ==> Loads(c, e)
    ensures Events(c, Printed(c, events)) == events
  {
    if events != [] {
      var init, last := events[..|events| - 1], events[|events| - 1];
      PrintedRead(c, init);
      LoadedReads(c, last);
      EventsSnoc(c, Printed(c, init), c.enc(last));
      assert init + [last] == events;
    }
  }

  lemma PrintedEvents<E>(c: Codec<E>, events: seq<E>)
    requires forall e :: e in events ==> Loads(c, e)
    ensures Events(c, Printed(c, events)) == events
    ensures forall i :: 0 <= i < |events| ==> !Bad(c, Printed(c, events)[i])
  {
    PrintedRead(c, events);
    PrintedAreGood(c, events);
  }

  lemma PrintedReadable<E>(c: Codec<E>, events: seq<E>)
    requires forall e :: e in events ==> Loads(c, e) && OneLine(c.enc(e))
    ensures var lines := Printed(c, events);
            AllOneLine(lines) && !Holed(c, lines) && !LastIsBad(c, lines) && Events(c, lines) == events
  {
    PrintedEvents(c, events);
  }

  lemma ContentsOfLines<E>(c: Codec<E>, text: string, lines: seq<string>, rest: string)
    requires AllOneLine(lines) && OneLine(rest) && text == Unlines(lines) + rest
    ensures Contents(c, text) == LinesContents(c, if rest == "" then lines else lines + [rest])
  {
    SplitUnlines(lines, rest);
    SplitOneLine(rest);
    assert lines + [] == lines;
  }

  predicate LastIsBad<E>(c: Codec<E>, lines: seq<string>) {
    lines != [] && Bad(c, lines[|lines| - 1])
  }

  /** One more line: a malformed line before it becomes a hole, and a readable one adds its event. */
  lemma OneMoreLine<E>(c: Codec<E>, lines: seq<string>, line: string)
    ensures LinesContents(c, lines + [line]) ==
            if Holed(c, lines) || LastIsBad(c, lines) then Failure(()) else Success(Events(c, lines) + Read(c, line))
  {
    var grown := lines + [line];
    assert grown[..|lines|] == lines;
    assert forall i :: 0 <= i < |lines| ==> grown[i] == lines[i];
    if LastIsBad(c, lines) {
      assert Bad(c, grown[|lines| - 1]);
    }
    if Holed(c, lines) {
      var i :| 0 <= i < |lines| - 1 && Bad(c, lines[i]);
      assert Bad(c, grown[i]);
    }
  }

  /** A malformed line is tolerated only as the last one. */
  lemma BadLine<E>(c: Codec<E>, lines: seq<string>, head: string, more: seq<string>)
    requires Bad(c, head)
    ensures LinesContents(c, lines + ([head] + more)) ==
            if Holed(c, lines) || LastIsBad(c, lines) || more != [] then Failure(()) else Success(Events(c, lines))
  {
    if more != [] {
      assert (lines + ([head] + more))[|lines|] == head;
    } else {
      assert [head] + more == [head];
      OneMoreLine(c, lines, head);
      assert Events(c, lines) + [] == Events(c, lines);
    }
  }

  // --- Where the reader splits a printed event --------------------------------------------------

  /** What follows the first line boundary of a text that is not one line. */
  function AfterBreak(s: string): string
    requires LineEnd(s) < |s|
  {
    s[LineEnd(s) + BreakWidth(s, LineEnd(s))..]
  }

  lemma OneLineExactly(s: string)
    ensures OneLine(s) <==> LineEnd(s) == |s|
  {
    assert LineEnd(s) == |s| ==> s[..|s|] == s;
  }

  lemma BrokenSplits(s: string)
    requires LineEnd(s) < |s|
    ensures SplitLines(s) == [s[..LineEnd(s)]] + SplitLines(AfterBreak(s))
  {
  }

  lemma BreaksAreSpace(c: char)
    requires IsBreak(c)
    ensures IsSpace(c)
  {
  }

  /** The first of the lines an event breaks into is malformed. */
  lemma HeadIsBad<E>(c: Codec<E>, e: E)
    requires Loads(c, e) && !OneLine(c.enc(e))
    ensures var n := LineEnd(c.enc(e)); 0 < n < |c.enc(e)| && IsBreak(c.enc(e)[n]) && Bad(c, c.enc(e)[..n])
  {
    var s := c.enc(e);
    var n := LineEnd(s);
    OneLineExactly(s);
    if n == 0 {
      BreaksAreSpace(s[0]);
      assert false;
    }
    assert s[..n][0] == s[0];
  }

  lemma LineEndGrows(s: string, more: string)
    requires LineEnd(s) < |s|
    ensures LineEnd(s + more) == LineEnd(s)
  {
    var n := LineEnd(s);
    assert s + more == s[..n] + (s[n..] + more);
    LineEndOf(s[..n], s[n..] + more);
  }

  /** A text that breaks after its malformed first line reads as nothing more than what was there, if nothing follows the
      boundary, and as a corrupt log otherwise. */
  lemma BrokenReads<E>(c: Codec<E>, lines: seq<string>, s: string)
    requires AllOneLine(lines) && LineEnd(s) < |s| && Bad(c, s[..LineEnd(s)])
    ensures Contents(c, Unlines(lines) + s) ==
            if Holed(c, lines) || LastIsBad(c, lines) || AfterBreak(s) != "" then Failure(()) else Success(Events(c, lines))
  {
    SplitUnlines(lines, s);
    BrokenSplits(s);
    BadLine(c, lines, s[..LineEnd(s)], SplitLines(AfterBreak(s)));
  }

  // --- What an append is worth ------------------------------------------------------------------

  /** The appended event ends in a carriage return that its newline completes, and has no other line boundary: the one print of
      several lines that leaves nothing after its first. */
  predicate EndsInReturn(s: string) {
    s != "" && LineEnd(s) == |s| - 1 && s[|s| - 1] == '\r'
  }

  lemma AfterBreakOf(s: string, more: string)
    requires LineEnd(s) < |s|
    ensures LineEnd(s + ("\n" + more)) == LineEnd(s) && (AfterBreak(s + ("\n" + more)) == "" <==> EndsInReturn(s) && more == "")
  {
    LineEndGrows(s, "\n" + more);
    var all := s + ("\n" + more);
    assert all[LineEnd(s)] == s[LineEnd(s)];
    if LineEnd(s) == |s| - 1 {
      assert all[|s|] == '\n';
    }
  }

  lemma AppendOneLine<E>(c: Codec<E>, lines: seq<string>, event: E)
    requires AllOneLine(lines) && Loads(c, event) && OneLine(c.enc(event))
    ensures Contents(c, Unlines(lines) + c.enc(event) + "\n") ==
            if Holed(c, lines) || LastIsBad(c, lines) then Failure(()) else Success(Events(c, lines) + [event])
  {
    UnlinesSnoc(lines, c.enc(event));
    LoadedReads(c, event);
    ContentsOfWhole(c, lines + [c.enc(event)]);
    OneMoreLine(c, lines, c.enc(event));
  }

  lemma ContentsOfWhole<E>(c: Codec<E>, lines: seq<string>)
    requires AllOneLine(lines)
    ensures Contents(c, Unlines(lines)) == LinesContents(c, lines)
  {
    assert Unlines(lines) == Unlines(lines) + "";
    ContentsOfLines(c, Unlines(lines), lines, "");
  }

  lemma AppendBroken<E>(c: Codec<E>, lines: seq<string>, event: E, more: string)
    requires AllOneLine(lines) && Loads(c, event) && !OneLine(c.enc(event))
    ensures Contents(c, Unlines(lines) + (c.enc(event) + ("\n" + more))) ==
            if Holed(c, lines) || LastIsBad(c, lines) || !EndsInReturn(c.enc(event)) || more != "" then Failure(())
            else Success(Events(c, lines))
  {
    var s := c.enc(event);
    HeadIsBad(c, event);
    AfterBreakOf(s, more);
    assert (s + ("\n" + more))[..LineEnd(s)] == s[..LineEnd(s)];
    BrokenReads(c, lines, s + ("\n" + more));
  }

  lemma Appended(text: string, s: string)
    ensures text + s + "\n" == text + (s + ("\n" + ""))
  {
  }

  /** What a whole append at a line boundary makes of a readable file, for every event: a malformed line before it has become
      interior and fails the read; otherwise an event printed on one line is added; any other is a malformed line of its own, and
      fails the read unless nothing follows it. */
  lemma AppendAfterBoundary<E>(c: Codec<E>, lines: seq<string>, event: E, text: string)
    requires AllOneLine(lines) && Loads(c, event) && text == Unlines(lines) && Contents(c, text).Success?
    ensures Contents(c, text + c.enc(event) + "\n") ==
            if LastIsBad(c, lines) then Failure(())
            else if OneLine(c.enc(event)) then Success(Contents(c, text).value + [event])
            else if EndsInReturn(c.enc(event)) then Contents(c, text)
            else Failure(())
  {
    ContentsOfWhole(c, lines);
    if OneLine(c.enc(event)) {
      AppendOneLine(c, lines, event);
    } else {
      Appended(text, c.enc(event));
      AppendBroken(c, lines, event, "");
    }
  }

  /** On a readable file of whole lines whose last is not malformed, a whole append reads back exactly when the event prints on one
      line. The writer prints U+0085, U+2028 and U+2029 as they are, so not every event does. */
  lemma AppendReadsBackExactly<E>(c: Codec<E>, lines: seq<string>, event: E, text: string)
    requires AllOneLine(lines) && Loads(c, event) && text == Unlines(lines) && Contents(c, text).Success? && !LastIsBad(c, lines)
    ensures Contents(c, text + c.enc(event) + "\n") == Success(Contents(c, text).value + [event]) <==> OneLine(c.enc(event))
  {
    AppendAfterBoundary(c, lines, event, text);
    assert |Contents(c, text).value + [event]| != |Contents(c, text).value|;
  }

  lemma {:induction false} UnlinesJoin(a: seq<string>, b: seq<string>)
    ensures Unlines(a + b) == Unlines(a) + Unlines(b)
  {
    if a == [] {
      assert a + b == b;
    } else {
      assert (a + b)[1..] == a[1..] + b;
      UnlinesJoin(a[1..], b);
    }
  }

  lemma PrintedJoin<E>(c: Codec<E>, a: seq<E>, b: seq<E>)
    ensures Printed(c, a + b) == Printed(c, a) + Printed(c, b)
  {
    var all := Printed(c, a) + Printed(c, b);
    forall i | 0 <= i < |all| ensures Printed(c, a + b)[i] == all[i] {
    }
  }

  /** The file, cut at event i. */
  lemma FileAt<E>(c: Codec<E>, events: seq<E>, i: nat)
    requires i < |events|
    ensures Unlines(Printed(c, events)) ==
            Unlines(Printed(c, events[..i])) + (c.enc(events[i]) + ("\n" + Unlines(Printed(c, events[i + 1..]))))
  {
    var before, e, after := events[..i], events[i], events[i + 1..];
    assert events == before + ([e] + after);
    PrintedJoin(c, before, [e] + after);
    PrintedJoin(c, [e], after);
    assert Printed(c, [e]) == [c.enc(e)];
    UnlinesJoin(Printed(c, before), [c.enc(e)] + Printed(c, after));
    assert ([c.enc(e)] + Printed(c, after))[1..] == Printed(c, after);
    Closed(c.enc(e), Unlines(Printed(c, after)));
  }

  lemma Closed(s: string, more: string)
    ensures s + "\n" + more == s + ("\n" + more)
  {
  }

  /** A file of whole appends reads back as its events exactly when each of them prints on one line. */
  lemma WholeAppendsReadBack<E>(c: Codec<E>, events: seq<E>)
    requires forall e :: e in events ==> Loads(c, e)
    ensures Contents(c, Unlines(Printed(c, events))) == Success(events) <==> forall e :: e in events ==> OneLine(c.enc(e))
  {
    if forall e :: e in events ==> OneLine(c.enc(e)) {
      PrintedEvents(c, events);
      ContentsOfLines(c, Unlines(Printed(c, events)), Printed(c, events), "");
    } else {
      var i := FirstBroken(c, events);
      BrokenFile(c, events, i);
    }
  }

  lemma {:induction false} FirstBroken<E>(c: Codec<E>, events: seq<E>) returns (i: nat)
    requires exists e :: e in events && !OneLine(c.enc(e))
    ensures i < |events| && !OneLine(c.enc(events[i])) && forall j :: 0 <= j < i ==> OneLine(c.enc(events[j]))
  {
    i := 0;
    if OneLine(c.enc(events[0])) {
      var e :| e in events && !OneLine(c.enc(e));
      assert e in events[1..];
      i := FirstBroken(c, events[1..]);
      assert forall j :: 1 <= j < |events| ==> events[j] == events[1..][j - 1];
      i := i + 1;
    }
  }

  /** The first event that is not one line ends what can be read. */
  lemma BrokenFile<E>(c: Codec<E>, events: seq<E>, i: nat)
    requires (forall e :: e in events ==> Loads(c, e)) && i < |events|
    requires !OneLine(c.enc(events[i])) && forall j :: 0 <= j < i ==> OneLine(c.enc(events[j]))
    ensures Contents(c, Unlines(Printed(c, events))) ==
            if i == |events| - 1 && EndsInReturn(c.enc(events[i])) then Success(events[..i]) else Failure(())
  {
    FileAt(c, events, i);
    PrintedEvents(c, events[..i]);
    AppendBroken(c, Printed(c, events[..i]), events[i], Unlines(Printed(c, events[i + 1..])));
    assert Unlines(Printed(c, events[i + 1..])) == "" <==> events[i + 1..] == [];
  }

  // --- A last append cut short ------------------------------------------------------------------

  /** A whole line after whole lines without holes. */
  lemma WholeLine<E>(c: Codec<E>, lines: seq<string>, part: string, text: string)
    requires AllOneLine(lines) && !Holed(c, lines) && !LastIsBad(c, lines) && OneLine(part)
    requires text == Unlines(lines) + part + "\n"
    ensures Contents(c, text) == Success(Events(c, lines) + Read(c, part))
  {
    UnlinesSnoc(lines, part);
    assert text == Unlines(lines + [part]);
    ContentsOfWhole(c, lines + [part]);
    OneMoreLine(c, lines, part);
  }

  lemma NoPart<E>(c: Codec<E>, lines: seq<string>, part: string, text: string)
    requires AllOneLine(lines) && !Holed(c, lines) && part == "" && text == Unlines(lines) + part
    ensures Contents(c, text) == Success(Events(c, lines) + Read(c, part))
  {
    ContentsOfLines(c, text, lines, part);
    assert Contents(c, text) == Success(Events(c, lines));
    assert Read(c, part) == [];
    assert Events(c, lines) + [] == Events(c, lines);
  }

  lemma SomePart<E>(c: Codec<E>, lines: seq<string>, part: string, text: string)
    requires AllOneLine(lines) && !Holed(c, lines) && !LastIsBad(c, lines) && OneLine(part) && part != ""
    requires text == Unlines(lines) + part
    ensures Contents(c, text) == Success(Events(c, lines) + Read(c, part))
  {
    ContentsOfLines(c, text, lines, part);
    OneMoreLine(c, lines, part);
  }

  /** A whole line, or a part of one, after whole lines without holes. */
  lemma LineOrPart<E>(c: Codec<E>, lines: seq<string>, part: string, text: string)
    requires AllOneLine(lines) && !Holed(c, lines) && !LastIsBad(c, lines) && OneLine(part)
    requires text == Unlines(lines) + part || text == Unlines(lines) + part + "\n"
    ensures Contents(c, text) == Success(Events(c, lines) + Read(c, part))
  {
    if text == Unlines(lines) + part + "\n" {
      WholeLine(c, lines, part, text);
    } else if part == "" {
      NoPart(c, lines, part, text);
    } else {
      SomePart(c, lines, part, text);
    }
  }

  lemma CutText(known: string, whole: string, kept: nat)
    requires kept <= |whole| + 1
    ensures known + (whole + "\n")[..kept] == if kept > |whole| then known + whole + "\n" else known + whole[..kept]
  {
    if kept > |whole| {
      assert (whole + "\n")[..kept] == whole + "\n";
    } else {
      assert (whole + "\n")[..kept] == whole[..kept];
    }
  }

  /** Whole lines, and then a one-line append cut after any number of its characters: all events when only the newline is missing, and
      all but the last otherwise. */
  lemma CutOneLine<E>(c: Codec<E>, lines: seq<string>, last: E, kept: nat, text: string)
    requires AllOneLine(lines) && !Holed(c, lines) && !LastIsBad(c, lines) && Loads(c, last) && OneLine(c.enc(last))
    requires kept <= |c.enc(last)| + 1 && text == Unlines(lines) + (c.enc(last) + "\n")[..kept]
    ensures Contents(c, text) == Success(if kept >= |c.enc(last)| then Events(c, lines) + [last] else Events(c, lines))
  {
    var whole := c.enc(last);
    CutText(Unlines(lines), whole, kept);
    if kept >= |whole| {
      LoadedReads(c, last);
      assert whole[..|whole|] == whole;
      LineOrPart(c, lines, whole, text);
    } else {
      LineOrPart(c, lines, whole[..kept], text);
      assert Read(c, whole[..kept]) == [] && Events(c, lines) + [] == Events(c, lines);
    }
  }

  /** How many characters of an append that is not one line can be there before the read fails: its first line and the boundary. */
  function Tolerated(s: string): nat
    requires LineEnd(s) < |s|
  {
    LineEnd(s) + BreakWidth(s + "\n", LineEnd(s))
  }

  lemma CutPastBreak(s: string, kept: nat)
    requires LineEnd(s) < |s| && LineEnd(s) < kept <= |s| + 1
    ensures var x := (s + "\n")[..kept];
            LineEnd(x) == LineEnd(s) < |x| && x[..LineEnd(s)] == s[..LineEnd(s)] && (AfterBreak(x) == "" <==> kept <= Tolerated(s))
  {
    var n, full := LineEnd(s), s + "\n";
    var x := full[..kept];
    assert x == s[..n] + full[n..kept] && full[n] == s[n];
    LineEndOf(s[..n], full[n..kept]);
  }

  /** A last append that breaks into several lines, cut anywhere: its first line is a torn tail like any other, and one character past
      the boundary after it the read fails. */
  lemma CutBroken<E>(c: Codec<E>, lines: seq<string>, last: E, kept: nat, text: string)
    requires AllOneLine(lines) && !Holed(c, lines) && !LastIsBad(c, lines) && Loads(c, last) && !OneLine(c.enc(last))
    requires kept <= |c.enc(last)| + 1 && text == Unlines(lines) + (c.enc(last) + "\n")[..kept]
    ensures LineEnd(c.enc(last)) < |c.enc(last)|
    ensures Contents(c, text) == if kept <= Tolerated(c.enc(last)) then Success(Events(c, lines)) else Failure(())
  {
    var s := c.enc(last);
    HeadIsBad(c, last);
    if kept <= LineEnd(s) {
      CutText(Unlines(lines), s, kept);
      assert s[..kept] == s[..LineEnd(s)][..kept];
      LineOrPart(c, lines, s[..kept], text);
      assert Read(c, s[..kept]) == [] && Events(c, lines) + [] == Events(c, lines);
    } else {
      CutPastBreak(s, kept);
      BrokenReads(c, lines, (s + "\n")[..kept]);
    }
  }

  /** Cutting the last append of a file of one-line appends after any number of its characters leaves all events, if no more than its
      newline is missing, and all but the last otherwise, exactly when that append is on one line or was cut within its first. */
  lemma CutAppend<E>(c: Codec<E>, events: seq<E>, last: E, kept: nat, text: string)
    requires (forall e :: e in events ==> Loads(c, e) && OneLine(c.enc(e))) && Loads(c, last) && kept <= |c.enc(last)| + 1
    requires text == Unlines(Printed(c, events)) + (c.enc(last) + "\n")[..kept]
    ensures LineEnd(c.enc(last)) == |c.enc(last)| <==> OneLine(c.enc(last))
    ensures Contents(c, text) == Success(if kept >= |c.enc(last)| then events + [last] else events) <==>
            OneLine(c.enc(last)) || (kept <= Tolerated(c.enc(last)) && kept < |c.enc(last)|)
  {
    OneLineExactly(c.enc(last));
    PrintedReadable(c, events);
    if OneLine(c.enc(last)) {
      CutOneLine(c, Printed(c, events), last, kept, text);
    } else {
      CutBroken(c, Printed(c, events), last, kept, text);
      assert |events + [last]| != |events|;
    }
  }

  // --- An append after a torn tail --------------------------------------------------------------

  lemma Glue(torn: string, s: string)
    requires OneLine(torn) && OneLine(s) && s != "" && !IsSpace(s[0])
    ensures OneLine(torn + s) && !Blank(torn + s)
  {
    assert (torn + s)[|torn|] == s[0];
  }

  /** The event is glued onto the tail, and what the reader gets of both is what the glued line decodes to, if it does. */
  lemma GluedContents<E>(c: Codec<E>, lines: seq<string>, torn: string, event: E, text: string)
    requires AllOneLine(lines) && OneLine(torn) && torn != "" && Loads(c, event) && OneLine(c.enc(event))
    requires text == Unlines(lines) + torn && Contents(c, text).Success?
    ensures Contents(c, text) == Success(Events(c, lines) + Read(c, torn))
    ensures var glued := torn + c.enc(event);
            !Blank(glued) && OneLine(glued) && text + c.enc(event) + "\n" == Unlines(lines + [glued]) &&
            Contents(c, text + c.enc(event) + "\n") == Success(Events(c, lines) + Read(c, glued))
  {
    var glued := torn + c.enc(event);
    ContentsOfLines(c, text, lines, torn);
    OneMoreLine(c, lines, torn);
    Glue(torn, c.enc(event));
    UnlinesSnoc(lines, glued);
    Reassociate(Unlines(lines), torn, c.enc(event));
    LineOrPart(c, lines, glued, text + c.enc(event) + "\n");
  }

  lemma Reassociate(known: string, torn: string, s: string)
    ensures (known + torn) + s + "\n" == known + (torn + s) + "\n"
  {
  }

  lemma OneMoreExactly<E>(known: seq<E>, torn: seq<E>, glued: seq<E>, e: E)
    requires |glued| <= 1
    ensures known + glued == (known + torn) + [e] <==> torn == [] && glued == [e]
    ensures known + glued == known <==> glued == []
  {
    if known + glued == (known + torn) + [e] {
      assert |glued| == |torn| + 1;
      assert (known + glued)[|known|] == glued[0];
      assert ((known + torn) + [e])[|known|] == e;
    }
  }

  lemma OneLineAfterTail<E>(c: Codec<E>, lines: seq<string>, torn: string, event: E, later: E, text: string)
    requires AllOneLine(lines) && OneLine(torn) && torn != "" && Loads(c, event) && OneLine(c.enc(event)) && Loads(c, later)
    requires text == Unlines(lines) + torn && Contents(c, text).Success?
    ensures var grown := text + c.enc(event) + "\n";
            (Contents(c, grown) == Success(Contents(c, text).value + [event]) <==>
             Read(c, torn) == [] && c.dec(torn + c.enc(event)) == Some(event)) &&
            (Contents(c, grown) == Success(Events(c, lines)) <==> c.dec(torn + c.enc(event)) == None) &&
            (c.dec(torn + c.enc(event)) == None ==> Contents(c, grown + c.enc(later) + "\n") == Failure(()))
  {
    var glued := torn + c.enc(event);
    GluedContents(c, lines, torn, event, text);
    OneMoreExactly(Events(c, lines), Read(c, torn), Read(c, glued), event);
    AppendAfterBoundary(c, lines + [glued], later, text + c.enc(event) + "\n");
  }

  /** What the reader takes for the first line of an event glued onto a tail. */
  function GluedLine(torn: string, s: string): string {
    torn + s[..LineEnd(s)]
  }

  /** A text behind a one-line tail: its first line is longer by the tail, and the same follows. */
  lemma BehindTail(torn: string, s: string)
    requires OneLine(torn) && LineEnd(s) < |s|
    ensures LineEnd(torn + s) == |torn| + LineEnd(s) < |torn + s| && (torn + s)[..LineEnd(torn + s)] == GluedLine(torn, s)
  {
    var n := LineEnd(s);
    assert torn + s == GluedLine(torn, s) + s[n..];
    LineEndOf(GluedLine(torn, s), s[n..]);
  }

  lemma SameBreak(torn: string, s: string, n: nat)
    requires n < |s|
    ensures BreakWidth(torn + s, |torn| + n) == BreakWidth(s, n) && n + BreakWidth(s, n) <= |s|
    ensures (torn + s)[|torn| + n + BreakWidth(s, n)..] == s[n + BreakWidth(s, n)..]
  {
    assert (torn + s)[|torn| + n] == s[n];
    assert n + 1 < |s| ==> (torn + s)[|torn| + n + 1] == s[n + 1];
  }

  lemma GluedEnd(torn: string, s: string)
    requires OneLine(torn) && LineEnd(s) < |s|
    ensures var all := torn + (s + ("\n" + ""));
            LineEnd(all) == |torn| + LineEnd(s) < |all| && all[..LineEnd(all)] == GluedLine(torn, s) &&
            (AfterBreak(all) == "" <==> EndsInReturn(s))
  {
    var more := s + ("\n" + "");
    AfterBreakOf(s, "");
    BehindTail(torn, more);
    SameBreak(torn, more, LineEnd(s));
    assert more[..LineEnd(s)] == s[..LineEnd(s)];
  }

  /** A file that is readable with its tail has no malformed line before it. */
  lemma TornReadable<E>(c: Codec<E>, lines: seq<string>, torn: string, text: string)
    requires AllOneLine(lines) && OneLine(torn) && torn != "" && text == Unlines(lines) + torn && Contents(c, text).Success?
    ensures !Holed(c, lines) && !LastIsBad(c, lines)
  {
    ContentsOfLines(c, text, lines, torn);
    OneMoreLine(c, lines, torn);
  }

  lemma GluedText(known: string, torn: string, s: string)
    ensures (known + torn) + s + "\n" == known + (torn + (s + ("\n" + "")))
  {
  }

  lemma GluedIsBad<E>(c: Codec<E>, torn: string, event: E)
    requires Loads(c, event) && !OneLine(c.enc(event)) && c.dec(GluedLine(torn, c.enc(event))) == None
    ensures LineEnd(c.enc(event)) < |c.enc(event)| && Bad(c, GluedLine(torn, c.enc(event)))
  {
    HeadIsBad(c, event);
    assert GluedLine(torn, c.enc(event))[|torn|] == c.enc(event)[0];
  }

  lemma BrokenAfterTail<E>(c: Codec<E>, lines: seq<string>, torn: string, event: E, text: string)
    requires AllOneLine(lines) && OneLine(torn) && torn != "" && Loads(c, event) && !OneLine(c.enc(event))
    requires text == Unlines(lines) + torn && Contents(c, text).Success? && c.dec(GluedLine(torn, c.enc(event))) == None
    ensures Contents(c, text + c.enc(event) + "\n") == if EndsInReturn(c.enc(event)) then Success(Events(c, lines)) else Failure(())
  {
    var s := c.enc(event);
    TornReadable(c, lines, torn, text);
    GluedIsBad(c, torn, event);
    GluedEnd(torn, s);
    GluedText(Unlines(lines), torn, s);
    BrokenReads(c, lines, torn + (s + ("\n" + "")));
  }

  lemma Associates<T>(a: seq<T>, b: seq<T>, d: seq<T>)
    ensures (a + b) + d == a + (b + d)
  {
  }

  lemma {:induction false} EventsJoin<E>(c: Codec<E>, lines: seq<string>, more: seq<string>)
    ensures Events(c, lines + more) == Events(c, lines) + Events(c, more)
  {
    if more == [] {
      assert lines + more == lines;
      assert Events(c, more) == [];
    } else {
      var init, last := more[..|more| - 1], more[|more| - 1];
      EventsJoin(c, lines, init);
      Associates(lines, init, [last]);
      assert init + [last] == more;
      EventsSnoc(c, lines + init, last);
      EventsSnoc(c, init, last);
      Associates(Events(c, lines), Events(c, init), Read(c, last));
    }
  }

  lemma GoodBefore<E>(c: Codec<E>, lines: seq<string>, more: seq<string>)
    requires !Holed(c, lines) && !LastIsBad(c, lines)
    ensures Holed(c, lines + more) <==> Holed(c, more)
  {
    var all := lines + more;
    assert forall i :: 0 <= i < |lines| ==> all[i] == lines[i] && !Bad(c, lines[i]);
    if Holed(c, more) {
      var i :| 0 <= i < |more| - 1 && Bad(c, more[i]);
      assert all[|lines| + i] == more[i];
    }
    if Holed(c, all) {
      var i :| 0 <= i < |all| - 1 && Bad(c, all[i]);
      assert more[i - |lines|] == all[i];
    }
  }

  /** Behind whole lines without holes a text reads as it would in a file of its own. */
  lemma ReadsAlone<E>(c: Codec<E>, lines: seq<string>, s: string)
    requires AllOneLine(lines) && !Holed(c, lines) && !LastIsBad(c, lines)
    ensures Contents(c, Unlines(lines) + s) ==
            match Contents(c, s) case Failure(_) => Failure(()) case Success(events) => Success(Events(c, lines) + events)
  {
    SplitUnlines(lines, s);
    GoodBefore(c, lines, SplitLines(s));
    EventsJoin(c, lines, SplitLines(s));
  }

  /** For an event of any shape: it is read after a torn tail, and nothing readable lost, exactly when the tail and the print, glued, are
      a readable file of their own that holds what the tail held and the event. */
  lemma GluedReadsExactly<E>(c: Codec<E>, lines: seq<string>, torn: string, event: E, text: string)
    requires AllOneLine(lines) && OneLine(torn) && torn != "" && text == Unlines(lines) + torn && Contents(c, text).Success?
    ensures Contents(c, text + c.enc(event) + "\n") == Success(Contents(c, text).value + [event]) <==>
            Contents(c, torn + c.enc(event) + "\n") == Success(Read(c, torn) + [event])
  {
    var glued := torn + c.enc(event) + "\n";
    TornReadable(c, lines, torn, text);
    SomePart(c, lines, torn, text);
    ReadsAlone(c, lines, glued);
    Ungrouped(Unlines(lines), torn, c.enc(event));
    SameBehind(Events(c, lines), Read(c, torn), event, Contents(c, glued), Contents(c, text + c.enc(event) + "\n"));
  }

  lemma Ungrouped(known: string, torn: string, s: string)
    ensures (known + torn) + s + "\n" == known + (torn + s + "\n")
  {
  }

  lemma SameBehind<E>(known: seq<E>, torn: seq<E>, e: E, alone: Result<seq<E>, ()>, whole: Result<seq<E>, ()>)
    requires whole == match alone case Failure(_) => Failure(()) case Success(events) => Success(known + events)
    ensures whole == Success((known + torn) + [e]) <==> alone == Success(torn + [e])
  {
    Associates(known, torn, [e]);
    if alone.Success? {
      SameTail(known, alone.value, torn + [e]);
    }
  }

  lemma SameTail<E>(known: seq<E>, a: seq<E>, b: seq<E>)
    ensures known + a == known + b <==> a == b
  {
    if known + a == known + b {
      assert a == (known + a)[|known|..] && b == (known + b)[|known|..];
    }
  }

  /** An append after a torn tail. An event is read, and nothing readable lost, exactly when the tail and the print, glued, read on their
      own as what the tail held and the event; on one line, exactly when the tail itself reads as no event and the glued line decodes
      to the new one - a tail of blanks, say. If the glued line does not decode, the new event and whatever the tail held are silently
      missing, and one more append makes the log unreadable. An event that is not one line is not read either if its first line,
      glued, does not decode: the log is unreadable at once, or the event is silently missing. */
  lemma AppendAfterTornTail<E>(c: Codec<E>, lines: seq<string>, torn: string, event: E, later: E, text: string, grown: string)
    requires AllOneLine(lines) && OneLine(torn) && torn != "" && Loads(c, event) && Loads(c, later)
    requires text == Unlines(lines) + torn && grown == text + c.enc(event) + "\n" && Contents(c, text).Success?
    ensures Contents(c, grown) == Success(Contents(c, text).value + [event]) <==>
            Contents(c, torn + c.enc(event) + "\n") == Success(Read(c, torn) + [event])
    ensures OneLine(c.enc(event)) ==>
              (Contents(c, grown) == Success(Contents(c, text).value + [event]) <==>
               Read(c, torn) == [] && c.dec(torn + c.enc(event)) == Some(event)) &&
              (Contents(c, grown) == Success(Events(c, lines)) <==> c.dec(torn + c.enc(event)) == None) &&
              (c.dec(torn + c.enc(event)) == None ==> Contents(c, grown + c.enc(later) + "\n") == Failure(()))
    ensures !OneLine(c.enc(event)) && c.dec(GluedLine(torn, c.enc(event))) == None ==>
              Contents(c, grown) == if EndsInReturn(c.enc(event)) then Success(Events(c, lines)) else Failure(())
  {
    GluedReadsExactly(c, lines, torn, event, text);
    if OneLine(c.enc(event)) {
      OneLineAfterTail(c, lines, torn, event, later, text);
    } else if c.dec(GluedLine(torn, c.enc(event))) == None {
      BrokenAfterTail(c, lines, torn, event, text);
    }
  }

  // --- An event no file reads back --------------------------------------------------------------

  /** Wherever it stands, an event with a raw line separator corrupts the log it is appended to: the line its first part makes is
      malformed, and its rest follows. */
  lemma LineSeparatorCorrupts<E>(c: Codec<E>, lines: seq<string>, event: E, i: nat)
    requires AllOneLine(lines) && Loads(c, event) && i < |c.enc(event)|
    requires c.enc(event)[i] == '\U{85}' || c.enc(event)[i] == '\U{2028}' || c.enc(event)[i] == '\U{2029}'
    ensures Contents(c, Unlines(lines) + c.enc(event) + "\n") == Failure(())
  {
    SeparatorBreaks(c.enc(event), i);
    Appended(Unlines(lines), c.enc(event));
    AppendBroken(c, lines, event, "");
  }

  lemma SeparatorBreaks(s: string, i: nat)
    requires i < |s| && (s[i] == '\U{85}' || s[i] == '\U{2028}' || s[i] == '\U{2029}')
    ensures !OneLine(s) && !EndsInReturn(s)
  {
    assert IsBreak(s[i]);
    assert forall j :: 0 <= j < LineEnd(s) ==> s[..LineEnd(s)][j] == s[j];
  }
}
