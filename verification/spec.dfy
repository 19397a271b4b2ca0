/** Task-spec front matter: the fail-closed parser, and the rewrite that forces a spec to be a draft. */
module Spec {
  import opened Wrappers
  import opened Text

  datatype TaskSpec = TaskSpec(taskType: string, roles: seq<string>, status: Option<string>, risk: Option<string>)

  const DRAFT := "draft-proposal"
  const DONE := "done"
  const FENCE := "---"

  // --- The front-matter block -------------------------------------------------------------------

  /** Where the first colon is; the length when there is none. */
  function ColonAt(s: string): (n: nat)
    ensures n <= |s| && (n < |s| ==> s[n] == ':') && forall i :: 0 <= i < n ==> s[i] != ':'
  {
    if s == "" || s[0] == ':' then 0 else ColonAt(s[1..]) + 1
  }

  function KeyOf(line: string): string {
    Strip(line[..ColonAt(line)])
  }

  function ValueOf(line: string): string {
    if ColonAt(line) < |line| then Strip(line[ColonAt(line) + 1..]) else ""
  }

  predicate Ignored(line: string) {
    Blank(line) || StartsWith(LStrip(line), "#")
  }

  type Fields = map<string, string>

  /** What a line of the block is to the parser. */
  datatype Reading = Closing | Skipped | Malformed | Pair(key: string, value: string)

  function Read(line: string): Reading {
    if Strip(line) == FENCE then Closing
    else if Ignored(line) then Skipped
    else if ColonAt(line) == |line| then Malformed
    else Pair(KeyOf(line), ValueOf(line))
  }

  function Mapped<T, U>(f: T -> U, xs: seq<T>): (ys: seq<U>)
    ensures |ys| == |xs| && forall i :: 0 <= i < |xs| ==> ys[i] == f(xs[i])
  {
    seq(|xs|, i requires 0 <= i < |xs| => f(xs[i]))
  }

  function Readings(lines: seq<string>): seq<Reading> {
    Mapped(Read, lines)
  }

  /** The fields of the lines after the opening fence; a failure stands for SpecError. */
  function Block(rs: seq<Reading>, fields: Fields): Result<Fields, ()> {
    if rs == [] then Failure(())
    else match rs[0]
      case Closing => Success(fields)
      case Skipped => Block(rs[1..], fields)
      case Malformed => Failure(())
      case Pair(key, value) => if key in fields then Failure(()) else Block(rs[1..], fields[key := value])
  }

  /** Before the first closing line, at n, every line is skipped or declares a key no other line and no earlier field declares, and
      the fields are the earlier ones and these declarations. */
  ghost predicate Declares(rs: seq<Reading>, n: nat, fields: Fields, m: Fields) {
    n < |rs| && rs[n].Closing? && (forall i :: 0 <= i < n ==> rs[i].Skipped? || rs[i].Pair?) &&
    (forall i :: 0 <= i < n && rs[i].Pair? ==> rs[i].key !in fields && rs[i].key in m && m[rs[i].key] == rs[i].value) &&
    (forall i, j :: 0 <= i < j < n && rs[i].Pair? && rs[j].Pair? ==> rs[i].key != rs[j].key) &&
    (forall k :: k in fields ==> k in m && m[k] == fields[k]) &&
    (forall k :: k in m ==> k in fields || DeclaredBefore(rs, n, k))
  }

  ghost predicate DeclaredBefore(rs: seq<Reading>, n: nat, key: string)
    requires n <= |rs|
  {
    exists i :: 0 <= i < n && rs[i].Pair? && rs[i].key == key
  }

  function Taken(r: Reading, fields: Fields): Fields {
    if r.Pair? then fields[r.key := r.value] else fields
  }

  lemma DeclaresLater(rs: seq<Reading>, n: nat, fields: Fields, m: Fields)
    requires rs != [] && (rs[0].Skipped? || (rs[0].Pair? && rs[0].key !in fields))
    requires Declares(rs[1..], n, Taken(rs[0], fields), m)
    ensures Declares(rs, n + 1, fields, m)
  {
    var later := rs[1..];
    assert forall i :: 1 <= i < |rs| ==> rs[i] == later[i - 1];
    assert forall i :: 0 <= i < n && later[i].Pair? ==> later[i].key !in Taken(rs[0], fields);
    forall k | k in m ensures k in fields || DeclaredBefore(rs, n + 1, k) {
      if k in Taken(rs[0], fields) {
        assert k in fields || (rs[0].Pair? && rs[0].key == k);
      } else {
        var i :| 0 <= i < n && later[i].Pair? && later[i].key == k;
        assert rs[i + 1] == later[i];
      }
    }
  }

  lemma DeclaresNow(rs: seq<Reading>, n: nat, fields: Fields, m: Fields)
    requires Declares(rs, n, fields, m) && n > 0
    ensures rs[0].Skipped? || (rs[0].Pair? && rs[0].key !in fields)
    ensures Declares(rs[1..], n - 1, Taken(rs[0], fields), m)
  {
    var later := rs[1..];
    assert forall i :: 0 <= i < |later| ==> later[i] == rs[i + 1];
    forall k | k in m ensures k in Taken(rs[0], fields) || DeclaredBefore(later, n - 1, k) {
      if k !in fields && !(rs[0].Pair? && rs[0].key == k) {
        var i :| 0 <= i < n && rs[i].Pair? && rs[i].key == k;
        assert later[i - 1] == rs[i];
      }
    }
  }

  lemma {:induction false} BlockDeclares(rs: seq<Reading>, fields: Fields) returns (n: nat)
    requires Block(rs, fields).Success?
    ensures Declares(rs, n, fields, Block(rs, fields).value)
  {
    if rs[0].Closing? {
      n := 0;
    } else {
      n := BlockDeclares(rs[1..], Taken(rs[0], fields));
      DeclaresLater(rs, n, fields, Block(rs, fields).value);
      n := n + 1;
    }
  }

  lemma {:induction false} DeclaredBlock(rs: seq<Reading>, n: nat, fields: Fields, m: Fields)
    requires Declares(rs, n, fields, m)
    ensures Block(rs, fields) == Success(m)
  {
    if n == 0 {
      assert m == fields;
    } else {
      DeclaresNow(rs, n, fields, m);
      DeclaredBlock(rs[1..], n - 1, Taken(rs[0], fields), m);
    }
  }

  /** A block parses exactly when it is closed, and before that only skips lines and declares every key once; the fields are then
      those declarations and nothing else. */
  lemma BlockParsesExactly(rs: seq<Reading>, m: Fields)
    ensures Block(rs, map[]) == Success(m) <==> exists n :: Declares(rs, n, map[], m)
  {
    if Block(rs, map[]) == Success(m) {
      var n := BlockDeclares(rs, map[]);
    }
    if exists n :: Declares(rs, n, map[], m) {
      var n :| Declares(rs, n, map[], m);
      DeclaredBlock(rs, n, map[], m);
    }
  }

  predicate AllOf(s: string, c: char) {
    forall i :: 0 <= i < |s| ==> s[i] == c
  }

  /** A first content line that is a fence in disguise: pushed down by a blank line, or malformed. */
  predicate DefeatedFence(line: string) {
    var s := Strip(line);
    s == FENCE || (|s| >= 3 && (AllOf(s, '-') || AllOf(s, '~')))
  }

  function FirstContent(lines: seq<string>): Option<string> {
    if lines == [] then None else if Blank(lines[0]) then FirstContent(lines[1..]) else Some(lines[0])
  }

  /** The text up to its first newline character, as `split` on a newline sees it. */
  function FirstLine(text: string): (s: string)
    ensures |s| <= |text| && s == text[..|s|] && '\n' !in s && (|s| < |text| ==> text[|s|] == '\n')
  {
    if text == "" || text[0] == '\n' then "" else [text[0]] + FirstLine(text[1..])
  }

  predicate Ascii(s: string) {
    forall i :: 0 <= i < |s| ==> s[i] <= '\U{7F}'
  }

  /** The parse of a text with that first line, as a newline ends it, and those lines. */
  function Parsed(first: string, lines: seq<string>): Result<Fields, ()> {
    if !Ascii(first) then Failure(())
    else if lines == [] then Success(map[])
    else if Strip(lines[0]) != FENCE then
      (match FirstContent(lines)
       case None => Success(map[])
       case Some(line) => if DefeatedFence(line) then Failure(()) else Success(map[]))
    else Block(Readings(lines[1..]), map[])
  }

  function FrontMatter(text: string): Result<Fields, ()> {
    Parsed(FirstLine(text), SplitLines(text))
  }

  method ParseFrontMatter(text: string) returns (r: Result<Fields, ()>)
    ensures r == FrontMatter(text)
  {
    if !Ascii(FirstLine(text)) {
      return Failure(());
    }
    var lines := SplitLines(text);
    if lines == [] {
      return Success(map[]);
    }
    if Strip(lines[0]) != FENCE {
      for i := 0 to |lines|
        invariant FirstContent(lines) == FirstContent(lines[i..])
      {
        var stripped := Strip(lines[i]);
        if Blank(lines[i]) {
          continue;
        }
        if stripped == FENCE {
          return Failure(());
        }
        if |stripped| >= 3 && (AllOf(stripped, '-') || AllOf(stripped, '~')) {
          return Failure(());
        }
        break;
      }
      return Success(map[]);
    }
    var fields: Fields := map[];
    ghost var rs := Readings(lines[1..]);
    var i := 1;
    while i < |lines|
      invariant 1 <= i <= |lines| && Block(rs, map[]) == Block(rs[i - 1..], fields)
    {
      var line := lines[i];
      assert rs[i - 1..][0] == Read(line) && rs[i - 1..][1..] == rs[i..];
      i := i + 1;
      if Strip(line) == FENCE {
        return Success(fields);
      }
      if Ignored(line) {
        continue;
      }
      if ColonAt(line) == |line| {
        return Failure(());
      }
      var key := KeyOf(line);
      if key in fields {
        return Failure(());
      }
      fields := fields[key := ValueOf(line)];
    }
    return Failure(());
  }

  // --- The spec ---------------------------------------------------------------------------------

  function Get(fields: Fields, key: string): string {
    if key in fields then fields[key] else ""
  }

  predicate KnownType(t: string) {
    t == "feature" || t == "bug" || t == "spike" || t == "audit" || t == "investigate"
  }

  function Composition(t: string): seq<string> {
    if t == "bug" then ["explorer", "developer", "debugger", "rw1", "rw2"]
    else if t == "spike" then ["explorer", "developer", "rw1"]
    else if t == "audit" || t == "investigate" then ["investigator", "verify"]
    else ["developer", "rw1", "rw2"]
  }

  predicate ReportOnly(s: TaskSpec) {
    s.taskType == "audit" || s.taskType == "investigate"
  }

  /** Where the first comma is; the length when there is none. */
  function CommaAt(s: string): (n: nat)
    ensures n <= |s| && (n < |s| ==> s[n] == ',') && forall i :: 0 <= i < n ==> s[i] != ','
  {
    if s == "" || s[0] == ',' then 0 else CommaAt(s[1..]) + 1
  }

  function RoleList(s: string): seq<string> {
    var n := CommaAt(s);
    var first := if Blank(s[..n]) then [] else [Strip(s[..n])];
    if n < |s| then first + RoleList(s[n + 1..]) else first
  }

  function Roles(raw: string, taskType: string): Result<seq<string>, ()> {
    if raw == "" then Success(Composition(taskType))
    else if |raw| < 2 || raw[0] != '[' || raw[|raw| - 1] != ']' then Failure(())
    else if RoleList(raw[1..|raw| - 1]) == [] then Failure(())
    else Success(RoleList(raw[1..|raw| - 1]))
  }

  function FromFields(fields: Fields): Result<TaskSpec, ()> {
    var taskType := if "type" in fields then fields["type"] else "feature";
    var roles := Roles(Get(fields, "roles"), taskType);
    var risk := Lower(Strip(Get(fields, "risk")));
    var status := Get(fields, "status");
    if !KnownType(taskType) || roles.Failure? || (status != "" && status != DRAFT && status != DONE) then Failure(())
    else Success(TaskSpec(taskType, roles.value, if status == "" then None else Some(status), if risk == "" then None else Some(risk)))
  }

  function ParseSpec(text: string): Result<TaskSpec, ()> {
    match FrontMatter(text)
    case Failure(_) => Failure(())
    case Success(fields) => FromFields(fields)
  }

  /** The declared risk: none if the field is missing or blank, and otherwise the word itself, lowered. */
  lemma RiskFieldSays(fields: Fields, ws: string, level: string)
    requires FromFields(fields).Success?
    ensures "risk" !in fields || Blank(fields["risk"]) ==> FromFields(fields).value.risk == None
    ensures "risk" in fields && fields["risk"] == ws + level && Blank(ws) && Tight(level) && Lower(level) == level ==>
              FromFields(fields).value.risk == Some(level)
  {
    if "risk" !in fields || Blank(fields["risk"]) {
      BlankStrips(Get(fields, "risk"));
    }
    if "risk" in fields && fields["risk"] == ws + level && Blank(ws) && Tight(level) && Lower(level) == level {
      assert (ws + level)[|ws|] == level[0];
      LStripSkips(ws, level);
      StripTight(level);
    }
  }

  function Listed(names: seq<string>): string {
    if names == [] then "" else if |names| == 1 then names[0] else names[0] + ("," + (" " + Listed(names[1..])))
  }

  /** A role name: no blanks around it and no comma in it. */
  ghost predicate IsName(s: string) {
    Tight(s) && ',' !in s
  }

  lemma PaddedName(pad: string, name: string)
    requires IsName(name) && (pad == "" || pad == " ")
    ensures !Blank(pad + name) && Strip(pad + name) == name
  {
    StripTight(name);
    if pad == "" {
      assert pad + name == name;
    } else {
      assert (pad + name)[0] == ' ' && (pad + name)[1..] == name;
    }
    assert (pad + name)[|pad|] == name[0];
  }

  lemma OneRole(piece: string, name: string)
    requires ',' !in piece && !Blank(piece) && Strip(piece) == name
    ensures RoleList(piece) == [name]
  {
    assert CommaAt(piece) == |piece| && piece[..|piece|] == piece;
  }

  lemma MoreRoles(piece: string, name: string, rest: string)
    requires ',' !in piece && !Blank(piece) && Strip(piece) == name
    ensures RoleList(piece + "," + rest) == [name] + RoleList(rest)
  {
    var all := piece + "," + rest;
    assert all[|piece|] == ',' && forall i :: 0 <= i < |piece| ==> all[i] == piece[i];
    assert CommaAt(all) == |piece|;
    assert all[..|piece|] == piece && all[|piece| + 1..] == rest;
  }

  lemma {:induction false} ListedRoles(pad: string, names: seq<string>)
    requires names != [] && (forall i :: 0 <= i < |names| ==> IsName(names[i])) && (pad == "" || pad == " ")
    ensures RoleList(pad + Listed(names)) == names
    decreases |names|
  {
    PaddedName(pad, names[0]);
    if |names| == 1 {
      OneRole(pad + names[0], names[0]);
    } else {
      ListedRoles(" ", names[1..]);
      MoreListed(pad, names[0], names[1..], names);
    }
  }

  lemma MoreListed(pad: string, name: string, more: seq<string>, names: seq<string>)
    requires names == [name] + more && more != [] && ',' !in pad + name && !Blank(pad + name) && Strip(pad + name) == name
    requires RoleList(" " + Listed(more)) == more
    ensures RoleList(pad + Listed(names)) == names
  {
    assert names[1..] == more;
    MoreRoles(pad + name, name, " " + Listed(more));
    Reassociate(pad, name, ",", " " + Listed(more));
  }

  lemma Reassociate(a: string, b: string, c: string, d: string)
    ensures a + (b + (c + d)) == (a + b) + c + d
  {
  }

  /** An inline list of roles reads back as its roles, in order. */
  lemma RolesReadBack(names: seq<string>, taskType: string)
    requires names != [] && forall i :: 0 <= i < |names| ==> IsName(names[i])
    ensures Roles("[" + Listed(names) + "]", taskType) == Success(names)
  {
    ListedRoles("", names);
    Bracketed(Listed(names), names, taskType);
  }

  lemma Bracketed(inner: string, names: seq<string>, taskType: string)
    requires RoleList("" + inner) == names != []
    ensures Roles("[" + inner + "]", taskType) == Success(names)
  {
    var raw := "[" + inner + "]";
    assert raw[1..|raw| - 1] == inner == "" + inner;
  }

  // --- What parsing accepts ---------------------------------------------------------------------

  lemma FieldsAreKnown(fields: Fields)
    ensures FromFields(fields).Success? ==>
              var s := FromFields(fields).value;
              s.status in {None, Some("draft-proposal"), Some("done")} &&
              s.taskType in {"feature", "bug", "spike", "audit", "investigate"} &&
              (ReportOnly(s) <==> s.taskType == "audit" || s.taskType == "investigate")
  {
  }

  /** A spec that parses is of one of the five types, and is runnable, a draft or done; two of the types only report. */
  lemma SpecIsKnown(text: string)
    ensures ParseSpec(text).Success? ==>
              var s := ParseSpec(text).value;
              s.status in {None, Some("draft-proposal"), Some("done")} &&
              s.taskType in {"feature", "bug", "spike", "audit", "investigate"} &&
              (ReportOnly(s) <==> s.taskType == "audit" || s.taskType == "investigate")
  {
    match FrontMatter(text)
    case Failure(_) =>
    case Success(fields) => FieldsAreKnown(fields);
  }

  /** Who works on a task: code is written and reviewed, by a second reviewer except in a spike; a report is investigated and verified. */
  lemma CompositionSays(t: string)
    requires KnownType(t)
    ensures "developer" in Composition(t) <==> t != "audit" && t != "investigate"
    ensures "rw1" in Composition(t) <==> t != "audit" && t != "investigate"
    ensures "rw2" in Composition(t) <==> t == "feature" || t == "bug"
    ensures Composition(t) == ["investigator", "verify"] <==> t == "audit" || t == "investigate"
  {
    var code, spike, bug, report := ["developer", "rw1", "rw2"], ["explorer", "developer", "rw1"],
      ["explorer", "developer", "debugger", "rw1", "rw2"], ["investigator", "verify"];
    assert code[0] == "developer" && code[1] == "rw1" && code[2] == "rw2" && |code| == 3;
    assert spike[1] == "developer" && spike[2] == "rw1";
    assert bug[1] == "developer" && bug[3] == "rw1" && bug[4] == "rw2" && |bug| == 5;
    assert |report[0]| == 12 && |report[1]| == 6;
  }

  /** The first line with anything on it is a rule of three dashes or tildes or more: a fence that does not stand where it counts. */
  ghost predicate RuleFirst(lines: seq<string>) {
    exists i :: FirstContentAt(lines, i) && |Strip(lines[i])| >= 3 &&
      ((forall c :: c in Strip(lines[i]) ==> c == '-') || (forall c :: c in Strip(lines[i]) ==> c == '~'))
  }

  ghost predicate FirstContentAt(lines: seq<string>, i: int) {
    0 <= i < |lines| && !Blank(lines[i]) && forall j :: 0 <= j < i ==> Blank(lines[j])
  }

  lemma {:induction false} FirstContentSays(lines: seq<string>)
    ensures FirstContent(lines).None? ==> forall i :: 0 <= i < |lines| ==> Blank(lines[i])
    ensures FirstContent(lines).Some? ==> exists i :: FirstContentAt(lines, i) && lines[i] == FirstContent(lines).value
  {
    if lines != [] {
      FirstContentSays(lines[1..]);
      if !Blank(lines[0]) {
        assert FirstContentAt(lines, 0);
      } else if FirstContent(lines[1..]).Some? {
        var i :| FirstContentAt(lines[1..], i) && lines[1..][i] == FirstContent(lines[1..]).value;
        assert FirstContentAt(lines, i + 1);
      }
    }
  }

  lemma DefeatedSays(line: string, s: string)
    requires s == Strip(line)
    ensures DefeatedFence(line) <==> |s| >= 3 && ((forall c :: c in s ==> c == '-') || (forall c :: c in s ==> c == '~'))
  {
    assert FENCE[0] == '-' && FENCE[1] == '-' && FENCE[2] == '-' && |FENCE| == 3;
    assert forall i :: 0 <= i < |s| ==> s[i] in s;
    assert AllOf(s, '-') <==> forall c :: c in s ==> c == '-';
    assert AllOf(s, '~') <==> forall c :: c in s ==> c == '~';
  }

  /** A text whose first line is not the fence has no front matter, and fails exactly if that line holds a character beyond ASCII or the
      first line with anything on it is a rule. */
  lemma PlainFailsExactly(first: string, lines: seq<string>)
    requires lines == [] || Strip(lines[0]) != "---"
    ensures Parsed(first, lines) == Failure(()) <==> (exists i :: 0 <= i < |first| && first[i] as int > 0x7F) || RuleFirst(lines)
    ensures Parsed(first, lines).Success? ==> Parsed(first, lines) == Success(map[])
  {
    FirstContentSays(lines);
    if FirstContent(lines).Some? {
      var i :| FirstContentAt(lines, i) && lines[i] == FirstContent(lines).value;
      DefeatedSays(lines[i], Strip(lines[i]));
      assert forall j :: FirstContentAt(lines, j) ==> j == i;
    }
  }

  /** Blank lines and comments declare nothing. */
  lemma QuietLines(line: string, ws: string, rest: string)
    ensures Blank(line) ==> Read(line) == Skipped
    ensures Blank(ws) ==> Read(ws + ("#" + rest)) == Skipped
  {
    if Blank(line) {
      BlankStrips(line);
    }
    if Blank(ws) {
      var comment := "#" + rest;
      LStripSkips(ws, comment);
      CommentIsNoFence(ws + comment, comment);
    }
  }

  lemma {:induction false} BlankStrips(line: string)
    requires Blank(line)
    ensures LStrip(line) == "" && Strip(line) == ""
  {
    if line != "" {
      BlankStrips(line[1..]);
    }
  }

  lemma CommentIsNoFence(line: string, s: string)
    requires s != "" && s[0] == '#' && LStrip(line) == s
    ensures Strip(line) != FENCE && StartsWith(LStrip(line), "#")
  {
    RStripTakesSpace(s);
    assert FENCE[0] == '-';
    var r := RStrip(s);
    assert r != "" ==> r[0] == '#';
  }

  // --- Forcing the draft status -----------------------------------------------------------------

  const STATUS_LINE := "status: draft-proposal"

  function DropNewlines(s: string): string {
    if s != "" && s[0] == '\n' then DropNewlines(s[1..]) else s
  }

  /** The first line at or after i that closes the block. */
  function CloseAt(lines: seq<string>, i: nat): (r: Option<nat>)
    ensures r.Some? ==> i <= r.value < |lines| && Strip(lines[r.value]) == FENCE &&
                        forall j :: i <= j < r.value ==> Strip(lines[j]) != FENCE
    ensures r.None? ==> forall j :: i <= j < |lines| ==> Strip(lines[j]) != FENCE
    decreases |lines| - i
  {
    if i >= |lines| then None else if Strip(lines[i]) == FENCE then Some(i) else CloseAt(lines, i + 1)
  }

  /** The prefix test on the lower-cased text. */
  predicate HeadIs(s: string, word: string) {
    |word| <= |s| && forall i :: 0 <= i < |word| ==> LowerChar(s[i]) == word[i]
  }

  predicate StatusLine(line: string) {
    HeadIs(LStrip(line), "status:")
  }

  /** The lines that are not dropped, in order. */
  function Without<T>(drop: T -> bool, xs: seq<T>): seq<T> {
    if xs == [] then []
    else if drop(xs[0]) then Without(drop, xs[1..])
    else [xs[0]] + Without(drop, xs[1..])
  }

  function WithoutStatus(lines: seq<string>): seq<string> {
    Without(StatusLine, lines)
  }

  function Wrapped(text: string): string {
    Unlines([FENCE, STATUS_LINE, FENCE]) + text
  }

  /** The rewrite finds a block to preserve. */
  predicate Fenced(text: string) {
    StartsWith(DropNewlines(text), FENCE) && CloseAt(SplitLines(DropNewlines(text)), 1).Some?
  }

  function Rebuilt(lines: seq<string>, close: nat): string
    requires 1 <= close < |lines|
  {
    Unlines([FENCE, STATUS_LINE] + WithoutStatus(lines[1..close]) + [FENCE] + lines[close + 1..])
  }

  function ForceDraft(text: string): string {
    if Fenced(text) then
      var lines := SplitLines(DropNewlines(text));
      Rebuilt(lines, CloseAt(lines, 1).value)
    else Wrapped(text)
  }

  // --- What a forced draft parses as ------------------------------------------------------------

  lemma StripTight(s: string)
    requires s != "" ==> !IsSpace(s[0]) && !IsSpace(s[|s| - 1])
    ensures Strip(s) == s
  {
  }

  lemma {:induction false} LStripSkips(ws: string, s: string)
    requires Blank(ws) && s != "" && !IsSpace(s[0])
    ensures LStrip(ws + s) == s
  {
    if ws == "" {
      assert ws + s == s;
    } else {
      assert (ws + s)[0] == ws[0] && (ws + s)[1..] == ws[1..] + s;
      LStripSkips(ws[1..], s);
    }
  }

  lemma ColonIsAt(s: string, n: nat)
    requires n < |s| && s[n] == ':' && ':' !in s[..n]
    ensures ColonAt(s) == n
  {
    assert forall i :: 0 <= i < n ==> s[..n][i] == s[i];
  }

  predicate Tight(s: string) {
    s != "" && !IsSpace(s[0]) && !IsSpace(s[|s| - 1])
  }

  lemma TidySplits(line: string, key: string, value: string)
    requires Tight(key) && Tight(value) && ':' !in key && line == key + ": " + value
    ensures ColonAt(line) == |key| && KeyOf(line) == key && ValueOf(line) == value
  {
    assert line[..|key|] == key && line[|key|] == ':';
    ColonIsAt(line, |key|);
    assert line[|key| + 1..] == " " + value;
    StripTight(key);
    LStripSkips(" ", value);
    StripTight(value);
  }

  /** A tidy declaration reads as its key and value. */
  lemma TidyReads(line: string, key: string, value: string)
    requires Tight(key) && Tight(value) && ':' !in key && key[0] != '#' && line == key + ": " + value
    requires |line| > |FENCE|
    ensures Read(line) == Pair(key, value)
  {
    TidySplits(line, key, value);
    assert line[0] == key[0] && line[|line| - 1] == value[|value| - 1];
    TightIsContent(line);
  }

  lemma TightIsContent(line: string)
    requires Tight(line) && line[0] != '#' && |line| > |FENCE|
    ensures Strip(line) != FENCE && !Ignored(line)
  {
    StripTight(line);
    assert LStrip(line) == line;
  }

  lemma FirstLineOf(line: string, rest: string)
    requires '\n' !in line
    ensures FirstLine(line + ("\n" + rest)) == line
  {
    var text := line + ("\n" + rest);
    var first := FirstLine(text);
    assert text[|line|] == '\n' && text[..|line|] == line;
    assert forall i :: 0 <= i < |first| ==> first[i] == text[i];
    assert forall i :: 0 <= i < |line| ==> line[i] == text[i];
  }

  lemma FenceParses(opening: string, below: seq<string>)
    requires Ascii(opening) && Strip(opening) == FENCE
    ensures Parsed(opening, [opening] + below) == Block(Readings(below), map[])
  {
    var lines := [opening] + below;
    assert lines[0] == opening && lines[1..] == below;
  }

  lemma FenceIsTight(opening: string)
    requires opening == FENCE
    ensures Ascii(opening) && Tight(opening) && OneLine(opening) && '\n' !in opening
  {
  }

  lemma MappedCons<T, U>(f: T -> U, x: T, xs: seq<T>)
    ensures Mapped(f, [x] + xs) == [f(x)] + Mapped(f, xs)
  {
  }

  lemma BlockOfPair(key: string, value: string, rs: seq<Reading>)
    ensures Block([Pair(key, value)] + rs, map[]) == Block(rs, map[key := value])
  {
    assert ([Pair(key, value)] + rs)[1..] == rs;
    assert map[][key := value] == map[key := value];
  }

  lemma Regroup<T>(a: T, b: T, rest: seq<T>, tail: seq<T>)
    ensures ([a, b] + rest) + tail == [a] + ([b] + (rest + tail))
  {
  }

  lemma UnlinesCons(line: string, lines: seq<string>, text: string)
    ensures Unlines([line] + lines) + text == line + ("\n" + (Unlines(lines) + text))
  {
    assert ([line] + lines)[1..] == lines;
  }

  lemma ConsOneLine(a: string, b: string, rest: seq<string>)
    requires OneLine(a) && OneLine(b) && AllOneLine(rest)
    ensures AllOneLine([a, b] + rest)
  {
  }

  lemma TwoFirst<T>(a: T, b: T, rest: seq<T>)
    ensures [a] + ([b] + rest) == [a, b] + rest
  {
  }

  lemma TwoLines(a: string, b: string, rest: seq<string>, text: string, lines: seq<string>)
    requires OneLine(a) && OneLine(b) && AllOneLine(rest) && lines == [a, b] + rest
    ensures SplitLines(Unlines(lines) + text) == [a] + ([b] + (rest + SplitLines(text)))
    ensures Unlines(lines) + text == a + ("\n" + (Unlines([b] + rest) + text))
  {
    ConsOneLine(a, b, rest);
    SplitUnlines(lines, text);
    Regroup(a, b, rest, SplitLines(text));
    UnlinesCons(a, [b] + rest, text);
    TwoFirst(a, b, rest);
  }

  /** Everything below a clean fence and a tidy declaration is read with that field already taken. */
  lemma DeclaredFirst(out: string, a: string, b: string, key: string, value: string, rest: seq<string>, text: string)
    requires Strip(a) == FENCE && Ascii(a) && '\n' !in a && OneLine(a)
    requires OneLine(b) && AllOneLine(rest) && Read(b) == Pair(key, value)
    requires out == Unlines([a, b] + rest) + text
    ensures FrontMatter(out) == Block(Readings(rest + SplitLines(text)), map[key := value])
  {
    TwoLines(a, b, rest, text, [a, b] + rest);
    FirstLineOf(a, Unlines([b] + rest) + text);
    var below := rest + SplitLines(text);
    FenceParses(a, [b] + below);
    MappedCons(Read, b, below);
    BlockOfPair(key, value, Readings(below));
  }

  lemma ForcedBlock(out: string, a: string, b: string, key: string, value: string, rest: seq<string>, text: string)
    requires a == FENCE && b == key + ": " + value && OneLine(b) && AllOneLine(rest) && |b| > |FENCE|
    requires Tight(key) && Tight(value) && ':' !in key && key[0] != '#'
    requires out == Unlines([a, b] + rest) + text
    ensures FrontMatter(out) == Block(Readings(rest + SplitLines(text)), map[key := value])
  {
    FenceIsTight(a);
    StripTight(a);
    TidyReads(b, key, value);
    DeclaredFirst(out, a, b, key, value, rest, text);
  }

  /** The forced status line, as the generic facts want it. */
  lemma StatusIsTidy(b: string, key: string, value: string)
    requires b == STATUS_LINE && key == "status" && value == DRAFT
    ensures b == key + ": " + value && OneLine(b) && |b| > |FENCE|
    ensures Tight(key) && Tight(value) && ':' !in key && key[0] != '#'
  {
  }

  /** A field, once read, is never overwritten. */
  lemma {:induction false} BlockGrows(rs: seq<Reading>, fields: Fields, key: string)
    requires key in fields && Block(rs, fields).Success?
    ensures key in Block(rs, fields).value && Block(rs, fields).value[key] == fields[key]
  {
    match rs[0]
    case Skipped => BlockGrows(rs[1..], fields, key);
    case Pair(k, v) => BlockGrows(rs[1..], fields[k := v], key);
    case _ =>
  }

  lemma {:induction false} KeptOneLine(drop: string -> bool, lines: seq<string>)
    requires AllOneLine(lines)
    ensures AllOneLine(Without(drop, lines))
  {
    if lines != [] {
      KeptOneLine(drop, lines[1..]);
    }
  }

  /** The lines that end up below the forced status line. */
  function Below(lines: seq<string>, close: nat): seq<string>
    requires 1 <= close < |lines|
  {
    WithoutStatus(lines[1..close]) + [FENCE] + lines[close + 1..]
  }

  function BelowStatus(text: string): seq<string> {
    if Fenced(text) then
      var lines := SplitLines(DropNewlines(text));
      Below(lines, CloseAt(lines, 1).value)
    else [FENCE] + SplitLines(text)
  }

  lemma ForcedFields(text: string, key: string, value: string)
    requires key == "status" && value == DRAFT
    ensures FrontMatter(ForceDraft(text)) == Block(Readings(BelowStatus(text)), map[key := value])
  {
    StatusIsTidy(STATUS_LINE, key, value);
    if Fenced(text) {
      FencedShape(text);
      ForcedBlock(ForceDraft(text), FENCE, STATUS_LINE, key, value, BelowStatus(text), "");
      assert BelowStatus(text) + [] == BelowStatus(text);
    } else {
      assert [FENCE, STATUS_LINE] + [FENCE] == [FENCE, STATUS_LINE, FENCE];
      FenceIsTight(FENCE);
      ForcedBlock(ForceDraft(text), FENCE, STATUS_LINE, key, value, [FENCE], text);
    }
  }

  lemma JoinOneLine(a: seq<string>, line: string, b: seq<string>)
    requires AllOneLine(a) && OneLine(line) && AllOneLine(b)
    ensures AllOneLine(a + [line] + b)
  {
  }

  lemma BelowOneLine(lines: seq<string>, close: nat)
    requires 1 <= close < |lines| && AllOneLine(lines) && OneLine(FENCE)
    ensures AllOneLine(Below(lines, close))
  {
    KeptOneLine(StatusLine, lines[1..close]);
    JoinOneLine(WithoutStatus(lines[1..close]), FENCE, lines[close + 1..]);
  }

  lemma UnlinesRegrouped(a: seq<string>, b: seq<string>, c: seq<string>, d: seq<string>)
    ensures Unlines(a + b + c + d) == Unlines(a + (b + c + d)) + ""
  {
    Regroup3(a, b, c, d);
  }

  lemma FencedShape(text: string)
    requires Fenced(text)
    ensures AllOneLine(BelowStatus(text)) && ForceDraft(text) == Unlines([FENCE, STATUS_LINE] + BelowStatus(text)) + ""
  {
    FenceIsTight(FENCE);
    var lines := SplitLines(DropNewlines(text));
    var close := CloseAt(lines, 1).value;
    LinesAreWhole(DropNewlines(text));
    BelowOneLine(lines, close);
    UnlinesRegrouped([FENCE, STATUS_LINE], WithoutStatus(lines[1..close]), [FENCE], lines[close + 1..]);
  }

  lemma Regroup3<T>(a: seq<T>, b: seq<T>, c: seq<T>, d: seq<T>)
    ensures a + (b + c + d) == a + b + c + d
  {
  }

  /** Whatever the text holds, its forced draft never parses as a runnable spec. */
  lemma ForceDraftNeverRuns(text: string)
    ensures var r := ParseSpec(ForceDraft(text)); r.Success? ==> r.value.status == Some(DRAFT)
  {
    var out := ForceDraft(text);
    ForcedFields(text, "status", DRAFT);
    if FrontMatter(out).Success? {
      BlockGrows(Readings(BelowStatus(text)), map["status" := DRAFT], "status");
      StatusOfFields(FrontMatter(out).value);
    }
  }

  lemma StatusOfFields(fields: Fields)
    requires "status" in fields && fields["status"] == DRAFT
    ensures FromFields(fields).Success? ==> FromFields(fields).value.status == Some(DRAFT)
  {
  }

  /** What the fields that decide the spec have to say. */
  lemma FieldsDecide(fields: Fields, taskType: string, roles: string, risk: string, status: string)
    requires taskType == (if "type" in fields then fields["type"] else "feature") && roles == Get(fields, "roles")
    requires risk == Lower(Strip(Get(fields, "risk"))) && status == Get(fields, "status")
    ensures FromFields(fields) ==
            if !KnownType(taskType) || Roles(roles, taskType).Failure? || (status != "" && status != DRAFT && status != DONE) then Failure(())
            else Success(TaskSpec(taskType, Roles(roles, taskType).value, if status == "" then None else Some(status), if risk == "" then None else Some(risk)))
  {
  }

  lemma StripEmpty(s: string)
    requires s == ""
    ensures Lower(Strip(s)) == ""
  {
  }

  lemma DefaultDraft(fields: Fields, feature: string, empty: string)
    requires fields == map["status" := DRAFT] && feature == "feature" && empty == ""
    ensures FromFields(fields) == Success(TaskSpec("feature", Composition("feature"), Some(DRAFT), None))
  {
    StripEmpty(Get(fields, "risk"));
    assert "type" !in fields && "roles" !in fields && "risk" !in fields;
    FieldsDecide(fields, feature, empty, empty, DRAFT);
  }

  /** With no block to preserve, the result is the default feature, as a draft. */
  lemma UnfencedBecomesFeature(text: string)
    requires !Fenced(text)
    ensures ParseSpec(ForceDraft(text)) == Success(TaskSpec("feature", Composition("feature"), Some(DRAFT), None))
  {
    ForcedFields(text, "status", DRAFT);
    FenceReads(FENCE);
    ClosedAtOnce(Readings(BelowStatus(text)), map["status" := DRAFT]);
    DefaultDraft(map["status" := DRAFT], "feature", "");
  }

  lemma FenceReads(fence: string)
    requires fence == FENCE
    ensures Read(fence) == Closing
  {
    FenceIsTight(fence);
    StripTight(fence);
  }

  lemma ClosedAtOnce(rs: seq<Reading>, fields: Fields)
    requires rs != [] && rs[0] == Closing
    ensures Block(rs, fields) == Success(fields)
  {
  }

  /** A line dropped as a status line declared some spelling of the status, and nothing else. */
  lemma DroppedDeclaresStatus(line: string)
    requires StatusLine(line)
    ensures Read(line).Pair? && |Read(line).key| == 6 && HeadIs(Read(line).key, "status")
  {
    var s := LStrip(line);
    LStripTakesSpace(line);
    var ws := line[..|line| - |s|];
    StatusHead(s);
    assert line == ws + s;
    ColonAfter(ws, s, line);
    LStripSkips(ws, s[..6]);
    assert line[..|ws| + 6] == ws + s[..6];
    StripTight(s[..6]);
    NotAFence(line, s);
  }

  lemma StatusHead(s: string)
    requires HeadIs(s, "status:")
    ensures |s| >= 7 && s[6] == ':' && ':' !in s[..6] && Tight(s[..6]) && HeadIs(s[..6], "status") && s[0] != '#' && s[0] != '-'
  {
    assert forall i :: 0 <= i < 7 ==> LowerChar(s[i]) == "status:"[i];
    assert LowerChar(s[0]) == 's' && LowerChar(s[1]) == 't' && LowerChar(s[2]) == 'a' && LowerChar(s[3]) == 't';
    assert LowerChar(s[4]) == 'u' && LowerChar(s[5]) == 's' && LowerChar(s[6]) == ':';
  }

  lemma ColonAfter(ws: string, s: string, line: string)
    requires line == ws + s && Blank(ws) && |s| >= 7 && s[6] == ':' && ':' !in s[..6]
    ensures ColonAt(line) == |ws| + 6
  {
    assert line[..|ws| + 6] == ws + s[..6];
    assert forall i :: 0 <= i < |ws| ==> ws[i] != ':';
    ColonIsAt(line, |ws| + 6);
  }

  lemma NotAFence(line: string, s: string)
    requires s == LStrip(line) && s != "" && s[0] != '#' && s[0] != '-'
    ensures Strip(line) != FENCE && !Ignored(line)
  {
    LStripTakesSpace(line);
    RStripTakesSpace(s);
    assert line[|line| - |s|] == s[0];
  }

  /** What the two parses have in common: the forced one declares nothing else than the status. */
  ghost predicate Within(f: Fields, g: Fields, status: string, keep: set<string>) {
    status in g && (forall k :: k in g && k != status ==> k in f && f[k] == g[k]) && (forall k :: k in keep && k in f ==> k in g)
  }

  /** Dropping declarations from a block that parses, with one field already taken, clashes exactly when a
      surviving line declares that field, and keeps every other field no dropped line declares. */
  lemma {:induction false} Preserved<T>(read: T -> Reading, drop: T -> bool, hs: seq<T>, tail: seq<Reading>, rest: seq<Reading>,
                                        f: Fields, g: Fields, status: string, keep: set<string>)
    requires tail != [] && tail[0].Closing? && rest != [] && rest[0].Closing?
    requires forall i :: 0 <= i < |hs| ==> !read(hs[i]).Closing?
    requires forall i :: 0 <= i < |hs| && drop(hs[i]) ==> read(hs[i]).Pair? && read(hs[i]).key !in keep
    requires Within(f, g, status, keep) && status !in keep && Block(Mapped(read, hs) + tail, f).Success?
    ensures var r := Block(Mapped(read, Without(drop, hs)) + rest, g);
            (r.Failure? <==> exists i :: 0 <= i < |hs| && !drop(hs[i]) && read(hs[i]).Pair? && read(hs[i]).key == status) &&
            (r.Success? ==> r.value[status := g[status]] == r.value && Within(Block(Mapped(read, hs) + tail, f).value, r.value, status, keep))
  {
    var all := Mapped(read, hs) + tail;
    var kept := Mapped(read, Without(drop, hs)) + rest;
    if hs == [] {
      assert all == tail && kept == rest;
    } else {
      var h := read(hs[0]);
      var f' := if h.Pair? then f[h.key := h.value] else f;
      assert all[0] == h && all[1..] == Mapped(read, hs[1..]) + tail;
      if drop(hs[0]) {
        Preserved(read, drop, hs[1..], tail, rest, f', g, status, keep);
      } else {
        assert kept[0] == h && kept[1..] == Mapped(read, Without(drop, hs[1..])) + rest;
        if !(h.Pair? && h.key == status) {
          Preserved(read, drop, hs[1..], tail, rest, f', if h.Pair? then g[h.key := h.value] else g, status, keep);
        }
      }
      assert forall i :: 1 <= i < |hs| ==> hs[i] == hs[1..][i - 1];
    }
  }

  lemma SameSpec(f: Fields, g: Fields)
    requires Within(f, g, "status", OTHER_KEYS) && g["status"] == DRAFT && FromFields(f).Success?
    ensures FromFields(g) == Success(FromFields(f).value.(status := Some(DRAFT)))
  {
    assert "type" != "status" && "roles" != "status" && "risk" != "status";
    assert "type" in OTHER_KEYS && "roles" in OTHER_KEYS && "risk" in OTHER_KEYS;
    assert "type" in f <==> "type" in g;
    assert Get(f, "roles") == Get(g, "roles") && Get(f, "risk") == Get(g, "risk");
  }

  lemma {:induction false} BlockCloses(rs: seq<Reading>, fields: Fields)
    requires Block(rs, fields).Success?
    ensures exists i :: 0 <= i < |rs| && rs[i].Closing?
  {
    if rs[0].Closing? {
      assert rs[0].Closing?;
    } else {
      BlockCloses(rs[1..], if rs[0].Pair? then fields[rs[0].key := rs[0].value] else fields);
    }
  }

  /** The lines between the opening fence and the line that closes it. */
  function HeaderLines(text: string): seq<string>
    requires Fenced(text)
  {
    var lines := SplitLines(DropNewlines(text));
    lines[1..CloseAt(lines, 1).value]
  }

  lemma MappedJoin<T, U>(f: T -> U, xs: seq<T>, ys: seq<T>)
    ensures Mapped(f, xs + ys) == Mapped(f, xs) + Mapped(f, ys)
  {
  }

  lemma MappedHead<T, U>(f: T -> U, xs: seq<T>)
    requires xs != []
    ensures Mapped(f, xs) != [] && Mapped(f, xs)[0] == f(xs[0])
  {
  }

  const OTHER_KEYS := {"type", "roles", "risk"}

  /** A line that is not dropped declares the status. */
  predicate StatusLeft<T(!new)>(read: T -> Reading, drop: T -> bool, hs: seq<T>, status: string) {
    exists i :: 0 <= i < |hs| && !drop(hs[i]) && read(hs[i]).Pair? && read(hs[i]).key == status
  }

  /** The header declares the status in a line the rewrite does not recognise, such as `status : done`. */
  predicate HidesStatus(header: seq<string>) {
    StatusLeft(Read, StatusLine, header, "status")
  }

  lemma SixIsOther(key: string)
    requires |key| == 6
    ensures key !in OTHER_KEYS
  {
  }

  lemma DroppedAreNotKept(header: seq<string>)
    ensures forall i :: 0 <= i < |header| && StatusLine(header[i]) ==>
              Read(header[i]).Pair? && Read(header[i]).key !in OTHER_KEYS
  {
    forall i | 0 <= i < |header| && StatusLine(header[i])
      ensures Read(header[i]).Pair? && Read(header[i]).key !in OTHER_KEYS
    {
      DroppedDeclaresStatus(header[i]);
      SixIsOther(Read(header[i]).key);
    }
  }

  /** The two blocks side by side: the header as it was, and the header below the forced status line. */
  lemma BlocksCompare<T(!new)>(read: T -> Reading, drop: T -> bool, hs: seq<T>, closing: T, body: seq<T>, fence: T, status: string,
                               keep: set<string>, g: Fields)
    requires forall i :: 0 <= i < |hs| ==> !read(hs[i]).Closing?
    requires forall i :: 0 <= i < |hs| && drop(hs[i]) ==> read(hs[i]).Pair? && read(hs[i]).key !in keep
    requires read(closing).Closing? && read(fence).Closing? && Within(map[], g, status, keep) && status !in keep
    requires Block(Mapped(read, hs + ([closing] + body)), map[]).Success?
    ensures var was := Block(Mapped(read, hs + ([closing] + body)), map[]).value;
            var r := Block(Mapped(read, Without(drop, hs) + ([fence] + body)), g);
            (r.Failure? <==> StatusLeft(read, drop, hs, status)) &&
            (r.Success? ==> Within(was, r.value, status, keep) && r.value[status] == g[status])
  {
    MappedJoin(read, hs, [closing] + body);
    MappedJoin(read, Without(drop, hs), [fence] + body);
    MappedHead(read, [closing] + body);
    MappedHead(read, [fence] + body);
    Preserved(read, drop, hs, Mapped(read, [closing] + body), Mapped(read, [fence] + body), map[], g, status, keep);
  }

  lemma OnlyStatus(g: Fields)
    requires g == map["status" := DRAFT]
    ensures Within(map[], g, "status", OTHER_KEYS) && "status" !in OTHER_KEYS && g["status"] == DRAFT
  {
  }

  lemma CutAround(lines: seq<string>, close: nat)
    requires 1 <= close < |lines|
    ensures lines[1..] == lines[1..close] + ([lines[close]] + lines[close + 1..])
  {
  }

  lemma ClosesSomewhere(lines: seq<string>)
    requires lines != [] && Block(Readings(lines[1..]), map[]).Success?
    ensures CloseAt(lines, 1).Some?
  {
    var rs := Readings(lines[1..]);
    BlockCloses(rs, map[]);
    var i :| 0 <= i < |rs| && rs[i].Closing?;
    assert lines[1..][i] == lines[i + 1] && Read(lines[i + 1]).Closing?;
  }

  lemma NothingToDrop(text: string, fence: string)
    requires fence == FENCE && StartsWith(text, fence)
    ensures DropNewlines(text) == text
  {
    assert text[0] == fence[0];
  }

  /** A text that opens with the fence and parses has a block the rewrite finds. */
  lemma ParsedIsFenced(text: string, lines: seq<string>)
    requires lines == SplitLines(text) && StartsWith(text, FENCE) && lines != [] && Strip(lines[0]) == FENCE && FrontMatter(text).Success?
    ensures Fenced(text) && DropNewlines(text) == text && FrontMatter(text) == Block(Readings(lines[1..]), map[])
  {
    NothingToDrop(text, FENCE);
    ParsedAsBlock(FirstLine(text), lines);
    ClosesSomewhere(lines);
  }

  lemma ParsedAsBlock(first: string, lines: seq<string>)
    requires lines != [] && Strip(lines[0]) == FENCE && Parsed(first, lines).Success?
    ensures Parsed(first, lines) == Block(Readings(lines[1..]), map[])
  {
  }

  /** What the rewrite makes of a spec that opens with the fence and parses: the same spec as a draft, unless its header
      hides a second status declaration from the rewrite, and then a text that does not parse. */
  lemma ForceDraftKeepsTheRest(text: string)
    requires StartsWith(text, FENCE) && SplitLines(text) != [] && Strip(SplitLines(text)[0]) == FENCE && ParseSpec(text).Success?
    ensures Fenced(text)
    ensures ParseSpec(ForceDraft(text)) ==
            if HidesStatus(HeaderLines(text)) then Failure(()) else Success(ParseSpec(text).value.(status := Some(DRAFT)))
  {
    var lines := SplitLines(text);
    ParsedIsFenced(text, lines);
    ForcedFields(text, "status", DRAFT);
    var close := CloseAt(lines, 1).value;
    StatusCompare(lines, close, map["status" := DRAFT]);
    if FrontMatter(ForceDraft(text)).Success? {
      SameSpec(FrontMatter(text).value, FrontMatter(ForceDraft(text)).value);
    }
  }

  lemma HeadersCompare(lines: seq<string>, close: nat, status: string, keep: set<string>, g: Fields)
    requires 1 <= close < |lines| && Read(lines[close]).Closing? && Read(FENCE).Closing?
    requires forall i :: 0 <= i < |lines[1..close]| ==> !Read(lines[1..close][i]).Closing?
    requires forall i :: 0 <= i < |lines[1..close]| && StatusLine(lines[1..close][i]) ==>
               Read(lines[1..close][i]).Pair? && Read(lines[1..close][i]).key !in keep
    requires Block(Readings(lines[1..]), map[]).Success? && Within(map[], g, status, keep) && status !in keep
    ensures var was := Block(Readings(lines[1..]), map[]).value;
            var r := Block(Readings(Below(lines, close)), g);
            (r.Failure? <==> StatusLeft(Read, StatusLine, lines[1..close], status)) &&
            (r.Success? ==> Within(was, r.value, status, keep) && r.value[status] == g[status])
  {
    CutAround(lines, close);
    BelowGrouped(lines, close);
    BlocksCompare(Read, StatusLine, lines[1..close], lines[close], lines[close + 1..], FENCE, status, keep, g);
  }

  lemma StatusCompare(lines: seq<string>, close: nat, g: Fields)
    requires 1 <= close < |lines| && Strip(lines[close]) == FENCE && forall j :: 1 <= j < close ==> Strip(lines[j]) != FENCE
    requires Block(Readings(lines[1..]), map[]).Success? && g == map["status" := DRAFT]
    ensures var was := Block(Readings(lines[1..]), map[]).value;
            var r := Block(Readings(Below(lines, close)), g);
            (r.Failure? <==> HidesStatus(lines[1..close])) &&
            (r.Success? ==> Within(was, r.value, "status", OTHER_KEYS) && r.value["status"] == DRAFT)
  {
    OnlyStatus(g);
    FenceReads(FENCE);
    HeaderIsOpen(lines, close);
    DroppedAreNotKept(lines[1..close]);
    HeadersCompare(lines, close, "status", OTHER_KEYS, g);
  }

  lemma BelowGrouped(lines: seq<string>, close: nat)
    requires 1 <= close < |lines|
    ensures Below(lines, close) == Without(StatusLine, lines[1..close]) + ([FENCE] + lines[close + 1..])
  {
  }

  lemma HeaderIsOpen(lines: seq<string>, close: nat)
    requires 1 <= close < |lines| && Strip(lines[close]) == FENCE && forall j :: 1 <= j < close ==> Strip(lines[j]) != FENCE
    ensures Read(lines[close]).Closing? && forall i :: 0 <= i < |lines[1..close]| ==> !Read(lines[1..close][i]).Closing?
  {
    forall i | 0 <= i < |lines[1..close]| ensures !Read(lines[1..close][i]).Closing? {
      assert lines[1..close][i] == lines[i + 1];
    }
  }

  // --- When the rewrite keeps the spec, and only then -------------------------------------------

  const DEFAULT_DRAFT := TaskSpec("feature", Composition("feature"), Some(DRAFT), None)
  const DEFAULT_SPEC := TaskSpec("feature", Composition("feature"), None, None)

  /** To the parser the text opens with the fence; blanks around it do not matter. */
  predicate OpensWithFence(text: string) {
    SplitLines(text) != [] && Strip(SplitLines(text)[0]) == FENCE
  }

  /** These fields declare nothing but what a text without front matter has anyway. */
  predicate SaysDefault(fields: Fields) {
    ("type" in fields ==> fields["type"] == "feature") && Roles(Get(fields, "roles"), "feature") == Success(Composition("feature")) &&
    Lower(Strip(Get(fields, "risk"))) == ""
  }

  /** The lines between a first line that is no fence, and that the rewrite takes for one, and the next fence: without their status
      lines they are a well-formed block that declares no status and nothing but the default. */
  predicate HeaderSaysDefault(header: seq<string>) {
    var r := Block(Readings(WithoutStatus(header) + [FENCE]), map[]);
    r.Success? && "status" !in r.value && SaysDefault(r.value)
  }

  /** Whether forcing the draft keeps everything but the status of a text that parses. */
  predicate Kept(text: string) {
    if !Fenced(text) then FrontMatter(text).Success? && SaysDefault(FrontMatter(text).value)
    else if OpensWithFence(text) then !HidesStatus(HeaderLines(text))
    else HeaderSaysDefault(HeaderLines(text))
  }

  function TypeOf(fields: Fields): string {
    if "type" in fields then fields["type"] else "feature"
  }

  lemma DraftedFields(fields: Fields, g: Fields)
    requires g == fields["status" := DRAFT]
    ensures TypeOf(g) == TypeOf(fields) && Get(g, "roles") == Get(fields, "roles") && Get(g, "risk") == Get(fields, "risk")
    ensures Get(g, "status") == DRAFT && (SaysDefault(g) <==> SaysDefault(fields))
  {
    assert "type" != "status" && "roles" != "status" && "risk" != "status";
  }

  lemma DefaultExactly(fields: Fields, taskType: string, roles: string, risk: string, status: string)
    requires taskType == TypeOf(fields) && roles == Get(fields, "roles") && risk == Lower(Strip(Get(fields, "risk")))
    requires status == Get(fields, "status")
    ensures FromFields(fields).Success? ==> (FromFields(fields).value.(status := Some(DRAFT)) == DEFAULT_DRAFT <==> SaysDefault(fields))
    ensures SaysDefault(fields) && (status == "" || status == DRAFT) ==> FromFields(fields).Success?
  {
    FieldsDecide(fields, taskType, roles, risk, status);
  }

  lemma DraftDefaultExactly(fields: Fields, g: Fields)
    requires g == fields["status" := DRAFT]
    ensures FromFields(g) == Success(DEFAULT_DRAFT) <==> SaysDefault(fields)
  {
    DraftedFields(fields, g);
    DefaultExactly(g, TypeOf(g), Get(g, "roles"), Lower(Strip(Get(g, "risk"))), DRAFT);
    StatusOfFields(g);
  }

  /** A field taken beforehand clashes exactly with a declaration of it, and is otherwise just added. */
  lemma {:induction false} BlockTaken(rs: seq<Reading>, fields: Fields, key: string, value: string)
    requires key !in fields
    ensures Block(rs, fields[key := value]).Success? <==> Block(rs, fields).Success? && key !in Block(rs, fields).value
    ensures Block(rs, fields[key := value]).Success? ==> Block(rs, fields[key := value]).value == Block(rs, fields).value[key := value]
  {
    if rs != [] {
      match rs[0]
      case Skipped => BlockTaken(rs[1..], fields, key, value);
      case Pair(k, v) =>
        if k == key {
          if Block(rs, fields).Success? {
            BlockGrows(rs[1..], fields[k := v], key);
          }
        } else if k !in fields {
          assert fields[k := v][key := value] == fields[key := value][k := v];
          BlockTaken(rs[1..], fields[k := v], key, value);
        }
      case _ =>
    }
  }

  /** Nothing behind a closing line is read. */
  lemma {:induction false} BlockStops(rs: seq<Reading>, more: seq<Reading>, fields: Fields)
    requires rs != [] && rs[|rs| - 1].Closing?
    ensures Block(rs + more, fields) == Block(rs, fields)
  {
    var all := rs + more;
    assert all[0] == rs[0] && all[1..] == rs[1..] + more;
    if |rs| > 1 {
      BlockStops(rs[1..], more, fields);
      if rs[0].Pair? {
        BlockStops(rs[1..], more, fields[rs[0].key := rs[0].value]);
      }
    }
  }

  lemma HeaderBlock(kept: seq<string>, fence: string, more: seq<string>, fields: Fields)
    requires Read(fence).Closing?
    ensures Block(Readings(kept + [fence] + more), fields) == Block(Readings(kept + [fence]), fields)
  {
    MappedJoin(Read, kept + [fence], more);
    var rs := Readings(kept + [fence]);
    assert rs[|rs| - 1] == Read((kept + [fence])[|kept|]);
    BlockStops(rs, Readings(more), fields);
  }

  /** What becomes of a pseudo-header below the forced status line. */
  lemma PseudoHeaderExactly(kept: seq<string>, fence: string, more: seq<string>, f: Fields)
    requires Read(fence).Closing? && f == map["status" := DRAFT]
    ensures var r := Block(Readings(kept + [fence]), map[]);
            var g := Block(Readings(kept + [fence] + more), f);
            (g.Success? && FromFields(g.value) == Success(DEFAULT_DRAFT)) <==>
            (r.Success? && "status" !in r.value && SaysDefault(r.value))
  {
    HeaderBlock(kept, fence, more, f);
    var rs := Readings(kept + [fence]);
    assert map[]["status" := DRAFT] == f;
    BlockTaken(rs, map[], "status", DRAFT);
    if Block(rs, f).Success? {
      DraftDefaultExactly(Block(rs, map[]).value, Block(rs, f).value);
    }
  }

  lemma NoFrontMatter(text: string)
    requires !OpensWithFence(text) && FrontMatter(text).Success?
    ensures FrontMatter(text) == Success(map[])
  {
    ParsedUnfenced(FirstLine(text), SplitLines(text));
  }

  lemma ParsedUnfenced(first: string, lines: seq<string>)
    requires lines == [] || Strip(lines[0]) != FENCE
    ensures Parsed(first, lines).Success? ==> Parsed(first, lines) == Success(map[])
  {
  }

  lemma NothingDeclared(fields: Fields, feature: string, empty: string)
    requires fields == map[] && feature == "feature" && empty == ""
    ensures FromFields(fields) == Success(DEFAULT_SPEC) && SaysDefault(fields)
  {
    StripEmpty(Get(fields, "risk"));
    FieldsDecide(fields, feature, empty, empty, empty);
  }

  /** A text the parser opens and the rewrite finds fenced begins with the fence itself. */
  lemma FencedOpening(text: string)
    requires OpensWithFence(text) && Fenced(text)
    ensures StartsWith(text, FENCE)
  {
    if text[0] == '\n' {
      EmptyFirstLine(text, SplitLines(text));
      assert false;
    }
  }

  lemma EmptyFirstLine(text: string, lines: seq<string>)
    requires text != "" && text[0] == '\n' && lines == SplitLines(text)
    ensures lines != [] && lines[0] == "" && Strip(lines[0]) != FENCE
  {
    assert LineEnd(text) == 0;
    StripEmptyLine(lines[0]);
  }

  lemma StripEmptyLine(s: string)
    requires s == ""
    ensures |Strip(s)| == 0 && |FENCE| == 3
  {
  }

  lemma PlainTextIsDefault(text: string)
    requires !OpensWithFence(text) && FrontMatter(text).Success?
    ensures ParseSpec(text) == Success(DEFAULT_SPEC)
  {
    NoFrontMatter(text);
    NothingDeclared(map[], "feature", "");
  }

  lemma PseudoBelow(lines: seq<string>, close: nat, f: Fields)
    requires 1 <= close < |lines| && f == map["status" := DRAFT]
    ensures var g := Block(Readings(Below(lines, close)), f);
            (g.Success? && FromFields(g.value) == Success(DEFAULT_DRAFT)) <==> HeaderSaysDefault(lines[1..close])
  {
    FenceReads(FENCE);
    PseudoHeaderExactly(WithoutStatus(lines[1..close]), FENCE, lines[close + 1..], f);
  }

  lemma PseudoFenced(text: string)
    requires Fenced(text) && !OpensWithFence(text) && FrontMatter(text).Success?
    ensures ParseSpec(text) == Success(DEFAULT_SPEC)
    ensures ParseSpec(ForceDraft(text)) == Success(DEFAULT_DRAFT) <==> HeaderSaysDefault(HeaderLines(text))
  {
    PlainTextIsDefault(text);
    ForcedFields(text, "status", DRAFT);
    var lines := SplitLines(DropNewlines(text));
    PseudoBelow(lines, CloseAt(lines, 1).value, map["status" := DRAFT]);
  }

  /** Of every text that parses, the rewrite keeps the type, the roles and the risk exactly in these cases: the text opens with an
      unindented fence and its header does not hide a status declaration; or the rewrite finds no block, and what the text declares
      - nothing, or something behind an indented fence - is the default anyway; or the rewrite takes a line such as `---x` for the
      fence, and the lines it takes for the header say nothing else than the default. */
  lemma ForceDraftKeepsExactly(text: string)
    requires ParseSpec(text).Success?
    ensures ParseSpec(ForceDraft(text)) == Success(ParseSpec(text).value.(status := Some(DRAFT))) <==> Kept(text)
  {
    if !Fenced(text) {
      UnfencedBecomesFeature(text);
      var f := FrontMatter(text).value;
      DefaultExactly(f, TypeOf(f), Get(f, "roles"), Lower(Strip(Get(f, "risk"))), Get(f, "status"));
    } else if OpensWithFence(text) {
      FencedOpening(text);
      ForceDraftKeepsTheRest(text);
    } else {
      PseudoFenced(text);
    }
  }

  // --- Where the type is lost -------------------------------------------------------------------

  /** The parser strips the opening fence, the rewrite does not: whatever a text declares behind an indented fence, what comes back is
      the default feature, as a draft. */
  lemma IndentedFenceLosesType(text: string)
    requires OpensWithFence(text) && !StartsWith(text, FENCE)
    ensures ParseSpec(ForceDraft(text)) == Success(DEFAULT_DRAFT)
    ensures ParseSpec(text).Success? && ParseSpec(text).value.taskType != "feature" ==>
              ParseSpec(ForceDraft(text)).value.taskType != ParseSpec(text).value.taskType
  {
    if Fenced(text) {
      FencedOpening(text);
      assert false;
    }
    UnfencedBecomesFeature(text);
  }

  lemma IndentedFence(a: string, fence: string)
    requires fence == FENCE && a == " " + fence
    ensures Strip(a) == FENCE && Ascii(a) && '\n' !in a && OneLine(a)
  {
    FenceIsTight(fence);
    LStripSkips(" ", fence);
    StripTight(fence);
  }

  lemma TypedSpec(fields: Fields, t: string, empty: string)
    requires fields == map["type" := t] && KnownType(t) && empty == ""
    ensures FromFields(fields) == Success(TaskSpec(t, Composition(t), None, None))
  {
    StripEmpty(Get(fields, "risk"));
    assert "type" in fields && "roles" !in fields && "risk" !in fields && "status" !in fields;
    FieldsDecide(fields, t, empty, empty, empty);
  }

  /** Such texts parse, for every type: a report-only spec, say, comes back as a draft of a feature. */
  lemma IndentedTypeIsLost(text: string, t: string, line: string)
    requires KnownType(t) && Tight(t) && OneLine(t) && line == "type" + ": " + t && text == Unlines([" " + FENCE, line] + [FENCE]) + ""
    ensures ParseSpec(text) == Success(TaskSpec(t, Composition(t), None, None))
    ensures ParseSpec(ForceDraft(text)) == Success(TaskSpec("feature", Composition("feature"), Some(DRAFT), None))
  {
    TypeLineReads(line, "type", t);
    IndentedFence(" " + FENCE, FENCE);
    FenceIsTight(FENCE);
    DeclaredFirst(text, " " + FENCE, line, "type", t, [FENCE], "");
    assert [FENCE] + [] == [FENCE];
    FenceReads(FENCE);
    ClosedAtOnce(Readings([FENCE]), map["type" := t]);
    TypedSpec(map["type" := t], t, "");
    StartsIndented(text, line);
    UnfencedBecomesFeature(text);
  }

  lemma TypeIsTidy(key: string)
    requires key == "type"
    ensures |key| == 4 && Tight(key) && ':' !in key && key[0] != '#' && OneLine(key)
  {
  }

  lemma DeclarationOneLine(line: string, key: string, t: string)
    requires line == key + ": " + t && OneLine(key) && OneLine(t)
    ensures OneLine(line)
  {
  }

  lemma TypeLineReads(line: string, key: string, t: string)
    requires key == "type" && line == key + ": " + t && Tight(t) && OneLine(t)
    ensures Read(line) == Pair(key, t) && OneLine(line)
  {
    TypeIsTidy(key);
    DeclarationOneLine(line, key, t);
    TidyReads(line, key, t);
  }

  lemma StartsIndented(text: string, line: string)
    requires text == Unlines([" " + FENCE, line] + [FENCE]) + ""
    ensures !Fenced(text)
  {
    assert text[0] == ' ' by {
      UnlinesCons(" " + FENCE, [line] + [FENCE], "");
      assert [" " + FENCE, line] + [FENCE] == [" " + FENCE] + ([line] + [FENCE]);
    }
    assert DropNewlines(text) == text;
    assert FENCE[0] == '-';
  }

  /** The rewrite takes any first line with the fence as its prefix for the fence, the parser does not: in a text that is plain to the
      parser, the lines up to the next fence become front matter, and the type changes. */
  lemma PseudoFenceTakesType(text: string, first: string, line: string, t: string)
    requires OneLine(first) && StartsWith(first, FENCE) && Ascii(first) && '\n' !in first
    requires Strip(first) != FENCE && !Blank(first) && !DefeatedFence(first)
    requires KnownType(t) && Tight(t) && OneLine(t) && line == "type" + ": " + t && text == Unlines([first, line] + [FENCE]) + ""
    ensures ParseSpec(text) == Success(DEFAULT_SPEC)
    ensures ParseSpec(ForceDraft(text)) == Success(TaskSpec(t, Composition(t), Some(DRAFT), None))
  {
    TypeLineReads(line, "type", t);
    FenceIsTight(FENCE);
    PseudoLines(text, first, line);
    NothingToDrop(text, FENCE);
    FirstLineOf(first, Unlines([line] + [FENCE]) + "");
    PlainParses(FirstLine(text), SplitLines(text));
    PlainTextIsDefault(text);
    PseudoCloses(SplitLines(text), first, line);
    TypeIsNoStatus(line, t);
    ForcedFields(text, "status", DRAFT);
    PseudoBlock(SplitLines(text), first, line, t, map["status" := DRAFT]);
    DraftTyped(map["status" := DRAFT]["type" := t], t, "");
  }

  lemma PseudoLines(text: string, first: string, line: string)
    requires OneLine(first) && OneLine(line) && OneLine(FENCE) && StartsWith(first, FENCE) && text == Unlines([first, line] + [FENCE]) + ""
    ensures SplitLines(text) == [first, line, FENCE] && StartsWith(text, FENCE)
    ensures text == first + ("\n" + (Unlines([line] + [FENCE]) + ""))
  {
    TwoLines(first, line, [FENCE], "", [first, line] + [FENCE]);
    ThreeOf(first, line, FENCE);
    PrefixGrows(FENCE, first, "\n" + (Unlines([line] + [FENCE]) + ""));
  }

  lemma ThreeOf<T>(a: T, b: T, c: T)
    ensures [a] + ([b] + ([c] + [])) == [a, b, c]
  {
  }

  lemma PrefixGrows(a: string, b: string, c: string)
    requires StartsWith(b, a)
    ensures StartsWith(b + c, a)
  {
  }

  lemma PlainParses(first: string, lines: seq<string>)
    requires lines != [] && Ascii(first) && Strip(lines[0]) != FENCE && !Blank(lines[0]) && !DefeatedFence(lines[0])
    ensures Parsed(first, lines) == Success(map[])
  {
  }

  lemma PseudoCloses(lines: seq<string>, first: string, line: string)
    requires lines == [first, line, FENCE] && Read(line).Pair?
    ensures CloseAt(lines, 1) == Some(2) && lines[1..2] == [line] && lines[3..] == []
  {
    FenceReads(FENCE);
    assert lines[1] == line && lines[2] == FENCE;
  }

  lemma TypeIsNoStatus(line: string, t: string)
    requires line == "type" + ": " + t
    ensures !StatusLine(line)
  {
    var key := "type";
    assert line[0] == key[0] == 't' && !IsSpace('t');
    assert LStrip(line) == line;
    assert LowerChar(line[0]) != "status:"[0];
  }

  lemma PseudoBlock(lines: seq<string>, first: string, line: string, t: string, f: Fields)
    requires lines == [first, line, FENCE] && Read(line) == Pair("type", t) && !StatusLine(line) && f == map["status" := DRAFT]
    ensures Block(Readings(Below(lines, 2)), f) == Success(f["type" := t])
  {
    assert lines[1..2] == [line] && lines[3..] == [];
    KeepsOne(StatusLine, line);
    assert [line] + [FENCE] + [] == [line] + [FENCE];
    FenceReads(FENCE);
    MappedCons(Read, line, [FENCE]);
    PairThenClose(Readings([line] + [FENCE]), "type", t, f);
  }

  lemma KeepsOne<T>(drop: T -> bool, x: T)
    requires !drop(x)
    ensures Without(drop, [x]) == [x]
  {
  }

  lemma PairThenClose(rs: seq<Reading>, key: string, value: string, f: Fields)
    requires |rs| == 2 && rs[0] == Pair(key, value) && rs[1] == Closing && key !in f
    ensures Block(rs, f) == Success(f[key := value])
  {
    assert rs[1..][0] == Closing;
  }

  lemma DraftTyped(fields: Fields, t: string, empty: string)
    requires fields == map["status" := DRAFT]["type" := t] && KnownType(t) && empty == ""
    ensures FromFields(fields) == Success(TaskSpec(t, Composition(t), Some(DRAFT), None))
  {
    StripEmpty(Get(fields, "risk"));
    assert "type" in fields && "roles" !in fields && "risk" !in fields && fields["status"] == DRAFT;
    FieldsDecide(fields, t, empty, empty, DRAFT);
  }
}
