/** Rendering text of untrusted origin for a human: one bounded line a terminal shows as it is, and a fenced block its content
    cannot break out of. */
module Rendering {
  import opened Wrappers
  import opened Text

  const MARKER := "... [truncated]"
  const MARKER_LENGTH: nat := 15

  /** The characters of the general categories Cc, Cf and Cs, as the host's Unicode tables have them. */
  type Escaped = char -> bool

  /** What the rendering relies on: printable ASCII is in none of these categories. */
  predicate Sane(cat: Escaped) {
    forall c: char :: ' ' <= c <= '~' ==> !cat(c)
  }

  /** A character that is shown as it is. */
  predicate Plain(cat: Escaped, c: char) {
    !IsSpace(c) && !cat(c) && c != '\U{8}'
  }

  predicate AllPlain(cat: Escaped, s: string) {
    forall i :: 0 <= i < |s| ==> Plain(cat, s[i])
  }

  predicate Collapses(c: char) {
    IsSpace(c) && c != '\r'
  }

  function Digit(n: nat): char
    requires n < 16
  {
    if n < 10 then '0' + n as char else 'a' + (n - 10) as char
  }

  /** The last `width` hexadecimal digits of n. */
  function Hex(n: nat, width: nat): (s: string)
    ensures |s| == width && forall i :: 0 <= i < width ==> '0' <= s[i] <= '9' || 'a' <= s[i] <= 'f'
  {
    if width == 0 then "" else Hex(n / 16, width - 1) + [Digit(n % 16)]
  }

  /** What one character that does not collapse becomes. */
  function Token(cat: Escaped, c: char): string {
    if c == '\r' then "\\r"
    else if c == '\U{8}' then "\\b"
    else if cat(c) then
      (if c <= '\U{FF}' then "\\x" + Hex(c as int, 2)
       else if c <= '\U{FFFF}' then "\\u" + Hex(c as int, 4)
       else "\\U" + Hex(c as int, 8))
    else [c]
  }

  function DigitValue(c: char): nat {
    if '0' <= c <= '9' then c as int - '0' as int else if 'a' <= c <= 'f' then c as int - 'a' as int + 10 else 0
  }

  function HexValue(s: string): nat {
    if s == "" then 0 else 16 * HexValue(s[..|s| - 1]) + DigitValue(s[|s| - 1])
  }

  function Power(width: nat): nat {
    if width == 0 then 1 else 16 * Power(width - 1)
  }

  lemma Quotient(n: nat, q: nat)
    requires n < 16 * q
    ensures n / 16 < q && n == 16 * (n / 16) + n % 16
  {
  }

  lemma DigitNames(n: nat)
    requires n < 16
    ensures DigitValue(Digit(n)) == n
  {
  }

  lemma HexValueSnoc(s: string, c: char)
    ensures HexValue(s + [c]) == 16 * HexValue(s) + DigitValue(c)
  {
    assert (s + [c])[..|s|] == s;
  }

  /** The digits name the number, when they are enough. */
  lemma {:induction false} HexNames(n: nat, width: nat)
    requires n < Power(width)
    ensures HexValue(Hex(n, width)) == n
  {
    if width > 0 {
      Quotient(n, Power(width - 1));
      HexNames(n / 16, width - 1);
      DigitNames(n % 16);
      HexValueSnoc(Hex(n / 16, width - 1), Digit(n % 16));
    }
  }

  /** What a token shows is what the character was: itself, one of the two short escapes, or an escape that names its code point in two,
      four or eight digits, as many as it takes. */
  lemma TokenNames(cat: Escaped, c: char)
    ensures var t := Token(cat, c);
            if c == '\r' then t == "\\r"
            else if c == '\U{8}' then t == "\\b"
            else if !cat(c) then t == [c]
            else |t| > 2 && t[0] == '\\' && HexValue(t[2..]) == c as int &&
                 (if c as int <= 0xFF then t[1] == 'x' && |t| == 4 else if c as int <= 0xFFFF then t[1] == 'u' && |t| == 6 else t[1] == 'U' && |t| == 10)
  {
    var t := Token(cat, c);
    if c != '\r' && c != '\U{8}' && cat(c) {
      PowersSay();
      if c as int <= 0xFF {
        HexNames(c as int, 2);
        assert t[2..] == Hex(c as int, 2);
      } else if c as int <= 0xFFFF {
        HexNames(c as int, 4);
        assert t[2..] == Hex(c as int, 4);
      } else {
        HexNames(c as int, 8);
        assert t[2..] == Hex(c as int, 8);
      }
    }
  }

  lemma PowersSay()
    ensures Power(2) == 0x100 && Power(4) == 0x1_0000 && Power(8) == 0x1_0000_0000
  {
    assert Power(1) == 16 && Power(3) == 0x1000 && Power(5) == 0x10_0000 && Power(6) == 0x100_0000 && Power(7) == 0x1000_0000;
  }

  datatype Scan = Scan(tokens: seq<string>, pending: bool)

  function Scanned(cat: Escaped, text: string): Scan {
    if text == "" then Scan([], false)
    else Scanning(cat, Scanned(cat, text[..|text| - 1]), text[|text| - 1])
  }

  function Scanning(cat: Escaped, s: Scan, c: char): Scan {
    if Collapses(c) then Scan(s.tokens, s.tokens != [])
    else Scan((if s.pending then s.tokens + [" "] else s.tokens) + [Token(cat, c)], false)
  }

  function Join(tokens: seq<string>): string {
    if tokens == [] then "" else Join(tokens[..|tokens| - 1]) + tokens[|tokens| - 1]
  }

  /** How many tokens fit: the first that does not ends the prefix. */
  function FitFrom(tokens: seq<string>, room: nat, k: nat): (n: nat)
    requires k <= |tokens| && |Join(tokens[..k])| <= room
    ensures k <= n <= |tokens| && |Join(tokens[..n])| <= room
    ensures n < |tokens| ==> |Join(tokens[..n + 1])| > room
    decreases |tokens| - k
  {
    if k < |tokens| && |Join(tokens[..k + 1])| <= room then FitFrom(tokens, room, k + 1) else k
  }

  function Fitting(tokens: seq<string>, room: nat): seq<string> {
    assert tokens[..0] == [];
    tokens[..FitFrom(tokens, room, 0)]
  }

  /** The rendered line. */
  function Inline(cat: Escaped, text: string, limit: nat): string
    requires limit >= MARKER_LENGTH
  {
    var tokens := Scanned(cat, text).tokens;
    Bounded(tokens, Strip(Join(tokens)), limit)
  }

  function CutLine(prefix: seq<string>): string {
    RStrip(Join(prefix)) + MARKER
  }

  function Bounded(tokens: seq<string>, rendered: string, limit: nat): string
    requires limit >= MARKER_LENGTH
  {
    if |rendered| <= limit then rendered else CutLine(Fitting(tokens, limit - MARKER_LENGTH))
  }

  method Tokenize(cat: Escaped, text: string) returns (tokens: seq<string>)
    ensures tokens == Scanned(cat, text).tokens
  {
    tokens := [];
    var pending := false;
    for i := 0 to |text|
      invariant Scan(tokens, pending) == Scanned(cat, text[..i])
    {
      var c := text[i];
      assert text[..i + 1][..i] == text[..i];
      if Collapses(c) {
        pending := tokens != [];
        continue;
      }
      if pending {
        tokens := tokens + [" "];
        pending := false;
      }
      tokens := tokens + [Token(cat, c)];
    }
    assert text[..|text|] == text;
  }

  method Cut(tokens: seq<string>, room: nat) returns (prefix: seq<string>)
    ensures prefix == Fitting(tokens, room)
  {
    prefix := [];
    var used := 0;
    assert tokens[..0] == [];
    while |prefix| < |tokens|
      invariant |prefix| <= |tokens| && prefix == tokens[..|prefix|] && used == |Join(prefix)| && used <= room
      invariant FitFrom(tokens, room, |prefix|) == FitFrom(tokens, room, 0)
    {
      var token := tokens[|prefix|];
      assert tokens[..|prefix| + 1] == prefix + [token];
      assert (prefix + [token])[..|prefix|] == prefix;
      if used + |token| > room {
        break;
      }
      prefix := prefix + [token];
      used := used + |token|;
    }
  }

  method BoundedLine(tokens: seq<string>, rendered: string, limit: nat) returns (line: string)
    requires limit >= MARKER_LENGTH
    ensures line == Bounded(tokens, rendered, limit)
  {
    line := rendered;
    if |line| > limit {
      var prefix := Cut(tokens, limit - MARKER_LENGTH);
      line := CutLine(prefix);
    }
  }

  method UntrustedInline(cat: Escaped, text: string, limit: nat) returns (r: Result<string, ()>)
    ensures r.Failure? <==> limit < MARKER_LENGTH
    ensures r.Success? ==> r.value == Inline(cat, text, limit)
  {
    if limit < MARKER_LENGTH {
      return Failure(());
    }
    var tokens := Tokenize(cat, text);
    var line := BoundedLine(tokens, Strip(Join(tokens)), limit);
    return Success(line);
  }

  // --- What a rendered line looks like ----------------------------------------------------------

  /** Plain characters and single spaces, the first not a space. */
  predicate Open(cat: Escaped, s: string) {
    (forall i :: 0 <= i < |s| ==> s[i] == ' ' || Plain(cat, s[i])) &&
    (forall i :: 0 < i < |s| ==> !(s[i - 1] == ' ' && s[i] == ' ')) &&
    (s != "" ==> s[0] != ' ')
  }

  predicate EndsInSpace(s: string) {
    s != "" && s[|s| - 1] == ' '
  }

  /** One clean line: nothing but plain characters, and single spaces between them. */
  predicate Clean(cat: Escaped, s: string) {
    Open(cat, s) && !EndsInSpace(s)
  }

  lemma TokenIsPlain(cat: Escaped, c: char)
    requires Sane(cat) && !Collapses(c)
    ensures Token(cat, c) != "" && AllPlain(cat, Token(cat, c))
  {
    assert forall d: char :: '!' <= d <= '~' ==> Plain(cat, d);
    if c != '\r' && c != '\U{8}' && cat(c) {
      var t := Token(cat, c);
      assert forall i :: 0 <= i < |t| ==> '!' <= t[i] <= '~';
    }
  }

  lemma OpenGrows(cat: Escaped, s: string, t: string)
    requires Open(cat, s) && t != "" && (AllPlain(cat, t) || (t == " " && s != "" && !EndsInSpace(s)))
    ensures Open(cat, s + t) && (EndsInSpace(s + t) <==> t == " ")
  {
    var all := s + t;
    assert all[|all| - 1] == t[|t| - 1];
    assert AllPlain(cat, t) ==> t[|t| - 1] != ' ';
    forall i | 0 < i < |all| ensures !(all[i - 1] == ' ' && all[i] == ' ') {
      if i >= |s| {
        assert all[i] == t[i - |s|];
      }
    }
  }

  /** The tokens join to open text, and only a space token leaves a space at its end. */
  predicate Fine(cat: Escaped, tokens: seq<string>) {
    Open(cat, Join(tokens)) && (tokens != [] ==> Join(tokens) != "") &&
    (EndsInSpace(Join(tokens)) <==> tokens != [] && tokens[|tokens| - 1] == " ")
  }

  /** So does every prefix of them. */
  predicate Tidy(cat: Escaped, tokens: seq<string>) {
    tokens == [] || (Tidy(cat, tokens[..|tokens| - 1]) && Fine(cat, tokens))
  }

  lemma TidyIsFine(cat: Escaped, tokens: seq<string>)
    requires Tidy(cat, tokens)
    ensures Fine(cat, tokens)
  {
  }

  lemma {:induction false} TidyPrefix(cat: Escaped, tokens: seq<string>, k: nat)
    requires Tidy(cat, tokens) && k <= |tokens|
    ensures Tidy(cat, tokens[..k])
  {
    if k == |tokens| {
      assert tokens[..k] == tokens;
    } else {
      TidyPrefix(cat, tokens[..|tokens| - 1], k);
      assert tokens[..|tokens| - 1][..k] == tokens[..k];
    }
  }

  lemma TidyGrows(cat: Escaped, tokens: seq<string>, t: string)
    requires Tidy(cat, tokens) && t != "" && (AllPlain(cat, t) || (t == " " && tokens != [] && tokens[|tokens| - 1] != " "))
    ensures Tidy(cat, tokens + [t])
  {
    TidyIsFine(cat, tokens);
    OpenGrows(cat, Join(tokens), t);
    JoinSnoc(tokens, t);
    assert (tokens + [t])[..|tokens|] == tokens;
  }

  lemma {:induction false} ScannedIsTidy(cat: Escaped, text: string)
    requires Sane(cat)
    ensures var s := Scanned(cat, text);
            Tidy(cat, s.tokens) && (s.tokens != [] ==> s.tokens[|s.tokens| - 1] != " ") && (s.pending ==> s.tokens != [])
  {
    if text != "" {
      var s := Scanned(cat, text[..|text| - 1]);
      var c := text[|text| - 1];
      ScannedIsTidy(cat, text[..|text| - 1]);
      if !Collapses(c) {
        TokenIsPlain(cat, c);
        var spaced := if s.pending then s.tokens + [" "] else s.tokens;
        if s.pending {
          TidyGrows(cat, s.tokens, " ");
        }
        TidyGrows(cat, spaced, Token(cat, c));
        PlainIsNoSpace(cat, Token(cat, c));
      }
    }
  }

  lemma PlainIsNoSpace(cat: Escaped, t: string)
    requires t != "" && AllPlain(cat, t)
    ensures t != " "
  {
    assert Plain(cat, t[0]);
  }

  lemma CleanStripsToItself(cat: Escaped, s: string)
    requires Clean(cat, s)
    ensures Strip(s) == s
  {
    if s != "" {
      assert s[0] != ' ' && s[|s| - 1] != ' ';
      assert Plain(cat, s[0]) && Plain(cat, s[|s| - 1]);
    }
  }

  /** Stripping the end of open text takes off one space at most. */
  lemma OpenStripsToClean(cat: Escaped, s: string)
    requires Open(cat, s)
    ensures RStrip(s) == (if EndsInSpace(s) then s[..|s| - 1] else s) && Clean(cat, RStrip(s))
  {
    if EndsInSpace(s) {
      var u := s[..|s| - 1];
      assert u != "" ==> u[|u| - 1] != ' ' && Plain(cat, u[|u| - 1]);
    } else if s != "" {
      assert Plain(cat, s[|s| - 1]);
    }
  }

  lemma MarkerGrows(cat: Escaped, s: string, marker: string)
    requires Sane(cat) && Clean(cat, s) && marker == MARKER
    ensures Clean(cat, s + marker)
  {
    assert forall d: char :: '!' <= d <= '~' ==> Plain(cat, d);
    assert forall i :: 0 <= i < |marker| ==> marker[i] == ' ' || '!' <= marker[i] <= '~';
    assert marker[0] == '.' && marker[|marker| - 1] == ']' && marker[4] == '[';
    assert forall i :: 0 <= i < |marker| && i != 3 ==> marker[i] != ' ';
    var all := s + marker;
    assert all[|all| - 1] == ']';
    forall i | 0 < i < |all| ensures !(all[i - 1] == ' ' && all[i] == ' ') {
      if i >= |s| {
        assert all[i] == marker[i - |s|];
      }
    }
  }

  /** A line that is a prefix of whole tokens, not ending in a space, and the marker. */
  ghost predicate WholeTokens(tokens: seq<string>, line: string) {
    exists k: nat :: k <= |tokens| && (k > 0 ==> tokens[k - 1] != " ") && line == Join(tokens[..k]) + MARKER
  }

  lemma MarkerFits(line: string, room: nat)
    requires |line| <= room
    ensures |line + MARKER| <= room + MARKER_LENGTH
  {
  }

  lemma FittingFits(tokens: seq<string>, room: nat) returns (k: nat)
    ensures k <= |tokens| && Fitting(tokens, room) == tokens[..k] && |Join(tokens[..k])| <= room
  {
    k := FitFrom(tokens, room, 0);
  }

  lemma StripShortens(s: string)
    ensures |RStrip(s)| <= |s|
  {
    RStripTakesSpace(s);
  }

  lemma MarkedIsClean(cat: Escaped, tokens: seq<string>, n: nat, stripped: string, room: nat)
    requires Sane(cat) && Clean(cat, stripped) && |stripped| <= room
    requires n <= |tokens| && (n > 0 ==> tokens[n - 1] != " ") && stripped == Join(tokens[..n])
    ensures var line := stripped + MARKER;
            |line| <= room + MARKER_LENGTH && Clean(cat, line) && WholeTokens(tokens, line)
  {
    MarkerGrows(cat, stripped, MARKER);
    MarkerFits(stripped, room);
  }

  lemma CutLineIsClean(cat: Escaped, tokens: seq<string>, room: nat)
    requires Sane(cat) && Tidy(cat, tokens)
    ensures var line := CutLine(Fitting(tokens, room));
            |line| <= room + MARKER_LENGTH && Clean(cat, line) && WholeTokens(tokens, line)
  {
    var k := FittingFits(tokens, room);
    var n := CutIsClean(cat, tokens, k);
    StripShortens(Join(tokens[..k]));
    MarkedIsClean(cat, tokens, n, RStrip(Join(tokens[..k])), room);
  }

  /** Short enough and clean: no control, no format character, no line boundary, and no white space but single spaces inside.
      Either it is all the tokens, or a prefix of whole tokens and the marker. */
  ghost predicate WellRendered(cat: Escaped, tokens: seq<string>, line: string, limit: nat) {
    |line| <= limit && Clean(cat, line) && if |Join(tokens)| <= limit then line == Join(tokens) else WholeTokens(tokens, line)
  }

  lemma BoundedIsOneOf(cat: Escaped, tokens: seq<string>, rendered: string, limit: nat, cut: string)
    requires limit >= MARKER_LENGTH && rendered == Join(tokens) && Clean(cat, rendered)
    requires cut == CutLine(Fitting(tokens, limit - MARKER_LENGTH)) && |cut| <= limit && Clean(cat, cut) && WholeTokens(tokens, cut)
    ensures WellRendered(cat, tokens, Bounded(tokens, rendered, limit), limit)
  {
  }

  lemma BoundedIsClean(cat: Escaped, tokens: seq<string>, rendered: string, limit: nat)
    requires Sane(cat) && limit >= MARKER_LENGTH && Tidy(cat, tokens) && rendered == Join(tokens) && Clean(cat, rendered)
    ensures WellRendered(cat, tokens, Bounded(tokens, rendered, limit), limit)
  {
    CutLineIsClean(cat, tokens, limit - MARKER_LENGTH);
    BoundedIsOneOf(cat, tokens, rendered, limit, CutLine(Fitting(tokens, limit - MARKER_LENGTH)));
  }

  lemma InlineIsBounded(cat: Escaped, text: string, limit: nat, tokens: seq<string>, rendered: string)
    requires limit >= MARKER_LENGTH && tokens == Scanned(cat, text).tokens && rendered == Strip(Join(tokens))
    ensures Inline(cat, text, limit) == Bounded(tokens, rendered, limit)
  {
  }

  lemma JoinIsClean(cat: Escaped, text: string)
    requires Sane(cat)
    ensures var tokens := Scanned(cat, text).tokens;
            Tidy(cat, tokens) && Clean(cat, Join(tokens)) && Strip(Join(tokens)) == Join(tokens)
  {
    var tokens := Scanned(cat, text).tokens;
    ScannedIsTidy(cat, text);
    TidyIsFine(cat, tokens);
    CleanStripsToItself(cat, Join(tokens));
  }

  /** Whatever the text, the line is well rendered. */
  lemma InlineIsClean(cat: Escaped, text: string, limit: nat)
    requires Sane(cat) && limit >= MARKER_LENGTH
    ensures WellRendered(cat, Scanned(cat, text).tokens, Inline(cat, text, limit), limit)
  {
    var tokens := Scanned(cat, text).tokens;
    JoinIsClean(cat, text);
    InlineIsBounded(cat, text, limit, tokens, Join(tokens));
    BoundedIsClean(cat, tokens, Join(tokens), limit);
  }

  lemma NothingComesOff(cat: Escaped, cut: seq<string>)
    requires Fine(cat, cut) && (cut != [] ==> cut[|cut| - 1] != " ")
    ensures Clean(cat, RStrip(Join(cut))) && RStrip(Join(cut)) == Join(cut)
  {
    OpenStripsToClean(cat, Join(cut));
  }

  lemma FinePrefix(cat: Escaped, tokens: seq<string>, k: nat)
    requires Tidy(cat, tokens) && k <= |tokens|
    ensures Fine(cat, tokens[..k])
  {
    TidyPrefix(cat, tokens, k);
    TidyIsFine(cat, tokens[..k]);
  }

  lemma LastOfPrefix<T>(xs: seq<T>, k: nat)
    requires 0 < k <= |xs|
    ensures xs[..k] == xs[..k - 1] + [xs[k - 1]] && xs[..k][k - 1] == xs[k - 1]
    ensures k > 1 ==> xs[..k - 1][k - 2] == xs[k - 2]
  {
  }

  /** Stripping a cut drops the space token at its end, and nothing of any other token. */
  lemma CutIsClean(cat: Escaped, tokens: seq<string>, k: nat) returns (n: nat)
    requires Tidy(cat, tokens) && k <= |tokens|
    ensures Clean(cat, RStrip(Join(tokens[..k])))
    ensures n <= |tokens| && (n > 0 ==> tokens[n - 1] != " ") && RStrip(Join(tokens[..k])) == Join(tokens[..n])
  {
    FinePrefix(cat, tokens, k);
    n := k;
    if k > 0 {
      LastOfPrefix(tokens, k);
      if tokens[k - 1] == " " {
        FinePrefix(cat, tokens, k - 1);
        SpaceComesOff(cat, tokens[..k - 1], tokens[..k]);
        return k - 1;
      }
    }
    NothingComesOff(cat, tokens[..k]);
  }

  lemma SpaceComesOff(cat: Escaped, before: seq<string>, tokens: seq<string>)
    requires tokens == before + [" "] && Fine(cat, before) && Fine(cat, tokens)
    ensures Clean(cat, RStrip(Join(tokens))) && RStrip(Join(tokens)) == Join(before) && (before != [] ==> before[|before| - 1] != " ")
  {
    JoinSnoc(before, " ");
    NoDoubleSpace(cat, Join(before));
    OpenStripsToClean(cat, Join(before) + " ");
  }

  lemma NoDoubleSpace(cat: Escaped, s: string)
    requires Open(cat, s + " ")
    ensures !EndsInSpace(s)
  {
    assert (s + " ")[|s|] == ' ';
    assert s != "" ==> (s + " ")[|s| - 1] == s[|s| - 1];
  }

  /** The scan has the text so far: its tokens, and a pending space if it ends in one. */
  predicate Holds(r: Scan, s: string) {
    (if r.pending then Join(r.tokens) + " " else Join(r.tokens)) == s && (r.pending <==> EndsInSpace(s)) && (s != "" ==> r.tokens != [])
  }

  lemma EndsWithLast(u: string, c: char)
    ensures (EndsInSpace(u + [c]) <==> c == ' ') && u + [c] != ""
  {
  }

  lemma HoldsSpace(cat: Escaped, r: Scan, u: string)
    requires Holds(r, u) && u != "" && !EndsInSpace(u)
    ensures Holds(Scanning(cat, r, ' '), u + " ")
  {
    EndsWithLast(u, ' ');
  }

  lemma HoldsPlain(cat: Escaped, r: Scan, u: string, c: char)
    requires Holds(r, u) && Plain(cat, c) && c != ' '
    ensures Holds(Scanning(cat, r, c), u + [c])
  {
    EndsWithLast(u, c);
    JoinSnoc(r.tokens, " ");
    JoinSnoc(if r.pending then r.tokens + [" "] else r.tokens, [c]);
  }

  /** Clean text scans to its own characters. */
  lemma {:induction false} OpenScansToItself(cat: Escaped, s: string)
    requires Open(cat, s)
    ensures Holds(Scanned(cat, s), s)
  {
    if s != "" {
      var u, c := s[..|s| - 1], s[|s| - 1];
      assert Open(cat, u);
      OpenScansToItself(cat, u);
      assert s == u + [c];
      if c == ' ' {
        HoldsSpace(cat, Scanned(cat, u), u);
      } else {
        HoldsPlain(cat, Scanned(cat, u), u, c);
      }
    }
  }

  lemma JoinSnoc(tokens: seq<string>, t: string)
    ensures Join(tokens + [t]) == Join(tokens) + t
  {
    assert (tokens + [t])[..|tokens|] == tokens;
  }

  /** Clean text that fits renders to itself. */
  lemma CleanRendersToItself(cat: Escaped, s: string, limit: nat)
    requires limit >= MARKER_LENGTH && |s| <= limit && Clean(cat, s)
    ensures Inline(cat, s, limit) == s
  {
    OpenScansToItself(cat, s);
    CleanStripsToItself(cat, s);
    InlineIsBounded(cat, s, limit, Scanned(cat, s).tokens, s);
  }

  /** Rendering again changes nothing, at the same limit or a wider one. */
  lemma InlineIsIdempotent(cat: Escaped, text: string, limit: nat, wider: nat)
    requires Sane(cat) && MARKER_LENGTH <= limit <= wider
    ensures Inline(cat, Inline(cat, text, limit), wider) == Inline(cat, text, limit)
  {
    InlineIsClean(cat, text, limit);
    CleanRendersToItself(cat, Inline(cat, text, limit), wider);
  }

  // --- The fenced block -------------------------------------------------------------------------

  predicate RunAt(s: string, at: int, n: nat) {
    0 <= at && at + n <= |s| && forall j :: at <= j < at + n ==> s[j] == '`'
  }

  /** Somewhere n backticks stand in a row. */
  predicate HasRun(s: string, n: nat) {
    exists at :: 0 <= at <= |s| && RunAt(s, at, n)
  }

  /** The length of the run at the end. */
  function Tail(s: string): (n: nat)
    ensures n <= |s| && RunAt(s, |s| - n, n) && !(n < |s| && s[|s| - n - 1] == '`')
  {
    if s != "" && s[|s| - 1] == '`' then Tail(s[..|s| - 1]) + 1 else 0
  }

  function Longest(s: string): nat {
    if s == "" then 0
    else
      var before := Longest(s[..|s| - 1]);
      if before >= Tail(s) then before else Tail(s)
  }

  method LongestBacktickRun(s: string) returns (best: nat)
    ensures best == Longest(s)
  {
    best := 0;
    var run := 0;
    for i := 0 to |s|
      invariant run == Tail(s[..i]) && best == Longest(s[..i])
    {
      assert s[..i + 1][..i] == s[..i];
      run := if s[i] == '`' then run + 1 else 0;
      best := if best >= run then best else run;
    }
    assert s[..|s|] == s;
  }

  /** The longest run has n backticks. */
  predicate Bound(s: string, n: nat) {
    HasRun(s, n) && !HasRun(s, n + 1)
  }

  lemma NothingIsBound(s: string)
    requires s == ""
    ensures Bound(s, 0)
  {
    assert RunAt(s, 0, 0);
  }

  /** The longest run is there, and there is none longer. */
  lemma {:induction false} LongestIsLongest(s: string)
    ensures Bound(s, Longest(s))
  {
    if s == "" {
      NothingIsBound(s);
    } else {
      LongestIsLongest(s[..|s| - 1]);
      BoundStep(s, s[..|s| - 1], Longest(s[..|s| - 1]), Tail(s), Longest(s));
    }
  }

  lemma BoundIsThere(all: string, s: string, best: nat, run: nat, longest: nat)
    requires all != "" && s == all[..|all| - 1] && HasRun(s, best) && run == Tail(all)
    requires longest == if best >= run then best else run
    ensures HasRun(all, longest)
  {
    if best >= run {
      var at :| 0 <= at <= |s| && RunAt(s, at, best);
      assert RunAt(all, at, best);
    } else {
      assert RunAt(all, |all| - run, run);
    }
  }

  lemma BoundStep(all: string, s: string, best: nat, run: nat, longest: nat)
    requires all != "" && s == all[..|all| - 1] && Bound(s, best) && run == Tail(all)
    requires longest == if best >= run then best else run
    ensures Bound(all, longest)
  {
    BoundIsThere(all, s, best, run, longest);
    ShorterRun(s, best, longest + 1);
    if HasRun(all, longest + 1) {
      var at :| 0 <= at <= |all| && RunAt(all, at, longest + 1);
      RunsReachBack(all, s, at, longest + 1, run);
      assert false;
    }
  }

  /** A run longer than the one at the end lies before the last character. */
  lemma RunsReachBack(all: string, s: string, at: nat, n: nat, run: nat)
    requires all != "" && s == all[..|all| - 1] && RunAt(all, at, n) && run == Tail(all) && n > run
    ensures RunAt(s, at, n)
  {
  }

  function Backticks(n: nat): string {
    seq(n, _ => '`')
  }

  /** The line ends a fenced code block opened by n backticks, under section 4.5 of CommonMark 0.31.2: at most three spaces, then
      at least n backticks, then nothing but spaces and tabs. */
  predicate Closes(line: string, n: nat) {
    exists lead, ticks | 0 <= lead <= 3 && n <= ticks <= |line| :: ClosesWith(line, lead, ticks)
  }

  predicate ClosesWith(line: string, lead: int, ticks: int)
    requires 0 <= lead && 0 <= ticks
  {
    lead + ticks <= |line| && (forall i :: 0 <= i < lead ==> line[i] == ' ') && RunAt(line, lead, ticks) &&
    forall i :: lead + ticks <= i < |line| ==> line[i] == ' ' || line[i] == '\t'
  }

  lemma ClosingHasRun(line: string, n: nat)
    requires Closes(line, n)
    ensures HasRun(line, n)
  {
    var lead, ticks :| 0 <= lead <= 3 && n <= ticks <= |line| && ClosesWith(line, lead, ticks);
    assert RunAt(line, lead, n);
  }

  const FENCED_LIMIT := 1500

  /** One line of the body. */
  function Body(cat: Escaped, line: string): string {
    if line == "" then "" else Inline(cat, line, FENCED_LIMIT)
  }

  function Rendered(cat: Escaped, lines: seq<string>): (body: seq<string>)
    ensures |body| == |lines| && forall i :: 0 <= i < |lines| ==> body[i] == Body(cat, lines[i])
  {
    seq(|lines|, i requires 0 <= i < |lines| => Body(cat, lines[i]))
  }

  function LongestOf(lines: seq<string>): nat {
    if lines == [] then 0
    else
      var before := LongestOf(lines[..|lines| - 1]);
      var last := Longest(lines[|lines| - 1]);
      if before >= last then before else last
  }

  function FenceOver(longest: nat): string {
    Backticks(if longest + 1 >= 3 then longest + 1 else 3)
  }

  function Fence(body: seq<string>): string {
    FenceOver(LongestOf(body))
  }

  method LongestRunOf(lines: seq<string>) returns (longest: nat)
    ensures longest == LongestOf(lines)
  {
    longest := 0;
    for i := 0 to |lines|
      invariant longest == LongestOf(lines[..i])
    {
      assert lines[..i + 1][..i] == lines[..i];
      var best := LongestBacktickRun(lines[i]);
      longest := if longest >= best then longest else best;
    }
    assert lines[..|lines|] == lines;
  }

  /** The block is the fence, one rendered line for every line of the text, and the fence. */
  method FencedUntrusted(cat: Escaped, text: string) returns (block: seq<string>)
    ensures var body := Rendered(cat, SplitLines(text));
            block == [Fence(body)] + body + [Fence(body)]
  {
    var body := Rendered(cat, SplitLines(text));
    var longest := LongestRunOf(body);
    block := [FenceOver(longest)] + body + [FenceOver(longest)];
  }

  lemma {:induction false} LongestOfCovers(lines: seq<string>, i: nat)
    requires i < |lines|
    ensures Longest(lines[i]) <= LongestOf(lines)
  {
    if i < |lines| - 1 {
      LongestOfCovers(lines[..|lines| - 1], i);
    }
  }

  lemma FenceIsLonger(body: seq<string>, i: nat)
    requires i < |body|
    ensures |Fence(body)| >= 3 && !HasRun(body[i], |Fence(body)|) && !Closes(body[i], |Fence(body)|)
  {
    LongestOfCovers(body, i);
    LongestIsLongest(body[i]);
    ShorterRun(body[i], Longest(body[i]), |Fence(body)|);
    if Closes(body[i], |Fence(body)|) {
      ClosingHasRun(body[i], |Fence(body)|);
      assert false;
    }
  }

  /** Nothing inside closes the block: no body line holds a run as long as the fence, and each is one physical line. */
  lemma FenceHolds(cat: Escaped, text: string, i: nat)
    requires Sane(cat) && i < |SplitLines(text)|
    ensures var body := Rendered(cat, SplitLines(text));
            |Fence(body)| >= 3 && !HasRun(body[i], |Fence(body)|) && !Closes(body[i], |Fence(body)|) &&
            OneLine(body[i]) && |body[i]| <= FENCED_LIMIT
  {
    BodyIsOneLine(cat, SplitLines(text)[i]);
    FenceIsLonger(Rendered(cat, SplitLines(text)), i);
  }

  lemma {:induction false} LongestOfIsThere(lines: seq<string>)
    ensures LongestOf(lines) == 0 || exists i :: 0 <= i < |lines| && Longest(lines[i]) == LongestOf(lines)
  {
    if lines != [] {
      LongestOfIsThere(lines[..|lines| - 1]);
    }
  }

  /** The fence is three backticks, or more only where it must be: one more than a run that is there. */
  lemma FenceIsNoLonger(body: seq<string>)
    ensures forall k :: 0 <= k < |Fence(body)| ==> Fence(body)[k] == '`'
    ensures |Fence(body)| == 3 || (|Fence(body)| > 3 && exists i :: 0 <= i < |body| && HasRun(body[i], |Fence(body)| - 1))
  {
    LongestOfIsThere(body);
    if |Fence(body)| > 3 {
      var i :| 0 <= i < |body| && Longest(body[i]) == LongestOf(body);
      LongestIsLongest(body[i]);
    }
  }

  lemma RunHoldsShorter(s: string, m: nat, n: nat)
    requires HasRun(s, n) && m <= n
    ensures HasRun(s, m)
  {
    var at :| 0 <= at <= |s| && RunAt(s, at, n);
    assert RunAt(s, at, m);
  }

  lemma ShorterRun(s: string, best: nat, n: nat)
    requires !HasRun(s, best + 1) && n > best
    ensures !HasRun(s, n)
  {
    if HasRun(s, n) {
      RunHoldsShorter(s, best + 1, n);
      assert false;
    }
  }

  lemma CleanIsOneLine(cat: Escaped, s: string)
    requires Clean(cat, s)
    ensures OneLine(s)
  {
    assert forall i :: 0 <= i < |s| ==> s[i] == ' ' || Plain(cat, s[i]);
  }

  /** A body line is one physical line. */
  lemma BodyIsOneLine(cat: Escaped, line: string)
    requires Sane(cat)
    ensures OneLine(Body(cat, line)) && |Body(cat, line)| <= FENCED_LIMIT
  {
    if line != "" {
      InlineIsClean(cat, line, FENCED_LIMIT);
      CleanIsOneLine(cat, Inline(cat, line, FENCED_LIMIT));
    }
  }
}
