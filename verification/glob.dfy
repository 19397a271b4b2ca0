/** Shell-style patterns as the host library matches them, and the globs a target may add to the lane that
    merges without a review. */
module Glob {
  import opened Text
  import opened Wrappers

  /** Where the bracket class that opens at position 0 closes: a leading `!`, then a leading `]`, are members.
      None when it does not close, and then the bracket stands for itself. */
  function ClassEnd(pat: string): (r: Option<nat>)
    ensures r.Some? ==> 1 < r.value < |pat| && pat[r.value] == ']'
  {
    var i := if 1 < |pat| && pat[1] == '!' then 2 else 1;
    CloseFrom(pat, i + 1)
  }

  /** The first `]` at or after i. */
  function CloseFrom(pat: string, i: nat): (r: Option<nat>)
    ensures r.Some? ==> i <= r.value < |pat| && pat[r.value] == ']'
    decreases |pat| - i
  {
    if i >= |pat| then None else if pat[i] == ']' then Some(i) else CloseFrom(pat, i + 1)
  }

  /** Membership in the body of a class: single characters and ranges; a range that is upside down is empty. */
  predicate InBody(body: string, c: char) {
    if body == "" then false
    else if |body| >= 3 && body[1] == '-' then body[0] <= c <= body[2] || InBody(body[3..], c)
    else body[0] == c || InBody(body[1..], c)
  }

  predicate InClass(body: string, c: char) {
    if body != "" && body[0] == '!' then !InBody(body[1..], c) else InBody(body, c)
  }

  /** The whole of s matches the pattern; `*` crosses every character, path separators too. */
  predicate Matches(pat: string, s: string)
    decreases |pat| + |s|
  {
    if pat == "" then s == ""
    else if pat[0] == '*' then Matches(pat[1..], s) || (s != "" && Matches(pat, s[1..]))
    else if s == "" then false
    else if pat[0] == '?' then Matches(pat[1..], s[1..])
    else if pat[0] == '[' && ClassEnd(pat).Some? then
      InClass(pat[1..ClassEnd(pat).value], s[0]) && Matches(pat[ClassEnd(pat).value + 1..], s[1..])
    else pat[0] == s[0] && Matches(pat[1..], s[1..])
  }

  // --- What the parts of a pattern match --------------------------------------------------------

  /** A star matches every text, the empty one too, separators and all. */
  lemma {:induction false} StarExactly(pat: string, s: string)
    ensures Matches("*" + pat, s) <==> exists k :: 0 <= k <= |s| && Matches(pat, s[k..])
  {
    var star := "*" + pat;
    assert star[1..] == pat && s[0..] == s;
    if s != "" {
      StarExactly(pat, s[1..]);
      assert forall k :: 1 <= k <= |s| ==> s[k..] == s[1..][k - 1..];
      if exists k :: 0 <= k <= |s[1..]| && Matches(pat, s[1..][k..]) {
        var k :| 0 <= k <= |s[1..]| && Matches(pat, s[1..][k..]);
        assert s[k + 1..] == s[1..][k..];
      }
    }
  }

  /** A question mark matches any one character. */
  lemma QuestionExactly(pat: string, s: string)
    ensures Matches("?" + pat, s) <==> s != "" && Matches(pat, s[1..])
  {
    assert ("?" + pat)[1..] == pat;
  }

  /** A range in brackets matches one character between its ends, and behind an exclamation mark one that is not. */
  lemma RangeExactly(lo: char, hi: char, pat: string, s: string)
    requires lo != '!' && hi != ']'
    ensures Matches("[" + [lo, '-', hi] + "]" + pat, s) <==> s != "" && lo <= s[0] <= hi && Matches(pat, s[1..])
    ensures Matches("[!" + [lo, '-', hi] + "]" + pat, s) <==> s != "" && !(lo <= s[0] <= hi) && Matches(pat, s[1..])
  {
    var plain, negated := "[" + [lo, '-', hi] + "]" + pat, "[!" + [lo, '-', hi] + "]" + pat;
    ClosesAt(plain, 2, 4);
    ClosesAt(negated, 3, 5);
    assert plain[1..4] == [lo, '-', hi] && plain[5..] == pat;
    assert negated[1..5] == ['!', lo, '-', hi] && negated[6..] == pat;
    OneRange(lo, hi, if s == "" then lo else s[0]);
    assert ['!', lo, '-', hi][1..] == [lo, '-', hi];
  }

  lemma OneRange(lo: char, hi: char, c: char)
    ensures InBody([lo, '-', hi], c) <==> lo <= c <= hi
  {
    assert [lo, '-', hi][3..] == "";
  }

  lemma {:induction false} ClosesAt(pat: string, from: nat, at: nat)
    requires from <= at < |pat| && pat[at] == ']' && forall i :: from <= i < at ==> pat[i] != ']'
    ensures CloseFrom(pat, from) == Some(at)
    decreases at - from
  {
    if from < at {
      ClosesAt(pat, from + 1, at);
    }
  }

  /** A bracket that nothing closes stands for itself. */
  lemma UnclosedExactly(pat: string, s: string)
    requires ']' !in pat
    ensures Matches("[" + pat, s) <==> s != "" && s[0] == '[' && Matches(pat, s[1..])
  {
    var all := "[" + pat;
    assert all[1..] == pat && ']' !in all;
    NeverCloses(all, 2);
    NeverCloses(all, 3);
  }

  lemma {:induction false} NeverCloses(pat: string, from: nat)
    requires ']' !in pat
    ensures CloseFrom(pat, from) == None
    decreases |pat| - from
  {
    if from < |pat| {
      NeverCloses(pat, from + 1);
    }
  }

  predicate Literal(c: char) {
    c != '*' && c != '?' && c != '[' && c != ']'
  }

  predicate AllLiteral(s: string) {
    forall i :: 0 <= i < |s| ==> Literal(s[i])
  }

  lemma {:induction false} LiteralMatchesItself(t: string, s: string)
    requires AllLiteral(t)
    ensures Matches(t, s) <==> s == t
  {
    if t != "" {
      assert Literal(t[0]);
      if s != "" {
        LiteralMatchesItself(t[1..], s[1..]);
        assert t == [t[0]] + t[1..] && s == [s[0]] + s[1..];
      }
    }
  }

  /** A class that closes, closes before a tail without brackets. */
  lemma {:induction false} ClosesBefore(p: string, t: string, i: nat)
    requires AllLiteral(t)
    ensures CloseFrom(p + t, i).Some? ==> CloseFrom(p + t, i).value < |p|
    decreases |p + t| - i
  {
    assert forall k :: |p| <= k < |p + t| ==> (p + t)[k] == t[k - |p|] && Literal(t[k - |p|]);
    if i < |p + t| && (p + t)[i] != ']' {
      ClosesBefore(p, t, i + 1);
    }
  }

  lemma SuffixGrows(s: string, t: string)
    requires s != "" && EndsWith(s[1..], t)
    ensures EndsWith(s, t)
  {
    assert s[1..][|s| - 1 - |t|..] == s[|s| - |t|..];
  }

  /** A tail without wildcards is matched literally, whatever stands before it. */
  lemma {:induction false} LiteralTail(p: string, t: string, s: string)
    requires AllLiteral(t) && Matches(p + t, s)
    ensures EndsWith(s, t)
    decreases |p| + |s|
  {
    var pat := p + t;
    if p == "" {
      assert pat == t;
      LiteralMatchesItself(t, s);
    } else {
      assert pat[0] == p[0] && pat[1..] == p[1..] + t;
      if p[0] == '*' {
        if Matches(pat[1..], s) {
          LiteralTail(p[1..], t, s);
        } else {
          LiteralTail(p, t, s[1..]);
          SuffixGrows(s, t);
        }
      } else {
        if p[0] == '[' && ClassEnd(pat).Some? {
          var j := ClassEnd(pat).value;
          ClosesBefore(p, t, (if 1 < |pat| && pat[1] == '!' then 2 else 1) + 1);
          assert pat[j + 1..] == p[j + 1..] + t;
          LiteralTail(p[j + 1..], t, s[1..]);
        } else {
          LiteralTail(p[1..], t, s[1..]);
        }
        SuffixGrows(s, t);
      }
    }
  }

  // --- Globs with a literal inert extension -----------------------------------------------------

  predicate InertExtension(ext: string) {
    ext == "md" || ext == "txt" || ext == "json" || ext == "csv" || ext == "po"
  }

  /** What follows the last dot; None when there is none. */
  function AfterLastDot(s: string): (r: Option<string>)
    ensures r.Some? ==> |r.value| < |s| && EndsWith(s, r.value) && s[|s| - |r.value| - 1] == '.' && '.' !in r.value
    ensures r.None? ==> '.' !in s
  {
    if s == "" then None
    else if s[|s| - 1] == '.' then Some("")
    else match AfterLastDot(s[..|s| - 1])
      case None => None
      case Some(ext) => Some(ext + [s[|s| - 1]])
  }

  /** The folded glob ends in a dot and an inert extension, with something before the dot. */
  predicate InertGlob(folded: string) {
    match AfterLastDot(folded)
    case None => false
    case Some(ext) => |folded| > |ext| + 1 && InertExtension(ext)
  }

  ghost predicate InertPath(folded: string) {
    exists ext :: InertExtension(ext) && EndsWith(folded, "." + ext)
  }

  lemma InertTailIsLiteral(ext: string)
    requires InertExtension(ext)
    ensures AllLiteral("." + ext)
  {
  }

  lemma GlobSplits(glob: string, ext: string)
    requires |ext| < |glob| && EndsWith(glob, ext) && glob[|glob| - |ext| - 1] == '.'
    ensures glob == glob[..|glob| - |ext| - 1] + ("." + ext)
  {
  }

  /** An accepted glob matches nothing but paths that end in an allowed extension, whatever wildcards, classes or
      unclosed brackets its stem holds. */
  lemma InertGlobsMatchInertPaths(glob: string, path: string)
    requires InertGlob(glob) && Matches(glob, path)
    ensures InertPath(path)
  {
    var ext := AfterLastDot(glob).value;
    GlobSplits(glob, ext);
    InertTailIsLiteral(ext);
    LiteralTail(glob[..|glob| - |ext| - 1], "." + ext, path);
  }

  /** Why the extension must be literal: a trailing star admits code. */
  lemma TrailingStarAdmitsCode(dir: string, path: string)
    requires AllLiteral(dir)
    ensures Matches(dir + "*", dir + path)
  {
    StarMatchesAll(path);
    LiteralPrefix(dir, "*", path);
  }

  lemma {:induction false} StarMatchesAll(s: string)
    ensures Matches("*", s)
  {
    assert "*"[1..] == "";
    if s != "" {
      StarMatchesAll(s[1..]);
    }
  }

  lemma {:induction false} LiteralPrefix(p: string, pat: string, s: string)
    requires AllLiteral(p) && Matches(pat, s)
    ensures Matches(p + pat, p + s)
  {
    if p == "" {
      assert p + pat == pat && p + s == s;
    } else {
      assert Literal(p[0]);
      assert (p + pat)[1..] == p[1..] + pat && (p + s)[1..] == p[1..] + s;
      LiteralPrefix(p[1..], pat, s);
    }
  }
}
