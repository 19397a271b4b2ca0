/** The merge policy: path classification, risk, the replay of the gates from the log, and the decision matrix. */
module Policy {
  import opened Wrappers
  import opened Text
  import opened Glob
  import opened LoopLog

  /** A target's policy with the engine's own globs beside it. `fold` is the host's case folding; `specPrefix` is the
      directory the task specs live in. */
  datatype TargetPolicy = TargetPolicy(
    fold: string -> string, specPrefix: string, engineSensitive: seq<string>, sensitive: seq<string>, security: seq<string>,
    invariantTests: seq<string>, testDirs: seq<string>, migrations: seq<string>, userVisible: seq<string>, safe: seq<string>)

  const ENGINE_SAFE := ["*.md", "**/*.md"]
  const ENGINE_TEST_DIRS := ["tests/"]

  predicate MatchesAny(p: TargetPolicy, path: string, globs: seq<string>) {
    exists g :: g in globs && Matches(p.fold(g), p.fold(path))
  }

  function AllSensitive(p: TargetPolicy): seq<string> {
    p.engineSensitive + p.sensitive + p.invariantTests
  }

  /** The safe globs of a policy file: one that could match a file that is not inert refuses the whole policy. */
  function AsInertSafeGlobs(fold: string -> string, globs: seq<string>): Result<seq<string>, ()> {
    if forall g :: g in globs ==> InertGlob(fold(g)) then Success(globs) else Failure(())
  }

  /** The paths that satisfy a test, in order. */
  function Select<T(!new)>(test: T -> bool, xs: seq<T>): (r: seq<T>)
    ensures forall x :: x in r <==> x in xs && test(x)
  {
    if xs == [] then []
    else (if test(xs[0]) then [xs[0]] else []) + Select(test, xs[1..])
  }

  /** The places of the elements that satisfy a test, in order and none left out. */
  ghost predicate Picks<T(!new)>(test: T -> bool, xs: seq<T>, places: seq<nat>) {
    (forall k, l :: 0 <= k < l < |places| ==> places[k] < places[l]) &&
    (forall k :: 0 <= k < |places| ==> places[k] < |xs| && test(xs[places[k]])) &&
    (forall i: nat :: i < |xs| && test(xs[i]) ==> i in places)
  }

  function Shifted(places: seq<nat>): (r: seq<nat>)
    ensures |r| == |places| && forall k :: 0 <= k < |places| ==> r[k] == places[k] + 1
  {
    seq(|places|, k requires 0 <= k < |places| => places[k] + 1)
  }

  /** The places in a longer sequence, but for its first element. */
  lemma PicksLater<T(!new)>(test: T -> bool, xs: seq<T>, rest: seq<nat>)
    requires xs != [] && Picks(test, xs[1..], rest)
    ensures forall k :: 0 <= k < |rest| ==> 0 < Shifted(rest)[k] < |xs| && xs[Shifted(rest)[k]] == xs[1..][rest[k]]
    ensures forall i: nat :: 0 < i < |xs| && test(xs[i]) ==> i in Shifted(rest)
  {
    forall i: nat | 0 < i < |xs| && test(xs[i]) ensures i in Shifted(rest) {
      assert xs[1..][i - 1] == xs[i];
      var k :| 0 <= k < |rest| && rest[k] == i - 1;
      assert Shifted(rest)[k] == i;
    }
  }

  lemma ZeroFirst(later: seq<nat>, places: seq<nat>)
    requires places == [0] + later && (forall k :: 0 <= k < |later| ==> later[k] > 0)
    requires forall k, l :: 0 <= k < l < |later| ==> later[k] < later[l]
    ensures forall k, l :: 0 <= k < l < |places| ==> places[k] < places[l]
    ensures forall i :: i in places <==> i == 0 || i in later
  {
    assert forall k :: 0 < k < |places| ==> places[k] == later[k - 1];
    assert places[0] == 0;
  }

  lemma PicksHead<T(!new)>(test: T -> bool, xs: seq<T>, rest: seq<nat>, places: seq<nat>)
    requires xs != [] && Picks(test, xs[1..], rest) && test(xs[0]) && places == [0] + Shifted(rest)
    ensures Picks(test, xs, places)
  {
    PicksLater(test, xs, rest);
    ZeroFirst(Shifted(rest), places);
    forall k | 0 <= k < |places| ensures places[k] < |xs| && test(xs[places[k]]) {
      if k > 0 {
        assert places[k] == Shifted(rest)[k - 1];
      }
    }
  }

  lemma PicksSkip<T(!new)>(test: T -> bool, xs: seq<T>, rest: seq<nat>)
    requires xs != [] && Picks(test, xs[1..], rest) && !test(xs[0])
    ensures Picks(test, xs, Shifted(rest))
  {
    PicksLater(test, xs, rest);
  }

  /** That the selection is made of the elements at those places. */
  ghost predicate MadeOf<T>(selected: seq<T>, xs: seq<T>, places: seq<nat>) {
    |selected| == |places| && forall k :: 0 <= k < |places| ==> places[k] < |xs| && selected[k] == xs[places[k]]
  }

  lemma MadeLater<T>(selected: seq<T>, xs: seq<T>, rest: seq<nat>)
    requires xs != [] && MadeOf(selected, xs[1..], rest)
    ensures MadeOf(selected, xs, Shifted(rest)) && MadeOf([xs[0]] + selected, xs, [0] + Shifted(rest))
  {
    assert forall k :: 0 <= k < |rest| ==> xs[rest[k] + 1] == xs[1..][rest[k]];
    var all, places := [xs[0]] + selected, [0] + Shifted(rest);
    assert forall k :: 0 < k < |places| ==> places[k] == Shifted(rest)[k - 1] && all[k] == selected[k - 1];
  }

  lemma {:induction false} SelectPicks<T(!new)>(test: T -> bool, xs: seq<T>) returns (places: seq<nat>)
    ensures Picks(test, xs, places) && MadeOf(Select(test, xs), xs, places)
  {
    if xs == [] {
      places := [];
    } else {
      var rest := SelectPicks(test, xs[1..]);
      MadeLater(Select(test, xs[1..]), xs, rest);
      if test(xs[0]) {
        places := [0] + Shifted(rest);
        PicksHead(test, xs, rest, places);
      } else {
        places := Shifted(rest);
        PicksSkip(test, xs, rest);
        assert [] + Select(test, xs[1..]) == Select(test, xs[1..]);
      }
    }
  }

  function SensitivePaths(p: TargetPolicy, files: seq<string>): seq<string> {
    Select(f => MatchesAny(p, f, AllSensitive(p)), files)
  }

  function SecurityPaths(p: TargetPolicy, files: seq<string>): seq<string> {
    Select(f => MatchesAny(p, f, p.security), files)
  }

  predicate StartsWithAny(s: string, prefixes: seq<string>) {
    exists p :: p in prefixes && StartsWith(s, p)
  }

  // --- Blast radius -----------------------------------------------------------------------------

  datatype Blast = L1 | L2 | L3

  predicate SafeByConstruction(p: TargetPolicy, path: string) {
    !StartsWith(p.fold(path), p.fold(p.specPrefix)) && MatchesAny(p, path, ENGINE_SAFE + p.safe)
  }

  predicate Touchy(p: TargetPolicy, files: seq<string>) {
    SensitivePaths(p, files) != [] || SecurityPaths(p, files) != []
  }

  function Classify(p: TargetPolicy, files: seq<string>): Blast {
    if files == [] then L3
    else if Touchy(p, files) then L3
    else if forall f :: f in files ==> SafeByConstruction(p, f) then L1
    else L2
  }

  /** Case folding leaves the engine's own safe globs as they are: they are lower-case ASCII. */
  predicate FoldsAscii(p: TargetPolicy) {
    forall g :: g in ENGINE_SAFE ==> p.fold(g) == g
  }

  lemma EngineGlobsAreInert(g: string)
    requires g in ENGINE_SAFE
    ensures InertGlob(g)
  {
    var ext := AfterLastDot(g).value;
    assert EndsWith(g, "md");
    var n := |g|;
    assert g[n - 3] == '.' && g[n - 2] == 'm' && g[n - 1] == 'd';
    DotIsLast(g, "md");
  }

  lemma DotIsLast(g: string, ext: string)
    requires |g| > |ext| && g[|g| - |ext| - 1] == '.' && EndsWith(g, ext) && '.' !in ext
    ensures AfterLastDot(g) == Some(ext)
  {
    assert g[|g| - |ext| - 1] in g;
    var got := AfterLastDot(g).value;
    assert forall i :: 0 <= i < |ext| ==> ext[i] == g[|g| - |ext| + i];
    assert forall i :: 0 <= i < |got| ==> got[i] == g[|g| - |got| + i];
  }

  lemma SelectedNothing<T(!new)>(test: T -> bool, xs: seq<T>)
    requires Select(test, xs) == []
    ensures forall x :: x in xs ==> !test(x)
  {
    forall x | x in xs ensures !test(x) {
      assert !(x in Select(test, xs));
    }
  }

  /** A safe path ends in an inert extension and lies outside the spec directory. */
  lemma SafePathIsInert(p: TargetPolicy, path: string)
    requires FoldsAscii(p) && AsInertSafeGlobs(p.fold, p.safe).Success? && SafeByConstruction(p, path)
    ensures InertPath(p.fold(path))
  {
    var g :| g in ENGINE_SAFE + p.safe && Matches(p.fold(g), p.fold(path));
    if g in ENGINE_SAFE {
      EngineGlobsAreInert(g);
    }
    InertGlobsMatchInertPaths(p.fold(g), p.fold(path));
  }

  /** The lane without a review is inert: the diff is not empty, and every file in it ends in an allowed extension, lies
      outside the spec directory and matches neither a sensitive nor a security glob. */
  lemma L1IsInert(p: TargetPolicy, files: seq<string>)
    requires FoldsAscii(p) && AsInertSafeGlobs(p.fold, p.safe).Success? && Classify(p, files) == L1
    ensures files != []
    ensures forall f :: f in files ==>
              InertPath(p.fold(f)) && !StartsWith(p.fold(f), p.fold(p.specPrefix)) &&
              !MatchesAny(p, f, AllSensitive(p)) && !MatchesAny(p, f, p.security)
  {
    SelectedNothing((f: string) => MatchesAny(p, f, AllSensitive(p)), files);
    SelectedNothing((f: string) => MatchesAny(p, f, p.security), files);
    forall f | f in files ensures InertPath(p.fold(f)) {
      SafePathIsInert(p, f);
    }
  }

  /** Some file of the diff matches some of the globs, both sides folded. */
  ghost predicate Touches(p: TargetPolicy, files: seq<string>, globs: seq<string>) {
    exists f, g :: f in files && g in globs && Matches(p.fold(g), p.fold(f))
  }

  /** The diff touches the engine's surfaces, the product's sensitive paths, an invariant test or a security path. */
  ghost predicate TouchesGuarded(p: TargetPolicy, files: seq<string>) {
    Touches(p, files, p.engineSensitive) || Touches(p, files, p.sensitive) || Touches(p, files, p.invariantTests) || Touches(p, files, p.security)
  }

  lemma SelectionTouches(p: TargetPolicy, files: seq<string>, globs: seq<string>)
    ensures Select(f => MatchesAny(p, f, globs), files) != [] <==> Touches(p, files, globs)
  {
    var test := (f: string) => MatchesAny(p, f, globs);
    if Select(test, files) != [] {
      var f := Select(test, files)[0];
      assert f in Select(test, files);
      var g :| g in globs && Matches(p.fold(g), p.fold(f));
    }
    if Touches(p, files, globs) {
      var f, g :| f in files && g in globs && Matches(p.fold(g), p.fold(f));
      assert test(f) && f in Select(test, files);
    }
  }

  lemma TouchesAll(p: TargetPolicy, files: seq<string>)
    ensures SensitivePaths(p, files) != [] <==> Touches(p, files, p.engineSensitive) || Touches(p, files, p.sensitive) || Touches(p, files, p.invariantTests)
    ensures SecurityPaths(p, files) != [] <==> Touches(p, files, p.security)
    ensures Touchy(p, files) <==> TouchesGuarded(p, files)
  {
    SelectionTouches(p, files, AllSensitive(p));
    SelectionTouches(p, files, p.security);
    assert forall g :: g in AllSensitive(p) <==> g in p.engineSensitive || g in p.sensitive || g in p.invariantTests;
  }

  /** A markdown file, or one the target declares safe, outside the spec directory. */
  ghost predicate DeclaredSafe(p: TargetPolicy, f: string) {
    !(p.fold(p.specPrefix) <= p.fold(f)) &&
    (Matches(p.fold("*.md"), p.fold(f)) || Matches(p.fold("**/*.md"), p.fold(f)) || exists g :: g in p.safe && Matches(p.fold(g), p.fold(f)))
  }

  lemma SafeExactly(p: TargetPolicy, f: string)
    ensures SafeByConstruction(p, f) <==> DeclaredSafe(p, f)
  {
    assert ENGINE_SAFE[0] == "*.md" && ENGINE_SAFE[1] == "**/*.md";
    assert forall g :: g in ENGINE_SAFE + p.safe <==> g == "*.md" || g == "**/*.md" || g in p.safe;
  }

  /** The blast radius: a diff that is empty or touches a guarded path is L3; any other is L1 if all of it is declared safe, and L2 if
      a single file is not. */
  lemma ClassifyExactly(p: TargetPolicy, files: seq<string>)
    ensures Classify(p, files) == L3 <==> files == [] || TouchesGuarded(p, files)
    ensures Classify(p, files) == L1 <==> files != [] && !TouchesGuarded(p, files) && forall f :: f in files ==> DeclaredSafe(p, f)
    ensures Classify(p, files) == L2 <==> files != [] && !TouchesGuarded(p, files) && exists f :: f in files && !DeclaredSafe(p, f)
  {
    TouchesAll(p, files);
    forall f ensures SafeByConstruction(p, f) <==> DeclaredSafe(p, f) {
      SafeExactly(p, f);
    }
  }

  // --- Risk -------------------------------------------------------------------------------------

  datatype Risk = Low | Medium | High

  function Rank(r: Risk): nat {
    match r case Low => 0 case Medium => 1 case High => 2
  }

  function Max(a: Risk, b: Risk): (r: Risk)
    ensures Rank(r) >= Rank(a) && Rank(r) >= Rank(b) && (r == a || r == b)
  {
    if Rank(a) >= Rank(b) then a else b
  }

  /** A declared level: anything outside the scale is high, no declaration is low. */
  function NormalizeRisk(declared: Option<string>): Risk {
    var level := if declared.Some? then Lower(Strip(declared.value)) else "";
    if level == "" || level == "low" then Low else if level == "medium" then Medium else High
  }

  const MEDIUM_FILES := 15
  const MEDIUM_LINES := 300

  function ComputedRisk(p: TargetPolicy, files: seq<string>, diffLines: nat): Risk {
    if Touchy(p, files) then High
    else if |files| > MEDIUM_FILES || diffLines > MEDIUM_LINES then Medium
    else Low
  }

  /** The highest level the two reviewer verdicts declare; None where there is no verdict object, and a verdict
      without a level declares a low one. */
  method DeclaredRisk(levels: seq<Option<string>>) returns (risk: Risk)
    ensures risk == Highest(levels)
  {
    risk := Low;
    for i := 0 to |levels|
      invariant Max(risk, Highest(levels[i..])) == Highest(levels)
    {
      if levels[i].Some? {
        var level := NormalizeRisk(levels[i]);
        if Rank(level) > Rank(risk) {
          risk := level;
        }
      }
      assert levels[i..][1..] == levels[i + 1..];
    }
  }

  function Highest(levels: seq<Option<string>>): Risk {
    if levels == [] then Low else Max(NormalizeRisk(levels[0]), Highest(levels[1..]))
  }

  /** No reviewer's declaration is laundered away: the risk is at least each level, and one of them unless it is low. */
  lemma {:induction false} HighestIsAMaximum(levels: seq<Option<string>>)
    ensures forall l :: l in levels ==> Rank(NormalizeRisk(l)) <= Rank(Highest(levels))
    ensures Highest(levels) == Low || exists l :: l in levels && NormalizeRisk(l) == Highest(levels)
  {
    if levels != [] {
      HighestIsAMaximum(levels[1..]);
      assert forall l :: l in levels <==> l == levels[0] || l in levels[1..];
      assert levels[0] in levels;
    }
  }

  /** The scale: a declaration counts as what it says up to case and blanks around it, nothing declared as low, and everything else as
      high. Computed, a guarded path is high, and more than fifteen files or three hundred lines are medium. */
  lemma RiskSays(p: TargetPolicy, declared: Option<string>, files: seq<string>, lines: nat)
    ensures NormalizeRisk(declared) == Low <==> declared.None? || Lower(Strip(declared.value)) == "" || Lower(Strip(declared.value)) == "low"
    ensures NormalizeRisk(declared) == Medium <==> declared.Some? && Lower(Strip(declared.value)) == "medium"
    ensures ComputedRisk(p, files, lines) == High <==> TouchesGuarded(p, files)
    ensures ComputedRisk(p, files, lines) == Medium <==> !TouchesGuarded(p, files) && (|files| > 15 || lines > 300)
  {
    TouchesAll(p, files);
    if declared.Some? {
      LevelsDiffer(Lower(Strip(declared.value)));
    }
  }

  lemma LevelsDiffer(level: string)
    ensures level == "medium" ==> level != "" && level != "low"
  {
  }
}
