/** The decision matrix over a diff, its gates and its risk, and the report-only lane beside it. */
module Decision {
  import opened Wrappers
  import opened Text
  import opened LoopLog
  import opened Glob
  import opened Policy
  import opened Gates
  import Spec

  datatype Reason =
    | StaleRw1 | StaleRw2 | StaleAuthoritative | FlakyTests
    | PolicySensitive(paths: seq<string>) | SecurityAuth(paths: seq<string>)
    | TestsDeleted(paths: seq<string>) | Destructive(paths: seq<string>)
    | SeniorDeadlock | UnclearIntent | HighRisk
    | PathGuardViolation(paths: seq<string>) | NondraftSpec(paths: seq<string>) | VerifyMissing

  datatype Verdict = AutoMerge | AutoMergeNotify | StopBeforeMerge

  datatype MergeDecision = MergeDecision(verdict: Verdict, risk: Risk, reasons: seq<Reason>)

  /** What the callers gather: `statuses` pairs a path with its git status letters, `text` reads a file of the tree. */
  datatype Inputs = Inputs(
    files: seq<string>, diffLines: nat, declared: Risk, gates: GateStates, statuses: Option<seq<(string, string)>>,
    text: Option<string -> Option<string>>, deadlock: bool, unclear: bool)

  function FirstFive(xs: seq<string>): seq<string> {
    if |xs| > 5 then xs[..5] else xs
  }

  predicate DeletesTest(p: TargetPolicy, change: (string, string)) {
    StartsWith(change.1, "D") && StartsWithAny(change.0, ENGINE_TEST_DIRS + p.testDirs)
  }

  function DeletedTestFiles(p: TargetPolicy, statuses: seq<(string, string)>): seq<string> {
    var deleted := Select(DeletingTests(p), statuses);
    seq(|deleted|, i requires 0 <= i < |deleted| => deleted[i].0)
  }

  predicate Contains(s: string, part: string) {
    exists i :: 0 <= i <= |s| && StartsWith(s[i..], part)
  }

  predicate DropsData(p: TargetPolicy, text: string -> Option<string>, f: string) {
    MatchesAny(p, f, p.migrations) && text(f).Some? && (Contains(text(f).value, "drop_table") || Contains(text(f).value, "drop_column"))
  }

  function DroppingData(p: TargetPolicy, text: string -> Option<string>): string -> bool {
    f => DropsData(p, text, f)
  }

  method DestructiveMigrations(p: TargetPolicy, files: seq<string>, text: string -> Option<string>) returns (out: seq<string>)
    ensures out == Select(DroppingData(p, text), files)
  {
    ghost var test := DroppingData(p, text);
    out := [];
    for i := 0 to |files|
      invariant out + Select(test, files[i..]) == Select(test, files)
    {
      var f := files[i];
      SelectStep(test, out, files, i);
      if MatchesAny(p, f, p.migrations) {
        match text(f) {
          case None =>
          case Some(t) =>
            if Contains(t, "drop_table") || Contains(t, "drop_column") {
              out := out + [f];
            }
        }
      }
    }
  }

  lemma SelectStep<T(!new)>(test: T -> bool, out: seq<T>, xs: seq<T>, i: nat)
    requires i < |xs|
    ensures out + Select(test, xs[i..]) == (if test(xs[i]) then out + [xs[i]] else out) + Select(test, xs[i + 1..])
  {
    assert xs[i..][0] == xs[i] && xs[i..][1..] == xs[i + 1..];
  }

  // --- The matrix -------------------------------------------------------------------------------

  function RiskOf(p: TargetPolicy, q: Inputs): Risk {
    Max(q.declared, ComputedRisk(p, q.files, q.diffLines))
  }

  function Deleted(p: TargetPolicy, q: Inputs): seq<string> {
    if q.statuses.Some? then DeletedTestFiles(p, q.statuses.value) else []
  }

  function Dropped(p: TargetPolicy, q: Inputs): seq<string> {
    if q.text.Some? then Select(DroppingData(p, q.text.value), q.files) else []
  }

  function Given(c: bool, r: Reason): seq<Reason> {
    if c then [r] else []
  }

  function GateReasons(g: GateStates): seq<Reason> {
    Given(!OpenAt(g.rw1, g.head), StaleRw1) + Given(!OpenAt(g.rw2, g.head), StaleRw2) +
    Given(!OpenAt(g.authoritative, g.head), StaleAuthoritative) + Given(g.flaky, FlakyTests)
  }

  function PathReasons(p: TargetPolicy, q: Inputs): seq<Reason> {
    var sensitive, security := SensitivePaths(p, q.files), SecurityPaths(p, q.files);
    Given(sensitive != [], PolicySensitive(FirstFive(sensitive))) + Given(security != [], SecurityAuth(FirstFive(security)))
  }

  function LossReasons(deleted: seq<string>, dropped: seq<string>): seq<Reason> {
    Given(deleted != [], TestsDeleted(FirstFive(deleted))) + Given(dropped != [], Destructive(FirstFive(dropped)))
  }

  function StandingReasons(deadlock: bool, unclear: bool, risk: Risk): seq<Reason> {
    Given(deadlock, SeniorDeadlock) + Given(unclear, UnclearIntent) + Given(risk == High, HighRisk)
  }

  function OtherReasons(deleted: seq<string>, dropped: seq<string>, deadlock: bool, unclear: bool, risk: Risk): seq<Reason> {
    LossReasons(deleted, dropped) + StandingReasons(deadlock, unclear, risk)
  }

  function Reasons(p: TargetPolicy, q: Inputs): seq<Reason> {
    GateReasons(q.gates) +
    (PathReasons(p, q) + OtherReasons(Deleted(p, q), Dropped(p, q), q.deadlock, q.unclear, RiskOf(p, q)))
  }

  function Decided(p: TargetPolicy, q: Inputs): MergeDecision {
    var risk := RiskOf(p, q);
    MergeDecision(
      if Reasons(p, q) != [] then StopBeforeMerge
      else if risk == Medium && exists f :: f in q.files && StartsWithAny(f, p.userVisible) then AutoMergeNotify
      else AutoMerge,
      risk, Reasons(p, q))
  }

  // --- What a decision says, read off its inputs ------------------------------------------------

  /** The deletion of a test: a status that begins with D, and a path in `tests/` or in a directory the target declares. */
  ghost predicate DeletesATest(p: TargetPolicy, change: (string, string)) {
    change.1 != "" && change.1[0] == 'D' && ("tests/" <= change.0 || exists d :: d in p.testDirs && d <= change.0)
  }

  ghost predicate DeletesTests(p: TargetPolicy, statuses: seq<(string, string)>) {
    exists c :: c in statuses && DeletesATest(p, c)
  }

  /** Somewhere in the text. */
  ghost predicate Mentions(text: string, part: string) {
    exists before: string, after: string :: text == before + part + after
  }

  /** A migration that can be read and drops a table or a column. */
  ghost predicate DropsFrom(p: TargetPolicy, text: string -> Option<string>, f: string) {
    (exists g :: g in p.migrations && Matches(p.fold(g), p.fold(f))) && text(f).Some? &&
    (Mentions(text(f).value, "drop_table") || Mentions(text(f).value, "drop_column"))
  }

  ghost predicate DropsInDiff(p: TargetPolicy, files: seq<string>, text: string -> Option<string>) {
    exists f :: f in files && DropsFrom(p, text, f)
  }

  lemma DeletesTestExactly(p: TargetPolicy, change: (string, string))
    ensures DeletesTest(p, change) <==> DeletesATest(p, change)
  {
    var dirs := ENGINE_TEST_DIRS + p.testDirs;
    assert dirs[0] == "tests/";
    assert forall d :: d in dirs <==> d == "tests/" || d in p.testDirs;
    if StartsWith(change.0, "tests/") {
      assert "tests/" in dirs;
    }
    assert StartsWith(change.1, "D") <==> change.1 != "" && change.1[0] == 'D';
  }

  lemma ContainsExactly(s: string, part: string)
    ensures Contains(s, part) <==> Mentions(s, part)
  {
    if Contains(s, part) {
      var i :| 0 <= i <= |s| && StartsWith(s[i..], part);
      assert s == s[..i] + part + s[i..][|part|..];
    }
    if Mentions(s, part) {
      var before, after: string :| s == before + part + after;
      assert s[|before|..] == part + after;
    }
  }

  lemma DropsExactly(p: TargetPolicy, text: string -> Option<string>, f: string)
    ensures DropsData(p, text, f) <==> DropsFrom(p, text, f)
  {
    if text(f).Some? {
      ContainsExactly(text(f).value, "drop_table");
      ContainsExactly(text(f).value, "drop_column");
    }
  }

  /** The first five paths of the deleted tests, in the order of the diff. */
  ghost predicate ListsDeleted(p: TargetPolicy, statuses: seq<(string, string)>, paths: seq<string>) {
    exists places: seq<nat> ::
      Picks(c => DeletesATest(p, c), statuses, places) && |paths| == (if |places| > 5 then 5 else |places|) &&
      forall k :: 0 <= k < |paths| ==> places[k] < |statuses| && paths[k] == statuses[places[k]].0
  }

  function DeletingTests(p: TargetPolicy): ((string, string)) -> bool {
    c => DeletesTest(p, c)
  }

  lemma FirstListed(p: TargetPolicy, statuses: seq<(string, string)>, selected: seq<(string, string)>, places: seq<nat>, paths: seq<string>)
    requires Picks(c => DeletesATest(p, c), statuses, places) && MadeOf(selected, statuses, places)
    requires |paths| == (if |selected| > 5 then 5 else |selected|) && forall k :: 0 <= k < |paths| ==> paths[k] == selected[k].0
    ensures ListsDeleted(p, statuses, paths)
  {
  }

  lemma DeletedSays(p: TargetPolicy, statuses: seq<(string, string)>)
    ensures DeletedTestFiles(p, statuses) != [] <==> DeletesTests(p, statuses)
    ensures ListsDeleted(p, statuses, FirstFive(DeletedTestFiles(p, statuses)))
  {
    var test := DeletingTests(p);
    forall c ensures test(c) <==> DeletesATest(p, c) {
      DeletesTestExactly(p, c);
    }
    EmptyExactly(test, statuses);
    var places := SelectPicks(test, statuses);
    SamePicks(test, c => DeletesATest(p, c), statuses, places);
    FirstListed(p, statuses, Select(test, statuses), places, FirstFive(DeletedTestFiles(p, statuses)));
  }

  lemma SamePicks<T(!new)>(test: T -> bool, same: T -> bool, xs: seq<T>, places: seq<nat>)
    requires Picks(test, xs, places) && forall x :: x in xs ==> (test(x) <==> same(x))
    ensures Picks(same, xs, places)
  {
  }

  lemma DroppedSays(p: TargetPolicy, files: seq<string>, text: string -> Option<string>)
    ensures Select(DroppingData(p, text), files) != [] <==> DropsInDiff(p, files, text)
  {
    forall f ensures DropsData(p, text, f) <==> DropsFrom(p, text, f) {
      DropsExactly(p, text, f);
    }
    EmptyExactly(DroppingData(p, text), files);
  }

  method GateObjections(g: GateStates) returns (reasons: seq<Reason>)
    ensures reasons == GateReasons(g)
  {
    reasons := [];
    if !(g.rw1.ok && g.rw1.sha == Some(g.head)) {
      reasons := reasons + [StaleRw1];
    }
    if !(g.rw2.ok && g.rw2.sha == Some(g.head)) {
      reasons := reasons + [StaleRw2];
    }
    if !(g.authoritative.ok && g.authoritative.sha == Some(g.head)) {
      reasons := reasons + [StaleAuthoritative];
    }
    if g.flaky {
      reasons := reasons + [FlakyTests];
    }
  }

  method PathObjections(p: TargetPolicy, q: Inputs) returns (reasons: seq<Reason>)
    ensures reasons == PathReasons(p, q)
  {
    reasons := [];
    var sensitive := SensitivePaths(p, q.files);
    if sensitive != [] {
      reasons := reasons + [PolicySensitive(FirstFive(sensitive))];
    }
    var security := SecurityPaths(p, q.files);
    if security != [] {
      reasons := reasons + [SecurityAuth(FirstFive(security))];
    }
  }

  method LossObjections(deleted: seq<string>, dropped: seq<string>) returns (reasons: seq<Reason>)
    ensures reasons == LossReasons(deleted, dropped)
  {
    reasons := [];
    if deleted != [] {
      reasons := reasons + [TestsDeleted(FirstFive(deleted))];
    }
    if dropped != [] {
      reasons := reasons + [Destructive(FirstFive(dropped))];
    }
  }

  method StandingObjections(deadlock: bool, unclear: bool, risk: Risk) returns (reasons: seq<Reason>)
    ensures reasons == StandingReasons(deadlock, unclear, risk)
  {
    reasons := [];
    if deadlock {
      reasons := reasons + [SeniorDeadlock];
    }
    if unclear {
      reasons := reasons + [UnclearIntent];
    }
    if risk == High {
      reasons := reasons + [HighRisk];
    }
  }

  /** A risk that has been declared high, or a guarded path. */
  ghost predicate RisksMuch(p: TargetPolicy, q: Inputs) {
    q.declared == High || TouchesGuarded(p, q.files)
  }

  /** The gates' reasons: one for each reviewer and the authoritative run that is not green at the head, and one for a flaky pass. */
  predicate GatesSay(g: GateStates, reasons: seq<Reason>) {
    (StaleRw1 in reasons <==> !(g.rw1.ok && g.rw1.sha == Some(g.head))) &&
    (StaleRw2 in reasons <==> !(g.rw2.ok && g.rw2.sha == Some(g.head))) &&
    (StaleAuthoritative in reasons <==> !(g.authoritative.ok && g.authoritative.sha == Some(g.head))) &&
    (FlakyTests in reasons <==> g.flaky)
  }

  ghost predicate PathsSay(p: TargetPolicy, q: Inputs, reasons: seq<Reason>) {
    ((exists r :: r in reasons && r.PolicySensitive?) <==>
     Touches(p, q.files, p.engineSensitive) || Touches(p, q.files, p.sensitive) || Touches(p, q.files, p.invariantTests)) &&
    ((exists r :: r in reasons && r.SecurityAuth?) <==> Touches(p, q.files, p.security))
  }

  ghost predicate LossesSay(p: TargetPolicy, q: Inputs, reasons: seq<Reason>) {
    ((exists r :: r in reasons && r.TestsDeleted?) <==> q.statuses.Some? && DeletesTests(p, q.statuses.value)) &&
    (forall r :: r in reasons && r.TestsDeleted? ==> q.statuses.Some? && ListsDeleted(p, q.statuses.value, r.paths)) &&
    ((exists r :: r in reasons && r.Destructive?) <==> q.text.Some? && DropsInDiff(p, q.files, q.text.value))
  }

  ghost predicate StandingSay(p: TargetPolicy, q: Inputs, reasons: seq<Reason>) {
    (SeniorDeadlock in reasons <==> q.deadlock) && (UnclearIntent in reasons <==> q.unclear) && (HighRisk in reasons <==> RisksMuch(p, q))
  }

  ghost predicate ReasonsTold(p: TargetPolicy, q: Inputs, reasons: seq<Reason>) {
    GatesSay(q.gates, reasons) && PathsSay(p, q, reasons) && LossesSay(p, q, reasons) && StandingSay(p, q, reasons)
  }

  /** A decision that says what its inputs say: every reason that applies and no other, the risk, and the verdict - a stop on any reason,
      a notification for a user-visible medium risk, and a merge otherwise. */
  ghost predicate DecisionSays(p: TargetPolicy, q: Inputs, d: MergeDecision) {
    ReasonsTold(p, q, d.reasons) && VerdictTold(p, q, d)
  }

  ghost predicate VerdictTold(p: TargetPolicy, q: Inputs, d: MergeDecision) {
    (d.risk == High <==> RisksMuch(p, q)) &&
    (d.risk == Low <==> !RisksMuch(p, q) && q.declared == Low && |q.files| <= 15 && q.diffLines <= 300) &&
    (d.verdict == StopBeforeMerge <==> d.reasons != []) &&
    (d.verdict == AutoMergeNotify <==> d.reasons == [] && d.risk == Medium && exists f, v :: f in q.files && v in p.userVisible && v <= f)
  }

  lemma GateReasonsSay(g: GateStates)
    ensures GatesSay(g, GateReasons(g)) && forall r :: r in GateReasons(g) ==> GateKind(r)
  {
  }

  lemma PathReasonsSay(p: TargetPolicy, q: Inputs)
    ensures PathsSay(p, q, PathReasons(p, q)) && forall r :: r in PathReasons(p, q) ==> PathKind(r)
  {
    TouchesAll(p, q.files);
    var reasons := PathReasons(p, q);
    assert SensitivePaths(p, q.files) != [] ==> PolicySensitive(FirstFive(SensitivePaths(p, q.files))) in reasons;
    assert SecurityPaths(p, q.files) != [] ==> SecurityAuth(FirstFive(SecurityPaths(p, q.files))) in reasons;
  }

  lemma LossReasonsSay(p: TargetPolicy, q: Inputs)
    ensures var reasons := LossReasons(Deleted(p, q), Dropped(p, q));
            LossesSay(p, q, reasons) && forall r :: r in reasons ==> LossKind(r)
  {
    LossesAre(Deleted(p, q), Dropped(p, q));
    if q.statuses.Some? {
      DeletedSays(p, q.statuses.value);
    }
    if q.text.Some? {
      DroppedSays(p, q.files, q.text.value);
    }
  }

  lemma LossesAre(deleted: seq<string>, dropped: seq<string>)
    ensures var reasons := LossReasons(deleted, dropped);
            (deleted != [] ==> TestsDeleted(FirstFive(deleted)) in reasons) && (dropped != [] ==> Destructive(FirstFive(dropped)) in reasons) &&
            forall r :: r in reasons ==> (deleted != [] && r == TestsDeleted(FirstFive(deleted))) || (dropped != [] && r == Destructive(FirstFive(dropped)))
  {
  }

  lemma StandingReasonsSay(p: TargetPolicy, q: Inputs)
    ensures var reasons := StandingReasons(q.deadlock, q.unclear, RiskOf(p, q));
            StandingSay(p, q, reasons) && forall r :: r in reasons ==> StandingKind(r)
  {
    RiskOfSays(p, q);
    StandingAre(q.deadlock, q.unclear, RiskOf(p, q));
  }

  lemma StandingAre(deadlock: bool, unclear: bool, risk: Risk)
    ensures var reasons := StandingReasons(deadlock, unclear, risk);
            (SeniorDeadlock in reasons <==> deadlock) && (UnclearIntent in reasons <==> unclear) && (HighRisk in reasons <==> risk == High) &&
            forall r :: r in reasons ==> StandingKind(r)
  {
  }

  lemma RiskOfSays(p: TargetPolicy, q: Inputs)
    ensures RiskOf(p, q) == High <==> RisksMuch(p, q)
    ensures RiskOf(p, q) == Low <==> !RisksMuch(p, q) && q.declared == Low && |q.files| <= 15 && q.diffLines <= 300
  {
    RiskSays(p, None, q.files, q.diffLines);
  }

  predicate GateKind(r: Reason) {
    r.StaleRw1? || r.StaleRw2? || r.StaleAuthoritative? || r.FlakyTests?
  }

  predicate PathKind(r: Reason) {
    r.PolicySensitive? || r.SecurityAuth?
  }

  predicate LossKind(r: Reason) {
    r.TestsDeleted? || r.Destructive?
  }

  predicate StandingKind(r: Reason) {
    r.SeniorDeadlock? || r.UnclearIntent? || r.HighRisk?
  }

  /** Two lists hold the same reasons of a kind. */
  ghost predicate SameOfKind(kind: Reason -> bool, part: seq<Reason>, all: seq<Reason>) {
    forall r :: kind(r) ==> (r in part <==> r in all)
  }

  lemma GatesCarry(g: GateStates, part: seq<Reason>, all: seq<Reason>)
    requires GatesSay(g, part) && SameOfKind(GateKind, part, all)
    ensures GatesSay(g, all)
  {
    assert GateKind(StaleRw1) && GateKind(StaleRw2) && GateKind(StaleAuthoritative) && GateKind(FlakyTests);
  }

  lemma PathsCarry(p: TargetPolicy, q: Inputs, part: seq<Reason>, all: seq<Reason>)
    requires PathsSay(p, q, part) && SameOfKind(PathKind, part, all)
    ensures PathsSay(p, q, all)
  {
    assert forall r: Reason :: r.PolicySensitive? || r.SecurityAuth? ==> PathKind(r);
    assert forall r :: r in part && PathKind(r) ==> r in all;
    assert forall r :: r in all && PathKind(r) ==> r in part;
  }

  lemma LossesCarry(p: TargetPolicy, q: Inputs, part: seq<Reason>, all: seq<Reason>)
    requires LossesSay(p, q, part) && SameOfKind(LossKind, part, all)
    ensures LossesSay(p, q, all)
  {
    assert forall r :: r in part && LossKind(r) ==> r in all;
    assert forall r :: r in all && LossKind(r) ==> r in part;
  }

  lemma StandingCarry(p: TargetPolicy, q: Inputs, part: seq<Reason>, all: seq<Reason>)
    requires StandingSay(p, q, part) && SameOfKind(StandingKind, part, all)
    ensures StandingSay(p, q, all)
  {
    assert StandingKind(SeniorDeadlock) && StandingKind(UnclearIntent) && StandingKind(HighRisk);
  }

  lemma KindsApart(g: seq<Reason>, path: seq<Reason>, loss: seq<Reason>, standing: seq<Reason>, all: seq<Reason>)
    requires all == g + (path + (loss + standing))
    requires (forall r :: r in g ==> GateKind(r)) && (forall r :: r in path ==> PathKind(r))
    requires (forall r :: r in loss ==> LossKind(r)) && (forall r :: r in standing ==> StandingKind(r))
    ensures SameOfKind(GateKind, g, all) && SameOfKind(PathKind, path, all) && SameOfKind(LossKind, loss, all) &&
            SameOfKind(StandingKind, standing, all)
  {
    assert forall r :: r in all <==> r in g || r in path || r in loss || r in standing;
  }

  lemma DecidedSays(p: TargetPolicy, q: Inputs)
    ensures DecisionSays(p, q, Decided(p, q))
  {
    ReasonsSay(p, q);
    VerdictSays(p, q);
  }

  lemma VerdictSays(p: TargetPolicy, q: Inputs)
    ensures VerdictTold(p, q, Decided(p, q)) && Decided(p, q).reasons == Reasons(p, q)
  {
    RiskOfSays(p, q);
    NotifySays(p, q);
  }

  lemma NotifySays(p: TargetPolicy, q: Inputs)
    ensures (exists f :: f in q.files && StartsWithAny(f, p.userVisible)) <==> exists f, v :: f in q.files && v in p.userVisible && v <= f
  {
  }

  lemma ReasonsSay(p: TargetPolicy, q: Inputs)
    ensures ReasonsTold(p, q, Reasons(p, q))
  {
    GateReasonsSay(q.gates);
    PathReasonsSay(p, q);
    LossReasonsSay(p, q);
    StandingReasonsSay(p, q);
    var loss, standing := LossReasons(Deleted(p, q), Dropped(p, q)), StandingReasons(q.deadlock, q.unclear, RiskOf(p, q));
    KindsApart(GateReasons(q.gates), PathReasons(p, q), loss, standing, Reasons(p, q));
    GatesCarry(q.gates, GateReasons(q.gates), Reasons(p, q));
    PathsCarry(p, q, PathReasons(p, q), Reasons(p, q));
    LossesCarry(p, q, loss, Reasons(p, q));
    StandingCarry(p, q, standing, Reasons(p, q));
  }

  /** The decision, and what it says of its inputs. */
  method DecideMerge(p: TargetPolicy, q: Inputs) returns (d: MergeDecision)
    ensures d == Decided(p, q)
    ensures DecisionSays(p, q, d)
  {
    DecidedSays(p, q);
    d := Weigh(p, q);
  }

  method Weigh(p: TargetPolicy, q: Inputs) returns (d: MergeDecision)
    ensures d == Decided(p, q)
  {
    var risk := RiskOf(p, q);
    var reasons := GateObjections(q.gates);
    var paths := PathObjections(p, q);
    var deleted := if q.statuses.Some? then DeletedTestFiles(p, q.statuses.value) else [];
    var dropped := [];
    if q.text.Some? {
      dropped := DestructiveMigrations(p, q.files, q.text.value);
    }
    var losses := LossObjections(deleted, dropped);
    var standing := StandingObjections(q.deadlock, q.unclear, risk);
    reasons := reasons + (paths + (losses + standing));
    if reasons != [] {
      return MergeDecision(StopBeforeMerge, risk, reasons);
    }
    if risk == Medium && exists f :: f in q.files && StartsWithAny(f, p.userVisible) {
      return MergeDecision(AutoMergeNotify, risk, []);
    }
    return MergeDecision(AutoMerge, risk, []);
  }

  // --- Earning a merge --------------------------------------------------------------------------

  /** Some entry of the log opened the gate at that sha. */
  ghost predicate EarnedAt(log: Log, action: Action, yes: Outcome, sha: string) {
    exists k :: Opened(log, action, yes, k) && log[k].sha == Some(sha)
  }

  ghost predicate GreenAt(log: Log, sha: string) {
    exists k :: LastAuthoritative(log, k) && log[k].outcome == Pass && log[k].sha == Some(sha) && !log[k].flaky
  }

  /** Nothing but the gates stands against the merge: no guarded path, no deleted test, no dropped data, no deadlock, no unclear intent
      and no high declaration. */
  ghost predicate Unobjectionable(p: TargetPolicy, q: Inputs) {
    !TouchesGuarded(p, q.files) && (q.statuses.Some? ==> !DeletesTests(p, q.statuses.value)) &&
    (q.text.Some? ==> !DropsInDiff(p, q.files, q.text.value)) && !q.deadlock && !q.unclear && q.declared != High
  }

  lemma LossesExactly(p: TargetPolicy, q: Inputs)
    ensures Deleted(p, q) == [] <==> (q.statuses.Some? ==> !DeletesTests(p, q.statuses.value))
    ensures Dropped(p, q) == [] <==> (q.text.Some? ==> !DropsInDiff(p, q.files, q.text.value))
  {
    if q.statuses.Some? {
      DeletedSays(p, q.statuses.value);
    }
    if q.text.Some? {
      DroppedSays(p, q.files, q.text.value);
    }
  }

  lemma NoReasonsExactly(p: TargetPolicy, q: Inputs)
    ensures Reasons(p, q) == [] <==> GateReasons(q.gates) == [] && Unobjectionable(p, q)
  {
    TouchesAll(p, q.files);
    LossesExactly(p, q);
    var others := OtherReasons(Deleted(p, q), Dropped(p, q), q.deadlock, q.unclear, RiskOf(p, q));
    assert Reasons(p, q) == [] <==> GateReasons(q.gates) == [] && PathReasons(p, q) == [] && others == [];
    assert PathReasons(p, q) == [] <==> !Touchy(p, q.files);
    assert !Touchy(p, q.files) ==> (RiskOf(p, q) == High <==> q.declared == High);
  }

  lemma MergesExactly(p: TargetPolicy, q: Inputs)
    ensures Decided(p, q).verdict != StopBeforeMerge <==> GateReasons(q.gates) == [] && Unobjectionable(p, q)
    ensures Unobjectionable(p, q) ==> Decided(p, q).risk != High
  {
    NoReasonsExactly(p, q);
    RiskOfSays(p, q);
  }

  lemma GatesEarned(log: Log, sha: string)
    ensures GateReasons(Replayed(log, sha, true, true)) == [] <==>
            EarnedAt(log, Rw1, Approved, sha) && EarnedAt(log, Rw2, Go, sha) && GreenAt(log, sha)
  {
    ReviewEarned(log, Rw1, Approved, sha);
    ReviewEarned(log, Rw2, Go, sha);
    GreenExactly(log, sha);
  }

  lemma ReviewEarned(log: Log, action: Action, yes: Outcome, sha: string)
    requires action == Rw1 || action == Rw2
    ensures OpenAt(ReviewGate(log, action, yes), sha) <==> EarnedAt(log, action, yes, sha)
  {
    GateIsItsOpener(log, action, yes);
  }

  lemma GreenExactly(log: Log, sha: string)
    ensures OpenAt(TestGate(log).0, sha) && !TestGate(log).1 <==> GreenAt(log, sha)
  {
    TestGateIsItsLastRun(log);
    if OpenAt(TestGate(log).0, sha) && !TestGate(log).1 {
      var k :| LastAuthoritative(log, k);
    }
  }

  /** A merge on replayed gates is exactly what the log earned: at this sha each reviewer's gate was opened last by its own
      approval or by a senior standing in for a refusal, the last authoritative run is a steady pass, and nothing in the
      diff, the declarations or the flags stands against it. */
  lemma MergeIsEarned(p: TargetPolicy, q: Inputs, log: Log, sha: string)
    requires q.gates == Replayed(log, sha, true, true)
    ensures Decided(p, q).verdict != StopBeforeMerge <==>
            EarnedAt(log, Rw1, Approved, sha) && EarnedAt(log, Rw2, Go, sha) && GreenAt(log, sha) && Unobjectionable(p, q)
    ensures Decided(p, q).verdict != StopBeforeMerge ==> Decided(p, q).risk != High
  {
    MergesExactly(p, q);
    GatesEarned(log, sha);
  }

  /** A gate entry that does not approve. */
  predicate Refusal(e: Entry) {
    (Is(e, Rw1) && e.outcome != Approved) || (Is(e, Rw2) && e.outcome != Go) || (Is(e, Authoritative) && (e.outcome != Pass || e.flaky))
  }

  /** One more refusal turns any decision into a stop. */
  lemma RefusalStops(p: TargetPolicy, q: Inputs, log: Log, e: Entry, sha: string)
    requires Refusal(e) && q.gates == Replayed(log + [e], sha, true, true)
    ensures Decided(p, q).verdict == StopBeforeMerge
  {
    NoReasonsExactly(p, q);
    if Is(e, Rw1) {
      RefusalShuts(log, e, Rw1, Approved);
    } else if Is(e, Rw2) {
      RefusalShuts(log, e, Rw2, Go);
    } else {
      Snoc(log, e);
    }
  }

  /** Moving the code away from the sha a merge was earned at turns the decision into a stop, whichever gates are on. */
  lemma MovedCodeStops(p: TargetPolicy, q: Inputs, moved: Inputs, log: Log, sha: string, other: string, rw2: bool, auth: bool)
    requires q.gates == Replayed(log, sha, rw2, auth) && moved.gates == Replayed(log, other, rw2, auth) && other != sha
    requires Decided(p, q).verdict != StopBeforeMerge
    ensures Decided(p, moved).verdict == StopBeforeMerge
  {
    NoReasonsExactly(p, q);
    NoReasonsExactly(p, moved);
  }

  // --- Report-only tasks ------------------------------------------------------------------------

  predicate SpecFile(prefix: string, f: string) {
    StartsWith(f, prefix) && EndsWith(f, ".md")
  }

  predicate Allowed(prefix: string, taskDir: string, f: string) {
    StartsWith(f, taskDir) || SpecFile(prefix, f)
  }

  /** A spec that may land through the report-only lane. `specAt` reads and parses a file of the tree; a failure is a
      file that cannot be read or does not parse. */
  predicate MayLand(own: string, specAt: string -> Result<Spec.TaskSpec, ()>, f: string) {
    specAt(f).Success? &&
    var s := specAt(f).value;
    if f == own then Spec.ReportOnly(s) && (s.status == None || s.status == Some(Spec.DRAFT) || s.status == Some(Spec.DONE))
    else s.status == Some(Spec.DRAFT)
  }

  predicate Offends(prefix: string, own: string, specAt: string -> Result<Spec.TaskSpec, ()>, f: string) {
    SpecFile(prefix, f) && !MayLand(own, specAt, f)
  }

  function Offending(prefix: string, own: string, specAt: string -> Result<Spec.TaskSpec, ()>): string -> bool {
    f => Offends(prefix, own, specAt, f)
  }

  method NondraftReportSpecs(prefix: string, own: string, files: seq<string>, specAt: string -> Result<Spec.TaskSpec, ()>)
    returns (offending: seq<string>)
    ensures offending == Select(Offending(prefix, own, specAt), files)
    ensures forall f :: f in offending <==> f in files && IsSpecPath(prefix, f) && !LeavesNothingToRun(own, specAt, f)
  {
    forall f ensures Offends(prefix, own, specAt, f) <==> IsSpecPath(prefix, f) && !LeavesNothingToRun(own, specAt, f) {
      SpecFileExactly(prefix, f);
      SpecMayLandExactly(own, specAt, f);
    }
    ghost var test := Offending(prefix, own, specAt);
    offending := [];
    for i := 0 to |files|
      invariant offending + Select(test, files[i..]) == Select(test, files)
    {
      var f := files[i];
      SelectStep(test, offending, files, i);
      if !SpecFile(prefix, f) {
        continue;
      }
      match specAt(f) {
        case Failure(_) => offending := offending + [f];
        case Success(s) =>
          if f == own {
            if !Spec.ReportOnly(s) || !(s.status == None || s.status == Some(Spec.DRAFT) || s.status == Some(Spec.DONE)) {
              offending := offending + [f];
            }
          } else if s.status != Some(Spec.DRAFT) {
            offending := offending + [f];
          }
      }
    }
  }

  function ReportOnlyReasons(prefix: string, taskDir: string, files: seq<string>, verified: bool, nondraft: seq<string>): seq<Reason> {
    var offending := Select(f => !Allowed(prefix, taskDir, f), files);
    Given(offending != [], PathGuardViolation(FirstFive(offending))) + Given(nondraft != [], NondraftSpec(FirstFive(nondraft))) +
    Given(!verified, VerifyMissing)
  }

  function ReportOnlyDecision(prefix: string, taskDir: string, files: seq<string>, verified: bool, nondraft: seq<string>): MergeDecision {
    var reasons := ReportOnlyReasons(prefix, taskDir, files, verified, nondraft);
    MergeDecision(if reasons != [] then StopBeforeMerge else AutoMerge, Low, reasons)
  }

  /** A markdown file below the spec directory. */
  ghost predicate IsSpecPath(prefix: string, f: string) {
    prefix <= f && exists stem: string :: f == stem + ".md"
  }

  /** A spec a report may leave behind: a draft, or its own task's spec if that still only reports and would not run. */
  ghost predicate LeavesNothingToRun(own: string, specAt: string -> Result<Spec.TaskSpec, ()>, f: string) {
    match specAt(f)
    case Failure(_) => false
    case Success(s) =>
      if f == own then (s.taskType == "audit" || s.taskType == "investigate") && s.status in {None, Some("draft-proposal"), Some("done")}
      else s.status == Some("draft-proposal")
  }

  /** What a report may change: its own task directory, and markdown specs that leave nothing to run. */
  ghost predicate Reportable(prefix: string, taskDir: string, own: string, specAt: string -> Result<Spec.TaskSpec, ()>, f: string) {
    if IsSpecPath(prefix, f) then LeavesNothingToRun(own, specAt, f) else taskDir <= f
  }

  lemma SpecFileExactly(prefix: string, f: string)
    ensures SpecFile(prefix, f) <==> IsSpecPath(prefix, f)
  {
    if EndsWith(f, ".md") {
      assert f == f[..|f| - 3] + ".md";
    }
  }

  lemma SpecMayLandExactly(own: string, specAt: string -> Result<Spec.TaskSpec, ()>, f: string)
    ensures MayLand(own, specAt, f) <==> LeavesNothingToRun(own, specAt, f)
  {
  }

  lemma ReportableExactly(prefix: string, taskDir: string, own: string, specAt: string -> Result<Spec.TaskSpec, ()>, f: string)
    ensures Reportable(prefix, taskDir, own, specAt, f) <==>
            Allowed(prefix, taskDir, f) && (SpecFile(prefix, f) ==> MayLand(own, specAt, f))
  {
    SpecFileExactly(prefix, f);
    SpecMayLandExactly(own, specAt, f);
  }

  /** A report-only task merges exactly when its round was verified, every file lies in its own task directory or is a
      markdown spec, and every such spec parses as a draft, or is its own spec and stays one that runs no code. */
  lemma ReportOnlyMergesExactly(prefix: string, taskDir: string, own: string, files: seq<string>, verified: bool,
                                specAt: string -> Result<Spec.TaskSpec, ()>)
    ensures var nondraft := Select(Offending(prefix, own, specAt), files);
            ReportOnlyDecision(prefix, taskDir, files, verified, nondraft).verdict == AutoMerge <==>
            verified && forall f :: f in files ==> Reportable(prefix, taskDir, own, specAt, f)
  {
    EmptyExactly((f: string) => !Allowed(prefix, taskDir, f), files);
    EmptyExactly(Offending(prefix, own, specAt), files);
    forall f ensures Reportable(prefix, taskDir, own, specAt, f) <==>
                     Allowed(prefix, taskDir, f) && (SpecFile(prefix, f) ==> MayLand(own, specAt, f))
    {
      ReportableExactly(prefix, taskDir, own, specAt, f);
    }
  }

  /** Each reason of a report-only task stands exactly when there is a file, a spec or a missing verification to name. */
  lemma ReportOnlySays(prefix: string, taskDir: string, own: string, files: seq<string>, verified: bool,
                       specAt: string -> Result<Spec.TaskSpec, ()>)
    ensures var d := ReportOnlyDecision(prefix, taskDir, files, verified, Select(Offending(prefix, own, specAt), files));
            (VerifyMissing in d.reasons <==> !verified) &&
            ((exists r :: r in d.reasons && r.PathGuardViolation?) <==> exists f :: f in files && !IsSpecPath(prefix, f) && !(taskDir <= f)) &&
            ((exists r :: r in d.reasons && r.NondraftSpec?) <==>
              exists f :: f in files && IsSpecPath(prefix, f) && !LeavesNothingToRun(own, specAt, f)) &&
            (forall r :: r in d.reasons ==> r.VerifyMissing? || r.PathGuardViolation? || r.NondraftSpec?)
  {
    var stray := (f: string) => !Allowed(prefix, taskDir, f);
    EmptyExactly(stray, files);
    EmptyExactly(Offending(prefix, own, specAt), files);
    forall f ensures SpecFile(prefix, f) <==> IsSpecPath(prefix, f)
             ensures MayLand(own, specAt, f) <==> LeavesNothingToRun(own, specAt, f) {
      SpecFileExactly(prefix, f);
      SpecMayLandExactly(own, specAt, f);
    }
    ThreeReasons(Select(stray, files), Select(Offending(prefix, own, specAt), files), verified);
  }

  lemma ThreeReasons(stray: seq<string>, nondraft: seq<string>, verified: bool)
    ensures var reasons := Given(stray != [], PathGuardViolation(FirstFive(stray))) + Given(nondraft != [], NondraftSpec(FirstFive(nondraft))) +
                           Given(!verified, VerifyMissing);
            (VerifyMissing in reasons <==> !verified) && ((exists r :: r in reasons && r.PathGuardViolation?) <==> stray != []) &&
            ((exists r :: r in reasons && r.NondraftSpec?) <==> nondraft != []) &&
            forall r :: r in reasons ==> r.VerifyMissing? || r.PathGuardViolation? || r.NondraftSpec?
  {
    var first, second := PathGuardViolation(FirstFive(stray)), NondraftSpec(FirstFive(nondraft));
    var reasons := Given(stray != [], first) + Given(nondraft != [], second) + Given(!verified, VerifyMissing);
    assert forall r :: r in reasons ==> (stray != [] && r == first) || (nondraft != [] && r == second) || (!verified && r == VerifyMissing);
    assert stray != [] ==> first in reasons && first.PathGuardViolation?;
    assert nondraft != [] ==> second in reasons && second.NondraftSpec?;
  }

  lemma EmptyExactly<T(!new)>(test: T -> bool, xs: seq<T>)
    ensures Select(test, xs) == [] <==> forall x :: x in xs ==> !test(x)
  {
    if Select(test, xs) != [] {
      assert Select(test, xs)[0] in Select(test, xs);
    } else {
      SelectedNothing(test, xs);
    }
  }

  /** The fix spec the loop writes itself, forced to a draft, never holds up the task that proposes it, as long as it
      parses. */
  lemma ForcedDraftMayLand(own: string, specAt: string -> Result<Spec.TaskSpec, ()>, f: string, text: string)
    requires f != own && specAt(f) == Spec.ParseSpec(Spec.ForceDraft(text))
    ensures MayLand(own, specAt, f) <==> Spec.ParseSpec(Spec.ForceDraft(text)).Success?
  {
    Spec.ForceDraftNeverRuns(text);
  }
}
