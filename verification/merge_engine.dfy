/** The merge authority on the trusted machine: it gathers the gates of each ready branch against the current main, decides,
    asks, and lands the verified commit. */
module MergeEngine {
  import opened Wrappers
  import opened Policy
  import opened Decision

  // --- The container's verdict ------------------------------------------------------------------

  /** `findings` are the scanner findings and the reports that stand in for them. */
  datatype Binding = Binding(testsPassed: bool, coverageOk: bool, findings: seq<string>)

  /** The diagnostic line the container printed last, as key and number; None for a value that is no number. */
  type Token = (string, Option<int>)
  type Report = Option<seq<Token>>

  predicate AllGreen(b: Binding) {
    b.testsPassed && b.coverageOk && b.findings == []
  }

  /** The last code a report gives for a key. */
  function CodeOf(tokens: seq<Token>, key: string, missing: int): int {
    if tokens == [] then missing
    else
      var t := tokens[|tokens| - 1];
      if t.0 == key then (if t.1.Some? then t.1.value else 1) else CodeOf(tokens[..|tokens| - 1], key, missing)
  }

  function ScanFinding(name: string, rc: int): seq<string> {
    if rc == 0 then [] else [name]
  }

  function Diagnosis(tokens: seq<Token>): Binding {
    Binding(
      CodeOf(tokens, "lint", 1) == 0 && CodeOf(tokens, "types", 1) == 0 && CodeOf(tokens, "tests", 1) == 0 &&
      CodeOf(tokens, "frontend", 0) == 0,
      CodeOf(tokens, "coverage", 1) == 0,
      ScanFinding("semgrep", CodeOf(tokens, "semgrep", 1)) + ScanFinding("gitleaks", CodeOf(tokens, "gitleaks", 1)))
  }

  const NO_REPORT := Binding(false, false, ["the gate did not report"])
  const CONTRADICTION := Binding(false, false, ["the exit code contradicts an all-pass report"])

  function Parsed(rc: int, report: Report): Binding {
    if rc == 0 then Binding(true, true, [])
    else if report.None? then NO_REPORT
    else if AllGreen(Diagnosis(report.value)) then CONTRADICTION
    else Diagnosis(report.value)
  }

  function Code(codes: map<string, int>, key: string, missing: int): int {
    if key in codes then codes[key] else missing
  }

  /** The dictionary a report fills: the last code of each key. */
  method LastCodes(tokens: seq<Token>) returns (codes: map<string, int>)
    ensures forall key: string, missing: int :: Code(codes, key, missing) == CodeOf(tokens, key, missing)
  {
    codes := map[];
    for i := 0 to |tokens|
      invariant forall key: string, missing: int :: Code(codes, key, missing) == CodeOf(tokens[..i], key, missing)
    {
      assert tokens[..i + 1][..i] == tokens[..i];
      codes := codes[tokens[i].0 := if tokens[i].1.Some? then tokens[i].1.value else 1];
    }
    assert tokens[..|tokens|] == tokens;
  }

  method ParseBindingOutput(rc: int, report: Report) returns (b: Binding)
    ensures b == Parsed(rc, report)
    ensures rc == 0 ==> AllGreen(b)
    ensures rc != 0 && report.None? ==> !b.testsPassed && !b.coverageOk && b.findings != []
    ensures rc != 0 && report.Some? ==> Blames(report.value, b)
  {
    if rc != 0 && report.Some? {
      ParsedBlames(rc, report.value);
    }
    if rc == 0 {
      return Binding(true, true, []);
    }
    if report.None? {
      return NO_REPORT;
    }
    var codes := LastCodes(report.value);
    var findings := ScanFinding("semgrep", Code(codes, "semgrep", 1)) + ScanFinding("gitleaks", Code(codes, "gitleaks", 1));
    var testsPassed := Code(codes, "lint", 1) == 0 && Code(codes, "types", 1) == 0 && Code(codes, "tests", 1) == 0 &&
                       Code(codes, "frontend", 0) == 0;
    var coverageOk := Code(codes, "coverage", 1) == 0;
    if testsPassed && coverageOk && findings == [] {
      return CONTRADICTION;
    }
    return Binding(testsPassed, coverageOk, findings);
  }

  /** The last token of that key is there, and says 0. */
  ghost predicate Zero(tokens: seq<Token>, key: string) {
    exists i :: 0 <= i < |tokens| && tokens[i] == (key, Some(0)) && forall j :: i < j < |tokens| ==> tokens[j].0 != key
  }

  ghost predicate Absent(tokens: seq<Token>, key: string) {
    forall i :: 0 <= i < |tokens| ==> tokens[i].0 != key
  }

  lemma {:induction false} CodeSays(tokens: seq<Token>, key: string, missing: int)
    ensures CodeOf(tokens, key, missing) == 0 <==> Zero(tokens, key) || (Absent(tokens, key) && missing == 0)
  {
    if tokens != [] {
      var init, last := tokens[..|tokens| - 1], tokens[|tokens| - 1];
      CodeSays(init, key, missing);
      CodeStep(tokens, init, last, key);
    }
  }

  lemma CodeStep(tokens: seq<Token>, init: seq<Token>, last: Token, key: string)
    requires tokens == init + [last]
    ensures Zero(tokens, key) <==> if last.0 == key then last.1 == Some(0) else Zero(init, key)
    ensures Absent(tokens, key) <==> last.0 != key && Absent(init, key)
  {
    assert tokens[|init|] == last && forall i :: 0 <= i < |init| ==> tokens[i] == init[i];
    if last.0 != key && Zero(init, key) {
      var i :| 0 <= i < |init| && init[i] == (key, Some(0)) && forall j :: i < j < |init| ==> init[j].0 != key;
      assert tokens[i] == (key, Some(0));
    }
  }

  /** What a red container run is blamed on: the suite unless lint, types, tests and - if it ran - the frontend report 0, the coverage
      and each scanner unless it reports 0; and everything if the report is missing or claims all is well. */
  ghost predicate Blames(tokens: seq<Token>, b: Binding) {
    var suite := Zero(tokens, "lint") && Zero(tokens, "types") && Zero(tokens, "tests") && (Zero(tokens, "frontend") || Absent(tokens, "frontend"));
    var coverage, scans := Zero(tokens, "coverage"), Zero(tokens, "semgrep") && Zero(tokens, "gitleaks");
    if suite && coverage && scans then !b.testsPassed && !b.coverageOk && b.findings != []
    else (b.testsPassed <==> suite) && (b.coverageOk <==> coverage) &&
         ("semgrep" in b.findings <==> !Zero(tokens, "semgrep")) && ("gitleaks" in b.findings <==> !Zero(tokens, "gitleaks")) &&
         |b.findings| == (if Zero(tokens, "semgrep") then 0 else 1) + (if Zero(tokens, "gitleaks") then 0 else 1)
  }

  lemma ScansSay(semgrep: int, gitleaks: int)
    ensures var found := ScanFinding("semgrep", semgrep) + ScanFinding("gitleaks", gitleaks);
            ("semgrep" in found <==> semgrep != 0) && ("gitleaks" in found <==> gitleaks != 0) && (found == [] <==> semgrep == 0 && gitleaks == 0) &&
            |found| == (if semgrep == 0 then 0 else 1) + (if gitleaks == 0 then 0 else 1)
  {
    assert |"semgrep"| == 7 && |"gitleaks"| == 8;
  }

  lemma ParsedBlames(rc: int, tokens: seq<Token>)
    requires rc != 0
    ensures Blames(tokens, Parsed(rc, Some(tokens)))
  {
    CodeSays(tokens, "lint", 1);
    CodeSays(tokens, "types", 1);
    CodeSays(tokens, "tests", 1);
    CodeSays(tokens, "frontend", 0);
    CodeSays(tokens, "coverage", 1);
    CodeSays(tokens, "semgrep", 1);
    CodeSays(tokens, "gitleaks", 1);
    ScansSay(CodeOf(tokens, "semgrep", 1), CodeOf(tokens, "gitleaks", 1));
  }

  /** Whatever the report claims, all is green exactly when the container exited with 0. */
  lemma GreenIsExitZero(rc: int, report: Report)
    ensures AllGreen(Parsed(rc, report)) <==> rc == 0
  {
  }

  // --- The judgment gates -----------------------------------------------------------------------

  /** A reviewer's answer: the summaries of its blockers, or why no valid verdict came back. */
  type Answer = Result<seq<string>, string>

  /** A reviewer without a valid verdict blocks. */
  function Blockers(a: Answer): seq<string> {
    match a case Success(blockers) => blockers case Failure(why) => ["no valid verdict: " + why]
  }

  function AllBlockers(panel: seq<Answer>): seq<string> {
    if panel == [] then [] else AllBlockers(panel[..|panel| - 1]) + Blockers(panel[|panel| - 1])
  }

  method RunSecurityPanel(panel: seq<Answer>) returns (blockers: seq<string>)
    ensures blockers == AllBlockers(panel)
  {
    blockers := [];
    for i := 0 to |panel|
      invariant blockers == AllBlockers(panel[..i])
    {
      assert panel[..i + 1][..i] == panel[..i];
      match panel[i] {
        case Success(found) => blockers := blockers + found;
        case Failure(why) => blockers := blockers + ["no valid verdict: " + why];
      }
    }
    assert panel[..|panel|] == panel;
  }

  predicate Clears(a: Answer) {
    a.Success? && a.value == []
  }

  /** The panel is silent exactly when every member answered, and found nothing that blocks. */
  lemma {:induction false} PanelIsClearExactly(panel: seq<Answer>)
    ensures AllBlockers(panel) == [] <==> forall a :: a in panel ==> Clears(a)
  {
    if panel != [] {
      var init, last := panel[..|panel| - 1], panel[|panel| - 1];
      PanelIsClearExactly(init);
      assert panel == init + [last];
      assert forall a :: a in panel <==> a in init || a == last;
      assert |AllBlockers(panel)| == |AllBlockers(init)| + |Blockers(last)|;
      assert Clears(last) <==> |Blockers(last)| == 0;
    }
  }

  // --- The decision -----------------------------------------------------------------------------

  datatype GateResults = GateResults(
    blast: Blast, attested: bool, binding: Binding, security: seq<string>, rw2: Option<seq<string>>, overridden: seq<string>)

  datatype Objection =
    | Unattested | TestsRed | CoverageLow | ScanFlagged(items: seq<string>) | InfraUnverified(paths: seq<string>)
    | SecurityBlockers(items: seq<string>) | Rw2Blockers(items: seq<string>)
    | SensitiveSurface | NotConfirmed | WouldMerge | PreparationFailed | NoLongerApplies | EngineFailure

  datatype Kind = AutoMergeKind | RiskDecision | Broken | Declined | DryRun

  datatype MergeVerdict = MergeVerdict(merged: bool, kind: Kind, reasons: seq<Objection>, advisory: seq<Objection>)

  function Raise(c: bool, o: Objection): seq<Objection> {
    if c then [o] else []
  }

  function Deterministic(g: GateResults): seq<Objection> {
    Raise(!g.attested, Unattested) + Raise(!g.binding.testsPassed, TestsRed) + Raise(!g.binding.coverageOk, CoverageLow) +
    Raise(g.binding.findings != [], ScanFlagged(FirstFive(g.binding.findings))) +
    Raise(g.overridden != [], InfraUnverified(g.overridden))
  }

  function Judgment(g: GateResults): seq<Objection> {
    Raise(g.security != [], SecurityBlockers(FirstFive(g.security))) +
    Raise(g.rw2.Some? && g.rw2.value != [], Rw2Blockers(FirstFive(if g.rw2.Some? then g.rw2.value else [])))
  }

  function VerdictOn(g: GateResults, advisoryMode: bool): MergeVerdict {
    var blocking := Deterministic(g) + if advisoryMode then [] else Judgment(g);
    var advisory := if advisoryMode then Judgment(g) else [];
    if blocking != [] then MergeVerdict(false, Broken, blocking, [])
    else if g.blast == L3 then MergeVerdict(false, RiskDecision, [SensitiveSurface], advisory)
    else MergeVerdict(true, AutoMergeKind, [], advisory)
  }

  method DeterministicObjections(g: GateResults) returns (deterministic: seq<Objection>)
    ensures deterministic == Deterministic(g)
  {
    deterministic := [];
    if !g.attested {
      deterministic := deterministic + [Unattested];
    }
    if !g.binding.testsPassed {
      deterministic := deterministic + [TestsRed];
    }
    if !g.binding.coverageOk {
      deterministic := deterministic + [CoverageLow];
    }
    assert deterministic ==
           Raise(!g.attested, Unattested) + Raise(!g.binding.testsPassed, TestsRed) + Raise(!g.binding.coverageOk, CoverageLow);
    if g.binding.findings != [] {
      deterministic := deterministic + [ScanFlagged(FirstFive(g.binding.findings))];
    }
    if g.overridden != [] {
      deterministic := deterministic + [InfraUnverified(g.overridden)];
    }
  }

  /** What objects to a branch: a red gate, or a reviewer who blocks and is not waived. */
  predicate Stands(g: GateResults, advisoryMode: bool, o: Objection) {
    match o
    case Unattested => !g.attested
    case TestsRed => !g.binding.testsPassed
    case CoverageLow => !g.binding.coverageOk
    case ScanFlagged(items) => g.binding.findings != [] && items == FirstFive(g.binding.findings)
    case InfraUnverified(paths) => g.overridden != [] && paths == g.overridden
    case SecurityBlockers(items) => !advisoryMode && g.security != [] && items == FirstFive(g.security)
    case Rw2Blockers(items) => !advisoryMode && g.rw2.Some? && g.rw2.value != [] && items == FirstFive(g.rw2.value)
    case _ => false
  }

  /** The reasons of a verdict: everything that objects and nothing else, and the sensitive surface where nothing does. */
  ghost predicate Objects(g: GateResults, advisoryMode: bool, v: MergeVerdict) {
    forall o :: o in v.reasons <==> if v.kind == RiskDecision then o == SensitiveSurface else Stands(g, advisoryMode, o)
  }

  lemma RaisedExactly(c: bool, o: Objection, x: Objection)
    ensures x in Raise(c, o) <==> c && x == o
  {
  }

  lemma DeterministicStands(g: GateResults, o: Objection)
    ensures o in Deterministic(g) <==> Stands(g, true, o)
  {
    RaisedExactly(!g.attested, Unattested, o);
    RaisedExactly(!g.binding.testsPassed, TestsRed, o);
    RaisedExactly(!g.binding.coverageOk, CoverageLow, o);
    RaisedExactly(g.binding.findings != [], ScanFlagged(FirstFive(g.binding.findings)), o);
    RaisedExactly(g.overridden != [], InfraUnverified(g.overridden), o);
  }

  lemma JudgmentStands(g: GateResults, o: Objection)
    ensures o in Judgment(g) <==> Stands(g, false, o) && !Stands(g, true, o)
  {
  }

  lemma WaiverDropsJudgment(g: GateResults, o: Objection)
    ensures Stands(g, true, o) ==> Stands(g, false, o)
  {
  }

  lemma VerdictObjects(g: GateResults, advisoryMode: bool)
    ensures Objects(g, advisoryMode, VerdictOn(g, advisoryMode))
  {
    forall o ensures o in VerdictOn(g, advisoryMode).reasons <==>
                     if VerdictOn(g, advisoryMode).kind == RiskDecision then o == SensitiveSurface else Stands(g, advisoryMode, o)
    {
      DeterministicStands(g, o);
      JudgmentStands(g, o);
      WaiverDropsJudgment(g, o);
    }
  }

  /** The decision on the gates. */
  method Decide(g: GateResults, advisoryMode: bool) returns (v: MergeVerdict)
    ensures v == VerdictOn(g, advisoryMode)
    ensures Objects(g, advisoryMode, v)
  {
    VerdictObjects(g, advisoryMode);
    v := Weigh(g, advisoryMode);
  }

  method Weigh(g: GateResults, advisoryMode: bool) returns (v: MergeVerdict)
    ensures v == VerdictOn(g, advisoryMode)
  {
    var deterministic := DeterministicObjections(g);
    var judgment: seq<Objection> := [];
    if g.security != [] {
      judgment := judgment + [SecurityBlockers(FirstFive(g.security))];
    }
    if g.rw2.Some? && g.rw2.value != [] {
      judgment := judgment + [Rw2Blockers(FirstFive(g.rw2.value))];
    }
    assert judgment == Judgment(g);
    var blocking := deterministic + if advisoryMode then [] else judgment;
    if blocking != [] {
      return MergeVerdict(false, Broken, blocking, []);
    }
    var advisory := if advisoryMode then judgment else [];
    if g.blast == L3 {
      return MergeVerdict(false, RiskDecision, [SensitiveSurface], advisory);
    }
    return MergeVerdict(true, AutoMergeKind, [], advisory);
  }

  /** The gates no mode can waive. */
  predicate Verified(g: GateResults) {
    g.attested && AllGreen(g.binding) && g.overridden == []
  }

  predicate Undisputed(g: GateResults) {
    g.security == [] && (g.rw2.Some? ==> g.rw2.value == [])
  }

  /** A branch may land exactly when every deterministic gate is green and no reviewer objects, unless objections are waived,
      and then they are all on the verdict; whether it may land unasked is decided by the blast radius alone. */
  lemma MayLandExactly(g: GateResults, advisoryMode: bool)
    ensures var v := VerdictOn(g, advisoryMode);
            (v.kind != Broken <==> Verified(g) && (advisoryMode || Undisputed(g))) &&
            (v.kind != Broken ==> v.advisory == Judgment(g) && (v.merged <==> g.blast != L3) && (v.kind == RiskDecision <==> g.blast == L3)) &&
            (v.kind == Broken ==> !v.merged)
    ensures Judgment(g) == [] <==> Undisputed(g)
  {
    DeterministicIsEmptyExactly(g);
    assert Judgment(g) == [] <==> Undisputed(g);
  }

  lemma DeterministicIsEmptyExactly(g: GateResults)
    ensures Deterministic(g) == [] <==> Verified(g)
  {
  }
}
