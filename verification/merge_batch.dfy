/** A batch of the merge authority: what may happen to main while the ready branches are judged one after the other. */
module MergeBatch {
  import opened Wrappers
  import opened Text
  import opened Glob
  import opened Policy
  import opened Decision
  import opened MergeEngine
  import MergeCheck

  type Tree = map<string, string>

  /** The deterministic part of git and of the policy loader: the merge of a commit into a tree (None: a conflict), whether there
      is nothing to merge, the policy a tree carries (None: it cannot be loaded), and the text of an advisory record. */
  datatype Git = Git(
    merge: (Tree, string) -> Option<Tree>, upToDate: (Tree, string) -> bool, policyOf: Tree -> Option<TargetPolicy>,
    render: (string, seq<Objection>) -> string)

  /** `attests` is the injected check of a branch's artifacts and policy; its exit code 0 is true. */
  datatype Settings = Settings(
    git: Git, attests: (TargetPolicy, Job) -> bool, dryRun: bool, advisoryMode: bool, infra: seq<string>)

  /** Where processing a branch raises something unexpected, or where the commit of a prepared merge fails. */
  datatype Fault = NoFault | AtVerify | AtConfirm | AtMerge | AtCommit

  /** One ready branch and everything the outside will answer while it is judged: the container run on a base and a merged tree,
      the reviewers, and the person asked to confirm. */
  datatype Job = Job(
    task: string, sha: string, local: bool, branch: MergeCheck.Branch, recordPath: string, container: (Tree, Tree) -> int,
    report: Report, panel: seq<Answer>, rw2: Answer, confirms: bool, fault: Fault)

  // --- Gathering the gates ----------------------------------------------------------------------

  predicate Under(path: string, dir: string) {
    path == dir || StartsWith(path, dir + "/")
  }

  predicate Restored(infra: seq<string>, path: string) {
    exists d :: d in infra && Under(path, d)
  }

  function RestoredInfraPaths(infra: seq<string>, files: seq<string>): seq<string> {
    Select(f => Restored(infra, f), files)
  }

  /** The path is that directory or file itself, or something below it. */
  ghost predicate Within(path: string, dir: string) {
    path == dir || exists rest: string :: path == dir + "/" + rest
  }

  lemma UnderExactly(path: string, dir: string)
    ensures Under(path, dir) <==> Within(path, dir)
  {
    if StartsWith(path, dir + "/") {
      var rest := path[|dir| + 1..];
      assert path == dir + "/" + rest;
    }
  }

  /** Of the gate's own infrastructure, the diff holds none. */
  ghost predicate SparesInfra(infra: seq<string>, files: seq<string>) {
    forall f, d :: f in files && d in infra ==> !Within(f, d)
  }

  /** The reported paths are those of the diff that are one of the infrastructure paths or lie below one, and nothing else. */
  lemma RestoredExactly(infra: seq<string>, files: seq<string>)
    ensures forall f :: f in RestoredInfraPaths(infra, files) <==> f in files && exists d :: d in infra && Within(f, d)
    ensures RestoredInfraPaths(infra, files) == [] <==> SparesInfra(infra, files)
  {
    forall f, d ensures Under(f, d) <==> Within(f, d) {
      UnderExactly(f, d);
    }
    assert forall f :: Restored(infra, f) <==> exists d :: d in infra && Within(f, d);
    EmptyExactly((f: string) => Restored(infra, f), files);
  }

  /** A neighbour whose name merely begins like an infrastructure path is not below it. */
  lemma NeighbourIsNotWithin(dir: string, c: char, rest: string)
    requires c != '/'
    ensures !Within(dir + [c] + rest, dir)
  {
    assert (dir + [c] + rest)[|dir|] == c;
    assert forall other: string :: (dir + "/" + other)[|dir|] == '/';
  }

  predicate Attested(p: TargetPolicy, job: Job) {
    if job.local then MergeCheck.LocalStops(p, job.branch) == [] else MergeCheck.Checked(p, job.branch).Success?
  }

  /** The checks the tool really wires in. */
  ghost predicate Wired(s: Settings) {
    forall p, job {:trigger s.attests(p, job)} :: s.attests(p, job) <==> Attested(p, job)
  }

  const CONFLICT := Binding(false, false, ["branch does not merge cleanly into current main"])

  /** The deterministic gate, on the branch merged into the current main on trial. */
  function TrialRun(s: Settings, base: Tree, job: Job): Binding {
    match s.git.merge(base, job.sha)
    case None => CONFLICT
    case Some(merged) => Parsed(job.container(base, merged), job.report)
  }

  function Gathered(s: Settings, base: Tree, job: Job): Option<GateResults> {
    if job.fault == AtVerify || s.git.policyOf(base).None? then None
    else
      var p := s.git.policyOf(base).value;
      var blast := Classify(p, job.branch.files);
      Some(GateResults(
        blast, s.attests(p, job), TrialRun(s, base, job), if blast != L1 then AllBlockers(job.panel) else [],
        if blast == L2 then Some(Blockers(job.rw2)) else None, RestoredInfraPaths(s.infra, job.branch.files)))
  }

  // --- Landing ----------------------------------------------------------------------------------

  datatype MergeResult = Landed(tree: Tree) | NotApplied | Unprepared | Raised

  /** What the mutating boundary makes of one request. */
  function Attempt(s: Settings, base: Tree, job: Job, advisory: seq<Objection>): MergeResult {
    if job.sha == "" || job.fault == AtMerge then Raised
    else match s.git.merge(base, job.sha)
      case None => NotApplied
      case Some(merged) =>
        if s.git.upToDate(base, job.sha) then NotApplied
        else if advisory != [] && job.recordPath in merged then Unprepared
        else if job.fault == AtCommit then Unprepared
        else Landed(if advisory == [] then merged else merged[job.recordPath := s.git.render(job.task, advisory)])
  }

  // --- Judging ----------------------------------------------------------------------------------

  const FAILURE := MergeVerdict(false, Broken, [EngineFailure], [])

  predicate Consults(s: Settings, v: MergeVerdict) {
    v.kind == RiskDecision || (v.merged && !s.dryRun)
  }

  function Answered(s: Settings, v: MergeVerdict, confirms: bool): MergeVerdict {
    var asked :=
      if !v.merged && v.kind == RiskDecision && confirms then v.(merged := true)
      else if v.merged && !s.dryRun && !confirms then MergeVerdict(false, Declined, [NotConfirmed], [])
      else v;
    if asked.merged && s.dryRun then MergeVerdict(false, DryRun, [WouldMerge] + asked.advisory, asked.advisory) else asked
  }

  function Executed(v: MergeVerdict, r: MergeResult): (MergeVerdict, Option<Tree>) {
    match r
    case Landed(t) => (v, Some(t))
    case NotApplied => (MergeVerdict(false, Broken, [NoLongerApplies], []), None)
    case Unprepared => (MergeVerdict(false, Broken, [PreparationFailed], []), None)
    case Raised => (FAILURE, None)
  }

  /** The verdict on one branch, and the tree it lands, if any. */
  function Judged(s: Settings, base: Tree, job: Job): (MergeVerdict, Option<Tree>) {
    match Gathered(s, base, job)
    case None => (FAILURE, None)
    case Some(g) => JudgedOn(s, base, job, VerdictOn(g, s.advisoryMode))
  }

  /** What becomes of the decision. */
  function JudgedOn(s: Settings, base: Tree, job: Job, v: MergeVerdict): (MergeVerdict, Option<Tree>) {
    if Consults(s, v) && job.fault == AtConfirm then (FAILURE, None)
    else
      var answer := Answered(s, v, job.confirms);
      if answer.merged then Executed(answer, Attempt(s, base, job, answer.advisory)) else (answer, None)
  }

  function Last(main: seq<Tree>): Tree
    requires main != []
  {
    main[|main| - 1]
  }

  function Added(main: seq<Tree>, t: Option<Tree>): seq<Tree> {
    if t.Some? then main + [t.value] else main
  }

  type Judge = (Tree, Job) -> (MergeVerdict, Option<Tree>)

  function JudgeUnder(s: Settings): Judge {
    (base, job) => Judged(s, base, job)
  }

  /** Main and the verdicts after a batch, each branch judged against the main of its turn. */
  function Batch(judge: Judge, main: seq<Tree>, jobs: seq<Job>): (r: (seq<Tree>, seq<MergeVerdict>))
    requires main != []
    ensures |r.0| >= |main| && |r.1| == |jobs|
  {
    if jobs == [] then (main, [])
    else
      var before := Batch(judge, main, jobs[..|jobs| - 1]);
      var judged := judge(Last(before.0), jobs[|jobs| - 1]);
      (Added(before.0, judged.1), before.1 + [judged.0])
  }

  class LocalMergeEngine {
    /** The commits of the local main branch, oldest first, as trees. */
    var main: seq<Tree>
    /** A merge that is prepared and not committed. */
    var staged: Option<Tree>
    const settings: Settings

    ghost predicate Valid()
      reads this
    {
      main != [] && staged == None && Wired(settings)
    }

    constructor (tip: Tree, settings: Settings)
      requires Wired(settings)
      ensures Valid() && main == [tip] && this.settings == settings
    {
      main, staged := [tip], None;
      this.settings := settings;
    }

    /** The one of the two checks that applies. */
    method Attest(p: TargetPolicy, job: Job) returns (passed: bool)
      requires Wired(settings)
      ensures passed == settings.attests(p, job)
    {
      assert settings.attests(p, job) == Attested(p, job);
      if job.local {
        var stops := MergeCheck.CheckLocalFix(p, job.branch);
        passed := stops == [];
      } else {
        var code := MergeCheck.Check(p, job.branch);
        passed := code.Success?;
      }
    }

    method GatherGates(job: Job) returns (g: Option<GateResults>)
      requires Valid()
      ensures g == Gathered(settings, Last(main), job)
      ensures g.Some? ==> forall f :: f in g.value.overridden <==> f in job.branch.files && exists d :: d in settings.infra && Within(f, d)
    {
      RestoredExactly(settings.infra, job.branch.files);
      var base := Last(main);
      if job.fault == AtVerify {
        return None;
      }
      match settings.git.policyOf(base) {
        case None => return None;
        case Some(p) =>
          var attested := Attest(p, job);
          var blast := Classify(p, job.branch.files);
          var binding := CONFLICT;
          match settings.git.merge(base, job.sha) {
            case None =>
            case Some(merged) => binding := ParseBindingOutput(job.container(base, merged), job.report);
          }
          var security := [];
          var rw2 := None;
          if blast == L2 || blast == L3 {
            security := RunSecurityPanel(job.panel);
          }
          if blast == L2 {
            rw2 := Some(Blockers(job.rw2));
          }
          return Some(GateResults(blast, attested, binding, security, rw2, RestoredInfraPaths(settings.infra, job.branch.files)));
      }
    }

    /** Stages the merge of the verified commit, adds the advisory record, and commits both at once or not at all. */
    method MergeBranch(job: Job, advisory: seq<Objection>) returns (r: MergeResult)
      requires Valid()
      modifies this
      ensures Valid() && r == Attempt(settings, Last(old(main)), job, advisory)
      ensures main == Added(old(main), if r.Landed? then Some(r.tree) else None)
    {
      var base := Last(main);
      if job.sha == "" || job.fault == AtMerge {
        return Raised;
      }
      staged := settings.git.merge(base, job.sha);
      if staged == None {
        return NotApplied;
      }
      if settings.git.upToDate(base, job.sha) {
        staged := None;
        return NotApplied;
      }
      if advisory != [] {
        if job.recordPath in staged.value {
          staged := None;
          return Unprepared;
        }
        staged := Some(staged.value[job.recordPath := settings.git.render(job.task, advisory)]);
      }
      if job.fault == AtCommit {
        staged := None;
        return Unprepared;
      }
      main := main + [staged.value];
      r := Landed(staged.value);
      staged := None;
    }

    method Judge(job: Job) returns (v: MergeVerdict)
      requires Valid()
      modifies this
      ensures Valid() && v == Judged(settings, Last(old(main)), job).0
      ensures main == Added(old(main), Judged(settings, Last(old(main)), job).1)
    {
      var g := GatherGates(job);
      if g == None {
        return FAILURE;
      }
      v := Decide(g.value, settings.advisoryMode);
      if Consults(settings, v) && job.fault == AtConfirm {
        return FAILURE;
      }
      if !v.merged && v.kind == RiskDecision {
        if job.confirms {
          v := v.(merged := true);
        }
      } else if v.merged && !settings.dryRun && !job.confirms {
        v := MergeVerdict(false, Declined, [NotConfirmed], []);
      }
      if v.merged && settings.dryRun {
        v := MergeVerdict(false, DryRun, [WouldMerge] + v.advisory, v.advisory);
      }
      if v.merged {
        var r := MergeBranch(job, v.advisory);
        match r {
          case Landed(_) =>
          case NotApplied => v := MergeVerdict(false, Broken, [NoLongerApplies], []);
          case Unprepared => v := MergeVerdict(false, Broken, [PreparationFailed], []);
          case Raised => v := FAILURE;
        }
      }
    }

    /** The same for one branch alone: it lands, under all its conditions, exactly if its verdict reads merged. */
    method JudgeOne(job: Job) returns (v: MergeVerdict)
      requires Valid()
      modifies this
      ensures Valid() && v == Judged(settings, Last(old(main)), job).0
      ensures main == Added(old(main), Judged(settings, Last(old(main)), job).1)
      ensures if v.merged then main == old(main) + [Last(main)] && Lands(settings, Last(old(main)), job, Last(main)) else main == old(main)
      ensures !v.merged ==> HoldSays(settings, Last(old(main)), job, v)
    {
      JudgedLands(settings, Last(main), job);
      HeldSays(settings, Last(main), job);
      v := Judge(job);
    }

    method Run(jobs: seq<Job>) returns (results: seq<MergeVerdict>)
      requires Valid()
      modifies this
      ensures Valid() && (main, results) == Batch(JudgeUnder(settings), old(main), jobs)
    {
      results := [];
      for i := 0 to |jobs|
        invariant Valid() && (main, results) == Batch(JudgeUnder(settings), old(main), jobs[..i])
      {
        assert jobs[..i + 1][..i] == jobs[..i];
        var v := Judge(jobs[i]);
        results := results + [v];
      }
      assert jobs[..|jobs|] == jobs;
    }
  }

  // --- What main may contain --------------------------------------------------------------------

  /** What the reviewers say against the branch, under the policy of the base. */
  function Findings(p: TargetPolicy, job: Job): seq<Objection> {
    var blast := Classify(p, job.branch.files);
    var security := if blast != L1 then AllBlockers(job.panel) else [];
    var rw2 := if blast == L2 then Blockers(job.rw2) else [];
    Raise(security != [], SecurityBlockers(FirstFive(security))) + Raise(rw2 != [], Rw2Blockers(FirstFive(rw2)))
  }

  /** That a tree is the trial merge of the verified commit into the base, with nothing added but the record of what was waived. */
  ghost predicate IsTrialMerge(s: Settings, base: Tree, job: Job, merged: Tree, t: Tree) {
    s.git.merge(base, job.sha) == Some(merged) && !s.git.upToDate(base, job.sha) && s.git.policyOf(base).Some? &&
    var findings := Findings(s.git.policyOf(base).value, job);
    if findings == [] then t == merged
    else s.advisoryMode && job.recordPath !in merged && t == merged[job.recordPath := s.git.render(job.task, findings)]
  }

  /** Everything that has to hold for a branch to land as the tree t. */
  ghost predicate Lands(s: Settings, base: Tree, job: Job, t: Tree) {
    !s.dryRun && job.confirms && job.sha != "" && job.fault == NoFault && s.git.policyOf(base).Some? &&
    s.attests(s.git.policyOf(base).value, job) && SparesInfra(s.infra, job.branch.files) &&
    exists merged :: IsTrialMerge(s, base, job, merged, t) && job.container(base, merged) == 0
  }

  lemma GatheredMeans(s: Settings, base: Tree, job: Job)
    requires Gathered(s, base, job).Some?
    ensures var g := Gathered(s, base, job).value;
            Judgment(g) == Findings(s.git.policyOf(base).value, job) &&
            (Verified(g) <==> s.attests(s.git.policyOf(base).value, job) && SparesInfra(s.infra, job.branch.files) &&
                              s.git.merge(base, job.sha).Some? && job.container(base, s.git.merge(base, job.sha).value) == 0)
  {
    RestoredExactly(s.infra, job.branch.files);
    if s.git.merge(base, job.sha).Some? {
      GreenIsExitZero(job.container(base, s.git.merge(base, job.sha).value), job.report);
    }
  }

  lemma MergedExactly(s: Settings, base: Tree, job: Job, v: MergeVerdict)
    ensures JudgedOn(s, base, job, v).0.merged <==> JudgedOn(s, base, job, v).1.Some?
  {
  }

  /** A verdict reads as merged exactly when a tree landed. */
  lemma ReportTellsTheTruth(s: Settings, base: Tree, job: Job)
    ensures Judged(s, base, job).0.merged <==> Judged(s, base, job).1.Some?
  {
    match Gathered(s, base, job)
    case None =>
    case Some(g) => MergedExactly(s, base, job, VerdictOn(g, s.advisoryMode));
  }

  /** Getting past the decision and the question: confirmed, no dry run, and every gate as the mode demands. */
  lemma AnsweredExactly(s: Settings, g: GateResults, confirms: bool)
    ensures var answer := Answered(s, VerdictOn(g, s.advisoryMode), confirms);
            (answer.merged <==> !s.dryRun && confirms && Verified(g) && (s.advisoryMode || Judgment(g) == [])) &&
            (answer.merged ==> answer.advisory == Judgment(g))
  {
    MayLandExactly(g, s.advisoryMode);
  }

  lemma AttemptExactly(s: Settings, base: Tree, job: Job, p: TargetPolicy, t: Tree)
    requires s.git.policyOf(base) == Some(p) && (s.advisoryMode || Findings(p, job) == [])
    ensures Attempt(s, base, job, Findings(p, job)) == Landed(t) <==>
            job.sha != "" && job.fault != AtMerge && job.fault != AtCommit && s.git.merge(base, job.sha).Some? &&
            IsTrialMerge(s, base, job, s.git.merge(base, job.sha).value, t)
  {
  }

  /** A tree lands exactly when everything that has to hold does: no dry run, confirmed, at the verified sha, attested, no part of
      the gate's own infrastructure touched, and the trial merge of that sha into this very base ran green in the container. */
  lemma LandsExactly(s: Settings, base: Tree, job: Job, t: Tree)
    ensures Judged(s, base, job).1 == Some(t) <==> Lands(s, base, job, t)
  {
    if job.fault != AtVerify && s.git.policyOf(base).Some? {
      GatheredMeans(s, base, job);
      LandsOnGates(s, base, job, s.git.policyOf(base).value, Gathered(s, base, job).value, t);
      LandsMeans(s, base, job, s.git.policyOf(base).value, t);
    }
  }

  lemma JudgedExactly(s: Settings, base: Tree, job: Job, v: MergeVerdict, t: Tree)
    ensures var answer := Answered(s, v, job.confirms);
            JudgedOn(s, base, job, v).1 == Some(t) <==>
            !(Consults(s, v) && job.fault == AtConfirm) && answer.merged && Attempt(s, base, job, answer.advisory) == Landed(t)
  {
  }

  /** What a landing takes beside the gates no mode waives. */
  ghost predicate Goes(s: Settings, base: Tree, job: Job, t: Tree) {
    !s.dryRun && job.confirms && job.sha != "" && job.fault == NoFault && s.git.merge(base, job.sha).Some? &&
    IsTrialMerge(s, base, job, s.git.merge(base, job.sha).value, t)
  }

  lemma LandsOnGates(s: Settings, base: Tree, job: Job, p: TargetPolicy, g: GateResults, t: Tree)
    requires s.git.policyOf(base) == Some(p) && job.fault != AtVerify && Judgment(g) == Findings(p, job)
    ensures JudgedOn(s, base, job, VerdictOn(g, s.advisoryMode)).1 == Some(t) <==> Verified(g) && Goes(s, base, job, t)
  {
    var v := VerdictOn(g, s.advisoryMode);
    AnsweredExactly(s, g, job.confirms);
    MayLandExactly(g, s.advisoryMode);
    JudgedExactly(s, base, job, v, t);
    if s.advisoryMode || Findings(p, job) == [] {
      AttemptExactly(s, base, job, p, t);
    }
  }

  lemma LandsMeans(s: Settings, base: Tree, job: Job, p: TargetPolicy, t: Tree)
    requires s.git.policyOf(base) == Some(p)
    ensures Lands(s, base, job, t) <==>
            s.attests(p, job) && SparesInfra(s.infra, job.branch.files) && Goes(s, base, job, t) &&
            job.container(base, s.git.merge(base, job.sha).value) == 0
  {
  }

  function Merges(verdicts: seq<MergeVerdict>): nat {
    if verdicts == [] then 0 else Merges(verdicts[..|verdicts| - 1]) + (if verdicts[|verdicts| - 1].merged then 1 else 0)
  }

  /** That a job may take a base to a tree. */
  type Landing = (Tree, Job, Tree) -> bool

  ghost function LandingUnder(s: Settings): Landing {
    (base, job, t) => Lands(s, base, job, t)
  }

  /** Branch j, if its verdict reads merged, is the next commit after those of the branches before it, and it was landed on the main
      of that moment under all its conditions. */
  ghost predicate LandedInTurn(lands: Landing, start: nat, main: seq<Tree>, verdicts: seq<MergeVerdict>, jobs: seq<Job>, j: nat)
    requires start > 0 && j < |jobs| == |verdicts|
  {
    var at := start + Merges(verdicts[..j]);
    verdicts[j].merged ==> at < |main| && lands(main[at - 1], jobs[j], main[at])
  }

  lemma LandedStays(lands: Landing, start: nat, main: seq<Tree>, verdicts: seq<MergeVerdict>, jobs: seq<Job>, j: nat,
                    main': seq<Tree>, v: MergeVerdict, job: Job)
    requires start > 0 && j < |jobs| == |verdicts| && LandedInTurn(lands, start, main, verdicts, jobs, j) && main <= main'
    ensures LandedInTurn(lands, start, main', verdicts + [v], jobs + [job], j)
  {
    assert (verdicts + [v])[..j] == verdicts[..j];
  }

  lemma LandedLast(lands: Landing, start: nat, main: seq<Tree>, verdicts: seq<MergeVerdict>, jobs: seq<Job>, job: Job,
                   v: MergeVerdict, landed: Option<Tree>)
    requires start > 0 && |jobs| == |verdicts| && |main| == start + Merges(verdicts)
    requires (v.merged <==> landed.Some?) && (landed.Some? ==> lands(Last(main), job, landed.value))
    ensures LandedInTurn(lands, start, Added(main, landed), verdicts + [v], jobs + [job], |jobs|)
  {
    assert (verdicts + [v])[..|jobs|] == verdicts;
  }

  lemma MergesSnoc(verdicts: seq<MergeVerdict>, v: MergeVerdict)
    ensures Merges(verdicts + [v]) == Merges(verdicts) + if v.merged then 1 else 0
  {
    assert (verdicts + [v])[..|verdicts|] == verdicts;
  }

  /** Nothing of the old main is lost or changed, and the merged verdicts and the new commits are one and the same series, each
      landed in turn. */
  ghost predicate Sound(lands: Landing, start: seq<Tree>, main: seq<Tree>, verdicts: seq<MergeVerdict>, jobs: seq<Job>) {
    start != [] && |jobs| == |verdicts| && start <= main && |main| == |start| + Merges(verdicts) &&
    forall j: nat :: j < |jobs| ==> LandedInTurn(lands, |start|, main, verdicts, jobs, j)
  }

  lemma JudgingKeepsSound(lands: Landing, start: seq<Tree>, main: seq<Tree>, verdicts: seq<MergeVerdict>, jobs: seq<Job>, job: Job,
                          v: MergeVerdict, landed: Option<Tree>)
    requires Sound(lands, start, main, verdicts, jobs)
    requires (v.merged <==> landed.Some?) && (landed.Some? ==> lands(Last(main), job, landed.value))
    ensures Sound(lands, start, Added(main, landed), verdicts + [v], jobs + [job])
  {
    MergesSnoc(verdicts, v);
    LandedLast(lands, |start|, main, verdicts, jobs, job, v, landed);
    forall j: nat | j < |jobs| ensures LandedInTurn(lands, |start|, Added(main, landed), verdicts + [v], jobs + [job], j) {
      LandedStays(lands, |start|, main, verdicts, jobs, j, Added(main, landed), v, job);
    }
  }

  /** The gates let the branch through, as the mode demands. */
  ghost predicate GatesPass(s: Settings, base: Tree, job: Job) {
    job.fault != AtVerify && s.git.policyOf(base).Some? && s.attests(s.git.policyOf(base).value, job) && SparesInfra(s.infra, job.branch.files) &&
    s.git.merge(base, job.sha).Some? && job.container(base, s.git.merge(base, job.sha).value) == 0 &&
    (s.advisoryMode || Findings(s.git.policyOf(base).value, job) == [])
  }

  predicate IsSensitive(s: Settings, base: Tree, job: Job) {
    s.git.policyOf(base).Some? && Classify(s.git.policyOf(base).value, job.branch.files) == L3
  }

  /** Past the gates, confirmed, and no dry run: the merge is attempted. */
  ghost predicate Sent(s: Settings, base: Tree, job: Job) {
    GatesPass(s, base, job) && !s.dryRun && job.confirms && job.fault != AtConfirm
  }

  /** Why a branch that does not land is held: nobody confirmed it, it is a dry run, the merge no longer applies or could not be
      prepared, or something failed on the way. */
  ghost predicate HoldSays(s: Settings, base: Tree, job: Job, v: MergeVerdict) {
    var pass, sensitive, asked := GatesPass(s, base, job), IsSensitive(s, base, job), job.fault != AtConfirm;
    var tried := Sent(s, base, job) && job.sha != "" && job.fault != AtMerge;
    (v.kind == RiskDecision <==> pass && sensitive && !job.confirms && asked) &&
    (v.kind == Declined <==> pass && !sensitive && !s.dryRun && !job.confirms && asked) &&
    (v.kind == DryRun <==> pass && s.dryRun && (sensitive ==> job.confirms && asked)) &&
    (NoLongerApplies in v.reasons <==> tried && s.git.upToDate(base, job.sha)) &&
    (PreparationFailed in v.reasons <==> tried && !s.git.upToDate(base, job.sha) && (job.fault == AtCommit || RecordClashes(s, base, job))) &&
    (EngineFailure in v.reasons <==>
      job.fault == AtVerify || s.git.policyOf(base).None? || (pass && (sensitive || !s.dryRun) && !asked) ||
      (Sent(s, base, job) && (job.sha == "" || job.fault == AtMerge)))
  }

  /** There is something to record, and a file where the record goes. */
  ghost predicate RecordClashes(s: Settings, base: Tree, job: Job) {
    s.git.policyOf(base).Some? && Findings(s.git.policyOf(base).value, job) != [] && s.git.merge(base, job.sha).Some? &&
    job.recordPath in s.git.merge(base, job.sha).value
  }

  /** None of the reasons a verdict is only given after the decision. */
  ghost predicate FromGates(os: seq<Objection>) {
    forall o :: o in os ==> !o.NotConfirmed? && !o.WouldMerge? && !o.PreparationFailed? && !o.NoLongerApplies? && !o.EngineFailure?
  }

  /** A decision that fits the branch. */
  ghost predicate Fitting(s: Settings, base: Tree, job: Job, v: MergeVerdict) {
    FromGates(v.reasons) && FromGates(v.advisory) &&
    if GatesPass(s, base, job) then
      s.git.policyOf(base).Some? && v.advisory == Findings(s.git.policyOf(base).value, job) && v.merged == !IsSensitive(s, base, job) &&
      v.kind == if IsSensitive(s, base, job) then RiskDecision else AutoMergeKind
    else v.kind == Broken && !v.merged
  }

  lemma VerdictFits(s: Settings, base: Tree, job: Job, p: TargetPolicy, g: GateResults)
    requires s.git.policyOf(base) == Some(p) && Gathered(s, base, job) == Some(g)
    ensures Fitting(s, base, job, VerdictOn(g, s.advisoryMode))
  {
    GatheredMeans(s, base, job);
    MayLandExactly(g, s.advisoryMode);
    VerdictFromGates(g, s.advisoryMode);
    assert g.blast == Classify(p, job.branch.files);
    assert GatesPass(s, base, job) <==> Verified(g) && (s.advisoryMode || Judgment(g) == []);
  }

  lemma VerdictFromGates(g: GateResults, advisoryMode: bool)
    ensures FromGates(VerdictOn(g, advisoryMode).reasons) && FromGates(VerdictOn(g, advisoryMode).advisory)
  {
    VerdictObjects(g, advisoryMode);
    forall o ensures o in Judgment(g) ==> o.SecurityBlockers? || o.Rw2Blockers? {
      JudgmentStands(g, o);
    }
  }

  lemma UnaskedHolds(s: Settings, base: Tree, job: Job, v: MergeVerdict)
    requires job.fault != AtVerify && s.git.policyOf(base).Some? && Fitting(s, base, job, v) && !Sent(s, base, job)
    ensures !JudgedOn(s, base, job, v).0.merged && HoldSays(s, base, job, JudgedOn(s, base, job, v).0)
  {
    if Consults(s, v) && job.fault == AtConfirm {
      assert GatesPass(s, base, job);
    } else {
      var answer := Answered(s, v, job.confirms);
      assert !answer.merged;
      assert EngineFailure !in answer.reasons && NoLongerApplies !in answer.reasons && PreparationFailed !in answer.reasons;
    }
  }

  lemma SentHolds(s: Settings, base: Tree, job: Job, v: MergeVerdict)
    requires Fitting(s, base, job, v) && Sent(s, base, job)
    ensures var held := JudgedOn(s, base, job, v).0; !held.merged ==> HoldSays(s, base, job, held)
  {
    var answer := Answered(s, v, job.confirms);
    assert answer.merged && answer.advisory == v.advisory;
    var r := Attempt(s, base, job, v.advisory);
    assert r.Raised? <==> job.sha == "" || job.fault == AtMerge;
  }

  lemma HeldOnGates(s: Settings, base: Tree, job: Job, p: TargetPolicy, g: GateResults)
    requires s.git.policyOf(base) == Some(p) && Gathered(s, base, job) == Some(g)
    ensures var v := JudgedOn(s, base, job, VerdictOn(g, s.advisoryMode)).0; !v.merged ==> HoldSays(s, base, job, v)
  {
    VerdictFits(s, base, job, p, g);
    if Sent(s, base, job) {
      SentHolds(s, base, job, VerdictOn(g, s.advisoryMode));
    } else {
      UnaskedHolds(s, base, job, VerdictOn(g, s.advisoryMode));
    }
  }

  /** A verdict that is not a merge says why. */
  lemma HeldSays(s: Settings, base: Tree, job: Job)
    ensures !Judged(s, base, job).0.merged ==> HoldSays(s, base, job, Judged(s, base, job).0)
  {
    match Gathered(s, base, job)
    case None =>
    case Some(g) => HeldOnGates(s, base, job, s.git.policyOf(base).value, g);
  }

  lemma JudgedLands(s: Settings, base: Tree, job: Job)
    ensures var judged := Judged(s, base, job);
            (judged.0.merged <==> judged.1.Some?) && (judged.1.Some? ==> LandingUnder(s)(base, job, judged.1.value))
  {
    ReportTellsTheTruth(s, base, job);
    if Judged(s, base, job).1.Some? {
      LandsExactly(s, base, job, Judged(s, base, job).1.value);
    }
  }

  /** A judge says merged exactly when it lands a tree, and lands only what may land. */
  ghost predicate Fits(judge: Judge, lands: Landing) {
    forall base, job {:trigger judge(base, job)} ::
      (judge(base, job).0.merged <==> judge(base, job).1.Some?) &&
      (judge(base, job).1.Some? ==> lands(base, job, judge(base, job).1.value))
  }

  lemma {:induction false} BatchIsSound(judge: Judge, lands: Landing, main: seq<Tree>, jobs: seq<Job>)
    requires main != [] && Fits(judge, lands)
    ensures Sound(lands, main, Batch(judge, main, jobs).0, Batch(judge, main, jobs).1, jobs)
  {
    if jobs != [] {
      var n := |jobs| - 1;
      var before := Batch(judge, main, jobs[..n]);
      var judged := judge(Last(before.0), jobs[n]);
      BatchIsSound(judge, lands, main, jobs[..n]);
      JudgingKeepsSound(lands, main, before.0, before.1, jobs[..n], jobs[n], judged.0, judged.1);
      assert jobs[..n] + [jobs[n]] == jobs;
    }
  }

  /** Every batch is sound, whatever the branches, the reviewers, the container and the person asked do. */
  lemma MainStaysGreen(s: Settings, main: seq<Tree>, jobs: seq<Job>)
    requires main != []
    ensures var r := Batch(JudgeUnder(s), main, jobs); Sound(LandingUnder(s), main, r.0, r.1, jobs)
  {
    forall base, job
      ensures (JudgeUnder(s)(base, job).0.merged <==> JudgeUnder(s)(base, job).1.Some?) &&
              (JudgeUnder(s)(base, job).1.Some? ==> LandingUnder(s)(base, job, JudgeUnder(s)(base, job).1.value))
    {
      JudgedLands(s, base, job);
    }
    BatchIsSound(JudgeUnder(s), LandingUnder(s), main, jobs);
  }

  // --- What follows for single branches ---------------------------------------------------------

  /** A branch whose own honest record says stop is never merged unasked, in either mode: it is a sensitive change. */
  lemma StopNeverAutoMerges(s: Settings, base: Tree, job: Job, p: TargetPolicy, g: GateResults, mode: bool)
    requires s.git.policyOf(base) == Some(p) && Gathered(s, base, job) == Some(g)
    ensures MergeCheck.Checked(p, job.branch) == Success(StopBeforeMerge) ==> g.blast == L3 && !VerdictOn(g, mode).merged
  {
    if MergeCheck.Checked(p, job.branch) == Success(StopBeforeMerge) {
      MergeCheck.PassingStopIsSensitive(p, job.branch);
      MayLandExactly(g, mode);
    }
  }

  /** What lands from the server was earned there: its log opened both reviewers' gates and ended in a steady authoritative pass at the
      branch's own code, no test was deleted, no data dropped and no senior deadlocked; or it is a report that may land. */
  lemma LandedWasEarned(s: Settings, base: Tree, job: Job, t: Tree, p: TargetPolicy)
    requires Wired(s) && s.git.policyOf(base) == Some(p) && !job.local
    ensures Lands(s, base, job, t) ==>
              if MergeCheck.Reports(job.branch) then MergeCheck.ReportLands(p, job.branch)
              else MergeCheck.Earned(job.branch) && MergeCheck.NothingStands(p, job.branch)
  {
    if Lands(s, base, job, t) {
      assert s.attests(p, job);
      MergeCheck.PassExactly(p, job.branch);
    }
  }

  /** What lands as a local fix was cleared of everything but the freshness of its gates: no test was deleted, no data dropped, no senior
      deadlocked and no reviewer declared a high risk; or it is a report that may land. */
  lemma LocalLandingWasCleared(s: Settings, base: Tree, job: Job, t: Tree, p: TargetPolicy)
    requires Wired(s) && s.git.policyOf(base) == Some(p) && job.local
    ensures Lands(s, base, job, t) ==>
              if MergeCheck.Reports(job.branch) then MergeCheck.ReportLands(p, job.branch)
              else MergeCheck.NothingStands(p, job.branch) && Highest(job.branch.levels) != High
  {
    if Lands(s, base, job, t) {
      assert s.attests(p, job);
      MergeCheck.LocalFixPassesExactly(p, job.branch);
    }
  }

  /** Without the waiver, a branch that lands although a panel member objects, or did not answer, was of the kind no panel is
      asked about: every file in it is inert. */
  lemma UnreviewedIsInert(s: Settings, base: Tree, job: Job, t: Tree, p: TargetPolicy, a: Answer)
    requires s.git.policyOf(base) == Some(p) && FoldsAscii(p) && AsInertSafeGlobs(p.fold, p.safe).Success?
    requires !s.advisoryMode && a in job.panel && !Clears(a)
    ensures Lands(s, base, job, t) ==>
              Classify(p, job.branch.files) == L1 && forall f :: f in job.branch.files ==> InertPath(p.fold(f))
  {
    PanelIsClearExactly(job.panel);
    if Lands(s, base, job, t) {
      assert Findings(p, job) == [];
      if Classify(p, job.branch.files) == L1 {
        L1IsInert(p, job.branch.files);
      }
    }
  }

  /** The reviewers object exactly if a panel member does, at any weight, or the second reviewer does, at ordinary logic. */
  lemma FindingsExactly(p: TargetPolicy, job: Job)
    ensures Findings(p, job) == [] <==>
              (Classify(p, job.branch.files) != L1 ==> forall a :: a in job.panel ==> Clears(a)) &&
              (Classify(p, job.branch.files) == L2 ==> Clears(job.rw2))
  {
    PanelIsClearExactly(job.panel);
    assert Blockers(job.rw2) == [] <==> Clears(job.rw2);
  }

  /** Without the waiver nothing lands past its reviewers: a change of any weight is cleared by every panel member, and ordinary logic by
      the second reviewer too. */
  lemma LandsReviewed(s: Settings, base: Tree, job: Job, t: Tree, p: TargetPolicy)
    requires s.git.policyOf(base) == Some(p) && !s.advisoryMode
    ensures Lands(s, base, job, t) ==>
              (Classify(p, job.branch.files) != L1 ==> forall a :: a in job.panel ==> Clears(a)) &&
              (Classify(p, job.branch.files) == L2 ==> Clears(job.rw2))
  {
    FindingsExactly(p, job);
  }
}
