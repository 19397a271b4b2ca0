/** The two recomputations on the trusted machine: of a branch's committed decision from its own history, and of the
    stops that still stand on a fix the Director made locally. */
module MergeCheck {
  import opened Wrappers
  import opened LoopLog
  import opened Policy
  import opened Gates
  import opened Decision
  import Spec

  /** What a branch brings: two artifacts it committed (None: missing or not an object; a failure: unparseable; inside, None
      where the field is not a string), its spec, and what git and the log say about it. */
  datatype Branch = Branch(
    decision: Result<Option<Option<string>>, ()>, state: Result<Option<Option<string>>, ()>, spec: Result<Spec.TaskSpec, ()>,
    files: seq<string>, diffLines: nat, statuses: seq<(string, string)>, codeSha: string, log: Log, levels: seq<Option<string>>,
    text: string -> Option<string>, specAt: string -> Result<Spec.TaskSpec, ()>, verified: bool, taskDir: string, own: string)

  datatype Why =
    | UnparseableDecision | MissingDecision | UnparseableState | UnreadableSpec | MissingState | ShaMismatch | PolicyMismatch
    | RecomputedStop(reasons: seq<Reason>)

  function Name(v: Verdict): string {
    match v
    case AutoMerge => "auto_merge"
    case AutoMergeNotify => "auto_merge_notify"
    case StopBeforeMerge => "stop_before_merge"
  }

  /** The names on record are the three of the decision matrix, and tell the decisions apart. */
  lemma NamesSay(v: Verdict, w: Verdict)
    ensures Name(AutoMerge) == "auto_merge" && Name(AutoMergeNotify) == "auto_merge_notify" && Name(StopBeforeMerge) == "stop_before_merge"
    ensures Name(v) == Name(w) <==> v == w
  {
    assert |Name(AutoMerge)| == 10 && |Name(AutoMergeNotify)| == 17 && |Name(StopBeforeMerge)| == 17;
    assert Name(AutoMergeNotify)[0] == 'a' && Name(StopBeforeMerge)[0] == 's';
  }

  predicate Deadlocked(log: Log) {
    exists e :: e in log && Is(e, Senior) && e.outcome == Outcome.Deadlock
  }

  // --- Which stops would leak -------------------------------------------------------------------

  predicate Leaks(reasons: seq<Reason>, r: Reason) {
    !PathKind(r) && !(r == HighRisk && exists s :: s in reasons && PathKind(s))
  }

  /** The stop reasons nothing downstream brings up again. */
  function Leaking(reasons: seq<Reason>): seq<Reason> {
    Select(r => Leaks(reasons, r), reasons)
  }

  // --- The check --------------------------------------------------------------------------------

  function Recompute(p: TargetPolicy, b: Branch): Inputs {
    Inputs(b.files, b.diffLines, Highest(b.levels), Replayed(b.log, b.codeSha, true, true), Some(b.statuses), Some(b.text),
           Deadlocked(b.log), false)
  }

  function ReportRecompute(p: TargetPolicy, b: Branch): MergeDecision {
    ReportOnlyDecision(p.specPrefix, b.taskDir, b.files, b.verified, Select(Offending(p.specPrefix, b.own, b.specAt), b.files))
  }

  /** The verdict on a recomputed decision. */
  function Compared(d: MergeDecision, reportOnly: bool, committed: Option<string>): Result<Verdict, Why> {
    var leaking := if reportOnly then d.reasons else Leaking(d.reasons);
    if committed != Some(Name(d.verdict)) then Failure(PolicyMismatch)
    else if d.verdict == StopBeforeMerge && leaking != [] then Failure(RecomputedStop(leaking))
    else Success(d.verdict)
  }

  /** Why the check gives up before it recomputes anything. */
  function Barred(b: Branch): (r: Option<Why>)
    ensures r.None? ==> b.decision.Success? && b.decision.value.Some? && b.spec.Success?
  {
    if b.decision.Failure? then Some(UnparseableDecision)
    else if b.decision.value.None? then Some(MissingDecision)
    else if b.state.Failure? then Some(UnparseableState)
    else if b.spec.Failure? then Some(UnreadableSpec)
    else if Spec.ReportOnly(b.spec.value) then None
    else if b.state.value.None? then Some(MissingState)
    else if b.state.value.value != Some(b.codeSha) then Some(ShaMismatch)
    else None
  }

  /** Success stands for exit code 0. */
  function Checked(p: TargetPolicy, b: Branch): Result<Verdict, Why> {
    if Barred(b).Some? then Failure(Barred(b).value)
    else
      var reportOnly := Spec.ReportOnly(b.spec.value);
      Compared(if reportOnly then ReportRecompute(p, b) else Decided(p, Recompute(p, b)), reportOnly, b.decision.value.value)
  }

  method Check(p: TargetPolicy, b: Branch) returns (r: Result<Verdict, Why>)
    ensures r == Checked(p, b)
  {
    if b.decision.Failure? {
      return Failure(UnparseableDecision);
    }
    if b.decision.value.None? {
      return Failure(MissingDecision);
    }
    if b.state.Failure? {
      return Failure(UnparseableState);
    }
    if b.spec.Failure? {
      return Failure(UnreadableSpec);
    }
    var d: MergeDecision;
    var reportOnly := Spec.ReportOnly(b.spec.value);
    if reportOnly {
      var nondraft := NondraftReportSpecs(p.specPrefix, b.own, b.files, b.specAt);
      d := ReportOnlyDecision(p.specPrefix, b.taskDir, b.files, b.verified, nondraft);
    } else {
      if b.state.value.None? {
        return Failure(MissingState);
      }
      if b.state.value.value != Some(b.codeSha) {
        return Failure(ShaMismatch);
      }
      var gates := GateStatesFromLog(b.log, b.codeSha, true, true);
      var deadlock := exists e :: e in b.log && Is(e, Senior) && e.outcome == Outcome.Deadlock;
      var declared := DeclaredRisk(b.levels);
      d := DecideMerge(p, Inputs(b.files, b.diffLines, declared, gates, Some(b.statuses), Some(b.text), deadlock, false));
    }
    r := Compare(d, reportOnly, b.decision.value.value);
  }

  method Compare(d: MergeDecision, reportOnly: bool, committed: Option<string>) returns (r: Result<Verdict, Why>)
    ensures r == Compared(d, reportOnly, committed)
  {
    if committed != Some(Name(d.verdict)) {
      return Failure(PolicyMismatch);
    }
    if d.verdict == StopBeforeMerge {
      var leaking := if reportOnly then d.reasons else Leaking(d.reasons);
      if leaking != [] {
        return Failure(RecomputedStop(leaking));
      }
    }
    return Success(d.verdict);
  }

  // --- What a pass is worth ---------------------------------------------------------------------

  lemma NothingLeaks(reasons: seq<Reason>)
    ensures Leaking(reasons) == [] <==> forall r :: r in reasons ==> !Leaks(reasons, r)
  {
    EmptyExactly((r: Reason) => Leaks(reasons, r), reasons);
  }

  /** Of reasons in these three groups, what leaks is every gate stop and what of the rest does. */
  lemma LeakingSplits(g: seq<Reason>, path: seq<Reason>, o: seq<Reason>, all: seq<Reason>)
    requires all == g + (path + o) && (forall r :: r in g ==> GateKind(r) && Leaks(all, r)) && (forall r :: r in path ==> PathKind(r))
    requires forall r :: r in o ==> !GateKind(r) && !PathKind(r)
    ensures Leaking(all) == [] <==> g == [] && forall r :: r in o ==> !Leaks(all, r)
    ensures (forall r :: r in Leaking(all) ==> GateKind(r)) <==> forall r :: r in o ==> !Leaks(all, r)
    ensures (exists s :: s in all && PathKind(s)) <==> path != []
  {
    assert forall r :: r in all <==> r in g || r in path || r in o;
    assert forall r :: r in Leaking(all) <==> r in all && Leaks(all, r);
    NothingLeaks(all);
    assert g != [] ==> g[0] in g;
    assert path != [] ==> path[0] in path;
  }

  /** The same, for the reasons of a decision. */
  lemma ReasonsLeak(p: TargetPolicy, q: Inputs)
    ensures Leaking(Reasons(p, q)) == [] <==> GateReasons(q.gates) == [] && NothingElseLeaks(p, q)
    ensures (forall r :: r in Leaking(Reasons(p, q)) ==> GateKind(r)) <==> NothingElseLeaks(p, q)
  {
    var g, path := GateReasons(q.gates), PathReasons(p, q);
    var o := OtherReasons(Deleted(p, q), Dropped(p, q), q.deadlock, q.unclear, RiskOf(p, q));
    var all := g + (path + o);
    GateReasonsLeak(g, q.gates, all);
    PathReasonsHold(p, q);
    OtherReasonsLeak(Deleted(p, q), Dropped(p, q), q.deadlock, q.unclear, RiskOf(p, q), all);
    LeakingSplits(g, path, o, all);
    HighWithoutPaths(p, q);
  }

  /** No test and no data is dropped, no one is deadlocked, and a high risk comes with a sensitive or security path. */
  predicate NothingElseLeaks(p: TargetPolicy, q: Inputs) {
    Deleted(p, q) == [] && Dropped(p, q) == [] && !q.deadlock && !q.unclear && (Touchy(p, q.files) || q.declared != High)
  }

  lemma HighWithoutPaths(p: TargetPolicy, q: Inputs)
    ensures (RiskOf(p, q) == High ==> Touchy(p, q.files)) <==> (Touchy(p, q.files) || q.declared != High)
  {
  }

  lemma GateReasonsLeak(reasons: seq<Reason>, g: GateStates, all: seq<Reason>)
    requires reasons == GateReasons(g)
    ensures forall r :: r in reasons ==> GateKind(r) && !PathKind(r) && Leaks(all, r)
    ensures reasons != [] ==> reasons[0] in reasons
  {
  }

  lemma PathReasonsHold(p: TargetPolicy, q: Inputs)
    ensures forall r :: r in PathReasons(p, q) ==> PathKind(r)
    ensures PathReasons(p, q) != [] <==> Touchy(p, q.files)
  {
  }

  lemma OtherReasonsAre(deleted: seq<string>, dropped: seq<string>, deadlock: bool, unclear: bool, risk: Risk, r: Reason)
    ensures r in OtherReasons(deleted, dropped, deadlock, unclear, risk) <==>
            (deleted != [] && r == TestsDeleted(FirstFive(deleted))) || (dropped != [] && r == Destructive(FirstFive(dropped))) ||
            (deadlock && r == SeniorDeadlock) || (unclear && r == UnclearIntent) || (risk == High && r == HighRisk)
  {
  }

  lemma OtherReasonsLeak(deleted: seq<string>, dropped: seq<string>, deadlock: bool, unclear: bool, risk: Risk, all: seq<Reason>)
    ensures forall r :: r in OtherReasons(deleted, dropped, deadlock, unclear, risk) ==> !PathKind(r) && !GateKind(r)
    ensures (forall r :: r in OtherReasons(deleted, dropped, deadlock, unclear, risk) ==> !Leaks(all, r)) <==>
            deleted == [] && dropped == [] && !deadlock && !unclear && (risk == High ==> exists s :: s in all && PathKind(s))
  {
    forall r ensures r in OtherReasons(deleted, dropped, deadlock, unclear, risk) <==>
            (deleted != [] && r == TestsDeleted(FirstFive(deleted))) || (dropped != [] && r == Destructive(FirstFive(dropped))) ||
            (deadlock && r == SeniorDeadlock) || (unclear && r == UnclearIntent) || (risk == High && r == HighRisk)
    {
      OtherReasonsAre(deleted, dropped, deadlock, unclear, risk, r);
    }
    AllHeld(OtherReasons(deleted, dropped, deadlock, unclear, risk), FirstFive(deleted), FirstFive(dropped), deleted != [], dropped != [],
            deadlock, unclear, risk == High, all);
  }

  lemma AllHeld(o: seq<Reason>, deleted: seq<string>, dropped: seq<string>, d1: bool, d2: bool, d3: bool, d4: bool, d5: bool, all: seq<Reason>)
    requires forall r :: r in o <==>
               (d1 && r == TestsDeleted(deleted)) || (d2 && r == Destructive(dropped)) ||
               (d3 && r == SeniorDeadlock) || (d4 && r == UnclearIntent) || (d5 && r == HighRisk)
    ensures (forall r :: r in o ==> !Leaks(all, r)) <==> !d1 && !d2 && !d3 && !d4 && (d5 ==> exists s :: s in all && PathKind(s))
  {
    assert d1 ==> TestsDeleted(deleted) in o && Leaks(all, TestsDeleted(deleted));
    assert d2 ==> Destructive(dropped) in o && Leaks(all, Destructive(dropped));
    assert d3 ==> SeniorDeadlock in o && Leaks(all, SeniorDeadlock);
    assert d4 ==> UnclearIntent in o && Leaks(all, UnclearIntent);
    assert d5 ==> HighRisk in o;
  }

  /** Everything the log has to show for the branch's code. */
  ghost predicate Earned(b: Branch) {
    EarnedAt(b.log, Rw1, Approved, b.codeSha) && EarnedAt(b.log, Rw2, Go, b.codeSha) && GreenAt(b.log, b.codeSha)
  }

  /** The artifacts are there, parse, and tell the truth about the code. */
  predicate Honest(p: TargetPolicy, b: Branch) {
    Attests(b) && b.decision.value.value == Some(Name(Decided(p, Recompute(p, b)).verdict))
  }

  /** The branch's spec can be read, and is of a task that only reports. */
  predicate Reports(b: Branch) {
    b.spec.Success? && Spec.ReportOnly(b.spec.value)
  }

  /** The round was verified, and everything in the diff is the task's own artifact or a spec that may land. */
  ghost predicate ReportLands(p: TargetPolicy, b: Branch) {
    b.verified && forall f :: f in b.files ==> Reportable(p.specPrefix, b.taskDir, b.own, b.specAt, f)
  }

  /** Nothing that no later gate brings up again stands against the branch: no test was deleted, no migration drops data, no senior is
      deadlocked, and a high risk was declared only where a guarded path is touched. */
  ghost predicate NothingStands(p: TargetPolicy, b: Branch) {
    !DeletesTests(p, b.statuses) && !DropsInDiff(p, b.files, b.text) &&
    (forall e :: e in b.log ==> !(e.Step? && e.action == Senior && e.outcome == Outcome.Deadlock)) &&
    (TouchesGuarded(p, b.files) || Highest(b.levels) != High)
  }

  lemma StandsExactly(p: TargetPolicy, b: Branch)
    ensures NothingStands(p, b) <==>
            DeletedTestFiles(p, b.statuses) == [] && Select(DroppingData(p, b.text), b.files) == [] && !Deadlocked(b.log) &&
            (Touchy(p, b.files) || Highest(b.levels) != High)
  {
    DeletedSays(p, b.statuses);
    DroppedSays(p, b.files, b.text);
    TouchesAll(p, b.files);
  }

  /** The check passes exactly when: for a report-only task, the committed decision is a merge and the report may land; for any
      other, the committed artifacts are honest about the code, the history earned every gate at it, and nothing stands against it. */
  lemma PassExactly(p: TargetPolicy, b: Branch)
    ensures Checked(p, b).Success? <==>
            if Reports(b) then b.state.Success? && b.decision == Success(Some(Some(Name(AutoMerge)))) && ReportLands(p, b)
            else Honest(p, b) && Earned(b) && NothingStands(p, b)
  {
    if Reports(b) {
      ReportMergesExactly(p, b);
      ReportPassExactly(p, b, ReportRecompute(p, b));
    } else {
      OrdinaryPassExactly(p, b);
    }
  }

  lemma ReportMergesExactly(p: TargetPolicy, b: Branch)
    ensures ReportRecompute(p, b).verdict == AutoMerge <==> ReportLands(p, b)
    ensures ReportRecompute(p, b).verdict == AutoMerge <==> ReportRecompute(p, b).reasons == []
    ensures ReportRecompute(p, b).verdict != AutoMerge ==> ReportRecompute(p, b).verdict == StopBeforeMerge
  {
    ReportOnlyMergesExactly(p.specPrefix, b.taskDir, b.own, b.files, b.verified, b.specAt);
  }

  lemma ReportPassExactly(p: TargetPolicy, b: Branch, d: MergeDecision)
    requires Reports(b) && d == ReportRecompute(p, b) && (d.verdict == AutoMerge <==> d.reasons == [])
    requires d.verdict != AutoMerge ==> d.verdict == StopBeforeMerge
    ensures Checked(p, b).Success? <==>
            b.state.Success? && b.decision == Success(Some(Some(Name(AutoMerge)))) && d.verdict == AutoMerge
  {
  }

  lemma PassesUnopposed(p: TargetPolicy, b: Branch)
    requires !Reports(b)
    ensures Checked(p, b).Success? <==>
            Honest(p, b) && GateReasons(Recompute(p, b).gates) == [] && NothingElseLeaks(p, Recompute(p, b))
  {
    CheckedAsLeaking(p, b);
    ReasonsLeak(p, Recompute(p, b));
  }

  lemma RecomputedLosses(p: TargetPolicy, b: Branch, q: Inputs)
    requires q == Recompute(p, b)
    ensures NothingElseLeaks(p, q) <==> NothingStands(p, b)
  {
    StandsExactly(p, b);
  }

  lemma OrdinaryPassExactly(p: TargetPolicy, b: Branch)
    requires !Reports(b)
    ensures Checked(p, b).Success? <==> Honest(p, b) && Earned(b) && NothingStands(p, b)
  {
    PassesUnopposed(p, b);
    RecomputedLosses(p, b, Recompute(p, b));
    GatesEarned(b.log, b.codeSha);
  }

  lemma DecidedShape(p: TargetPolicy, q: Inputs)
    ensures Decided(p, q).reasons == Reasons(p, q)
    ensures Decided(p, q).verdict == StopBeforeMerge <==> Reasons(p, q) != []
  {
  }

  lemma ComparedExactly(d: MergeDecision, committed: Option<string>)
    requires d.verdict == StopBeforeMerge <==> d.reasons != []
    ensures Compared(d, false, committed).Success? <==> committed == Some(Name(d.verdict)) && Leaking(d.reasons) == []
    ensures Compared(d, false, committed).Success? ==> Compared(d, false, committed).value == d.verdict
  {
    NothingLeaks(d.reasons);
  }

  /** The artifacts are there, parse, and name the branch's own code. */
  predicate Attests(b: Branch) {
    b.spec.Success? && b.state == Success(Some(Some(b.codeSha))) && b.decision.Success? && b.decision.value.Some?
  }

  lemma NotBarredExactly(b: Branch)
    requires !Reports(b)
    ensures Barred(b).None? <==> Attests(b)
  {
  }

  lemma CheckedIsCompared(p: TargetPolicy, b: Branch, d: MergeDecision)
    requires Barred(b).None? && !Spec.ReportOnly(b.spec.value) && d == Decided(p, Recompute(p, b))
    ensures Checked(p, b) == Compared(d, false, b.decision.value.value)
  {
  }

  lemma CheckedAsLeaking(p: TargetPolicy, b: Branch)
    requires !Reports(b)
    ensures Checked(p, b).Success? <==> Honest(p, b) && Leaking(Reasons(p, Recompute(p, b))) == []
    ensures Checked(p, b).Success? ==> Checked(p, b).value == Decided(p, Recompute(p, b)).verdict
  {
    var q := Recompute(p, b);
    var d := Decided(p, q);
    NotBarredExactly(b);
    if Attests(b) {
      DecidedShape(p, q);
      ComparedExactly(d, b.decision.value.value);
      CheckedIsCompared(p, b, d);
    }
  }

  lemma TouchyIsL3(p: TargetPolicy, files: seq<string>)
    requires Touchy(p, files)
    ensures Classify(p, files) == L3
  {
  }

  lemma ReportStopsFail(p: TargetPolicy, b: Branch)
    requires Reports(b)
    ensures Checked(p, b) != Success(StopBeforeMerge)
  {
    var d := ReportRecompute(p, b);
    assert d.verdict == StopBeforeMerge <==> d.reasons != [];
  }

  lemma StopTouches(p: TargetPolicy, b: Branch, q: Inputs)
    requires q == Recompute(p, b) && Reasons(p, q) != [] && GateReasons(q.gates) == [] && NothingElseLeaks(p, q)
    ensures Touchy(p, b.files)
  {
    LossesExactly(p, q);
    TouchesAll(p, b.files);
    NoReasonsExactly(p, q);
  }

  /** A stop that passes is one for a human: the diff touches a sensitive or security path, so it classifies as L3. */
  lemma PassingStopIsSensitive(p: TargetPolicy, b: Branch)
    ensures Checked(p, b) == Success(StopBeforeMerge) ==> TouchesGuarded(p, b.files) && Classify(p, b.files) == L3 && Earned(b)
  {
    if Reports(b) {
      ReportStopsFail(p, b);
    } else if Checked(p, b) == Success(StopBeforeMerge) {
      PassesUnopposed(p, b);
      CheckedAsLeaking(p, b);
      DecidedShape(p, Recompute(p, b));
      GatesEarned(b.log, b.codeSha);
      StopTouches(p, b, Recompute(p, b));
      TouchesAll(p, b.files);
      TouchyIsL3(p, b.files);
    }
  }

  // --- The local fix ----------------------------------------------------------------------------

  function LocalReasons(deleted: seq<string>, dropped: seq<string>, declared: Risk, deadlock: bool): seq<Reason> {
    Given(deleted != [], TestsDeleted(FirstFive(deleted))) + Given(dropped != [], Destructive(FirstFive(dropped))) +
    Given(declared == High, HighRisk) + Given(deadlock, SeniorDeadlock)
  }

  /** The reasons that still stand on a fix tree; none of them is exit code 0. A spec that cannot be read is a fix
      authored off the main branch, and not report-only. */
  function LocalStops(p: TargetPolicy, b: Branch): seq<Reason> {
    if Reports(b) then ReportRecompute(p, b).reasons
    else LocalReasons(DeletedTestFiles(p, b.statuses), Select(DroppingData(p, b.text), b.files), Highest(b.levels), Deadlocked(b.log))
  }

  method CheckLocalFix(p: TargetPolicy, b: Branch) returns (reasons: seq<Reason>)
    ensures reasons == LocalStops(p, b)
  {
    if Reports(b) {
      var nondraft := NondraftReportSpecs(p.specPrefix, b.own, b.files, b.specAt);
      var d := ReportOnlyDecision(p.specPrefix, b.taskDir, b.files, b.verified, nondraft);
      return d.reasons;
    }
    var deleted := DeletedTestFiles(p, b.statuses);
    var dropped := DestructiveMigrations(p, b.files, b.text);
    var declared := DeclaredRisk(b.levels);
    var deadlock := exists e :: e in b.log && Is(e, Senior) && e.outcome == Outcome.Deadlock;
    reasons := LocalObjections(deleted, dropped, declared, deadlock);
  }

  method LocalObjections(deleted: seq<string>, dropped: seq<string>, declared: Risk, deadlock: bool) returns (reasons: seq<Reason>)
    ensures reasons == LocalReasons(deleted, dropped, declared, deadlock)
  {
    reasons := [];
    if deleted != [] {
      reasons := reasons + [TestsDeleted(FirstFive(deleted))];
    }
    if dropped != [] {
      reasons := reasons + [Destructive(FirstFive(dropped))];
    }
    if Rank(declared) >= Rank(High) {
      reasons := reasons + [HighRisk];
    }
    if deadlock {
      reasons := reasons + [SeniorDeadlock];
    }
  }

  /** The fix check waives the freshness of the gates and nothing else: it passes exactly when, of the full decision on the same tree
      under whatever gates, only stale or flaky gates would leak, and no reviewer declared a high risk. A report-only task it passes
      exactly when the report may land. */
  lemma LocalFixWaivesOnlyGates(p: TargetPolicy, b: Branch, gates: GateStates)
    ensures LocalStops(p, b) == [] <==>
            if Reports(b) then ReportLands(p, b)
            else (forall r :: r in Leaking(Reasons(p, Recompute(p, b).(gates := gates))) ==> GateKind(r)) && Highest(b.levels) != High
  {
    if Reports(b) {
      ReportMergesExactly(p, b);
    } else {
      OrdinaryFixWaivesOnlyGates(p, b, gates);
    }
  }

  /** The same, read off the branch. */
  lemma LocalFixPassesExactly(p: TargetPolicy, b: Branch)
    ensures LocalStops(p, b) == [] <==>
            if Reports(b) then ReportLands(p, b) else NothingStands(p, b) && Highest(b.levels) != High
  {
    if Reports(b) {
      ReportMergesExactly(p, b);
    } else {
      LocalReasonsAreNone(DeletedTestFiles(p, b.statuses), Select(DroppingData(p, b.text), b.files), Highest(b.levels), Deadlocked(b.log));
      StandsExactly(p, b);
    }
  }

  lemma OrdinaryFixWaivesOnlyGates(p: TargetPolicy, b: Branch, gates: GateStates)
    requires !Reports(b)
    ensures LocalStops(p, b) == [] <==>
            (forall r :: r in Leaking(Reasons(p, Recompute(p, b).(gates := gates))) ==> GateKind(r)) && Highest(b.levels) != High
  {
    var q := Recompute(p, b).(gates := gates);
    ReasonsLeak(p, q);
    assert Deleted(p, q) == DeletedTestFiles(p, b.statuses);
    assert Dropped(p, q) == Select(DroppingData(p, b.text), b.files);
    LocalReasonsAreNone(Deleted(p, q), Dropped(p, q), q.declared, q.deadlock);
  }

  lemma LocalReasonsAreNone(deleted: seq<string>, dropped: seq<string>, declared: Risk, deadlock: bool)
    ensures LocalReasons(deleted, dropped, declared, deadlock) == [] <==> deleted == [] && dropped == [] && declared != High && !deadlock
  {
  }
}
