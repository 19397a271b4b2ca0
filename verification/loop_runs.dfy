/** Whole runs of the phase loop: every log that loop turns, adoptions, resumes and rebuilt
    worktrees can produce, whatever the agents and gates answer. */
module LoopRuns {
  import opened Wrappers
  import opened Terminals
  import opened LoopLog

  // --- What one turn appends --------------------------------------------------------------------

  datatype Exit = CleanExit | ErrorExit | QuotaExit

  /** Everything a turn may be told: the run's exit, a gate's colour, a reviewer's verdict (None when
      it stayed malformed after the retries), the code sha, a failure print and a session. */
  datatype Reply = Reply(exit: Exit, passed: bool, verdict: Option<bool>, sha: string, mark: string, session: string)

  predicate FailedBefore(log: Log, sha: string) {
    exists i :: 0 <= i < |log| && Is(log[i], Authoritative) && log[i].sha == Some(sha) && log[i].outcome == Fail
  }

  function Logged(log: Log, a: Action, r: Reply): (e: Entry)
    ensures Is(e, a)
  {
    match a
    case Developer =>
      Step(a, match r.exit case CleanExit => Ok case ErrorExit => Error case QuotaExit => Other, None, "", false, r.session)
    case FastTests =>
      Step(a, if r.passed then Pass else Fail, None, if r.passed then "" else r.mark, false, "")
    case Rw1 =>
      (match r.verdict
       case None => Step(a, Malformed, None, "", false, "")
       case Some(approved) => Step(a, if approved then Approved else ChangesRequested, Some(r.sha), "", false, r.session))
    case Rw2 =>
      (match r.verdict
       case None => Step(a, Malformed, None, "", false, "")
       case Some(clean) => Step(a, if clean then Go else Nogo, Some(r.sha), if clean then "" else r.mark, false, r.session))
    case Authoritative =>
      Step(a, if r.passed then Pass else Fail, Some(r.sha), if r.passed then "" else r.mark,
           r.passed && FailedBefore(log, r.sha), "")
    case Senior =>
      (match r.verdict
       case None => Step(a, Deadlock, None, "", false, "")
       case Some(approved) => Step(a, if approved then Approved else ChangesRequested, Some(r.sha), "", false, r.session))
    case Push => Step(a, Ok, None, "", false, "")
  }

  /** That an entry says what the turn was told, field by field: a gate passes exactly if it was green, a reviewer approves exactly on
      a clean verdict and is malformed or deadlocked exactly without one, the sha is the code's, and a pass is flaky exactly if an
      authoritative run of that sha failed before. */
  ghost predicate Tells(before: Log, e: Entry, r: Reply) {
    e.Step? &&
    match e.action
    case Developer =>
      (e.outcome == Ok <==> r.exit == CleanExit) && (e.outcome == Error <==> r.exit == ErrorExit) && e.session == r.session
    case FastTests =>
      (e.outcome == Pass <==> r.passed) && (e.outcome == Fail <==> !r.passed) && e.fingerprint == (if r.passed then "" else r.mark)
    case Rw1 =>
      (e.outcome == Approved <==> r.verdict == Some(true)) && (e.outcome == ChangesRequested <==> r.verdict == Some(false)) &&
      (e.outcome == Malformed <==> r.verdict == None) && (r.verdict.Some? ==> e.sha == Some(r.sha) && e.session == r.session)
    case Rw2 =>
      (e.outcome == Go <==> r.verdict == Some(true)) && (e.outcome == Nogo <==> r.verdict == Some(false)) &&
      (e.outcome == Malformed <==> r.verdict == None) && (r.verdict.Some? ==> e.sha == Some(r.sha) && e.session == r.session) &&
      (r.verdict == Some(false) ==> e.fingerprint == r.mark) && (r.verdict != Some(false) ==> e.fingerprint == "")
    case Authoritative =>
      (e.outcome == Pass <==> r.passed) && (e.outcome == Fail <==> !r.passed) && e.sha == Some(r.sha) &&
      e.fingerprint == (if r.passed then "" else r.mark) &&
      (e.flaky <==> r.passed && exists i :: 0 <= i < |before| && before[i].Step? && before[i].action == Authoritative &&
                                            before[i].sha == Some(r.sha) && before[i].outcome == Fail)
    case Senior =>
      (e.outcome == Approved <==> r.verdict == Some(true)) && (e.outcome == ChangesRequested <==> r.verdict == Some(false)) &&
      (e.outcome == Deadlock <==> r.verdict == None) && (r.verdict.Some? ==> e.sha == Some(r.sha) && e.session == r.session)
    case Push => e.outcome == Ok
  }

  lemma LoggedTells(log: Log, a: Action, r: Reply)
    ensures Tells(log, Logged(log, a, r), r) && Logged(log, a, r).Step? && Logged(log, a, r).action == a
  {
  }

  /** The gate or the reviewer was satisfied. */
  predicate Green(a: Action, r: Reply) {
    match a
    case FastTests => r.passed
    case Authoritative => r.passed
    case Rw1 => r.verdict == Some(true)
    case Rw2 => r.verdict == Some(true)
    case Senior => r.verdict == Some(true)
    case _ => true
  }

  // --- The moves that write a task's log --------------------------------------------------------

  datatype Move =
    | Note
    | TakeTurn(sensitive: bool, reply: Reply)
    | Finish(state: TerminalState)
    | Adopt
    | Resume(kept: nat)
    | Rebuild(kept: nat)

  function LastTerminal(log: Log): Option<TerminalState> {
    if log == [] then None
    else if IsMark(log[|log| - 1]) then Some(MarkState(log[|log| - 1]))
    else LastTerminal(log[..|log| - 1])
  }

  const ADOPTED := Step(Developer, Ok, None, "", false, "")

  /** `Resume` and `Rebuild` may lose a tail of the local log: both reset the worktree to the hub's
      copy. `Finish` may happen at any time, which covers every terminal tail and every crash in it. */
  ghost predicate Enabled(cfg: Config, log: Log, m: Move) {
    match m
    case Note => true
    case TakeTurn(sensitive, _) => Turn(cfg, log, sensitive).Do? && forall s :: !Recorded(log, s)
    case Finish(_) => true
    case Adopt => Count(log, Developer) == 0 && LastTerminal(log).None?
    case Resume(kept) => kept <= |log| && LastTerminal(log).Some? && ResumeClears(LastTerminal(log).value)
    case Rebuild(kept) => kept <= |log|
  }

  ghost function Apply(cfg: Config, log: Log, m: Move): Log
    requires Enabled(cfg, log, m)
  {
    match m
    case Note => log + [Remark]
    case TakeTurn(sensitive, reply) => log + [Logged(log, Turn(cfg, log, sensitive).action, reply)]
    case Finish(s) => log + [Finished(s)]
    case Adopt => log + [ADOPTED]
    case Resume(kept) => log[..kept] + [Resumed]
    case Rebuild(kept) => log[..kept]
  }

  /** `logs[i + 1]` is what move i makes of `logs[i]`, from an empty log on. */
  ghost predicate IsRun(cfg: Config, logs: seq<Log>, moves: seq<Move>) {
    |logs| == |moves| + 1 && logs[0] == [] &&
    forall i :: 0 <= i < |moves| ==> Enabled(cfg, logs[i], moves[i]) && logs[i + 1] == Apply(cfg, logs[i], moves[i])
  }

  // --- The bounds -------------------------------------------------------------------------------

  /** How many turns of the gate chain can still follow, before the next developer round. */
  function Rank(last: Option<Entry>): nat {
    if last.None? || !last.value.Step? then 0
    else match last.value.action
      case Developer => 5
      case FastTests => 4
      case Rw1 => 3
      case Rw2 => 2
      case Senior => 2
      case Authoritative => 1
      case Push => 0
  }

  /** A developer round is derived below the cap or granted by the newest resume, three at most. */
  predicate RoundsBounded(cfg: Config, log: Log) {
    var dev := Count(log, Developer);
    match SinceResume(log)
    case None => Resumes(log) == 0 && dev <= cfg.maxLoops
    case Some(n) =>
      Resumes(log) >= 1 &&
      dev <= cfg.maxLoops + RESUME_ROUND_GRANT * (Resumes(log) - 1) + (if n < RESUME_ROUND_GRANT then n else RESUME_ROUND_GRANT)
  }

  predicate StepsBounded(log: Log) {
    Count(log, Senior) <= 1 &&
    (LastStep(log).Some? && LastStep(log).value.action == Push ==> LastStep(log).value.outcome == Ok) &&
    Steps(log) + Rank(LastStep(log)) <= 6 * Count(log, Developer) + 2 * Count(log, Senior)
  }

  function StepBudget(cfg: Config, log: Log): nat {
    6 * (cfg.maxLoops + RESUME_ROUND_GRANT * Resumes(log)) + 2
  }

  lemma WithinBudget(cfg: Config, log: Log)
    requires RoundsBounded(cfg, log) && StepsBounded(log)
    ensures Count(log, Developer) <= cfg.maxLoops + RESUME_ROUND_GRANT * Resumes(log)
    ensures Steps(log) <= StepBudget(cfg, log)
  {
  }

  // --- The gate chain ---------------------------------------------------------------------------

  /** The phase entries after the last developer entry, in order. */
  function Chain(log: Log): seq<Entry> {
    if log == [] || Is(log[|log| - 1], Developer) then []
    else if log[|log| - 1].Step? then Chain(log[..|log| - 1]) + [log[|log| - 1]]
    else Chain(log[..|log| - 1])
  }

  lemma {:induction false} ChainEnds(log: Log)
    ensures var c := Chain(log);
            if c != [] then c[|c| - 1].Step? && LastStep(log) == Some(c[|c| - 1])
            else LastStep(log).None? || LastStep(log).value.action == Developer
  {
    if log != [] {
      ChainEnds(log[..|log| - 1]);
    }
  }

  /** A phase entry that no developer entry follows, and that is none. */
  ghost predicate InLastRound(log: Log, i: nat) {
    i < |log| && log[i].Step? && forall j :: i <= j < |log| ==> !Is(log[j], Developer)
  }

  /** The places of the phase entries after the last developer entry, in order. */
  ghost predicate SinceDeveloper(log: Log, places: seq<nat>) {
    (forall k, l :: 0 <= k < l < |places| ==> places[k] < places[l]) && forall i: nat :: i in places <==> InLastRound(log, i)
  }

  lemma RoundGrows(log: Log, e: Entry, i: nat)
    ensures InLastRound(log + [e], i) <==> !Is(e, Developer) && (InLastRound(log, i) || (i == |log| && e.Step?))
  {
    var grown := log + [e];
    assert grown[|log|] == e && forall j :: 0 <= j < |log| ==> grown[j] == log[j];
  }

  lemma PlacesGrow(log: Log, e: Entry, places: seq<nat>)
    requires SinceDeveloper(log, places)
    ensures SinceDeveloper(log + [e], if Is(e, Developer) then [] else if e.Step? then places + [|log|] else places)
  {
    forall i: nat ensures InLastRound(log + [e], i) <==> !Is(e, Developer) && (InLastRound(log, i) || (i == |log| && e.Step?)) {
      RoundGrows(log, e, i);
    }
    assert forall k :: 0 <= k < |places| ==> places[k] in places;
  }

  /** What stands at those places. */
  ghost predicate StandsAt(log: Log, places: seq<nat>, c: seq<Entry>) {
    |places| == |c| && forall k :: 0 <= k < |places| ==> places[k] < |log| && log[places[k]] == c[k]
  }

  lemma StandsGrow(log: Log, e: Entry, places: seq<nat>, c: seq<Entry>)
    requires StandsAt(log, places, c)
    ensures StandsAt(log + [e], places, c) && StandsAt(log + [e], places + [|log|], c + [e])
  {
  }

  /** The chain is what stands at those places, and nothing else. */
  lemma {:induction false} ChainSays(log: Log) returns (places: seq<nat>)
    ensures SinceDeveloper(log, places) && StandsAt(log, places, Chain(log))
  {
    places := [];
    if log != [] {
      var init, e := log[..|log| - 1], log[|log| - 1];
      places := ChainSays(init);
      assert log == init + [e];
      PlacesGrow(init, e, places);
      StandsGrow(init, e, places, Chain(init));
      ChainSnoc(init, e);
      places := if Is(e, Developer) then [] else if e.Step? then places + [|init|] else places;
    }
  }

  predicate At(c: seq<Entry>, i: int, a: Action, o: Outcome) {
    0 <= i < |c| && Is(c[i], a) && c[i].outcome == o
  }

  function One(b: bool): nat {
    if b then 1 else 0
  }

  /** The first entries of a round as it should go, up to the authoritative gate: fast tests, rw1, and rw2 if there is one. */
  predicate Reviewed(cfg: Config, c: seq<Entry>) {
    At(c, 0, FastTests, Pass) && At(c, 1, Rw1, Approved) && (cfg.withRw2 ==> At(c, 2, Rw2, Go))
  }

  /** Every configured gate green, in order and nothing else; or at the end a senior approval, and the authoritative gate after it
      if there is one. */
  predicate Cleared(cfg: Config, c: seq<Entry>) {
    (Reviewed(cfg, c) && |c| == 2 + One(cfg.withRw2) + One(cfg.withAuthoritative) &&
     (cfg.withAuthoritative ==> At(c, |c| - 1, Authoritative, Pass))) ||
    (cfg.withSenior && At(c, |c| - 1 - One(cfg.withAuthoritative), Senior, Approved) &&
     (cfg.withAuthoritative ==> At(c, |c| - 1, Authoritative, Pass)))
  }

  predicate WellGated(cfg: Config, c: seq<Entry>) {
    c == [] ||
    (var last := c[|c| - 1];
     last.Step? &&
     match last.action
     case Developer => false
     case FastTests => |c| == 1
     case Rw1 => |c| == 2 && At(c, 0, FastTests, Pass)
     case Rw2 => cfg.withRw2 && |c| == 3 && At(c, 0, FastTests, Pass) && At(c, 1, Rw1, Approved)
     case Authoritative =>
       cfg.withAuthoritative &&
       ((|c| == 3 + One(cfg.withRw2) && Reviewed(cfg, c)) || (cfg.withSenior && At(c, |c| - 2, Senior, Approved)))
     case Senior => cfg.withSenior
     case Push => Cleared(cfg, c[..|c| - 1]))
  }

  // --- Preservation -----------------------------------------------------------------------------

  predicate Good(cfg: Config, log: Log) {
    RoundsBounded(cfg, log) && StepsBounded(log) && WellGated(cfg, Chain(log))
  }

  ghost predicate AllGood(cfg: Config, log: Log) {
    forall k :: 0 <= k <= |log| ==> Good(cfg, log[..k])
  }

  lemma ChainSnoc(log: Log, e: Entry)
    ensures Chain(log + [e]) == if Is(e, Developer) then [] else if e.Step? then Chain(log) + [e] else Chain(log)
  {
    Snoc(log, e);
  }

  lemma QuietIsGood(cfg: Config, log: Log, e: Entry)
    requires Good(cfg, log) && !e.Step?
    ensures Good(cfg, log + [e])
  {
    Snoc(log, e);
    ChainSnoc(log, e);
  }

  lemma {:induction false} NoStepsNoStall(log: Log)
    requires LastStep(log).None?
    ensures SinceSenior(log) == log && Nogos(log) == 0 && forall a :: Prints(log, a) == []
  {
    if log != [] {
      NoStepsNoStall(log[..|log| - 1]);
    }
  }

  /** Why a turn may take action `a`: the part of `Turn` the bounds rest on. */
  predicate Warranted(cfg: Config, log: Log, a: Action) {
    match a
    case Developer =>
      Count(log, Developer) < cfg.maxLoops || (SinceResume(log).Some? && SinceResume(log).value < RESUME_ROUND_GRANT)
    case Senior =>
      cfg.withSenior && Count(log, Senior) == 0 && LastStep(log).Some? && !(LastStep(log).value.action == Push && LastStep(log).value.outcome == Ok)
    case _ =>
      LastStep(log).Some? && Transition(cfg, LastStep(log).value.action, LastStep(log).value.outcome) == Do(a)
  }

  /** Where a turn's action comes from: a grant, the derivation, or the senior triggers. */
  lemma TurnComesFrom(cfg: Config, log: Log, sensitive: bool, a: Action)
    requires Turn(cfg, log, sensitive) == Do(a)
    ensures a != Developer && a != Senior ==> DerivedPhase(cfg, log) == Do(a)
    ensures a == Developer ==> ForcedDeveloper(log, DerivedPhase(cfg, log)) || DerivedPhase(cfg, log) == Do(Developer)
    ensures a == Senior ==> cfg.withSenior && Count(log, Senior) == 0
    ensures a == Senior ==>
              ((DerivedPhase(cfg, log) == Do(Developer) && Stuck(SinceSenior(log))) ||
               DerivedPhase(cfg, log) == Do(Authoritative) || DerivedPhase(cfg, log) == Do(Push))
  {
  }

  lemma StallNeedsSteps(log: Log)
    requires Stuck(SinceSenior(log))
    ensures LastStep(log).Some?
  {
    if LastStep(log).None? {
      NoStepsNoStall(log);
    }
  }

  lemma DerivedIsWarranted(cfg: Config, log: Log, a: Action)
    requires DerivedPhase(cfg, log) == Do(a) && a != Senior
    ensures Warranted(cfg, log, a)
  {
  }

  lemma GrantIsWarranted(cfg: Config, log: Log, p: Phase)
    requires ForcedDeveloper(log, p)
    ensures Warranted(cfg, log, Developer)
  {
  }

  lemma SeniorIsWarranted(cfg: Config, log: Log)
    requires cfg.withSenior && Count(log, Senior) == 0
    requires (DerivedPhase(cfg, log) == Do(Developer) && LastStep(log).Some?) ||
             DerivedPhase(cfg, log) == Do(Authoritative) || DerivedPhase(cfg, log) == Do(Push)
    ensures Warranted(cfg, log, Senior)
  {
  }

  lemma TurnIsWarranted(cfg: Config, log: Log, sensitive: bool, a: Action)
    requires Turn(cfg, log, sensitive) == Do(a)
    ensures Warranted(cfg, log, a)
  {
    TurnComesFrom(cfg, log, sensitive, a);
    if a == Senior {
      if DerivedPhase(cfg, log) == Do(Developer) {
        StallNeedsSteps(log);
      }
      SeniorIsWarranted(cfg, log);
    } else if a == Developer && ForcedDeveloper(log, DerivedPhase(cfg, log)) {
      GrantIsWarranted(cfg, log, DerivedPhase(cfg, log));
    } else {
      DerivedIsWarranted(cfg, log, a);
    }
  }

  lemma RoundsStayBounded(cfg: Config, log: Log, e: Entry)
    requires RoundsBounded(cfg, log) && e.Step? && Warranted(cfg, log, e.action)
    ensures RoundsBounded(cfg, log + [e])
  {
    Snoc(log, e);
  }

  lemma StepsStayBounded(cfg: Config, log: Log, e: Entry)
    requires StepsBounded(log) && e.Step? && Warranted(cfg, log, e.action) && (e.action == Push ==> e.outcome == Ok)
    ensures StepsBounded(log + [e])
  {
    Snoc(log, e);
  }

  lemma TurnIsBounded(cfg: Config, log: Log, e: Entry)
    requires RoundsBounded(cfg, log) && StepsBounded(log)
    requires e.Step? && Warranted(cfg, log, e.action) && (e.action == Push ==> e.outcome == Ok)
    ensures RoundsBounded(cfg, log + [e]) && StepsBounded(log + [e])
  {
    RoundsStayBounded(cfg, log, e);
    StepsStayBounded(cfg, log, e);
  }

  lemma WarrantedPushClears(cfg: Config, log: Log)
    requires WellGated(cfg, Chain(log)) && Warranted(cfg, log, Push)
    ensures Cleared(cfg, Chain(log))
  {
    ChainEnds(log);
    PushClears(cfg, Chain(log));
  }

  lemma SensitivePushAsksSenior(cfg: Config, log: Log)
    requires Turn(cfg, log, true) == Do(Push) && cfg.withSenior
    ensures Count(log, Senior) >= 1
  {
  }

  lemma ReadyToPush(cfg: Config, log: Log, sensitive: bool)
    requires Good(cfg, log) && Turn(cfg, log, sensitive) == Do(Push)
    ensures Cleared(cfg, Chain(log))
    ensures sensitive && cfg.withSenior ==> Count(log, Senior) == 1
  {
    TurnIsWarranted(cfg, log, sensitive, Push);
    WarrantedPushClears(cfg, log);
    if sensitive && cfg.withSenior {
      SensitivePushAsksSenior(cfg, log);
    }
  }

  lemma PushClears(cfg: Config, c: seq<Entry>)
    requires WellGated(cfg, c) && c != [] && c[|c| - 1].Step?
    requires Transition(cfg, c[|c| - 1].action, c[|c| - 1].outcome) == Do(Push)
    ensures Cleared(cfg, c)
  {
  }

  /** What a warranted entry does to a well-gated chain. */
  lemma ChainStaysGated(cfg: Config, c: seq<Entry>, e: Entry)
    requires WellGated(cfg, c) && e.Step? && e.action != Developer
    requires (e.action == Senior && cfg.withSenior) ||
             (c != [] && Transition(cfg, c[|c| - 1].action, c[|c| - 1].outcome) == Do(e.action)) ||
             (c == [] && e.action == FastTests)
    ensures WellGated(cfg, c + [e])
  {
    assert (c + [e])[..|c|] == c;
    if e.action == Push {
      PushClears(cfg, c);
    }
  }

  lemma TurnIsGated(cfg: Config, log: Log, e: Entry)
    requires Good(cfg, log) && e.Step? && Warranted(cfg, log, e.action)
    ensures WellGated(cfg, Chain(log + [e]))
  {
    ChainSnoc(log, e);
    ChainEnds(log);
    if e.action != Developer {
      ChainStaysGated(cfg, Chain(log), e);
    }
  }

  /** One turn of the loop, as the invariants see it. */
  lemma TurnKeeps(cfg: Config, log: Log, sensitive: bool, e: Entry)
    requires Good(cfg, log) && e.Step? && Turn(cfg, log, sensitive) == Do(e.action)
    requires e.action == Push ==> e.outcome == Ok
    ensures Good(cfg, log + [e]) && Steps(log + [e]) == Steps(log) + 1
    ensures StepBudget(cfg, log + [e]) == StepBudget(cfg, log) >= Steps(log) + 1
  {
    TurnIsWarranted(cfg, log, sensitive, e.action);
    TurnIsBounded(cfg, log, e);
    TurnIsGated(cfg, log, e);
    Snoc(log, e);
    WithinBudget(cfg, log + [e]);
  }

  lemma Extend(cfg: Config, log: Log, e: Entry)
    requires AllGood(cfg, log) && Good(cfg, log + [e])
    ensures AllGood(cfg, log + [e])
  {
    forall k | 0 <= k <= |log| + 1
      ensures Good(cfg, (log + [e])[..k])
    {
      if k <= |log| {
        assert (log + [e])[..k] == log[..k];
      } else {
        assert (log + [e])[..k] == log + [e];
      }
    }
  }

  lemma Cut(cfg: Config, log: Log, kept: nat)
    requires AllGood(cfg, log) && kept <= |log|
    ensures AllGood(cfg, log[..kept]) && Good(cfg, log[..kept])
  {
    forall k | 0 <= k <= kept
      ensures Good(cfg, log[..kept][..k])
    {
      assert log[..kept][..k] == log[..k];
    }
  }

  lemma MoveKeepsGood(cfg: Config, log: Log, m: Move)
    requires cfg.maxLoops >= 1 && AllGood(cfg, log) && Enabled(cfg, log, m)
    ensures AllGood(cfg, Apply(cfg, log, m))
  {
    assert log[..|log|] == log;
    match m
    case Note => QuietIsGood(cfg, log, Remark); Extend(cfg, log, Remark);
    case Finish(s) => QuietIsGood(cfg, log, Finished(s)); Extend(cfg, log, Finished(s));
    case TakeTurn(sensitive, reply) =>
      var e := Logged(log, Turn(cfg, log, sensitive).action, reply);
      TurnKeeps(cfg, log, sensitive, e);
      Extend(cfg, log, e);
    case Adopt =>
      Snoc(log, ADOPTED);
      ChainSnoc(log, ADOPTED);
      Extend(cfg, log, ADOPTED);
    case Resume(kept) =>
      Cut(cfg, log, kept);
      QuietIsGood(cfg, log[..kept], Resumed);
      Extend(cfg, log[..kept], Resumed);
    case Rebuild(kept) => Cut(cfg, log, kept);
  }

  lemma {:induction false} RunIsGood(cfg: Config, logs: seq<Log>, moves: seq<Move>, i: nat)
    requires cfg.maxLoops >= 1 && IsRun(cfg, logs, moves) && i < |logs|
    ensures AllGood(cfg, logs[i])
  {
    if i == 0 {
      assert logs[0][..0] == [];
    } else {
      RunIsGood(cfg, logs, moves, i - 1);
      MoveKeepsGood(cfg, logs[i - 1], moves[i - 1]);
    }
  }

  // --- Main results -----------------------------------------------------------------------------

  /** Whatever everyone answers, and whatever is resumed, adopted or rebuilt: developer rounds stay
      within the cap plus three per resume, the senior is entered at most once, and all phase
      entries together stay within six per developer round plus two. */
  lemma EveryLogIsBounded(cfg: Config, logs: seq<Log>, moves: seq<Move>, i: nat)
    requires cfg.maxLoops >= 1 && IsRun(cfg, logs, moves) && i < |logs|
    ensures Count(logs[i], Developer) <= cfg.maxLoops + 3 * Resumes(logs[i])
    ensures Count(logs[i], Senior) <= 1
    ensures Steps(logs[i]) <= 6 * Count(logs[i], Developer) + 2 * Count(logs[i], Senior)
  {
    RunIsGood(cfg, logs, moves, i);
    assert logs[i][..|logs[i]|] == logs[i];
    WithinBudget(cfg, logs[i]);
  }

  /** Whatever the task is composed of, the loop reaches push only over a cleared chain since the last developer entry, and, with a
      senior, a push on a high-risk or invariant-touching change follows its verdict. */
  lemma PushIsGated(cfg: Config, logs: seq<Log>, moves: seq<Move>, i: nat, sensitive: bool)
    requires cfg.maxLoops >= 1 && IsRun(cfg, logs, moves) && i < |logs|
    requires Turn(cfg, logs[i], sensitive) == Do(Push)
    ensures Cleared(cfg, Chain(logs[i]))
    ensures sensitive && cfg.withSenior ==> Count(logs[i], Senior) == 1
  {
    RunIsGood(cfg, logs, moves, i);
    assert logs[i][..|logs[i]|] == logs[i];
    ReadyToPush(cfg, logs[i], sensitive);
  }

  /** A director resume reopens development exactly when the replay is not at a gate: a gate that was
      still due (its entry lost with a reset worktree) runs first. */
  lemma ResumeReopens(cfg: Config, log: Log, sensitive: bool)
    ensures Turn(cfg, log + [Resumed], sensitive) == Do(Developer) <==> !FlowsThrough(DerivedPhase(cfg, log))
  {
    Snoc(log, Resumed);
  }

  // --- What a push is worth ---------------------------------------------------------------------

  predicate Satisfied(e: Entry) {
    e.Step? &&
    ((e.action == FastTests && e.outcome == Pass) || (e.action == Rw1 && e.outcome == Approved) || (e.action == Rw2 && e.outcome == Go) ||
     (e.action == Authoritative && e.outcome == Pass) || (e.action == Senior && e.outcome == Approved))
  }

  /** In a cleared chain every entry with no senior verdict behind it records a satisfied gate or reviewer. */
  lemma ClearedIsSatisfied(cfg: Config, c: seq<Entry>, k: nat)
    requires Cleared(cfg, c) && k < |c| && forall j :: k < j < |c| ==> !Is(c[j], Senior)
    ensures Satisfied(c[k])
  {
    var m := |c| - 1 - One(cfg.withAuthoritative);
    assert At(c, m, Senior, Approved) ==> k >= m;
  }

  /** Phase entries with no developer round among them are the end of the chain. */
  lemma {:induction false} ChainEndsIn(log: Log, i: nat)
    requires i <= |log| && forall j :: i <= j < |log| ==> log[j].Step? && log[j].action != Developer
    ensures Chain(log) == Chain(log[..i]) + log[i..]
  {
    if i == |log| {
      assert log[..i] == log;
    } else {
      var init := log[..|log| - 1];
      ChainEndsIn(init, i);
      assert init[..i] == log[..i] && init[i..] + [log[|log| - 1]] == log[i..];
    }
  }

  lemma HeadIsSatisfied(cfg: Config, before: seq<Entry>, tail: seq<Entry>)
    requires Cleared(cfg, before + tail) && tail != [] && forall j :: 0 < j < |tail| ==> !Is(tail[j], Senior)
    ensures Satisfied(tail[0])
  {
    var c := before + tail;
    assert forall j :: |before| <= j < |c| ==> c[j] == tail[j - |before|];
    ClearedIsSatisfied(cfg, c, |before|);
  }

  lemma EndIsSatisfied(cfg: Config, log: Log, i: nat)
    requires Cleared(cfg, Chain(log)) && i < |log| && forall j :: i <= j < |log| ==> log[j].Step? && log[j].action != Developer
    requires forall j :: i < j < |log| ==> log[j].action != Senior
    ensures Satisfied(log[i])
  {
    ChainEndsIn(log, i);
    HeadIsSatisfied(cfg, Chain(log[..i]), log[i..]);
  }

  lemma TellsGreen(before: Log, e: Entry, r: Reply)
    requires Tells(before, e, r) && Satisfied(e)
    ensures Green(e.action, r)
  {
  }

  /** The entry at i is no push and says what its own reply was, in a run of turns that began behind the first n entries. */
  ghost predicate ToldAt(log: Log, n: nat, replies: nat -> Reply, i: nat)
    requires n <= i < |log|
  {
    log[i].Step? && log[i].action != Push && Tells(log[..i], log[i], replies(i - n))
  }

  /** The log is what was there at the start, and then turns that do not push, each saying what its own reply was. */
  ghost predicate AllTold(log: Log, start: Log, replies: nat -> Reply) {
    start <= log && forall i :: |start| <= i < |log| ==> ToldAt(log, |start|, replies, i)
  }

  lemma ToldOnlyTurns(log: Log, start: Log, replies: nat -> Reply)
    requires AllTold(log, start, replies)
    ensures OnlyTurns(start, log)
  {
    forall i | |start| <= i < |log| ensures log[i].Step? && log[i].action != Push {
      assert ToldAt(log, |start|, replies, i);
    }
  }

  lemma ToldGrows(log: Log, start: Log, replies: nat -> Reply, e: Entry)
    requires AllTold(log, start, replies) && e.Step? && e.action != Push && Tells(log, e, replies(|log| - |start|))
    ensures AllTold(log + [e], start, replies)
  {
    var grown := log + [e];
    forall i | |start| <= i < |grown| ensures ToldAt(grown, |start|, replies, i) {
      assert grown[..i] == log[..i];
      if i < |log| {
        assert ToldAt(log, |start|, replies, i);
      } else {
        assert log[..|log|] == log;
      }
    }
  }

  /** Every turn is one step, and none changes the budget. */
  lemma {:induction false} TurnSteps(cfg: Config, log: Log, start: Log)
    requires OnlyTurns(start, log)
    ensures Steps(log) == Steps(start) + |log| - |start| && StepBudget(cfg, log) == StepBudget(cfg, start)
  {
    if |log| == |start| {
      assert log == start;
    } else {
      var init, e := log[..|log| - 1], log[|log| - 1];
      TurnSteps(cfg, init, start);
      assert log == init + [e];
      Snoc(init, e);
    }
  }

  lemma TurnsWithinBudget(cfg: Config, log: Log, start: Log, replies: nat -> Reply)
    requires AllTold(log, start, replies) && Good(cfg, log)
    ensures Steps(start) + |log| - |start| <= StepBudget(cfg, start)
  {
    ToldOnlyTurns(log, start, replies);
    TurnSteps(cfg, log, start);
    WithinBudget(cfg, log);
  }

  /** Of the turns taken since the last developer round, from the senior's verdict on if there is one, every one was satisfied by its
      own reply. */
  ghost predicate GreenSince(log: Log, start: nat, replies: nat -> Reply) {
    forall i :: start <= i < |log| && (forall j :: i <= j < |log| ==> !Is(log[j], Developer)) && (forall j :: i < j < |log| ==> !Is(log[j], Senior)) ==>
                  log[i].Step? && Green(log[i].action, replies(i - start))
  }

  /** A run of turns that stops at push has been told so by the gates and the reviewers themselves. */
  lemma PushIsGreen(cfg: Config, log: Log, start: Log, replies: nat -> Reply)
    requires AllTold(log, start, replies) && Cleared(cfg, Chain(log))
    ensures GreenSince(log, |start|, replies)
  {
    forall i | |start| <= i < |log| && (forall j :: i <= j < |log| ==> !Is(log[j], Developer)) && (forall j :: i < j < |log| ==> !Is(log[j], Senior))
      ensures log[i].Step? && Green(log[i].action, replies(i - |start|))
    {
      ToldOnlyTurns(log, start, replies);
      assert ToldAt(log, |start|, replies, i);
      EndIsSatisfied(cfg, log, i);
      TellsGreen(log[..i], log[i], replies(i - |start|));
    }
  }

  // --- The loop itself --------------------------------------------------------------------------

  /** The second log is the first and then phase entries, none of them a push. */
  predicate OnlyTurns(log: Log, later: Log) {
    log <= later && forall i :: |log| <= i < |later| ==> later[i].Step? && later[i].action != Push
  }

  /** Where a run of turns stops at push, it has been told so. */
  lemma PushStands(cfg: Config, log: Log, sensitive: bool, phase: Phase, start: Log, replies: nat -> Reply)
    requires Good(cfg, log) && phase == Turn(cfg, log, sensitive) && AllTold(log, start, replies)
    ensures phase == Do(Push) ==> Cleared(cfg, Chain(log)) && GreenSince(log, |start|, replies)
    ensures OnlyTurns(start, log)
  {
    ToldOnlyTurns(log, start, replies);
    if phase == Do(Push) {
      ReadyToPush(cfg, log, sensitive);
      PushIsGreen(cfg, log, start, replies);
    }
  }

  lemma OneLonger(before: Log, after: Log)
    requires before <= after && |after| == |before| + 1
    ensures after == before + [after[|before|]]
  {
  }

  /** One turn further, with its own reply. */
  lemma ToldOnward(start: Log, before: Log, after: Log, replies: nat -> Reply, reply: Reply)
    requires AllTold(before, start, replies) && reply == replies(|before| - |start|)
    requires OnlyTurns(before, after) && |after| == |before| + 1 && Tells(before, after[|before|], reply)
    ensures AllTold(after, start, replies)
  {
    OneLonger(before, after);
    ToldGrows(before, start, replies, after[|before|]);
  }

  lemma OneTurnOnly(log: Log, e: Entry)
    requires e.Step? && e.action != Push
    ensures OnlyTurns(log, log + [e])
  {
  }

  lemma TookTurn(cfg: Config, log: Log, sensitive: bool, action: Action, reply: Reply, e: Entry)
    requires Good(cfg, log) && Turn(cfg, log, sensitive) == Do(action) && action != Push && e == Logged(log, action, reply)
    ensures e.Step? && e.action == action && Tells(log, e, reply) && OnlyTurns(log, log + [e])
    ensures Good(cfg, log + [e]) && Steps(log + [e]) == Steps(log) + 1
    ensures StepBudget(cfg, log + [e]) == StepBudget(cfg, log) >= Steps(log + [e])
  {
    LoggedTells(log, action, reply);
    OneTurnOnly(log, e);
    TurnKeeps(cfg, log, sensitive, e);
  }

  class Orchestrator {
    const cfg: Config
    var log: Log

    constructor (cfg: Config, log: Log)
      ensures this.cfg == cfg && this.log == log
    {
      this.cfg := cfg;
      this.log := log;
    }

    method AppendLog(e: Entry)
      modifies this`log
      ensures log == old(log) + [e]
    {
      log := log + [e];
    }

    method NextPhase(sensitive: bool) returns (phase: Phase)
      ensures phase == Turn(cfg, log, sensitive)
    {
      var rp := DeriveResumePoint(log, cfg);
      var resumed := ResumeDeveloperPoint(log, rp);
      if resumed.Some? {
        phase := Do(Developer);
      } else {
        phase := OverridePhase(cfg, log, rp.phase, sensitive);
      }
    }

    /** One turn that does not push: it appends its entry and keeps everything the bounds and the gates rest on. */
    method TakeTurn(action: Action, reply: Reply, ghost sensitive: bool)
      requires Good(cfg, log) && Turn(cfg, log, sensitive) == Do(action) && action != Push
      modifies this`log
      ensures |log| == |old(log)| + 1 && OnlyTurns(old(log), log)
      ensures log[|old(log)|].action == action && Tells(old(log), log[|old(log)|], reply)
      ensures Good(cfg, log) && Steps(log) == Steps(old(log)) + 1
      ensures StepBudget(cfg, log) == StepBudget(cfg, old(log)) >= Steps(log)
    {
      var e := Logged(log, action, reply);
      TookTurn(cfg, log, sensitive, action, reply, e);
      AppendLog(e);
    }

    /** A turn of a run that began over `start`. */
    method OneTurn(action: Action, reply: Reply, ghost sensitive: bool, ghost start: Log, ghost replies: nat -> Reply)
      requires AllTold(log, start, replies) && reply == replies(|log| - |start|)
      requires Good(cfg, log) && Turn(cfg, log, sensitive) == Do(action) && action != Push
      modifies this`log
      ensures AllTold(log, start, replies) && |log| == |old(log)| + 1 && Good(cfg, log)
    {
      ghost var before := log;
      TakeTurn(action, reply, sensitive);
      ToldOnward(start, before, log, replies, reply);
    }

    /** Turns until a phase that ends the run: it terminates for every stream of replies. */
    method TurnUntilStop(replies: nat -> Reply, sensitive: nat -> bool, ghost start: Log, ghost limit: nat) returns (stop: Phase, turns: nat)
      requires Good(cfg, log) && start == log && Steps(start) + limit == StepBudget(cfg, start)
      modifies this`log
      ensures |log| == |start| + turns && AllTold(log, start, replies) && turns <= limit
      ensures Good(cfg, log) && stop == Turn(cfg, log, sensitive(turns)) && (stop == Do(Push) || !stop.Do?)
    {
      turns := 0;
      var asked := sensitive(0);
      stop := NextPhase(asked);
      while stop.Do? && stop != Do(Push)
        invariant |log| == |start| + turns && AllTold(log, start, replies) && turns <= limit
        invariant asked == sensitive(turns) && stop == Turn(cfg, log, asked) && Good(cfg, log)
        decreases limit - turns
      {
        OneTurn(stop.action, replies(turns), asked, start, replies);
        TurnsWithinBudget(cfg, log, start, replies);
        turns := turns + 1;
        asked := sensitive(turns);
        stop := NextPhase(asked);
      }
    }

    /** The phase loop. It stays inside the budget, appends only phase entries that say what their replies were, never rewrites
        what was there, and stops at a push only if the gates and reviewers it asked since the last developer round were satisfied. */
    method RunPhases(replies: nat -> Reply, sensitive: nat -> bool) returns (stop: Phase, turns: nat)
      requires Good(cfg, log)
      modifies this`log
      ensures OnlyTurns(old(log), log) && |log| == |old(log)| + turns && AllTold(log, old(log), replies)
      ensures Steps(old(log)) + turns <= StepBudget(cfg, old(log))
      ensures Good(cfg, log)
      ensures stop == Turn(cfg, log, sensitive(turns)) && (stop == Do(Push) || !stop.Do?)
      ensures stop == Do(Push) ==> Cleared(cfg, Chain(log)) && GreenSince(log, |old(log)|, replies)
    {
      WithinBudget(cfg, log);
      ghost var start := log;
      stop, turns := TurnUntilStop(replies, sensitive, start, StepBudget(cfg, start) - Steps(start));
      PushStands(cfg, log, sensitive(turns), stop, start, replies);
    }
  }
}
