/** The iteration log and the pure replay of it: the next phase is a function of the log alone. */
module LoopLog {
  import opened Wrappers
  import opened Terminals

  datatype Action = Developer | FastTests | Rw1 | Rw2 | Authoritative | Senior | Push

  datatype Outcome =
    | Ok | Error | Pass | Fail | Approved | ChangesRequested | Malformed | Go | Nogo | Deadlock | Other

  /** One log line. `Step` is one of the seven phase actions; `Remark` stands for every other event
      (flags, quota waits, clarify, explorer, design...), none of which the replay looks at. */
  datatype Entry =
    | Step(action: Action, outcome: Outcome, sha: Option<string>, fingerprint: string, flaky: bool, session: string)
    | Finished(state: TerminalState)
    | Resumed
    | Remark

  type Log = seq<Entry>

  /** What a run is composed of; fixed over the life of a task. */
  datatype Config = Config(maxLoops: nat, withRw2: bool, withSenior: bool, withAuthoritative: bool, policyEnabled: bool)

  datatype Phase = Do(action: Action) | CapReachedPhase | DeadlockPhase | DonePhase

  datatype ResumePoint = ResumePoint(round: nat, phase: Phase, devSession: string, rw1Session: string, rw2Session: string)

  predicate Is(e: Entry, a: Action) {
    e.Step? && e.action == a
  }

  // --- Reading a log from its end ---------------------------------------------------------------

  function Count(log: Log, a: Action): nat {
    if log == [] then 0
    else Count(log[..|log| - 1], a) + (if Is(log[|log| - 1], a) then 1 else 0)
  }

  function Steps(log: Log): nat {
    if log == [] then 0
    else Steps(log[..|log| - 1]) + (if log[|log| - 1].Step? then 1 else 0)
  }

  function Resumes(log: Log): nat {
    if log == [] then 0
    else Resumes(log[..|log| - 1]) + (if log[|log| - 1].Resumed? then 1 else 0)
  }

  function LastStep(log: Log): (r: Option<Entry>)
    ensures r.Some? ==> r.value.Step?
  {
    if log == [] then None
    else if log[|log| - 1].Step? then Some(log[|log| - 1])
    else LastStep(log[..|log| - 1])
  }

  function LastSession(log: Log, a: Action): string {
    if log == [] then ""
    else if Is(log[|log| - 1], a) && log[|log| - 1].session != "" then log[|log| - 1].session
    else LastSession(log[..|log| - 1], a)
  }

  /** Developer rounds after the newest director_resume; None when there is no resume. */
  function SinceResume(log: Log): Option<nat> {
    if log == [] then None
    else if log[|log| - 1].Resumed? then Some(0)
    else match SinceResume(log[..|log| - 1])
      case None => None
      case Some(n) => Some(if Is(log[|log| - 1], Developer) then n + 1 else n)
  }

  /** The entries after the last senior verdict. */
  function SinceSenior(log: Log): Log {
    if log == [] || Is(log[|log| - 1], Senior) then []
    else SinceSenior(log[..|log| - 1]) + [log[|log| - 1]]
  }

  lemma SnocCount(log: Log, e: Entry, a: Action)
    ensures Count(log + [e], a) == Count(log, a) + (if Is(e, a) then 1 else 0)
  {
    assert (log + [e])[..|log|] == log;
  }

  lemma SnocTail(log: Log, e: Entry)
    ensures LastStep(log + [e]) == if e.Step? then Some(e) else LastStep(log)
    ensures SinceSenior(log + [e]) == if Is(e, Senior) then [] else SinceSenior(log) + [e]
    ensures SinceResume(log + [e]) == if e.Resumed? then Some(0)
                                      else if SinceResume(log).None? then None
                                      else Some(SinceResume(log).value + (if Is(e, Developer) then 1 else 0))
  {
    assert (log + [e])[..|log|] == log;
  }

  lemma Snoc(log: Log, e: Entry)
    ensures (log + [e])[..|log|] == log
    ensures forall a :: Count(log + [e], a) == Count(log, a) + (if Is(e, a) then 1 else 0)
    ensures Steps(log + [e]) == Steps(log) + (if e.Step? then 1 else 0)
    ensures Resumes(log + [e]) == Resumes(log) + (if e.Resumed? then 1 else 0)
    ensures LastStep(log + [e]) == if e.Step? then Some(e) else LastStep(log)
    ensures SinceSenior(log + [e]) == if Is(e, Senior) then [] else SinceSenior(log) + [e]
    ensures SinceResume(log + [e]) == if e.Resumed? then Some(0)
                                      else if SinceResume(log).None? then None
                                      else Some(SinceResume(log).value + (if Is(e, Developer) then 1 else 0))
  {
    assert (log + [e])[..|log|] == log;
    forall a ensures Count(log + [e], a) == Count(log, a) + (if Is(e, a) then 1 else 0) {
      SnocCount(log, e, a);
    }
    SnocTail(log, e);
  }

  // --- The terminal a finished run returns ------------------------------------------------------

  predicate IsMark(e: Entry) {
    e.Finished? || (Is(e, Push) && e.outcome == Ok)
  }

  function MarkState(e: Entry): TerminalState
    requires IsMark(e)
  {
    if e.Finished? then e.state else Pushed
  }

  ghost predicate LastMarkAt(log: Log, i: nat) {
    i < |log| && IsMark(log[i]) && forall j :: i < j < |log| ==> !IsMark(log[j])
  }

  /** Some(s) exactly when the newest terminal mark is a sticky s and no resume after it clears s. */
  ghost predicate Recorded(log: Log, s: TerminalState) {
    exists i: nat :: LastMarkAt(log, i) && MarkState(log[i]) == s && Sticky(s) &&
                     forall j :: i < j < |log| && log[j].Resumed? ==> !ResumeClears(s)
  }

  /** At most one state is recorded. */
  lemma RecordedUnique(log: Log, s: TerminalState, t: TerminalState)
    requires Recorded(log, s) && Recorded(log, t)
    ensures s == t
  {
    var i: nat :| LastMarkAt(log, i) && MarkState(log[i]) == s;
    var j: nat :| LastMarkAt(log, j) && MarkState(log[j]) == t;
    assert i == j;
  }

  method RecordedTerminal(entries: Log) returns (r: Option<TerminalState>)
    ensures forall s :: Recorded(entries, s) <==> r == Some(s)
  {
    var idx := |entries|;
    while idx > 0
      invariant 0 <= idx <= |entries|
      invariant forall j :: idx <= j < |entries| ==> !IsMark(entries[j])
    {
      idx := idx - 1;
      var state;
      if entries[idx].Finished? {
        if !Sticky(entries[idx].state) {
          assert LastMarkAt(entries, idx);
          return None;
        }
        state := entries[idx].state;
      } else if Is(entries[idx], Push) && entries[idx].outcome == Ok {
        state := Pushed;
      } else {
        continue;
      }
      assert LastMarkAt(entries, idx);
      if exists j :: idx < j < |entries| && entries[j].Resumed? && ResumeClears(state) {
        return None;
      }
      forall s | Recorded(entries, s) ensures s == state {
        RecordedUnique(entries, s, state);
      }
      return Some(state);
    }
    return None;
  }

  lemma RecordedAfterMark(log: Log, e: Entry, s: TerminalState)
    requires IsMark(e)
    ensures Recorded(log + [e], s) <==> s == MarkState(e) && Sticky(s)
  {
    var grown := log + [e];
    assert LastMarkAt(grown, |log|);
    if Recorded(grown, s) {
      var i: nat :| LastMarkAt(grown, i) && MarkState(grown[i]) == s && Sticky(s);
      assert i == |log|;
    }
  }

  lemma LastMarkStays(log: Log, e: Entry, i: nat)
    requires !IsMark(e)
    ensures LastMarkAt(log + [e], i) <==> LastMarkAt(log, i)
  {
    var grown := log + [e];
    assert grown[|log|] == e && forall j :: 0 <= j < |log| ==> log[j] == grown[j];
  }

  lemma RecordedAfterOther(log: Log, e: Entry, s: TerminalState)
    requires !IsMark(e)
    ensures Recorded(log + [e], s) <==> Recorded(log, s) && (e.Resumed? ==> !ResumeClears(s))
  {
    var grown := log + [e];
    if Recorded(log, s) && (e.Resumed? ==> !ResumeClears(s)) {
      var i: nat :| LastMarkAt(log, i) && MarkState(log[i]) == s && Sticky(s) &&
                    forall j :: i < j < |log| && log[j].Resumed? ==> !ResumeClears(s);
      LastMarkStays(log, e, i);
    }
    if Recorded(grown, s) {
      var i: nat :| LastMarkAt(grown, i) && MarkState(grown[i]) == s && Sticky(s) &&
                    forall j :: i < j < |grown| && grown[j].Resumed? ==> !ResumeClears(s);
      LastMarkStays(log, e, i);
      assert grown[|log|] == e;
      assert forall j :: i < j < |log| && log[j].Resumed? ==> grown[j].Resumed?;
    }
  }

  /** How appending one entry changes the recorded terminal: a retryable terminal always re-enters,
      a clearing resume re-arms, and anything that is neither mark nor resume changes nothing. */
  lemma RecordedAfter(log: Log, e: Entry, s: TerminalState)
    ensures e.Finished? ==> (Recorded(log + [e], s) <==> s == e.state && Sticky(s))
    ensures Is(e, Push) && e.outcome == Ok ==> (Recorded(log + [e], s) <==> s == Pushed)
    ensures e.Resumed? ==> (Recorded(log + [e], s) <==> Recorded(log, s) && !ResumeClears(s))
    ensures !IsMark(e) && !e.Resumed? ==> (Recorded(log + [e], s) <==> Recorded(log, s))
  {
    if IsMark(e) {
      RecordedAfterMark(log, e, s);
    } else {
      RecordedAfterOther(log, e, s);
    }
  }

  // --- Derivation -------------------------------------------------------------------------------

  function AfterGo(cfg: Config): Action {
    if cfg.withAuthoritative then Authoritative else Push
  }

  function AfterRw1(cfg: Config): Action {
    if cfg.withRw2 then Rw2 else AfterGo(cfg)
  }

  /** The transition table; a pair that is not listed sends the task back to the developer. */
  function Transition(cfg: Config, a: Action, o: Outcome): Phase {
    match (a, o)
    case (Developer, Ok) => Do(FastTests)
    case (FastTests, Pass) => Do(Rw1)
    case (Rw1, Approved) => Do(AfterRw1(cfg))
    case (Rw2, Go) => Do(AfterGo(cfg))
    case (Authoritative, Pass) => Do(Push)
    case (Senior, Approved) => Do(AfterGo(cfg))
    case (Senior, Deadlock) => DeadlockPhase
    case (Push, Ok) => DonePhase
    case _ => Do(Developer)
  }

  function DerivedPhase(cfg: Config, log: Log): Phase {
    var p := match LastStep(log)
      case None => Do(Developer)
      case Some(e) => Transition(cfg, e.action, e.outcome);
    if p == Do(Developer) && Count(log, Developer) >= cfg.maxLoops then CapReachedPhase else p
  }

  function DerivedPoint(cfg: Config, log: Log): ResumePoint {
    var p := DerivedPhase(cfg, log);
    var rounds := Count(log, Developer);
    ResumePoint(
      if p == Do(Developer) || p == CapReachedPhase then rounds + 1 else if rounds > 1 then rounds else 1,
      p, LastSession(log, Developer), LastSession(log, Rw1), LastSession(log, Rw2))
  }

  // --- What the derivation says, read off the entries -------------------------------------------

  /** The newest phase entry is that one. */
  ghost predicate Newest(log: Log, a: Action, o: Outcome) {
    exists i :: NewestAt(log, i) && log[i].action == a && log[i].outcome == o
  }

  ghost predicate NewestAt(log: Log, i: int) {
    0 <= i < |log| && log[i].Step? && forall j :: i < j < |log| ==> !log[j].Step?
  }

  /** Where entries of an action stand, at `from` or after it. */
  ghost function Positions(log: Log, a: Action, from: nat): set<int> {
    set i | from <= i < |log| && log[i].Step? && log[i].action == a
  }

  ghost function HowMany(log: Log, a: Action, from: nat): nat {
    |Positions(log, a, from)|
  }

  /** The reviews are through: the last of those configured is a clean verdict, or a senior approved. */
  ghost predicate ReviewsThrough(cfg: Config, log: Log) {
    (!cfg.withRw2 && Newest(log, Rw1, Approved)) || Newest(log, Rw2, Go) || Newest(log, Senior, Approved)
  }

  ghost predicate Onward(log: Log) {
    Newest(log, Developer, Ok) || Newest(log, FastTests, Pass) || Newest(log, Rw1, Approved) || Newest(log, Rw2, Go) ||
    Newest(log, Authoritative, Pass) || Newest(log, Senior, Approved) || Newest(log, Senior, Deadlock) || Newest(log, Push, Ok)
  }

  /** What the next phase is, by the newest phase entry, the composition and the rounds used. */
  ghost predicate PhaseSays(cfg: Config, log: Log, p: Phase) {
    (p == Do(FastTests) <==> Newest(log, Developer, Ok)) &&
    (p == Do(Rw1) <==> Newest(log, FastTests, Pass)) &&
    (p == Do(Rw2) <==> cfg.withRw2 && Newest(log, Rw1, Approved)) &&
    (p == Do(Authoritative) <==> cfg.withAuthoritative && ReviewsThrough(cfg, log)) &&
    (p == Do(Push) <==> Newest(log, Authoritative, Pass) || (!cfg.withAuthoritative && ReviewsThrough(cfg, log))) &&
    (p == DonePhase <==> Newest(log, Push, Ok)) &&
    (p == DeadlockPhase <==> Newest(log, Senior, Deadlock)) &&
    (p == Do(Developer) <==> !Onward(log) && HowMany(log, Developer, 0) < cfg.maxLoops) &&
    (p == CapReachedPhase <==> !Onward(log) && HowMany(log, Developer, 0) >= cfg.maxLoops)
  }

  /** The newest session a role has on record, or none. */
  ghost predicate SessionSays(log: Log, a: Action, session: string) {
    if session == "" then forall i :: 0 <= i < |log| && log[i].Step? && log[i].action == a ==> log[i].session == ""
    else exists i :: SessionAt(log, a, i) && log[i].session == session
  }

  ghost predicate SessionAt(log: Log, a: Action, i: int) {
    0 <= i < |log| && log[i].Step? && log[i].action == a &&
    forall j :: i < j < |log| && log[j].Step? && log[j].action == a ==> log[j].session == ""
  }

  lemma {:induction false} LastStepIsNewest(log: Log)
    ensures LastStep(log).Some? ==> exists i :: NewestAt(log, i) && log[i] == LastStep(log).value
    ensures LastStep(log).None? ==> forall i :: 0 <= i < |log| ==> !log[i].Step?
  {
    if log != [] {
      var init := log[..|log| - 1];
      LastStepIsNewest(init);
      if log[|log| - 1].Step? {
        assert NewestAt(log, |log| - 1);
      } else if LastStep(init).Some? {
        var i :| NewestAt(init, i) && init[i] == LastStep(init).value;
        assert NewestAt(log, i) && log[i] == init[i];
      }
    }
  }

  lemma NewestIsLastStep(log: Log, a: Action, o: Outcome)
    ensures Newest(log, a, o) <==> LastStep(log).Some? && LastStep(log).value.action == a && LastStep(log).value.outcome == o
  {
    LastStepIsNewest(log);
    if Newest(log, a, o) {
      var i :| NewestAt(log, i) && log[i].action == a && log[i].outcome == o;
    }
  }

  lemma HowManySnoc(log: Log, e: Entry, a: Action, from: nat)
    requires from <= |log|
    ensures HowMany(log + [e], a, from) == HowMany(log, a, from) + (if Is(e, a) then 1 else 0)
  {
    assert Positions(log + [e], a, from) == Positions(log, a, from) + (if Is(e, a) then {|log|} else {});
  }

  lemma {:induction false} CountIsHowMany(log: Log, a: Action)
    ensures Count(log, a) == HowMany(log, a, 0)
  {
    if log == [] {
      assert Positions(log, a, 0) == {};
    } else {
      var init, e := log[..|log| - 1], log[|log| - 1];
      CountIsHowMany(init, a);
      HowManySnoc(init, e, a, 0);
      assert log == init + [e];
    }
  }

  lemma {:induction false} LastSessionSays(log: Log, a: Action)
    ensures SessionSays(log, a, LastSession(log, a))
  {
    if log != [] {
      var init, e := log[..|log| - 1], log[|log| - 1];
      LastSessionSays(init, a);
      if Is(e, a) && e.session != "" {
        assert SessionAt(log, a, |log| - 1);
      } else if LastSession(init, a) != "" {
        var i :| SessionAt(init, a, i) && init[i].session == LastSession(init, a);
        assert SessionAt(log, a, i);
      }
    }
  }

  lemma DerivedSays(cfg: Config, log: Log)
    ensures PhaseSays(cfg, log, DerivedPhase(cfg, log))
  {
    NewestIsLastStep(log, Developer, Ok);
    NewestIsLastStep(log, FastTests, Pass);
    NewestIsLastStep(log, Rw1, Approved);
    NewestIsLastStep(log, Rw2, Go);
    NewestIsLastStep(log, Authoritative, Pass);
    NewestIsLastStep(log, Senior, Approved);
    NewestIsLastStep(log, Senior, Deadlock);
    NewestIsLastStep(log, Push, Ok);
    CountIsHowMany(log, Developer);
  }

  lemma PointSays(cfg: Config, log: Log)
    ensures var rp := DerivedPoint(cfg, log);
            PhaseSays(cfg, log, rp.phase) && SessionSays(log, Developer, rp.devSession) && SessionSays(log, Rw1, rp.rw1Session) &&
            SessionSays(log, Rw2, rp.rw2Session) &&
            rp.round == (if Onward(log) && HowMany(log, Developer, 0) >= 1 then HowMany(log, Developer, 0)
                         else if Onward(log) then 1 else HowMany(log, Developer, 0) + 1)
  {
    DerivedSays(cfg, log);
    CountIsHowMany(log, Developer);
    LastSessionSays(log, Developer);
    LastSessionSays(log, Rw1);
    LastSessionSays(log, Rw2);
  }

  method DeriveResumePoint(entries: Log, cfg: Config) returns (rp: ResumePoint)
    ensures rp == DerivedPoint(cfg, entries)
    ensures PhaseSays(cfg, entries, rp.phase)
    ensures SessionSays(entries, Developer, rp.devSession) && SessionSays(entries, Rw1, rp.rw1Session) && SessionSays(entries, Rw2, rp.rw2Session)
    ensures rp.round == if Onward(entries) && HowMany(entries, Developer, 0) >= 1 then HowMany(entries, Developer, 0)
                        else if Onward(entries) then 1 else HowMany(entries, Developer, 0) + 1
  {
    var devSession, rw1Session, rw2Session := "", "", "";
    var roundsUsed := 0;
    var last: Option<Entry> := None;
    for i := 0 to |entries|
      invariant roundsUsed == Count(entries[..i], Developer)
      invariant last == LastStep(entries[..i])
      invariant devSession == LastSession(entries[..i], Developer)
      invariant rw1Session == LastSession(entries[..i], Rw1)
      invariant rw2Session == LastSession(entries[..i], Rw2)
    {
      var entry := entries[i];
      assert entries[..i + 1][..i] == entries[..i];
      if Is(entry, Developer) {
        roundsUsed := roundsUsed + 1;
        devSession := if entry.session != "" then entry.session else devSession;
      } else if Is(entry, Rw1) {
        rw1Session := if entry.session != "" then entry.session else rw1Session;
      } else if Is(entry, Rw2) {
        rw2Session := if entry.session != "" then entry.session else rw2Session;
      }
      if entry.Step? {
        last := Some(entry);
      }
    }
    assert entries[..|entries|] == entries;
    var nextPhase := Do(Developer);
    if last.Some? {
      nextPhase := Transition(cfg, last.value.action, last.value.outcome);
    }
    if nextPhase == Do(Developer) && roundsUsed >= cfg.maxLoops {
      nextPhase := CapReachedPhase;
    }
    var nextRound := if nextPhase == Do(Developer) || nextPhase == CapReachedPhase
      then roundsUsed + 1 else if roundsUsed > 1 then roundsUsed else 1;
    rp := ResumePoint(nextRound, nextPhase, devSession, rw1Session, rw2Session);
    PointSays(cfg, entries);
  }

  method DevRoundsSinceResume(entries: Log) returns (r: Option<nat>)
    ensures r == SinceResume(entries)
  {
    var count, i := 0, |entries|;
    assert entries[..i] == entries;
    while i > 0
      invariant 0 <= i <= |entries|
      invariant SinceResume(entries) ==
                (match SinceResume(entries[..i]) case None => None case Some(n) => Some(n + count))
    {
      assert entries[..i][..i - 1] == entries[..i - 1];
      i := i - 1;
      if entries[i].Resumed? {
        return Some(count);
      }
      if Is(entries[i], Developer) {
        count := count + 1;
      }
    }
    return None;
  }

  const RESUME_ROUND_GRANT: nat := 3

  predicate FlowsThrough(p: Phase) {
    p.Do? && p.action != Developer && p.action != Senior
  }

  /** A resume still granting rounds turns every phase but the gates and a fresh convergence into a
      developer round. */
  predicate ForcedDeveloper(log: Log, p: Phase) {
    match SinceResume(log)
    case None => false
    case Some(n) => n < RESUME_ROUND_GRANT && !FlowsThrough(p) && !(p == DonePhase && n > 0)
  }

  /** A resume is still granting: fewer than three developer rounds since the newest one, and the phase is neither a gate, a review or
      a push that is due nor a convergence reached since. */
  ghost predicate StillGranting(log: Log, p: Phase) {
    p !in {Do(FastTests), Do(Rw1), Do(Rw2), Do(Authoritative), Do(Push)} &&
    exists k :: NewestResumeAt(log, k) && HowMany(log, Developer, k + 1) < 3 && !(p == DonePhase && HowMany(log, Developer, k + 1) > 0)
  }

  ghost predicate NewestResumeAt(log: Log, k: int) {
    0 <= k < |log| && log[k].Resumed? && forall j :: k < j < |log| ==> !log[j].Resumed?
  }

  lemma {:induction false} SinceResumeSays(log: Log)
    ensures forall k :: NewestResumeAt(log, k) ==> SinceResume(log) == Some(HowMany(log, Developer, k + 1))
    ensures SinceResume(log).Some? ==> exists k :: NewestResumeAt(log, k)
  {
    if log != [] {
      var init, e := log[..|log| - 1], log[|log| - 1];
      SinceResumeSays(init);
      assert log == init + [e];
      if e.Resumed? {
        assert NewestResumeAt(log, |log| - 1);
        assert Positions(log, Developer, |log|) == {};
      } else {
        forall k | NewestResumeAt(log, k) ensures SinceResume(log) == Some(HowMany(log, Developer, k + 1)) {
          assert NewestResumeAt(init, k);
          HowManySnoc(init, e, Developer, k + 1);
        }
        if SinceResume(log).Some? {
          var k :| NewestResumeAt(init, k);
          assert NewestResumeAt(log, k);
        }
      }
    }
  }

  lemma ForcedSays(log: Log, p: Phase)
    requires p != Do(Senior)
    ensures ForcedDeveloper(log, p) <==> StillGranting(log, p)
  {
    SinceResumeSays(log);
  }

  method ResumeDeveloperPoint(entries: Log, rp: ResumePoint) returns (r: Option<ResumePoint>)
    ensures r == if ForcedDeveloper(entries, rp.phase)
                 then Some(rp.(phase := Do(Developer), round := Count(entries, Developer) + 1)) else None
    ensures rp.phase != Do(Senior) ==> (r.Some? <==> StillGranting(entries, rp.phase))
    ensures r.Some? ==> r.value == rp.(phase := Do(Developer), round := HowMany(entries, Developer, 0) + 1)
  {
    if rp.phase != Do(Senior) {
      ForcedSays(entries, rp.phase);
    }
    CountIsHowMany(entries, Developer);
    var since := DevRoundsSinceResume(entries);
    if since.None? || since.value >= RESUME_ROUND_GRANT {
      return None;
    }
    if FlowsThrough(rp.phase) {
      return None;
    }
    if rp.phase == DonePhase && since.value > 0 {
      return None;
    }
    return Some(rp.(phase := Do(Developer), round := Count(entries, Developer) + 1));
  }

  // --- Backstop ---------------------------------------------------------------------------------

  /** The recorded (non-empty) fingerprints of one action, oldest first. */
  function Prints(log: Log, a: Action): seq<string> {
    if log == [] then []
    else Prints(log[..|log| - 1], a) +
         (if Is(log[|log| - 1], a) && log[|log| - 1].fingerprint != "" then [log[|log| - 1].fingerprint] else [])
  }

  function Nogos(log: Log): nat {
    if log == [] then 0
    else Nogos(log[..|log| - 1]) + (if Is(log[|log| - 1], Rw2) && log[|log| - 1].outcome == Nogo then 1 else 0)
  }

  predicate Repeats(prints: seq<string>) {
    |prints| >= 2 && prints[|prints| - 1] == prints[|prints| - 2]
  }

  predicate Stuck(since: Log) {
    Repeats(Prints(since, Rw2)) || Repeats(Prints(since, Authoritative)) || Repeats(Prints(since, FastTests)) ||
    Nogos(since) >= 2
  }

  /** The last two recorded prints of the action at `from` or after it, at i and j, are the same. */
  ghost predicate SameTwice(log: Log, a: Action, from: nat, i: int, j: int) {
    from <= i < j < |log| && PrintAt(log, a, i) && PrintAt(log, a, j) && log[i].fingerprint == log[j].fingerprint &&
    forall k :: i < k < |log| && PrintAt(log, a, k) ==> k == j
  }

  predicate PrintAt(log: Log, a: Action, k: int)
    requires 0 <= k < |log|
  {
    log[k].Step? && log[k].action == a && log[k].fingerprint != ""
  }

  ghost predicate RepeatsFrom(log: Log, a: Action, from: nat) {
    exists i, j :: SameTwice(log, a, from, i, j)
  }

  ghost predicate TwoNogosFrom(log: Log, from: nat) {
    exists i, j :: from <= i < j < |log| && NogoAt(log, i) && NogoAt(log, j)
  }

  predicate NogoAt(log: Log, k: int)
    requires 0 <= k < |log|
  {
    log[k].Step? && log[k].action == Rw2 && log[k].outcome == Nogo
  }

  /** The entries after the last senior verdict start there. */
  ghost predicate SeniorlessFrom(log: Log, from: nat) {
    from <= |log| && (from > 0 ==> log[from - 1].Step? && log[from - 1].action == Senior) &&
    forall i :: from <= i < |log| ==> !(log[i].Step? && log[i].action == Senior)
  }

  /** Since the last senior verdict one gate failed twice in a row in the same way, or rw2 refused twice. */
  ghost predicate Stalled(log: Log) {
    exists from :: SeniorlessFrom(log, from) &&
      (RepeatsFrom(log, Rw2, from) || RepeatsFrom(log, Authoritative, from) || RepeatsFrom(log, FastTests, from) || TwoNogosFrom(log, from))
  }

  ghost predicate LastPrintAt(log: Log, a: Action, j: int) {
    0 <= j < |log| && PrintAt(log, a, j) && forall k :: j < k < |log| ==> !PrintAt(log, a, k)
  }

  /** That j is the last print, and the prints are those before it and its own. */
  ghost predicate PrintsEndAt(log: Log, a: Action, j: int) {
    LastPrintAt(log, a, j) && Prints(log, a) == Prints(log[..j], a) + [log[j].fingerprint]
  }

  ghost predicate NoPrints(log: Log, a: Action) {
    Prints(log, a) == [] && forall k :: 0 <= k < |log| ==> !PrintAt(log, a, k)
  }

  lemma PrintsSkip(log: Log, a: Action, init: Log)
    requires log != [] && init == log[..|log| - 1] && !PrintAt(log, a, |log| - 1)
    ensures NoPrints(init, a) ==> NoPrints(log, a)
    ensures forall j :: PrintsEndAt(init, a, j) ==> PrintsEndAt(log, a, j)
  {
    assert forall k :: 0 <= k < |log| - 1 ==> (PrintAt(log, a, k) <==> PrintAt(init, a, k));
    forall j | PrintsEndAt(init, a, j) ensures PrintsEndAt(log, a, j) {
      assert init[..j] == log[..j];
    }
  }

  lemma {:induction false} LastPrint(log: Log, a: Action) returns (j: int)
    ensures if j < 0 then NoPrints(log, a) else PrintsEndAt(log, a, j)
  {
    j := -1;
    if log != [] {
      if PrintAt(log, a, |log| - 1) {
        return |log| - 1;
      }
      j := LastPrint(log[..|log| - 1], a);
      PrintsSkip(log, a, log[..|log| - 1]);
    }
  }

  lemma RepeatsSays(log: Log, a: Action)
    ensures Repeats(Prints(log, a)) <==> RepeatsFrom(log, a, 0)
  {
    var j := LastPrint(log, a);
    if j >= 0 {
      var i := LastPrint(log[..j], a);
      if i >= 0 {
        TwoLast(log, a, i, j);
      } else {
        NoneBefore(log, a, j);
      }
    }
  }

  lemma TwoLast(log: Log, a: Action, i: int, j: int)
    requires 0 <= i < j < |log| && LastPrintAt(log, a, j) && LastPrintAt(log[..j], a, i)
    ensures RepeatsFrom(log, a, 0) <==> log[i].fingerprint == log[j].fingerprint
  {
    assert forall k :: 0 <= k < j ==> (PrintAt(log[..j], a, k) <==> PrintAt(log, a, k));
    if log[i].fingerprint == log[j].fingerprint {
      assert SameTwice(log, a, 0, i, j);
    }
    if RepeatsFrom(log, a, 0) {
      var x, y :| SameTwice(log, a, 0, x, y);
      assert y == j && x == i;
    }
  }

  lemma NoneBefore(log: Log, a: Action, j: int)
    requires LastPrintAt(log, a, j) && forall k :: 0 <= k < j ==> !PrintAt(log[..j], a, k)
    ensures !RepeatsFrom(log, a, 0)
  {
    assert forall k :: 0 <= k < j ==> (PrintAt(log[..j], a, k) <==> PrintAt(log, a, k));
  }

  ghost predicate SomeNogo(log: Log) {
    exists i :: 0 <= i < |log| && NogoAt(log, i)
  }

  lemma {:induction false} NogosSay(log: Log)
    ensures Nogos(log) >= 1 <==> SomeNogo(log)
    ensures Nogos(log) >= 2 <==> TwoNogosFrom(log, 0)
  {
    if log != [] {
      NogosSay(log[..|log| - 1]);
      NogoStep(log, log[..|log| - 1]);
    }
  }

  lemma NogoStep(log: Log, init: Log)
    requires log != [] && init == log[..|log| - 1]
    ensures SomeNogo(log) <==> SomeNogo(init) || NogoAt(log, |log| - 1)
    ensures TwoNogosFrom(log, 0) <==> TwoNogosFrom(init, 0) || (SomeNogo(init) && NogoAt(log, |log| - 1))
  {
    var n := |log| - 1;
    assert forall i :: 0 <= i < n ==> (NogoAt(init, i) <==> NogoAt(log, i));
    if SomeNogo(init) {
      var i :| 0 <= i < n && NogoAt(init, i);
      assert NogoAt(log, i);
    }
    if TwoNogosFrom(init, 0) {
      var i, j :| 0 <= i < j < |init| && NogoAt(init, i) && NogoAt(init, j);
      assert NogoAt(log, i) && NogoAt(log, j);
    }
  }

  lemma ShiftedRepeats(log: Log, a: Action, from: nat)
    requires from <= |log|
    ensures RepeatsFrom(log[from..], a, 0) <==> RepeatsFrom(log, a, from)
  {
    var tail := log[from..];
    assert forall k :: 0 <= k < |tail| ==> (PrintAt(tail, a, k) <==> PrintAt(log, a, from + k)) && tail[k] == log[from + k];
    if RepeatsFrom(tail, a, 0) {
      var i, j :| SameTwice(tail, a, 0, i, j);
      assert forall k :: from + i < k < |log| && PrintAt(log, a, k) ==> PrintAt(tail, a, k - from);
      assert SameTwice(log, a, from, from + i, from + j);
    }
    if RepeatsFrom(log, a, from) {
      var i, j :| SameTwice(log, a, from, i, j);
      assert SameTwice(tail, a, 0, i - from, j - from);
    }
  }

  lemma ShiftedNogos(log: Log, from: nat)
    requires from <= |log|
    ensures TwoNogosFrom(log[from..], 0) <==> TwoNogosFrom(log, from)
  {
    var tail := log[from..];
    assert forall k :: 0 <= k < |tail| ==> (NogoAt(tail, k) <==> NogoAt(log, from + k));
    if TwoNogosFrom(log, from) {
      var i, j :| from <= i < j < |log| && NogoAt(log, i) && NogoAt(log, j);
      assert NogoAt(tail, i - from) && NogoAt(tail, j - from);
    }
  }

  lemma {:induction false} SinceSeniorIsTail(log: Log) returns (from: nat)
    ensures SeniorlessFrom(log, from) && SinceSenior(log) == log[from..]
  {
    if log == [] {
      from := 0;
    } else if Is(log[|log| - 1], Senior) {
      from := |log|;
    } else {
      from := SinceSeniorIsTail(log[..|log| - 1]);
      assert log[..|log| - 1][from..] + [log[|log| - 1]] == log[from..];
    }
  }

  lemma StuckSays(log: Log)
    ensures Stuck(SinceSenior(log)) <==> Stalled(log)
  {
    var from := SinceSeniorIsTail(log);
    var since := log[from..];
    assert forall other :: SeniorlessFrom(log, other) ==> other == from;
    RepeatsSays(since, Rw2);
    RepeatsSays(since, Authoritative);
    RepeatsSays(since, FastTests);
    NogosSay(since);
    ShiftedRepeats(log, Rw2, from);
    ShiftedRepeats(log, Authoritative, from);
    ShiftedRepeats(log, FastTests, from);
    ShiftedNogos(log, from);
  }

  method NonconvergenceDetected(entries: Log) returns (r: bool)
    ensures r == Stuck(SinceSenior(entries))
    ensures r <==> Stalled(entries)
  {
    StuckSays(entries);
    var since := entries;
    var i := |entries|;
    assert entries[..i] == entries;
    while i > 0
      invariant 0 <= i <= |entries|
      invariant since == entries
      invariant SinceSenior(entries) == SinceSenior(entries[..i]) + entries[i..]
    {
      assert entries[..i][..i - 1] == entries[..i - 1];
      i := i - 1;
      assert [entries[i]] + entries[i + 1..] == entries[i..];
      if Is(entries[i], Senior) {
        since := entries[i + 1..];
        assert SinceSenior(entries[..i + 1]) == [] && [] + since == since;
        break;
      }
    }
    assert since == SinceSenior(entries);
    return Stuck(since);
  }

  lemma OneIsNotStuck(e: Entry)
    ensures !Stuck([e])
  {
    assert [e][..0] == [];
    assert forall a :: |Prints([e], a)| <= 1;
    assert Nogos([e]) <= 1;
  }

  /** A senior verdict re-arms the backstop: whatever one round adds after it is not yet a stall. */
  lemma SeniorRearms(log: Log, senior: Entry, e: Entry)
    requires Is(senior, Senior)
    ensures !Stuck(SinceSenior(log + [senior]))
    ensures !Stuck(SinceSenior(log + [senior] + [e]))
  {
    Snoc(log, senior);
    Snoc(log + [senior], e);
    OneIsNotStuck(e);
    assert [] + [e] == [e];
  }

  /** One turn's phase: derivation, then the resume grant, then the backstop and senior triggers.
      `sensitive` is "declared risk is high or the diff touches an invariant test". */
  function Turn(cfg: Config, log: Log, sensitive: bool): Phase {
    var p := DerivedPhase(cfg, log);
    if ForcedDeveloper(log, p) then Do(Developer)
    else if !cfg.withSenior then p
    else if p == Do(Developer) && Stuck(SinceSenior(log)) then
      (if Count(log, Senior) > 0 then DeadlockPhase else Do(Senior))
    else if (p == Do(Authoritative) || p == Do(Push)) && Count(log, Senior) == 0 && sensitive then Do(Senior)
    else p
  }

  lemma {:induction false} NoSeniorSays(log: Log)
    ensures Count(log, Senior) == 0 <==> NoSenior(log)
  {
    if log != [] {
      var init := log[..|log| - 1];
      NoSeniorSays(init);
      assert forall i :: 0 <= i < |init| ==> init[i] == log[i];
    }
  }

  /** The senior has not been entered. */
  predicate NoSenior(log: Log) {
    forall i :: 0 <= i < |log| ==> !(log[i].Step? && log[i].action == Senior)
  }

  method OverridePhase(cfg: Config, entries: Log, phase: Phase, sensitive: bool) returns (p: Phase)
    requires phase == DerivedPhase(cfg, entries) && !ForcedDeveloper(entries, phase)
    ensures p == Turn(cfg, entries, sensitive)
    ensures p == if cfg.withSenior && phase == Do(Developer) && Stalled(entries) then (if NoSenior(entries) then Do(Senior) else DeadlockPhase)
                 else if cfg.withSenior && (phase == Do(Authoritative) || phase == Do(Push)) && NoSenior(entries) && sensitive then Do(Senior)
                 else phase
  {
    StuckSays(entries);
    NoSeniorSays(entries);
    if !cfg.withSenior {
      return phase;
    }
    if phase == Do(Developer) {
      var stalled := NonconvergenceDetected(entries);
      if stalled {
        return if Count(entries, Senior) > 0 then DeadlockPhase else Do(Senior);
      }
    }
    if (phase == Do(Authoritative) || phase == Do(Push)) && Count(entries, Senior) == 0 {
      if sensitive {
        return Do(Senior);
      }
    }
    return phase;
  }
}
