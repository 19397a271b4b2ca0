/** The terminal tail under crashes: summary, commit, push, notify, markers, commit, push - with a
    crash or a failing git command allowed after every side effect, and any number of re-kickoffs. */
module LoopTail {
  import opened Wrappers
  import opened Terminals
  import opened LoopLog
  import LoopRuns

  /** A committed state of the task branch: the code, the summary/handback and the log. */
  datatype Snapshot = Snapshot(tree: nat, papers: Option<TerminalState>, log: Log)

  /** One notification, with the log and code it was sent over. */
  datatype Notice = Notice(state: TerminalState, log: Log, tree: nat)

  datatype Where =
    | Idle
    | Running
    | Tail(state: TerminalState, step: nat)
    | DoneTail(state: TerminalState, step: nat)
    | Cleanup(step: nat)

  /** The worktree (`tree`, `papers`, `log`), the local branch, the hub's branch, the notifications
      and where the loop process stands. A crash loses only `at`. */
  datatype World = World(tree: nat, papers: Option<TerminalState>, log: Log,
                         commits: seq<Snapshot>, hub: seq<Snapshot>, sent: seq<Notice>, at: Where)

  const PUSH_OK := Step(Push, Ok, None, "", false, "")

  // --- Side effects -----------------------------------------------------------------------------

  function CommitAll(w: World): World {
    w.(commits := w.commits + [Snapshot(w.tree, w.papers, w.log)])
  }

  /** A push that is not a fast-forward of the hub is refused. */
  predicate CanPush(w: World) {
    w.hub <= w.commits
  }

  function PushHub(w: World): World {
    w.(hub := w.commits)
  }

  function Notify(w: World, s: TerminalState): World {
    w.(sent := w.sent + [Notice(s, w.log, w.tree)])
  }

  function Append(w: World, e: Entry): World {
    w.(log := w.log + [e])
  }

  const TAIL_STEPS: nat := 8

  /** The k-th side effect of the terminal tail. */
  function Effect(w: World, s: TerminalState, k: nat): World {
    match k
    case 0 => w.(papers := Some(s))
    case 1 => CommitAll(w)
    case 2 => if Pushes(s) then PushHub(w) else w
    case 3 => Notify(w, s)
    case 4 => if SpecOf(s).kind == SuccessKind then Append(w, PUSH_OK) else w
    case 5 => Append(w, Finished(s))
    case 6 => CommitAll(w)
    case 7 => if Pushes(s) then PushHub(w) else w
    case _ => w
  }

  predicate EffectSucceeds(w: World, s: TerminalState, k: nat) {
    (k == 2 || k == 7) && Pushes(s) ==> CanPush(w)
  }

  function TailFrom(w: World, s: TerminalState, k: nat): World {
    Effect(w, s, k).(at := if k + 1 < TAIL_STEPS then Tail(s, k + 1) else Idle)
  }

  // --- Moves ------------------------------------------------------------------------------------

  datatype Move =
    | Kick
    | Edit(tree: nat)
    | Log(entry: Entry)
    | Commit
    | Stop(state: TerminalState)
    | StopDone(state: TerminalState, sensitive: bool)
    | TailMove
    | Fault
    | CleanupMove(skipped: bool)
    | Crash
    | Sync
    | Rearm
    | HubEdit(tree: nat)

  ghost predicate Unfinished(log: Log) {
    forall s :: !Recorded(log, s)
  }

  ghost predicate Enabled(cfg: Config, w: World, m: Move) {
    match m
    case Kick => w.at == Idle
    case Edit(_) => w.at == Running
    case Log(e) => e.Remark? || (w.at == Running && e.Step? && !IsMark(e))
    case Commit => w.at == Running
    case Stop(s) => w.at == Running
    case StopDone(s, sensitive) =>
      w.at == Running && LoopLog.Turn(cfg, w.log, sensitive) == DonePhase && SpecOf(s).kind == SuccessKind
    case TailMove => (w.at.Tail? && EffectSucceeds(w, w.at.state, w.at.step)) ||
                     (w.at.DoneTail? && (w.at.step == 2 ==> CanPush(w)))
    case Fault => w.at.Running? || w.at.Tail? || w.at.DoneTail?
    case CleanupMove(_) => w.at.Cleanup?
    case Crash => true
    case Sync => w.at == Idle && w.hub != []
    case Rearm => w.at == Idle && LoopRuns.LastTerminal(w.log).Some? && ResumeClears(LoopRuns.LastTerminal(w.log).value)
    case HubEdit(_) => w.hub != []
  }

  /** The crash-window resume: the push is on record, so only the marker, its commit and its push. */
  function DoneFrom(w: World): World
    requires w.at.DoneTail?
  {
    match w.at.step
    case 0 => Append(w, Finished(w.at.state)).(at := DoneTail(w.at.state, 1))
    case 1 => CommitAll(w).(at := DoneTail(w.at.state, 2))
    case _ => PushHub(w).(at := Idle)
  }

  /** The catch-all: marker, papers, commit - each may fail and is skipped - then the notification. */
  function CleanupFrom(w: World, skipped: bool): World
    requires w.at.Cleanup?
  {
    match w.at.step
    case 0 => (if skipped then w else Append(w, Finished(InternalError))).(at := Cleanup(1))
    case 1 => (if skipped then w else w.(papers := Some(InternalError))).(at := Cleanup(2))
    case 2 => (if skipped then w else CommitAll(w)).(at := Cleanup(3))
    case _ => Notify(w, InternalError).(at := Idle)
  }

  ghost function Apply(cfg: Config, w: World, m: Move): World
    requires Enabled(cfg, w, m)
  {
    match m
    case Kick => if Unfinished(w.log) then w.(at := Running) else w
    case Edit(t) => w.(tree := t)
    case Log(e) => Append(w, e)
    case Commit => CommitAll(w)
    case Stop(s) => w.(at := Tail(s, 0))
    case StopDone(s, _) => w.(at := DoneTail(s, 0))
    case TailMove => if w.at.Tail? then TailFrom(w, w.at.state, w.at.step) else DoneFrom(w)
    case Fault => w.(at := Cleanup(0))
    case CleanupMove(skipped) => CleanupFrom(w, skipped)
    case Crash => w.(at := Idle)
    case Sync => var tip := w.hub[|w.hub| - 1]; w.(tree := tip.tree, papers := tip.papers, log := tip.log, commits := w.hub)
    case Rearm => CommitAll(Append(w, Resumed))
    case HubEdit(t) => w.(hub := w.hub + [w.hub[|w.hub| - 1].(tree := t)])
  }

  // --- What a recorded finish is worth ----------------------------------------------------------

  /** Nothing but marks and remarks after position k: the task has not moved since. */
  predicate QuietAfter(log: Log, k: nat) {
    forall j :: k <= j < |log| ==> !log[j].Resumed? && (log[j].Step? ==> IsMark(log[j]))
  }

  /** The states agree, except that both may be successes: a kill between `push ok` and the marker
      re-reads a decided push as plain Pushed. */
  predicate Matches(told: TerminalState, s: TerminalState) {
    told == s || (SpecOf(told).kind == SuccessKind && SpecOf(s).kind == SuccessKind)
  }

  predicate ToldBy(n: Notice, log: Log, s: TerminalState) {
    n.log <= log && QuietAfter(log, |n.log|) && Matches(n.state, s)
  }

  ghost predicate ToldOf(sent: seq<Notice>, log: Log, s: TerminalState) {
    exists i :: 0 <= i < |sent| && ToldBy(sent[i], log, s)
  }

  predicate DeliveredIn(hub: seq<Snapshot>, tree: nat, s: TerminalState) {
    exists i :: 0 <= i < |hub| && hub[i].tree == tree && hub[i].papers == Some(s)
  }

  /** A push is on record and the task has not moved since. */
  predicate SettledAt(log: Log, i: nat) {
    i < |log| && Is(log[i], Push) && log[i].outcome == Ok && QuietAfter(log, i)
  }

  ghost predicate Claims(log: Log, s: TerminalState) {
    Recorded(log, s) || (s == Pushed && exists i :: SettledAt(log, i))
  }

  ghost predicate Told(sent: seq<Notice>, log: Log) {
    forall s :: Claims(log, s) ==> ToldOf(sent, log, s)
  }

  ghost predicate Delivered(w: World) {
    forall i :: 0 <= i < |w.sent| && Pushes(w.sent[i].state) ==> DeliveredIn(w.hub, w.sent[i].tree, w.sent[i].state)
  }

  predicate TipIs(w: World, s: TerminalState) {
    w.commits != [] && w.commits[|w.commits| - 1].tree == w.tree && w.commits[|w.commits| - 1].papers == Some(s)
  }

  ghost predicate PcInv(w: World) {
    match w.at
    case Running => Unfinished(w.log)
    case Tail(s, k) =>
      (k >= 1 ==> w.papers == Some(s)) &&
      (k == 2 ==> TipIs(w, s)) &&
      (k >= 3 && Pushes(s) ==> DeliveredIn(w.hub, w.tree, s)) &&
      (k >= 4 ==> ToldOf(w.sent, w.log, s))
    case DoneTail(s, k) => k <= 2 && SpecOf(s).kind == SuccessKind && (k == 0 ==> ToldOf(w.sent, w.log, s))
    case _ => true
  }

  ghost predicate Inv(w: World) {
    Told(w.sent, w.log) && Delivered(w) && PcInv(w) &&
    (forall i :: 0 <= i < |w.commits| ==> Told(w.sent, w.commits[i].log)) &&
    (forall i :: 0 <= i < |w.hub| ==> Told(w.sent, w.hub[i].log))
  }

  // --- Preservation -----------------------------------------------------------------------------

  lemma ToldOfGrows(sent: seq<Notice>, more: seq<Notice>, log: Log, tail: Log, s: TerminalState)
    requires ToldOf(sent, log, s) && QuietAfter(tail, 0)
    ensures ToldOf(sent + more, log + tail, s)
  {
    var i :| 0 <= i < |sent| && ToldBy(sent[i], log, s);
    assert (sent + more)[i] == sent[i];
    forall j | |sent[i].log| <= j < |log + tail|
      ensures !(log + tail)[j].Resumed? && ((log + tail)[j].Step? ==> IsMark((log + tail)[j]))
    {
      if j >= |log| {
        assert (log + tail)[j] == tail[j - |log|];
      }
    }
    assert ToldBy((sent + more)[i], log + tail, s);
  }

  lemma ToldGrows(sent: seq<Notice>, more: seq<Notice>, log: Log)
    requires Told(sent, log)
    ensures Told(sent + more, log)
  {
    forall s | Claims(log, s)
      ensures ToldOf(sent + more, log, s)
    {
      ToldOfGrows(sent, more, log, [], s);
      assert log + [] == log;
    }
  }

  lemma SettledBefore(log: Log, e: Entry, i: nat)
    requires SettledAt(log + [e], i)
    ensures !e.Resumed? && (e.Step? ==> IsMark(e))
    ensures i < |log| ==> SettledAt(log, i)
  {
    var grown := log + [e];
    assert grown[|log|] == e;
    if i < |log| {
      assert log[i] == grown[i];
      forall j | i <= j < |log|
        ensures !log[j].Resumed? && (log[j].Step? ==> IsMark(log[j]))
      {
        assert log[j] == grown[j];
      }
    }
  }

  /** Appending a remark, or a mark the notification of which is already out. */
  lemma QuietAppend(sent: seq<Notice>, log: Log, e: Entry)
    requires Told(sent, log) && !e.Resumed?
    requires e.Step? ==> IsMark(e)
    requires IsMark(e) && Sticky(MarkState(e)) ==> ToldOf(sent, log, MarkState(e))
    ensures Told(sent, log + [e])
  {
    forall s | Claims(log + [e], s)
      ensures ToldOf(sent, log + [e], s)
    {
      RecordedAfter(log, e, s);
      if !Recorded(log + [e], s) {
        var i :| SettledAt(log + [e], i);
        SettledBefore(log, e, i);
      }
      assert Claims(log, s) || (IsMark(e) && Sticky(MarkState(e)) && MarkState(e) == s);
      ToldOfGrows(sent, [], log, [e], s);
      assert sent + [] == sent;
    }
  }

  /** Appending a phase entry to an unfinished log leaves nothing to account for. */
  lemma PhaseAppend(sent: seq<Notice>, log: Log, e: Entry)
    requires Unfinished(log) && e.Step? && !IsMark(e)
    ensures Told(sent, log + [e]) && Unfinished(log + [e])
  {
    forall s
      ensures !Claims(log + [e], s) && !Recorded(log + [e], s)
    {
      RecordedAfter(log, e, s);
      if i :| SettledAt(log + [e], i) {
        SettledBefore(log, e, i);
      }
    }
  }

  lemma {:induction false} RecordedIsLast(log: Log, s: TerminalState)
    requires Recorded(log, s)
    ensures LoopRuns.LastTerminal(log) == Some(s)
  {
    var init, e := log[..|log| - 1], log[|log| - 1];
    assert init + [e] == log;
    RecordedAfter(init, e, s);
    if !IsMark(e) {
      RecordedIsLast(init, s);
    }
  }

  lemma ResumeAppend(sent: seq<Notice>, log: Log)
    requires LoopRuns.LastTerminal(log).Some? && ResumeClears(LoopRuns.LastTerminal(log).value)
    ensures Told(sent, log + [Resumed])
  {
    forall s
      ensures !Claims(log + [Resumed], s)
    {
      RecordedAfter(log, Resumed, s);
      if Recorded(log, s) {
        RecordedIsLast(log, s);
      }
      if i :| SettledAt(log + [Resumed], i) {
        SettledBefore(log, Resumed, i);
      }
    }
  }

  /** The replay reads `done` only over a push that nothing has overtaken. */
  lemma {:induction false} LastStepSettles(log: Log)
    requires LastStep(log).Some? && IsMark(LastStep(log).value)
    requires SinceResume(log) != Some(0)
    ensures exists i :: SettledAt(log, i)
  {
    var init, e := log[..|log| - 1], log[|log| - 1];
    assert init + [e] == log;
    Snoc(init, e);
    if e.Step? {
      assert SettledAt(log, |log| - 1);
    } else {
      LastStepSettles(init);
      var i :| SettledAt(init, i);
      assert forall j :: 0 <= j < |init| ==> log[j] == init[j];
      assert SettledAt(log, i);
    }
  }

  lemma DoneIsTold(cfg: Config, w: World, s: TerminalState, sensitive: bool)
    requires Told(w.sent, w.log) && LoopLog.Turn(cfg, w.log, sensitive) == DonePhase
    requires SpecOf(s).kind == SuccessKind
    ensures ToldOf(w.sent, w.log, s)
  {
    LastStepSettles(w.log);
    assert Claims(w.log, Pushed);
    var i :| 0 <= i < |w.sent| && ToldBy(w.sent[i], w.log, Pushed);
    assert ToldBy(w.sent[i], w.log, s);
  }

  lemma HubGrows(w: World, hub: seq<Snapshot>)
    requires Delivered(w) && w.hub <= hub
    ensures Delivered(w.(hub := hub))
    ensures forall t, s :: DeliveredIn(w.hub, t, s) ==> DeliveredIn(hub, t, s)
  {
    forall t, s | DeliveredIn(w.hub, t, s)
      ensures DeliveredIn(hub, t, s)
    {
      var i :| 0 <= i < |w.hub| && w.hub[i].tree == t && w.hub[i].papers == Some(s);
      assert hub[i] == w.hub[i];
    }
  }

  lemma NotifyKeeps(w: World, s: TerminalState)
    requires Inv(w) && (Pushes(s) ==> DeliveredIn(w.hub, w.tree, s))
    ensures var n := Notify(w, s);
            Told(n.sent, n.log) && Delivered(n) && ToldOf(n.sent, n.log, s) &&
            (forall i :: 0 <= i < |n.commits| ==> Told(n.sent, n.commits[i].log)) &&
            (forall i :: 0 <= i < |n.hub| ==> Told(n.sent, n.hub[i].log))
  {
    var notice := Notice(s, w.log, w.tree);
    forall log | Told(w.sent, log)
      ensures Told(w.sent + [notice], log)
    {
      ToldGrows(w.sent, [notice], log);
    }
    assert ToldBy((w.sent + [notice])[|w.sent|], w.log, s);
  }

  lemma MarkKeeps(w: World, e: Entry)
    requires Inv(w) && !e.Resumed? && (e.Step? ==> IsMark(e))
    requires IsMark(e) && Sticky(MarkState(e)) ==> ToldOf(w.sent, w.log, MarkState(e))
    ensures Told(w.sent, w.log + [e])
    ensures forall s :: ToldOf(w.sent, w.log, s) ==> ToldOf(w.sent, w.log + [e], s)
  {
    QuietAppend(w.sent, w.log, e);
    forall s | ToldOf(w.sent, w.log, s)
      ensures ToldOf(w.sent, w.log + [e], s)
    {
      ToldOfGrows(w.sent, [], w.log, [e], s);
      assert w.sent + [] == w.sent;
    }
  }

  lemma PushedForSuccess(sent: seq<Notice>, log: Log, s: TerminalState)
    requires ToldOf(sent, log, s) && SpecOf(s).kind == SuccessKind
    ensures ToldOf(sent, log, Pushed)
  {
    var i :| 0 <= i < |sent| && ToldBy(sent[i], log, s);
    assert ToldBy(sent[i], log, Pushed);
  }

  lemma TailMarks(w: World, s: TerminalState, k: nat)
    requires Inv(w) && w.at == Tail(s, k) && (k == 4 || k == 5)
    ensures Inv(TailFrom(w, s, k))
  {
    if k == 5 {
      MarkKeeps(w, Finished(s));
    } else if SpecOf(s).kind == SuccessKind {
      PushedForSuccess(w.sent, w.log, s);
      MarkKeeps(w, PUSH_OK);
    }
  }

  lemma TailPushes(w: World, s: TerminalState, k: nat)
    requires Inv(w) && w.at == Tail(s, k) && EffectSucceeds(w, s, k) && (k == 2 || k == 7)
    ensures Inv(TailFrom(w, s, k))
  {
    if Pushes(s) {
      HubGrows(w, w.commits);
    }
  }

  lemma TailKeeps(w: World, s: TerminalState, k: nat)
    requires Inv(w) && w.at == Tail(s, k) && EffectSucceeds(w, s, k)
    ensures Inv(TailFrom(w, s, k))
  {
    if k == 2 || k == 7 {
      TailPushes(w, s, k);
    } else if k == 4 || k == 5 {
      TailMarks(w, s, k);
    } else if k == 3 {
      NotifyKeeps(w, s);
    }
  }

  lemma CleanupKeeps(w: World, skipped: bool)
    requires Inv(w) && w.at.Cleanup?
    ensures Inv(CleanupFrom(w, skipped))
  {
    match w.at.step
    case 0 => MarkKeeps(w, Finished(InternalError));
    case 1 =>
    case 2 =>
    case _ => NotifyKeeps(w, InternalError);
  }

  lemma DoneKeeps(w: World)
    requires Inv(w) && w.at.DoneTail? && (w.at.step == 2 ==> CanPush(w))
    ensures Inv(DoneFrom(w))
  {
    match w.at.step
    case 0 => MarkKeeps(w, Finished(w.at.state));
    case 1 =>
    case _ => HubGrows(w, w.commits);
  }

  lemma MoveKeeps(cfg: Config, w: World, m: Move)
    requires Inv(w) && Enabled(cfg, w, m)
    ensures Inv(Apply(cfg, w, m))
  {
    match m
    case Log(e) =>
      if e.Remark? {
        MarkKeeps(w, e);
        forall s { RecordedAfter(w.log, e, s); }
      } else {
        PhaseAppend(w.sent, w.log, e);
      }
    case StopDone(s, sensitive) => DoneIsTold(cfg, w, s, sensitive);
    case TailMove => if w.at.Tail? { TailKeeps(w, w.at.state, w.at.step); } else { DoneKeeps(w); }
    case CleanupMove(skipped) => CleanupKeeps(w, skipped);
    case Rearm => ResumeAppend(w.sent, w.log);
    case HubEdit(t) => HubGrows(w, w.hub + [w.hub[|w.hub| - 1].(tree := t)]);
    case _ =>
  }

  // --- Main results -----------------------------------------------------------------------------

  ghost predicate IsRun(cfg: Config, worlds: seq<World>, moves: seq<Move>) {
    |worlds| == |moves| + 1 && worlds[0] == World(0, None, [], [], [], [], Idle) &&
    forall i :: 0 <= i < |moves| ==> Enabled(cfg, worlds[i], moves[i]) && worlds[i + 1] == Apply(cfg, worlds[i], moves[i])
  }

  lemma {:induction false} RunKeeps(cfg: Config, worlds: seq<World>, moves: seq<Move>, i: nat)
    requires IsRun(cfg, worlds, moves) && i < |worlds|
    ensures Inv(worlds[i])
  {
    if i > 0 {
      RunKeeps(cfg, worlds, moves, i - 1);
      MoveKeeps(cfg, worlds[i - 1], moves[i - 1]);
    }
  }

  /** A notification over that log, with no phase entry since, announced the state; if it is a pushing one, the code and papers it
      announced are on the hub. */
  ghost predicate Accounted(w: World, log: Log, s: TerminalState) {
    exists j :: 0 <= j < |w.sent| && ToldBy(w.sent[j], log, s) && (Pushes(s) ==> DeliveredIn(w.hub, w.sent[j].tree, w.sent[j].state))
  }

  /** With a crash or a failing push anywhere and any number of re-kickoffs, resumes and rebuilt
      worktrees: whenever the worktree's log - or any log ever published on the hub - records a finish,
      its notification went out after the last phase entry of that log and, for a pushing state, the
      code and papers it announced are on the hub. */
  lemma FinishIsAccountedFor(cfg: Config, worlds: seq<World>, moves: seq<Move>, i: nat, log: Log, s: TerminalState)
    requires IsRun(cfg, worlds, moves) && i < |worlds|
    requires log == worlds[i].log || exists k :: 0 <= k < |worlds[i].hub| && worlds[i].hub[k].log == log
    requires Recorded(log, s)
    ensures Accounted(worlds[i], log, s)
  {
    var w := worlds[i];
    RunKeeps(cfg, worlds, moves, i);
    assert Claims(log, s);
    var j :| 0 <= j < |w.sent| && ToldBy(w.sent[j], log, s);
    assert Pushes(s) ==> Pushes(w.sent[j].state);
  }

  /** And what the hub holds then is the code of the worktree itself: from the first push of the tail on, the marker included, the very
      tree the finish is recorded over has been delivered with its papers, whatever the Director commits on the hub meanwhile. */
  lemma FinishIsRecordedOverDelivery(cfg: Config, worlds: seq<World>, moves: seq<Move>, i: nat, s: TerminalState, k: nat)
    requires IsRun(cfg, worlds, moves) && i < |worlds|
    requires worlds[i].at == Tail(s, k) && k >= 3 && Pushes(s)
    ensures DeliveredIn(worlds[i].hub, worlds[i].tree, s) && worlds[i].papers == Some(s)
  {
    RunKeeps(cfg, worlds, moves, i);
  }

  /** A kickoff on a recorded finish changes nothing at all; on any other log it re-enters, and that
      includes every log whose newest mark is a retryable terminal. */
  lemma KickDecides(cfg: Config, w: World)
    requires w.at == Idle
    ensures Apply(cfg, w, Kick) == w <==> exists s :: Recorded(w.log, s)
    ensures forall s :: !Sticky(s) ==> Apply(cfg, Append(w, Finished(s)), Kick).at == Running
  {
    forall s | !Sticky(s)
      ensures Unfinished(w.log + [Finished(s)])
    {
      forall t { RecordedAfter(w.log, Finished(s), t); }
    }
  }

  // --- The tail as the loop runs it -------------------------------------------------------------

  function Ran(w: World, s: TerminalState, k: nat): World {
    if k == 0 then w else Effect(Ran(w, s, k - 1), s, k - 1)
  }

  lemma RanFour(w: World, s: TerminalState)
    ensures var commits := w.commits + [Snapshot(w.tree, Some(s), w.log)];
            Ran(w, s, 4) == w.(papers := Some(s), commits := commits, hub := if Pushes(s) then commits else w.hub,
                               sent := w.sent + [Notice(s, w.log, w.tree)])
  {
    assert Ran(w, s, 1) == Effect(w, s, 0);
    assert Ran(w, s, 2) == Effect(Ran(w, s, 1), s, 1);
    assert Ran(w, s, 3) == Effect(Ran(w, s, 2), s, 2);
    assert Ran(w, s, 4) == Effect(Ran(w, s, 3), s, 3);
  }

  lemma RanEight(w: World, s: TerminalState, v: World)
    requires v == Ran(w, s, 4)
    ensures var log := v.log + (if SpecOf(s).kind == SuccessKind then [PUSH_OK] else []) + [Finished(s)];
            var commits := v.commits + [Snapshot(v.tree, v.papers, log)];
            Ran(w, s, 8) == v.(log := log, commits := commits, hub := if Pushes(s) then commits else v.hub)
  {
    assert Ran(w, s, 5) == Effect(v, s, 4);
    assert Ran(w, s, 6) == Effect(Ran(w, s, 5), s, 5);
    assert Ran(w, s, 7) == Effect(Ran(w, s, 6), s, 6);
    assert Ran(w, s, 8) == Effect(Ran(w, s, 7), s, 7);
    assert v.log + [] == v.log;
  }

  /** An uninterrupted tail leaves the marker, one notification sent over the log it found, and - for
      a pushing state - a hub whose tip carries the marker, so a rebuilt machine stops at once. */
  lemma WholeTail(w: World, s: TerminalState)
    ensures var done := Ran(w, s, TAIL_STEPS);
            done.sent == w.sent + [Notice(s, w.log, w.tree)] &&
            done.log == w.log + (if SpecOf(s).kind == SuccessKind then [PUSH_OK] else []) + [Finished(s)] &&
            (Recorded(done.log, s) <==> Sticky(s)) &&
            |done.commits| == |w.commits| + 2 && done.tree == w.tree &&
            done.commits[|w.commits| + 1] == Snapshot(w.tree, Some(s), done.log) &&
            done.hub == if Pushes(s) then done.commits else w.hub
  {
    RanFour(w, s);
    RanEight(w, s, Ran(w, s, 4));
    RecordedAfter(w.log + (if SpecOf(s).kind == SuccessKind then [PUSH_OK] else []), Finished(s), s);
  }

  /** The catch-all after a fault, with the marker, the papers and the commit each done or failed. */
  function CleanedUp(w: World, marked: bool, written: bool, committed: bool): World
    requires w.at == Cleanup(0)
  {
    CleanupFrom(CleanupFrom(CleanupFrom(CleanupFrom(w, !marked), !written), !committed), false)
  }

  /** Whatever of it fails, a cleanup that is not killed ends with one notification of the error, pushes nothing and records no finish,
      so that a kickoff goes on with the task. */
  lemma CleanupNotifies(w: World, marked: bool, written: bool, committed: bool)
    requires w.at == Cleanup(0) && Unfinished(w.log)
    ensures var done := CleanedUp(w, marked, written, committed);
            done.log == w.log + (if marked then [Finished(InternalError)] else []) &&
            done.sent == w.sent + [Notice(InternalError, done.log, w.tree)] && done.hub == w.hub && done.tree == w.tree &&
            done.papers == (if written then Some(InternalError) else w.papers) &&
            done.commits == w.commits + (if committed then [Snapshot(w.tree, done.papers, done.log)] else []) &&
            done.at == Idle && Unfinished(done.log)
  {
    forall s ensures !Recorded(w.log + [Finished(InternalError)], s) {
      RecordedAfter(w.log, Finished(InternalError), s);
    }
  }

  class Task {
    var tree: nat
    var papers: Option<TerminalState>
    var log: Log
    var commits: seq<Snapshot>
    var hub: seq<Snapshot>
    var sent: seq<Notice>
    var at: Where

    constructor ()
      ensures State() == World(0, None, [], [], [], [], Idle)
    {
      tree, papers, log, commits, hub, sent, at := 0, None, [], [], [], [], Idle;
    }

    ghost function State(): World
      reads this
    {
      World(tree, papers, log, commits, hub, sent, at)
    }

    /** A kickoff, after any run whatever: it returns the one state the log records, and then changes nothing - the notification is out
        and a pushing state's deliverable is on the hub - or there is none, and it enters the phases. */
    method Start(ghost cfg: Config, ghost worlds: seq<World>, ghost moves: seq<Move>) returns (r: Option<TerminalState>)
      requires IsRun(cfg, worlds, moves) && State() == worlds[|moves|] && at == Idle
      modifies this`at
      ensures State() == Apply(cfg, old(State()), Kick)
      ensures forall s :: Recorded(log, s) <==> r == Some(s)
      ensures r.Some? <==> State() == old(State())
      ensures r.Some? ==> Accounted(State(), log, r.value)
      ensures r.None? ==> at == Running
    {
      r := RecordedTerminal(log);
      if r.Some? {
        FinishIsAccountedFor(cfg, worlds, moves, |moves|, log, r.value);
      } else {
        at := Running;
      }
    }

    method Commit()
      modifies this`commits
      ensures State() == CommitAll(old(State()))
    {
      commits := commits + [Snapshot(tree, papers, log)];
    }

    method Push() returns (ok: bool)
      modifies this`hub
      ensures ok == CanPush(old(State()))
      ensures State() == if ok then PushHub(old(State())) else old(State())
    {
      ok := hub <= commits;
      if ok {
        hub := commits;
      }
    }

    /** The tail, with the process killed after `life` side effects; `ran` of them happened, and fewer
        than all eight only because of the kill or because the hub refused a push. */
    method Finalize(state: TerminalState, life: nat) returns (ran: nat)
      modifies this
      ensures ran <= TAIL_STEPS && State() == Ran(old(State()), state, ran)
      ensures ran < TAIL_STEPS ==> ran == life || !EffectSucceeds(State(), state, ran)
    {
      var spec := SpecOf(state);
      if life == 0 { return 0; }
      papers := Some(state);
      assert State() == Ran(old(State()), state, 1);
      if life == 1 { return 1; }
      Commit();
      assert State() == Ran(old(State()), state, 2);
      if life == 2 { return 2; }
      if spec.push {
        var ok := Push();
        if !ok { return 2; }
      }
      assert State() == Ran(old(State()), state, 3);
      if life == 3 { return 3; }
      sent := sent + [Notice(state, log, tree)];
      assert State() == Ran(old(State()), state, 4);
      if life == 4 { return 4; }
      if spec.kind == SuccessKind {
        log := log + [PUSH_OK];
      }
      assert State() == Ran(old(State()), state, 5);
      if life == 5 { return 5; }
      log := log + [Finished(state)];
      assert State() == Ran(old(State()), state, 6);
      if life == 6 { return 6; }
      Commit();
      assert State() == Ran(old(State()), state, 7);
      if life == 7 { return 7; }
      if spec.push {
        var ok := Push();
        if !ok { return 7; }
      }
      return 8;
    }
  }
}
