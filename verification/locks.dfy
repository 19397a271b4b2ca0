/** The single-flight lock at system-call grain: an flock guard around read-pid, test, truncate and
    write, a pid file, an unlink taken without the guard, and processes that may die at any point. */
module Locks {
  import opened Wrappers

  /** Where a process stands in `_acquire_lock` and the critical section around it. */
  datatype Pc =
    | Outside
    | Opened              // the guard file is open
    | Flocked             // the flock is held
    | Saw(seen: nat)       // the recorded pid was read; 0 is missing, empty or garbage
    | Refusing            // a live pid was recorded: QueueLocked, guard still open
    | Reclaiming          // no live pid was recorded
    | Truncated           // the pid file was created or emptied
    | Written             // our pid is in it, guard still held
    | Inside              // the guard is closed; the lock is ours

  datatype Proc = Proc(pid: nat, alive: bool, pc: Pc)

  datatype PidFile = Missing | Holds(pid: nat)

  /** Processes are told apart by an index that is never reused; pids may be. */
  datatype State = State(procs: seq<Proc>, file: PidFile, guard: Option<nat>)

  predicate Live(s: State, p: nat) {
    p < |s.procs| && s.procs[p].alive
  }

  predicate Holder(s: State, p: nat) {
    Live(s, p) && (s.procs[p].pc == Written || s.procs[p].pc == Inside)
  }

  predicate Guarding(pc: Pc) {
    !pc.Outside? && !pc.Opened? && !pc.Inside?
  }

  /** `_pid_alive`: some live process has this pid, whoever it is. */
  predicate PidAlive(s: State, pid: nat) {
    pid > 0 && exists p :: 0 <= p < |s.procs| && s.procs[p].alive && s.procs[p].pid == pid
  }

  function ReadPid(s: State): nat {
    if s.file.Missing? then 0 else s.file.pid
  }

  datatype Move =
    | Spawn(pid: nat)
    | OpenGuard(p: nat)
    | Flock(p: nat)
    | Read(p: nat)
    | Test(p: nat)
    | Truncate(p: nat)
    | Write(p: nat)
    | CloseGuard(p: nat)
    | Unlink(p: nat)
    | Die(p: nat)

  predicate Enabled(s: State, m: Move) {
    match m
    case Spawn(pid) => pid > 0 && !PidAlive(s, pid)
    case OpenGuard(p) => Live(s, p) && s.procs[p].pc == Outside
    case Flock(p) => Live(s, p) && s.procs[p].pc == Opened && s.guard.None?
    case Read(p) => Live(s, p) && s.procs[p].pc == Flocked
    case Test(p) => Live(s, p) && s.procs[p].pc.Saw?
    case Truncate(p) => Live(s, p) && s.procs[p].pc == Reclaiming
    case Write(p) => Live(s, p) && s.procs[p].pc == Truncated
    case CloseGuard(p) => Live(s, p) && (s.procs[p].pc == Written || s.procs[p].pc == Refusing)
    case Unlink(p) => Live(s, p) && s.procs[p].pc == Inside
    case Die(p) => Live(s, p)
  }

  function At(s: State, p: nat, pc: Pc): State
    requires p < |s.procs|
  {
    s.(procs := s.procs[p := s.procs[p].(pc := pc)])
  }

  function Apply(s: State, m: Move): State
    requires Enabled(s, m)
  {
    match m
    case Spawn(pid) => s.(procs := s.procs + [Proc(pid, true, Outside)])
    case OpenGuard(p) => At(s, p, Opened)
    case Flock(p) => At(s, p, Flocked).(guard := Some(p))
    case Read(p) => At(s, p, Saw(ReadPid(s)))
    case Test(p) => At(s, p, if PidAlive(s, s.procs[p].pc.seen) then Refusing else Reclaiming)
    case Truncate(p) => At(s, p, Truncated).(file := Holds(0))
    case Write(p) => At(s, p, Written).(file := Holds(s.procs[p].pid))
    case CloseGuard(p) => At(s, p, if s.procs[p].pc == Written then Inside else Outside).(guard := None)
    case Unlink(p) => At(s, p, Outside).(file := Missing)
    case Die(p) => s.(procs := s.procs[p := s.procs[p].(alive := false)], guard := if s.guard == Some(p) then None else s.guard)
  }

  // --- Invariant --------------------------------------------------------------------------------

  ghost predicate PidsDistinct(s: State) {
    (forall p: nat :: Live(s, p) ==> s.procs[p].pid > 0) &&
    (forall p: nat, q: nat :: Live(s, p) && Live(s, q) && p != q ==> s.procs[p].pid != s.procs[q].pid)
  }

  ghost predicate GuardExact(s: State) {
    (s.guard.Some? ==> Live(s, s.guard.value)) &&
    (forall p: nat :: Live(s, p) ==> (Guarding(s.procs[p].pc) <==> s.guard == Some(p)))
  }

  ghost predicate HolderRecorded(s: State) {
    forall p: nat :: Holder(s, p) ==> s.file == Holds(s.procs[p].pid)
  }

  /** What the guard's owner believes about the holder is true. */
  ghost predicate OwnerInformed(s: State) {
    forall q: nat, p: nat :: Live(s, q) && Holder(s, p) ==>
      (s.procs[q].pc.Saw? ==> s.procs[q].pc.seen == s.procs[p].pid) &&
      s.procs[q].pc != Reclaiming && s.procs[q].pc != Truncated
  }

  ghost predicate Inv(s: State) {
    PidsDistinct(s) && GuardExact(s) && HolderRecorded(s) && OwnerInformed(s)
  }

  lemma OneHolder(s: State, p: nat, q: nat)
    requires Inv(s) && Holder(s, p) && Holder(s, q)
    ensures p == q
  {
  }

  lemma SpawnKeeps(s: State, pid: nat)
    requires Inv(s) && Enabled(s, Spawn(pid))
    ensures Inv(Apply(s, Spawn(pid)))
  {
    var t := Apply(s, Spawn(pid));
    assert forall p :: 0 <= p < |s.procs| ==> t.procs[p] == s.procs[p];
    assert forall p: nat :: Live(t, p) ==> p == |s.procs| || Live(s, p);
    assert forall p: nat :: Holder(t, p) ==> Holder(s, p);
    assert forall p: nat :: Live(s, p) ==> s.procs[p].pid != pid;
  }

  /** A move of process p that writes no pid file: p's own place is all that matters. */
  lemma MovedKeeps(s: State, t: State, p: nat)
    requires Inv(s) && Live(s, p) && t.file == s.file
    requires |t.procs| == |s.procs| && t.procs == s.procs[p := t.procs[p]] && t.procs[p].pid == s.procs[p].pid
    requires t.guard == s.guard || (s.guard.None? && t.guard == Some(p)) || (s.guard == Some(p) && t.guard.None?)
    requires t.guard == Some(p) <==> t.procs[p].alive && Guarding(t.procs[p].pc)
    requires Holder(t, p) ==> Holder(s, p)
    requires t.procs[p].pc.Saw? ==> forall q: nat :: Holder(s, q) ==> t.procs[p].pc.seen == s.procs[q].pid
    requires t.procs[p].pc == Reclaiming || t.procs[p].pc == Truncated ==> forall q: nat :: !Holder(s, q)
    ensures Inv(t)
  {
    assert forall q :: 0 <= q < |s.procs| && q != p ==> t.procs[q] == s.procs[q];
    assert forall q: nat :: Live(t, q) ==> Live(s, q);
    assert forall q: nat :: Holder(t, q) ==> Holder(s, q);
  }

  /** A move of the guard's owner p that writes the pid file while no other process is inside. */
  lemma WroteKeeps(s: State, t: State, p: nat)
    requires Inv(s) && Live(s, p) && s.guard == Some(p) && (forall q: nat :: !Holder(s, q))
    requires |t.procs| == |s.procs| && t.procs == s.procs[p := t.procs[p]] && t.procs[p].pid == s.procs[p].pid && t.procs[p].alive
    requires t.guard == s.guard && (t.procs[p].pc == Truncated || t.procs[p].pc == Written)
    requires t.procs[p].pc == Written ==> t.file == Holds(s.procs[p].pid)
    ensures Inv(t)
  {
    assert forall q :: 0 <= q < |s.procs| && q != p ==> t.procs[q] == s.procs[q];
    assert forall q: nat :: Live(t, q) ==> Live(s, q);
    assert forall q: nat :: Holder(t, q) && q != p ==> Holder(s, q);
  }

  lemma UnlinkKeeps(s: State, p: nat)
    requires Inv(s) && Enabled(s, Unlink(p))
    ensures Inv(Apply(s, Unlink(p)))
  {
    var t := Apply(s, Unlink(p));
    assert Holder(s, p);
    assert forall q :: 0 <= q < |s.procs| && q != p ==> t.procs[q] == s.procs[q];
    assert forall q: nat :: Live(t, q) ==> Live(s, q);
    forall q: nat ensures !Holder(t, q) {
      if Holder(t, q) {
        assert Holder(s, q);
        OneHolder(s, p, q);
      }
    }
  }

  lemma NoHolderUnlessAlive(s: State, p: nat)
    requires Inv(s) && Live(s, p) && s.procs[p].pc.Saw? && !PidAlive(s, s.procs[p].pc.seen)
    ensures forall q: nat :: !Holder(s, q)
  {
    forall q: nat
      ensures Live(s, q) ==> s.procs[q].pid != s.procs[p].pc.seen || s.procs[q].pid == 0
    {
    }
  }

  lemma MoveKeeps(s: State, m: Move)
    requires Inv(s) && Enabled(s, m)
    ensures Inv(Apply(s, m))
  {
    var t := Apply(s, m);
    match m
    case Spawn(pid) => SpawnKeeps(s, pid);
    case Test(p) =>
      if !PidAlive(s, s.procs[p].pc.seen) { NoHolderUnlessAlive(s, p); }
      MovedKeeps(s, t, p);
    case Truncate(p) => WroteKeeps(s, t, p);
    case Write(p) => WroteKeeps(s, t, p);
    case Unlink(p) => UnlinkKeeps(s, p);
    case OpenGuard(p) => MovedKeeps(s, t, p);
    case Flock(p) => MovedKeeps(s, t, p);
    case Read(p) => MovedKeeps(s, t, p);
    case CloseGuard(p) => MovedKeeps(s, t, p);
    case Die(p) => MovedKeeps(s, t, p);
  }

  // --- Main results -----------------------------------------------------------------------------

  ghost predicate IsRun(states: seq<State>, moves: seq<Move>) {
    |states| == |moves| + 1 && states[0] == State([], Missing, None) &&
    forall i :: 0 <= i < |moves| ==> Enabled(states[i], moves[i]) && states[i + 1] == Apply(states[i], moves[i])
  }

  lemma {:induction false} RunKeeps(states: seq<State>, moves: seq<Move>, i: nat)
    requires IsRun(states, moves) && i < |states|
    ensures Inv(states[i])
  {
    if i == 0 {
      assert states[0] == State([], Missing, None);
    } else {
      RunKeeps(states, moves, i - 1);
      MoveKeeps(states[i - 1], moves[i - 1]);
    }
  }

  /** Over every interleaving, with crashes anywhere and pids reused at will: at most one live process
      holds the lock, and the pid file always carries its pid. */
  lemma MutualExclusion(states: seq<State>, moves: seq<Move>, i: nat, p: nat, q: nat)
    requires IsRun(states, moves) && i < |states|
    requires Holder(states[i], p) && Holder(states[i], q)
    ensures p == q && states[i].file == Holds(states[i].procs[p].pid)
  {
    RunKeeps(states, moves, i);
    OneHolder(states[i], p, q);
  }

  /** No unguarded unlink, and no truncation, ever takes away a live holder's file but the holder's
      own unlink. */
  lemma OnlyTheHolderRemoves(states: seq<State>, moves: seq<Move>, i: nat, p: nat)
    requires IsRun(states, moves) && i < |moves| && Holder(states[i], p)
    requires states[i + 1].file != states[i].file
    ensures moves[i] == Unlink(p)
  {
    RunKeeps(states, moves, i);
    RunKeeps(states, moves, i + 1);
    var s, m := states[i], moves[i];
    if m.Unlink? {
      OneHolder(s, p, m.p);
    }
  }

  // --- Reclaim ----------------------------------------------------------------------------------

  /** The acquire, run by p alone. */
  function Solo(s: State, p: nat): seq<Move> {
    if PidAlive(s, ReadPid(s)) then [OpenGuard(p), Flock(p), Read(p), Test(p), CloseGuard(p)]
    else [OpenGuard(p), Flock(p), Read(p), Test(p), Truncate(p), Write(p), CloseGuard(p)]
  }

  ghost predicate Leads(s: State, moves: seq<Move>, t: State)
    decreases |moves|
  {
    if moves == [] then s == t
    else Enabled(s, moves[0]) && Leads(Apply(s, moves[0]), moves[1..], t)
  }

  lemma SamePids(s: State, t: State, pid: nat)
    requires |s.procs| == |t.procs|
    requires forall q :: 0 <= q < |s.procs| ==> s.procs[q].pid == t.procs[q].pid && s.procs[q].alive == t.procs[q].alive
    ensures PidAlive(s, pid) == PidAlive(t, pid)
  {
    forall q | 0 <= q < |s.procs|
      ensures (s.procs[q].alive && s.procs[q].pid == pid) == (t.procs[q].alive && t.procs[q].pid == pid)
    {
    }
  }

  lemma LeadsStep(s: State, m: Move, rest: seq<Move>, t: State)
    requires Enabled(s, m) && Leads(Apply(s, m), rest, t)
    ensures Leads(s, [m] + rest, t)
  {
    assert ([m] + rest)[1..] == rest;
  }

  function Tested(s: State, p: nat, pc: Pc): State
    requires p < |s.procs|
  {
    At(s, p, pc).(guard := Some(p))
  }

  lemma RunsToTest(s: State, p: nat, rest: seq<Move>, t: State)
    requires s.guard.None? && Live(s, p) && s.procs[p].pc == Outside
    requires Leads(Tested(s, p, if PidAlive(s, ReadPid(s)) then Refusing else Reclaiming), rest, t)
    ensures Leads(s, [OpenGuard(p), Flock(p), Read(p), Test(p)] + rest, t)
  {
    var s1 := Apply(s, OpenGuard(p));
    var s2 := Apply(s1, Flock(p));
    var s3 := Apply(s2, Read(p));
    SamePids(s, s3, ReadPid(s));
    assert Apply(s3, Test(p)) == Tested(s, p, if PidAlive(s, ReadPid(s)) then Refusing else Reclaiming);
    LeadsStep(s3, Test(p), rest, t);
    LeadsStep(s2, Read(p), [Test(p)] + rest, t);
    LeadsStep(s1, Flock(p), [Read(p)] + ([Test(p)] + rest), t);
    LeadsStep(s, OpenGuard(p), [Flock(p)] + ([Read(p)] + ([Test(p)] + rest)), t);
    assert [OpenGuard(p), Flock(p), Read(p), Test(p)] + rest ==
           [OpenGuard(p)] + ([Flock(p)] + ([Read(p)] + ([Test(p)] + rest)));
  }

  lemma RunsFromReclaim(s: State, p: nat)
    requires s.guard.None? && Live(s, p)
    ensures Leads(Tested(s, p, Reclaiming), [Truncate(p), Write(p), CloseGuard(p)], At(s, p, Inside).(file := Holds(s.procs[p].pid)))
  {
    var t := At(s, p, Inside).(file := Holds(s.procs[p].pid));
    var s4 := Tested(s, p, Reclaiming);
    var s5 := Apply(s4, Truncate(p));
    var s6 := Apply(s5, Write(p));
    assert Apply(s6, CloseGuard(p)) == t;
    LeadsStep(s6, CloseGuard(p), [], t);
    LeadsStep(s5, Write(p), [CloseGuard(p)], t);
    LeadsStep(s4, Truncate(p), [Write(p), CloseGuard(p)], t);
    assert [Truncate(p)] + [Write(p), CloseGuard(p)] == [Truncate(p), Write(p), CloseGuard(p)];
    assert [Write(p)] + [CloseGuard(p)] == [Write(p), CloseGuard(p)];
  }

  /** Whenever the guard is free, an acquire run alone gets in exactly when the recorded pid is dead;
      otherwise it leaves everything as it was. */
  lemma SoloAcquire(s: State, p: nat)
    requires s.guard.None? && Live(s, p) && s.procs[p].pc == Outside
    ensures Leads(s, Solo(s, p), if PidAlive(s, ReadPid(s)) then s else At(s, p, Inside).(file := Holds(s.procs[p].pid)))
  {
    if PidAlive(s, ReadPid(s)) {
      assert Apply(Tested(s, p, Refusing), CloseGuard(p)).procs == s.procs;
      LeadsStep(Tested(s, p, Refusing), CloseGuard(p), [], s);
      RunsToTest(s, p, [CloseGuard(p)], s);
      assert Solo(s, p) == [OpenGuard(p), Flock(p), Read(p), Test(p)] + [CloseGuard(p)];
    } else {
      RunsFromReclaim(s, p);
      RunsToTest(s, p, [Truncate(p), Write(p), CloseGuard(p)], At(s, p, Inside).(file := Holds(s.procs[p].pid)));
      assert Solo(s, p) == [OpenGuard(p), Flock(p), Read(p), Test(p)] + [Truncate(p), Write(p), CloseGuard(p)];
    }
  }

  /** No spawned process takes a pid any earlier process had. */
  ghost predicate NoReuse(states: seq<State>, moves: seq<Move>) {
    IsRun(states, moves) &&
    forall i, p :: 0 <= i < |moves| && moves[i].Spawn? && 0 <= p < |states[i].procs| ==> states[i].procs[p].pid != moves[i].pid
  }

  /** A recorded pid is some process's, and a live process of that pid is the holder. */
  ghost predicate RecordHonest(s: State) {
    s.file.Holds? && s.file.pid > 0 ==>
      (exists p :: 0 <= p < |s.procs| && s.procs[p].pid == s.file.pid) &&
      (forall p: nat :: Live(s, p) && s.procs[p].pid == s.file.pid ==> Holder(s, p))
  }

  lemma HonestStep(s: State, m: Move)
    requires Inv(s) && RecordHonest(s) && Enabled(s, m)
    requires m.Spawn? ==> forall p :: 0 <= p < |s.procs| ==> s.procs[p].pid != m.pid
    ensures RecordHonest(Apply(s, m))
  {
    var t := Apply(s, m);
    if t.file.Holds? && t.file.pid > 0 {
      if m.Write? {
        assert t.procs[m.p].pid == t.file.pid;
      } else {
        var p :| 0 <= p < |s.procs| && s.procs[p].pid == s.file.pid;
        assert t.procs[p].pid == t.file.pid;
      }
      forall q: nat | Live(t, q) && t.procs[q].pid == t.file.pid
        ensures Holder(t, q)
      {
        if q < |s.procs| {
          assert Live(s, q) && s.procs[q].pid == t.procs[q].pid;
        }
      }
    }
  }

  lemma {:induction false} HonestRun(states: seq<State>, moves: seq<Move>, i: nat)
    requires NoReuse(states, moves) && i < |states|
    ensures RecordHonest(states[i])
  {
    if i > 0 {
      HonestRun(states, moves, i - 1);
      RunKeeps(states, moves, i - 1);
      HonestStep(states[i - 1], moves[i - 1]);
    }
  }

  /** Without pid reuse a crash never wedges the lock: once no live process holds it or the guard, any
      newcomer running alone gets in, whatever earlier holders left behind. */
  lemma CrashedLockIsRetaken(states: seq<State>, moves: seq<Move>, i: nat, p: nat)
    requires NoReuse(states, moves) && i < |states|
    requires states[i].guard.None? && (forall q: nat :: !Holder(states[i], q))
    requires Live(states[i], p) && states[i].procs[p].pc == Outside
    ensures Leads(states[i], Solo(states[i], p), At(states[i], p, Inside).(file := Holds(states[i].procs[p].pid)))
  {
    HonestRun(states, moves, i);
    SoloAcquire(states[i], p);
  }
}
