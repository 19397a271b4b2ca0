/** The hub-main tripwire as a protocol over a commit DAG: checks, Director pushes, local merges and
    an adversary that may move or delete the hub's main. */
module Tripwire {
  import opened Wrappers

  /** A commit is named by its content and its parents, so the value is the history below it. */
  datatype Commit = Commit(id: nat, parents: seq<Commit>)

  predicate Ancestor(a: Commit, c: Commit)
    decreases c
  {
    a == c || exists i :: 0 <= i < |c.parents| && Ancestor(a, c.parents[i])
  }

  lemma {:induction false} AncestorTrans(a: Commit, b: Commit, c: Commit)
    requires Ancestor(a, b) && Ancestor(b, c)
    ensures Ancestor(a, c)
    decreases c
  {
    if b != c {
      var i :| 0 <= i < |c.parents| && Ancestor(b, c.parents[i]);
      AncestorTrans(a, b, c.parents[i]);
    }
  }

  /** From a child to its parent, and so on down. */
  predicate IsPath(path: seq<Commit>) {
    path != [] && forall i :: 0 <= i < |path| - 1 ==> path[i + 1] in path[i].parents
  }

  /** One commit is an ancestor of another exactly when parent links lead to it. */
  lemma {:induction false} AncestorIsAPath(a: Commit, c: Commit) returns (path: seq<Commit>)
    requires Ancestor(a, c)
    ensures IsPath(path) && path[0] == c && path[|path| - 1] == a
    decreases c
  {
    path := [c];
    if a != c {
      var i :| 0 <= i < |c.parents| && Ancestor(a, c.parents[i]);
      var rest := AncestorIsAPath(a, c.parents[i]);
      path := [c] + rest;
    }
  }

  lemma {:induction false} PathIsAncestor(path: seq<Commit>)
    requires IsPath(path)
    ensures Ancestor(path[|path| - 1], path[0])
  {
    if |path| > 1 {
      var rest := path[1..];
      assert forall i :: 0 <= i < |rest| ==> rest[i] == path[i + 1];
      PathIsAncestor(rest);
      var c := path[0];
      var i :| 0 <= i < |c.parents| && c.parents[i] == path[1];
    }
  }

  lemma AncestorExactly(a: Commit, c: Commit)
    ensures Ancestor(a, c) <==> exists path :: IsPath(path) && path[0] == c && path[|path| - 1] == a
  {
    if Ancestor(a, c) {
      var path := AncestorIsAPath(a, c);
    }
    if exists path :: IsPath(path) && path[0] == c && path[|path| - 1] == a {
      var path :| IsPath(path) && path[0] == c && path[|path| - 1] == a;
      PathIsAncestor(path);
    }
  }

  // --- The three refs and the live hub ----------------------------------------------------------

  /** Local main, the commits the object store holds, the remote-tracking ref (the memory of the last
      verified tip), the hub's main and whether the hub can be consulted at all. */
  datatype Refs = Refs(local: Commit, objects: set<Commit>, record: Option<Commit>, hub: Option<Commit>, reachable: bool)

  datatype HubState = OkState | Fresh | Deleted | Rewound | Diverged | Unreachable

  predicate Alarm(v: HubState) {
    v == Deleted || v == Rewound || v == Diverged
  }

  /** The store holds local main's whole history, and the record never runs ahead of local main. */
  ghost predicate Valid(s: Refs) {
    (forall c :: Ancestor(c, s.local) ==> c in s.objects) &&
    (s.record.Some? ==> Ancestor(s.record.value, s.local))
  }

  function Verdict(s: Refs): HubState {
    if !s.reachable then Unreachable
    else if s.hub.None? then (if s.record.None? then Fresh else Deleted)
    else if !Ancestor(s.hub.value, s.local) then Diverged
    else if s.record.Some? && !Ancestor(s.record.value, s.hub.value) then Rewound
    else OkState
  }

  function Checked(s: Refs): Refs {
    if Verdict(s) == OkState then s.(record := s.hub) else s
  }

  /** What an answer of the check says of the refs. */
  predicate Says(s: Refs, v: HubState) {
    (v == Unreachable <==> !s.reachable) &&
    (v == Deleted <==> s.reachable && s.hub == None && s.record != None) &&
    (v == Fresh <==> s.reachable && s.hub == None && s.record == None) &&
    (v == Diverged <==> s.reachable && s.hub.Some? && !Ancestor(s.hub.value, s.local)) &&
    (v == Rewound <==> s.reachable && s.hub.Some? && Ancestor(s.hub.value, s.local) && s.record.Some? && !Ancestor(s.record.value, s.hub.value)) &&
    (v == OkState <==> s.reachable && s.hub.Some? && Ancestor(s.hub.value, s.local) && (s.record.Some? ==> Ancestor(s.record.value, s.hub.value)))
  }

  lemma VerdictSays(s: Refs)
    ensures Says(s, Verdict(s))
  {
  }

  class Repo {
    var local: Commit
    var objects: set<Commit>
    var record: Option<Commit>
    var hub: Option<Commit>
    var reachable: bool

    constructor (local: Commit, objects: set<Commit>, record: Option<Commit>, hub: Option<Commit>, reachable: bool)
      ensures State() == Refs(local, objects, record, hub, reachable)
    {
      this.local, this.objects, this.record, this.hub, this.reachable := local, objects, record, hub, reachable;
    }

    ghost function State(): Refs
      reads this
    {
      Refs(local, objects, record, hub, reachable)
    }

    /** `writable` is whether `update-ref` can write; when it cannot, the check raises (`None`) and the
        record keeps its old value. */
    method CheckHubMain(writable: bool) returns (r: Option<HubState>)
      requires Valid(State())
      modifies this`record
      ensures r.Some? ==> r.value == Verdict(old(State())) && State() == Checked(old(State()))
      ensures r.None? ==> State() == old(State()) && !writable && Verdict(State()) == OkState && record != hub
      ensures r.Some? ==> Says(old(State()), r.value)
      ensures r.None? ==> Says(State(), OkState)
    {
      VerdictSays(State());
      var lastSeen := record;
      if !reachable {
        return Some(Unreachable);
      }
      if hub.None? {
        if lastSeen.Some? {
          return Some(Deleted);
        }
        return Some(Fresh);
      }
      var hubSha := hub.value;
      if hubSha !in objects {
        return Some(Diverged);
      }
      if !Ancestor(hubSha, local) {
        return Some(Diverged);
      }
      if lastSeen.Some? {
        if !Ancestor(lastSeen.value, hubSha) {
          return Some(Rewound);
        }
      }
      if Some(hubSha) != lastSeen {
        if !writable {
          return None;
        }
        record := Some(hubSha);
      }
      return Some(OkState);
    }
  }

  // --- The protocol -----------------------------------------------------------------------------

  datatype Move =
    | Check
    | MergeLocal(tip: Commit, fetched: set<Commit>)
    | Fetch(fetched: set<Commit>)
    | DirectorPush
    | PushElsewhere(tip: Commit)
    | Reach(reachable: bool)
    | Adversary(hub: Option<Commit>)

  /** Local main only fast-forwards; a push that is not a fast-forward of the hub is rejected. */
  ghost predicate Enabled(s: Refs, m: Move) {
    match m
    case MergeLocal(tip, fetched) =>
      Ancestor(s.local, tip) && forall c :: Ancestor(c, tip) ==> c in s.objects + fetched
    case DirectorPush => s.hub.None? || Ancestor(s.hub.value, s.local)
    case PushElsewhere(tip) =>
      Ancestor(tip, s.local) && (if s.hub.None? then s.record.None? else Ancestor(s.hub.value, tip))
    case _ => true
  }

  function Apply(s: Refs, m: Move): Refs {
    match m
    case Check => Checked(s)
    case MergeLocal(tip, fetched) => s.(local := tip, objects := s.objects + fetched)
    case Fetch(fetched) => s.(objects := s.objects + fetched)
    case DirectorPush => s.(hub := Some(s.local), record := Some(s.local))
    case PushElsewhere(tip) => s.(hub := Some(tip))
    case Reach(b) => s.(reachable := b)
    case Adversary(h) => s.(hub := h)
  }

  ghost predicate IsRun(states: seq<Refs>, moves: seq<Move>) {
    |states| == |moves| + 1 && Valid(states[0]) &&
    forall i :: 0 <= i < |moves| ==> Enabled(states[i], moves[i]) && states[i + 1] == Apply(states[i], moves[i])
  }

  predicate Forward(older: Option<Commit>, newer: Option<Commit>) {
    older.Some? ==> newer.Some? && Ancestor(older.value, newer.value)
  }

  lemma MoveKeeps(s: Refs, m: Move)
    requires Valid(s) && Enabled(s, m)
    ensures Valid(Apply(s, m)) && Forward(s.record, Apply(s, m).record)
    ensures Ancestor(s.local, Apply(s, m).local)
  {
    if m.MergeLocal? && s.record.Some? {
      AncestorTrans(s.record.value, s.local, m.tip);
    }
  }

  /** Over every run, adversary included: the record stays inside local main's history, and both the
      record and local main only ever move forward. */
  lemma {:induction false} RecordOnlyMovesForward(states: seq<Refs>, moves: seq<Move>, i: nat, j: nat)
    requires IsRun(states, moves) && i <= j < |states|
    ensures Valid(states[j]) && Valid(states[i])
    ensures Forward(states[i].record, states[j].record) && Ancestor(states[i].local, states[j].local)
    decreases j
  {
    if j > 0 {
      RecordOnlyMovesForward(states, moves, if i < j then i else j - 1, j - 1);
      MoveKeeps(states[j - 1], moves[j - 1]);
      if i < j {
        if states[i].record.Some? {
          AncestorTrans(states[i].record.value, states[j - 1].record.value, states[j].record.value);
        }
        AncestorTrans(states[i].local, states[j - 1].local, states[j].local);
      }
    }
  }

  /** A passing check leaves the record at the hub's tip; every other check changes nothing; and a
      second check right after it says the same. */
  lemma CheckIsStable(s: Refs)
    requires Valid(s)
    ensures Verdict(s) == OkState ==> Checked(s).record == s.hub
    ensures Verdict(s) != OkState ==> Checked(s) == s
    ensures Verdict(Checked(s)) == Verdict(s)
  {
  }

  predicate HubUntouched(moves: seq<Move>) {
    forall i :: 0 <= i < |moves| ==> LeavesHub(moves[i])
  }

  /** An alarm is raised: over every run, once a tip is on record, a check that reaches the hub alarms whenever the hub's main is gone,
      or is anything but that tip or a commit on top of it - as a deletion, a divergence or a rewind, by where the tip is. */
  lemma TamperingAlarms(states: seq<Refs>, moves: seq<Move>, i: nat, j: nat)
    requires IsRun(states, moves) && i <= j < |states| && states[i].record.Some? && states[j].reachable
    requires states[j].hub.Some? ==> !Ancestor(states[i].record.value, states[j].hub.value)
    ensures Alarm(Verdict(states[j]))
    ensures Verdict(states[j]) == if states[j].hub.None? then Deleted
                                  else if !Ancestor(states[j].hub.value, states[j].local) then Diverged else Rewound
  {
    RecordOnlyMovesForward(states, moves, i, j);
    if states[j].hub.Some? && Ancestor(states[j].record.value, states[j].hub.value) {
      AncestorTrans(states[i].record.value, states[j].record.value, states[j].hub.value);
    }
  }

  /** A check that passes puts the tip on record, so from then on every deletion, rewind and divergence alarms. */
  lemma PassedThenTampered(states: seq<Refs>, moves: seq<Move>, i: nat, j: nat)
    requires IsRun(states, moves) && i < j < |states| && moves[i] == Check && Verdict(states[i]) == OkState && states[j].reachable
    requires states[j].hub.Some? ==> !Ancestor(states[i].hub.value, states[j].hub.value)
    ensures Alarm(Verdict(states[j]))
  {
    assert states[i + 1] == Checked(states[i]) && states[i + 1].record == states[i].hub;
    TamperingAlarms(states, moves, i + 1, j);
  }

  predicate LeavesHub(m: Move) {
    !m.DirectorPush? && !m.PushElsewhere? && !m.Adversary?
  }

  /** Local main has merged the tip that diverged, and that tip is a fast-forward of the record. */
  predicate MergedTip(s0: Refs, s: Refs) {
    Verdict(s0) == Diverged && s.hub.Some? && Ancestor(s.hub.value, s.local) && Forward(s0.record, s.hub)
  }

  /** How a later state stands to the one that raised the alarm: the hub is where it was, the alarm is silent exactly if the tip
      has been merged, and the record has moved only then, onto that tip. */
  predicate StillAlarmed(s0: Refs, s: Refs) {
    s.hub == s0.hub && (s0.record.Some? ==> s.record.Some?) &&
    (s.reachable ==> (!Alarm(Verdict(s)) <==> MergedTip(s0, s))) &&
    (s.record == s0.record || (s.record == s.hub && MergedTip(s0, s)))
  }

  lemma AlarmStep(s0: Refs, s: Refs, m: Move)
    requires Valid(s0) && Alarm(Verdict(s0)) && Valid(s) && StillAlarmed(s0, s) && Enabled(s, m) && LeavesHub(m)
    ensures StillAlarmed(s0, Apply(s, m))
  {
    if m.MergeLocal? && s.hub.Some? && Ancestor(s.hub.value, s.local) {
      AncestorTrans(s.hub.value, s.local, m.tip);
    }
  }

  /** An alarm keeps tripping while the hub stays where it is, with exactly one way out: local main
      itself merges the diverged tip, which must also be a fast-forward of the record. */
  lemma {:induction false} AlarmPersists(states: seq<Refs>, moves: seq<Move>, j: nat)
    requires IsRun(states, moves) && j < |states| && HubUntouched(moves)
    requires Alarm(Verdict(states[0]))
    ensures StillAlarmed(states[0], states[j])
    decreases j
  {
    if j > 0 {
      AlarmPersists(states, moves, j - 1);
      RecordOnlyMovesForward(states, moves, 0, j - 1);
      AlarmStep(states[0], states[j - 1], moves[j - 1]);
    }
  }

  /** The way out is real: a diverged hub stops tripping once the Director merges its tip. */
  lemma MergingTheTipClearsTheAlarm()
    ensures var base, foreign := Commit(0, []), Commit(1, []);
            var joined := Commit(2, [base, foreign]);
            var s := Refs(base, {base}, None, Some(foreign), true);
            Valid(s) && Verdict(s) == Diverged &&
            Enabled(s, MergeLocal(joined, {foreign, joined})) &&
            Verdict(Apply(s, MergeLocal(joined, {foreign, joined}))) == OkState
  {
    var base, foreign := Commit(0, []), Commit(1, []);
    var joined := Commit(2, [base, foreign]);
    assert joined.parents[0] == base && joined.parents[1] == foreign;
    forall c | Ancestor(c, joined)
      ensures c == joined || c == base || c == foreign
    {
      if c != joined {
        var i :| 0 <= i < |joined.parents| && Ancestor(c, joined.parents[i]);
        assert joined.parents[i] == base || joined.parents[i] == foreign;
      }
    }
    assert Ancestor(base, joined) && Ancestor(foreign, joined);
  }

  /** Where only the Director has ever written. */
  predicate Honest(s: Refs) {
    if s.hub.None? then s.record.None?
    else Ancestor(s.hub.value, s.local) && Forward(s.record, s.hub)
  }

  /** Without an adversary no check ever raises an alarm. */
  lemma {:induction false} NoFalseAlarm(states: seq<Refs>, moves: seq<Move>, j: nat)
    requires IsRun(states, moves) && j < |states| && Honest(states[0])
    requires forall i :: 0 <= i < |moves| ==> !moves[i].Adversary?
    ensures Honest(states[j]) && !Alarm(Verdict(states[j]))
    decreases j
  {
    if j > 0 {
      NoFalseAlarm(states, moves, j - 1);
      RecordOnlyMovesForward(states, moves, j - 1, j - 1);
      var s, m := states[j - 1], moves[j - 1];
      if m.MergeLocal? && s.hub.Some? {
        AncestorTrans(s.hub.value, s.local, m.tip);
      }
      if m.PushElsewhere? && s.record.Some? {
        AncestorTrans(s.record.value, s.hub.value, m.tip);
      }
    }
  }
}
