/** The gate results, keyed to a sha and replayed from the log: the one source for the loop and for the check that runs
    off the server. */
module Gates {
  import opened Wrappers
  import opened LoopLog

  /** One gate: whether it is open, and the sha it was last set at. */
  datatype Gate = Gate(ok: bool, sha: Option<string>)

  datatype GateStates = GateStates(head: string, rw1: Gate, rw2: Gate, authoritative: Gate, flaky: bool)

  const SHUT := Gate(false, None)

  predicate SeniorApproves(e: Entry) {
    Is(e, Senior) && e.outcome == Approved
  }

  /** A reviewer's gate after the log: its own entries always set it, an approving senior sets it only while it is shut. */
  function ReviewGate(log: Log, action: Action, yes: Outcome): Gate {
    if log == [] then SHUT
    else
      var g := ReviewGate(log[..|log| - 1], action, yes);
      var e := log[|log| - 1];
      if Is(e, action) then Gate(e.outcome == yes, e.sha)
      else if SeniorApproves(e) && !g.ok then Gate(true, e.sha)
      else g
  }

  function TestGate(log: Log): (r: (Gate, bool)) {
    if log == [] then (SHUT, false)
    else
      var e := log[|log| - 1];
      if Is(e, Authoritative) then (Gate(e.outcome == Pass, e.sha), e.flaky) else TestGate(log[..|log| - 1])
  }

  function Replayed(log: Log, head: string, requireRw2: bool, requireAuthoritative: bool): GateStates {
    var waived := Gate(true, Some(head));
    GateStates(head, ReviewGate(log, Rw1, Approved), if requireRw2 then ReviewGate(log, Rw2, Go) else waived,
               if requireAuthoritative then TestGate(log).0 else waived, TestGate(log).1)
  }

  method GateStatesFromLog(log: Log, head: string, requireRw2: bool, requireAuthoritative: bool) returns (g: GateStates)
    ensures g == Replayed(log, head, requireRw2, requireAuthoritative)
  {
    var rw1, rw2, auth, flaky := SHUT, SHUT, SHUT, false;
    for i := 0 to |log|
      invariant rw1 == ReviewGate(log[..i], Rw1, Approved) && rw2 == ReviewGate(log[..i], Rw2, Go)
      invariant (auth, flaky) == TestGate(log[..i])
    {
      var e := log[i];
      assert log[..i + 1][..i] == log[..i];
      if e.Step? {
        match e.action {
          case Rw1 => rw1 := Gate(e.outcome == Approved, e.sha);
          case Rw2 => rw2 := Gate(e.outcome == Go, e.sha);
          case Senior =>
            if e.outcome == Approved {
              if !rw2.ok {
                rw2 := Gate(true, e.sha);
              }
              if !rw1.ok {
                rw1 := Gate(true, e.sha);
              }
            }
          case Authoritative => auth, flaky := Gate(e.outcome == Pass, e.sha), e.flaky;
          case _ =>
        }
      }
    }
    assert log[..|log|] == log;
    if !requireAuthoritative {
      auth := Gate(true, Some(head));
    }
    if !requireRw2 {
      rw2 := Gate(true, Some(head));
    }
    return GateStates(head, rw1, rw2, auth, flaky);
  }

  predicate OpenAt(g: Gate, sha: string) {
    g.ok && g.sha == Some(sha)
  }

  // --- What an open gate says about the log -----------------------------------------------------

  /** Entry k opened the gate and nothing has set it since: it is the reviewer's own approval and the reviewer's last
      word, or the first approving senior verdict after a last word that was not an approval. */
  ghost predicate Opened(log: Log, action: Action, yes: Outcome, k: int) {
    0 <= k < |log| && (forall j :: k < j < |log| ==> !Is(log[j], action)) &&
    if Is(log[k], action) then log[k].outcome == yes
    else SeniorApproves(log[k]) && Refused(log, action, yes, k)
  }

  predicate Admits(e: Entry, action: Action, yes: Outcome) {
    (Is(e, action) && e.outcome == yes) || SeniorApproves(e)
  }

  /** The reviewer refuses between j and k. */
  ghost predicate RefusedSince(log: Log, action: Action, yes: Outcome, j: int, k: int)
    requires 0 <= j < k <= |log|
  {
    exists i :: j < i < k && Is(log[i], action) && log[i].outcome != yes
  }

  /** Before k the reviewer's last word, if any, is not an approval, and no senior approved since. */
  ghost predicate Refused(log: Log, action: Action, yes: Outcome, k: int)
    requires 0 <= k <= |log|
  {
    forall j :: 0 <= j < k && Admits(log[j], action, yes) ==> RefusedSince(log, action, yes, j, k)
  }

  lemma RefusedInPrefix(log: Log, l: Log, action: Action, yes: Outcome, k: int)
    requires 0 <= k <= |l| && l <= log
    ensures Refused(l, action, yes, k) <==> Refused(log, action, yes, k)
  {
    forall j | 0 <= j < k ensures RefusedSince(l, action, yes, j, k) <==> RefusedSince(log, action, yes, j, k) {
      assert forall i :: 0 <= i < k ==> l[i] == log[i];
    }
    assert forall i :: 0 <= i < k ==> l[i] == log[i];
  }

  lemma OpenedInPrefix(log: Log, action: Action, yes: Outcome, k: int)
    requires log != [] && !Is(log[|log| - 1], action) && k != |log| - 1
    ensures Opened(log[..|log| - 1], action, yes, k) <==> Opened(log, action, yes, k)
  {
    var n := |log| - 1;
    if 0 <= k < n {
      RefusedInPrefix(log, log[..n], action, yes, k);
      assert forall j :: 0 <= j < n ==> log[..n][j] == log[j];
    }
  }

  lemma RefusalRefuses(log: Log, action: Action, yes: Outcome)
    requires log != [] && (action == Rw1 || action == Rw2) && Is(log[|log| - 1], action) && log[|log| - 1].outcome != yes
    ensures Refused(log, action, yes, |log|)
  {
    var n := |log| - 1;
    forall j | 0 <= j < n && Admits(log[j], action, yes) ensures RefusedSince(log, action, yes, j, n + 1) {
      assert Is(log[n], action);
    }
  }

  lemma RefusedStep(log: Log, action: Action, yes: Outcome)
    requires log != [] && (action == Rw1 || action == Rw2)
    ensures var n, e := |log| - 1, log[|log| - 1];
            Refused(log, action, yes, n + 1) <==>
            if Is(e, action) then e.outcome != yes else Refused(log[..n], action, yes, n) && !SeniorApproves(e)
  {
    var n, e := |log| - 1, log[|log| - 1];
    RefusedInPrefix(log, log[..n], action, yes, n);
    if Is(e, action) && e.outcome != yes {
      RefusalRefuses(log, action, yes);
    } else {
      forall j | 0 <= j < n ensures RefusedSince(log, action, yes, j, n + 1) <==> RefusedSince(log, action, yes, j, n) {
      }
      assert !RefusedSince(log, action, yes, n, n + 1);
    }
  }

  /** A reviewer's gate is open exactly when some entry opened it, and then its sha is that entry's. */
  lemma {:induction false} GateIsItsOpener(log: Log, action: Action, yes: Outcome)
    requires action == Rw1 || action == Rw2
    ensures ReviewGate(log, action, yes).ok <==> exists k :: Opened(log, action, yes, k)
    ensures forall k :: Opened(log, action, yes, k) ==> ReviewGate(log, action, yes) == Gate(true, log[k].sha)
    ensures !ReviewGate(log, action, yes).ok <==> Refused(log, action, yes, |log|)
  {
    if log != [] {
      var n, e := |log| - 1, log[|log| - 1];
      var l := log[..n];
      GateIsItsOpener(l, action, yes);
      RefusedStep(log, action, yes);
      RefusedInPrefix(log, l, action, yes, n);
      if Is(e, action) {
        assert forall k :: Opened(log, action, yes, k) ==> k == n;
        assert e.outcome == yes ==> Opened(log, action, yes, n);
      } else {
        forall k | k != n ensures Opened(l, action, yes, k) <==> Opened(log, action, yes, k) {
          OpenedInPrefix(log, action, yes, k);
        }
        assert Opened(log, action, yes, n) <==> SeniorApproves(e) && !ReviewGate(l, action, yes).ok;
      }
    }
  }

  ghost predicate LastAuthoritative(log: Log, k: int) {
    0 <= k < |log| && Is(log[k], Authoritative) && forall j :: k < j < |log| ==> !Is(log[j], Authoritative)
  }

  lemma {:induction false} TestGateIsItsLastRun(log: Log)
    ensures forall k :: LastAuthoritative(log, k) ==> TestGate(log) == (Gate(log[k].outcome == Pass, log[k].sha), log[k].flaky)
    ensures (forall k :: !LastAuthoritative(log, k)) ==> TestGate(log) == (SHUT, false)
  {
    if log != [] {
      var n := |log| - 1;
      var l := log[..n];
      TestGateIsItsLastRun(l);
      assert forall j :: 0 <= j < n ==> l[j] == log[j];
      if Is(log[n], Authoritative) {
        assert LastAuthoritative(log, n);
      } else {
        assert forall k :: LastAuthoritative(l, k) <==> LastAuthoritative(log, k);
      }
    }
  }

  // --- What one more entry does -----------------------------------------------------------------

  /** The reviewer's own refusal shuts its gate. */
  lemma RefusalShuts(log: Log, e: Entry, action: Action, yes: Outcome)
    requires (action == Rw1 || action == Rw2) && Is(e, action) && e.outcome != yes
    ensures !ReviewGate(log + [e], action, yes).ok
  {
    Snoc(log, e);
  }

  /** A senior that does not approve changes no gate. */
  lemma SeniorRefusalChangesNothing(log: Log, e: Entry, head: string, requireRw2: bool, requireAuthoritative: bool)
    requires Is(e, Senior) && e.outcome != Approved
    ensures Replayed(log + [e], head, requireRw2, requireAuthoritative) == Replayed(log, head, requireRw2, requireAuthoritative)
  {
    Snoc(log, e);
  }

  /** A senior's approval stands in for a gate that is shut; a gate that is open at an older sha stays stale. */
  lemma SeniorStandsInExactly(log: Log, e: Entry, action: Action, yes: Outcome, head: string)
    requires (action == Rw1 || action == Rw2) && SeniorApproves(e) && e.sha == Some(head)
    ensures OpenAt(ReviewGate(log + [e], action, yes), head) <==>
            (!ReviewGate(log, action, yes).ok || ReviewGate(log, action, yes).sha == Some(head))
  {
    Snoc(log, e);
  }

  /** A gate that is not required is open at the head, whatever the log holds; a required one is as the log has it. */
  lemma WaiversSay(log: Log, head: string, requireRw2: bool, requireAuthoritative: bool)
    ensures var g := Replayed(log, head, requireRw2, requireAuthoritative);
            g.head == head && g.rw1 == ReviewGate(log, Rw1, Approved) &&
            (if requireRw2 then g.rw2 == ReviewGate(log, Rw2, Go) else OpenAt(g.rw2, head)) &&
            (if requireAuthoritative then g.authoritative == TestGate(log).0 else OpenAt(g.authoritative, head))
  {
  }
}
