/** Terminal-state taxonomy: what a recorded terminal means, and which log event un-sticks it. */
module Terminals {

  datatype TerminalState =
    | Pushed
    | MergeDecided(decision: string)
    | CapReached
    | EscalatedDeadlock
    | InvestigatorMalformed
    | VerifyMalformed
    | PathGuardViolation
    | QuotaTimeout
    | InternalError
    | Unknown(name: string)

  datatype Kind = SuccessKind | FailureKind | RetryableKind

  datatype TerminalSpec = TerminalSpec(kind: Kind, push: bool, handback: bool)

  function SpecOf(state: TerminalState): TerminalSpec {
    match state
    case Pushed => TerminalSpec(SuccessKind, true, false)
    case MergeDecided(_) => TerminalSpec(SuccessKind, true, false)
    case CapReached => TerminalSpec(FailureKind, true, true)
    case EscalatedDeadlock => TerminalSpec(FailureKind, true, true)
    case InvestigatorMalformed => TerminalSpec(FailureKind, true, true)
    case VerifyMalformed => TerminalSpec(FailureKind, true, true)
    case PathGuardViolation => TerminalSpec(FailureKind, false, true)
    case QuotaTimeout => TerminalSpec(RetryableKind, true, true)
    case InternalError => TerminalSpec(RetryableKind, false, true)
    case Unknown(_) => TerminalSpec(FailureKind, false, true)
  }

  predicate Sticky(state: TerminalState) {
    SpecOf(state).kind != RetryableKind
  }

  predicate Pushes(state: TerminalState) {
    SpecOf(state).push
  }

  /** The `director_resume` row of the resume table: the only row there is. */
  predicate ResumeClears(state: TerminalState) {
    state.CapReached? || state.EscalatedDeadlock? || state.Pushed? || state.MergeDecided?
  }

  /** What a reader of the two tables may rely on: only a finished push is a success and needs no handback; only a quota time-out and an
      internal error may be retried; a tree that must not be published, an error and a state nobody knows are never pushed; and a
      resume clears every finish but those of the report-only tasks, the retryable ones and the unknown. */
  lemma TablesSay(state: TerminalState)
    ensures SpecOf(state).kind == SuccessKind <==> state == Pushed || state.MergeDecided?
    ensures !Sticky(state) <==> state == QuotaTimeout || state == InternalError
    ensures !Pushes(state) <==> state == PathGuardViolation || state == InternalError || state.Unknown?
    ensures SpecOf(state).handback <==> !(state == Pushed || state.MergeDecided?)
    ensures ResumeClears(state) <==> state == Pushed || state.MergeDecided? || state == CapReached || state == EscalatedDeadlock
  {
  }
}
