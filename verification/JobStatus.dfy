/**
 The status gate every run and build write goes through (`src/services/job-status.ts`).
 */
module JobStatus {
  datatype Status = Ready | Running | Succeeded | Failed | TimedOut | Aborting | Aborted

  predicate IsTerminal(status: Status) {
    status in {Succeeded, Failed, Aborted, TimedOut}
  }

  function AllowedNext(status: Status): set<Status> {
    match status
    case Ready => {Running, Aborting, Aborted}
    case Running => {Succeeded, Failed, TimedOut, Aborting, Aborted}
    case Aborting => {Aborted}
    case Succeeded | Failed | Aborted | TimedOut => {}
  }

  /** A refused transition leaves the record as it was. */
  function Transition(current: Status, next: Status): Status {
    if IsTerminal(current) || next !in AllowedNext(current) then current else next
  }

  /** `later` can be reached from `earlier` by accepted transitions, none included. */
  predicate Reachable(earlier: Status, later: Status) {
    || earlier == later
    || (earlier == Ready && later != Ready)
    || (earlier == Running && later != Ready)
    || (earlier == Aborting && later == Aborted)
  }

  /** The gate only ever moves a job forward, and out of `ABORTING` only to `ABORTED`. */
  lemma TransitionMovesForward(earlier: Status, current: Status, next: Status)
    requires Reachable(earlier, current)
    ensures Reachable(earlier, Transition(current, next))
  {
  }
}
