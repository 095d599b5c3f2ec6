/** The lifecycle of a contest. */
module ContestStatuses {

  datatype ContestStatus = Draft | Scheduled | Open | Full | Locked | Live | Completed | Cancelled

  /** Status changes an administrator may request. */
  function AllowedTransitions(from: ContestStatus): set<ContestStatus>
  {
    match from
    case Draft => {Scheduled, Open, Cancelled}
    case Scheduled => {Open, Cancelled}
    case Open => {Full, Locked, Live, Cancelled}
    case Full => {Locked, Live, Cancelled}
    case Locked => {Live, Completed, Cancelled}
    case Live => {Completed, Cancelled}
    case Completed => {}
    case Cancelled => {}
  }

  /** The transition table, read by the status that is entered. */
  lemma StatusesEnteredFrom(from: ContestStatus, target: ContestStatus)
    ensures target in AllowedTransitions(from) <==>
            match target
            case Draft => false
            case Scheduled => from == Draft
            case Open => from == Draft || from == Scheduled
            case Full => from == Open
            case Locked => from == Open || from == Full
            case Live => from == Open || from == Full || from == Locked
            case Completed => from == Locked || from == Live
            case Cancelled => from != Completed && from != Cancelled
  {
  }

  const CANCELLABLE: set<ContestStatus> := {Draft, Scheduled, Open, Full, Locked, Live}

  const JOINABLE: set<ContestStatus> := {Open, Scheduled}

  /** A rank that every status change increases, so that no status ever returns. */
  function StatusRank(status: ContestStatus): nat
  {
    match status
    case Draft => 0
    case Scheduled => 1
    case Open => 2
    case Full => 3
    case Locked => 4
    case Live => 5
    case Completed => 6
    case Cancelled => 7
  }
}
