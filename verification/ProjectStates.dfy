/** The project life cycle: states, the table of legal moves, and the project record
    whose fields the orchestrator and the loop runner update in place. */
module ProjectStates {
  import opened Options

  datatype ProjectState =
    | Created | Clarifying | Planned | Searching | Fetching | Extracting | Verifying
    | AnalyzingGaps | GeneratingFollowups | Iterating | Converged | Synthesizing
    | Completed | Paused | Failed | Cancelled

  datatype StopReason =
    | SaturationReached | ProviderDegraded | BudgetExhausted | MaxIterations
    | NoHighValueGaps | UserStopped | RunFailed

  /** The table of legal moves. */
  predicate Allowed(from: ProjectState, to: ProjectState) {
    match from
    case Created => to.Clarifying? || to.Failed? || to.Cancelled?
    case Clarifying => to.Planned? || to.Paused? || to.Failed? || to.Cancelled?
    case Planned => to.Searching? || to.Paused? || to.Failed? || to.Cancelled?
    case Searching => to.Fetching? || to.AnalyzingGaps? || to.GeneratingFollowups? || to.Converged? || to.Paused? || to.Failed? || to.Cancelled?
    case Fetching => to.Extracting? || to.Searching? || to.AnalyzingGaps? || to.Paused? || to.Failed? || to.Cancelled?
    case Extracting => to.Verifying? || to.Fetching? || to.Paused? || to.Failed? || to.Cancelled?
    case Verifying => to.AnalyzingGaps? || to.Extracting? || to.Paused? || to.Failed? || to.Cancelled?
    case AnalyzingGaps => to.GeneratingFollowups? || to.Synthesizing? || to.Converged? || to.Paused? || to.Failed? || to.Cancelled?
    case GeneratingFollowups => to.Searching? || to.Converged? || to.Synthesizing? || to.Paused? || to.Failed? || to.Cancelled?
    case Iterating => to.Searching? || to.AnalyzingGaps? || to.Paused? || to.Failed? || to.Cancelled?
    case Converged => to.Synthesizing? || to.Paused? || to.Failed? || to.Cancelled?
    case Synthesizing => to.Completed? || to.Failed? || to.Cancelled?
    case Completed => to.Searching? || to.Clarifying?
    case Paused =>
      to.Clarifying? || to.Planned? || to.Searching? || to.Fetching? || to.Extracting? || to.Verifying? || to.AnalyzingGaps?
      || to.GeneratingFollowups? || to.Iterating? || to.Converged? || to.Synthesizing? || to.Failed? || to.Cancelled?
    case Failed => to.Searching? || to.Synthesizing?
    case Cancelled => false
  }

  /** A request to move is honoured when the project is already there or the table allows it. */
  predicate Legal(current: ProjectState, target: ProjectState) {
    current == target || Allowed(current, target)
  }

  datatype Phase = Setup | PerIteration | Synthesis | Done

  /** The persisted loop cursor; a new project has none. */
  datatype Cursor =
    | NoCursor
    | At(phase: Phase, stepIndex: nat, iteration: nat, pendingPause: bool, gate: Option<string>)

  /** The value of a project record. */
  datatype View = View(
    state: ProjectState,
    stopReason: Option<StopReason>,
    gatePending: Option<string>,
    approvedGates: seq<string>,
    cursor: Cursor,
    currentIteration: nat)

  const FRESH: View := View(Created, None, None, [], NoCursor, 0)

  /** What a requested move makes of a project: an illegal one raises and changes nothing. */
  function Moved(p: View, target: ProjectState): View {
    if Legal(p.state, target) then p.(state := target) else p
  }

  /** The research project record. */
  class Project {
    var state: ProjectState
    var stopReason: Option<StopReason>
    var gatePending: Option<string>
    var approvedGates: seq<string>
    var cursor: Cursor
    var currentIteration: nat

    ghost function Value(): View
      reads this
    {
      View(state, stopReason, gatePending, approvedGates, cursor, currentIteration)
    }

    constructor ()
      ensures Value() == FRESH
    {
      state, stopReason, gatePending := Created, None, None;
      approvedGates, cursor, currentIteration := [], NoCursor, 0;
    }

    /** The only way the state changes. */
    method Transition(target: ProjectState) returns (status: Status)
      modifies this
      ensures Value() == Moved(old(Value()), target)
      ensures status.Ok? <==> Legal(old(state), target)
    {
      hide Allowed;
      if state == target {
        return Ok;
      }
      if !Allowed(state, target) {
        return Raise;
      }
      state := target;
      return Ok;
    }
  }
}
