/** Task identifiers, statuses and the transition table. */
module TaskStatus {
  datatype TaskId = TaskId(name: string)

  datatype Status =
    | Queued | Dispatched | AwaitingLoad | InTransit | AwaitingUnload
    | Completed | Failed | Cancelled

  predicate Terminal(s: Status) {
    s == Completed || s == Failed || s == Cancelled
  }

  /** The transition table. */
  predicate Allowed(from: Status, to: Status) {
    match from
    case Queued => to == Dispatched || to == Failed || to == Cancelled
    case Dispatched => to == AwaitingLoad || to == Failed || to == Cancelled
    case AwaitingLoad => to == InTransit || to == Failed || to == Cancelled
    case InTransit => to == AwaitingUnload || to == Failed
    case AwaitingUnload => to == Completed || to == Failed
    case Completed => false
    case Failed => false
    case Cancelled => false
  }
}
