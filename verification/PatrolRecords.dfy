/** Patrol cycles: the validated record, the status machine and the queue operations on the stored cycles. */
module PatrolRecords {
  import opened Common

  datatype CycleId = CycleId(name: string)

  datatype CycleStatus = Scheduled | Active | Completed | Failed | Suspended

  /** The status machine. */
  predicate CanTransition(from: CycleStatus, to: CycleStatus) {
    match from
    case Scheduled => to == Active
    case Active => to == Completed || to == Failed || to == Suspended
    case Suspended => to == Active || to == Failed
    case Completed => false
    case Failed => false
  }

  predicate Finished(s: CycleStatus) {
    s == Completed || s == Failed
  }

  datatype Record = Record(
    route: string, status: CycleStatus, triggeredBy: string, createdAt: string,
    startedAt: Option<string>, completedAt: Option<string>,
    waypointsTotal: int, waypointsObserved: int, anomalyIds: seq<string>, failureReason: Option<string>)

  /** A total of zero means unknown. */
  predicate CountsOk(total: int, observed: int) {
    total >= 0 && observed >= 0 && (total != 0 ==> observed <= total)
  }

  /** What the record's constructor insists on. */
  predicate ValidRecord(id: CycleId, r: Record) {
    && Strip(id.name) != "" && Strip(r.route) != "" && Strip(r.createdAt) != ""
    && (r.triggeredBy == "schedule" || r.triggeredBy == "manual" || r.triggeredBy == "alert")
    && CountsOk(r.waypointsTotal, r.waypointsObserved)
  }

  datatype Stats = Stats(total: int, observed: int, anomalyIds: seq<string>)

  datatype Op =
    | Submit(id: CycleId, route: string, triggeredBy: string, total: int, now: string)
    | MarkActive(id: CycleId, now: string)
    | MarkCompleted(id: CycleId, stats: Option<Stats>, now: string)
    | MarkFailed(id: CycleId, reason: string, now: string)
    | SuspendCycle(id: CycleId, note: Option<string>)
    | ResumeCycle(id: CycleId, now: string)

  datatype Error = BlankField | InvalidRecord | DuplicateId | NotFound | InvalidTransition

  type Table = map<CycleId, Record>

  /** Cycles are stored and looked up under their stripped id. */
  function Key(id: CycleId): CycleId {
    CycleId(Strip(id.name))
  }

  function Fresh(route: string, triggeredBy: string, total: int, now: string): Record {
    Record(Strip(route), Scheduled, triggeredBy, now, None, None, total, 0, [], None)
  }

  function TargetOf(op: Op): CycleStatus
    requires !op.Submit?
  {
    match op
    case MarkActive(_, _) => Active
    case MarkCompleted(_, _, _) => Completed
    case MarkFailed(_, _, _) => Failed
    case SuspendCycle(_, _) => Suspended
    case ResumeCycle(_, _) => Active
  }

  /** The record merged with an operation's updates, before it is validated. */
  function Merged(r: Record, op: Op): Record
    requires !op.Submit?
  {
    var moved := r.(status := TargetOf(op));
    match op
    case MarkActive(_, now) => moved.(startedAt := if r.startedAt.Some? then r.startedAt else Some(now))
    case MarkCompleted(_, stats, now) =>
      if stats.None? then moved.(completedAt := Some(now))
      else moved.(completedAt := Some(now), waypointsTotal := stats.value.total,
                  waypointsObserved := stats.value.observed, anomalyIds := stats.value.anomalyIds)
    case MarkFailed(_, reason, now) => moved.(completedAt := Some(now), failureReason := Some(Strip(reason)))
    case SuspendCycle(_, reason) =>
      moved.(failureReason := if reason.Some? then Some(Strip(reason.value)) else r.failureReason)
    case ResumeCycle(_, now) => moved.(startedAt := if r.startedAt.Some? then r.startedAt else Some(now))
  }

  predicate BlankReason(op: Op) {
    (op.MarkFailed? && Strip(op.reason) == "") || (op.SuspendCycle? && op.note.Some? && Strip(op.note.value) == "")
  }

  function Refusal(table: Table, op: Op): Option<Error> {
    match op
    case Submit(id, route, triggeredBy, total, now) =>
      if Strip(route) == "" then Some(BlankField)
      else if !ValidRecord(id, Fresh(route, triggeredBy, total, now)) then Some(InvalidRecord)
      else if Key(id) in table then Some(DuplicateId)
      else None
    case _ =>
      if BlankReason(op) || Strip(op.id.name) == "" then Some(BlankField)
      else if Key(op.id) !in table then Some(NotFound)
      else if !CanTransition(table[Key(op.id)].status, TargetOf(op)) then Some(InvalidTransition)
      else if !ValidRecord(op.id, Merged(table[Key(op.id)], op)) then Some(InvalidRecord)
      else None
  }

  function Apply(table: Table, op: Op): Table {
    if Refusal(table, op).Some? then table
    else if op.Submit? then table[Key(op.id) := Fresh(op.route, op.triggeredBy, op.total, op.now)]
    else table[Key(op.id) := Merged(table[Key(op.id)], op)]
  }

  function RunOps(ops: seq<Op>): Table {
    if ops == [] then map[] else Apply(RunOps(ops[..|ops| - 1]), ops[|ops| - 1])
  }

  /** What every stored cycle satisfies. */
  ghost predicate CycleOk(id: CycleId, r: Record) {
    && ValidRecord(id, r)
    && (r.completedAt.Some? <==> Finished(r.status))
    && (r.startedAt.Some? <==> r.status != Scheduled)
    && (r.status == Failed ==> r.failureReason.Some? && Strip(r.failureReason.value) != "")
  }

  lemma ApplyKeeps(table: Table, op: Op, id: CycleId)
    requires id in table ==> CycleOk(id, table[id])
    ensures id in Apply(table, op) ==> CycleOk(id, Apply(table, op)[id])
    ensures id in table ==> id in Apply(table, op) && (Finished(table[id].status) ==> Apply(table, op)[id] == table[id])
  {
    StripIdempotent(op.id.name);
    if op.MarkFailed? {
      StripIdempotent(op.reason);
    }
  }

  /** Over every sequence of operations the stored cycles stay valid, carry exactly the timestamps their status
      calls for, and never change once completed or failed. */
  lemma {:induction false} StoredCyclesAreOk(ops: seq<Op>, id: CycleId)
    ensures id in RunOps(ops) ==> CycleOk(id, RunOps(ops)[id])
    ensures forall k :: 0 <= k <= |ops| && id in RunOps(ops[..k]) && Finished(RunOps(ops[..k])[id].status) ==>
              id in RunOps(ops) && RunOps(ops)[id] == RunOps(ops[..k])[id]
  {
    assert ops[..|ops|] == ops;
    if ops != [] {
      var shorter := ops[..|ops| - 1];
      StoredCyclesAreOk(shorter, id);
      ApplyKeeps(RunOps(shorter), ops[|ops| - 1], id);
      forall k | 0 <= k < |ops| ensures shorter[..k] == ops[..k] {
      }
    }
  }

  /** A completion is refused for its numbers exactly when more waypoints were observed than there are; the cycle
      is then untouched and can still be failed with any reason that is not blank. */
  lemma RejectedCompletionCanStillFail(ops: seq<Op>, id: CycleId, stats: Stats, reason: string, now: string)
    requires id in RunOps(ops) && Key(id) == id && RunOps(ops)[id].status == Active && stats.total >= 0
             && stats.observed >= 0
    ensures var table := RunOps(ops);
            && (Refusal(table, MarkCompleted(id, Some(stats), now)) == Some(InvalidRecord) <==>
                0 < stats.total < stats.observed)
            && (Refusal(table, MarkCompleted(id, Some(stats), now)).Some? ==>
                  Apply(table, MarkCompleted(id, Some(stats), now)) == table)
            && (Refusal(table, MarkFailed(id, reason, now)).None? <==> Strip(reason) != "")
  {
    StoredCyclesAreOk(ops, id);
  }

  /** The stored cycles as the queue object keeps them. */
  class PatrolQueue {
    var cycles: Table

    constructor ()
      ensures cycles == map[]
    {
      cycles := map[];
    }

    method SubmitCycle(id: CycleId, route: string, triggeredBy: string, total: int, now: string)
        returns (error: Option<Error>)
      modifies this
      ensures error == Refusal(old(cycles), Submit(id, route, triggeredBy, total, now))
      ensures cycles == Apply(old(cycles), Submit(id, route, triggeredBy, total, now))
    {
      if Strip(route) == "" {
        return Some(BlankField);
      }
      var record := Fresh(route, triggeredBy, total, now);
      if !ValidRecord(id, record) {
        return Some(InvalidRecord);
      }
      if Key(id) in cycles {
        return Some(DuplicateId);
      }
      cycles := cycles[Key(id) := record];
      return None;
    }

    /** The shared part of mark_active, mark_completed, mark_failed, suspend_cycle and resume_cycle. */
    method TransitionCycle(op: Op) returns (error: Option<Error>)
      requires !op.Submit?
      modifies this
      ensures error == Refusal(old(cycles), op) && cycles == Apply(old(cycles), op)
    {
      if BlankReason(op) || Strip(op.id.name) == "" {
        return Some(BlankField);
      }
      if Key(op.id) !in cycles {
        return Some(NotFound);
      }
      var current := cycles[Key(op.id)];
      if !CanTransition(current.status, TargetOf(op)) {
        return Some(InvalidTransition);
      }
      var updated := Merged(current, op);
      if !ValidRecord(op.id, updated) {
        return Some(InvalidRecord);
      }
      cycles := cycles[Key(op.id) := updated];
      return None;
    }
  }
}
