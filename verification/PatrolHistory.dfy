/** A stored patrol cycle is what its accepted operations made of it. */
module PatrolHistories {
  import opened Common
  import opened PatrolRecords

  /** The last operation concerned the cycle stored under this id and was accepted. */
  ghost predicate JustDone(ops: seq<Op>, id: CycleId)
    requires ops != []
  {
    Key(ops[|ops| - 1].id) == id && Refusal(RunOps(ops[..|ops| - 1]), ops[|ops| - 1]).None?
  }

  /** What the last accepted operation on a cycle that says something of this kind says. */
  ghost function Last<T>(ops: seq<Op>, id: CycleId, says: Op -> Option<T>): Option<T> {
    if ops == [] then None
    else if JustDone(ops, id) && says(ops[|ops| - 1]).Some? then says(ops[|ops| - 1])
    else Last(ops[..|ops| - 1], id, says)
  }

  /** What the first one says. */
  ghost function First<T>(ops: seq<Op>, id: CycleId, says: Op -> Option<T>): Option<T> {
    if ops == [] then None
    else
      var earlier := First(ops[..|ops| - 1], id, says);
      if earlier.Some? || !JustDone(ops, id) then earlier else says(ops[|ops| - 1])
  }

  // What operations say.

  function Route(op: Op): Option<string> {
    if op.Submit? then Some(Strip(op.route)) else None
  }

  function Trigger(op: Op): Option<string> {
    if op.Submit? then Some(op.triggeredBy) else None
  }

  function Creation(op: Op): Option<string> {
    if op.Submit? then Some(op.now) else None
  }

  function NewStatus(op: Op): Option<CycleStatus> {
    match op
    case Submit(_, _, _, _, _) => Some(Scheduled)
    case MarkActive(_, _) => Some(Active)
    case MarkCompleted(_, _, _) => Some(Completed)
    case MarkFailed(_, _, _) => Some(Failed)
    case SuspendCycle(_, _) => Some(Suspended)
    case ResumeCycle(_, _) => Some(Active)
  }

  function Activation(op: Op): Option<string> {
    if op.MarkActive? || op.ResumeCycle? then Some(op.now) else None
  }

  function Finish(op: Op): Option<string> {
    if op.MarkCompleted? || op.MarkFailed? then Some(op.now) else None
  }

  function Reason(op: Op): Option<string> {
    if op.MarkFailed? then Some(Strip(op.reason))
    else if op.SuspendCycle? && op.note.Some? then Some(Strip(op.note.value))
    else None
  }

  /** A submission plans the waypoints; a completion with its numbers replaces all of them. */
  function Numbers(op: Op): Option<Stats> {
    if op.Submit? then Some(Stats(op.total, 0, []))
    else if op.MarkCompleted? then op.stats
    else None
  }

  ghost predicate Tells(ops: seq<Op>, id: CycleId, r: Record) {
    && Some(r.route) == Last(ops, id, Route) && Some(r.triggeredBy) == Last(ops, id, Trigger)
    && Some(r.createdAt) == Last(ops, id, Creation) && Some(r.status) == Last(ops, id, NewStatus)
    && r.startedAt == First(ops, id, Activation) && r.completedAt == Last(ops, id, Finish)
    && r.failureReason == Last(ops, id, Reason)
    && Some(Stats(r.waypointsTotal, r.waypointsObserved, r.anomalyIds)) == Last(ops, id, Numbers)
  }

  lemma {:induction false} NothingSaid<T>(ops: seq<Op>, id: CycleId, says: Op -> Option<T>)
    requires id !in RunOps(ops)
    ensures Last(ops, id, says) == None && First(ops, id, says) == None
  {
    if ops != [] {
      NothingSaid(ops[..|ops| - 1], id, says);
    }
  }

  /** One operation more on a stored cycle. */
  lemma OperationTells(ops: seq<Op>, id: CycleId)
    requires ops != []
    requires var before := ops[..|ops| - 1]; id in RunOps(before) && Tells(before, id, RunOps(before)[id])
    ensures id in RunOps(ops) && Tells(ops, id, RunOps(ops)[id])
  {
    if JustDone(ops, id) {
      AcceptedTells(ops, id);
    } else {
      assert RunOps(ops)[id] == RunOps(ops[..|ops| - 1])[id];
    }
  }

  lemma AcceptedTells(ops: seq<Op>, id: CycleId)
    requires ops != [] && JustDone(ops, id)
    requires var before := ops[..|ops| - 1]; id in RunOps(before) && Tells(before, id, RunOps(before)[id])
    ensures id in RunOps(ops) && Tells(ops, id, RunOps(ops)[id])
  {
    var before, op := ops[..|ops| - 1], ops[|ops| - 1];
    assert !op.Submit?;
    assert RunOps(ops)[id] == Merged(RunOps(before)[id], op);
  }

  /** Over every sequence of operations a stored cycle carries what was submitted, the status last given, the time of
      its first activation and of its end, the reason last given for a failure or a suspension, and the numbers of its
      completion or else those planned. */
  lemma {:induction false} RecordIsItsHistory(ops: seq<Op>, id: CycleId)
    ensures id in RunOps(ops) ==> Tells(ops, id, RunOps(ops)[id])
  {
    if ops != [] {
      var before := ops[..|ops| - 1];
      RecordIsItsHistory(before, id);
      if id in RunOps(before) {
        OperationTells(ops, id);
      } else {
        NothingSaid(before, id, Activation);
        NothingSaid(before, id, Finish);
        NothingSaid(before, id, Reason);
      }
    }
  }

  /** Which operation a status admits: only a scheduled or suspended cycle is activated, only an active one completed or
      suspended, and only an active or suspended one failed. */
  predicate Admits(status: CycleStatus, op: Op) {
    match op
    case Submit(_, _, _, _, _) => true
    case MarkActive(_, _) => status == Scheduled || status == Suspended
    case ResumeCycle(_, _) => status == Scheduled || status == Suspended
    case MarkCompleted(_, _, _) => status == Active
    case SuspendCycle(_, _) => status == Active
    case MarkFailed(_, _, _) => status == Active || status == Suspended
  }

  /** A failure without a reason, or a suspension with a blank note. */
  predicate LacksReason(op: Op) {
    || (op.MarkFailed? && Strip(op.reason) == "")
    || (op.SuspendCycle? && op.note.Some? && Strip(op.note.value) == "")
  }

  /** Why an operation on a stored cycle is refused. */
  lemma OperationsAreRefusedExactly(ops: seq<Op>, op: Op)
    requires !op.Submit?
    ensures var table := RunOps(ops);
            var blank := LacksReason(op) || Strip(op.id.name) == "";
            var excess := op.MarkCompleted? && op.stats.Some?
                          && (op.stats.value.total < 0 || op.stats.value.observed < 0
                              || 0 < op.stats.value.total < op.stats.value.observed);
            && (Refusal(table, op) == Some(BlankField) <==> blank)
            && (Refusal(table, op) == Some(NotFound) <==> !blank && Key(op.id) !in table)
            && (Refusal(table, op) == Some(InvalidTransition) <==>
                  !blank && Key(op.id) in table && !Admits(table[Key(op.id)].status, op))
            && (Refusal(table, op) == Some(InvalidRecord) <==>
                  !blank && Key(op.id) in table && Admits(table[Key(op.id)].status, op) && excess)
  {
    StoredCyclesAreOk(ops, Key(op.id));
    StripIdempotent(op.id.name);
  }

  lemma SubmissionsAreRefusedExactly(table: Table, id: CycleId, route: string, triggeredBy: string, total: int,
                                     now: string)
    ensures var refusal := Refusal(table, Submit(id, route, triggeredBy, total, now));
            var valid := Strip(id.name) != "" && Strip(now) != "" && total >= 0
                         && (triggeredBy == "schedule" || triggeredBy == "manual" || triggeredBy == "alert");
            && (refusal == Some(BlankField) <==> Strip(route) == "")
            && (refusal == Some(InvalidRecord) <==> Strip(route) != "" && !valid)
            && (refusal == Some(DuplicateId) <==> Strip(route) != "" && valid && Key(id) in table)
            && (refusal == None <==> Strip(route) != "" && valid && Key(id) !in table)
  {
    StripIdempotent(route);
  }
}
