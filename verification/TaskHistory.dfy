/** A stored task is what its accepted operations made of it. */
module TaskHistories {
  import opened Common
  import opened TaskStatus
  import opened TaskQueues

  /** The last operation concerned this task and was accepted. */
  ghost predicate JustDone(ops: seq<Op>, id: TaskId)
    requires ops != []
  {
    ops[|ops| - 1].id == id && Refusal(Run(ops[..|ops| - 1]), ops[|ops| - 1]).None?
  }

  /** What the last accepted operation on a task that says something of this kind says. */
  ghost function Last<T>(ops: seq<Op>, id: TaskId, says: Op -> Option<T>): Option<T> {
    if ops == [] then None
    else if JustDone(ops, id) && says(ops[|ops| - 1]).Some? then says(ops[|ops| - 1])
    else Last(ops[..|ops| - 1], id, says)
  }

  /** What the first one says. */
  ghost function First<T>(ops: seq<Op>, id: TaskId, says: Op -> Option<T>): Option<T> {
    if ops == [] then None
    else
      var earlier := First(ops[..|ops| - 1], id, says);
      if earlier.Some? || !JustDone(ops, id) then earlier else says(ops[|ops| - 1])
  }

  // What operations say.

  function Station(op: Op): Option<string> {
    if op.Submit? then Some(Strip(op.station)) else None
  }

  function Destination(op: Op): Option<string> {
    if op.Submit? then Some(Strip(op.destination)) else None
  }

  function Priority(op: Op): Option<int> {
    if op.Submit? then Some(op.priority) else None
  }

  function Creation(op: Op): Option<Time> {
    if op.Submit? then Some(op.now) else None
  }

  function NewStatus(op: Op): Option<Status> {
    if op.Submit? then Some(Queued) else Some(op.to)
  }

  function Dispatch(op: Op): Option<Time> {
    if op.Move? && op.to == Dispatched then Some(op.now) else None
  }

  function Finish(op: Op): Option<Time> {
    if op.Move? && (op.to == Completed || op.to == Failed || op.to == Cancelled) then Some(op.now) else None
  }

  /** A submission's notes may be none at all; a move without notes says nothing. */
  function Notes(op: Op): Option<Option<string>> {
    if op.Submit? || op.notes.Some? then Some(op.notes) else None
  }

  /** The destination of the task completed last. */
  ghost function LastServed(ops: seq<Op>): Option<string> {
    if ops == [] then None
    else
      var op := ops[|ops| - 1];
      if JustDone(ops, op.id) && op.Move? && op.to == Completed then Last(ops, op.id, Destination)
      else LastServed(ops[..|ops| - 1])
  }

  ghost predicate Tells(ops: seq<Op>, id: TaskId, r: Record) {
    && Some(r.station) == Last(ops, id, Station) && Some(r.destination) == Last(ops, id, Destination)
    && Some(r.priority) == Last(ops, id, Priority) && Some(r.createdAt) == Last(ops, id, Creation)
    && Some(r.status) == Last(ops, id, NewStatus) && Some(r.notes) == Last(ops, id, Notes)
    && r.dispatchedAt == First(ops, id, Dispatch) && r.completedAt == First(ops, id, Finish)
  }

  lemma {:induction false} NothingSaid<T>(ops: seq<Op>, id: TaskId, says: Op -> Option<T>)
    requires id !in Run(ops).table
    ensures Last(ops, id, says) == None && First(ops, id, says) == None
  {
    if ops != [] {
      NothingSaid(ops[..|ops| - 1], id, says);
    }
  }

  /** Over every sequence of operations a stored task carries what was submitted, the status and the notes last given,
      and the times of its first dispatch and of its end. */
  lemma {:induction false} RecordIsItsHistory(ops: seq<Op>, id: TaskId)
    ensures id in Run(ops).table ==> Tells(ops, id, Run(ops).table[id])
  {
    if ops != [] {
      var before := ops[..|ops| - 1];
      RecordIsItsHistory(before, id);
      if id !in Run(before).table {
        NothingSaid(before, id, Dispatch);
        NothingSaid(before, id, Finish);
      }
    }
  }

  /** The queue remembers the destination of the task completed last. */
  lemma {:induction false} LastDestinationIsLastServed(ops: seq<Op>)
    ensures Run(ops).lastDestination == LastServed(ops)
  {
    if ops != [] {
      LastDestinationIsLastServed(ops[..|ops| - 1]);
      RecordIsItsHistory(ops, ops[|ops| - 1].id);
    }
  }

  /** What is accepted, and the one reason for each refusal. */
  lemma SubmissionsAreRefusedExactly(q: Queue, id: TaskId, station: string, destination: string, priority: int,
                                     notes: Option<string>, now: Time)
    ensures var refusal := Refusal(q, Submit(id, station, destination, priority, notes, now));
            var blank := Strip(station) == "" || Strip(destination) == "";
            && (refusal == None <==> !blank && 0 <= priority <= 2 && id !in q.table)
            && (refusal == Some(BlankField) <==> blank)
            && (refusal == Some(NegativePriority) <==> !blank && priority < 0)
            && (refusal == Some(RejectedPriority) <==> !blank && priority > 2)
  {
  }

  lemma MovesAreRefusedExactly(q: Queue, id: TaskId, to: Status, notes: Option<string>, now: Time)
    ensures var refusal := Refusal(q, Move(id, to, notes, now));
            && (refusal == Some(BlankField) <==> Strip(id.name) == "")
            && (refusal == Some(NotFound) <==> Strip(id.name) != "" && id !in q.table)
            && (refusal == None <==> Strip(id.name) != "" && id in q.table && Allowed(q.table[id].status, to))
  {
  }

  /** A task goes on one step at a time; it can fail as long as it is not finished, and be cancelled as long as its load
      has not been confirmed. */
  lemma TransitionsExactly(from: Status, to: Status)
    ensures Allowed(from, to) <==>
              || (to != Failed && to != Cancelled && Rank(to) == Rank(from) + 1)
              || (to == Failed && Rank(from) < Rank(Failed))
              || (to == Cancelled && Rank(from) < Rank(InTransit))
  {
  }
}
