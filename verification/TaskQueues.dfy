/** The task queue: task records, the operations that move them, and the histories these leave. */
module TaskQueues {
  import opened Common
  import opened TaskStatus

  /** Seconds. */
  type Time = real

  const VALID_PRIORITIES: set<int> := {0, 1, 2}

  datatype Record = Record(
    station: string, destination: string, priority: int, status: Status,
    createdAt: Time, dispatchedAt: Option<Time>, completedAt: Option<Time>, notes: Option<string>)

  datatype Error = BlankField | NegativePriority | RejectedPriority | DuplicateId | NotFound | InvalidTransition

  datatype Op =
    | Submit(id: TaskId, station: string, destination: string, priority: int, notes: Option<string>, now: Time)
    | Move(id: TaskId, to: Status, notes: Option<string>, now: Time)

  /** The queue's persistent state: the tasks table and the destination served last. */
  datatype Queue = Queue(table: map<TaskId, Record>, lastDestination: Option<string>)

  const EMPTY := Queue(map[], None)

  /** Why an operation is refused, if it is. */
  function Refusal(q: Queue, op: Op): Option<Error> {
    match op
    case Submit(id, station, destination, priority, _, _) =>
      if Strip(station) == "" || Strip(destination) == "" then Some(BlankField)
      else if priority < 0 then Some(NegativePriority)
      else if priority !in VALID_PRIORITIES then Some(RejectedPriority)
      else if id in q.table then Some(DuplicateId)
      else None
    case Move(id, to, _, _) =>
      if Strip(id.name) == "" then Some(BlankField)
      else if id !in q.table then Some(NotFound)
      else if !Allowed(q.table[id].status, to) then Some(InvalidTransition)
      else None
  }

  /** The record after a status update, with the two once-only timestamps. */
  function Moved(r: Record, to: Status, notes: Option<string>, now: Time): Record {
    r.(status := to,
       dispatchedAt := if to == Dispatched && r.dispatchedAt == None then Some(now) else r.dispatchedAt,
       completedAt := if Terminal(to) && r.completedAt == None then Some(now) else r.completedAt,
       notes := if notes.Some? then notes else r.notes)
  }

  function Apply(q: Queue, op: Op): Queue {
    if Refusal(q, op).Some? then q
    else
      match op
      case Submit(id, station, destination, priority, notes, now) =>
        q.(table := q.table[id := Record(Strip(station), Strip(destination), priority, Queued, now, None, None, notes)])
      case Move(id, to, notes, now) =>
        var r := Moved(q.table[id], to, notes, now);
        Queue(q.table[id := r], if to == Completed then Some(r.destination) else q.lastDestination)
  }

  function Run(ops: seq<Op>): Queue {
    if ops == [] then EMPTY else Apply(Run(ops[..|ops| - 1]), ops[|ops| - 1])
  }

  /** The statuses a task has had, read off the table after every operation. */
  function Trail(ops: seq<Op>, id: TaskId): seq<Status> {
    if ops == [] then []
    else
      var before, after := Run(ops[..|ops| - 1]).table, Run(ops).table;
      var trail := Trail(ops[..|ops| - 1], id);
      if id in after && (id !in before || before[id].status != after[id].status) then trail + [after[id].status]
      else trail
  }

  ghost predicate IsPath(trail: seq<Status>) {
    && trail != []
    && trail[0] == Queued
    && forall i :: 0 < i < |trail| ==> Allowed(trail[i - 1], trail[i])
  }

  /** A measure every allowed transition increases. */
  function Rank(s: Status): nat {
    match s
    case Queued => 0
    case Dispatched => 1
    case AwaitingLoad => 2
    case InTransit => 3
    case AwaitingUnload => 4
    case Completed => 5
    case Failed => 5
    case Cancelled => 5
  }

  lemma {:induction false} RanksIncrease(trail: seq<Status>, i: nat, j: nat)
    requires IsPath(trail) && i < j < |trail|
    ensures Rank(trail[i]) < Rank(trail[j])
    decreases j
  {
    assert Allowed(trail[j - 1], trail[j]);
    if i < j - 1 {
      RanksIncrease(trail, i, j - 1);
    }
  }

  /** A path visits no status twice and nothing follows a terminal status. */
  lemma PathsAreSimple(trail: seq<Status>)
    requires IsPath(trail)
    ensures NoDup(trail)
    ensures forall i :: 0 <= i < |trail| - 1 ==> !Terminal(trail[i])
  {
    forall i, j | 0 <= i < j < |trail| ensures trail[i] != trail[j] {
      RanksIncrease(trail, i, j);
    }
    forall i | 0 <= i < |trail| - 1 ensures !Terminal(trail[i]) {
      assert Allowed(trail[i], trail[i + 1]);
    }
  }

  /** Over every sequence of operations a task's history is a simple path in the transition table that ends in
      its present status, and the two timestamps tell exactly which milestones the history contains. */
  lemma {:induction false} HistoryIsPath(ops: seq<Op>, id: TaskId)
    ensures id !in Run(ops).table ==> Trail(ops, id) == []
    ensures id in Run(ops).table ==>
              var r, trail := Run(ops).table[id], Trail(ops, id);
              && IsPath(trail) && NoDup(trail)
              && trail[|trail| - 1] == r.status
              && (forall i :: 0 <= i < |trail| - 1 ==> !Terminal(trail[i]))
              && (r.completedAt.Some? <==> Terminal(r.status))
              && (r.dispatchedAt.Some? <==> Dispatched in trail)
              && r.priority in VALID_PRIORITIES
  {
    if ops != [] {
      var shorter := ops[..|ops| - 1];
      HistoryIsPath(shorter, id);
      if id in Run(ops).table {
        PathsAreSimple(Trail(ops, id));
      }
    }
  }

  /** One operation keeps every record, its timestamps once written, and a finished record altogether. */
  lemma ApplyKeeps(q: Queue, op: Op, id: TaskId)
    requires id in q.table && (q.table[id].completedAt.Some? ==> Terminal(q.table[id].status))
    ensures id in Apply(q, op).table
    ensures var r, r' := q.table[id], Apply(q, op).table[id];
            && (r.dispatchedAt.Some? ==> r'.dispatchedAt == r.dispatchedAt)
            && (r.completedAt.Some? ==> r' == r)
            && r'.createdAt == r.createdAt
  {
  }

  /** Once written, a timestamp is never changed by any later operation, and records never disappear. */
  lemma {:induction false} TimestampsAreWrittenOnce(ops: seq<Op>, more: seq<Op>, id: TaskId)
    requires id in Run(ops).table
    ensures id in Run(ops + more).table
    ensures var r, r' := Run(ops).table[id], Run(ops + more).table[id];
            && (r.dispatchedAt.Some? ==> r'.dispatchedAt == r.dispatchedAt)
            && (r.completedAt.Some? ==> r' == r)
            && r'.createdAt == r.createdAt
    decreases |more|
  {
    if more == [] {
      assert ops + more == ops;
    } else {
      var shorter := more[..|more| - 1];
      TimestampsAreWrittenOnce(ops, shorter, id);
      assert (ops + more)[..|ops + more| - 1] == ops + shorter;
      HistoryIsPath(ops + shorter, id);
      ApplyKeeps(Run(ops + shorter), more[|more| - 1], id);
    }
  }

  /** The queue object: two fields, changed in place under the queue lock. */
  class TaskQueue {
    var table: map<TaskId, Record>
    var lastDestination: Option<string>

    ghost function View(): Queue
      reads this
    {
      Queue(table, lastDestination)
    }

    constructor ()
      ensures View() == EMPTY
    {
      table := map[];
      lastDestination := None;
    }

    method SubmitTask(id: TaskId, station: string, destination: string, priority: int, notes: Option<string>, now: Time)
      returns (r: Result<Record, Error>)
      modifies this
      ensures var op := Submit(id, station, destination, priority, notes, now);
              && View() == Apply(old(View()), op)
              && (r.Err? <==> Refusal(old(View()), op).Some?)
              && (r.Err? ==> Refusal(old(View()), op) == Some(r.error) && View() == old(View()))
              && (r.Ok? ==> id in table && table[id] == r.value)
    {
      if Strip(station) == "" || Strip(destination) == "" {
        return Err(BlankField);
      }
      if priority < 0 {
        return Err(NegativePriority);
      }
      if priority !in VALID_PRIORITIES {
        return Err(RejectedPriority);
      }
      if id in table {
        return Err(DuplicateId);
      }
      var created := Record(Strip(station), Strip(destination), priority, Queued, now, None, None, notes);
      table := table[id := created];
      return Ok(created);
    }

    method TransitionTask(id: TaskId, to: Status, notes: Option<string>, now: Time)
      returns (r: Result<Record, Error>)
      modifies this
      ensures var op := Move(id, to, notes, now);
              && View() == Apply(old(View()), op)
              && (r.Err? <==> Refusal(old(View()), op).Some?)
              && (r.Err? ==> Refusal(old(View()), op) == Some(r.error) && View() == old(View()))
              && (r.Ok? ==> id in table && table[id] == r.value)
    {
      if Strip(id.name) == "" {
        return Err(BlankField);
      }
      if id !in table {
        return Err(NotFound);
      }
      var existing := table[id];
      if !Allowed(existing.status, to) {
        return Err(InvalidTransition);
      }
      var dispatchedAt, completedAt := existing.dispatchedAt, existing.completedAt;
      if to == Dispatched && dispatchedAt == None {
        dispatchedAt := Some(now);
      }
      if Terminal(to) && completedAt == None {
        completedAt := Some(now);
      }
      var updatedNotes := if notes.Some? then notes else existing.notes;
      var updated := existing.(status := to, dispatchedAt := dispatchedAt, completedAt := completedAt,
                               notes := updatedNotes);
      table := table[id := updated];
      if to == Completed {
        lastDestination := Some(updated.destination);
      }
      return Ok(updated);
    }
  }
}
