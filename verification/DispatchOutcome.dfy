/** What becomes of a task when its route has been driven and nobody interferes. */
module DispatchOutcomes {
  import opened Common
  import opened TaskStatus
  import opened DispatchModel
  import opened DispatchSafety

  /** Nobody but this coroutine is waiting for the queue lock. */
  predicate IsAlone(s: State, c: nat) {
    && c < |s.frames| && !s.handler.Committing?
    && forall d :: 0 <= d < |s.frames| && d != c ==> !Waiting(s.frames[d].pc)
  }

  /** The next action of a coroutine on its way from the route to the release of its robot. */
  function OwnAction(s: State, c: nat): Action
    requires c < |s.frames|
  {
    var pc := s.frames[c].pc;
    if pc.ReadingOutcome? || pc.ReadingForFailure? then ReadRecord(c)
    else if Waiting(pc) then Commit(c)
    else Resume(c)
  }

  /** The coroutine's own turns, up to the release and at most so many. */
  ghost function OwnTurns(s: State, c: nat, n: nat): State
    decreases n
  {
    if n == 0 || c >= |s.frames| || s.frames[c].pc.Releasing? then s
    else OwnTurns(Step(s, OwnAction(s, c)), c, n - 1)
  }

  /** The coroutine works on the task its robot is recorded to work on. */
  predicate WorksOn(s: State, c: nat, t: TaskId) {
    && IsAlone(s, c) && t in s.tasks
    && s.frames[c].robot in s.slots && s.slots[s.frames[c].robot].task == t
    && Claimed(s.frames[c].pc) && s.frames[c].pc.task == t
  }

  /** The task is released with this status. */
  predicate EndsWith(s: State, c: nat, t: TaskId, status: Status) {
    c < |s.frames| && s.frames[c].pc == Releasing(t) && t in s.tasks && s.tasks[t].status == status
  }

  lemma AloneIsServed(s: State, c: nat)
    requires IsAlone(s, c) && Waiting(s.frames[c].pc)
    ensures IsServed(s, s.frames[c].pc.ticket)
  {
  }

  lemma FailingTurn(s: State, c: nat, t: TaskId, n: nat)
    requires WorksOn(s, c, t) && s.frames[c].pc.Failing? && !Terminal(s.tasks[t].status) && n >= 1
    ensures EndsWith(OwnTurns(s, c, n), c, t, Failed)
  {
    AloneIsServed(s, c);
    assert EndsWith(Step(s, Commit(c)), c, t, Failed);
  }

  lemma FailureReadTurns(s: State, c: nat, t: TaskId, handling: bool, n: nat)
    requires WorksOn(s, c, t) && s.frames[c].pc == FailureRead(t, handling, s.tasks[t].status) && n >= 2
    ensures EndsWith(OwnTurns(s, c, n), c, t, if Terminal(s.tasks[t].status) then s.tasks[t].status else Failed)
  {
    FailureTurn(s, c, t, handling);
    if !Terminal(s.tasks[t].status) {
      FailingTurn(AskingToFail(s, c, t, handling), c, t, n - 1);
    }
  }

  /** The coroutine queues up to fail its task. */
  function AskingToFail(s: State, c: nat, t: TaskId, handling: bool): State
    requires c < |s.frames|
  {
    At(s, c, Failing(t, handling, s.nextTicket)).(nextTicket := s.nextTicket + 1)
  }

  lemma FailureTurn(s: State, c: nat, t: TaskId, handling: bool)
    requires WorksOn(s, c, t) && s.frames[c].pc == FailureRead(t, handling, s.tasks[t].status)
    ensures Step(s, Resume(c))
            == if Terminal(s.tasks[t].status) then At(s, c, Releasing(t)) else AskingToFail(s, c, t, handling)
    ensures WorksOn(AskingToFail(s, c, t, handling), c, t)
  {
  }

  lemma ExceptTurns(s: State, c: nat, t: TaskId, n: nat)
    requires WorksOn(s, c, t) && s.frames[c].pc == Raised(t) && n >= 4
    ensures EndsWith(OwnTurns(s, c, n), c, t, if Terminal(s.tasks[t].status) then s.tasks[t].status else Failed)
  {
    var reading := At(s, c, ReadingForFailure(t, true));
    assert Step(s, Resume(c)) == reading;
    ReadingForFailureTurns(reading, c, t, true, n - 1);
  }

  lemma ReadingForFailureTurns(s: State, c: nat, t: TaskId, handling: bool, n: nat)
    requires WorksOn(s, c, t) && s.frames[c].pc == ReadingForFailure(t, handling) && n >= 3
    ensures EndsWith(OwnTurns(s, c, n), c, t, if Terminal(s.tasks[t].status) then s.tasks[t].status else Failed)
  {
    var read := At(s, c, FailureRead(t, handling, s.tasks[t].status));
    assert Step(s, ReadRecord(c)) == read;
    FailureReadTurns(read, c, t, handling, n - 1);
  }

  lemma CompletingTurns(s: State, c: nat, t: TaskId, n: nat)
    requires WorksOn(s, c, t) && s.frames[c].pc.Completing? && n >= 5
    ensures EndsWith(OwnTurns(s, c, n), c, t,
                     if s.tasks[t].status == AwaitingUnload then Completed
                     else if Terminal(s.tasks[t].status) then s.tasks[t].status else Failed)
  {
    CompletionTurn(s, c, t);
    if s.tasks[t].status != AwaitingUnload {
      ExceptTurns(At(s, c, Raised(t)), c, t, n - 1);
    }
  }

  lemma CompletionTurn(s: State, c: nat, t: TaskId)
    requires WorksOn(s, c, t) && s.frames[c].pc.Completing?
    ensures s.tasks[t].status == AwaitingUnload ==> EndsWith(Step(s, Commit(c)), c, t, Completed)
    ensures s.tasks[t].status != AwaitingUnload ==>
              Step(s, Commit(c)) == At(s, c, Raised(t)) && WorksOn(At(s, c, Raised(t)), c, t)
  {
    AloneIsServed(s, c);
  }

  /** The coroutine queues up to complete its task. */
  function Asking(s: State, c: nat, t: TaskId): State
    requires c < |s.frames|
  {
    At(s, c, Completing(t, s.nextTicket)).(nextTicket := s.nextTicket + 1)
  }

  lemma OutcomeTurn(s: State, c: nat, t: TaskId)
    requires WorksOn(s, c, t) && s.frames[c].pc == OutcomeRead(t, s.tasks[t].status)
    ensures Step(s, Resume(c))
            == if WantsCompletion(s, s.frames[c].robot, s.tasks[t].status) then Asking(s, c, t)
               else At(s, c, Releasing(t))
  {
  }

  /** The branches after a successful route, from the record as it is and the robot's flags. */
  lemma OutcomeReadTurns(s: State, c: nat, t: TaskId, n: nat)
    requires WorksOn(s, c, t) && s.frames[c].pc == OutcomeRead(t, s.tasks[t].status) && n >= 6
    ensures var status, slot := s.tasks[t].status, s.slots[s.frames[c].robot];
            EndsWith(OwnTurns(s, c, n), c, t,
                     if status == AwaitingUnload && (slot.unload || slot.holds == 0) then Completed
                     else if Terminal(status) || slot.holds > 0 then status else Failed)
  {
    OutcomeTurn(s, c, t);
    if WantsCompletion(s, s.frames[c].robot, s.tasks[t].status) {
      CompletingTurns(Asking(s, c, t), c, t, n - 1);
    }
  }

  /** A coroutine that has just driven its route successfully, left to itself, releases its robot with the task finished
      exactly when the task was finished already, or no hold was counted, or the unload is confirmed and awaited; and
      with the task completed exactly in the last case or if it was completed already. */
  lemma SuccessfulRouteFinishesExactly(s: State, c: nat, n: nat)
    requires Inv(s) && IsAlone(s, c) && s.frames[c].pc.ReadingOutcome? && n >= 7
    ensures var t, slot := s.frames[c].pc.task, s.slots[s.frames[c].robot];
            var status, end := s.tasks[t].status, OwnTurns(s, c, n);
            && c < |end.frames| && end.frames[c].pc == Releasing(t) && t in end.tasks
            && (Terminal(end.tasks[t].status) <==>
                  Terminal(status) || slot.holds == 0 || (slot.unload && status == AwaitingUnload))
            && (end.tasks[t].status == Completed <==>
                  status == Completed || (slot.unload && status == AwaitingUnload))
  {
    var t := s.frames[c].pc.task;
    ReadingIsKnown(s, c);
    ReadingOutcomeTurns(s, c, t, n);
  }

  lemma ReadingOutcomeTurns(s: State, c: nat, t: TaskId, n: nat)
    requires WorksOn(s, c, t) && s.frames[c].pc == ReadingOutcome(t) && n >= 7
    ensures var status, slot := s.tasks[t].status, s.slots[s.frames[c].robot];
            EndsWith(OwnTurns(s, c, n), c, t,
                     if status == AwaitingUnload && (slot.unload || slot.holds == 0) then Completed
                     else if Terminal(status) || slot.holds > 0 then status else Failed)
  {
    var read := At(s, c, OutcomeRead(t, s.tasks[t].status));
    assert Step(s, ReadRecord(c)) == read;
    OutcomeReadTurns(read, c, t, n - 1);
  }

  /** The robot's task is the coroutine's, and a task awaiting its unload has counted holds. */
  lemma ReadingIsKnown(s: State, c: nat)
    requires Inv(s) && IsAlone(s, c) && s.frames[c].pc.ReadingOutcome?
    ensures WorksOn(s, c, s.frames[c].pc.task)
    ensures s.tasks[s.frames[c].pc.task].status == AwaitingUnload ==> s.slots[s.frames[c].robot].holds > 0
  {
    var t := s.frames[c].pc.task;
    assert s.slots[s.frames[c].robot].task == t && TaskOk(s.tasks[t]);
  }

  // ---------- from the route's result on ----------

  /** The route comes back with this result. */
  ghost function CameBack(s: State, c: nat, result: RouteResult): State {
    Step(s, RouteReturned(c, result))
  }

  lemma ReturnTurn(s: State, c: nat, result: RouteResult)
    requires Inv(s) && IsAlone(s, c) && s.frames[c].pc.Driving?
    ensures var t := s.frames[c].pc.task;
            && CameBack(s, c, result)
               == At(s, c, match result case Success => ReadingOutcome(t)
                                        case NotSuccessful => ReadingForFailure(t, false)
                                        case RouteRaised => ReadingForFailure(t, true))
            && WorksOn(CameBack(s, c, result), c, t)
  {
    assert s.frames[c].robot in s.slots && s.slots[s.frames[c].robot].task == s.frames[c].pc.task;
  }

  /** Left to itself from the route's result on, the coroutine releases its robot with the task failed after every other
      result than a success, whatever the holds, unless the task is finished already; after a success with the task
      completed if its unload is confirmed and awaited, left as it is if it is finished or saw a hold, and failed
      otherwise. */
  lemma RouteOutcomeExactly(s: State, c: nat, result: RouteResult, n: nat)
    requires Inv(s) && IsAlone(s, c) && s.frames[c].pc.Driving? && n >= 7
    ensures var t, slot := s.frames[c].pc.task, s.slots[s.frames[c].robot];
            var was, end := s.tasks[t].status, OwnTurns(CameBack(s, c, result), c, n);
            && c < |end.frames| && end.frames[c].pc == Releasing(t) && t in end.tasks
            && (result != Success ==> end.tasks[t].status == if Terminal(was) then was else Failed)
            && (result == Success ==>
                  end.tasks[t].status ==
                    if was == AwaitingUnload && slot.unload then Completed
                    else if Terminal(was) || slot.holds > 0 then was else Failed)
  {
    var t := s.frames[c].pc.task;
    var back := CameBack(s, c, result);
    ReturnTurn(s, c, result);
    match result
    case Success =>
      AwaitedUnloadHasHolds(s, c);
      ReadingOutcomeTurns(back, c, t, n);
    case NotSuccessful => ReadingForFailureTurns(back, c, t, false, n);
    case RouteRaised => ReadingForFailureTurns(back, c, t, true, n);
  }

  lemma AwaitedUnloadHasHolds(s: State, c: nat)
    requires Inv(s) && c < |s.frames| && s.frames[c].pc.Driving?
    ensures var t := s.frames[c].pc.task;
            && t in s.tasks && s.frames[c].robot in s.slots
            && (s.tasks[t].status == AwaitingUnload ==> s.slots[s.frames[c].robot].holds > 0)
  {
    assert TaskOk(s.tasks[s.frames[c].pc.task]);
  }

  /** A failure the table refuses, because the task has been finished meanwhile, is swallowed in the except clause, so
      that the coroutine goes straight on to the release; anywhere else it raises. */
  lemma RefusedFailureIsSwallowed(s: State, c: nat, t: TaskId, handling: bool, ticket: nat)
    requires WorksOn(s, c, t) && s.frames[c].pc == Failing(t, handling, ticket) && Terminal(s.tasks[t].status)
    ensures Step(s, Commit(c)) == At(s, c, if handling then Releasing(t) else Raised(t))
  {
    AloneIsServed(s, c);
  }
}
