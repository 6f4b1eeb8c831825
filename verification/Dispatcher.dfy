/** The dispatcher object: its dictionaries, and its code cut at the suspension points. */
module Dispatchers {
  import opened Common
  import opened TaskStatus
  import opened DispatchModel
  import opened DispatchSafety

  class Dispatcher {
    var paused: bool
    var activeTasks: map<RobotId, TaskId>
    var arrivedHoldCounts: map<RobotId, nat>
    var loadConfirmed: map<RobotId, bool>
    var unloadConfirmed: map<RobotId, bool>
    var dispatchLock: Option<nat>
    // The status column of the tasks table and the tickets of its lock.
    var tasks: map<TaskId, Task>
    var nextTicket: nat
    // The suspended coroutines.
    var frames: seq<Frame>
    var handler: Handler

    /** The dictionaries are filled and emptied together. */
    ghost predicate Aligned()
      reads this
    {
      activeTasks.Keys == arrivedHoldCounts.Keys == loadConfirmed.Keys == unloadConfirmed.Keys
    }

    ghost function Slots(): map<RobotId, Slot>
      requires Aligned()
      reads this
    {
      map r | r in activeTasks :: Slot(activeTasks[r], arrivedHoldCounts[r], loadConfirmed[r], unloadConfirmed[r])
    }

    ghost function View(): State
      requires Aligned()
      reads this
    {
      State(paused, tasks, Slots(), frames, dispatchLock, nextTicket, handler)
    }

    /** The invariant of the machine. */
    ghost predicate Valid()
      reads this
    {
      Aligned() && Inv(View())
    }

    constructor ()
      ensures Valid() && View() == INITIAL
    {
      paused := false;
      activeTasks, arrivedHoldCounts, loadConfirmed, unloadConfirmed := map[], map[], map[], map[];
      dispatchLock := None;
      tasks := map[];
      nextTicket := 0;
      frames := [];
      handler := Idle;
    }

    method SetPc(c: nat, pc: Pc)
      requires Aligned() && c < |frames|
      modifies this`frames
      ensures Aligned() && View() == At(old(View()), c, pc)
    {
      frames := frames[c := frames[c].(pc := pc)];
    }

    method SetActiveTaskState(robot: RobotId, t: TaskId)
      requires Aligned()
      modifies this`activeTasks, this`arrivedHoldCounts, this`loadConfirmed, this`unloadConfirmed
      ensures Aligned() && Slots() == old(Slots())[robot := Slot(t, 0, false, false)]
    {
      activeTasks := activeTasks[robot := t];
      arrivedHoldCounts := arrivedHoldCounts[robot := 0];
      loadConfirmed := loadConfirmed[robot := false];
      unloadConfirmed := unloadConfirmed[robot := false];
    }

    method PopActiveTaskState(robot: RobotId)
      requires Aligned()
      modifies this`activeTasks, this`arrivedHoldCounts, this`loadConfirmed, this`unloadConfirmed
      ensures Aligned() && Slots() == old(Slots()) - {robot}
    {
      activeTasks := activeTasks - {robot};
      arrivedHoldCounts := arrivedHoldCounts - {robot};
      loadConfirmed := loadConfirmed - {robot};
      unloadConfirmed := unloadConfirmed - {robot};
    }

    method CountHold(robot: RobotId)
      requires Aligned() && robot in activeTasks
      modifies this`arrivedHoldCounts
      ensures Aligned() && Slots()
              == old(Slots())[robot := old(Slots())[robot].(holds := old(Slots())[robot].holds + 1)]
    {
      arrivedHoldCounts := arrivedHoldCounts[robot := arrivedHoldCounts[robot] + 1];
    }

    method StartDispatch(robot: RobotId, navigating: bool) returns (c: nat)
      requires Valid()
      modifies this`frames
      ensures Valid() && View() == Step(old(View()), Action.StartDispatch(robot, navigating))
      ensures c == |old(frames)| && |frames| == c + 1 && frames[c].robot == robot
    {
      StepKeeps(View(), Action.StartDispatch(robot, navigating));
      c := |frames|;
      if paused || robot in activeTasks || navigating {
        frames := frames + [Frame(robot, Returned)];
      } else {
        frames := frames + [Frame(robot, AwaitingState)];
      }
    }

    /** The robot's telemetry, read or polled: without it, or without a connection, the attempt ends. */
    method CheckState(c: nat, connected: bool)
      requires Valid() && Enabled(View(), StateRead(c, connected))
      modifies this`frames
      ensures Valid() && View() == Step(old(View()), StateRead(c, connected))
    {
      StepKeeps(View(), StateRead(c, connected));
      if connected {
        SetPc(c, AwaitingLock);
      } else {
        SetPc(c, Returned);
      }
    }

    method AcquireDispatchLock(c: nat, navigating: bool)
      requires Valid() && Enabled(View(), AcquireLock(c, navigating))
      modifies this`frames, this`dispatchLock
      ensures Valid() && View() == Step(old(View()), AcquireLock(c, navigating))
    {
      StepKeeps(View(), AcquireLock(c, navigating));
      if frames[c].robot in activeTasks || navigating {
        SetPc(c, Returned);
      } else {
        dispatchLock := Some(c);
        SetPc(c, Selecting);
      }
    }

    /** After get_next_task: set the active state and ask to mark the task dispatched, or leave the lock. */
    method ClaimSelected(c: nat)
      requires Valid() && Enabled(View(), Resume(c)) && frames[c].pc.Selected?
      modifies this
      ensures Valid() && View() == Step(old(View()), Resume(c))
    {
      StepKeeps(View(), Resume(c));
      match frames[c].pc.choice {
        case None =>
          dispatchLock := None;
          SetPc(c, Returned);
        case Some(t) =>
          ClaimTask(c, t);
      }
    }

    method ClaimTask(c: nat, t: TaskId)
      requires Aligned() && c < |frames| && t in tasks
      modifies this
      ensures Aligned() && View() == Claim(old(View()), c, t)
    {
      SetActiveTaskState(frames[c].robot, t);
      tasks := tasks[t := tasks[t].(claims := tasks[t].claims + 1)];
      SetPc(c, Marking(t, nextTicket));
      nextTicket := nextTicket + 1;
    }

    /** The lock is left and the navigator is asked to drive. */
    method ExecuteRoute(c: nat)
      requires Valid() && Enabled(View(), Resume(c)) && frames[c].pc.Marked?
      modifies this
      ensures Valid() && View() == Step(old(View()), Resume(c))
    {
      StepKeeps(View(), Resume(c));
      LeaveLockAndDrive(c, frames[c].pc.task);
    }

    method LeaveLockAndDrive(c: nat, t: TaskId)
      requires Aligned() && c < |frames| && t in tasks
      modifies this`dispatchLock, this`tasks, this`frames
      ensures Aligned() && View() == BeginRoute(old(View()), c, t)
    {
      dispatchLock := None;
      tasks := tasks[t := tasks[t].(drives := tasks[t].drives + 1)];
      SetPc(c, Driving(t));
    }

    method FailActiveTask(c: nat)
      requires Aligned() && c < |frames| && Claimed(frames[c].pc)
      modifies this`frames
      ensures Aligned() && View() == EnterExcept(old(View()), c, old(frames[c].pc.task))
    {
      var robot := frames[c].robot;
      if robot in activeTasks {
        SetPc(c, ReadingForFailure(activeTasks[robot], true));
      } else {
        SetPc(c, Releasing(frames[c].pc.task));
      }
    }

    method HandleException(c: nat)
      requires Valid() && Enabled(View(), Resume(c)) && (frames[c].pc.MarkRejected? || frames[c].pc.Raised?)
      modifies this
      ensures Valid() && View() == Step(old(View()), Resume(c))
    {
      StepKeeps(View(), Resume(c));
      ExceptStep(View(), c);
      if frames[c].pc.MarkRejected? {
        dispatchLock := None;
      }
      FailActiveTask(c);
    }

    /** The last part of _interpret_navigation_result for a successful route. */
    method InterpretSuccess(c: nat)
      requires Valid() && Enabled(View(), Resume(c)) && frames[c].pc.OutcomeRead?
      modifies this
      ensures Valid() && View() == Step(old(View()), Resume(c))
    {
      StepKeeps(View(), Resume(c));
      DecideOutcome(c);
    }

    method DecideOutcome(c: nat)
      requires Aligned() && c < |frames| && frames[c].pc.OutcomeRead? && frames[c].pc.task in tasks
      modifies this`frames, this`nextTicket
      ensures Aligned() && View() == Continue(old(View()), c)
    {
      var t, seen, robot := frames[c].pc.task, frames[c].pc.seen, frames[c].robot;
      var holds := if robot in arrivedHoldCounts then arrivedHoldCounts[robot] else 0;
      var confirmed := if robot in unloadConfirmed then unloadConfirmed[robot] else false;
      if seen == Completed {
        SetPc(c, Releasing(t));
      } else if confirmed && seen == AwaitingUnload {
        SetPc(c, Completing(t, nextTicket));
        nextTicket := nextTicket + 1;
      } else if holds == 0 {
        SetPc(c, Completing(t, nextTicket));
        nextTicket := nextTicket + 1;
      } else {
        SetPc(c, Releasing(t));
      }
    }

    method MarkFailedIfPossible(c: nat)
      requires Valid() && Enabled(View(), Resume(c)) && frames[c].pc.FailureRead?
      modifies this
      ensures Valid() && View() == Step(old(View()), Resume(c))
    {
      StepKeeps(View(), Resume(c));
      RequestFailure(c);
    }

    method RequestFailure(c: nat)
      requires Aligned() && c < |frames| && frames[c].pc.FailureRead? && frames[c].pc.task in tasks
      modifies this`frames, this`nextTicket
      ensures Aligned() && View() == Continue(old(View()), c)
    {
      var pc := frames[c].pc;
      if Terminal(pc.seen) {
        SetPc(c, Releasing(pc.task));
      } else {
        SetPc(c, Failing(pc.task, pc.handling, nextTicket));
        nextTicket := nextTicket + 1;
      }
    }

    method ResetActiveTaskState(c: nat)
      requires Valid() && Enabled(View(), Resume(c)) && frames[c].pc.Releasing?
      modifies this
      ensures Valid() && View() == Step(old(View()), Resume(c))
    {
      ghost var next := Release(View(), c);
      assert Step(View(), Resume(c)) == next;
      StepKeeps(View(), Resume(c));
      ReleaseRobot(c);
      assert View() == next;
    }

    method ReleaseRobot(c: nat)
      requires Aligned() && c < |frames|
      modifies this
      ensures Aligned() && View() == Release(old(View()), c)
    {
      PopActiveTaskState(frames[c].robot);
      SetPc(c, Returned);
    }

    /** A coroutine's turn inside _transition_task. */
    method TransitionTask(c: nat)
      requires Valid() && Enabled(View(), Commit(c))
      modifies this`frames, this`tasks
      ensures Valid() && View() == Step(old(View()), Commit(c))
    {
      ghost var next := CommitTurn(View(), c);
      assert Step(View(), Commit(c)) == next;
      StepKeeps(View(), Commit(c));
      TakeTurn(c);
      assert View() == next;
    }

    method TakeTurn(c: nat)
      requires Aligned() && c < |frames| && Waiting(frames[c].pc) && frames[c].pc.task in tasks
      modifies this`frames, this`tasks
      ensures Aligned() && View() == CommitTurn(old(View()), c)
    {
      var pc := frames[c].pc;
      var task := tasks[pc.task];
      if pc.Marking? {
        if Allowed(task.status, Dispatched) {
          tasks := tasks[pc.task := task.(status := Dispatched, dispatches := task.dispatches + 1)];
          SetPc(c, Marked(pc.task));
        } else {
          SetPc(c, MarkRejected(pc.task));
        }
      } else {
        var target := if pc.Completing? then Completed else Failed;
        if Allowed(task.status, target) {
          tasks := tasks[pc.task := task.(status := target)];
          SetPc(c, Releasing(pc.task));
        } else if pc.Failing? && pc.handling {
          SetPc(c, Releasing(pc.task));
        } else {
          SetPc(c, Raised(pc.task));
        }
      }
    }

    method OnArrivedAtWaypoint(robot: RobotId, eventTask: Option<TaskId>, hold: bool)
      requires Valid() && Enabled(View(), HandleEvent(Arrival, robot, eventTask, hold))
      modifies this
      ensures Valid() && View() == Step(old(View()), HandleEvent(Arrival, robot, eventTask, hold))
    {
      StepKeeps(View(), HandleEvent(Arrival, robot, eventTask, hold));
      if robot !in activeTasks || (eventTask.Some? && eventTask.value != activeTasks[robot]) || !hold {
        return;
      }
      BeginArrival(robot);
    }

    method BeginArrival(robot: RobotId)
      requires Aligned() && robot in activeTasks && activeTasks[robot] in tasks
      modifies this
      ensures Aligned() && View() == BeginHandler(old(View()), Arrival, robot)
    {
      var t := activeTasks[robot];
      CountHold(robot);
      tasks := tasks[t := tasks[t].(holds := tasks[t].holds + 1)];
      handler := Reading(Arrival, robot, t);
    }

    method OnHumanConfirmedLoad(robot: RobotId, eventTask: Option<TaskId>)
      requires Valid() && Enabled(View(), HandleEvent(LoadConfirmed, robot, eventTask, false))
      modifies this
      ensures Valid() && View() == Step(old(View()), HandleEvent(LoadConfirmed, robot, eventTask, false))
    {
      StepKeeps(View(), HandleEvent(LoadConfirmed, robot, eventTask, false));
      if robot !in activeTasks || (eventTask.Some? && eventTask.value != activeTasks[robot]) {
        return;
      }
      BeginLoad(robot);
    }

    method BeginLoad(robot: RobotId)
      requires Aligned() && robot in activeTasks && activeTasks[robot] in tasks
      modifies this`loadConfirmed, this`handler
      ensures Aligned() && View() == BeginHandler(old(View()), LoadConfirmed, robot)
    {
      loadConfirmed := loadConfirmed[robot := true];
      handler := Reading(LoadConfirmed, robot, activeTasks[robot]);
      assert View().slots == old(View()).slots[robot := Slots()[robot]];
    }

    method OnHumanConfirmedUnload(robot: RobotId, eventTask: Option<TaskId>)
      requires Valid() && Enabled(View(), HandleEvent(UnloadConfirmed, robot, eventTask, false))
      modifies this
      ensures Valid() && View() == Step(old(View()), HandleEvent(UnloadConfirmed, robot, eventTask, false))
    {
      StepKeeps(View(), HandleEvent(UnloadConfirmed, robot, eventTask, false));
      if robot !in activeTasks || (eventTask.Some? && eventTask.value != activeTasks[robot]) {
        return;
      }
      BeginUnload(robot);
    }

    method BeginUnload(robot: RobotId)
      requires Aligned() && robot in activeTasks && activeTasks[robot] in tasks
      modifies this`unloadConfirmed, this`tasks, this`handler
      ensures Aligned() && View() == BeginHandler(old(View()), UnloadConfirmed, robot)
    {
      var t := activeTasks[robot];
      unloadConfirmed := unloadConfirmed[robot := true];
      tasks := tasks[t := tasks[t].(unload := true)];
      handler := Reading(UnloadConfirmed, robot, t);
      assert View().slots == old(View()).slots[robot := Slots()[robot]];
    }

    method WantedTransition() returns (wanted: Option<Status>)
      requires Aligned() && handler.Read?
      ensures wanted == Wanted(View())
    {
      wanted := None;
      match handler.kind {
        case Arrival =>
          if handler.robot in arrivedHoldCounts {
            var holds := arrivedHoldCounts[handler.robot];
            if holds == 1 && handler.seen == Dispatched {
              wanted := Some(AwaitingLoad);
            } else if holds >= 2 && (handler.seen == InTransit || handler.seen == AwaitingLoad) {
              wanted := Some(AwaitingUnload);
            }
          }
        case LoadConfirmed =>
          if handler.seen == AwaitingLoad {
            wanted := Some(InTransit);
          }
        case UnloadConfirmed =>
          if handler.seen == AwaitingUnload {
            wanted := Some(Completed);
          }
      }
    }

    /** The rest of a handler once its record has been read, up to the request of _apply_event_driven_transition. */
    method ContinueHandler()
      requires Valid() && handler.Read?
      modifies this`handler, this`nextTicket
      ensures Valid() && View() == Step(old(View()), HandlerResume)
    {
      ghost var next := ResumeHandler(View());
      ResumeHandlerKeeps(View());
      RequestTransition();
      assert View() == next;
    }

    method RequestTransition()
      requires Aligned() && handler.Read?
      modifies this`handler, this`nextTicket
      ensures Aligned() && View() == ResumeHandler(old(View()))
    {
      var h := handler;
      var wanted := WantedTransition();
      handler := Idle;
      if wanted.Some? && h.robot in activeTasks {
        handler := Committing(h.kind, h.robot, h.first, activeTasks[h.robot], wanted.value, nextTicket);
        nextTicket := nextTicket + 1;
      }
    }

    /** The handler's turn inside _transition_task; a rejection is logged and swallowed. */
    method ApplyEventDrivenTransition()
      requires Valid() && Enabled(View(), HandlerCommit)
      modifies this`handler, this`tasks
      ensures Valid() && View() == Step(old(View()), HandlerCommit)
    {
      StepKeeps(View(), HandlerCommit);
      var h := handler;
      var task := tasks[h.task];
      if Allowed(task.status, h.target) {
        tasks := tasks[h.task := task.(status := h.target)];
      }
      handler := Idle;
    }

    /** What the object thereby guarantees: no two robots have the same active task, and every completed task was
        served. */
    lemma ActiveTasksAreExclusive()
      requires Valid()
      ensures forall r, s :: r in activeTasks && s in activeTasks && activeTasks[r] == activeTasks[s] ==> r == s
      ensures forall t :: t in tasks && tasks[t].status == Completed ==>
                tasks[t].holds >= 2 && tasks[t].loadWhileAwaiting && tasks[t].unload
    {
      assert forall r :: r in activeTasks ==> Slots()[r].task == activeTasks[r];
    }
  }
}
