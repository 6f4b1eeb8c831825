/** Reachable states that show what the safety results are about: a task left open, and a task served to the end. */
module DispatchExamples {
  import opened Common
  import opened TaskStatus
  import opened DispatchModel
  import opened DispatchRelease

  lemma ReachableStep(s: State, a: Action)
    requires Reachable(s)
    ensures Reachable(Step(s, a))
  {
    var actions :| Run(actions) == s;
    assert (actions + [a])[..|actions|] == actions;
    assert Run(actions + [a]) == Step(s, a);
  }

  /** A state with one robot driving for one task. */
  function OneRobot(r: RobotId, t: TaskId, task: Task, slot: Slot, pc: Pc, tickets: nat, handler: Handler): State {
    State(false, map[t := task], map[r := slot], [Frame(r, pc)], None, tickets, handler)
  }

  lemma SelectedIsReachable(r: RobotId, t: TaskId)
    ensures Reachable(State(false, map[t := NEW_TASK], map[], [Frame(r, Selected(Some(t)))], Some(0), 0, Idle))
  {
    assert Run([]) == INITIAL;
    var s1 := INITIAL.(tasks := map[t := NEW_TASK]);
    var s2 := s1.(frames := [Frame(r, AwaitingState)]);
    var ready := s1.(frames := [Frame(r, AwaitingLock)]);
    var s3 := s1.(frames := [Frame(r, Selecting)], lock := Some(0));
    assert Step(INITIAL, SubmitTask(t)) == s1;
    assert Step(s1, StartDispatch(r, false)) == s2;
    assert Step(s2, StateRead(0, true)) == ready;
    assert Step(ready, AcquireLock(0, false)) == s3;
    assert Step(s3, QueryNext(0, Some(t))) == s3.(frames := [Frame(r, Selected(Some(t)))]);
    ReachableStep(INITIAL, SubmitTask(t));
    ReachableStep(s1, StartDispatch(r, false));
    ReachableStep(s2, StateRead(0, true));
    ReachableStep(ready, AcquireLock(0, false));
    ReachableStep(s3, QueryNext(0, Some(t)));
  }

  lemma DrivingIsReachable(r: RobotId, t: TaskId)
    ensures Reachable(OneRobot(r, t, Task(Dispatched, 1, 1, 1, 0, false, false), Slot(t, 0, false, false),
                               Driving(t), 1, Idle))
  {
    SelectedIsReachable(r, t);
    var task := Task(Queued, 1, 0, 0, 0, false, false);
    var s1 := State(false, map[t := NEW_TASK], map[], [Frame(r, Selected(Some(t)))], Some(0), 0, Idle);
    var s2 := OneRobot(r, t, task, Slot(t, 0, false, false), Marking(t, 0), 1, Idle).(lock := Some(0));
    var marked := task.(status := Dispatched, dispatches := 1);
    var s3 := OneRobot(r, t, marked, Slot(t, 0, false, false), Marked(t), 1, Idle).(lock := Some(0));
    assert Step(s1, Resume(0)) == s2;
    assert Step(s2, Commit(0)) == s3;
    assert Step(s3, Resume(0))
        == OneRobot(r, t, Task(Dispatched, 1, 1, 1, 0, false, false), Slot(t, 0, false, false), Driving(t), 1, Idle);
    ReachableStep(s1, Resume(0));
    ReachableStep(s2, Commit(0));
    ReachableStep(s3, Resume(0));
  }

  lemma AwaitingLoadIsReachable(r: RobotId, t: TaskId)
    ensures Reachable(OneRobot(r, t, Task(AwaitingLoad, 1, 1, 1, 1, false, false), Slot(t, 1, false, false),
                               Driving(t), 2, Idle))
  {
    DrivingIsReachable(r, t);
    var task := Task(Dispatched, 1, 1, 1, 1, false, false);
    var s1 := OneRobot(r, t, task.(holds := 0), Slot(t, 0, false, false), Driving(t), 1, Idle);
    var s2 := OneRobot(r, t, task, Slot(t, 1, false, false), Driving(t), 1, Reading(Arrival, r, t));
    var s3 := OneRobot(r, t, task, Slot(t, 1, false, false), Driving(t), 1, Read(Arrival, r, t, Dispatched));
    var s4 := OneRobot(r, t, task, Slot(t, 1, false, false), Driving(t), 2,
                       Committing(Arrival, r, t, t, AwaitingLoad, 1));
    assert Step(s1, HandleEvent(Arrival, r, None, true)) == s2;
    assert Step(s2, HandlerRead) == s3;
    assert Step(s3, HandlerResume) == s4;
    assert Step(s4, HandlerCommit)
        == OneRobot(r, t, task.(status := AwaitingLoad), Slot(t, 1, false, false), Driving(t), 2, Idle);
    ReachableStep(s1, HandleEvent(Arrival, r, None, true));
    ReachableStep(s2, HandlerRead);
    ReachableStep(s3, HandlerResume);
    ReachableStep(s4, HandlerCommit);
  }

  /** And such a route does leave a task open: after one hold and a successful return without any confirmation the
      robot is released while the task still awaits its load. */
  lemma SuccessfulRouteMayLeaveTaskOpen(r: RobotId, t: TaskId)
    ensures exists s :: Reachable(s) && t in s.tasks && s.tasks[t].claims == 1 && !IsHeld(s, t)
                        && s.tasks[t].status == AwaitingLoad && s.frames == [Frame(r, Returned)]
  {
    AwaitingLoadIsReachable(r, t);
    var task := Task(AwaitingLoad, 1, 1, 1, 1, false, false);
    var s1 := OneRobot(r, t, task, Slot(t, 1, false, false), Driving(t), 2, Idle);
    var s2 := s1.(frames := [Frame(r, ReadingOutcome(t))]);
    var s3 := s1.(frames := [Frame(r, OutcomeRead(t, AwaitingLoad))]);
    var s4 := s1.(frames := [Frame(r, Releasing(t))]);
    var s5 := s1.(frames := [Frame(r, Returned)], slots := map[]);
    assert Step(s1, RouteReturned(0, Success)) == s2;
    assert Step(s2, ReadRecord(0)) == s3;
    assert Step(s3, Resume(0)) == s4;
    assert Step(s4, Resume(0)) == s5;
    ReachableStep(s1, RouteReturned(0, Success));
    ReachableStep(s2, ReadRecord(0));
    ReachableStep(s3, Resume(0));
    ReachableStep(s4, Resume(0));
    assert !IsHeld(s5, t);
  }

  lemma InTransitIsReachable(r: RobotId, t: TaskId)
    ensures Reachable(OneRobot(r, t, Task(InTransit, 1, 1, 1, 1, true, false), Slot(t, 1, true, false), Driving(t),
                               3, Idle))
  {
    AwaitingLoadIsReachable(r, t);
    var task, slot := Task(AwaitingLoad, 1, 1, 1, 1, true, false), Slot(t, 1, true, false);
    var s1 := OneRobot(r, t, task.(loadWhileAwaiting := false), slot.(load := false), Driving(t), 2, Idle);
    var s2 := OneRobot(r, t, task.(loadWhileAwaiting := false), slot, Driving(t), 2, Reading(LoadConfirmed, r, t));
    var s3 := OneRobot(r, t, task, slot, Driving(t), 2, Read(LoadConfirmed, r, t, AwaitingLoad));
    var s4 := OneRobot(r, t, task, slot, Driving(t), 3, Committing(LoadConfirmed, r, t, t, InTransit, 2));
    assert Step(s1, HandleEvent(LoadConfirmed, r, None, false)) == s2;
    assert Step(s2, HandlerRead) == s3;
    assert Step(s3, HandlerResume) == s4;
    assert Step(s4, HandlerCommit) == OneRobot(r, t, task.(status := InTransit), slot, Driving(t), 3, Idle);
    ReachableStep(s1, HandleEvent(LoadConfirmed, r, None, false));
    ReachableStep(s2, HandlerRead);
    ReachableStep(s3, HandlerResume);
    ReachableStep(s4, HandlerCommit);
  }

  lemma AwaitingUnloadIsReachable(r: RobotId, t: TaskId)
    ensures Reachable(OneRobot(r, t, Task(AwaitingUnload, 1, 1, 1, 2, true, false), Slot(t, 2, true, false),
                               Driving(t), 4, Idle))
  {
    InTransitIsReachable(r, t);
    var task, slot := Task(InTransit, 1, 1, 1, 2, true, false), Slot(t, 2, true, false);
    var s1 := OneRobot(r, t, task.(holds := 1), slot.(holds := 1), Driving(t), 3, Idle);
    var s2 := OneRobot(r, t, task, slot, Driving(t), 3, Reading(Arrival, r, t));
    var s3 := OneRobot(r, t, task, slot, Driving(t), 3, Read(Arrival, r, t, InTransit));
    var s4 := OneRobot(r, t, task, slot, Driving(t), 4, Committing(Arrival, r, t, t, AwaitingUnload, 3));
    assert Step(s1, HandleEvent(Arrival, r, None, true)) == s2;
    assert Step(s2, HandlerRead) == s3;
    assert Step(s3, HandlerResume) == s4;
    assert Step(s4, HandlerCommit) == OneRobot(r, t, task.(status := AwaitingUnload), slot, Driving(t), 4, Idle);
    ReachableStep(s1, HandleEvent(Arrival, r, None, true));
    ReachableStep(s2, HandlerRead);
    ReachableStep(s3, HandlerResume);
    ReachableStep(s4, HandlerCommit);
  }

  /** A task served with two holds and both confirmations is completed while its robot still drives. */
  lemma CompletionIsReachable(r: RobotId, t: TaskId)
    ensures exists s ::
              Reachable(s) && t in s.tasks && s.tasks[t].status == Completed && s.frames == [Frame(r, Driving(t))]
  {
    AwaitingUnloadIsReachable(r, t);
    var task, slot := Task(AwaitingUnload, 1, 1, 1, 2, true, true), Slot(t, 2, true, true);
    var s1 := OneRobot(r, t, task.(unload := false), slot.(unload := false), Driving(t), 4, Idle);
    var s2 := OneRobot(r, t, task, slot, Driving(t), 4, Reading(UnloadConfirmed, r, t));
    var s3 := OneRobot(r, t, task, slot, Driving(t), 4, Read(UnloadConfirmed, r, t, AwaitingUnload));
    var s4 := OneRobot(r, t, task, slot, Driving(t), 5, Committing(UnloadConfirmed, r, t, t, Completed, 4));
    var s5 := OneRobot(r, t, task.(status := Completed), slot, Driving(t), 5, Idle);
    assert Step(s1, HandleEvent(UnloadConfirmed, r, None, false)) == s2;
    assert Step(s2, HandlerRead) == s3;
    assert Step(s3, HandlerResume) == s4;
    assert Step(s4, HandlerCommit) == s5;
    ReachableStep(s1, HandleEvent(UnloadConfirmed, r, None, false));
    ReachableStep(s2, HandlerRead);
    ReachableStep(s3, HandlerResume);
    ReachableStep(s4, HandlerCommit);
  }
}
