/** What is known of a task when its robot is released. */
module DispatchRelease {
  import opened Common
  import opened TaskStatus
  import opened DispatchModel
  import opened DispatchSafety

  /** Finished, or stopped at least once at a hold on its way. */
  predicate Settled(task: Task) {
    Terminal(task.status) || task.holds > 0
  }

  predicate IsHeld(s: State, t: TaskId) {
    exists r :: r in s.slots && s.slots[r].task == t
  }

  ghost predicate ReleasedOk(s: State) {
    forall t :: t in s.tasks && s.tasks[t].claims == 1 && !IsHeld(s, t) ==> Settled(s.tasks[t])
  }

  /** A coroutine about to release its robot leaves a settled task; a terminal status once read is still there. */
  predicate FrameOk(s: State, pc: Pc) {
    && (pc.Releasing? && pc.task in s.tasks ==> Settled(s.tasks[pc.task]))
    && ((pc.OutcomeRead? || pc.FailureRead?) && pc.task in s.tasks && Terminal(pc.seen) ==>
        Terminal(s.tasks[pc.task].status))
  }

  ghost predicate FramesReleaseOk(s: State) {
    forall c :: 0 <= c < |s.frames| ==> FrameOk(s, s.frames[c].pc)
  }

  ghost predicate ReleaseInv(s: State) {
    ReleasedOk(s) && FramesReleaseOk(s)
  }

  /** A task in a later state, neither taken back nor uncounted. */
  predicate Settles(s: State, later: State, t: TaskId)
    requires t in s.tasks
  {
    && t in later.tasks
    && (Terminal(s.tasks[t].status) ==> Terminal(later.tasks[t].status))
    && later.tasks[t].holds >= s.tasks[t].holds
  }

  lemma CommitSettles(s: State, c: nat, t: TaskId)
    requires Enabled(s, Commit(c)) && t in s.tasks
    ensures Settles(s, CommitTurn(s, c), t)
  {
  }

  lemma ContinueSettles(s: State, c: nat, t: TaskId)
    requires Enabled(s, Resume(c)) && t in s.tasks
    ensures Settles(s, Continue(s, c), t)
  {
  }

  lemma EventSettles(s: State, a: Action, t: TaskId)
    requires Enabled(s, a) && a.HandleEvent? && t in s.tasks
    ensures Settles(s, Effect(s, a), t)
  {
  }

  lemma HandlerSettles(s: State, a: Action, t: TaskId)
    requires Enabled(s, a) && (a.HandlerRead? || a.HandlerResume? || a.HandlerCommit?) && t in s.tasks
    ensures Settles(s, Effect(s, a), t)
  {
  }

  /** No step takes a finished task back or uncounts a hold. */
  lemma StepSettles(s: State, a: Action, t: TaskId)
    requires t in s.tasks
    ensures Settles(s, Step(s, a), t)
  {
    if Enabled(s, a) {
      match a
      case Commit(c) => CommitSettles(s, c, t);
      case Resume(c) => ContinueSettles(s, c, t);
      case HandleEvent(_, _, _, _) => EventSettles(s, a, t);
      case HandlerRead => HandlerSettles(s, a, t);
      case HandlerResume => HandlerSettles(s, a, t);
      case HandlerCommit => HandlerSettles(s, a, t);
      case _ =>
    }
  }

  /** The frame a coroutine's action moves. */
  predicate Moves(a: Action, c: nat) {
    (a.StateRead? || a.AcquireLock? || a.QueryNext? || a.RouteReturned? || a.ReadRecord? || a.Commit? || a.Resume?)
        && a.c == c
  }

  lemma OtherFramesStay(s: State, a: Action, c: nat)
    requires c < |s.frames| && !Moves(a, c)
    ensures c < |Step(s, a).frames| && Step(s, a).frames[c] == s.frames[c]
  {
    if Enabled(s, a) && a.Resume? {
      assert Continue(s, a.c).frames[c] == s.frames[c];
    }
  }

  lemma ContinuedFrameOk(s: State, c: nat)
    requires Inv(s) && FramesReleaseOk(s) && Enabled(s, Resume(c))
    ensures FrameOk(Continue(s, c), Continue(s, c).frames[c].pc)
  {
    var pc := s.frames[c].pc;
    assert FrameOk(s, pc);
    if Claimed(pc) {
      var slot := s.slots[s.frames[c].robot];
      assert slot.task == pc.task && s.tasks[pc.task].holds == slot.holds;
    }
  }

  lemma CommittedFrameOk(s: State, c: nat)
    requires Enabled(s, Commit(c))
    ensures FrameOk(CommitTurn(s, c), CommitTurn(s, c).frames[c].pc)
  {
  }

  lemma MovedFrameOk(s: State, a: Action, c: nat)
    requires Inv(s) && FramesReleaseOk(s) && Enabled(s, a) && Moves(a, c)
    ensures c < |s.frames| == |Step(s, a).frames| && FrameOk(Step(s, a), Step(s, a).frames[c].pc)
  {
    match a
    case Commit(_) => CommittedFrameOk(s, c);
    case Resume(_) => ContinuedFrameOk(s, c);
    case RouteReturned(_, result) => ReturnedFrameOk(s, c, result);
    case _ =>
  }

  lemma ReturnedFrameOk(s: State, c: nat, result: RouteResult)
    requires Inv(s) && Enabled(s, RouteReturned(c, result))
    ensures var later := Effect(s, RouteReturned(c, result));
            |later.frames| == |s.frames| && FrameOk(later, later.frames[c].pc)
  {
    assert s.frames[c].robot in s.slots;
  }

  lemma UnmovedFrameOk(s: State, a: Action, c: nat)
    requires Inv(s) && FramesReleaseOk(s) && c < |s.frames| && !(Enabled(s, a) && Moves(a, c))
    ensures c < |Step(s, a).frames| && FrameOk(Step(s, a), Step(s, a).frames[c].pc)
  {
    if Enabled(s, a) {
      OtherFramesStay(s, a, c);
    }
    var pc := s.frames[c].pc;
    assert FrameOk(s, pc);
    if Claimed(pc) {
      assert s.slots[s.frames[c].robot].task in s.tasks;
      StepSettles(s, a, pc.task);
    }
  }

  lemma FrameCountStays(s: State, a: Action)
    requires !a.StartDispatch?
    ensures |Step(s, a).frames| == |s.frames|
  {
    if Enabled(s, a) && a.Resume? {
      assert |Continue(s, a.c).frames| == |s.frames|;
    }
  }

  lemma ExistingFrameOk(s: State, a: Action, c: nat)
    requires Inv(s) && FramesReleaseOk(s) && c < |s.frames|
    ensures c < |Step(s, a).frames| && FrameOk(Step(s, a), Step(s, a).frames[c].pc)
  {
    if Enabled(s, a) && Moves(a, c) {
      MovedFrameOk(s, a, c);
    } else {
      UnmovedFrameOk(s, a, c);
    }
  }

  lemma StartFrameOk(s: State, a: Action, c: nat)
    requires FramesReleaseOk(s) && a.StartDispatch? && c < |Effect(s, a).frames|
    ensures FrameOk(Effect(s, a), Effect(s, a).frames[c].pc)
  {
    if c < |s.frames| {
      assert FrameOk(s, s.frames[c].pc);
    }
  }

  lemma StepFrameOk(s: State, a: Action, c: nat)
    requires Inv(s) && FramesReleaseOk(s) && c < |Step(s, a).frames|
    ensures FrameOk(Step(s, a), Step(s, a).frames[c].pc)
  {
    if a.StartDispatch? {
      StartFrameOk(s, a, c);
    } else {
      FrameCountStays(s, a);
      ExistingFrameOk(s, a, c);
    }
  }

  /** A robot keeps its task until its coroutine releases it. */
  lemma SlotsStayUntilReleased(s: State, a: Action, r: RobotId)
    requires Inv(s) && r in s.slots
    requires !(Enabled(s, a) && a.Resume? && s.frames[a.c].pc.Releasing? && s.frames[a.c].robot == r)
    ensures r in Step(s, a).slots && Step(s, a).slots[r].task == s.slots[r].task
  {
    if Enabled(s, a) {
      if a.Resume? {
        ContinueKeepsSlots(s, a.c, r);
      } else {
        OthersKeepSlots(s, a, r);
      }
    }
  }

  lemma OthersKeepSlots(s: State, a: Action, r: RobotId)
    requires Enabled(s, a) && !a.Resume? && r in s.slots
    ensures r in Effect(s, a).slots && Effect(s, a).slots[r].task == s.slots[r].task
  {
    match a
    case Commit(_) =>
    case HandleEvent(_, _, _, _) =>
    case _ =>
  }

  lemma ContinueKeepsSlots(s: State, c: nat, r: RobotId)
    requires Inv(s) && Enabled(s, Resume(c)) && r in s.slots
    requires !(s.frames[c].pc.Releasing? && s.frames[c].robot == r)
    ensures r in Continue(s, c).slots && Continue(s, c).slots[r].task == s.slots[r].task
  {
  }

  /** Claiming puts the task into a slot. */
  lemma ClaimedTasksAreHeld(s: State, a: Action, t: TaskId)
    requires t in s.tasks && t in Step(s, a).tasks && Step(s, a).tasks[t].claims > s.tasks[t].claims
    ensures IsHeld(Step(s, a), t)
  {
    OnlyResumptionsClaim(s, a, t);
    assert Step(s, a).slots[s.frames[a.c].robot].task == t;
  }

  lemma OnlyResumptionsClaim(s: State, a: Action, t: TaskId)
    requires t in s.tasks && t in Step(s, a).tasks && Step(s, a).tasks[t].claims > s.tasks[t].claims
    ensures Enabled(s, a) && a.Resume? && s.frames[a.c].pc == Selected(Some(t))
  {
  }

  lemma StepReleasedOk(s: State, a: Action, t: TaskId)
    requires Inv(s) && ReleaseInv(s) && t in Step(s, a).tasks && Step(s, a).tasks[t].claims == 1
             && !IsHeld(Step(s, a), t)
    ensures Settled(Step(s, a).tasks[t])
  {
    NewTasksAreUnclaimed(s, a, t);
    StepSettles(s, a, t);
    if s.tasks[t].claims == 0 {
      ClaimedTasksAreHeld(s, a, t);
    } else if IsHeld(s, t) {
      var r :| r in s.slots && s.slots[r].task == t;
      if Enabled(s, a) && a.Resume? && s.frames[a.c].pc.Releasing? && s.frames[a.c].robot == r {
        assert FrameOk(s, s.frames[a.c].pc) && s.frames[a.c].pc.task == t;
      } else {
        SlotsStayUntilReleased(s, a, r);
      }
    }
  }

  lemma NewTasksAreUnclaimed(s: State, a: Action, t: TaskId)
    requires Inv(s) && t in Step(s, a).tasks && Step(s, a).tasks[t].claims == 1
    ensures t in s.tasks && s.tasks[t].claims <= 1
  {
    OnlySubmissionAdds(s, a, t);
    if t in s.tasks {
      assert TaskOk(s.tasks[t]);
    }
  }

  lemma ContinueAddsNoTask(s: State, c: nat)
    requires Enabled(s, Resume(c))
    ensures forall t :: t in Continue(s, c).tasks <==> t in s.tasks
  {
  }

  lemma CommitAddsNoTask(s: State, c: nat)
    requires Enabled(s, Commit(c))
    ensures forall t :: t in CommitTurn(s, c).tasks <==> t in s.tasks
  {
  }

  lemma OnlySubmissionAdds(s: State, a: Action, t: TaskId)
    requires t in Step(s, a).tasks
    ensures t in s.tasks || Step(s, a).tasks[t] == NEW_TASK
  {
    if Enabled(s, a) {
      match a
      case Commit(c) => CommitAddsNoTask(s, c);
      case Resume(c) => ContinueAddsNoTask(s, c);
      case HandleEvent(_, _, _, _) =>
      case _ =>
    }
  }

  lemma {:induction false} RunKeepsRelease(actions: seq<Action>)
    ensures ReleaseInv(Run(actions))
  {
    if actions != [] {
      var before, a := actions[..|actions| - 1], actions[|actions| - 1];
      var s := Run(before);
      RunKeepsRelease(before);
      RunKeeps(before);
      forall c | 0 <= c < |Step(s, a).frames| ensures FrameOk(Step(s, a), Step(s, a).frames[c].pc) {
        StepFrameOk(s, a, c);
      }
      forall t | t in Step(s, a).tasks && Step(s, a).tasks[t].claims == 1 && !IsHeld(Step(s, a), t)
        ensures Settled(Step(s, a).tasks[t])
      {
        StepReleasedOk(s, a, t);
      }
    }
  }

  /** In every reachable state a task that was claimed and whose robot has been released is finished, or saw a hold
      arrival: only a route with holds can leave its task open. */
  lemma ReleasedTasksAreSettled(s: State, t: TaskId)
    requires Reachable(s) && t in s.tasks && s.tasks[t].claims == 1 && !IsHeld(s, t)
    ensures Terminal(s.tasks[t].status) || s.tasks[t].holds > 0
  {
    var actions :| Run(actions) == s;
    RunKeepsRelease(actions);
  }
}
