/** Safety of the logistics dispatcher over every interleaving. */
module DispatchSafety {
  import opened Common
  import opened TaskStatus
  import opened DispatchModel

  /** What a status proves about the past of its task. */
  predicate Backed(task: Task) {
    && (task.status.AwaitingLoad? ==> task.holds >= 1)
    && (task.status.InTransit? ==> task.holds >= 1 && task.loadWhileAwaiting)
    && (task.status.AwaitingUnload? ==> task.holds >= 2 && task.loadWhileAwaiting)
    && (task.status.Completed? ==> task.holds >= 2 && task.loadWhileAwaiting && task.unload)
  }

  /** No bus handler has moved this task yet. */
  predicate Untouched(task: Task) {
    && (task.status.Queued? || task.status.Dispatched? || task.status.Failed? || task.status.Cancelled?)
    && task.holds == 0 && !task.loadWhileAwaiting && !task.unload
  }

  predicate TaskOk(task: Task) {
    && task.claims <= 1 && task.dispatches <= 1 && task.drives <= task.dispatches <= task.claims
    && (task.claims == 0 ==> Untouched(task) && !task.status.Dispatched?)
    && (task.status.Queued? ==> task.dispatches == 0)
    && (!task.status.Queued? && !task.status.Failed? && !task.status.Cancelled? ==> task.dispatches == 1)
    && Backed(task)
  }

  ghost predicate TasksOk(s: State) {
    forall t :: t in s.tasks ==> TaskOk(s.tasks[t])
  }

  ghost predicate SlotsOk(s: State) {
    && (forall r :: r in s.slots ==> s.slots[r].task in s.tasks)
    && (forall r :: r in s.slots ==>
          && s.tasks[s.slots[r].task].claims == 1
          && s.tasks[s.slots[r].task].holds == s.slots[r].holds
          && s.tasks[s.slots[r].task].unload == s.slots[r].unload)
    && (forall r, r' :: r in s.slots && r' in s.slots && s.slots[r].task == s.slots[r'].task ==> r == r')
  }

  /** A claimed task that is still queued is being marked by the holder of the dispatch lock. */
  ghost predicate QueuedOk(s: State) {
    forall t :: t in s.tasks && s.tasks[t].claims == 1 && s.tasks[t].status.Queued? ==>
      && s.lock.Some? && s.lock.value < |s.frames|
      && s.frames[s.lock.value].pc.Marking? && s.frames[s.lock.value].pc.task == t
  }

  ghost predicate FramesOk(s: State) {
    && (forall c :: 0 <= c < |s.frames| && Claimed(s.frames[c].pc) ==>
          s.frames[c].robot in s.slots && s.slots[s.frames[c].robot].task == s.frames[c].pc.task)
    && (forall c, d :: 0 <= c < d < |s.frames| && Claimed(s.frames[c].pc) && Claimed(s.frames[d].pc) ==>
          s.frames[c].robot != s.frames[d].robot)
    && (forall c :: 0 <= c < |s.frames| && HoldsLock(s.frames[c].pc) ==> s.lock == Some(c))
  }

  /** What the dispatch-lock holder knows about the task it handles. */
  ghost predicate HolderOk(s: State) {
    forall c :: 0 <= c < |s.frames| ==>
      var pc := s.frames[c].pc;
      && (pc.Selecting? || pc.Selected? ==> s.frames[c].robot !in s.slots)
      && (pc.Selected? && pc.choice.Some? ==> pc.choice.value in s.tasks && s.tasks[pc.choice.value].claims == 0)
      && (pc.Marked? ==> pc.task in s.tasks && s.tasks[pc.task].dispatches == 1 && s.tasks[pc.task].drives == 0)
  }

  ghost predicate HandlerOk(s: State) {
    var h := s.handler;
    && (!h.Idle? ==>
          && h.first in s.tasks
          && s.tasks[h.first].claims == 1
          && (h.robot in s.slots && s.slots[h.robot].task in s.tasks && s.slots[h.robot].task != h.first ==>
                Untouched(s.tasks[s.slots[h.robot].task]))
          && (h.kind.UnloadConfirmed? ==> s.tasks[h.first].unload))
    && (h.Read? && h.kind.LoadConfirmed? && h.seen.AwaitingLoad? ==> s.tasks[h.first].loadWhileAwaiting)
    && (h.Committing? ==>
          && h.task in s.tasks
          && s.tasks[h.task].claims == 1
          && (h.task != h.first ==> Untouched(s.tasks[h.task]))
          && (h.kind.LoadConfirmed? ==> s.tasks[h.first].loadWhileAwaiting && h.target.InTransit?)
          && (h.kind.UnloadConfirmed? ==> h.target.Completed?)
          && (h.kind.Arrival? ==> (h.target.AwaitingLoad? || h.target.AwaitingUnload?) && s.tasks[h.task].holds >= 1)
          && (h.target.AwaitingUnload? ==> s.tasks[h.task].holds >= 2))
  }

  /** A completion asked for without an unload confirmation meets a task that is not under way and that no
      earlier request can put under way. */
  ghost predicate CompletionOk(s: State) {
    forall c :: 0 <= c < |s.frames| && s.frames[c].pc.Completing? ==>
      var pc := s.frames[c].pc;
      && pc.task in s.tasks
      && (!s.tasks[pc.task].unload ==>
            && !s.tasks[pc.task].status.AwaitingLoad? && !s.tasks[pc.task].status.InTransit?
            && !s.tasks[pc.task].status.AwaitingUnload?
            && (s.handler.Committing? && s.handler.ticket < pc.ticket && s.handler.task == pc.task ==>
                  !s.handler.target.AwaitingLoad?))
  }

  ghost predicate TicketsOk(s: State) {
    && (forall c :: 0 <= c < |s.frames| && Waiting(s.frames[c].pc) ==>
          s.frames[c].pc.ticket < s.nextTicket
          && (s.handler.Committing? ==> s.frames[c].pc.ticket != s.handler.ticket))
    && (s.handler.Committing? ==> s.handler.ticket < s.nextTicket)
  }

  ghost predicate TaskSide(s: State) {
    TasksOk(s) && SlotsOk(s) && QueuedOk(s) && HandlerOk(s)
  }

  ghost predicate FrameSide(s: State) {
    FramesOk(s) && HolderOk(s) && CompletionOk(s) && TicketsOk(s)
  }

  ghost predicate Inv(s: State) {
    TaskSide(s) && FrameSide(s)
  }

  /** When a task record may change to this one without upsetting anybody who relies on it. */
  ghost predicate Compatible(s: State, t: TaskId, task: Task)
    requires t in s.tasks
  {
    var was := s.tasks[t];
    && TaskOk(task)
    && task.claims == was.claims && task.holds == was.holds && task.unload == was.unload
    && (was.loadWhileAwaiting ==> task.loadWhileAwaiting)
    && (task.status.Queued? ==> was.status.Queued?)
    && (Untouched(was) && !Untouched(task) ==> s.handler.Idle?)
    && ((task.dispatches == was.dispatches && task.drives == was.drives)
        || forall c :: 0 <= c < |s.frames| && s.frames[c].pc.Marked? ==> s.frames[c].pc.task != t)
    && (task.status == was.status || task.unload
        || (!task.status.AwaitingLoad? && !task.status.InTransit? && !task.status.AwaitingUnload?)
        || forall c :: 0 <= c < |s.frames| && s.frames[c].pc.Completing? ==> s.frames[c].pc.task != t)
  }

  lemma UpdateKeepsTasks(s: State, t: TaskId, task: Task)
    requires Inv(s) && t in s.tasks && Compatible(s, t, task)
    ensures var s' := WithTask(s, t, task); TasksOk(s') && SlotsOk(s') && QueuedOk(s')
  {
  }

  lemma UpdateKeepsFrames(s: State, t: TaskId, task: Task)
    requires Inv(s) && t in s.tasks && Compatible(s, t, task)
    ensures var s' := WithTask(s, t, task); FrameSide(s')
  {
  }

  lemma UpdateKeepsHandler(s: State, t: TaskId, task: Task)
    requires Inv(s) && t in s.tasks && Compatible(s, t, task)
    ensures HandlerOk(WithTask(s, t, task))
  {
  }

  lemma UpdateKeeps(s: State, t: TaskId, task: Task)
    requires Inv(s) && t in s.tasks && Compatible(s, t, task)
    ensures Inv(WithTask(s, t, task))
  {
    UpdateKeepsTasks(s, t, task);
    UpdateKeepsFrames(s, t, task);
    UpdateKeepsHandler(s, t, task);
  }

  /** Moving a coroutine on without changing what it holds. */
  lemma MoveKeeps(s: State, c: nat, pc: Pc)
    requires Inv(s) && c < |s.frames|
    requires !Waiting(pc) && !HoldsLock(pc) && !HoldsLock(s.frames[c].pc)
    requires Claimed(pc) ==> Claimed(s.frames[c].pc) && pc.task == s.frames[c].pc.task
    ensures Inv(At(s, c, pc))
  {
  }

  /** Leaving the dispatch lock. */
  lemma UnlockKeeps(s: State, c: nat, pc: Pc)
    requires Inv(s) && c < |s.frames|
    requires HoldsLock(s.frames[c].pc) && !s.frames[c].pc.Marking? && !Waiting(pc) && !HoldsLock(pc)
    requires Claimed(pc) ==> Claimed(s.frames[c].pc) && pc.task == s.frames[c].pc.task
    ensures Inv(At(s, c, pc).(lock := None))
  {
  }

  lemma AcquireKeeps(s: State, c: nat)
    requires Inv(s) && c < |s.frames| && s.frames[c].pc.AwaitingLock? && s.lock == None && s.frames[c].robot !in s.slots
    ensures Inv(At(s, c, Selecting).(lock := Some(c)))
  {
  }

  lemma SelectKeeps(s: State, c: nat, choice: Option<TaskId>)
    requires Inv(s) && c < |s.frames| && s.frames[c].pc.Selecting?
    requires choice.Some? ==> choice.value in s.tasks && s.tasks[choice.value].status == Queued
    ensures Inv(At(s, c, Selected(choice)))
  {
  }

  lemma ClaimKeepsTasks(s: State, c: nat, t: TaskId)
    requires Inv(s) && c < |s.frames| && s.frames[c].pc == Selected(Some(t)) && t in s.tasks
    ensures TasksOk(Claim(s, c, t)) && SlotsOk(Claim(s, c, t)) && QueuedOk(Claim(s, c, t))
  {
  }

  lemma ClaimKeepsHandler(s: State, c: nat, t: TaskId)
    requires Inv(s) && c < |s.frames| && s.frames[c].pc == Selected(Some(t)) && t in s.tasks
    ensures HandlerOk(Claim(s, c, t))
  {
  }

  lemma ClaimKeepsFrames(s: State, c: nat, t: TaskId)
    requires Inv(s) && c < |s.frames| && s.frames[c].pc == Selected(Some(t)) && t in s.tasks
    ensures var s' := Claim(s, c, t); FrameSide(s')
  {
  }

  lemma MarkedKeeps(s: State, c: nat)
    requires Inv(s) && c < |s.frames| && s.frames[c].pc.Marking? && s.frames[c].pc.task in s.tasks
    requires var task := s.tasks[s.frames[c].pc.task]; !task.status.Queued? && task.dispatches == 1 && task.drives == 0
    ensures Inv(At(s, c, Marked(s.frames[c].pc.task)))
  {
  }

  lemma MarkRejectedKeeps(s: State, c: nat)
    requires Inv(s) && c < |s.frames| && s.frames[c].pc.Marking? && s.frames[c].pc.task in s.tasks
    requires !s.tasks[s.frames[c].pc.task].status.Queued?
    ensures Inv(At(s, c, MarkRejected(s.frames[c].pc.task)))
  {
  }

  lemma RequestFailureKeepsTasks(s: State, c: nat, pc: Pc)
    requires Inv(s) && c < |s.frames| && s.frames[c].pc.FailureRead?
    requires pc.Failing? && pc.task == s.frames[c].pc.task && pc.ticket == s.nextTicket
    ensures TaskSide(At(s, c, pc).(nextTicket := s.nextTicket + 1))
  {
  }

  lemma RequestFailureKeepsFrames(s: State, c: nat, pc: Pc)
    requires Inv(s) && c < |s.frames| && s.frames[c].pc.FailureRead?
    requires pc.Failing? && pc.task == s.frames[c].pc.task && pc.ticket == s.nextTicket
    ensures FrameSide(At(s, c, pc).(nextTicket := s.nextTicket + 1))
  {
  }

  /** Asking for completion: either the unload is confirmed or no hold has been counted, in which case the task
      is not under way and the handler has not asked to start it. */
  lemma RequestCompletionKeepsTasks(s: State, c: nat, pc: Pc)
    requires Inv(s) && c < |s.frames| && s.frames[c].pc.OutcomeRead?
    requires pc.Completing? && pc.task == s.frames[c].pc.task && pc.ticket == s.nextTicket
    requires WantsCompletion(s, s.frames[c].robot, s.frames[c].pc.seen)
    ensures TaskSide(At(s, c, pc).(nextTicket := s.nextTicket + 1))
  {
  }

  lemma RequestCompletionKeepsCompletion(s: State, c: nat, pc: Pc)
    requires Inv(s) && c < |s.frames| && s.frames[c].pc.OutcomeRead?
    requires pc.Completing? && pc.task == s.frames[c].pc.task && pc.ticket == s.nextTicket
    requires WantsCompletion(s, s.frames[c].robot, s.frames[c].pc.seen)
    ensures CompletionOk(At(s, c, pc).(nextTicket := s.nextTicket + 1))
  {
  }

  lemma RequestCompletionKeepsFrames(s: State, c: nat, pc: Pc)
    requires Inv(s) && c < |s.frames| && s.frames[c].pc.OutcomeRead?
    requires pc.Completing? && pc.task == s.frames[c].pc.task && pc.ticket == s.nextTicket
    ensures var s' := At(s, c, pc).(nextTicket := s.nextTicket + 1); FramesOk(s') && HolderOk(s') && TicketsOk(s')
  {
  }

  lemma ReleaseKeepsTasks(s: State, c: nat)
    requires Inv(s) && c < |s.frames| && s.frames[c].pc.Releasing?
    ensures TaskSide(Release(s, c))
  {
  }

  lemma ReleaseKeepsFrames(s: State, c: nat)
    requires Inv(s) && c < |s.frames| && s.frames[c].pc.Releasing?
    ensures FrameSide(Release(s, c))
  {
  }

  lemma ArrivalKeepsTasks(s: State, r: RobotId)
    requires Inv(s) && s.handler.Idle? && r in s.slots && s.slots[r].task in s.tasks
    ensures var s' := BeginHandler(s, Arrival, r); TaskSide(s')
  {
  }

  lemma ArrivalKeepsFrames(s: State, r: RobotId)
    requires Inv(s) && s.handler.Idle? && r in s.slots && s.slots[r].task in s.tasks
    ensures var s' := BeginHandler(s, Arrival, r); FrameSide(s')
  {
  }

  lemma LoadKeeps(s: State, r: RobotId)
    requires Inv(s) && s.handler.Idle? && r in s.slots && s.slots[r].task in s.tasks
    ensures Inv(BeginHandler(s, LoadConfirmed, r))
  {
  }

  lemma UnloadKeepsRecords(s: State, r: RobotId)
    requires TasksOk(s) && SlotsOk(s) && r in s.slots && s.slots[r].task in s.tasks
    ensures TasksOk(BeginHandler(s, UnloadConfirmed, r)) && SlotsOk(BeginHandler(s, UnloadConfirmed, r))
  {
  }

  lemma UnloadKeepsHandler(s: State, r: RobotId)
    requires Inv(s) && s.handler.Idle? && r in s.slots && s.slots[r].task in s.tasks
    ensures QueuedOk(BeginHandler(s, UnloadConfirmed, r)) && HandlerOk(BeginHandler(s, UnloadConfirmed, r))
  {
  }

  lemma UnloadKeepsFrames(s: State, r: RobotId)
    requires Inv(s) && s.handler.Idle? && r in s.slots && s.slots[r].task in s.tasks
    ensures FrameSide(BeginHandler(s, UnloadConfirmed, r))
  {
  }

  lemma UnloadKeeps(s: State, r: RobotId)
    requires Inv(s) && s.handler.Idle? && r in s.slots && s.slots[r].task in s.tasks
    ensures Inv(BeginHandler(s, UnloadConfirmed, r))
  {
    UnloadKeepsRecords(s, r);
    UnloadKeepsHandler(s, r);
    UnloadKeepsFrames(s, r);
  }

  lemma ResumeHandlerKeepsTasks(s: State)
    requires Inv(s) && s.handler.Read?
    ensures TaskSide(ResumeHandler(s))
  {
  }

  lemma ResumeHandlerKeepsFrames(s: State)
    requires Inv(s) && s.handler.Read?
    ensures FrameSide(ResumeHandler(s))
  {
  }

  lemma ResumeHandlerKeeps(s: State)
    requires Inv(s) && s.handler.Read?
    ensures Inv(ResumeHandler(s)) && Step(s, HandlerResume) == ResumeHandler(s)
  {
    ResumeHandlerKeepsTasks(s);
    ResumeHandlerKeepsFrames(s);
  }

  lemma IdleKeeps(s: State)
    requires Inv(s)
    ensures Inv(s.(handler := Idle))
  {
  }

  lemma ReadForHandlerKeeps(s: State)
    requires Inv(s) && s.handler.Reading? && s.handler.first in s.tasks
    ensures Inv(ReadForHandler(s))
  {
    var h := s.handler;
    var task := s.tasks[h.first];
    if h.kind.LoadConfirmed? && task.status.AwaitingLoad? {
      LoadSeenKeeps(s);
      RecordReadKeeps(WithTask(s, h.first, task.(loadWhileAwaiting := true)), task.status);
    } else {
      RecordReadKeeps(s, task.status);
    }
  }

  lemma LoadSeenKeeps(s: State)
    requires Inv(s) && s.handler.Reading? && s.handler.first in s.tasks && s.tasks[s.handler.first].status.AwaitingLoad?
    ensures Inv(WithTask(s, s.handler.first, s.tasks[s.handler.first].(loadWhileAwaiting := true)))
  {
    UpdateKeeps(s, s.handler.first, s.tasks[s.handler.first].(loadWhileAwaiting := true));
  }

  lemma RecordReadKeeps(s: State, seen: Status)
    requires Inv(s) && s.handler.Reading? && s.handler.first in s.tasks
    requires s.handler.kind.LoadConfirmed? && seen.AwaitingLoad? ==> s.tasks[s.handler.first].loadWhileAwaiting
    ensures Inv(s.(handler := Read(s.handler.kind, s.handler.robot, s.handler.first, seen)))
  {
  }

  lemma HandlerCommitKeeps(s: State)
    requires Inv(s) && s.handler.Committing? && s.handler.task in s.tasks && IsServed(s, s.handler.ticket)
    ensures Inv(Transition(s, s.handler.task, s.handler.target).(handler := Idle))
  {
    var h := s.handler;
    var idle := s.(handler := Idle);
    IdleKeeps(s);
    if Allowed(s.tasks[h.task].status, h.target) {
      UpdateKeeps(idle, h.task, s.tasks[h.task].(status := h.target));
    }
  }

  lemma AbortKeeps(s: State, t: TaskId, target: Status)
    requires Inv(s) && t in s.tasks && (target.Failed? || target.Cancelled?)
    ensures Inv(Transition(s, t, target))
  {
    if Allowed(s.tasks[t].status, target) {
      UpdateKeeps(s, t, s.tasks[t].(status := target));
    }
  }

  /** The task of a marking coroutine as it is when marked. */
  function MarkedTask(task: Task): Task {
    task.(status := Dispatched, dispatches := task.dispatches + 1)
  }

  lemma QueuedMayBeMarked(s: State, c: nat, t: TaskId)
    requires Inv(s) && c < |s.frames| && s.frames[c].pc.Marking? && s.frames[c].pc.task == t
    requires t in s.tasks && s.tasks[t].status.Queued?
    ensures Inv(WithTask(s, t, MarkedTask(s.tasks[t])))
    ensures MarkedTask(s.tasks[t]).dispatches == 1 && s.tasks[t].drives == 0
  {
    UpdateKeeps(s, t, MarkedTask(s.tasks[t]));
  }

  lemma MarkingTurnKeeps(s: State, c: nat)
    requires Inv(s) && c < |s.frames| && s.frames[c].pc.Marking? && s.frames[c].pc.task in s.tasks
    ensures Inv(CommitTurn(s, c))
  {
    var t := s.frames[c].pc.task;
    if s.tasks[t].status.Queued? {
      var marked := WithTask(s, t, MarkedTask(s.tasks[t]));
      assert CommitTurn(s, c) == At(marked, c, Marked(t));
      QueuedMayBeMarked(s, c, t);
      MarkedKeeps(marked, c);
    } else {
      MarkRejectedKeeps(s, c);
    }
  }

  lemma ClosingTurnKeeps(s: State, c: nat)
    requires Inv(s) && c < |s.frames| && Waiting(s.frames[c].pc) && !s.frames[c].pc.Marking?
    requires s.frames[c].pc.task in s.tasks && IsServed(s, s.frames[c].pc.ticket)
    ensures Inv(CommitTurn(s, c))
  {
    var pc := s.frames[c].pc;
    if Allowed(s.tasks[pc.task].status, Target(pc)) {
      var closed := s.tasks[pc.task].(status := Target(pc));
      assert Compatible(s, pc.task, closed);
      UpdateKeeps(s, pc.task, closed);
      MoveKeeps(WithTask(s, pc.task, closed), c, Releasing(pc.task));
      assert CommitTurn(s, c) == At(WithTask(s, pc.task, closed), c, Releasing(pc.task));
    } else {
      MoveKeeps(s, c, Rejected(pc));
    }
  }

  lemma MarkedMayBeDriven(s: State, c: nat, t: TaskId)
    requires Inv(s) && c < |s.frames| && s.frames[c].pc == Marked(t) && t in s.tasks
    ensures Compatible(At(s, c, Driving(t)).(lock := None), t, s.tasks[t].(drives := s.tasks[t].drives + 1))
  {
  }

  lemma MarkedMayUnlock(s: State, c: nat, t: TaskId)
    requires Inv(s) && c < |s.frames| && s.frames[c].pc == Marked(t) && t in s.tasks
    ensures Inv(At(s, c, Driving(t)).(lock := None))
  {
    UnlockKeeps(s, c, Driving(t));
  }

  lemma BeginRouteKeeps(s: State, c: nat, t: TaskId)
    requires Inv(s) && c < |s.frames| && s.frames[c].pc == Marked(t) && t in s.tasks
    ensures Inv(BeginRoute(s, c, t))
  {
    var driving := At(s, c, Driving(t)).(lock := None);
    var driven := s.tasks[t].(drives := s.tasks[t].drives + 1);
    assert BeginRoute(s, c, t) == WithTask(driving, t, driven);
    MarkedMayUnlock(s, c, t);
    MarkedMayBeDriven(s, c, t);
    UpdateKeeps(driving, t, driven);
  }

  lemma EnterExceptKeeps(s: State, c: nat)
    requires Inv(s) && c < |s.frames| && Claimed(s.frames[c].pc) && !HoldsLock(s.frames[c].pc)
    ensures Inv(EnterExcept(s, c, s.frames[c].pc.task))
  {
    var t := s.frames[c].pc.task;
    assert s.slots[s.frames[c].robot].task == t;
    MoveKeeps(s, c, ReadingForFailure(t, true));
  }

  lemma ContinueClaimKeeps(s: State, c: nat)
    requires Inv(s) && Enabled(s, Resume(c)) && HoldsLock(s.frames[c].pc)
    ensures Inv(Continue(s, c))
  {
    match s.frames[c].pc
    case Selected(choice) =>
      if choice.Some? {
        ClaimKeepsTasks(s, c, choice.value);
        ClaimKeepsHandler(s, c, choice.value);
        ClaimKeepsFrames(s, c, choice.value);
      } else {
        UnlockKeeps(s, c, Returned);
      }
    case Marked(t) => BeginRouteKeeps(s, c, t);
    case MarkRejected(t) =>
      assert s.slots[s.frames[c].robot].task == t;
      UnlockKeeps(s, c, ReadingForFailure(t, true));
  }

  lemma RequestCompletionKeeps(s: State, c: nat)
    requires Inv(s) && Enabled(s, Resume(c)) && s.frames[c].pc.OutcomeRead?
    requires WantsCompletion(s, s.frames[c].robot, s.frames[c].pc.seen)
    ensures Inv(At(s, c, Completing(s.frames[c].pc.task, s.nextTicket)).(nextTicket := s.nextTicket + 1))
  {
    var pc := Completing(s.frames[c].pc.task, s.nextTicket);
    RequestCompletionKeepsTasks(s, c, pc);
    RequestCompletionKeepsFrames(s, c, pc);
    RequestCompletionKeepsCompletion(s, c, pc);
  }

  lemma ContinueOutcomeKeeps(s: State, c: nat)
    requires Inv(s) && Enabled(s, Resume(c)) && s.frames[c].pc.OutcomeRead?
    ensures Inv(Continue(s, c))
  {
    if WantsCompletion(s, s.frames[c].robot, s.frames[c].pc.seen) {
      RequestCompletionKeeps(s, c);
    } else {
      MoveKeeps(s, c, Releasing(s.frames[c].pc.task));
    }
  }

  lemma ContinueFailureKeeps(s: State, c: nat)
    requires Inv(s) && Enabled(s, Resume(c)) && s.frames[c].pc.FailureRead?
    ensures Inv(Continue(s, c))
  {
    var pc := s.frames[c].pc;
    if Terminal(pc.seen) {
      MoveKeeps(s, c, Releasing(pc.task));
    } else {
      RequestFailureKeepsTasks(s, c, Failing(pc.task, pc.handling, s.nextTicket));
      RequestFailureKeepsFrames(s, c, Failing(pc.task, pc.handling, s.nextTicket));
    }
  }

  lemma ContinueKeeps(s: State, c: nat)
    requires Inv(s) && Enabled(s, Resume(c))
    ensures Inv(Continue(s, c))
  {
    match s.frames[c].pc
    case OutcomeRead(_, _) => ContinueOutcomeKeeps(s, c);
    case FailureRead(_, _, _) => ContinueFailureKeeps(s, c);
    case Raised(_) => EnterExceptKeeps(s, c);
    case Releasing(_) =>
      ReleaseKeepsTasks(s, c);
      ReleaseKeepsFrames(s, c);
    case _ => ContinueClaimKeeps(s, c);
  }

  lemma StartKeepsTasks(s: State, f: Frame)
    requires Inv(s) && (f.pc.AwaitingState? || f.pc.Returned?)
    ensures TaskSide(s.(frames := s.frames + [f]))
  {
  }

  lemma StartKeepsExclusion(s: State, f: Frame)
    requires Inv(s) && (f.pc.AwaitingState? || f.pc.Returned?)
    ensures FramesOk(s.(frames := s.frames + [f]))
  {
  }

  lemma StartKeepsFrames(s: State, f: Frame)
    requires Inv(s) && (f.pc.AwaitingState? || f.pc.Returned?)
    ensures FrameSide(s.(frames := s.frames + [f]))
  {
    StartKeepsExclusion(s, f);
  }

  lemma SubmitKeepsTasks(s: State, t: TaskId)
    requires Inv(s) && t !in s.tasks
    ensures TaskSide(WithTask(s, t, NEW_TASK))
  {
  }

  lemma SubmitKeepsFrames(s: State, t: TaskId)
    requires Inv(s) && t !in s.tasks
    ensures FrameSide(WithTask(s, t, NEW_TASK))
  {
  }

  lemma PauseKeeps(s: State, p: bool)
    requires Inv(s)
    ensures Inv(s.(paused := p))
  {
  }

  lemma RouteReturnedKeeps(s: State, c: nat, result: RouteResult)
    requires Inv(s) && Enabled(s, RouteReturned(c, result))
    ensures Inv(Effect(s, RouteReturned(c, result)))
  {
    var t := s.frames[c].pc.task;
    match result
    case Success => MoveKeeps(s, c, ReadingOutcome(t));
    case NotSuccessful => MoveKeeps(s, c, ReadingForFailure(t, false));
    case RouteRaised => EnterExceptKeeps(s, c);
  }

  lemma ReadRecordKeeps(s: State, c: nat)
    requires Inv(s) && Enabled(s, ReadRecord(c))
    ensures Inv(Effect(s, ReadRecord(c)))
  {
    var pc := s.frames[c].pc;
    MoveKeeps(s, c, if pc.ReadingOutcome? then OutcomeRead(pc.task, s.tasks[pc.task].status)
                    else FailureRead(pc.task, pc.handling, s.tasks[pc.task].status));
  }

  lemma CoroutineStepKeeps(s: State, a: Action)
    requires Inv(s) && Enabled(s, a)
    requires a.StateRead? || a.AcquireLock? || a.QueryNext? || a.RouteReturned? || a.ReadRecord?
    ensures Inv(Effect(s, a))
  {
    match a
    case StateRead(c, connected) => MoveKeeps(s, c, if connected then AwaitingLock else Returned);
    case AcquireLock(c, navigating) =>
      if s.frames[c].robot in s.slots || navigating {
        MoveKeeps(s, c, Returned);
      } else {
        AcquireKeeps(s, c);
      }
    case QueryNext(c, choice) => SelectKeeps(s, c, choice);
    case RouteReturned(c, result) => RouteReturnedKeeps(s, c, result);
    case ReadRecord(c) => ReadRecordKeeps(s, c);
  }

  lemma StartDispatchKeeps(s: State, robot: RobotId, navigating: bool)
    requires Inv(s)
    ensures Inv(Effect(s, StartDispatch(robot, navigating)))
  {
    var refused := s.paused || robot in s.slots || navigating;
    StartKeepsTasks(s, Frame(robot, if refused then Returned else AwaitingState));
    StartKeepsFrames(s, Frame(robot, if refused then Returned else AwaitingState));
  }

  lemma HandleEventKeeps(s: State, kind: EventKind, robot: RobotId, eventTask: Option<TaskId>, hold: bool)
    requires Inv(s) && Enabled(s, HandleEvent(kind, robot, eventTask, hold))
    ensures Inv(Effect(s, HandleEvent(kind, robot, eventTask, hold)))
  {
    if Matches(s, kind, robot, eventTask, hold) {
      match kind
      case Arrival => ArrivalKeepsTasks(s, robot); ArrivalKeepsFrames(s, robot);
      case LoadConfirmed => LoadKeeps(s, robot);
      case UnloadConfirmed => UnloadKeeps(s, robot);
    }
  }

  lemma StepKeeps(s: State, a: Action)
    requires Inv(s)
    ensures Inv(Step(s, a))
  {
    if Enabled(s, a) {
      match a
      case StartDispatch(robot, navigating) => StartDispatchKeeps(s, robot, navigating);
      case Commit(c) =>
        if s.frames[c].pc.Marking? { MarkingTurnKeeps(s, c); } else { ClosingTurnKeeps(s, c); }
      case Resume(c) => ContinueKeeps(s, c);
      case HandleEvent(kind, robot, eventTask, hold) => HandleEventKeeps(s, kind, robot, eventTask, hold);
      case HandlerRead => ReadForHandlerKeeps(s);
      case HandlerResume => ResumeHandlerKeeps(s);
      case HandlerCommit => HandlerCommitKeeps(s);
      case SubmitTask(t) => SubmitKeepsTasks(s, t);
        SubmitKeepsFrames(s, t);
      case CancelTask(t) => AbortKeeps(s, t, Cancelled);
      case WatchdogFail(t) => AbortKeeps(s, t, Failed);
      case SetPaused(p) => PauseKeeps(s, p);
      case _ => CoroutineStepKeeps(s, a);
    }
  }

  lemma {:induction false} RunKeeps(actions: seq<Action>)
    ensures Inv(Run(actions))
  {
    if actions != [] {
      RunKeeps(actions[..|actions| - 1]);
      StepKeeps(Run(actions[..|actions| - 1]), actions[|actions| - 1]);
    }
  }

  lemma ReachableKeeps(s: State)
    requires Reachable(s)
    ensures Inv(s)
  {
    var actions :| Run(actions) == s;
    RunKeeps(actions);
  }

  /** Over every interleaving: no task is held by two robots, no robot has two coroutines between claim and
      release, a held task that is still queued is being marked by the holder of the dispatch lock, and every task
      is claimed, dispatched and driven at most once in the whole run, in this order. */
  lemma DispatchIsExclusive(s: State)
    requires Reachable(s)
    ensures forall r, r' :: r in s.slots && r' in s.slots && s.slots[r].task == s.slots[r'].task ==> r == r'
    ensures forall c, d :: 0 <= c < d < |s.frames| && Claimed(s.frames[c].pc) && Claimed(s.frames[d].pc) ==>
              s.frames[c].robot != s.frames[d].robot && s.frames[c].pc.task != s.frames[d].pc.task
    ensures forall r :: r in s.slots && s.slots[r].task in s.tasks && s.tasks[s.slots[r].task].status == Queued ==>
              && s.lock.Some? && s.lock.value < |s.frames|
              && s.frames[s.lock.value].pc.Marking? && s.frames[s.lock.value].pc.task == s.slots[r].task
    ensures forall t :: t in s.tasks ==> s.tasks[t].drives <= s.tasks[t].dispatches <= s.tasks[t].claims <= 1
  {
    ReachableKeeps(s);
  }

  /** In every reachable state a completed task was claimed exactly once and, since that claim, saw at least two
      counted hold arrivals, a load confirmation whose handler found it awaiting its load, and an unload
      confirmation. */
  lemma CompletedTasksWereServed(s: State, t: TaskId)
    requires Reachable(s) && t in s.tasks && s.tasks[t].status == Completed
    ensures var task := s.tasks[t];
            task.claims == 1 && task.dispatches == 1 && task.holds >= 2 && task.loadWhileAwaiting && task.unload
  {
    ReachableKeeps(s);
  }
}
