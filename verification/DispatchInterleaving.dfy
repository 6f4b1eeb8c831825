/** What becomes of a task when its route has been driven successfully and everybody else goes on as well. */
module DispatchInterleavings {
  import opened Common
  import opened TaskStatus
  import opened DispatchModel
  import opened DispatchSafety
  import opened DispatchRelease

  /** Whatever handlers, cancels, watchdogs and other coroutines do in between, if the coroutine releases its robot from
      this task it does so with the task finished. */
  ghost predicate FinishesWhatever(s: State, c: nat, t: TaskId) {
    forall more ::
      var later := RunFrom(s, more);
      c < |later.frames| && later.frames[c].pc == Releasing(t) && t in later.tasks ==> Terminal(later.tasks[t].status)
  }

  // ---------- bound to finish ----------

  /** The task is finished, or the coroutine is bound to complete it, or to find it finished, because its unload is
      confirmed and awaited. */
  predicate BoundToFinish(s: State, c: nat, t: TaskId) {
    && c < |s.frames| && t in s.tasks
    && (Terminal(s.tasks[t].status) || (s.tasks[t].status == AwaitingUnload && UnloadConfirmedFor(s, c, t)))
  }

  predicate UnloadConfirmedFor(s: State, c: nat, t: TaskId)
    requires c < |s.frames|
  {
    var r, pc := s.frames[c].robot, s.frames[c].pc;
    && r in s.slots && s.slots[r].task == t && s.slots[r].unload
    && (pc == ReadingOutcome(t) || pc == OutcomeRead(t, AwaitingUnload) || (pc.Completing? && pc.task == t))
  }

  lemma ContinueMovesStatus(s: State, c: nat, t: TaskId)
    requires Enabled(s, Resume(c)) && t in s.tasks
    ensures t in Continue(s, c).tasks && Continue(s, c).tasks[t].status == s.tasks[t].status
  {
  }

  lemma CommitMovesStatus(s: State, c: nat, t: TaskId)
    requires Enabled(s, Commit(c)) && t in s.tasks
    ensures t in CommitTurn(s, c).tasks
    ensures CommitTurn(s, c).tasks[t].status == s.tasks[t].status
            || Allowed(s.tasks[t].status, CommitTurn(s, c).tasks[t].status)
  {
  }

  /** Every change of a status is one of the transition table. */
  lemma StepMovesStatus(s: State, a: Action, t: TaskId)
    requires t in s.tasks
    ensures t in Step(s, a).tasks
    ensures Step(s, a).tasks[t].status == s.tasks[t].status || Allowed(s.tasks[t].status, Step(s, a).tasks[t].status)
  {
    if Enabled(s, a) {
      match a
      case Commit(c) => CommitMovesStatus(s, c, t);
      case Resume(c) => ContinueMovesStatus(s, c, t);
      case HandleEvent(_, _, _, _) =>
      case _ =>
    }
  }

  lemma ContinueKeepsUnload(s: State, c: nat, r: RobotId)
    requires Inv(s) && Enabled(s, Resume(c)) && r in s.slots && s.slots[r].unload
    requires !(s.frames[c].pc.Releasing? && s.frames[c].robot == r)
    ensures r in Continue(s, c).slots && Continue(s, c).slots[r] == s.slots[r]
  {
  }

  lemma OthersKeepUnload(s: State, a: Action, r: RobotId)
    requires Enabled(s, a) && !a.Resume? && r in s.slots && s.slots[r].unload
    ensures r in Effect(s, a).slots && Effect(s, a).slots[r].task == s.slots[r].task && Effect(s, a).slots[r].unload
  {
    match a
    case Commit(_) =>
    case HandleEvent(_, _, _, _) =>
    case _ =>
  }

  /** The confirmation stays recorded until the coroutine releases its robot. */
  lemma UnloadStaysConfirmed(s: State, a: Action, c: nat, t: TaskId)
    requires Inv(s) && c < |s.frames| && UnloadConfirmedFor(s, c, t)
    ensures var r := s.frames[c].robot;
            r in Step(s, a).slots && Step(s, a).slots[r].task == t && Step(s, a).slots[r].unload
  {
    if Enabled(s, a) {
      if a.Resume? {
        assert s.frames[a.c].pc.Releasing? && a.c != c ==> s.frames[a.c].robot != s.frames[c].robot;
        ContinueKeepsUnload(s, a.c, s.frames[c].robot);
      } else {
        OthersKeepUnload(s, a, s.frames[c].robot);
      }
    }
  }

  /** The coroutine's own turns: it reads that the unload is awaited, asks for completion and gets it. */
  lemma OwnStepKeepsBound(s: State, a: Action, c: nat, t: TaskId)
    requires Inv(s) && c < |s.frames| && t in s.tasks && Enabled(s, a) && Moves(a, c)
    requires s.tasks[t].status == AwaitingUnload && UnloadConfirmedFor(s, c, t)
    ensures BoundToFinish(Effect(s, a), c, t)
  {
  }

  lemma OtherStepKeepsBound(s: State, a: Action, c: nat, t: TaskId)
    requires Inv(s) && c < |s.frames| && t in s.tasks && !Moves(a, c)
    requires s.tasks[t].status == AwaitingUnload && UnloadConfirmedFor(s, c, t)
    ensures BoundToFinish(Step(s, a), c, t)
  {
    OtherFramesStay(s, a, c);
    StepMovesStatus(s, a, t);
    UnloadStaysConfirmed(s, a, c, t);
  }

  lemma FramesRemain(s: State, a: Action)
    ensures |Step(s, a).frames| >= |s.frames|
  {
    if !a.StartDispatch? {
      FrameCountStays(s, a);
    }
  }

  lemma StepKeepsBound(s: State, a: Action, c: nat, t: TaskId)
    requires Inv(s) && BoundToFinish(s, c, t)
    ensures BoundToFinish(Step(s, a), c, t)
  {
    if Terminal(s.tasks[t].status) {
      FramesRemain(s, a);
      StepSettles(s, a, t);
    } else if Moves(a, c) {
      if Enabled(s, a) {
        OwnStepKeepsBound(s, a, c, t);
      }
    } else {
      OtherStepKeepsBound(s, a, c, t);
    }
  }

  lemma {:induction false} RunKeepsBound(s: State, more: seq<Action>, c: nat, t: TaskId)
    requires Inv(s) && BoundToFinish(s, c, t)
    ensures Inv(RunFrom(s, more)) && BoundToFinish(RunFrom(s, more), c, t)
  {
    if more != [] {
      var before, a := more[..|more| - 1], more[|more| - 1];
      RunKeepsBound(s, before, c, t);
      StepKeeps(RunFrom(s, before), a);
      StepKeepsBound(RunFrom(s, before), a, c, t);
    }
  }

  // ---------- free to stay open ----------

  /** A later state of some continuation. */
  ghost predicate LeadsTo(s: State, later: State) {
    exists more :: RunFrom(s, more) == later
  }

  lemma LeadsToItself(s: State)
    ensures LeadsTo(s, s)
  {
    assert RunFrom(s, []) == s;
  }

  lemma LeadsFurther(s: State, mid: State, a: Action)
    requires LeadsTo(s, mid)
    ensures LeadsTo(s, Step(mid, a))
  {
    var more :| RunFrom(s, more) == mid;
    assert (more + [a])[..|more|] == more;
    assert RunFrom(s, more + [a]) == Step(mid, a);
  }

  /** The coroutine has come back from its route with no hold counted and its task still dispatched. */
  predicate IsEarly(s: State, c: nat, t: TaskId) {
    && c < |s.frames| && s.frames[c].pc == ReadingOutcome(t)
    && s.frames[c].robot in s.slots && s.slots[s.frames[c].robot].task == t && s.slots[s.frames[c].robot].holds == 0
    && t in s.tasks && s.tasks[t].status == Dispatched
  }

  ghost predicate Early(s: State, c: nat, t: TaskId) {
    Inv(s) && IsEarly(s, c, t)
  }

  /** Without a counted hold a task under way is no further than dispatched. */
  lemma NoHoldMeansDispatched(s: State, c: nat)
    requires Inv(s) && c < |s.frames| && s.frames[c].pc.ReadingOutcome?
    requires s.slots[s.frames[c].robot].holds == 0 && !Terminal(s.tasks[s.frames[c].pc.task].status)
    ensures Early(s, c, s.frames[c].pc.task)
  {
    var r, t := s.frames[c].robot, s.frames[c].pc.task;
    assert r in s.slots && s.slots[r].task == t && TaskOk(s.tasks[t]);
    assert s.tasks[t].claims == 1 && s.tasks[t].status != Queued;
  }

  lemma {:induction false} EarliestWaiter(s: State, d: nat) returns (e: nat)
    requires d < |s.frames| && Waiting(s.frames[d].pc)
    ensures e < |s.frames| && Waiting(s.frames[e].pc) && s.frames[e].pc.ticket <= s.frames[d].pc.ticket
    ensures forall x :: 0 <= x < |s.frames| && Waiting(s.frames[x].pc) ==>
              s.frames[e].pc.ticket <= s.frames[x].pc.ticket
    decreases s.frames[d].pc.ticket
  {
    e := d;
    if x :| 0 <= x < |s.frames| && Waiting(s.frames[x].pc) && s.frames[x].pc.ticket < s.frames[d].pc.ticket {
      e := EarliestWaiter(s, x);
    }
  }

  function WaitingCount(frames: seq<Frame>): nat {
    if frames == [] then 0
    else WaitingCount(frames[..|frames| - 1]) + if Waiting(frames[|frames| - 1].pc) then 1 else 0
  }

  lemma {:induction false} OneWaiterLess(frames: seq<Frame>, d: nat, frame: Frame)
    requires d < |frames| && Waiting(frames[d].pc) && !Waiting(frame.pc)
    ensures WaitingCount(frames[d := frame]) + 1 == WaitingCount(frames)
  {
    var before, changed := frames[..|frames| - 1], frames[d := frame];
    if d < |before| {
      OneWaiterLess(before, d, frame);
      assert changed[..|changed| - 1] == before[d := frame];
    } else {
      assert changed[..|changed| - 1] == before;
    }
  }

  /** How far the bus handler is from its end. */
  function Stage(h: Handler): nat {
    match h
    case Idle => 0
    case Reading(_, _, _) => 3
    case Read(_, _, _, _) => 2
    case Committing(_, _, _, _, _, _) => 1
  }

  /** No handler can move a task without holds on from where it is. */
  lemma HandlerCommitKeepsEarly(s: State, c: nat, t: TaskId)
    requires HandlerOk(s) && IsEarly(s, c, t) && s.tasks[t].holds == 0 && Enabled(s, HandlerCommit)
    ensures IsEarly(Step(s, HandlerCommit), c, t) && Step(s, HandlerCommit).handler.Idle?
  {
  }

  lemma HandlerReadKeepsEarly(s: State, c: nat, t: TaskId)
    requires IsEarly(s, c, t) && Enabled(s, HandlerRead)
    ensures IsEarly(Step(s, HandlerRead), c, t) && Step(s, HandlerRead).handler.Read?
  {
  }

  lemma HandlerResumeKeepsEarly(s: State, c: nat, t: TaskId)
    requires IsEarly(s, c, t) && Enabled(s, HandlerResume)
    ensures IsEarly(Step(s, HandlerResume), c, t)
    ensures Step(s, HandlerResume).handler.Idle? || Step(s, HandlerResume).handler.Committing?
  {
  }

  lemma HandlerStepKeepsEarly(s: State, a: Action, c: nat, t: TaskId)
    requires Early(s, c, t) && Enabled(s, a) && (a.HandlerRead? || a.HandlerResume? || a.HandlerCommit?)
    ensures Early(Step(s, a), c, t) && Stage(Step(s, a).handler) < Stage(s.handler)
  {
    StepKeeps(s, a);
    match a
    case HandlerRead => HandlerReadKeepsEarly(s, c, t);
    case HandlerResume => HandlerResumeKeepsEarly(s, c, t);
    case HandlerCommit =>
      assert s.tasks[t].holds == 0;
      HandlerCommitKeepsEarly(s, c, t);
  }

  lemma WaiterIsAnother(s: State, d: nat, c: nat, t: TaskId)
    requires Inv(s) && IsEarly(s, c, t) && d < |s.frames| && Waiting(s.frames[d].pc)
    ensures d != c && s.frames[d].pc.task != t && s.frames[d].pc.task in s.tasks
  {
    assert Claimed(s.frames[d].pc);
  }

  lemma CommitTurnKeepsEarly(s: State, d: nat, c: nat, t: TaskId)
    requires IsEarly(s, c, t) && d != c && Enabled(s, Commit(d)) && s.frames[d].pc.task != t
    ensures var later := CommitTurn(s, d);
            && IsEarly(later, c, t) && later.handler == s.handler
            && d < |later.frames| && later.frames == s.frames[d := later.frames[d]] && !Waiting(later.frames[d].pc)
  {
  }

  lemma WaiterStepKeepsEarly(s: State, d: nat, c: nat, t: TaskId)
    requires Early(s, c, t) && Enabled(s, Commit(d))
    ensures Early(Step(s, Commit(d)), c, t) && Step(s, Commit(d)).handler == s.handler
    ensures WaitingCount(Step(s, Commit(d)).frames) < WaitingCount(s.frames)
  {
    StepKeeps(s, Commit(d));
    WaiterIsAnother(s, d, c, t);
    CommitTurnKeepsEarly(s, d, c, t);
    OneWaiterLess(s.frames, d, CommitTurn(s, d).frames[d]);
  }

  /** What has to happen before the handler can end: its next step, or the turn of somebody who asked for the queue lock
      before it. */
  lemma HandlerGetsOn(s: State, c: nat, t: TaskId) returns (a: Action)
    requires Early(s, c, t) && !s.handler.Idle?
    ensures Enabled(s, a) && (a.HandlerRead? || a.HandlerResume? || a.HandlerCommit? || a.Commit?)
  {
    var h := s.handler;
    if h.Committing? && !IsServed(s, h.ticket) {
      var d :| 0 <= d < |s.frames| && Waiting(s.frames[d].pc) && s.frames[d].pc.ticket < h.ticket;
      d := EarliestWaiter(s, d);
      WaiterIsAnother(s, d, c, t);
      a := Commit(d);
    } else {
      a := if h.Reading? then HandlerRead else if h.Read? then HandlerResume else HandlerCommit;
    }
  }

  /** The handler under way comes to its end, after those who asked for the queue lock before it. */
  lemma {:induction false} HandlerEnds(s: State, mid: State, c: nat, t: TaskId) returns (later: State)
    requires LeadsTo(s, mid) && Early(mid, c, t)
    ensures LeadsTo(s, later) && Early(later, c, t) && later.handler.Idle?
    decreases Stage(mid.handler), WaitingCount(mid.frames)
  {
    later := mid;
    if !mid.handler.Idle? {
      var a := HandlerGetsOn(mid, c, t);
      LeadsFurther(s, mid, a);
      if a.Commit? {
        WaiterStepKeepsEarly(mid, a.c, c, t);
      } else {
        HandlerStepKeepsEarly(mid, a, c, t);
      }
      later := HandlerEnds(s, Step(mid, a), c, t);
    }
  }

  /** A late arrival at a hold is counted. */
  lemma HoldIsCounted(s: State, c: nat, t: TaskId)
    requires Early(s, c, t) && s.handler.Idle?
    ensures var later := Step(s, HandleEvent(Arrival, s.frames[c].robot, None, true));
            && later.frames == s.frames && s.frames[c].robot in later.slots
            && later.slots[s.frames[c].robot].holds == 1
            && t in later.tasks && later.tasks[t].status == Dispatched
  {
  }

  /** With a hold counted and the unload not both confirmed and awaited the coroutine leaves an open task as it is. */
  lemma OpenTaskIsLeft(s: State, mid: State, c: nat, t: TaskId)
    requires LeadsTo(s, mid) && c < |mid.frames| && mid.frames[c].pc == ReadingOutcome(t) && t in mid.tasks
    requires mid.frames[c].robot in mid.slots && mid.slots[mid.frames[c].robot].holds > 0
    requires !Terminal(mid.tasks[t].status)
    requires !(mid.slots[mid.frames[c].robot].unload && mid.tasks[t].status == AwaitingUnload)
    ensures !FinishesWhatever(s, c, t)
  {
    var read := At(mid, c, OutcomeRead(t, mid.tasks[t].status));
    LeadsFurther(s, mid, ReadRecord(c));
    assert Step(mid, ReadRecord(c)) == read;
    LeadsFurther(s, read, Resume(c));
    assert Step(read, Resume(c)) == At(read, c, Releasing(t));
    var more :| RunFrom(s, more) == At(read, c, Releasing(t));
    assert RunFrom(s, more).frames[c].pc == Releasing(t);
  }

  lemma UnconfirmedTaskMayStayOpen(s: State, c: nat)
    requires Inv(s) && c < |s.frames| && s.frames[c].pc.ReadingOutcome?
    requires var t := s.frames[c].pc.task;
             !Terminal(s.tasks[t].status)
             && !(s.slots[s.frames[c].robot].unload && s.tasks[t].status == AwaitingUnload)
    ensures !FinishesWhatever(s, c, s.frames[c].pc.task)
  {
    var t := s.frames[c].pc.task;
    LeadsToItself(s);
    if s.slots[s.frames[c].robot].holds > 0 {
      OpenTaskIsLeft(s, s, c, t);
    } else {
      NoHoldMeansDispatched(s, c);
      var idle := HandlerEnds(s, s, c, t);
      HoldIsCounted(idle, c, t);
      LeadsFurther(s, idle, HandleEvent(Arrival, idle.frames[c].robot, None, true));
      OpenTaskIsLeft(s, Step(idle, HandleEvent(Arrival, idle.frames[c].robot, None, true)), c, t);
    }
  }

  // ---------- the condition ----------

  /** A coroutine back from a successful route releases its robot with the task finished in every interleaving exactly
      if the task is finished already, or its unload is confirmed and awaited. A task without counted holds, which the
      coroutine alone would finish, can be kept open by a hold arrival handled late. */
  lemma InterleavedRouteFinishesExactly(s: State, c: nat)
    requires Inv(s) && c < |s.frames| && s.frames[c].pc.ReadingOutcome?
    ensures var t, slot := s.frames[c].pc.task, s.slots[s.frames[c].robot];
            FinishesWhatever(s, c, t) <==>
            Terminal(s.tasks[t].status) || (slot.unload && s.tasks[t].status == AwaitingUnload)
  {
    var t, slot := s.frames[c].pc.task, s.slots[s.frames[c].robot];
    if Terminal(s.tasks[t].status) || (slot.unload && s.tasks[t].status == AwaitingUnload) {
      assert BoundToFinish(s, c, t);
      forall more | c < |RunFrom(s, more).frames| && RunFrom(s, more).frames[c].pc == Releasing(t)
        ensures t in RunFrom(s, more).tasks ==> Terminal(RunFrom(s, more).tasks[t].status)
      {
        RunKeepsBound(s, more, c, t);
      }
    } else {
      UnconfirmedTaskMayStayOpen(s, c);
    }
  }
}
