/** What lies behind a dispatch: the checks every coroutine has passed, and the lock it holds meanwhile. */
module DispatchChecks {
  import opened Common
  import opened TaskStatus
  import opened DispatchModel
  import opened DispatchSafety
  import opened DispatchRelease

  // ---------- the dispatch lock ----------

  /** Whoever the lock names is inside it. */
  predicate LockOk(s: State) {
    s.lock.Some? ==> s.lock.value < |s.frames| && HoldsLock(s.frames[s.lock.value].pc)
  }

  lemma ContinueKeepsLock(s: State, c: nat)
    requires Inv(s) && LockOk(s) && Enabled(s, Resume(c))
    ensures LockOk(Continue(s, c))
  {
  }

  lemma CommitKeepsLock(s: State, c: nat)
    requires LockOk(s) && Enabled(s, Commit(c))
    ensures LockOk(CommitTurn(s, c))
  {
  }

  lemma OthersKeepLock(s: State, a: Action)
    requires Enabled(s, a) && !a.Resume? && !a.Commit? && !a.AcquireLock?
    ensures Effect(s, a).lock == s.lock
  {
  }

  lemma HolderOnlyMovesOn(s: State, a: Action, c: nat)
    requires Enabled(s, a) && Moves(a, c) && !a.Resume? && !a.Commit? && c < |s.frames| && HoldsLock(s.frames[c].pc)
    ensures c < |Effect(s, a).frames| && HoldsLock(Effect(s, a).frames[c].pc)
  {
  }

  lemma StepKeepsLock(s: State, a: Action)
    requires Inv(s) && LockOk(s)
    ensures LockOk(Step(s, a))
  {
    if Enabled(s, a) {
      if a.Resume? {
        ContinueKeepsLock(s, a.c);
      } else if a.Commit? {
        CommitKeepsLock(s, a.c);
      } else if !a.AcquireLock? {
        OthersKeepLock(s, a);
        if s.lock.Some? {
          if Moves(a, s.lock.value) {
            HolderOnlyMovesOn(s, a, s.lock.value);
          } else {
            OtherFramesStay(s, a, s.lock.value);
          }
        }
      }
    }
  }

  lemma {:induction false} RunKeepsLock(actions: seq<Action>)
    ensures LockOk(Run(actions))
  {
    if actions != [] {
      RunKeeps(actions[..|actions| - 1]);
      RunKeepsLock(actions[..|actions| - 1]);
      StepKeepsLock(Run(actions[..|actions| - 1]), actions[|actions| - 1]);
    }
  }

  /** In every reachable state the dispatch lock is taken exactly by the one coroutine between getting it and leaving it
      for the route, a refusal or the end: it is never left behind. */
  lemma LockIsHeldExactly(actions: seq<Action>, c: nat)
    ensures var s := Run(actions);
            s.lock == Some(c) <==> c < |s.frames| && HoldsLock(s.frames[c].pc)
  {
    RunKeeps(actions);
    RunKeepsLock(actions);
  }

  // ---------- the checks ----------

  /** How many of the three checks a coroutine has passed. */
  function Passed(pc: Pc): nat {
    match pc
    case Returned => 0
    case AwaitingState => 1
    case AwaitingLock => 2
    case _ => 3
  }

  /** The start of this coroutine: not paused, its robot neither at work nor navigating. */
  predicate IsGoodStart(s: State, a: Action, c: nat) {
    a.StartDispatch? && !a.navigating && c == |s.frames| && !s.paused && a.robot !in s.slots
  }

  /** The lock given to this coroutine, its robot still neither at work nor navigating. */
  predicate IsGoodLock(s: State, a: Action, c: nat) {
    a == AcquireLock(c, false) && c < |s.frames| && s.frames[c].robot !in s.slots && s.lock == None
  }

  predicate PassedBy(s: State, a: Action, later: State, c: nat)
    requires c < |later.frames|
  {
    var now, before := Passed(later.frames[c].pc), if c < |s.frames| then Passed(s.frames[c].pc) else 0;
    && (now >= 1 ==> before >= 1 || IsGoodStart(s, a, c))
    && (now >= 2 ==> before >= 2 || a == StateRead(c, true))
    && (now >= 3 ==> before >= 3 || IsGoodLock(s, a, c))
  }

  lemma ContinuePassesNothing(s: State, c: nat)
    requires Enabled(s, Resume(c)) && c < |Continue(s, c).frames|
    ensures PassedBy(s, Resume(c), Continue(s, c), c)
  {
  }

  lemma CommitPassesNothing(s: State, c: nat)
    requires Enabled(s, Commit(c)) && c < |CommitTurn(s, c).frames|
    ensures PassedBy(s, Commit(c), CommitTurn(s, c), c)
  {
  }

  lemma OwnStepPasses(s: State, a: Action, c: nat)
    requires c < |s.frames| && Enabled(s, a) && Moves(a, c) && c < |Effect(s, a).frames|
    ensures PassedBy(s, a, Effect(s, a), c)
  {
    match a
    case Resume(_) => ContinuePassesNothing(s, c);
    case Commit(_) => CommitPassesNothing(s, c);
    case _ =>
  }

  lemma NewFramePasses(s: State, a: Action, c: nat)
    requires |s.frames| <= c < |Step(s, a).frames|
    ensures PassedBy(s, a, Step(s, a), c)
  {
    if !a.StartDispatch? {
      FrameCountStays(s, a);
    }
  }

  lemma StepPasses(s: State, a: Action, c: nat)
    requires c < |Step(s, a).frames|
    ensures PassedBy(s, a, Step(s, a), c)
  {
    if c >= |s.frames| {
      NewFramePasses(s, a, c);
    } else if !Moves(a, c) {
      OtherFramesStay(s, a, c);
    } else if Enabled(s, a) {
      OwnStepPasses(s, a, c);
    }
  }

  ghost predicate StartedWell(actions: seq<Action>, c: nat) {
    exists i :: 0 <= i < |actions| && IsGoodStart(Run(actions[..i]), actions[i], c)
  }

  ghost predicate ReadWell(actions: seq<Action>, c: nat) {
    exists i :: 0 <= i < |actions| && actions[i] == StateRead(c, true)
  }

  ghost predicate LockedWell(actions: seq<Action>, c: nat) {
    exists i :: 0 <= i < |actions| && IsGoodLock(Run(actions[..i]), actions[i], c)
  }

  lemma OneActionMore(actions: seq<Action>, a: Action, c: nat)
    ensures StartedWell(actions, c) || IsGoodStart(Run(actions), a, c) ==> StartedWell(actions + [a], c)
    ensures ReadWell(actions, c) || a == StateRead(c, true) ==> ReadWell(actions + [a], c)
    ensures LockedWell(actions, c) || IsGoodLock(Run(actions), a, c) ==> LockedWell(actions + [a], c)
  {
    var all := actions + [a];
    assert forall i :: 0 <= i < |actions| ==> all[..i] == actions[..i] && all[i] == actions[i];
    assert all[..|actions|] == actions && all[|actions|] == a;
  }

  /** Over every run a coroutine that has got to the telemetry, the lock or beyond was started while the dispatcher was
      not paused and its robot neither at work nor navigating, has read a connected state, and was given the lock with
      the robot still neither at work nor navigating. */
  lemma {:induction false} NobodySkipsACheck(actions: seq<Action>, c: nat)
    requires c < |Run(actions).frames|
    ensures var passed := Passed(Run(actions).frames[c].pc);
            && (passed >= 1 ==> StartedWell(actions, c)) && (passed >= 2 ==> ReadWell(actions, c))
            && (passed >= 3 ==> LockedWell(actions, c))
  {
    var before, a := actions[..|actions| - 1], actions[|actions| - 1];
    assert actions == before + [a];
    StepPasses(Run(before), a, c);
    OneActionMore(before, a, c);
    if c < |Run(before).frames| {
      NobodySkipsACheck(before, c);
    }
  }

  /** The last order was to pause. */
  predicate ToldToPause(actions: seq<Action>) {
    actions != []
    && var a := actions[|actions| - 1];
       if a.SetPaused? then a.paused else ToldToPause(actions[..|actions| - 1])
  }

  lemma OnlyOrdersPause(s: State, a: Action)
    ensures Step(s, a).paused == if a.SetPaused? then a.paused else s.paused
  {
    if Enabled(s, a) && a.Resume? {
      assert Continue(s, a.c).paused == s.paused;
    } else if Enabled(s, a) && a.Commit? {
      assert CommitTurn(s, a.c).paused == s.paused;
    }
  }

  /** Over every run the dispatcher is paused exactly if the last order to pause or to resume was to pause. */
  lemma {:induction false} PausedAsTold(actions: seq<Action>)
    ensures Run(actions).paused <==> ToldToPause(actions)
  {
    if actions != [] {
      PausedAsTold(actions[..|actions| - 1]);
      OnlyOrdersPause(Run(actions[..|actions| - 1]), actions[|actions| - 1]);
    }
  }

  /** And nobody is turned away for another reason. */
  lemma TurnedAwayExactly(s: State, robot: RobotId, navigating: bool, connected: bool, c: nat)
    ensures var started := Step(s, StartDispatch(robot, navigating));
            && |started.frames| == |s.frames| + 1 && started.frames[|s.frames|].robot == robot
            && (started.frames[|s.frames|].pc == Returned <==> s.paused || robot in s.slots || navigating)
    ensures c < |s.frames| && s.frames[c].pc.AwaitingState? ==>
              (Step(s, StateRead(c, connected)).frames[c].pc == Returned <==> !connected)
    ensures c < |s.frames| && s.frames[c].pc.AwaitingLock? && s.lock == None ==>
              (Step(s, AcquireLock(c, navigating)).frames[c].pc == Returned <==>
                 s.frames[c].robot in s.slots || navigating)
  {
  }

  // ---------- the queue lock ----------

  ghost predicate TicketsDistinct(s: State) {
    forall c, d :: 0 <= c < d < |s.frames| && Waiting(s.frames[c].pc) && Waiting(s.frames[d].pc) ==>
      s.frames[c].pc.ticket != s.frames[d].pc.ticket
  }

  /** What a waiting coroutine asked for with the latest ticket, or has been asking for all along. */
  predicate AskedNowOrBefore(s: State, later: State, c: nat)
    requires c < |later.frames|
  {
    Waiting(later.frames[c].pc) ==>
      later.frames[c].pc.ticket == s.nextTicket || (c < |s.frames| && later.frames[c] == s.frames[c])
  }

  lemma ResumeAsks(s: State, c: nat)
    requires Enabled(s, Resume(c))
    ensures AskedNowOrBefore(s, Continue(s, c), c)
  {
  }

  lemma OthersAskNothing(s: State, a: Action, c: nat)
    requires Enabled(s, a) && Moves(a, c) && !a.Resume?
    ensures c < |Effect(s, a).frames| && !Waiting(Effect(s, a).frames[c].pc)
  {
  }

  lemma OnlyStartsAddFrames(s: State, a: Action)
    ensures a.StartDispatch? || |Step(s, a).frames| == |s.frames|
  {
    if Enabled(s, a) && a.Resume? {
      assert |Continue(s, a.c).frames| == |s.frames|;
    } else if Enabled(s, a) && a.Commit? {
      assert |CommitTurn(s, a.c).frames| == |s.frames|;
    }
  }

  lemma NewFrameIsNotWaiting(s: State, a: Action, c: nat)
    requires |s.frames| <= c < |Step(s, a).frames|
    ensures !Waiting(Step(s, a).frames[c].pc)
  {
    OnlyStartsAddFrames(s, a);
  }

  lemma StepAsks(s: State, a: Action, c: nat)
    requires c < |Step(s, a).frames|
    ensures AskedNowOrBefore(s, Step(s, a), c)
  {
    if c >= |s.frames| {
      NewFrameIsNotWaiting(s, a, c);
    } else if !Moves(a, c) {
      OtherFramesStay(s, a, c);
    } else if Enabled(s, a) {
      if a.Resume? {
        ResumeAsks(s, c);
      } else {
        OthersAskNothing(s, a, c);
      }
    }
  }

  /** Only one coroutine moves at a time, so that only one asks. */
  lemma StepKeepsTickets(s: State, a: Action, c: nat, d: nat)
    requires TicketsOk(s) && TicketsDistinct(s) && c < d < |Step(s, a).frames|
    requires Waiting(Step(s, a).frames[c].pc) && Waiting(Step(s, a).frames[d].pc)
    ensures Step(s, a).frames[c].pc.ticket != Step(s, a).frames[d].pc.ticket
  {
    StepAsks(s, a, c);
    StepAsks(s, a, d);
    if c < |s.frames| && !Moves(a, c) {
      OtherFramesStay(s, a, c);
    }
    if d < |s.frames| && !Moves(a, d) {
      OtherFramesStay(s, a, d);
    }
    if d >= |s.frames| {
      NewFrameIsNotWaiting(s, a, d);
    }
  }

  lemma {:induction false} RunKeepsTickets(actions: seq<Action>)
    ensures TicketsDistinct(Run(actions))
  {
    if actions != [] {
      var before, a := actions[..|actions| - 1], actions[|actions| - 1];
      RunKeepsTickets(before);
      RunKeeps(before);
      var s := Run(before);
      forall c: nat, d: nat |
        c < d < |Step(s, a).frames| && Waiting(Step(s, a).frames[c].pc) && Waiting(Step(s, a).frames[d].pc)
        ensures Step(s, a).frames[c].pc.ticket != Step(s, a).frames[d].pc.ticket
      {
        StepKeepsTickets(s, a, c, d);
      }
    }
  }

  lemma ServedAsEnabled(s: State, c: nat)
    ensures Step(s, Commit(c)) != s ==> c < |s.frames| && Waiting(s.frames[c].pc) && IsServed(s, s.frames[c].pc.ticket)
    ensures Step(s, HandlerCommit) != s ==> s.handler.Committing? && IsServed(s, s.handler.ticket)
  {
  }

  /** In every reachable state a request is served only if everybody else who waits asked later. */
  lemma ServedInTurn(actions: seq<Action>, c: nat, d: nat)
    requires var s := Run(actions);
             && c < |s.frames| && Waiting(s.frames[c].pc)
             && d < |s.frames| && Waiting(s.frames[d].pc) && c != d
    ensures var s := Run(actions);
            && (Step(s, Commit(c)) != s ==>
                  s.frames[c].pc.ticket < s.frames[d].pc.ticket
                  && (s.handler.Committing? ==> s.frames[c].pc.ticket < s.handler.ticket))
            && (s.handler.Committing? && Step(s, HandlerCommit) != s ==> s.handler.ticket < s.frames[d].pc.ticket)
  {
    RunKeeps(actions);
    RunKeepsTickets(actions);
    ServedAsEnabled(Run(actions), c);
  }

  lemma {:induction false} FirstOfTheWaiting(frames: seq<Frame>, c: nat) returns (first: nat)
    requires c < |frames| && Waiting(frames[c].pc)
    ensures first < |frames| && Waiting(frames[first].pc)
    ensures forall d :: 0 <= d < |frames| && Waiting(frames[d].pc) ==> frames[first].pc.ticket <= frames[d].pc.ticket
  {
    var before := frames[..|frames| - 1];
    if w: nat :| w < |before| && Waiting(before[w].pc) {
      first := FirstOfTheWaiting(before, w);
      var last := frames[|frames| - 1].pc;
      if Waiting(last) && last.ticket < frames[first].pc.ticket {
        first := |before|;
      }
    } else {
      first := c;
    }
  }

  /** And in every reachable state in which somebody waits, somebody can be served. */
  lemma SomebodyIsServed(actions: seq<Action>)
    requires var s := Run(actions);
             s.handler.Committing? || exists c :: 0 <= c < |s.frames| && Waiting(s.frames[c].pc)
    ensures var s := Run(actions);
            Enabled(s, HandlerCommit) || exists c :: Enabled(s, Commit(c))
  {
    var s := Run(actions);
    RunKeeps(actions);
    if c: nat :| c < |s.frames| && Waiting(s.frames[c].pc) {
      var first := FirstOfTheWaiting(s.frames, c);
      if s.handler.Committing? && s.handler.ticket < s.frames[first].pc.ticket {
        assert Enabled(s, HandlerCommit);
      } else {
        assert Enabled(s, Commit(first));
      }
    } else {
      assert Enabled(s, HandlerCommit);
    }
  }

  // ---------- changes from outside ----------

  /** An operator's cancel and a watchdog's failure take a task exactly where the table lets them, and nothing else
      anywhere. */
  lemma OutsideMovesExactly(s: State, t: TaskId, u: TaskId)
    requires t in s.tasks && u in s.tasks
    ensures Step(s, CancelTask(t)).tasks[u].status ==
              if u == t && (s.tasks[t].status == Queued || s.tasks[t].status == Dispatched
                            || s.tasks[t].status == AwaitingLoad)
              then Cancelled else s.tasks[u].status
    ensures Step(s, WatchdogFail(t)).tasks[u].status ==
              if u == t && !Terminal(s.tasks[t].status) then Failed else s.tasks[u].status
  {
  }
}
