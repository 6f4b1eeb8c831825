/** What the bus events of a run make of a task, told from the actions of the run. */
module DispatchEvents {
  import opened Common
  import opened TaskStatus
  import opened DispatchModel
  import opened DispatchSafety
  import opened DispatchRelease

  /** The event reaches the dispatcher while no handler is in progress, for the robot working on this task, and names
      no task or this one. */
  predicate Concerns(s: State, robot: RobotId, eventTask: Option<TaskId>, t: TaskId) {
    && s.handler.Idle? && robot in s.slots && s.slots[robot].task == t
    && (eventTask == None || eventTask == Some(t))
  }

  /** The arrival of a task's robot at a waypoint with a hold. */
  predicate IsHoldArrival(s: State, a: Action, t: TaskId) {
    a.HandleEvent? && a.kind == Arrival && a.hold && Concerns(s, a.robot, a.eventTask, t)
  }

  /** An unload confirmation for a task. */
  predicate IsUnloadConfirmation(s: State, a: Action, t: TaskId) {
    a.HandleEvent? && a.kind == UnloadConfirmed && Concerns(s, a.robot, a.eventTask, t)
  }

  /** A load confirmation begun for this task reads its record and finds it awaiting its load. */
  predicate IsAwaitedLoad(s: State, a: Action, t: TaskId) {
    && a == HandlerRead && s.handler.Reading? && s.handler.kind == LoadConfirmed && s.handler.first == t
    && t in s.tasks && s.tasks[t].status == AwaitingLoad
  }

  /** The hold arrivals of a run, for one task. */
  ghost function HoldArrivals(actions: seq<Action>, t: TaskId): nat {
    if actions == [] then 0
    else
      var before, a := actions[..|actions| - 1], actions[|actions| - 1];
      HoldArrivals(before, t) + if IsHoldArrival(Run(before), a, t) then 1 else 0
  }

  ghost predicate SawUnload(actions: seq<Action>, t: TaskId) {
    exists i :: 0 <= i < |actions| && IsUnloadConfirmation(Run(actions[..i]), actions[i], t)
  }

  ghost predicate SawAwaitedLoad(actions: seq<Action>, t: TaskId) {
    exists i :: 0 <= i < |actions| && IsAwaitedLoad(Run(actions[..i]), actions[i], t)
  }

  // ---------- one step ----------

  /** What one action adds to the records of a task. */
  predicate RecordsRightly(s: State, a: Action, later: State, t: TaskId)
    requires t in s.tasks
  {
    && t in later.tasks
    && later.tasks[t].holds == s.tasks[t].holds + (if IsHoldArrival(s, a, t) then 1 else 0)
    && (later.tasks[t].unload <==> s.tasks[t].unload || IsUnloadConfirmation(s, a, t))
    && (later.tasks[t].loadWhileAwaiting <==> s.tasks[t].loadWhileAwaiting || IsAwaitedLoad(s, a, t))
  }

  lemma ContinueRecordsNothing(s: State, c: nat, t: TaskId)
    requires Enabled(s, Resume(c)) && t in s.tasks
    ensures RecordsRightly(s, Resume(c), Continue(s, c), t)
  {
  }

  lemma CommitRecordsNothing(s: State, c: nat, t: TaskId)
    requires Enabled(s, Commit(c)) && t in s.tasks
    ensures RecordsRightly(s, Commit(c), CommitTurn(s, c), t)
  {
  }

  lemma ArrivalRecordsRightly(s: State, a: Action, t: TaskId)
    requires Inv(s) && a.HandleEvent? && a.kind == Arrival && Enabled(s, a) && t in s.tasks
    ensures RecordsRightly(s, a, Effect(s, a), t)
  {
  }

  lemma ConfirmationRecordsRightly(s: State, a: Action, t: TaskId)
    requires Inv(s) && a.HandleEvent? && a.kind != Arrival && Enabled(s, a) && t in s.tasks
    ensures RecordsRightly(s, a, Effect(s, a), t)
  {
  }

  lemma EventRecordsRightly(s: State, a: Action, t: TaskId)
    requires Inv(s) && a.HandleEvent? && Enabled(s, a) && t in s.tasks
    ensures RecordsRightly(s, a, Effect(s, a), t)
  {
    if a.kind == Arrival {
      ArrivalRecordsRightly(s, a, t);
    } else {
      ConfirmationRecordsRightly(s, a, t);
    }
  }

  lemma HandlerRecordsRightly(s: State, a: Action, t: TaskId)
    requires (a.HandlerRead? || a.HandlerResume? || a.HandlerCommit?) && Enabled(s, a) && t in s.tasks
    ensures RecordsRightly(s, a, Effect(s, a), t)
  {
  }

  lemma OthersRecordNothing(s: State, a: Action, t: TaskId)
    requires Enabled(s, a) && t in s.tasks
    requires !a.Commit? && !a.Resume? && !a.HandleEvent? && !a.HandlerRead? && !a.HandlerResume? && !a.HandlerCommit?
    ensures RecordsRightly(s, a, Effect(s, a), t)
  {
  }

  lemma StepRecordsRightly(s: State, a: Action, t: TaskId)
    requires Inv(s) && t in s.tasks
    ensures RecordsRightly(s, a, Step(s, a), t)
  {
    if Enabled(s, a) {
      match a
      case Commit(c) => CommitRecordsNothing(s, c, t);
      case Resume(c) => ContinueRecordsNothing(s, c, t);
      case HandleEvent(_, _, _, _) => EventRecordsRightly(s, a, t);
      case HandlerRead => HandlerRecordsRightly(s, a, t);
      case HandlerResume => HandlerRecordsRightly(s, a, t);
      case HandlerCommit => HandlerRecordsRightly(s, a, t);
      case _ => OthersRecordNothing(s, a, t);
    } else {
      DisabledRecordsNothing(s, a, t);
    }
  }

  lemma DisabledRecordsNothing(s: State, a: Action, t: TaskId)
    requires Inv(s) && !Enabled(s, a) && t in s.tasks
    ensures RecordsRightly(s, a, s, t)
  {
  }

  // ---------- whole runs ----------

  lemma SawEarlier(actions: seq<Action>, a: Action, t: TaskId)
    ensures SawUnload(actions + [a], t) <==> SawUnload(actions, t) || IsUnloadConfirmation(Run(actions), a, t)
    ensures SawAwaitedLoad(actions + [a], t) <==> SawAwaitedLoad(actions, t) || IsAwaitedLoad(Run(actions), a, t)
  {
    SawUnloadEarlier(actions, a, t);
    SawLoadEarlier(actions, a, t);
  }

  lemma PrefixesOfMore(actions: seq<Action>, a: Action, i: nat)
    requires i <= |actions|
    ensures (actions + [a])[..i] == actions[..i]
    ensures (actions + [a])[i] == if i < |actions| then actions[i] else a
  {
  }

  lemma SawUnloadEarlier(actions: seq<Action>, a: Action, t: TaskId)
    ensures SawUnload(actions + [a], t) <==> SawUnload(actions, t) || IsUnloadConfirmation(Run(actions), a, t)
  {
    var all := actions + [a];
    assert all[..|actions|] == actions[..|actions|] == actions;
    if SawUnload(all, t) {
      var i :| 0 <= i < |all| && IsUnloadConfirmation(Run(all[..i]), all[i], t);
      PrefixesOfMore(actions, a, i);
    }
    if SawUnload(actions, t) {
      var i :| 0 <= i < |actions| && IsUnloadConfirmation(Run(actions[..i]), actions[i], t);
      PrefixesOfMore(actions, a, i);
      assert IsUnloadConfirmation(Run(all[..i]), all[i], t);
    }
    if IsUnloadConfirmation(Run(actions), a, t) {
      assert IsUnloadConfirmation(Run(all[..|actions|]), all[|actions|], t);
    }
  }

  lemma SawLoadEarlier(actions: seq<Action>, a: Action, t: TaskId)
    ensures SawAwaitedLoad(actions + [a], t) <==> SawAwaitedLoad(actions, t) || IsAwaitedLoad(Run(actions), a, t)
  {
    var all := actions + [a];
    assert all[..|actions|] == actions[..|actions|] == actions;
    if SawAwaitedLoad(all, t) {
      var i :| 0 <= i < |all| && IsAwaitedLoad(Run(all[..i]), all[i], t);
      PrefixesOfMore(actions, a, i);
    }
    if SawAwaitedLoad(actions, t) {
      var i :| 0 <= i < |actions| && IsAwaitedLoad(Run(actions[..i]), actions[i], t);
      PrefixesOfMore(actions, a, i);
      assert IsAwaitedLoad(Run(all[..i]), all[i], t);
    }
    if IsAwaitedLoad(Run(actions), a, t) {
      assert IsAwaitedLoad(Run(all[..|actions|]), all[|actions|], t);
    }
  }

  lemma NothingForAnUnknownTask(s: State, a: Action, t: TaskId)
    requires Inv(s) && t !in s.tasks
    ensures !IsHoldArrival(s, a, t) && !IsUnloadConfirmation(s, a, t) && !IsAwaitedLoad(s, a, t)
    ensures t in Step(s, a).tasks ==> Step(s, a).tasks[t] == NEW_TASK
  {
    if t in Step(s, a).tasks {
      OnlySubmissionAdds(s, a, t);
    }
  }

  lemma {:induction false} UnknownTaskSawNothing(actions: seq<Action>, t: TaskId)
    requires t !in Run(actions).tasks
    ensures HoldArrivals(actions, t) == 0 && !SawUnload(actions, t) && !SawAwaitedLoad(actions, t)
  {
    if actions != [] {
      var before, a := actions[..|actions| - 1], actions[|actions| - 1];
      assert actions == before + [a];
      RunKeeps(before);
      if t in Run(before).tasks {
        StepRecordsRightly(Run(before), a, t);
      }
      UnknownTaskSawNothing(before, t);
      NothingForAnUnknownTask(Run(before), a, t);
      SawEarlier(before, a, t);
    }
  }

  /** Over every run the holds counted for a task are exactly the arrivals, while no handler was in progress, of the
      robot working on it at a waypoint with a hold, reported without a task or with this one; its unload is recorded
      exactly if such a confirmation came, its load exactly if one was read while the load was awaited. */
  lemma {:induction false} RecordsAreTheEvents(actions: seq<Action>, t: TaskId)
    requires t in Run(actions).tasks
    ensures var task := Run(actions).tasks[t];
            && task.holds == HoldArrivals(actions, t)
            && (task.unload <==> SawUnload(actions, t))
            && (task.loadWhileAwaiting <==> SawAwaitedLoad(actions, t))
  {
    var before, a := actions[..|actions| - 1], actions[|actions| - 1];
    assert actions == before + [a];
    RunKeeps(before);
    SawEarlier(before, a, t);
    if t in Run(before).tasks {
      RecordsAreTheEvents(before, t);
      StepRecordsRightly(Run(before), a, t);
    } else {
      UnknownTaskSawNothing(before, t);
      NothingForAnUnknownTask(Run(before), a, t);
    }
  }

  /** So a completed task really saw two stops at a hold, a load awaited and confirmed, and an unload confirmation. */
  lemma CompletedTasksSawTheirEvents(actions: seq<Action>, t: TaskId)
    requires t in Run(actions).tasks && Run(actions).tasks[t].status == Completed
    ensures HoldArrivals(actions, t) >= 2 && SawAwaitedLoad(actions, t) && SawUnload(actions, t)
  {
    RunKeeps(actions);
    assert TaskOk(Run(actions).tasks[t]);
    RecordsAreTheEvents(actions, t);
  }

  /** An arrival at a waypoint without a hold, and any event for another task or for a robot without one, leaves
      everything as it was. */
  lemma OtherEventsAreIgnored(s: State, kind: EventKind, robot: RobotId, eventTask: Option<TaskId>, hold: bool)
    requires (kind == Arrival && !hold) || robot !in s.slots
             || (eventTask.Some? && eventTask.value != s.slots[robot].task)
    ensures Step(s, HandleEvent(kind, robot, eventTask, hold)) == s
  {
  }

  /** A load confirmation for a task. */
  predicate IsLoadConfirmation(s: State, a: Action, t: TaskId) {
    a.HandleEvent? && a.kind == LoadConfirmed && Concerns(s, a.robot, a.eventTask, t)
  }

  /** A robot's entries in the dispatcher's dictionaries: blank when they are made, and then changed by the events
      alone, one hold more for a hold arrival, a flag for each kind of confirmation. */
  predicate EntriesFollow(s: State, a: Action, later: State, r: RobotId)
    requires r in later.slots
  {
    var slot := later.slots[r];
    if r !in s.slots then slot.holds == 0 && !slot.load && !slot.unload
    else
      var was := s.slots[r];
      var mine := a.HandleEvent? && a.robot == r;
      && slot.task == was.task
      && slot.holds == was.holds + (if mine && IsHoldArrival(s, a, was.task) then 1 else 0)
      && (slot.load <==> was.load || (mine && IsLoadConfirmation(s, a, was.task)))
      && (slot.unload <==> was.unload || (mine && IsUnloadConfirmation(s, a, was.task)))
  }

  lemma ContinueKeepsEntries(s: State, c: nat, r: RobotId)
    requires Inv(s) && Enabled(s, Resume(c)) && r in Continue(s, c).slots
    ensures EntriesFollow(s, Resume(c), Continue(s, c), r)
  {
    if r in s.slots {
      ContinueKeepsOldEntries(s, c, r);
    } else {
      ContinueMakesBlankEntries(s, c, r);
    }
  }

  lemma ContinueKeepsOldEntries(s: State, c: nat, r: RobotId)
    requires Inv(s) && Enabled(s, Resume(c)) && r in s.slots && r in Continue(s, c).slots
    ensures Continue(s, c).slots[r] == s.slots[r]
  {
  }

  lemma ContinueMakesBlankEntries(s: State, c: nat, r: RobotId)
    requires Enabled(s, Resume(c)) && r !in s.slots && r in Continue(s, c).slots
    ensures var slot := Continue(s, c).slots[r]; slot.holds == 0 && !slot.load && !slot.unload
  {
  }

  lemma EventKeepsEntries(s: State, a: Action, r: RobotId)
    requires Inv(s) && a.HandleEvent? && r in Step(s, a).slots
    ensures EntriesFollow(s, a, Step(s, a), r)
  {
  }

  lemma HandlerKeepsEntries(s: State, a: Action)
    requires Enabled(s, a) && (a.HandlerRead? || a.HandlerResume? || a.HandlerCommit?)
    ensures Effect(s, a).slots == s.slots
  {
  }

  lemma CommitKeepsEntries(s: State, c: nat)
    requires Enabled(s, Commit(c))
    ensures CommitTurn(s, c).slots == s.slots
  {
  }

  lemma OthersKeepEntries(s: State, a: Action)
    requires Enabled(s, a) && !a.Resume? && !a.HandleEvent?
    ensures Effect(s, a).slots == s.slots
  {
    if a.HandlerRead? || a.HandlerResume? || a.HandlerCommit? {
      HandlerKeepsEntries(s, a);
    } else if a.Commit? {
      CommitKeepsEntries(s, a.c);
    }
  }

  lemma EntriesFollowTheEvents(s: State, a: Action, r: RobotId)
    requires Inv(s) && r in Step(s, a).slots
    ensures EntriesFollow(s, a, Step(s, a), r)
  {
    if a.HandleEvent? {
      EventKeepsEntries(s, a, r);
    } else if Enabled(s, a) {
      if a.Resume? {
        ContinueKeepsEntries(s, a.c, r);
      } else {
        OthersKeepEntries(s, a);
      }
    }
  }

  // ---------- what a handler does ----------

  /** The event and the three turns of its handler. */
  ghost function Handled(s: State, kind: EventKind, robot: RobotId, eventTask: Option<TaskId>, hold: bool): State {
    Step(Step(Step(Step(s, HandleEvent(kind, robot, eventTask, hold)), HandlerRead), HandlerResume), HandlerCommit)
  }

  /** Where an event takes a task that has been to this many holds before. */
  function Target(kind: EventKind, was: Status, holds: nat): Status {
    match kind
    case Arrival =>
      if was == Dispatched && holds == 0 then AwaitingLoad
      else if was == InTransit && holds >= 1 then AwaitingUnload
      else was
    case LoadConfirmed => if was == AwaitingLoad then InTransit else was
    case UnloadConfirmed => if was == AwaitingUnload then Completed else was
  }

  /** Nobody waits for the queue lock. */
  predicate NobodyWaits(s: State) {
    forall c :: 0 <= c < |s.frames| ==> !Waiting(s.frames[c].pc)
  }

  /** Nothing about the task has changed but perhaps its status. */
  ghost predicate BegunFor(s: State, begun: State, kind: EventKind, robot: RobotId, t: TaskId) {
    && begun.handler == Reading(kind, robot, t) && begun.frames == s.frames && begun.nextTicket == s.nextTicket
    && robot in s.slots && robot in begun.slots && begun.slots[robot].task == t
    && begun.slots[robot].holds == s.slots[robot].holds + (if kind == Arrival then 1 else 0)
    && t in s.tasks && SameStatuses(s, begun)
  }

  lemma EventBegins(s: State, kind: EventKind, robot: RobotId, eventTask: Option<TaskId>, hold: bool)
    requires Inv(s) && s.handler.Idle? && robot in s.slots && (kind == Arrival ==> hold)
    requires eventTask == None || eventTask == Some(s.slots[robot].task)
    ensures BegunFor(s, Step(s, HandleEvent(kind, robot, eventTask, hold)), kind, robot, s.slots[robot].task)
  {
  }

  lemma HandlerReads(s: State, begun: State, kind: EventKind, robot: RobotId, t: TaskId)
    requires BegunFor(s, begun, kind, robot, t)
    ensures ReadFor(s, Step(begun, HandlerRead), kind, robot, t)
  {
  }

  ghost predicate ReadFor(s: State, read: State, kind: EventKind, robot: RobotId, t: TaskId) {
    && robot in s.slots && t in s.tasks && robot in read.slots && read.slots[robot].task == t
    && read.slots[robot].holds == s.slots[robot].holds + (if kind == Arrival then 1 else 0)
    && read.handler == Read(kind, robot, t, s.tasks[t].status) && read.frames == s.frames
    && SameStatuses(s, read)
  }

  ghost predicate SameStatuses(s: State, later: State) {
    && (forall u :: u in s.tasks <==> u in later.tasks)
    && (forall u :: u in s.tasks ==> later.tasks[u].status == s.tasks[u].status)
  }

  /** Only this task's status may differ, and this is what it is. */
  ghost predicate OnlyStatus(s: State, later: State, t: TaskId, status: Status) {
    && (forall u :: u in s.tasks <==> u in later.tasks)
    && (forall u :: u in s.tasks && u != t ==> later.tasks[u].status == s.tasks[u].status)
    && t in later.tasks && later.tasks[t].status == status
  }

  /** What a handler asks for, from the status it read and the holds counted by then: a second hold is reported also
      while the load is still awaited, though the table will not have it. */
  lemma HandlerAsksExactly(s: State)
    requires s.handler.Read?
    ensures var h, later := s.handler, Step(s, HandlerResume);
            && (later.handler.Committing? <==>
                  h.robot in s.slots
                  && ((h.kind == Arrival && h.seen == Dispatched && s.slots[h.robot].holds == 1)
                      || (h.kind == Arrival && (h.seen == InTransit || h.seen == AwaitingLoad)
                          && s.slots[h.robot].holds >= 2)
                      || (h.kind == LoadConfirmed && h.seen == AwaitingLoad)
                      || (h.kind == UnloadConfirmed && h.seen == AwaitingUnload)))
            && (!later.handler.Committing? ==> later == s.(handler := Idle))
            && (later.handler.Committing? ==>
                  && later.handler.task == s.slots[h.robot].task && later.handler.ticket == s.nextTicket
                  && later.handler.target ==
                       (if h.kind == LoadConfirmed then InTransit else if h.kind == UnloadConfirmed then Completed
                        else if h.seen == Dispatched then AwaitingLoad else AwaitingUnload)
                  && later == s.(handler := later.handler, nextTicket := s.nextTicket + 1))
  {
  }

  lemma RequestIsServed(s: State, t: TaskId, target: Status)
    requires s.handler.Committing? && s.handler.task == t && s.handler.target == target
    requires t in s.tasks && NobodyWaits(s)
    ensures var later := Step(s, HandlerCommit);
            && later.handler.Idle?
            && OnlyStatus(s, later, t, if Allowed(s.tasks[t].status, target) then target else s.tasks[t].status)
  {
  }

  lemma ReadIsHandled(s: State, read: State, kind: EventKind, robot: RobotId, t: TaskId)
    requires ReadFor(s, read, kind, robot, t) && NobodyWaits(s)
    ensures var end := Step(Step(read, HandlerResume), HandlerCommit);
            && end.handler.Idle?
            && OnlyStatus(s, end, t, Target(kind, s.tasks[t].status, s.slots[robot].holds))
  {
    HandlerAsksExactly(read);
    var resumed := Step(read, HandlerResume);
    if resumed.handler.Committing? {
      RequestIsServed(resumed, t, resumed.handler.target);
    }
  }

  /** An event for the robot's task, handled without interference: the first hold of a dispatched task means it awaits
      its load, a later one of a task under way that it awaits its unload; a confirmation takes it on from there.
      Everything else leaves every status as it was. */
  lemma EventOutcomeExactly(s: State, kind: EventKind, robot: RobotId, eventTask: Option<TaskId>, hold: bool)
    requires Inv(s) && s.handler.Idle? && NobodyWaits(s) && robot in s.slots && (kind == Arrival ==> hold)
    requires eventTask == None || eventTask == Some(s.slots[robot].task)
    ensures var t, end := s.slots[robot].task, Handled(s, kind, robot, eventTask, hold);
            && end.handler.Idle?
            && (forall u :: u in s.tasks <==> u in end.tasks)
            && (forall u :: u in s.tasks && u != t ==> end.tasks[u].status == s.tasks[u].status)
            && end.tasks[t].status == Target(kind, s.tasks[t].status, s.slots[robot].holds)
  {
    var t := s.slots[robot].task;
    var begun := Step(s, HandleEvent(kind, robot, eventTask, hold));
    EventBegins(s, kind, robot, eventTask, hold);
    HandlerReads(s, begun, kind, robot, t);
    ReadIsHandled(s, Step(begun, HandlerRead), kind, robot, t);
  }
}
