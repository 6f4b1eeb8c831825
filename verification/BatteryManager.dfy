/** The battery manager behind the monitors: telemetry is polled per robot, the emitted events wait in the bus queue,
    and the manager handles them one at a time. */
module BatteryManagers {
  import opened Common
  import opened TaskStatus
  import opened TaskQueues
  import opened StateMonitors

  const LEGACY_ROBOT := RobotId("default")

  const DOCK_PRIORITY := 9999

  datatype Event = Event(robot: RobotId, kind: BatteryEvent)

  /** The handler in progress: idle, or waiting for the dock task's submission. */
  datatype Handler = Idle | Submitting(robot: RobotId)

  datatype Manager = Manager(
    charging: map<RobotId, bool>, dockActive: map<RobotId, bool>, dockTask: map<RobotId, TaskId>,
    pausedFor: map<RobotId, bool>, dispatcherPaused: bool, handler: Handler)

  const FRESH_MANAGER := Manager(map[], map[], map[], map[], false, Idle)

  /** dict.get with a default of false. */
  predicate Flag(m: map<RobotId, bool>, r: RobotId) {
    r in m && m[r]
  }

  /** Events of other robots are ignored; the default robot counts only while no robot is registered. */
  predicate Manages(registered: set<RobotId>, r: RobotId) {
    (r == LEGACY_ROBOT && registered == {}) || r in registered
  }

  predicate ShouldPause(registered: set<RobotId>, r: RobotId) {
    r == LEGACY_ROBOT && registered == {}
  }

  /** handle_battery_critical up to the submission. */
  function EnterCharging(registered: set<RobotId>, m: Manager, r: RobotId): Manager {
    if !Manages(registered, r) || Flag(m.charging, r) then m
    else m.(charging := m.charging[r := true], dockActive := m.dockActive[r := false],
            pausedFor := m.pausedFor[r := ShouldPause(registered, r)],
            dispatcherPaused := m.dispatcherPaused || ShouldPause(registered, r),
            handler := Submitting(r))
  }

  /** The rest of it: a refused submission ends the handler where it is. */
  function FinishCritical(registered: set<RobotId>, m: Manager, result: Option<TaskId>): Manager
    requires m.handler.Submitting?
  {
    var r := m.handler.robot;
    if result.None? then m.(handler := Idle)
    else m.(dockTask := m.dockTask[r := result.value], dockActive := m.dockActive[r := true],
            pausedFor := if ShouldPause(registered, r) then m.pausedFor[r := false] else m.pausedFor,
            dispatcherPaused := m.dispatcherPaused && !ShouldPause(registered, r),
            handler := Idle)
  }

  function LeaveCharging(registered: set<RobotId>, m: Manager, r: RobotId): Manager {
    if !Manages(registered, r) || !Flag(m.charging, r) then m
    else m.(dispatcherPaused := m.dispatcherPaused && !(Flag(m.pausedFor, r) || ShouldPause(registered, r)),
            charging := m.charging[r := false], dockActive := m.dockActive[r := false],
            dockTask := m.dockTask - {r}, pausedFor := m.pausedFor[r := false])
  }

  function Handle(registered: set<RobotId>, m: Manager, e: Event): Manager {
    match e.kind
    case Warn => m
    case Critical => EnterCharging(registered, m, e.robot)
    case Recharged => LeaveCharging(registered, m, e.robot)
  }

  /** Monitors, bus queue and manager; the histories record what was polled, emitted, handled and attempted, and
      managerPause says whether the dispatcher's present pause was entered by the manager. */
  datatype System = System(
    polls: map<RobotId, seq<int>>, monitors: map<RobotId, Flags>,
    emitted: seq<Event>, queue: seq<Event>, handled: seq<Event>, attempts: seq<RobotId>,
    manager: Manager, managerPause: bool)

  const START := System(map[], map[], [], [], [], [], FRESH_MANAGER, false)

  datatype Action =
    | PollRobot(robot: RobotId, pct: int)
    | HandleNext
    | SubmissionReturned(result: Option<TaskId>)
    | OperatorPause
    | OperatorResume

  function PollsOf(s: System, r: RobotId): seq<int> {
    if r in s.polls then s.polls[r] else []
  }

  function MonitorOf(s: System, r: RobotId): Flags {
    if r in s.monitors then s.monitors[r] else Flags(false, false)
  }

  function Tagged(r: RobotId, events: seq<BatteryEvent>): seq<Event> {
    if events == [] then [] else Tagged(r, events[..|events| - 1]) + [Event(r, events[|events| - 1])]
  }

  function PollStep(t: Thresholds, s: System, r: RobotId, pct: int): System {
    var (flags, events) := Poll(t, MonitorOf(s, r), pct);
    s.(polls := s.polls[r := PollsOf(s, r) + [pct]], monitors := s.monitors[r := flags],
       emitted := s.emitted + Tagged(r, events), queue := s.queue + Tagged(r, events))
  }

  function HandleStep(registered: set<RobotId>, s: System): System {
    if s.queue == [] || !s.manager.handler.Idle? then s
    else
      var e := s.queue[0];
      var m := Handle(registered, s.manager, e);
      s.(queue := s.queue[1..], handled := s.handled + [e], manager := m,
         attempts := if m.handler.Submitting? then s.attempts + [e.robot] else s.attempts,
         managerPause := if m.dispatcherPaused && !s.manager.dispatcherPaused then true else s.managerPause)
  }

  function BatteryStep(t: Thresholds, registered: set<RobotId>, s: System, a: Action): System {
    match a
    case PollRobot(r, pct) => PollStep(t, s, r, pct)
    case HandleNext => HandleStep(registered, s)
    case SubmissionReturned(result) =>
      if s.manager.handler.Submitting? then s.(manager := FinishCritical(registered, s.manager, result)) else s
    case OperatorPause =>
      s.(manager := s.manager.(dispatcherPaused := true), managerPause := s.manager.dispatcherPaused && s.managerPause)
    case OperatorResume => s.(manager := s.manager.(dispatcherPaused := false))
  }

  function BatteryRun(t: Thresholds, registered: set<RobotId>, actions: seq<Action>): System {
    if actions == [] then START
    else BatteryStep(t, registered, BatteryRun(t, registered, actions[..|actions| - 1]), actions[|actions| - 1])
  }

  /** The word of one robot's events. */
  function WordOf(r: RobotId, events: seq<Event>): seq<BatteryEvent> {
    if events == [] then []
    else
      var word := WordOf(r, events[..|events| - 1]);
      if events[|events| - 1].robot == r then word + [events[|events| - 1].kind] else word
  }

  function Criticals(w: seq<BatteryEvent>): nat {
    if w == [] then 0 else Criticals(w[..|w| - 1]) + (if w[|w| - 1] == Critical then 1 else 0)
  }

  function AttemptsFor(r: RobotId, attempts: seq<RobotId>): nat {
    if attempts == [] then 0
    else AttemptsFor(r, attempts[..|attempts| - 1]) + (if attempts[|attempts| - 1] == r then 1 else 0)
  }

  lemma {:induction false} WordOfAppend(r: RobotId, a: seq<Event>, b: seq<Event>)
    ensures WordOf(r, a + b) == WordOf(r, a) + WordOf(r, b)
  {
    if b == [] {
      assert a + b == a;
    } else {
      WordOfAppend(r, a, b[..|b| - 1]);
      assert (a + b)[..|a + b| - 1] == a + b[..|b| - 1];
    }
  }

  lemma {:induction false} WordOfTagged(r: RobotId, q: RobotId, events: seq<BatteryEvent>)
    ensures WordOf(q, Tagged(r, events)) == if q == r then events else []
  {
    if events != [] {
      WordOfTagged(r, q, events[..|events| - 1]);
      var tagged := Tagged(r, events);
      assert tagged[..|tagged| - 1] == Tagged(r, events[..|events| - 1]);
    }
  }

  lemma {:induction false} CyclePrefixesArePrefixClosed(v: seq<BatteryEvent>, w: seq<BatteryEvent>)
    requires IsCyclePrefix(v + w)
    ensures IsCyclePrefix(v)
    decreases |w|
  {
    if w == [] {
      assert v + w == v;
    } else {
      assert v + w == (v + w[..|w| - 1]) + [w[|w| - 1]];
      ExtendsCycle(v + w[..|w| - 1], w[|w| - 1]);
      CyclePrefixesArePrefixClosed(v, w[..|w| - 1]);
    }
  }

  /** One robot's monitor and events. */
  ghost predicate StreamOk(t: Thresholds, s: System, r: RobotId) {
    && s.emitted == s.handled + s.queue
    && WordOf(r, s.emitted) == Emitted(t, PollsOf(s, r))
    && MonitorOf(s, r) == FlagsAfter(t, PollsOf(s, r))
  }

  /** One robot's entries in the manager, from the word of its handled events and the attempts made for it. */
  predicate ManagerOk(registered: set<RobotId>, m: Manager, r: RobotId, w: seq<BatteryEvent>, attempts: nat) {
    && (Flag(m.charging, r) <==> Manages(registered, r) && FlagsOf(w).criticalEmitted)
    && attempts == (if Manages(registered, r) then Criticals(w) else 0)
    && (Flag(m.dockActive, r) ==> Flag(m.charging, r))
    && (Flag(m.pausedFor, r) ==> ShouldPause(registered, r) && Flag(m.charging, r))
    && (m.handler == Submitting(r) ==> Flag(m.charging, r))
  }

  predicate EntriesOk(registered: set<RobotId>, s: System, r: RobotId) {
    ManagerOk(registered, s.manager, r, WordOf(r, s.handled), AttemptsFor(r, s.attempts))
  }

  ghost predicate PauseOk(registered: set<RobotId>, s: System) {
    s.manager.dispatcherPaused && s.managerPause ==> registered == {} && Flag(s.manager.charging, LEGACY_ROBOT)
  }

  lemma PollKeeps(t: Thresholds, s: System, r: RobotId, q: RobotId, pct: int)
    requires StreamOk(t, s, q) && StreamOk(t, s, r)
    ensures StreamOk(t, PollStep(t, s, r, pct), q)
  {
    var events := Poll(t, MonitorOf(s, r), pct).1;
    var later := PollStep(t, s, r, pct);
    assert later.emitted == later.handled + later.queue by {
      Associates(s.handled, s.queue, Tagged(r, events));
    }
    WordAfterPoll(r, q, s.emitted, events);
    if q == r {
      OwnPollKeeps(t, s, r, pct);
    }
  }

  /** What a poll does to its own robot's monitor and word. */
  lemma OwnPollKeeps(t: Thresholds, s: System, r: RobotId, pct: int)
    requires StreamOk(t, s, r)
    ensures var later := PollStep(t, s, r, pct);
            && MonitorOf(later, r) == FlagsAfter(t, PollsOf(later, r))
            && WordOf(r, s.emitted) + Poll(t, MonitorOf(s, r), pct).1 == Emitted(t, PollsOf(later, r))
  {
    OnePollMore(t, PollsOf(s, r), pct);
  }

  lemma WordAfterPoll(r: RobotId, q: RobotId, emitted: seq<Event>, events: seq<BatteryEvent>)
    ensures WordOf(q, emitted + Tagged(r, events)) == if q == r then WordOf(q, emitted) + events else WordOf(q, emitted)
  {
    WordOfAppend(q, emitted, Tagged(r, events));
    WordOfTagged(r, q, events);
    assert WordOf(q, emitted) + [] == WordOf(q, emitted);
  }

  /** The next event of a robot is one its cycle allows. */
  lemma NextEventMayFollow(t: Thresholds, s: System, r: RobotId)
    requires ValidThresholds(t) && StreamOk(t, s, r) && s.queue != [] && s.queue[0].robot == r
    ensures MayFollow(WordOf(r, s.handled), s.queue[0].kind)
  {
    var e, w := s.queue[0], WordOf(r, s.handled);
    EmittedIsCyclePrefix(t, PollsOf(s, r));
    assert s.handled + s.queue == (s.handled + [e]) + s.queue[1..];
    WordOfAppend(r, s.handled + [e], s.queue[1..]);
    assert (s.handled + [e])[..|s.handled|] == s.handled;
    CyclePrefixesArePrefixClosed(w + [e.kind], WordOf(r, s.queue[1..]));
    ExtendsCycle(w, e.kind);
  }

  /** What handling one event does to the histories of a robot. */
  lemma OneEventMore(r: RobotId, handled: seq<Event>, e: Event, attempts: seq<RobotId>)
    ensures var w := WordOf(r, handled);
            && WordOf(r, handled + [e]) == (if e.robot == r then w + [e.kind] else w)
            && Criticals(w + [e.kind]) == Criticals(w) + (if e.kind == Critical then 1 else 0)
            && AttemptsFor(r, attempts + [e.robot]) == AttemptsFor(r, attempts) + (if e.robot == r then 1 else 0)
  {
    assert (handled + [e])[..|handled|] == handled;
    assert (attempts + [e.robot])[..|attempts|] == attempts;
    assert (WordOf(r, handled) + [e.kind])[..|WordOf(r, handled)|] == WordOf(r, handled);
  }

  lemma OwnEventKeeps(registered: set<RobotId>, m: Manager, r: RobotId, kind: BatteryEvent, w: seq<BatteryEvent>,
                      attempts: nat)
    requires ManagerOk(registered, m, r, w, attempts) && m.handler.Idle? && MayFollow(w, kind)
    ensures var m' := Handle(registered, m, Event(r, kind));
            ManagerOk(registered, m', r, w + [kind], attempts + if m'.handler.Submitting? then 1 else 0)
  {
    assert (w + [kind])[..|w|] == w;
  }

  lemma OtherEventKeeps(registered: set<RobotId>, m: Manager, r: RobotId, e: Event, w: seq<BatteryEvent>, attempts: nat)
    requires ManagerOk(registered, m, r, w, attempts) && m.handler.Idle? && e.robot != r
    ensures ManagerOk(registered, Handle(registered, m, e), r, w, attempts)
  {
  }

  lemma HandleKeepsEntries(t: Thresholds, registered: set<RobotId>, s: System, r: RobotId)
    requires ValidThresholds(t) && StreamOk(t, s, r) && EntriesOk(registered, s, r)
    ensures EntriesOk(registered, HandleStep(registered, s), r)
  {
    if s.queue != [] && s.manager.handler.Idle? {
      var e, w, attempts := s.queue[0], WordOf(r, s.handled), AttemptsFor(r, s.attempts);
      OneEventMore(r, s.handled, e, s.attempts);
      if e.robot == r {
        NextEventMayFollow(t, s, r);
        OwnEventKeeps(registered, s.manager, r, e.kind, w, attempts);
      } else {
        OtherEventKeeps(registered, s.manager, r, e, w, attempts);
      }
    }
  }

  lemma HandleKeepsStream(t: Thresholds, registered: set<RobotId>, s: System, r: RobotId)
    requires StreamOk(t, s, r)
    ensures StreamOk(t, HandleStep(registered, s), r)
  {
    if s.queue != [] && s.manager.handler.Idle? {
      assert s.handled + s.queue == (s.handled + [s.queue[0]]) + s.queue[1..];
    }
  }

  lemma HandleKeepsPause(registered: set<RobotId>, s: System)
    requires PauseOk(registered, s)
    ensures PauseOk(registered, HandleStep(registered, s))
  {
  }

  lemma StepKeeps(t: Thresholds, registered: set<RobotId>, s: System, a: Action, r: RobotId)
    requires ValidThresholds(t) && StreamOk(t, s, r) && EntriesOk(registered, s, r) && PauseOk(registered, s)
    requires a.PollRobot? ==> StreamOk(t, s, a.robot)
    ensures var s' := BatteryStep(t, registered, s, a);
            StreamOk(t, s', r) && EntriesOk(registered, s', r) && PauseOk(registered, s')
  {
    match a
    case PollRobot(q, pct) => PollKeeps(t, s, q, r, pct);
    case HandleNext =>
      HandleKeepsEntries(t, registered, s, r);
      HandleKeepsStream(t, registered, s, r);
      HandleKeepsPause(registered, s);
    case _ => OtherStepKeeps(t, registered, s, a, r);
  }

  lemma OtherStepKeeps(t: Thresholds, registered: set<RobotId>, s: System, a: Action, r: RobotId)
    requires StreamOk(t, s, r) && EntriesOk(registered, s, r) && PauseOk(registered, s)
    requires !a.PollRobot? && !a.HandleNext?
    ensures var s' := BatteryStep(t, registered, s, a);
            StreamOk(t, s', r) && EntriesOk(registered, s', r) && PauseOk(registered, s')
  {
    if a.SubmissionReturned? && s.manager.handler.Submitting? {
      SubmissionKeeps(registered, s.manager, a.result, r, WordOf(r, s.handled), AttemptsFor(r, s.attempts));
    }
  }

  lemma SubmissionKeeps(registered: set<RobotId>, m: Manager, result: Option<TaskId>, r: RobotId,
                        w: seq<BatteryEvent>, attempts: nat)
    requires ManagerOk(registered, m, r, w, attempts) && m.handler.Submitting?
    ensures ManagerOk(registered, FinishCritical(registered, m, result), r, w, attempts)
    ensures FinishCritical(registered, m, result).charging == m.charging
    ensures FinishCritical(registered, m, result).dispatcherPaused ==> m.dispatcherPaused
  {
  }

  lemma {:induction false} RunKeeps(t: Thresholds, registered: set<RobotId>, actions: seq<Action>, r: RobotId)
    requires ValidThresholds(t)
    ensures var s := BatteryRun(t, registered, actions);
            StreamOk(t, s, r) && EntriesOk(registered, s, r) && PauseOk(registered, s)
  {
    if actions != [] {
      var before, a := actions[..|actions| - 1], actions[|actions| - 1];
      RunKeeps(t, registered, before, r);
      if a.PollRobot? {
        RunKeeps(t, registered, before, a.robot);
      }
      StepKeeps(t, registered, BatteryRun(t, registered, before), a, r);
    }
  }

  /** The systems of all runs. */
  ghost predicate Reachable(t: Thresholds, registered: set<RobotId>, s: System) {
    exists actions :: BatteryRun(t, registered, actions) == s
  }

  lemma ReachableKeeps(t: Thresholds, registered: set<RobotId>, s: System, r: RobotId)
    requires ValidThresholds(t) && Reachable(t, registered, s)
    ensures StreamOk(t, s, r) && EntriesOk(registered, s, r) && PauseOk(registered, s)
  {
    var actions :| BatteryRun(t, registered, actions) == s;
    RunKeeps(t, registered, actions, r);
  }

  /** The last event of a word is a critical. */
  predicate EndsCritical(w: seq<BatteryEvent>) {
    w != [] && w[|w| - 1] == Critical
  }

  /** For every run, any robots and any fate of the submissions: a robot's handled events are an initial part of the
      word its monitor emitted, which is a prefix of (warn critical? recharged)*; the robot is in charging mode
      exactly between a critical and the next recharged; and each critical led to exactly one submission attempt,
      so a discharge cycle has at most one. */
  lemma ChargingFollowsTheCycle(t: Thresholds, registered: set<RobotId>, s: System, r: RobotId)
    requires ValidThresholds(t) && Reachable(t, registered, s)
    ensures WordOf(r, s.handled) + WordOf(r, s.queue) == Emitted(t, PollsOf(s, r))
            && IsCyclePrefix(WordOf(r, s.handled))
    ensures Flag(s.manager.charging, r) <==> Manages(registered, r) && EndsCritical(WordOf(r, s.handled))
    ensures AttemptsFor(r, s.attempts) == (if Manages(registered, r) then Criticals(WordOf(r, s.handled)) else 0)
  {
    ReachableKeeps(t, registered, s, r);
    WordOfAppend(r, s.handled, s.queue);
    EmittedIsCyclePrefix(t, PollsOf(s, r));
    CyclePrefixesArePrefixClosed(WordOf(r, s.handled), WordOf(r, s.queue));
  }

  /** A pause entered by the manager exists only while no robot is registered, and never outlives a handled recharge,
      whatever became of the submission and whatever the operator did. */
  lemma ManagerPauseEndsWithRecharge(t: Thresholds, registered: set<RobotId>, s: System)
    requires ValidThresholds(t) && Reachable(t, registered, s)
    ensures s.manager.dispatcherPaused && s.managerPause ==>
              registered == {} && EndsCritical(WordOf(LEGACY_ROBOT, s.handled))
  {
    ReachableKeeps(t, registered, s, LEGACY_ROBOT);
  }

  /** The dock task's priority is one the database refuses, whatever is stored. */
  lemma DockSubmissionIsRefused(q: Queue, id: TaskId, dock: string, notes: Option<string>, now: Time)
    ensures Refusal(q, Submit(id, "CURRENT", dock, DOCK_PRIORITY, notes, now)).Some?
    ensures Strip(dock) != "" ==>
            Refusal(q, Submit(id, "CURRENT", dock, DOCK_PRIORITY, notes, now)) == Some(RejectedPriority)
  {
    assert Strip("CURRENT") == "CURRENT";
  }

  /** What the queue answers to the manager's submission: the id of the stored task, or nothing. */
  function Answer(q: Queue, id: TaskId, dock: string, notes: Option<string>, now: Time): Option<TaskId> {
    if Refusal(q, Submit(id, "CURRENT", dock, DOCK_PRIORITY, notes, now)).Some? then None else Some(id)
  }

  /** The result is one that some queue gives to some such submission. */
  ghost predicate IsQueueAnswer(result: Option<TaskId>) {
    exists q, id, dock, notes, now :: result == Answer(q, id, dock, notes, now)
  }

  lemma QueueAnswersNothing(result: Option<TaskId>)
    requires IsQueueAnswer(result)
    ensures result == None
  {
    var q, id, dock, notes, now :| result == Answer(q, id, dock, notes, now);
    DockSubmissionIsRefused(q, id, dock, notes, now);
  }

  /** The operator does not intervene, and submissions are answered by the queue. */
  ghost predicate IsUndisturbed(a: Action) {
    !a.OperatorPause? && !a.OperatorResume? && (a.SubmissionReturned? ==> IsQueueAnswer(a.result))
  }

  predicate PausedWhileCharging(registered: set<RobotId>, m: Manager) {
    m.dispatcherPaused <==> registered == {} && Flag(m.charging, LEGACY_ROBOT)
  }

  lemma UndisturbedStepKeeps(t: Thresholds, registered: set<RobotId>, s: System, a: Action)
    requires IsUndisturbed(a) && PausedWhileCharging(registered, s.manager)
    ensures PausedWhileCharging(registered, BatteryStep(t, registered, s, a).manager)
  {
    if a.SubmissionReturned? {
      QueueAnswersNothing(a.result);
    }
  }

  lemma {:induction false} UndisturbedRunKeeps(t: Thresholds, registered: set<RobotId>, actions: seq<Action>)
    requires forall i :: 0 <= i < |actions| ==> IsUndisturbed(actions[i])
    ensures PausedWhileCharging(registered, BatteryRun(t, registered, actions).manager)
  {
    if actions != [] {
      var before := actions[..|actions| - 1];
      UndisturbedRunKeeps(t, registered, before);
      UndisturbedStepKeeps(t, registered, BatteryRun(t, registered, before), actions[|actions| - 1]);
    }
  }

  /** So, left to itself, the manager keeps an unregistered robot's dispatcher paused for exactly the time between a
      critical and the next recharged: the dock task the pause was meant to be short for never arrives. */
  lemma RefusedDockKeepsDispatcherPaused(t: Thresholds, registered: set<RobotId>, actions: seq<Action>)
    requires ValidThresholds(t)
    requires forall i :: 0 <= i < |actions| ==> IsUndisturbed(actions[i])
    ensures var s := BatteryRun(t, registered, actions);
            s.manager.dispatcherPaused <==> registered == {} && EndsCritical(WordOf(LEGACY_ROBOT, s.handled))
  {
    UndisturbedRunKeeps(t, registered, actions);
    ChargingFollowsTheCycle(t, registered, BatteryRun(t, registered, actions), LEGACY_ROBOT);
  }

  // ---------- the dock task ----------

  /** The dock task is recorded exactly while it is active. */
  predicate DockOk(m: Manager, r: RobotId) {
    r in m.dockTask <==> Flag(m.dockActive, r)
  }

  lemma {:induction false} DockTaskIsKnownExactly(t: Thresholds, registered: set<RobotId>, actions: seq<Action>,
                                                  r: RobotId)
    requires ValidThresholds(t)
    ensures DockOk(BatteryRun(t, registered, actions).manager, r)
  {
    if actions != [] {
      var before := actions[..|actions| - 1];
      DockTaskIsKnownExactly(t, registered, before, r);
      RunKeeps(t, registered, before, r);
      StepKeepsDock(t, registered, BatteryRun(t, registered, before), actions[|actions| - 1], r);
    }
  }

  lemma StepKeepsDock(t: Thresholds, registered: set<RobotId>, s: System, a: Action, r: RobotId)
    requires DockOk(s.manager, r) && EntriesOk(registered, s, r)
    ensures DockOk(BatteryStep(t, registered, s, a).manager, r)
  {
    if a.HandleNext? && s.queue != [] && s.manager.handler.Idle? {
      HandleKeepsDock(registered, s.manager, s.queue[0], r);
    }
  }

  lemma HandleKeepsDock(registered: set<RobotId>, m: Manager, e: Event, r: RobotId)
    requires DockOk(m, r) && (Flag(m.dockActive, r) ==> Flag(m.charging, r))
    ensures DockOk(Handle(registered, m, e), r)
  {
  }

  /** A stored dock task is recorded for its robot and ends a pause that was entered for it; a refused one ends the
      handler and changes nothing else. */
  lemma SubmissionDecides(registered: set<RobotId>, m: Manager, r: RobotId, result: Option<TaskId>, q: RobotId)
    requires m.handler == Submitting(r)
    ensures var later := FinishCritical(registered, m, result);
            && (result == None ==> later == m.(handler := Idle))
            && (result.Some? ==>
                  && later.handler == Idle && later.charging == m.charging
                  && r in later.dockTask && later.dockTask[r] == result.value && Flag(later.dockActive, r)
                  && (q != r ==> (q in later.dockTask <==> q in m.dockTask)
                                 && Flag(later.dockActive, q) == Flag(m.dockActive, q))
                  && (r == LEGACY_ROBOT && registered == {} ==> !later.dispatcherPaused && !Flag(later.pausedFor, r))
                  && (r != LEGACY_ROBOT || registered != {} ==>
                        later.dispatcherPaused == m.dispatcherPaused && later.pausedFor == m.pausedFor))
  {
  }

  /** Events of robots that are not managed, a critical for a robot that is charging and a recharge for one that is not
      change nothing; the default robot is managed only while no robot is registered, or if it is registered itself. */
  lemma OtherEventsAreIgnored(registered: set<RobotId>, m: Manager, r: RobotId, kind: BatteryEvent)
    requires || (r !in registered && (r != LEGACY_ROBOT || registered != {}))
             || (kind == Critical && Flag(m.charging, r)) || (kind == Recharged && !Flag(m.charging, r)) || kind == Warn
    ensures Handle(registered, m, Event(r, kind)) == m
  {
  }

  /** The operator has his way with the pause, and touches nothing else of the manager. */
  lemma OperatorDecides(t: Thresholds, registered: set<RobotId>, s: System)
    ensures BatteryStep(t, registered, s, OperatorPause).manager == s.manager.(dispatcherPaused := true)
    ensures BatteryStep(t, registered, s, OperatorResume).manager == s.manager.(dispatcherPaused := false)
  {
  }

  /** The manager object with its dictionaries and the dispatcher's pause flag. */
  class BatteryManager {
    const registered: set<RobotId>
    var chargingMode: map<RobotId, bool>
    var dockTaskActive: map<RobotId, bool>
    var dockTaskId: map<RobotId, TaskId>
    var dispatcherPausedFor: map<RobotId, bool>
    var dispatcherPaused: bool
    // The suspended handler.
    var handler: Handler

    function View(): Manager
      reads this
    {
      Manager(chargingMode, dockTaskActive, dockTaskId, dispatcherPausedFor, dispatcherPaused, handler)
    }

    constructor (robots: set<RobotId>)
      ensures View() == FRESH_MANAGER && registered == robots
    {
      registered := robots;
      chargingMode, dockTaskActive, dockTaskId, dispatcherPausedFor := map[], map[], map[], map[];
      dispatcherPaused, handler := false, Idle;
    }

    method HandleBatteryCritical(r: RobotId)
      requires handler.Idle?
      modifies this
      ensures View() == Handle(registered, old(View()), Event(r, Critical))
    {
      if !Manages(registered, r) {
        return;
      }
      if r in chargingMode && chargingMode[r] {
        return;
      }
      chargingMode := chargingMode[r := true];
      dockTaskActive := dockTaskActive[r := false];
      dispatcherPausedFor := dispatcherPausedFor[r := false];
      if ShouldPause(registered, r) {
        dispatcherPaused := true;
        dispatcherPausedFor := dispatcherPausedFor[r := true];
      }
      handler := Submitting(r);
    }

    method FinishSubmission(result: Option<TaskId>)
      requires handler.Submitting?
      modifies this
      ensures View() == FinishCritical(registered, old(View()), result)
    {
      var r := handler.robot;
      handler := Idle;
      if result.None? {
        return;
      }
      dockTaskId := dockTaskId[r := result.value];
      dockTaskActive := dockTaskActive[r := true];
      if ShouldPause(registered, r) {
        dispatcherPaused := false;
        dispatcherPausedFor := dispatcherPausedFor[r := false];
      }
    }

    method HandleBatteryRecharged(r: RobotId)
      requires handler.Idle?
      modifies this
      ensures View() == Handle(registered, old(View()), Event(r, Recharged))
    {
      if !Manages(registered, r) || r !in chargingMode || !chargingMode[r] {
        return;
      }
      if (r in dispatcherPausedFor && dispatcherPausedFor[r]) || ShouldPause(registered, r) {
        dispatcherPaused := false;
      }
      chargingMode := chargingMode[r := false];
      dockTaskActive := dockTaskActive[r := false];
      dockTaskId := dockTaskId - {r};
      dispatcherPausedFor := dispatcherPausedFor[r := false];
    }
  }
}
