# Fleet controller: protocols and algorithms in Dafny

This project models the stateful core of a quadruped fleet controller written as cooperating asyncio coroutines, and
proves properties of that model over every run, every interleaving or every input. `dafny verify dfyconfig.toml`,
with Dafny 4.11 and its default limits, checks all of it.

Code that shares state across suspension points is modelled as a state machine: one step is the code executed between
two real suspension points (sleeps, contended locks, database calls), and a run is any sequence of such steps, taken by
any number of coroutines, bus handlers, timers and the environment. Next to each state machine stands a class with the
source's own fields; its methods are the code segments, each proved to do to the fields exactly what the machine's step
does to the state. The `Valid()` of these classes contains the machine's invariant, so every step method keeps it and
what follows from it holds of every such object. `Reachable` in a lemma means: the last state of some run.
Histories that no step reads (traces, counters of claims, delivered events) are carried along so that whole-run
statements can be made about the last state. What such a history means is in turn told from the actions of the run
(`RecordsAreTheEvents`, `CompletionsFollowSuccess`, `HoldIsLeftOnlyIfLetGo`, `CommandsFollowTheController`,
`RecordIsItsHistory`), so that no counter vouches for itself.

| files | what they cover |
|---|---|
| `Kinematics`, `NavigatorModel`, `NavigatorTrace`, `NavigatorSafety`, `NavigatorMotion`, `NavigatorCancel`, `NavigatorHolds`, `NavigatorSteps`, `NavigatorRamp`, `Navigator` | the route coroutine with its obstacle, hold, timer and cancel protocol, and the velocity it commands |
| `TaskStatus`, `TaskQueues`, `TaskHistory`, `TaskScoring`, `StableSort` | the logistics task records, their transition table and timestamps, and the choice of the next task |
| `DispatchModel`, `DispatchSafety`, `DispatchRelease`, `DispatchEvents`, `DispatchChecks`, `DispatchOutcome`, `DispatchInterleaving`, `DispatchPause`, `DispatchExamples`, `Dispatcher` | the logistics dispatcher: claims, bus handlers, cancels and watchdog failures around one dispatch lock and one first-come-first-served queue lock |
| `PatrolRecords`, `PatrolHistory`, `PatrolModel`, `PatrolSafety`, `PatrolOutcome`, `PatrolChecks`, `PatrolSuspension`, `PatrolDispatcher` | patrol cycles, their queue and their dispatcher |
| `EventBusModel`, `EventBusSafety`, `EventBusOrder`, `EventBusLifetime`, `EventBusSubscribers`, `EventBusSubscriptions`, `EventBusExamples`, `EventBus` | the bounded queue and its dispatch loop, with start and the segments of stop, on which the handler proofs rest |
| `StateMonitor`, `BatteryManager`, `BatteryPause` | battery hysteresis per robot, composed through the bus queue with the battery manager |
| `TjcFraming`, `TjcProtocol` | the serial framing of the touch display, UTF-8 commands, text escaping and event frames |
| `EscapedFields`, `RobotEntries` | provisioning: escaped fields, fresh ids and the upsert keyed by MAC address |
| `Retention`, `RetentionLaws`, `RetentionPrediction` | deleting files by age and by total size, and what a dry run predicts of it |
| `Common` | options, stripping of strings, and a few facts about numbers and sequences |

## Findings

Places where the obvious statement is false of the code. Each has a lemma with the failing case, and the exact condition
under which the statement holds.

- A robot that is blocked while the navigator polls for its first telemetry is still told to move when the poll returns
  (`PollMayMoveABlockedRobot`). A step keeps a blocked robot's target still unless it is such a poll whose reading sets
  the robot in motion: connected, away from the waypoint, and not at the first instant of a ramp with the heading right
  (`StepIsSafeExactlyUnless`). The command then stands until a detection, a clearance, the timer or a cancel
  (`DriftEndsExactly`), at most until shortly after the later of that moment and the hold timeout
  (`UnsafeTargetIsBounded`).
- A cancelled robot can be told to move once more, by a poll that returns or when the obstacle it waited for is cleared:
  the target stays still until the navigation ends exactly if the coroutine is at neither of these points when the
  cancel comes (`CancelHoldsExactly`). A cancelled navigation can still fail exactly there, and still succeed exactly at
  the last waypoint (`CancelledEndsExactly`).
- A successful route can release the robot and leave its task open (`SuccessfulRouteMayLeaveTaskOpen`). Left to itself
  after the route, the coroutine releases with a finished task exactly when the task was finished already, no hold was
  counted, or the unload is confirmed and awaited (`SuccessfulRouteFinishesExactly`); it does so whatever else happens
  meanwhile exactly in the first and the last case (`InterleavedRouteFinishesExactly`).
- A successful route without a hold fails its task: the completion it asks for is refused by the transition table, and
  the except clause then fails the task (`DispatchOutcomes.RouteOutcomeExactly` gives the outcome of every route).
- A paused logistics dispatcher and a suspended patrol dispatcher can still claim, because only the check before the
  dispatch lock looks: a coroutine can do so exactly if it had passed that check (`PausedClaimsExactly`,
  `SuspendedClaimsExactly`).
- The dock task asks for a priority the database refuses, so an unregistered robot's dispatcher stays paused for the
  whole of a critical discharge (`DockSubmissionIsRefused`, `RefusedDockKeepsDispatcherPaused`).
- The recharge of an unregistered robot lifts a pause that the operator entered: a pause survives exactly if a robot is
  registered or no discharge of the default robot comes to its end (`PauseSurvivesExactly`).
- A stop forgets a dispatch loop that was started between the end of the loop it waited for and its reset; the next
  start then adds a second loop, and two loops deliver out of order (`TwoLoopsDeliverOutOfOrder`). Exactly if a run has
  no such start does the bus never forget a loop (`OneLoopExactlyIfUnhurried`), and exactly then do all its
  continuations without one deliver in order (`OrderIsKeptExactlyIfUnhurried`, `DeliveryIsFifo`).
- Two stops at once leave a sentinel behind, on which the next loop started can end at once (`StartedLoopMayEndAtOnce`).
  A started loop lives until another stop exactly if every sentinel put before has ended a loop
  (`StartedLoopStaysAliveExactly`).
- Wildcard subscribers get an event twice (`StarIsDeliveredTwice`) exactly if it was published under a name that is not
  the wildcard but becomes it when stripped (`CopiesAreOneUnlessWildcardName`, `PublishedAsWildcardExactly`).
- `wait_until_idle` returns at once when there is no dispatch loop to wait for, also with events queued
  (`IdleWaitMayLeaveEvents`). In a run without such a start it finds everything done exactly if there is a loop or
  nothing is queued (`IdleWaitIsAccurateExactly`).
- A numeric display return does not survive the framing when its low three octets are all 0xFF or when it lies from
  -2^24 to -1; a page event does not for page 255 (`EventIsReceived`).
- Priority decides the choice of the next task exactly when its weight is at least the other three together
  (`PriorityRulesExactlyWhenItDominates`).
- Over existing files a dry run reports what the real run reports exactly if no path is picked twice and every picked
  file can be deleted (`DryRunPredictsExactly`); a file found twice is the smallest failing case
  (`DuplicatesBreakThePrediction`).
- The monitor emits a warning without a critical exactly when the two thresholds differ
  (`LoneWarningNeedsDistinctThresholds`).

## Model

| member | source | states |
|---|---|---|
| NavigatorSafety.ManualExactlyAtThreshold | shared/navigation/navigator.py:526-615 | In every reachable state of a navigation, manual confirmation is required exactly when blocked with the count at the threshold; the count equals episodes less spurious clears and never needs its clamp |
| NavigatorSafety.PendingTimerMeansBlocked | shared/navigation/navigator.py:571-623 | A pending stable-clear timer implies navigating, blocked and no manual requirement, and runs since the last accepted sensor clearance |
| NavigatorSafety.EveryTraceIsOk | shared/navigation/navigator.py:200-362 | The trace of every run has only justified entries: arrivals in order, bounded commands, resumptions of exactly one admissible kind; the completed count equals the arrivals and is the total on success |
| NavigatorSafety.BlockedWaitIsBounded | shared/navigation/navigator.py:416-426 | While the route loop waits for a blocked robot, the episode's start is that of the first detection, and the loop's next look is scheduled less than the timeout plus one loop period after it |
| NavigatorSafety.SecondRouteIsRefused | shared/navigation/navigator.py:206-208 | Starting a route while one is in progress changes nothing; a route coroutine exists exactly while navigating |
| NavigatorMotion.StepIsSafeExactlyUnless | shared/navigation/navigator.py:364-403 | A step keeps "moving target implies navigating and not blocked" if and only if it is not a poll that returns to a robot blocked meanwhile with a connected reading away from the waypoint, other than at ramp factor 0 with the heading right |
| NavigatorMotion.CachedRunsAreSafe | shared/navigation/navigator.py:364-434 | With telemetry cached, in every reachable state a non-zero heartbeat target implies navigating and not blocked |
| NavigatorMotion.PollMayMoveABlockedRobot | shared/navigation/navigator.py:428-434 | Under every configuration a run exists in which a poll ends in a moving target for a blocked robot |
| NavigatorMotion.UnsafeMeansDrifting | shared/navigation/navigator.py:364-434 | In every reachable state a moving target belongs to a navigating robot that is not blocked, or to a blocked one between such a poll and its next look at the block or a later one |
| NavigatorMotion.DriftEndsExactly | shared/navigation/navigator.py:416-426 | A step stops such a robot or frees it if and only if it is a detection, an accepted clearance, the timer, a cancel, or a look at the block that finds it cancelled or out of time; otherwise command and episode stay the same |
| NavigatorMotion.UnsafeTargetIsBounded | shared/navigation/navigator.py:364-434 | From the step that told a blocked robot to move, the one command stands at most until a loop period and the wake-up's lateness after the later of that step and the end of the hold timeout |
| NavigatorCancel.CancelHoldsExactly | shared/navigation/navigator.py:364-434 | After a cancel the target stays still in every continuation up to the end of the navigation, if and only if the coroutine is neither polling nor asleep as a blocked robot on the way to a waypoint |
| NavigatorCancel.RunStaysStopped | shared/navigation/navigator.py:364-426 | A cancelled robot at any other point stays still and bound to notice, whatever runs |
| NavigatorCancel.CancelledEndsExactly | shared/navigation/navigator.py:206-251 | After a cancel the navigation can still fail if and only if it is where the cancel is overlooked, can still succeed if and only if it is at the last waypoint, in its hold or, without one, about to use a reading, and never ends blocked |
| NavigatorSafety.RunKeeps | shared/navigation/navigator.py:200-652 | The inductive invariant of the whole protocol holds in every reachable state |
| NavigatorSafety.StepKeeps | shared/navigation/navigator.py:200-652 | Every step of coroutine, handlers, timer, cancel or clock keeps that invariant |
| NavigatorTrace.ArrivalsInRouteOrder | shared/navigation/navigator.py:241-245 | Arrivals are published once per waypoint, in route order |
| NavigatorTrace.ThresholdLatches | shared/navigation/navigator.py:526-558 | Once the count has reached the threshold it never drops below it in that run |
| NavigatorTrace.ManualAfterThreshold | shared/navigation/navigator.py:582-597 | After that, every resumption is by hand, never by sensor or timer |
| NavigatorTrace.TimedClearSawNoDetection | shared/navigation/navigator.py:611-628 | A timed resumption follows an accepted sensor clearance by the whole stable-clear interval without a detection in between |
| NavigatorTrace.SpuriousClearEndsYoungEpisode | shared/navigation/navigator.py:598-610 | A spurious resumption ends an episode younger than the minimum hold |
| NavigatorTrace.HoldIsLeftOnlyAfterRelease | shared/navigation/navigator.py:405-414 | In every trace a waypoint with a hold is left only after a release or cancel entry that follows its arrival; what these entries are is told from the actions by HoldIsLeftOnlyIfLetGo |
| NavigatorHolds.HoldIsLeftOnlyIfLetGo | shared/navigation/navigator.py:405-414 | In every run a robot that came to a hold and is no longer there, other than by the obstacle timeout, was let go by an action after its arrival: a confirmation for this robot or a cancel |
| NavigatorHolds.ConfirmedHoldGoesOn | shared/navigation/navigator.py:405-414 | Once confirmed, a hold neither cancelled nor blocked goes on when its wait returns, released or timed out: to success at the last waypoint, to the poll or the command for the next one elsewhere |
| NavigatorHolds.OtherRobotsAreIgnored | shared/navigation/navigator.py:519-575 | A confirmation, detection or clearance for another robot changes nothing |
| NavigatorSteps.StepEndsForItsReason | shared/navigation/navigator.py:364-426 | A step ends the navigation as failed only on a poll that raises or a reading without connection, as blocked only when the block is as old as the timeout, as cancelled only after a cancel, as a success only with all waypoints reached |
| NavigatorSteps.NextLookDecides | shared/navigation/navigator.py:405-426 | When the drive loop, the blocked loop or the hold loop next looks at a cancelled or blocked robot, it ends as cancelled, else as blocked if out of time, else sleeps one period with nothing else changed |
| NavigatorSteps.EndsAtOnce | shared/navigation/navigator.py:374-378 | A poll that raises and a reading without connection fail at once; a hold released after a cancel ends cancelled |
| NavigatorSteps.OwnStepSleepsOnePeriod | shared/navigation/navigator.py:403-426 | Whatever readings it passes waypoints with, a step of the coroutine that leaves it asleep is due one control period later |
| NavigatorSteps.ArrivalStopsTheRobot | shared/navigation/navigator.py:241-251 | A step that reaches any waypoint leaves the target still, unless it goes on to drive to a later one |
| NavigatorSteps.FreshRunOwesNothing | shared/navigation/navigator.py:209-223 | What a new navigation does is independent of everything earlier navigations left behind |
| NavigatorSteps.ClearanceDecides | shared/navigation/navigator.py:571-615 | A clearance frees the robot at once if and only if it is manual, or the threshold is not reached and the episode is younger than the minimum hold; else it starts the timer below the threshold and does nothing at it; only the young case takes one off the count |
| NavigatorSteps.TimerGoesOn | shared/navigation/navigator.py:611-623 | A running timer is left alone by everything but a detection, a clearance and the end of the navigation |
| NavigatorSteps.TimerFrees | shared/navigation/navigator.py:617-647 | It can fire exactly from the end of the stable-clear interval on, and then frees the robot and starts the ramp |
| NavigatorRamps.CommandsFollowTheController | shared/navigation/navigator.py:380-393 | In every run a step that leaves the robot driving has commanded it for the waypoint it drives to, from a connected reading the step brought that puts it out of reach, with the share of the speed that the time since the last resume of this navigation allows |
| Kinematics.NormalizeAngleIsCongruent | shared/navigation/navigator.py:51-59 | The normalised angle lies in [-pi, pi], differs from the angle by whole turns, and angles already there stay |
| Kinematics.RampFactorRange | shared/navigation/navigator.py:471-478 | The resume ramp factor lies between 0 and 1 |
| Kinematics.RampGrowsWithTime | shared/navigation/navigator.py:471-478 | During the ramp the factor is the share of the duration that has passed since the resume, 0 at the resume; from its end on, and without one, it is 1 |
| Kinematics.RampNeverFalls | shared/navigation/navigator.py:471-478 | The factor never falls as time passes |
| Kinematics.CommandIsBounded | shared/navigation/navigator.py:449-469 | Forward speed lies between 0 and min(waypoint velocity, 0.8 * distance), lateral speed is 0, the yaw rate is within the limit |
| Kinematics.CommandIsStillExactly | shared/navigation/navigator.py:449-469 | On the way to a waypoint the command is standstill exactly at ramp factor 0 with the normalised heading error 0 |
| Kinematics.TurnsTowardTheBearing | shared/navigation/navigator.py:457-468 | The yaw rate has the sign of the normalised heading error, and its size is the smaller of the limit and 1.5 times the size of the error |
| Kinematics.HeadingErrorShrinks | shared/navigation/navigator.py:457-468 | Turning at that rate for any time below four thirds of a second makes a heading error smaller in size |
| Kinematics.SpeedAheadExactly | shared/navigation/navigator.py:462-465 | The forward speed is the waypoint speed, or 0.8 of the distance if that is less, times the ramp factor while the heading is within its tolerance on either side, and a quarter of it outside |
| Navigators.Navigator.ExecuteRouteDefinition | shared/navigation/navigator.py:200-251 | Refuses a second route without effect, else resets the run and drives to the first suspension as the machine does |
| Navigators.Navigator.ResetForRoute | shared/navigation/navigator.py:209-223 | Sets every field of the run to its start value |
| Navigators.Navigator.DriveToWaypoint | shared/navigation/navigator.py:364-403 | From its top the drive loop does what the machine's Drive does, passing waypoints already reached in one segment |
| Navigators.Navigator.ActOnState | shared/navigation/navigator.py:377-403 | Uses a reading: fails on a lost connection, arrives within tolerance, else commands a velocity |
| Navigators.Navigator.ReachWaypoint | shared/navigation/navigator.py:242-251 | Stops, counts the waypoint, publishes the arrival and enters the hold if the waypoint has one |
| Navigators.Navigator.CommandVelocity | shared/navigation/navigator.py:449-469 | Sets the heartbeat target to the command for this reading, whose direction, size and bounds the Kinematics results give |
| Navigators.Navigator.ComputeResumeRampFactor | shared/navigation/navigator.py:471-478 | Returns the ramp factor and ends the ramp when its time is over |
| Navigators.Navigator.WaitWhileBlocked | shared/navigation/navigator.py:416-426 | One turn of the blocked wait: cancelled, timed out or asleep for one period |
| Navigators.Navigator.WaitForHoldConfirmation | shared/navigation/navigator.py:405-414 | One turn of the hold loop |
| Navigators.Navigator.ResumeDriving | shared/navigation/navigator.py:371-403 | A control period later the drive loop goes round again |
| Navigators.Navigator.ResumePolled | shared/navigation/navigator.py:376-403 | The poll's reading is used whatever has happened meanwhile |
| Navigators.Navigator.ResumeBlocked | shared/navigation/navigator.py:416-434 | After the blocked sleep: the blocked loop again, else on to the reading or the hold without another look for a cancel |
| Navigators.Navigator.ResumeReleased | shared/navigation/navigator.py:405-414 | A released hold goes on to the next waypoint unless cancelled |
| Navigators.Navigator.ResumeTimedOut | shared/navigation/navigator.py:405-414 | A hold wait that timed out goes on, or round the loop again |
| Navigators.Navigator.PolicyHolds | shared/navigation/navigator.py:526-647 | A valid navigator object requires manual confirmation exactly when blocked at the threshold, has a pending timer only while blocked without that, has completed as many waypoints as it published arrivals, and stands still when not navigating |
| Navigators.Navigator.HandleHumanConfirmation | shared/navigation/navigator.py:519-524 | Releases the hold only while navigating and only for this robot, as the machine step that HoldIsLeftOnlyIfLetGo and ConfirmedHoldGoesOn speak of |
| Navigators.Navigator.HandleObstacleDetected | shared/navigation/navigator.py:526-569 | Cancels the timer, opens an episode if none is open, stops the target |
| Navigators.Navigator.HandleObstacleCleared | shared/navigation/navigator.py:571-615 | Manual, latched, spurious and timed clearance exactly as the machine decides |
| Navigators.Navigator.RunStableClearWait | shared/navigation/navigator.py:617-623 | The timer resumes a blocked navigation |
| Navigators.Navigator.ApplyObstacleClear | shared/navigation/navigator.py:625-647 | Unblocks and starts the ramp if one is configured |
| Navigators.Navigator.CancelNavigation | shared/navigation/navigator.py:181-186 | Sets the cancel flag, releases the hold and stops the target |
| Navigators.Navigator.LeaveNavigation | shared/navigation/navigator.py:354-362 | The finally clause on every way out |
| Navigators.HeartbeatController.SetTargetVelocity | shared/quadruped/heartbeat.py:136-152 | Overwrites the shared velocity cell |
| Navigators.HeartbeatController.ClearTargetVelocity | shared/quadruped/heartbeat.py:154-159 | Sets the cell to standstill |
| DispatchSafety.DispatchIsExclusive | apps/logistics/tasks/dispatcher.py:380-456 | Over every interleaving no task is held by two robots, no robot has two coroutines between claim and release, a held task still queued is being marked by the lock holder, and each task is claimed, dispatched and driven at most once |
| DispatchSafety.CompletedTasksWereServed | apps/logistics/tasks/dispatcher.py:243-355 | A completed task was claimed once, and its record shows at least two holds, a load confirmation handled while awaiting its load, and an unload confirmation; that the record tells the events of the run is RecordsAreTheEvents |
| DispatchEvents.RecordsAreTheEvents | apps/logistics/tasks/dispatcher.py:243-279 | Over every run the holds of a task are as many as the arrivals, with no handler in progress, of the robot holding it at a waypoint with a hold, reported without a task or with this one; its unload is recorded exactly if such a confirmation came, its load exactly if one was read while the load was awaited |
| DispatchEvents.CompletedTasksSawTheirEvents | apps/logistics/tasks/dispatcher.py:243-279 | So every completed task saw two such arrivals, an awaited load confirmation and an unload confirmation among the actions of the run |
| DispatchEvents.OtherEventsAreIgnored | apps/logistics/tasks/dispatcher.py:243-279 | An arrival without a hold, an event naming another task, and one for a robot without a task leave the state as it was |
| DispatchEvents.EntriesFollowTheEvents | apps/logistics/tasks/dispatcher.py:179-210 | The entries of a robot are blank when made and then change by the events alone: one hold more per hold arrival, a flag per kind of confirmation, nothing by any other step |
| DispatchEvents.EventOutcomeExactly | apps/logistics/tasks/dispatcher.py:243-320 | Handled without interference an event moves its task exactly so: the first hold of a dispatched one to awaiting its load, a later one under way to awaiting its unload, a confirmation on from there; it touches no other status |
| DispatchChecks.LockIsHeldExactly | apps/logistics/tasks/dispatcher.py:411-443 | In every reachable state the dispatch lock is held exactly by the one coroutine between getting it and leaving it: it is never left behind |
| DispatchChecks.NobodySkipsACheck | apps/logistics/tasks/dispatcher.py:380-413 | In every run a coroutine past the lock was started while not paused with its robot free and not navigating, read a connected state, and got the lock with the robot still free and not navigating |
| DispatchChecks.TurnedAwayExactly | apps/logistics/tasks/dispatcher.py:380-413 | Each of the three checks turns a coroutine away if and only if its condition fails |
| DispatchChecks.PausedAsTold | apps/logistics/tasks/dispatcher.py:120-131 | Over every run the dispatcher is paused exactly if the last order to pause or to resume was to pause |
| DispatchChecks.ServedInTurn | apps/logistics/tasks/queue.py:312-319 | In every reachable state a request at the queue lock, of a coroutine or of the handler, is served only if everybody else who waits asked later |
| DispatchChecks.SomebodyIsServed | apps/logistics/tasks/queue.py:312-319 | In every reachable state in which somebody waits for the queue lock, somebody can be served |
| DispatchChecks.OutsideMovesExactly | apps/logistics/tasks/queue.py:20-29 | An outside cancel or failure takes a task exactly where the table lets it, and changes no other |
| DispatchSafety.RunKeeps | apps/logistics/tasks/dispatcher.py:179-456 | The inductive invariant of dispatch coroutines, handler, queue lock and environment holds in every reachable state |
| DispatchSafety.StepKeeps | apps/logistics/tasks/dispatcher.py:179-456 | Every step keeps it |
| DispatchSafety.UpdateKeeps | apps/logistics/tasks/queue.py:312-328 | When a task's record may change without upsetting any coroutine, the handler or the lock holder |
| DispatchRelease.ReleasedTasksAreSettled | apps/logistics/tasks/dispatcher.py:322-369 | In every reachable state a claimed task whose robot has been released is terminal or saw a hold arrival, however the dispatch ended; what an undisturbed successful route leaves is given exactly by SuccessfulRouteFinishesExactly |
| DispatchRelease.StepSettles | apps/logistics/tasks/queue.py:20-29 | No step takes a finished task back or uncounts a hold |
| DispatchRelease.SlotsStayUntilReleased | apps/logistics/tasks/dispatcher.py:179-210 | A robot keeps its active task until its own coroutine releases it |
| DispatchOutcomes.SuccessfulRouteFinishesExactly | apps/logistics/tasks/dispatcher.py:336-369 | A coroutine whose route succeeded, taking its own turns up to the release, releases with a finished task if and only if the task was finished, no hold was counted, or the unload is confirmed and awaited; with a completed one if and only if it was completed or in the last case |
| DispatchOutcomes.RouteOutcomeExactly | apps/logistics/tasks/dispatcher.py:322-369 | Left to itself from any route result on, the coroutine releases with the task failed after every other result than a success, however many holds were counted, unless it was finished; after a success completed, left as it is, or failed, each in exactly given cases |
| DispatchInterleavings.InterleavedRouteFinishesExactly | apps/logistics/tasks/dispatcher.py:322-369 | A coroutine whose route succeeded releases with a finished task in every interleaving with handlers, cancels, watchdogs and other coroutines, if and only if the task is finished already or its unload is confirmed and awaited |
| DispatchInterleavings.StepMovesStatus | apps/logistics/tasks/queue.py:20-29 | Every change of a task's status, by whomever, is one of the transition table |
| DispatchPauses.PausedClaimsExactly | apps/logistics/tasks/dispatcher.py:380-431 | With the lock free or its own and a task queued, a coroutine whose robot is free can claim without the dispatcher being resumed if and only if it had passed the check of the pause and not been told that there is no task |
| DispatchPauses.LateClaimsWereWaiting | apps/logistics/tasks/dispatcher.py:380-431 | In any run without a resume, whoever may yet claim had passed the check when the pause came |
| DispatchExamples.SuccessfulRouteMayLeaveTaskOpen | apps/logistics/tasks/dispatcher.py:336-355 | A run exists in which a successful route releases the robot while its task still awaits its load |
| DispatchExamples.CompletionIsReachable | apps/logistics/tasks/dispatcher.py:243-279 | A run exists in which a task is served and completed, so the completion result is not empty |
| Dispatchers.Dispatcher.StartDispatch | apps/logistics/tasks/dispatcher.py:380-398 | The checks before the robot's telemetry is read |
| Dispatchers.Dispatcher.CheckState | apps/logistics/tasks/dispatcher.py:400-408 | Goes on to the dispatch lock with a connected state, gives up without one |
| Dispatchers.Dispatcher.AcquireDispatchLock | apps/logistics/tasks/dispatcher.py:411-413 | The checks repeated inside the dispatch lock |
| Dispatchers.Dispatcher.ClaimSelected | apps/logistics/tasks/dispatcher.py:415-431 | Sets the robot's active state and asks to mark the task dispatched, or leaves the lock |
| Dispatchers.Dispatcher.SetActiveTaskState | apps/logistics/tasks/dispatcher.py:179-194 | Fills the robot's entries in all four dictionaries |
| Dispatchers.Dispatcher.PopActiveTaskState | apps/logistics/tasks/dispatcher.py:196-210 | Empties them |
| Dispatchers.Dispatcher.TransitionTask | apps/logistics/tasks/queue.py:312-328 | A coroutine's turn at the queue lock: granted by the table, else raised or swallowed where the code swallows it |
| Dispatchers.Dispatcher.InterpretSuccess | apps/logistics/tasks/dispatcher.py:339-355 | What a successful route asks for, from the record read and the robot's flags |
| Dispatchers.Dispatcher.MarkFailedIfPossible | apps/logistics/tasks/dispatcher.py:357-360 | Asks for failure unless the record read was terminal |
| Dispatchers.Dispatcher.ExecuteRoute | apps/logistics/tasks/dispatcher.py:443 | The lock is left and the navigator starts to drive |
| Dispatchers.Dispatcher.HandleException | apps/logistics/tasks/dispatcher.py:446-451 | The except clause leaves the lock if it was held and fails whatever the robot is recorded to work on |
| Dispatchers.Dispatcher.FailActiveTask | apps/logistics/tasks/dispatcher.py:362-369 | Asks for the record of the robot's active task, if it has one |
| Dispatchers.Dispatcher.ResetActiveTaskState | apps/logistics/tasks/dispatcher.py:452-454 | The finally clause empties the robot's entries and ends the coroutine |
| Dispatchers.Dispatcher.OnArrivedAtWaypoint | apps/logistics/tasks/dispatcher.py:243-257 | Counts an arrival if the waypoint has a hold and the event fits the active task of the robot, else returns; RecordsAreTheEvents and OtherEventsAreIgnored say what this comes to |
| Dispatchers.Dispatcher.OnHumanConfirmedLoad | apps/logistics/tasks/dispatcher.py:259-268 | Records the load confirmation |
| Dispatchers.Dispatcher.OnHumanConfirmedUnload | apps/logistics/tasks/dispatcher.py:270-279 | Records the unload confirmation |
| Dispatchers.Dispatcher.WantedTransition | apps/logistics/tasks/dispatcher.py:251-279 | The transition a handler asks for, from the record it read and the present hold count |
| Dispatchers.Dispatcher.ContinueHandler | apps/logistics/tasks/dispatcher.py:300-310 | Asks for that transition on the task the robot works on now |
| Dispatchers.Dispatcher.ApplyEventDrivenTransition | apps/logistics/tasks/dispatcher.py:300-320 | The handler's turn at the queue lock; a rejection is swallowed |
| Dispatchers.Dispatcher.ActiveTasksAreExclusive | apps/logistics/tasks/dispatcher.py:179-210 | A valid dispatcher object records no task for two robots, and each of its completed tasks saw two counted holds and both confirmations |
| TaskQueues.HistoryIsPath | apps/logistics/tasks/queue.py:20-29 | Over every sequence of operations a task's history is a path in the transition table that repeats no status and stops at a terminal one; completed_at is set exactly when terminal, dispatched_at exactly when the history contains dispatched |
| TaskQueues.TimestampsAreWrittenOnce | shared/core/database.py:249-288 | Later operations never change a written timestamp, a finished record or the creation time, nor remove a record |
| TaskQueues.PathsAreSimple | apps/logistics/tasks/queue.py:20-29 | No path in the transition table repeats a status or goes on after a terminal one |
| TaskHistories.TransitionsExactly | apps/logistics/tasks/queue.py:20-29 | The transition table is: one step ahead, failure while not finished, cancel while the load is not confirmed |
| TaskHistories.RecordIsItsHistory | shared/core/database.py:249-288 | Over every sequence of operations a stored task carries what was submitted, the status and notes last given, and the times of its first dispatch and of its end |
| TaskHistories.LastDestinationIsLastServed | apps/logistics/tasks/queue.py:198-202 | The destination remembered is that of the task completed last |
| TaskHistories.SubmissionsAreRefusedExactly | apps/logistics/tasks/queue.py:110-141 | When a submission is accepted, and the one reason for each refusal |
| TaskQueues.TaskQueue.SubmitTask | apps/logistics/tasks/queue.py:110-141 | Stores a queued record or refuses with the source's error and no effect |
| TaskQueues.TaskQueue.TransitionTask | apps/logistics/tasks/queue.py:312-328 | Moves a record as the table allows, with its once-only timestamps, or refuses with no effect |
| TaskScoring.NextHasMaximumScore | apps/logistics/tasks/queue.py:171-184 | Of the queued tasks in the order of the database query, the selected one has the maximum score and is the first such |
| TaskScoring.PriorityRulesExactlyWhenItDominates | apps/logistics/tasks/queue.py:256-287 | Over every history of queue operations, every distance and every clock reading, the selected task is queued and no queued task has a higher priority, if and only if priority_weight >= recency_weight + proximity_weight + direction_bonus |
| TaskScoring.PriorityRulesAtOnceExactlyWhenItDominates | apps/logistics/tasks/queue.py:256-287 | The same with one clock reading for all tasks |
| TaskScoring.DefaultsSelectByPriority | shared/core/config.py:149-153 | The default weights meet that condition |
| TaskScoring.ScoreBounds | apps/logistics/tasks/queue.py:256-287 | What recency, proximity and bonus can add to the priority term |
| TaskScoring.ScoreIsMadeUpExactly | apps/logistics/tasks/queue.py:256-287 | The parts of a score: the priority term; recency and proximity as weight shared over seconds and metres, at least one of them, and nothing for an unknown distance; the bonus exactly for the destination served last |
| StableSort.SortIsStable | apps/logistics/tasks/queue.py:183 | The sort orders, permutes and keeps equal keys in order |
| StableSort.StableSortIsUnique | apps/logistics/tasks/queue.py:183 | Every stable sort gives the same list |
| PatrolSafety.PatrolIsExclusive | apps/patrol/tasks/patrol_dispatcher.py:132-228 | Over every interleaving each cycle is held by at most one robot and coroutine, and claimed, driven and cleared at most once |
| PatrolSafety.ClearedCyclesAreFinished | apps/patrol/tasks/patrol_dispatcher.py:132-228 | When a robot's entry is cleared its cycle is completed or failed on every path; a failure that reached the limit had suspended the dispatcher first |
| PatrolSafety.FailureLimitSuspends | apps/patrol/tasks/patrol_dispatcher.py:402-441 | The counter is the number of failures since the last success, and the failure that reaches the limit suspends |
| PatrolOutcomes.RouteOutcomeExactly | apps/patrol/tasks/patrol_dispatcher.py:176-228 | From the result of the route on, a coroutine left to itself clears its robot with the cycle completed and the counter reset if and only if the route succeeded, the cycle was active and not more was observed than there are waypoints; otherwise failed, with one failure more counted and the dispatcher suspended if that reaches the limit |
| PatrolOutcomes.CompletionsFollowSuccess | apps/patrol/tasks/patrol_dispatcher.py:176-198 | Over every run each completed cycle was completed from outside or by a coroutine whose own route had come back a success earlier in the run |
| PatrolChecks.LockIsHeldExactly | apps/patrol/tasks/patrol_dispatcher.py:148-165 | In every reachable state the dispatch lock is held exactly by the one coroutine inside it |
| PatrolChecks.NobodySkipsACheck | apps/patrol/tasks/patrol_dispatcher.py:132-150 | In every run a coroutine past the lock was started while not suspended with its robot free and not navigating, and got the lock with the robot still free and not navigating |
| PatrolChecks.TurnedAwayExactly | apps/patrol/tasks/patrol_dispatcher.py:132-150 | Each check turns a coroutine away if and only if its condition fails |
| PatrolChecks.SuspendedExactly | apps/patrol/tasks/patrol_dispatcher.py:230-243 | Over every run the dispatcher is suspended exactly if it was told so, or a failure reached the limit, and it was not told to resume since |
| PatrolChecks.ActivationExactly | apps/patrol/tasks/patrol_dispatcher.py:155-176 | A claimed cycle that can be activated becomes active and is driven with the lock left; one that cannot is never driven and counts as a failure |
| PatrolChecks.OutsideMovesExactly | apps/patrol/tasks/patrol_queue.py:94-228 | A queue operation from outside moves its cycle exactly where the status machine lets it and no other; a submitted cycle is scheduled and unclaimed |
| PatrolChecks.CompletionIsReachable | apps/patrol/tasks/patrol_dispatcher.py:147-228 | A run exists in which a cycle is claimed, driven, completed and cleared, so the patrol results are not empty |
| PatrolSuspensions.SuspendedClaimsExactly | apps/patrol/tasks/patrol_dispatcher.py:132-165 | With the lock free or its own and a cycle scheduled, a coroutine whose robot is free can claim without the dispatcher being resumed if and only if it had passed the check of the suspension and not been told that there is no cycle |
| PatrolSuspensions.LateClaimsWereWaiting | apps/patrol/tasks/patrol_dispatcher.py:132-165 | In any run without a resume, whoever may yet claim had passed the check when the suspension came |
| PatrolSafety.RunKeeps | apps/patrol/tasks/patrol_dispatcher.py:132-228 | The inductive invariant holds in every reachable state |
| PatrolSafety.StepKeeps | apps/patrol/tasks/patrol_dispatcher.py:132-228 | Every step keeps it |
| PatrolDispatchers.PatrolDispatcher.StartDispatch | apps/patrol/tasks/patrol_dispatcher.py:132-144 | The checks before the dispatch lock |
| PatrolDispatchers.PatrolDispatcher.AcquireDispatchLock | apps/patrol/tasks/patrol_dispatcher.py:148-150 | The checks repeated inside it |
| PatrolDispatchers.PatrolDispatcher.ClaimSelected | apps/patrol/tasks/patrol_dispatcher.py:151-165 | Sets the active cycle and asks to mark it, or leaves the lock |
| PatrolDispatchers.PatrolDispatcher.TransitionCycle | apps/patrol/tasks/patrol_queue.py:280-344 | The queue's turn for activation, completion with counts, or failure |
| PatrolDispatchers.PatrolDispatcher.CountFailure | apps/patrol/tasks/patrol_dispatcher.py:402-417 | Counts the failure and asks to mark the cycle failed |
| PatrolDispatchers.PatrolDispatcher.SuspendAtLimit | apps/patrol/tasks/patrol_dispatcher.py:434-441 | Suspends exactly when the counted failure reaches the limit |
| PatrolDispatchers.PatrolDispatcher.InterpretResult | apps/patrol/tasks/patrol_dispatcher.py:176-212 | A driven route goes on to completion exactly if it was a success, else to failure, as RouteOutcomeExactly follows it to the clearing |
| PatrolDispatchers.PatrolDispatcher.FinishSuccess | apps/patrol/tasks/patrol_dispatcher.py:186-208 | A success resets the failure counter |
| PatrolDispatchers.PatrolDispatcher.ClearActiveCycleState | apps/patrol/tasks/patrol_dispatcher.py:226-228 | The finally clause |
| PatrolDispatchers.PatrolDispatcher.ActiveCyclesAreExclusive | apps/patrol/tasks/patrol_dispatcher.py:132-228 | A valid dispatcher object records no cycle for two robots, and each cleared cycle is completed or failed |
| PatrolRecords.StoredCyclesAreOk | apps/patrol/tasks/patrol_record.py:42-56 | Over every sequence of queue operations stored cycles are valid, carry exactly the timestamps of their status, and never change once finished |
| PatrolRecords.RejectedCompletionCanStillFail | apps/patrol/tasks/patrol_record.py:42-56 | A completion is refused exactly when 0 < total < observed, leaves the cycle alone, and the cycle can then be failed with any reason that is not blank |
| PatrolHistories.RecordIsItsHistory | apps/patrol/tasks/patrol_queue.py:172-228 | Over every sequence of operations a stored cycle carries what was submitted, the status last given, the times of its first activation and of its end, the reason last given, and the numbers of its completion or else those planned |
| PatrolHistories.OperationsAreRefusedExactly | apps/patrol/tasks/patrol_queue.py:280-309 | When an operation is accepted, and the one reason for each refusal |
| PatrolHistories.SubmissionsAreRefusedExactly | apps/patrol/tasks/patrol_queue.py:94-133 | The same for a submission |
| PatrolRecords.PatrolQueue.SubmitCycle | apps/patrol/tasks/patrol_queue.py:94-136 | Stores a scheduled cycle or refuses with no effect |
| PatrolRecords.PatrolQueue.TransitionCycle | apps/patrol/tasks/patrol_queue.py:280-344 | Merges an operation's updates into the record if the machine and the record's validation allow it |
| EventBusSafety.DeliveryIsFifo | shared/core/event_bus.py:235-280 | In every run without a start between a loop's end and the pending reset, the deliveries made and those owed by the one loop are the schedule of the taken events: all callbacks of one event, in the order chosen, before those of the next |
| EventBusSafety.NothingIsLost | shared/core/event_bus.py:235-248 | In every reachable state, also with two loops, accepted events are taken in order, none lost or repeated, and each delivery is made or owed exactly as often as the taken events call for it |
| EventBusSafety.OneLoopExactlyIfUnhurried | shared/core/event_bus.py:171-190 | No point of a run can lead, without a further start, to a live loop the task field has forgotten, if and only if no start comes between the end of a loop and the reset of the stop that waited for it |
| EventBusOrder.OrderIsKeptExactlyIfUnhurried | shared/core/event_bus.py:171-190 | Every point of a run keeps the deliveries a prefix of the schedule in all continuations without such a start, if and only if the run itself has no such start; for every capacity and whatever is queued, subscribed or being stopped |
| EventBusOrder.HastyStartLosesTheOrder | shared/core/event_bus.py:171-190 | After any such start a continuation without another one delivers out of order: the pending stops finish, a start adds a second loop, the queue empties, and of two more events the second overtakes the first |
| EventBusExamples.TwoLoopsDeliverOutOfOrder | shared/core/event_bus.py:171-190 | A state is reachable, through stop, start, reset and start, whose deliveries are no prefix of the schedule |
| EventBusSubscribers.SubscriberReceivesMatching | shared/core/event_bus.py:105-169 | In a run without a hasty start, the deliveries made and owed to a subscriber that stays grow, in order, by exactly the matching events taken meanwhile, each as often as it matches |
| EventBusSubscribers.SubscriberIsCalledPerMatch | shared/core/event_bus.py:105-169 | In any run, also with two loops, a subscriber that stays is called, or owed a call, for each event taken meanwhile exactly as often as it matches |
| EventBusSubscribers.UnsubscribedIsLeftAlone | shared/core/event_bus.py:127-129 | Unsubscribing takes exactly this subscription away; in every continuation no event taken since is planned for it, and its deliveries made or owed stay, event by event, what they were |
| EventBusSubscriptions.SubscribedAreTheMade | shared/core/event_bus.py:105-129 | Over every run exactly those are subscribed whose subscription was made, under the stripped name they gave, and has not been ended since |
| EventBusSubscriptions.CallsFollowSubscription | shared/core/event_bus.py:250-260 | Over every run the subscribers of an event are called in the order of subscribing, those for its name before those for all events |
| EventBusSubscribers.OnceEachExactly | shared/core/event_bus.py:250-260 | What a subscription should get of a list of events is the list of the matching ones, each once, if and only if it is not one for all events or none of them is named by the wildcard |
| EventBusSubscribers.CopiesAreOneUnlessWildcardName | shared/core/event_bus.py:250-260 | One callback at most per event and subscription, exactly unless a wildcard subscription meets the wildcard as a published name |
| EventBusSubscribers.PublishedAsWildcardExactly | shared/core/event_bus.py:294-308 | A name is published as the wildcard if and only if it is not the bare wildcard but becomes it when stripped |
| EventBusExamples.StarIsDeliveredTwice | shared/core/event_bus.py:250-260 | A state is reachable in which the one wildcard subscriber got the one accepted event twice |
| EventBusSubscribers.PaddedWildcardIsPublished | shared/core/event_bus.py:294-308 | The bare wildcard is refused for publishing, a padded one is accepted as the wildcard |
| EventBusSubscribers.ExactBeforeWildcard | shared/core/event_bus.py:250-260 | Exact matches are called before wildcards |
| EventBusSafety.EventsAreAcceptedExactly | shared/core/event_bus.py:151-169 | An event is accepted exactly if its name is good and the queue unbounded or not full, and then is the last in it under the stripped name |
| EventBusSafety.QueueIsBounded | shared/core/event_bus.py:100-101 | In every reachable state of a bounded bus the queue is within the bound, sentinels included |
| EventBusSafety.IdleWaitIsAccurate | shared/core/event_bus.py:192-202 | In every reachable state an idle wait that may return finds every event taken and every callback called, exactly unless the task field is empty and the join counter is not 0 |
| EventBusSafety.IdleWaitIsAccurateExactly | shared/core/event_bus.py:192-202 | In a run without a hasty start it does if and only if there is a dispatch loop to wait for or the queue is empty |
| EventBusExamples.IdleWaitMayLeaveEvents | shared/core/event_bus.py:192-202 | A state is reachable in which the wait returns although an event is queued |
| EventBusLifetime.SentinelsAreConserved | shared/core/event_bus.py:178-190 | In every run the sentinels put by stops are those still queued and one per loop that has ended or is about to |
| EventBusLifetime.StartedLoopStaysAliveExactly | shared/core/event_bus.py:171-190 | A loop created by a start stays alive in every continuation without another sentinel, if and only if as many loops have ended as sentinels were put |
| EventBusLifetime.WaitingLoopStaysAliveExactly | shared/core/event_bus.py:235-243 | A waiting loop does if and only if no sentinel is queued, whatever other loops there are |
| EventBusExamples.StartedLoopMayEndAtOnce | shared/core/event_bus.py:178-190 | A state is reachable in which two stops have returned, one sentinel is queued, and the next loop started can end |
| EventBuses.EventBus.SubscribeTo | shared/core/event_bus.py:105-125 | Appends a subscription under the normalised name |
| EventBuses.EventBus.UnsubscribeFrom | shared/core/event_bus.py:127-129 | Says whether the id was there; no remaining subscription has it and the others stay in order |
| EventBuses.EventBus.Start | shared/core/event_bus.py:171-176 | Creates a dispatch loop unless the task field refers to a live one |
| EventBuses.EventBus.BeginStop | shared/core/event_bus.py:178-186 | A stop's first segment: nothing to stop, a dead loop dropped, or the idle wait |
| EventBuses.EventBus.PutStopSentinel | shared/core/event_bus.py:178-190 | The stop's segment after the idle wait: queues the sentinel if there is room and awaits the loop the task field refers to |
| EventBuses.EventBus.FinishStop | shared/core/event_bus.py:188-190 | A stop's last segment: once the loop it waited for has ended, the task field is emptied |
| EventBuses.EventBus.PublishNowait | shared/core/event_bus.py:151-169 | Accepts an event exactly when its name is good and the queue has room |
| EventBuses.EventBus.TakeNext | shared/core/event_bus.py:235-248 | Takes the oldest item and chooses its callbacks |
| EventBuses.EventBus.TakeItem | shared/core/event_bus.py:235-248 | What a loop does with what it got: the sentinel ends it, an event gets its callbacks chosen |
| EventBuses.EventBus.InvokeCallback | shared/core/event_bus.py:262-280 | Calls the next chosen callback |
| EventBuses.EventBus.FinishItem | shared/core/event_bus.py:235-243 | Marks the item done |
| StateMonitors.EmittedIsCyclePrefix | shared/quadruped/state_monitor.py:236-276 | For every telemetry sequence the emitted word is a prefix of (warn critical? recharged)*, and the flags say where in the cycle it stops |
| StateMonitors.EveryCyclePrefixIsEmitted | shared/quadruped/state_monitor.py:236-276 | With distinct lower thresholds every such word is emitted for some telemetry |
| StateMonitors.LoneWarningNeedsDistinctThresholds | shared/core/config.py:53-66 | A warning stands alone for some telemetry exactly when critical < warn |
| StateMonitors.EventsTellTheReadings | shared/quadruped/state_monitor.py:236-276 | For any telemetry the next reading is reported as a warning, as critical or as recharged exactly if it is the first one low, the first one critical, or the first one recharged after a low one, counted from the last recharged reading |
| StateMonitors.FlagsTellTheReadings | shared/quadruped/state_monitor.py:236-276 | The flags say whether a low and whether a critical reading has come since the last recharged one |
| StateMonitors.ExtendsCycle | shared/quadruped/state_monitor.py:236-276 | The cycle grammar read from the front agrees with the flags read from the back |
| StateMonitors.StateMonitor.HandleBatteryThresholds | shared/quadruped/state_monitor.py:236-276 | The flags and the events of one poll |
| BatteryManagers.ChargingFollowsTheCycle | apps/logistics/tasks/battery_manager.py:122-226 | For any interleaving of robots and any fate of the submissions, charging mode holds exactly between a critical and the next recharged, and each critical led to exactly one submission attempt |
| BatteryManagers.DockTaskIsKnownExactly | apps/logistics/tasks/battery_manager.py:157-221 | Over every run a dock task is recorded exactly while it is marked active |
| BatteryManagers.ManagerPauseEndsWithRecharge | apps/logistics/tasks/battery_manager.py:146-221 | A pause entered by the manager exists only without registered robots and never outlives a handled recharge |
| BatteryManagers.RefusedDockKeepsDispatcherPaused | apps/logistics/tasks/battery_manager.py:146-206 | When the queue answers every submission and no operator interferes, the dispatcher is paused exactly between critical and recharged when no robot is registered; that the answers are refusals is derived from the queue |
| BatteryPauses.PauseSurvivesExactly | apps/logistics/tasks/battery_manager.py:122-226 | A pause in force, whoever entered it, outlasts, with submissions answered by the queue and no operator, everything monitors and manager do next if and only if a robot is registered or the manager sees no further discharge of the default robot to its end |
| BatteryManagers.DockSubmissionIsRefused | apps/logistics/tasks/battery_manager.py:157-169 | The dock task is refused by the queue whatever is stored |
| BatteryManagers.QueueAnswersNothing | apps/logistics/tasks/battery_manager.py:157-169 | Whatever the queue's history, it answers a dock submission without a task |
| BatteryManagers.RunKeeps | apps/logistics/tasks/battery_manager.py:122-226 | The invariant of monitors, queue and manager over every run |
| BatteryManagers.BatteryManager.HandleBatteryCritical | apps/logistics/tasks/battery_manager.py:122-155 | Enters charging mode once per cycle and pauses the dispatcher in the unregistered case |
| BatteryManagers.BatteryManager.FinishSubmission | apps/logistics/tasks/battery_manager.py:157-193 | Records the dock task and resumes, or stops at a failure |
| BatteryManagers.BatteryManager.HandleBatteryRecharged | apps/logistics/tasks/battery_manager.py:195-226 | Resumes the dispatcher if it was paused here and clears the robot's entries |
| TjcFraming.ChunkingIsIrrelevant | apps/hmi_agent/protocol.py:61-76 | For every partition of a stream, the frames of the successive feeds and the final buffer equal those of one feed of the whole |
| TjcFraming.SplitIsSound | apps/hmi_agent/protocol.py:65-76 | Frames each followed by the terminator, then the buffer, reproduce the stream; no frame and no buffer contains a terminator |
| TjcFraming.SplitIsUnique | apps/hmi_agent/protocol.py:65-76 | It is the only such decomposition |
| TjcFraming.FramingRoundTrip | apps/hmi_agent/protocol.py:39-76 | Terminated payloads come back, in any chunking, if and only if none contains the terminator or ends in 0xFF |
| TjcFraming.SplitResumes | apps/hmi_agent/protocol.py:65-76 | Splitting in two goes with the buffer kept in between equals splitting at once |
| TjcFraming.TjcFrameSplitter.Feed | apps/hmi_agent/protocol.py:65-76 | The loop returns the frames and leaves the buffer that splitting buffer and data yields |
| TjcProtocol.TextRoundTrip | apps/hmi_agent/protocol.py:39-40 | Encoding fails exactly on surrogates, loses nothing, and uses no octet above 0xF4 (section 3 of RFC 3629) |
| TjcProtocol.CommandsAreReceived | apps/hmi_agent/protocol.py:39-40 | Any sequence of encoded commands in any chunks is received as exactly those commands |
| TjcProtocol.QuotedTextIsReadBack | apps/hmi_agent/protocol.py:43-44 | An escaped text followed by a quote is read back whole and ends at that quote, so no quote inside is unescaped |
| TjcProtocol.EscapeIsInjective | apps/hmi_agent/protocol.py:43-44 | Escaping is injective |
| TjcProtocol.EscapeOne | apps/hmi_agent/protocol.py:43-44 | The two replacement passes escape character by character |
| TjcProtocol.SetTextIsReceived | apps/hmi_agent/protocol.py:47-48 | A text-setting command in any chunks is received as one command from which component and value are read back |
| TjcProtocol.EventIsReceived | apps/hmi_agent/protocol.py:79-112 | A reported event in any chunks is received as its one frame if and only if the frame cannot be torn; the condition is given per kind of event |
| TjcProtocol.PrintedEventParses | apps/hmi_agent/protocol.py:79-112 | Parsing inverts the frame layout of every kind of event, signed 32-bit numbers included |
| TjcProtocol.ParsesExactlyReports | apps/hmi_agent/protocol.py:79-112 | A frame is understood as an event if and only if it begins with the layout of that event, a string taking all of it |
| EscapedFields.FieldsRoundTrip | shared/provisioning/provision_backend.py:50-72 | Splitting inverts the printer that escapes ':' and '\' and joins with ':', for any fields |
| EscapedFields.MissingFieldsFollowEmpty | shared/provisioning/provision_backend.py:69-72 | With more fields expected than printed, the printed ones come first and empty ones follow |
| EscapedFields.FieldsBeyondAreJoined | shared/provisioning/provision_backend.py:63-69 | With fewer, the last field is what is left, joined by its colons |
| EscapedFields.LoneBackslashVanishes | shared/provisioning/provision_backend.py:60-69 | A backslash with nothing after it disappears |
| EscapedFields.SliceDiscardsNothing | shared/provisioning/provision_backend.py:69-72 | Exactly n fields for n >= 1 and none otherwise; the final slice discards something exactly when n < 1 |
| EscapedFields.PrintedFieldsSplitTheSame | shared/provisioning/provision_backend.py:50-72 | For any input, printing the fields and splitting again gives the same fields |
| EscapedFields.ReadFields | shared/provisioning/provision_backend.py:51-69 | The character loop cuts at the unescaped colons |
| EscapedFields.SplitEscapedFields | shared/provisioning/provision_backend.py:50-72 | The whole function, with padding and slice, for any number of expected fields |
| RobotEntries.GenerateRobotId | shared/provisioning/provision_backend.py:196-210 | Terminates with measure taken ids + 1 - suffix and returns the least free suffix, at most the number of ids + 1 |
| RobotEntries.Pigeonhole | shared/provisioning/provision_backend.py:204-210 | No more candidates than ids can be taken, the formatter being injective |
| RobotEntries.OnlyTheMatchChanges | shared/provisioning/provision_backend.py:268-289 | A write changes only the first entry with that MAC or appends one |
| RobotEntries.WrittenEntryExactly | shared/provisioning/provision_backend.py:245-289 | Each field of the entry written: address, ip, role and path from the request, stripped; enabled and display name kept from an old entry as far as the request does not replace them, enabled by default; the id requested, inherited or the least free one |
| RobotEntries.RequestsAreRefusedExactly | shared/provisioning/provision_backend.py:242-257 | Which requests are turned down before the ids are compared, and with which error |
| RobotEntries.AddressesMatchExactly | shared/provisioning/provision_backend.py:224-229 | Addresses match exactly if they are the same but for outer blanks and the case of letters |
| RobotEntries.CandidateIsSpelt | shared/provisioning/provision_backend.py:206 | A candidate is the role, an underscore and the decimal digits of the suffix, at least two |
| RobotEntries.UpsertKeepsDistinct | shared/provisioning/provision_backend.py:232-289 | It keeps ids and normalised MAC addresses pairwise distinct |
| RobotEntries.UpsertIsIdempotent | shared/provisioning/provision_backend.py:232-289 | Writing the same robot again changes nothing |
| RobotEntries.RefusedExactlyForTakenIds | shared/provisioning/provision_backend.py:213-222 | A write is a duplicate exactly when a requested or inherited id is another entry's; generated ids never are |
| RobotEntries.ProvisionedFilesAreDistinct | shared/provisioning/provision_backend.py:232-289 | Every file written only by provisioning has distinct ids and MAC addresses |
| RobotEntries.RobotsFile.FindEntryByMac | shared/provisioning/provision_backend.py:225-230 | Finds the first entry with that normalised MAC |
| RobotEntries.RobotsFile.EnsureRobotIdIsAvailable | shared/provisioning/provision_backend.py:213-222 | Says whether another entry has the id |
| RobotEntries.RobotsFile.WriteRobotEntry | shared/provisioning/provision_backend.py:232-289 | Writes as specified or refuses and leaves the file alone |
| RetentionLaws.RetentionDeletesExactly | shared/observability/retention.py:117-145 | Over distinct existing files, whatever cannot be deleted, a real run removes exactly the expired files and the deletable ones of the shortest sufficient oldest-first prefix, counts each once and frees the sum of their sizes |
| RetentionLaws.SurvivorsFitTheCap | shared/observability/retention.py:134-145 | With nothing undeletable the prefix is the shortest one whose removal fits the cap, the survivors fit it, and freed plus left is the total |
| RetentionPrediction.DryRunPredictsExactly | shared/observability/retention.py:104-145 | Over existing files whose records of one path agree, a dry run deletes nothing, and it reports what the real run reports, apart from its flag, if and only if no path is picked twice and every picked file can be deleted |
| RetentionPrediction.DryRunPredictsTheRun | shared/observability/retention.py:104-114 | In particular it does over distinct deletable files |
| RetentionPrediction.DuplicatesBreakThePrediction | shared/observability/retention.py:104-114 | The smallest failing case: a file found twice is counted twice by the dry run and once, with an error, by the real run |
| RetentionLaws.RealRunAccountsForTheDisk | shared/observability/retention.py:99-145 | Without any assumption on paths or faults, a real run removes only deletable candidates and counts each removed file once |
| RetentionLaws.CutIsShortest | shared/observability/retention.py:138-143 | The size pass stops after the shortest prefix that brings the total within the cap |
| Retention.Disk.DeleteCandidate | shared/observability/retention.py:104-114 | Deletes or pretends to, and reports |
| Retention.Disk.DeleteByAge | shared/observability/retention.py:121-132 | The age pass and what it leaves |
| Retention.Disk.ApplyRetention | shared/observability/retention.py:121-145 | From the scan's candidates, both passes in place equal the specification |

## Left out

- NavigatorSafety.BlockedWaitIsBounded: bounds the scheduled wake-up; the coroutine may run later than that by the
  configured lateness, because the event loop promises no wake-up time.
- DispatchOutcomes.SuccessfulRouteFinishesExactly: follows the coroutine's own turns; what every interleaving keeps is
  InterleavedRouteFinishesExactly.
- DispatchOutcomes.RouteOutcomeExactly: likewise follows the coroutine's own turns.
- PatrolOutcomes.RouteOutcomeExactly: likewise; what every run keeps is CompletionsFollowSuccess and
  ClearedCyclesAreFinished.
- DispatchEvents.EventOutcomeExactly: the handler is left alone and nobody waits for the queue lock; the requests
  themselves are given for every state by HandlerAsksExactly.
- Retention.Disk.ApplyRetention: starts from the result of the scan for candidate files
  (shared/observability/retention.py:69-96), so the scanned and skipped counters are not in the report.
- SQL, connections and database faults: the tables are maps from id to record, and every database call succeeds; a
  refusal is an outcome of the operation, not a fault.
- REST, WebSocket and browser endpoints, logging, diagnostics, audit, alerts, speech, vision, SSH and YAML handling: no
  effect on the modelled state.
- The "default" robot path and the legacy mirror fields of the logistics dispatcher, and registry changes during a run:
  the dispatcher is modelled with registered robots; the battery manager is modelled with and without them.
- Dispatchers' `stop`, their polling loops and the tracking of scheduled asyncio tasks: any dispatch attempt may start
  at any time instead.
- The watchdog's and the REST layer's own code: environment steps that may fail or cancel any task at any time.
- Trigonometry and floating-point rounding: distances and bearings to the waypoints come with each reading, angles and
  times are reals, pi is the decimal the interpreter prints.
- Localisation updates of the position (shared/navigation/navigator.py:436-447): the reading contains the result.
- The time at which a timer or a woken coroutine runs after it is due: any delay for the timer, a bounded lateness for
  the route coroutine.
- Navigation and battery events dropped by a full bus queue: the navigator and battery results assume the bus accepted
  them; the bus model itself refuses when full.
- The moment between the release of a caller of `wait_until_idle` and its resumption: the idle-wait results
  speak of the release.
- Blanks outside ASCII and case folding beyond ASCII in `strip` and `lower`.
- YAML values of other types than the expected ones in robot entries count as missing.
- The replacement decoding of malformed string returns: the raw payload stands for the text.
- Numeric rendering in number-setting commands: a command is any text.
- Timsort itself: the sort is any stable one, and stable sorts agree.
- Which task or cycle a dispatcher's query returns: any queued or scheduled one; the choice by score is TaskScoring's,
  the patrol queue's oldest-first query (apps/patrol/tasks/patrol_queue.py:153-170) is not modelled.
- The patrol observer and its anomaly ids: an observation yields any count.
- The patrol scheduler, anomaly decider, zone rules, configuration loading and route CRUD: they would add easy members.
- The SDK adapter's mode machine: without serialised calls its natural claim does not hold, with them it is weak.
